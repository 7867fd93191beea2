/** `engineQueryFunc`: the query function the ruler evaluates rules with. */
module RuleQuery {
  import opened Results

  datatype Label = Label(name: string, value: string)

  /** A sample point: a timestamp in milliseconds and a value (a float64 in the source). */
  datatype Point = Point(t: int, v: real)

  /** One sample of an instant vector: a label set and a point. */
  datatype Sample = Sample(metric: seq<Label>, point: Point)

  /** One series of a range vector. */
  datatype Series = Series(metric: seq<Label>, points: seq<Point>)

  /** One log line of a stream, and a stream: its label set and its lines. */
  datatype LogEntry = LogEntry(t: int, line: string)
  datatype Stream = Stream(labels: string, entries: seq<LogEntry>)

  /** The kinds of value a query can produce. */
  datatype QueryData =
    | VectorData(samples: seq<Sample>)
    | ScalarData(point: Point)
    | MatrixData(series: seq<Series>)
    | StringData(t: int, s: string)
    | StreamsData(streams: seq<Stream>)

  datatype Direction = Forward | Backward

  /** The parameters `logql.NewLiteralParams` is given; times are in nanoseconds. */
  datatype LiteralParams = LiteralParams(
    query: string,
    start: int,
    end: int,
    step: int,
    interval: int,
    direction: Direction,
    limit: nat,
    shards: seq<string>)

  datatype QueryError = NotReady | ExecFailed(cause: string) | NotVectorOrScalar

  /** What the query function is built from: the tenant storage's readiness, the
      tenant's evaluation delay (nanoseconds), and the engine running a query. */
  datatype Ruler = Ruler(
    isReady: string -> bool,
    evaluationDelay: string -> int,
    exec: LiteralParams -> Result<QueryData, string>)

  /** The instant query the engine is asked to run at time `at`. */
  function InstantParams(qs: string, at: int): LiteralParams
  {
    LiteralParams(qs, at, at, 0, 0, Forward, 0, [])
  }

  /** The query function of tenant `userID`, evaluated on query `qs` at time `t`
      (nanoseconds). */
  function EngineQuery(ruler: Ruler, userID: string, qs: string, t: int): (r: Result<seq<Sample>, QueryError>)
    ensures r == Failure(NotReady) <==> !ruler.isReady(userID)
    ensures r.Success? ==>
      var answer := ruler.exec(InstantParams(qs, t - ruler.evaluationDelay(userID)));
      || answer == Success(VectorData(r.value))
      || (answer.Success? && answer.value.ScalarData? && r.value == [Sample([], answer.value.point)])
    ensures ruler.isReady(userID) && r.Failure? ==>
      var answer := ruler.exec(InstantParams(qs, t - ruler.evaluationDelay(userID)));
      || (r.error.ExecFailed? && answer == Failure(r.error.cause))
      || (answer.Success? && !answer.value.VectorData? && !answer.value.ScalarData? && r.error == NotVectorOrScalar)
  {
    if !ruler.isReady(userID) then Failure(NotReady)
    else
      var adjusted := t - ruler.evaluationDelay(userID);
      match ruler.exec(InstantParams(qs, adjusted))
      case Failure(cause) => Failure(ExecFailed(cause))
      case Success(VectorData(v)) => Success(v)
      case Success(ScalarData(p)) => Success([Sample([], p)])
      case Success(_) => Failure(NotVectorOrScalar)
  }

  /** The result depends on the engine only through the one instant query at `t` minus the
      tenant's evaluation delay, and a tenant that is not ready never sees the engine. */
  lemma QueriesOnlyAtDelayedInstant(ruler1: Ruler, ruler2: Ruler, userID: string, qs: string, t: int)
    requires ruler1.isReady(userID) == ruler2.isReady(userID)
    requires ruler1.isReady(userID) ==>
      ruler1.exec(InstantParams(qs, t - ruler1.evaluationDelay(userID))) ==
      ruler2.exec(InstantParams(qs, t - ruler2.evaluationDelay(userID)))
    ensures EngineQuery(ruler1, userID, qs, t) == EngineQuery(ruler2, userID, qs, t)
  {
  }
}
