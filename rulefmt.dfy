/** The shape of a rule file after YAML decoding (Prometheus' `rulefmt` package). */
module RuleFmt {

  /** One key/value entry of a label or annotation map. */
  datatype Entry = Entry(name: string, value: string)

  /** A rule as written in a rule file. `record` and `alert` are the empty string when
      the field is absent, `forDuration` is the `for` duration in nanoseconds.
      `labels` and `annotations` are Go maps: each is given here by its entries in the
      order a `range` over the map visits them, which Go leaves unspecified. */
  datatype RuleNode = RuleNode(
    record: string,
    alert: string,
    expr: string,
    forDuration: int,
    labels: seq<Entry>,
    annotations: seq<Entry>)

  /** A named group of rules. */
  datatype RuleGroup = RuleGroup(name: string, rules: seq<RuleNode>)

  /** Two rules that differ at most in the order in which their maps are visited. */
  predicate SameUpToMapOrder(r1: RuleNode, r2: RuleNode)
  {
    && r1.record == r2.record
    && r1.alert == r2.alert
    && r1.expr == r2.expr
    && r1.forDuration == r2.forDuration
    && multiset(r1.labels) == multiset(r2.labels)
    && multiset(r1.annotations) == multiset(r2.annotations)
  }

  /** Two group lists that differ at most in the visiting order of their rules' maps. */
  predicate GroupsSameUpToMapOrder(g1: seq<RuleGroup>, g2: seq<RuleGroup>)
  {
    && |g1| == |g2|
    && (forall i :: 0 <= i < |g1| ==> g1[i].name == g2[i].name && |g1[i].rules| == |g2[i].rules|)
    && (forall i, j :: 0 <= i < |g1| && 0 <= j < |g1[i].rules| ==>
          SameUpToMapOrder(g1[i].rules[j], g2[i].rules[j]))
  }
}
