/** `validateRuleNode` and `testTemplateParsing`: the checks one rule must pass. */
module RuleNodeValidation {
  import opened Results
  import opened RuleFmt
  import opened External
  import opened Errors

  /** A label the loop over a rule's labels lets through. */
  predicate LabelOk(l: Entry, lib: Oracles)
  {
    IsValidLabelName(l.name) && l.name != MetricNameLabel && lib.isValidLabelValue(l.value)
  }

  /** The error for a rejected label: its name is tested before its value. */
  function LabelError(l: Entry): RuleError
  {
    if !IsValidLabelName(l.name) || l.name == MetricNameLabel then InvalidLabelName(l.name)
    else InvalidLabelValue(l.value)
  }

  /** The loop over a rule's labels: the error for the first rejected label visited. */
  function FirstLabelError(labels: seq<Entry>, lib: Oracles): (res: Option<RuleError>)
    ensures res.None? <==> forall l :: l in labels ==> LabelOk(l, lib)
    ensures res.Some? ==>
      exists i :: 0 <= i < |labels| && !LabelOk(labels[i], lib) && res.value == LabelError(labels[i]) &&
        forall k :: 0 <= k < i ==> LabelOk(labels[k], lib)
  {
    if labels == [] then None
    else if !LabelOk(labels[0], lib) then Some(LabelError(labels[0]))
    else
      var rest := FirstLabelError(labels[1..], lib);
      assert labels == [labels[0]] + labels[1..];
      rest
  }

  /** The loop over a rule's annotations: the first annotation visited whose name is invalid. */
  function FirstAnnotationError(annotations: seq<Entry>): (res: Option<RuleError>)
    ensures res.None? <==> forall a :: a in annotations ==> IsValidLabelName(a.name)
    ensures res.Some? ==>
      exists i :: 0 <= i < |annotations| && !IsValidLabelName(annotations[i].name) &&
        res.value == InvalidAnnotationName(annotations[i].name) &&
        forall k :: 0 <= k < i ==> IsValidLabelName(annotations[k].name)
  {
    if annotations == [] then None
    else if !IsValidLabelName(annotations[0].name) then Some(InvalidAnnotationName(annotations[0].name))
    else
      var rest := FirstAnnotationError(annotations[1..]);
      assert annotations == [annotations[0]] + annotations[1..];
      rest
  }

  /** The errors of the template loop over labels, in visiting order. */
  function LabelTemplateErrors(labels: seq<Entry>, alert: string, lib: Oracles): (errs: seq<RuleError>)
    ensures |errs| <= |labels|
    ensures forall i :: 0 <= i < |errs| ==> errs[i].LabelTemplate?
    ensures forall e :: e in errs <==>
      exists l :: l in labels && ParseTest(lib, alert, l.value).Fail? &&
        e == LabelTemplate(l.name, ParseTest(lib, alert, l.value).cause)
    decreases |labels|
  {
    if labels == [] then []
    else
      var n := |labels| - 1;
      assert labels == labels[..n] + [labels[n]];
      LabelTemplateErrors(labels[..n], alert, lib) +
      match ParseTest(lib, alert, labels[n].value)
      case Pass => []
      case Fail(cause) => [LabelTemplate(labels[n].name, cause)]
  }

  /** The errors of the template loop over annotations, in visiting order. */
  function AnnotationTemplateErrors(annotations: seq<Entry>, alert: string, lib: Oracles): (errs: seq<RuleError>)
    ensures |errs| <= |annotations|
    ensures forall i :: 0 <= i < |errs| ==> errs[i].AnnotationTemplate?
    ensures forall e :: e in errs <==>
      exists a :: a in annotations && ParseTest(lib, alert, a.value).Fail? &&
        e == AnnotationTemplate(a.name, ParseTest(lib, alert, a.value).cause)
    decreases |annotations|
  {
    if annotations == [] then []
    else
      var n := |annotations| - 1;
      assert annotations == annotations[..n] + [annotations[n]];
      AnnotationTemplateErrors(annotations[..n], alert, lib) +
      match ParseTest(lib, alert, annotations[n].value)
      case Pass => []
      case Fail(cause) => [AnnotationTemplate(annotations[n].name, cause)]
  }

  /** The positions of the entries whose template fails to parse. */
  function FailingTemplates(entries: seq<Entry>, alert: string, lib: Oracles): set<nat>
  {
    set i: nat | i < |entries| && ParseTest(lib, alert, entries[i].value).Fail?
  }

  /** What `testTemplateParsing` returns: nothing for a rule that is not an alerting
      rule, otherwise the label errors followed by the annotation errors. */
  function TemplateErrors(r: RuleNode, lib: Oracles): seq<RuleError>
  {
    if r.alert == "" then []
    else LabelTemplateErrors(r.labels, r.alert, lib) + AnnotationTemplateErrors(r.annotations, r.alert, lib)
  }

  /** `testTemplateParsing`: parses the template of every label and annotation value of
      an alerting rule and collects one error per value that fails. */
  method TestTemplateParsing(r: RuleNode, lib: Oracles) returns (errs: seq<RuleError>)
    ensures errs == TemplateErrors(r, lib)
  {
    errs := [];
    if r.alert == "" {
      return;
    }
    var i := 0;
    while i < |r.labels|
      invariant 0 <= i <= |r.labels|
      invariant errs == LabelTemplateErrors(r.labels[..i], r.alert, lib)
    {
      var l := r.labels[i];
      match ParseTest(lib, r.alert, l.value) {
        case Fail(cause) => errs := errs + [LabelTemplate(l.name, cause)];
        case Pass =>
      }
      assert r.labels[..i + 1][..i] == r.labels[..i];
      i := i + 1;
    }
    assert r.labels[..i] == r.labels;
    ghost var labelErrs := errs;
    var j := 0;
    while j < |r.annotations|
      invariant 0 <= j <= |r.annotations|
      invariant errs == labelErrs + AnnotationTemplateErrors(r.annotations[..j], r.alert, lib)
    {
      var a := r.annotations[j];
      match ParseTest(lib, r.alert, a.value) {
        case Fail(cause) => errs := errs + [AnnotationTemplate(a.name, cause)];
        case Pass =>
      }
      assert r.annotations[..j + 1][..j] == r.annotations[..j];
      j := j + 1;
    }
    assert r.annotations[..j] == r.annotations;
  }

  /** `validateRuleNode`: the chain of checks, each returning the first error it finds.
      `group` is the name of the rule's group, used only in the message of an
      expression that does not parse. */
  function ValidateRuleNode(r: RuleNode, group: string, lib: Oracles): Option<RuleError>
  {
    if r.record != "" && r.alert != "" then Some(RecordAndAlert)
    else if r.record == "" && r.alert == "" then Some(NoRecordOrAlert)
    else if r.expr == "" then Some(ExprMissing)
    else if lib.parseExpr(r.expr).Fail? then Some(ExprUnparsable(r.record, group, lib.parseExpr(r.expr).cause))
    else if r.record != "" && |r.annotations| > 0 then Some(AnnotationsInRecordingRule)
    else if r.record != "" && r.forDuration != 0 then Some(ForInRecordingRule)
    else if r.record != "" && !IsValidMetricName(r.record) then Some(InvalidRecordName(r.record))
    else if FirstLabelError(r.labels, lib).Some? then FirstLabelError(r.labels, lib)
    else if FirstAnnotationError(r.annotations).Some? then FirstAnnotationError(r.annotations)
    else
      var errs := TemplateErrors(r, lib);
      if errs == [] then None else Some(errs[0])
  }

  /** Whether a rule passes one check, stated without reference to visiting order. */
  predicate Passes(r: RuleNode, lib: Oracles, c: Check)
  {
    match c
    case RuleKind => (r.record != "") != (r.alert != "")
    case Expression => r.expr != "" && lib.parseExpr(r.expr).Pass?
    case RecordingFields =>
      r.record != "" ==> |r.annotations| == 0 && r.forDuration == 0 && IsValidMetricName(r.record)
    case LabelPairs => forall l :: l in r.labels ==> LabelOk(l, lib)
    case AnnotationNames => forall a :: a in r.annotations ==> IsValidLabelName(a.name)
    case Templates =>
      r.alert != "" ==>
        (forall l :: l in r.labels ==> ParseTest(lib, r.alert, l.value).Pass?) &&
        (forall a :: a in r.annotations ==> ParseTest(lib, r.alert, a.value).Pass?)
  }

  /** A rule that passes every check. */
  predicate WellFormedRule(r: RuleNode, lib: Oracles)
  {
    forall c :: Passes(r, lib, c)
  }

  /** What an error says about the rule it was reported for. */
  ghost predicate Justified(r: RuleNode, group: string, lib: Oracles, e: RuleError)
  {
    match e
    case RecordAndAlert => r.record != "" && r.alert != ""
    case NoRecordOrAlert => r.record == "" && r.alert == ""
    case ExprMissing => r.expr == ""
    case ExprUnparsable(record, g, cause) =>
      record == r.record && g == group && r.expr != "" && lib.parseExpr(r.expr) == Fail(cause)
    case AnnotationsInRecordingRule => r.record != "" && |r.annotations| > 0
    case ForInRecordingRule => r.record != "" && r.forDuration != 0
    case InvalidRecordName(record) => record == r.record && record != "" && !IsValidMetricName(record)
    case InvalidLabelName(k) =>
      exists l :: l in r.labels && l.name == k && (!IsValidLabelName(k) || k == MetricNameLabel)
    case InvalidLabelValue(v) =>
      exists l :: l in r.labels && l.value == v && IsValidLabelName(l.name) && l.name != MetricNameLabel &&
        !lib.isValidLabelValue(v)
    case InvalidAnnotationName(k) =>
      exists a :: a in r.annotations && a.name == k && !IsValidLabelName(k)
    case LabelTemplate(k, cause) =>
      r.alert != "" && exists l :: l in r.labels && l.name == k && ParseTest(lib, r.alert, l.value) == Fail(cause)
    case AnnotationTemplate(k, cause) =>
      r.alert != "" && exists a :: a in r.annotations && a.name == k && ParseTest(lib, r.alert, a.value) == Fail(cause)
  }
}
