/** The library code the ruler calls but that is not part of this model, and the
    validity predicates of Prometheus' `model` package. */
module External {
  import opened Results
  import opened RuleFmt

  newtype byte = x: int | 0 <= x < 256

  /** Functions of other packages, taken as given:
      - `parseExpr`: LogQL's `syntax.ParseExpr`, passing or failing with a cause;
      - `parseTemplate`: `ParseTest` of a template expander built from a template name and text;
      - `isValidLabelValue`: `model.LabelValue.IsValid` (Go strings may hold invalid UTF-8,
        Dafny strings cannot, so it stays a parameter);
      - `decodeRuleGroups`: the strict (`KnownFields(true)`) YAML decoder of a rule file;
      - `readFile`: reading a file by name. */
  datatype Oracles = Oracles(
    parseExpr: string -> Outcome,
    parseTemplate: (string, string) -> Outcome,
    isValidLabelValue: string -> bool,
    decodeRuleGroups: seq<byte> -> Result<seq<RuleGroup>, string>,
    readFile: string -> Result<seq<byte>, string>)

  /** `model.MetricNameLabel`: the reserved label that carries a series' metric name. */
  const MetricNameLabel: string := "__name__"

  predicate IsAsciiLetter(c: char) { 'a' <= c <= 'z' || 'A' <= c <= 'Z' }

  predicate IsDigit(c: char) { '0' <= c <= '9' }

  /** `model.LabelName.IsValid`: non-empty, letters, digits and `_`, no leading digit. */
  predicate IsValidLabelName(s: string)
  {
    |s| > 0 &&
    forall i :: 0 <= i < |s| ==> IsAsciiLetter(s[i]) || s[i] == '_' || (i > 0 && IsDigit(s[i]))
  }

  /** `model.IsValidMetricName`: as a label name, and `:` is allowed too. */
  predicate IsValidMetricName(s: string)
  {
    |s| > 0 &&
    forall i :: 0 <= i < |s| ==> IsAsciiLetter(s[i]) || s[i] == '_' || s[i] == ':' || (i > 0 && IsDigit(s[i]))
  }

  /** Every valid label name is a valid metric name; the converse fails on `:`. */
  lemma LabelNamesAreMetricNames(s: string)
    ensures IsValidLabelName(s) ==> IsValidMetricName(s)
    ensures !IsValidLabelName("a:b") && IsValidMetricName("a:b")
  {
    assert "a:b"[1] == ':';
  }

  /** `__name__` passes `LabelName.IsValid`, so the validator's separate test for it
      is what keeps it out of a rule's labels. */
  lemma MetricNameLabelIsValidLabelName()
    ensures IsValidLabelName(MetricNameLabel)
  {
  }

  /** The variable definitions prepended to every template before it is parsed. */
  const TemplateDefs: string :=
    "{{$labels := .Labels}}" + "{{$externalLabels := .ExternalLabels}}" + "{{$value := .Value}}"

  /** The name given to the template expander of an alerting rule. */
  function TemplateName(alert: string): string
  {
    "__alert_" + alert
  }

  /** The full text the template expander parses for one label or annotation value. */
  function TemplateSource(text: string): string
  {
    TemplateDefs + text
  }

  /** The closure `parseTest` of `testTemplateParsing`. */
  function ParseTest(lib: Oracles, alert: string, text: string): Outcome
  {
    lib.parseTemplate(TemplateName(alert), TemplateSource(text))
  }
}
