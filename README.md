# Loki ruler: rule-file validation and the rule query function

This project models the part of Loki's ruler that decides whether a file of
alerting and recording rules is acceptable, together with the query function
the ruler evaluates those rules with (`pkg/ruler/compat.go`).

- `validateRuleNode` checks a single rule. The checks run in a fixed order, and
  the first one that fails gives the rule's only error:
  1. exactly one of `record` and `alert` is set;
  2. `expr` is set and parses as LogQL;
  3. a recording rule has no annotations, no `for`, and a valid metric name;
  4. every label has a valid name other than `__name__`, and a valid value;
  5. every annotation has a valid name;
  6. every label and annotation template of an alerting rule parses.
- `testTemplateParsing` parses each label template and then each annotation
  template of an alerting rule. Before parsing, it puts the three variable
  definitions in front of the template and names the template `__alert_<alert>`.
  It collects one error for every template that fails to parse.
- `ValidateGroups` scans the groups in order. For each group it reports:
  - an empty group name, tagged with the group's index;
  - a name that an earlier group already used, once for every later duplicate;
  - the error of each rule the validator rejects, in rule order.
- `parseRules` decodes a file's YAML. A decoding failure is the only error and
  gives no groups. Otherwise it returns the groups and the validator's errors.
- `GroupLoader.Load` reads the file. A read failure is the only error.
  Otherwise every error of `parseRules` is wrapped with the file name, keeping
  their number and order.
- `engineQueryFunc` works as follows:
  - it refuses to run while the tenant's storage is not ready;
  - otherwise it runs the query as an instant query, at the evaluation time
    minus the tenant's evaluation delay;
  - a vector result is returned as is;
  - a scalar result becomes a one-sample vector with no labels;
  - any other result is an error.

How the model is built:

- **Rules and groups** are values (`RuleFmt`).
- **Go maps.** A rule's `labels` and `annotations` are Go maps, and Go visits
  their entries in an unspecified order. The model therefore takes them as
  sequences of entries: the order one `range` loop visits them in, which is an
  input to the model. The lemmas `RuleNodeProperties.VerdictIgnoresMapOrder`
  and `GroupProperties.ErrorClassesIgnoreMapOrder` then prove that this order
  does not change two things:
  - whether a rule, or a file, is accepted;
  - which check each reported error comes from.

  Only the choice of offending entry among several can depend on the order.
- **Library code** is passed in as the fields of `External.Oracles`. This covers:
  - the LogQL parser;
  - the template parser;
  - the label-value check;
  - the YAML decoder;
  - the file system.
- **Errors** are values, `Errors.RuleError` and `Errors.Error`. They carry the
  kind and the arguments of each error, not its text.

The loops are methods: `TestTemplateParsing`, `ValidateGroups` with its inner
loop over a group's rules (`ValidateRules`), and `Load`. Each is proved equal
to a specification function:
- `TemplateErrors` for `TestTemplateParsing`;
- `RuleErrors` for `ValidateRules`;
- `GroupErrors` for `ValidateGroups`;
- `ParseRules` for the result `Load` wraps.

The properties are then proved about those functions. They are stated against
declarative references: `Passes` and `WellFormedRule` for a rule, and
`GroupsValid` for a list of groups.

One behaviour worth knowing: the parse error for an expression names the rule's
`record` field. That field is empty for an alerting rule. The model keeps the
field as the code has it (`ExprUnparsable(record, group, cause)`).

## Model

| member | source | states |
|---|---|---|
| RuleNodeValidation.FirstLabelError | pkg/ruler/compat.go:270-278 | no label error exactly when every label has a valid name other than `__name__` and a valid value; otherwise the error names the first offending label in visiting order (its name if the name is bad, else its value), and every label before it is fine |
| RuleNodeValidation.FirstAnnotationError | pkg/ruler/compat.go:280-284 | no annotation error exactly when every annotation name is a valid label name; otherwise the error names the first annotation with an invalid name, and all annotations before it are fine |
| External.ParseTest | pkg/ruler/compat.go:303-320 | the outcome of parsing one template: the three variable definitions followed by the text, under the name `__alert_<alert>`; its properties are stated by the template lemmas below |
| RuleNodeValidation.LabelTemplateErrors | pkg/ruler/compat.go:322-328 | every error is a `LabelTemplate` error; an error is in the list exactly when some label's template fails to parse and the error carries that label's name and the parser's cause; never more errors than labels |
| RuleNodeProperties.LabelTemplateErrorsOnePerFailure | pkg/ruler/compat.go:322-328 | the label loop collects exactly as many errors as there are labels whose template fails to parse |
| RuleNodeValidation.AnnotationTemplateErrors | pkg/ruler/compat.go:330-336 | every error is an `AnnotationTemplate` error; an error is in the list exactly when some annotation's template fails to parse and the error carries that annotation's name and the parser's cause; never more errors than annotations |
| RuleNodeProperties.AnnotationTemplateErrorsOnePerFailure | pkg/ruler/compat.go:330-336 | the annotation loop collects exactly as many errors as there are annotations whose template fails to parse |
| RuleNodeValidation.TestTemplateParsing | pkg/ruler/compat.go:295-339 | the two loops return exactly `TemplateErrors`: nothing for a recording rule, else the label-template errors followed by the annotation-template errors |
| RuleNodeProperties.TemplateErrorsEmptyIffTemplatesParse | pkg/ruler/compat.go:295-339 | a rule without `alert` yields no template error; at most one error per label and annotation; no error exactly when every label and annotation template parses |
| RuleNodeProperties.TemplateErrorsJustified | pkg/ruler/compat.go:322-336 | every template error names a label or annotation of the rule whose template really fails to parse, with the parser's cause |
| RuleNodeProperties.LabelTemplateErrorsComeFirst | pkg/ruler/compat.go:322-336 | all label-template errors precede all annotation-template errors |
| RuleNodeValidation.ValidateRuleNode | pkg/ruler/compat.go:243-291 | the guard chain of `validateRuleNode`, in the code's order; its contract is stated by `RuleVerdictIsFirstFailingCheck`, `RuleErrorIsJustified`, `ChecksFollowRuleKind`, `RecordingGuardsInOrder`, `ReportsFirstTemplateError` and `VerdictIgnoresMapOrder` |
| RuleNodeProperties.RuleVerdictIsFirstFailingCheck | pkg/ruler/compat.go:243-291 | `validateRuleNode` accepts a rule exactly when it passes all six checks; when it rejects one, the error's check fails and every check ranked before it passes |
| RuleNodeProperties.RuleErrorIsJustified | pkg/ruler/compat.go:243-291 | every error the validator returns is backed by the rule: the offending field, label, annotation or template is really in the rule and really invalid |
| RuleNodeProperties.ChecksFollowRuleKind | pkg/ruler/compat.go:258-299 | an alerting rule is never rejected for a recording-rule field, and a recording rule is never rejected for a template |
| RuleNodeProperties.RecordingGuardsInOrder | pkg/ruler/compat.go:258-268 | a recording rule whose kind and expression pass is rejected for annotations whenever it has any, else for `for` whenever it is set, else for an invalid metric name; a `for` error implies no annotations, and a name error implies no annotations and no `for` |
| RuleNodeProperties.ReportsFirstTemplateError | pkg/ruler/compat.go:286-288 | when the template check fails, the rule's error is the first error `testTemplateParsing` collects, and a failing label template is reported before any annotation template |
| RuleNodeProperties.VerdictIgnoresMapOrder | pkg/ruler/compat.go:270-288 | two rules that differ only in the visiting order of their labels and annotations are both accepted or both rejected, for the same check |
| GroupValidation.RuleErrors | pkg/ruler/compat.go:233-237 | the rules of one group give at most one error each, all of them rule errors |
| GroupProperties.RuleErrorsMembers | pkg/ruler/compat.go:233-237 | an error is among a group's rule errors exactly when it wraps the verdict of one of the group's rejected rules |
| GroupProperties.RuleErrorsCount | pkg/ruler/compat.go:233-237 | a group's rules draw exactly as many errors as there are rejected rules |
| GroupValidation.ValidateRules | pkg/ruler/compat.go:233-237 | the loop over a group's rules returns exactly `RuleErrors`, the verdicts of the rejected rules in rule order |
| GroupValidation.ValidateGroups | pkg/ruler/compat.go:216-241 | the loop, with its set of names seen so far, returns exactly `GroupErrors`: for each group in order, its name errors and then its rules' errors |
| GroupProperties.EmptyNamesReportedByIndex | pkg/ruler/compat.go:219-222 | an empty-name error for index k is reported exactly when group k exists and has an empty name |
| GroupProperties.RepeatedNameReportedPerLaterDuplicate | pkg/ruler/compat.go:224-231 | a group name used n > 0 times is reported as repeated exactly n - 1 times; an unused name never |
| GroupProperties.ErrorCountBounded | pkg/ruler/compat.go:219-238 | at most two errors per group plus one per rule |
| GroupProperties.EarlierGroupsReportedFirst | pkg/ruler/compat.go:219-238 | the errors of the first n groups are a prefix of the errors of all groups: later groups never change earlier reports |
| GroupProperties.NoRuleErrorsIffRulesAccepted | pkg/ruler/compat.go:233-237 | a group's rules give no error exactly when every rule is well formed |
| GroupProperties.NoErrorsIffGroupsValid | pkg/ruler/compat.go:216-241 | no error at all exactly when every group name is non-empty, all names are distinct and every rule is well formed |
| GroupProperties.ErrorClassesIgnoreMapOrder | pkg/ruler/compat.go:216-291 | files that differ only in the visiting order of label and annotation maps give the same number of errors, error by error of the same kind (same index, same repeated name, same failing check) |
| Loader.OnlyValidationErrors | pkg/ruler/compat.go:216-241 | the validator reports only empty-name, repeated-name and rule errors |
| Loader.ParseRules | pkg/ruler/compat.go:196-214 | `parseRules`: the decoder's error alone, or the decoded groups with the validator's errors; its contract is stated by `ParseRulesOutcomes` |
| Loader.ParseRulesOutcomes | pkg/ruler/compat.go:196-214 | a decoding failure gives no groups and exactly the decoder's error; a decoded file gives its groups and the validator's errors, at most two per group plus one per rule, none a decoding error, and none at all exactly when the groups are valid |
| Loader.Load | pkg/ruler/compat.go:184-194 | a read failure gives no groups and only that failure, wrapped with the file name; otherwise the groups of `parseRules` and its errors, each wrapped with the file name, same number, same order |
| RuleQuery.EngineQuery | pkg/ruler/compat.go:58-95 | fails with not-ready exactly when the tenant's storage is not ready; a success is the engine's vector, or a single unlabelled sample holding the engine's scalar; a failure while ready is the engine's own error, or the not-a-vector-or-scalar error for any other kind of result (a matrix, a string or log streams) |
| RuleQuery.QueriesOnlyAtDelayedInstant | pkg/ruler/compat.go:62-79 | the result depends only on readiness and on the instant query at time `t` minus the evaluation delay, forward, with no step, interval, limit or shards |
| External.LabelNamesAreMetricNames | pkg/ruler/compat.go:265-281 | every valid label name is a valid metric name, but not conversely (`a:b`): recording names may contain colons, label and annotation names may not |
| External.MetricNameLabelIsValidLabelName | pkg/ruler/compat.go:271 | `__name__` is itself a valid label name, so only the explicit comparison keeps it out of a rule's labels |

## Left out

- `MultiTenantManager`, `MultiTenantManagerAdapter` and `MultiTenantRuleManager` (pkg/ruler/compat.go:98-171) only delegate to or wire up Prometheus' rule manager, registry and metrics. `ValidateRuleGroup` there calls `ValidateGroups`, which is modelled.
- `GroupLoader.Parse` and `exprAdapter` (pkg/ruler/compat.go:175-182, 342-348) wrap the LogQL parser for Prometheus and hold no logic of their own.
- The LogQL parser, the template parser and expander, the YAML decoder with its known-fields rule, `LabelValue.IsValid`, the query engine and the file system are not part of this model. They are inputs (`External.Oracles`, `RuleQuery.Ruler`).
- `model.IsValidMetricName` and `model.LabelName.IsValid` are given Prometheus' legacy character-class definitions (`External.IsValidMetricName`, `External.IsValidLabelName`). The `model` package is not part of this model.
- Error texts are not rendered. Errors are values carrying their kind and arguments. This leaves out `%q` quoting, the wording of each message, and the message text being passed as a format string to `errors.Wrapf`.
- The template data, `context.TODO()` and `time.Now()` passed to the expander influence only expansion, not `ParseTest`. They are not modelled.
- Go's randomised map iteration is an explicit input, the visiting order. The model uses one order per map per rule for both the validity loops and the template loops. Its verdict is proved independent of that order, but which entry is named among several offending ones depends on it.
- Fields of a rule group that the validator does not read (interval, limit, source tenants) and the YAML node positions of a rule are not modelled.
- Times are unbounded integers (nanoseconds) and sample values are reals that are only copied. Overflow of Go's `time.Time` arithmetic and float64 behaviour are not modelled.
- The context passed to the query is not modelled; cancellation shows up only as an engine error.
