/** The errors the rule validator and loader report, by kind and arguments. */
module Errors {

  /** The error `validateRuleNode` returns for one rule. */
  datatype RuleError =
    | RecordAndAlert                                        // both 'record' and 'alert' are set
    | NoRecordOrAlert                                       // neither is set
    | ExprMissing                                           // 'expr' is empty
    | ExprUnparsable(record: string, group: string, cause: string)
    | AnnotationsInRecordingRule
    | ForInRecordingRule
    | InvalidRecordName(record: string)
    | InvalidLabelName(name: string)
    | InvalidLabelValue(value: string)
    | InvalidAnnotationName(name: string)
    | LabelTemplate(key: string, cause: string)             // a label value's template fails to parse
    | AnnotationTemplate(key: string, cause: string)        // an annotation value's template fails to parse

  /** An error of `ValidateGroups`, `parseRules` or `Load`. A rule's error is reported
      unchanged; `InRule` only lifts it into this type. */
  datatype Error =
    | EmptyGroupName(index: nat)
    | RepeatedGroupName(name: string)
    | InRule(rule: RuleError)
    | DecodeFailed(cause: string)
    | ReadFailed(cause: string)
    | Wrapped(identifier: string, inner: Error)

  /** The checks of `validateRuleNode`, in the order it makes them. */
  datatype Check = RuleKind | Expression | RecordingFields | LabelPairs | AnnotationNames | Templates

  /** The position of a check in that order. */
  function Rank(c: Check): nat
  {
    match c
    case RuleKind => 0
    case Expression => 1
    case RecordingFields => 2
    case LabelPairs => 3
    case AnnotationNames => 4
    case Templates => 5
  }

  /** The check that reports a given rule error. */
  function CheckOf(e: RuleError): Check
  {
    match e
    case RecordAndAlert => RuleKind
    case NoRecordOrAlert => RuleKind
    case ExprMissing => Expression
    case ExprUnparsable(_, _, _) => Expression
    case AnnotationsInRecordingRule => RecordingFields
    case ForInRecordingRule => RecordingFields
    case InvalidRecordName(_) => RecordingFields
    case InvalidLabelName(_) => LabelPairs
    case InvalidLabelValue(_) => LabelPairs
    case InvalidAnnotationName(_) => AnnotationNames
    case LabelTemplate(_, _) => Templates
    case AnnotationTemplate(_, _) => Templates
  }

  /** What of an error does not depend on map iteration order: the group errors whole,
      and of a rule's error only the check that raised it. */
  datatype ErrorClass = EmptyName(index: nat) | Repeated(name: string) | FailedCheck(check: Check) | Other

  function Classify(e: Error): ErrorClass
  {
    match e
    case EmptyGroupName(i) => EmptyName(i)
    case RepeatedGroupName(n) => Repeated(n)
    case InRule(r) => FailedCheck(CheckOf(r))
    case _ => Other
  }
}
