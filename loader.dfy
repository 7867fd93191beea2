/** `GroupLoader`: reading a rule file, decoding it and validating its groups. */
module Loader {
  import opened Results
  import opened RuleFmt
  import opened External
  import opened Errors
  import opened RuleNodeValidation
  import opened GroupValidation
  import opened GroupProperties

  /** The groups of a rule file, when it decoded, and the errors found in it. */
  datatype Loaded = Loaded(groups: Option<seq<RuleGroup>>, errs: seq<Error>)

  /** `parseRules`: a decoding failure is the only error and yields no groups; otherwise
      the decoded groups come back together with the validator's errors. */
  function ParseRules(content: seq<byte>, lib: Oracles): Loaded
  {
    match lib.decodeRuleGroups(content)
    case Failure(cause) => Loaded(None, [DecodeFailed(cause)])
    case Success(grps) => Loaded(Some(grps), GroupErrors(grps, lib))
  }

  /** `parseRules` has two outcomes: no groups and exactly the decoder's error, or the
      decoded groups with at most two errors per group and one per rule, none of them
      a decoding error, and no error at all exactly when the groups are valid. */
  lemma ParseRulesOutcomes(content: seq<byte>, lib: Oracles)
    ensures var parsed := ParseRules(content, lib);
      match lib.decodeRuleGroups(content)
      case Failure(cause) => parsed.groups == None && parsed.errs == [DecodeFailed(cause)]
      case Success(grps) =>
        && parsed.groups == Some(grps)
        && |parsed.errs| <= MaxErrors(grps)
        && (forall e :: e in parsed.errs ==> !e.DecodeFailed?)
        && (parsed.errs == [] <==> GroupsValid(grps, lib))
  {
    match lib.decodeRuleGroups(content)
    case Failure(_) =>
    case Success(grps) =>
      ErrorCountBounded(grps, lib);
      NoErrorsIffGroupsValid(grps, lib);
      OnlyValidationErrors(grps, lib);
  }

  /** The validator reports only group-name errors and rule errors. */
  lemma {:induction false} OnlyValidationErrors(grps: seq<RuleGroup>, lib: Oracles)
    ensures forall e :: e in GroupErrors(grps, lib) ==> e.EmptyGroupName? || e.RepeatedGroupName? || e.InRule?
    decreases |grps|
  {
    if grps != [] {
      OnlyValidationErrors(grps[..|grps| - 1], lib);
      GroupErrorsLast(grps, lib);
    }
  }

  /** `GroupLoader.Load`: reads the file named `identifier`; a read failure is the only
      error; otherwise every error of `parseRules` is wrapped, in place, with the
      identifier, keeping their number and order. */
  method Load(identifier: string, lib: Oracles) returns (groups: Option<seq<RuleGroup>>, errs: seq<Error>)
    ensures match lib.readFile(identifier)
      case Failure(cause) => groups == None && errs == [Wrapped(identifier, ReadFailed(cause))]
      case Success(content) =>
        && groups == ParseRules(content, lib).groups
        && |errs| == |ParseRules(content, lib).errs|
        && forall i :: 0 <= i < |errs| ==> errs[i] == Wrapped(identifier, ParseRules(content, lib).errs[i])
  {
    match lib.readFile(identifier) {
      case Failure(cause) =>
        return None, [Wrapped(identifier, ReadFailed(cause))];
      case Success(content) =>
        var parsed := ParseRules(content, lib);
        groups, errs := parsed.groups, parsed.errs;
        for i := 0 to |errs|
          invariant |errs| == |parsed.errs|
          invariant forall k :: 0 <= k < i ==> errs[k] == Wrapped(identifier, parsed.errs[k])
          invariant forall k :: i <= k < |errs| ==> errs[k] == parsed.errs[k]
        {
          errs := errs[i := Wrapped(identifier, errs[i])];
        }
    }
  }
}
