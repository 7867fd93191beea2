/** `ValidateGroups`: the checks over all the groups of one rule file. */
module GroupValidation {
  import opened Results
  import opened RuleFmt
  import opened External
  import opened Errors
  import opened RuleNodeValidation

  /** The names of the given groups: what the validator's `set` holds after it has
      scanned them. */
  function Names(grps: seq<RuleGroup>): set<string>
    decreases |grps|
  {
    if grps == [] then {} else Names(grps[..|grps| - 1]) + {grps[|grps| - 1].name}
  }

  /** The errors about the name of group `g`, which follows the groups `before`:
      an empty name (tagged with the group's index), then a name seen before. */
  function NameErrors(before: seq<RuleGroup>, g: RuleGroup): seq<Error>
  {
    (if g.name == "" then [EmptyGroupName(|before|)] else []) +
    (if g.name in Names(before) then [RepeatedGroupName(g.name)] else [])
  }

  /** The errors of the rules of one group, one per rejected rule, in rule order. */
  function RuleErrors(rules: seq<RuleNode>, group: string, lib: Oracles): (errs: seq<Error>)
    ensures |errs| <= |rules|
    ensures forall e :: e in errs ==> e.InRule?
    decreases |rules|
  {
    if rules == [] then []
    else
      var n := |rules| - 1;
      RuleErrors(rules[..n], group, lib) + Reported(ValidateRuleNode(rules[n], group, lib))
  }

  /** What a rule's verdict adds to the list: its error, if it has one. */
  function Reported(res: Option<RuleError>): seq<Error>
  {
    match res
    case None => []
    case Some(e) => [InRule(e)]
  }

  /** The errors `ValidateGroups` reports for a list of groups: group by group, the name
      errors of a group and then its rules' errors. */
  function GroupErrors(grps: seq<RuleGroup>, lib: Oracles): seq<Error>
    decreases |grps|
  {
    if grps == [] then []
    else
      var n := |grps| - 1;
      GroupErrors(grps[..n], lib) + NameErrors(grps[..n], grps[n]) + RuleErrors(grps[n].rules, grps[n].name, lib)
  }

  lemma NamesStep(grps: seq<RuleGroup>, i: nat)
    requires i < |grps|
    ensures Names(grps[..i + 1]) == Names(grps[..i]) + {grps[i].name}
  {
    assert grps[..i + 1][..i] == grps[..i];
  }

  /** The last group's errors follow those of the groups before it. */
  lemma GroupErrorsLast(grps: seq<RuleGroup>, lib: Oracles)
    requires grps != []
    ensures var n := |grps| - 1;
      GroupErrors(grps, lib) ==
        GroupErrors(grps[..n], lib) + NameErrors(grps[..n], grps[n]) + RuleErrors(grps[n].rules, grps[n].name, lib)
  {
  }

  lemma RuleErrorsStep(rules: seq<RuleNode>, j: nat, group: string, lib: Oracles)
    requires j < |rules|
    ensures RuleErrors(rules[..j + 1], group, lib) == RuleErrors(rules[..j], group, lib) + Reported(ValidateRuleNode(rules[j], group, lib))
  {
    assert rules[..j + 1][..j] == rules[..j];
  }

  /** The inner loop of `ValidateGroups`: validates each rule of one group in order and
      collects the error of every rejected rule. */
  method ValidateRules(rules: seq<RuleNode>, group: string, lib: Oracles) returns (errs: seq<Error>)
    ensures errs == RuleErrors(rules, group, lib)
  {
    errs := [];
    for j := 0 to |rules|
      invariant errs == RuleErrors(rules[..j], group, lib)
    {
      RuleErrorsStep(rules, j, group, lib);
      var res := ValidateRuleNode(rules[j], group, lib);
      if res.Some? {
        errs := errs + [InRule(res.value)];
      }
    }
    assert rules[..|rules|] == rules;
  }

  /** `ValidateGroups`: scans the groups in order, keeping the set of names seen so far,
      and collects the name errors of each group followed by the errors of its rules. */
  method ValidateGroups(grps: seq<RuleGroup>, lib: Oracles) returns (errs: seq<Error>)
    ensures errs == GroupErrors(grps, lib)
  {
    var seen: set<string> := {};
    errs := [];
    for i := 0 to |grps|
      invariant seen == Names(grps[..i])
      invariant errs == GroupErrors(grps[..i], lib)
    {
      var g := grps[i];
      NamesStep(grps, i);
      GroupErrorsLast(grps[..i + 1], lib);
      assert grps[..i + 1][..i] == grps[..i];
      ghost var before := errs;
      if g.name == "" {
        errs := errs + [EmptyGroupName(i)];
      }
      if g.name in seen {
        errs := errs + [RepeatedGroupName(g.name)];
      }
      assert errs == before + NameErrors(grps[..i], g);
      seen := seen + {g.name};
      var ruleErrs := ValidateRules(g.rules, g.name, lib);
      errs := errs + ruleErrs;
    }
    assert grps[..|grps|] == grps;
  }
}
