/** What `ValidateGroups` promises, proved of the model. */
module GroupProperties {
  import opened Results
  import opened RuleFmt
  import opened External
  import opened Errors
  import opened RuleNodeValidation
  import opened RuleNodeProperties
  import opened GroupValidation

  /** Every group with an empty name is reported, tagged with its own index, and no
      other index is ever reported. */
  lemma {:induction false} EmptyNamesReportedByIndex(grps: seq<RuleGroup>, lib: Oracles)
    ensures forall k: nat :: EmptyGroupName(k) in GroupErrors(grps, lib) <==> k < |grps| && grps[k].name == ""
    decreases |grps|
  {
    if grps != [] {
      var n := |grps| - 1;
      var p := grps[..n];
      EmptyNamesReportedByIndex(p, lib);
      GroupErrorsLast(grps, lib);
      var before, names, rules := GroupErrors(p, lib), NameErrors(p, grps[n]), RuleErrors(grps[n].rules, grps[n].name, lib);
      assert GroupErrors(grps, lib) == before + names + rules;
      forall k: nat ensures EmptyGroupName(k) in GroupErrors(grps, lib) <==> k < |grps| && grps[k].name == "" {
        assert EmptyGroupName(k) !in rules;
        assert EmptyGroupName(k) in names <==> k == n && grps[n].name == "";
        if k < n {
          assert p[k] == grps[k];
        }
      }
    }
  }

  /** How many of the given groups are named `name`. */
  function NameCount(grps: seq<RuleGroup>, name: string): nat
    decreases |grps|
  {
    if grps == [] then 0
    else NameCount(grps[..|grps| - 1], name) + (if grps[|grps| - 1].name == name then 1 else 0)
  }

  /** A name is in the validator's seen-set exactly when some scanned group has it. */
  lemma {:induction false} NamesCounted(grps: seq<RuleGroup>, name: string)
    ensures name in Names(grps) <==> NameCount(grps, name) > 0
    decreases |grps|
  {
    if grps != [] {
      NamesCounted(grps[..|grps| - 1], name);
    }
  }

  /** The first group with a given name draws no "repeated" error and every later group
      with that name draws exactly one, because the seen-set is updated after the test. */
  lemma {:induction false} RepeatedNameReportedPerLaterDuplicate(grps: seq<RuleGroup>, lib: Oracles, name: string)
    ensures multiset(GroupErrors(grps, lib))[RepeatedGroupName(name)] ==
      if NameCount(grps, name) == 0 then 0 else NameCount(grps, name) - 1
    decreases |grps|
  {
    if grps != [] {
      var n := |grps| - 1;
      var p := grps[..n];
      RepeatedNameReportedPerLaterDuplicate(p, lib, name);
      NamesCounted(p, name);
      GroupErrorsLast(grps, lib);
      var head, names, rules := GroupErrors(p, lib), NameErrors(p, grps[n]), RuleErrors(grps[n].rules, grps[n].name, lib);
      assert multiset(GroupErrors(grps, lib)) == multiset(head) + multiset(names) + multiset(rules);
      assert RepeatedGroupName(name) !in rules;
      assert multiset(names)[RepeatedGroupName(name)] == if grps[n].name == name && name in Names(p) then 1 else 0;
    }
  }

  /** The most errors the given groups can draw: two about each name, one per rule. */
  function MaxErrors(grps: seq<RuleGroup>): nat
    decreases |grps|
  {
    if grps == [] then 0 else MaxErrors(grps[..|grps| - 1]) + 2 + |grps[|grps| - 1].rules|
  }

  /** Each rule contributes at most one error and each group at most two about its name. */
  lemma {:induction false} ErrorCountBounded(grps: seq<RuleGroup>, lib: Oracles)
    ensures |GroupErrors(grps, lib)| <= MaxErrors(grps)
    decreases |grps|
  {
    if grps != [] {
      ErrorCountBounded(grps[..|grps| - 1], lib);
      GroupErrorsLast(grps, lib);
    }
  }

  lemma PrefixTransitive(a: seq<Error>, b: seq<Error>, c: seq<Error>)
    requires a <= b && b <= c
    ensures a <= c
  {
    assert a == b[..|a|] && b == c[..|b|];
    assert a == c[..|a|];
  }

  /** Errors are ordered by group: the errors of the first `n` groups come first and do
      not depend on the groups after them. */
  lemma {:induction false} EarlierGroupsReportedFirst(grps: seq<RuleGroup>, lib: Oracles, n: nat)
    requires n <= |grps|
    ensures GroupErrors(grps[..n], lib) <= GroupErrors(grps, lib)
    decreases |grps|
  {
    if n == |grps| {
      assert grps[..n] == grps;
    } else {
      var m := |grps| - 1;
      assert grps[..m][..n] == grps[..n];
      EarlierGroupsReportedFirst(grps[..m], lib, n);
      GroupErrorsLast(grps, lib);
      PrefixTransitive(GroupErrors(grps[..n], lib), GroupErrors(grps[..m], lib), GroupErrors(grps, lib));
    }
  }

  /** The groups of a file the validator accepts: names present and distinct, and
      every rule passing every check. */
  predicate GroupsValid(grps: seq<RuleGroup>, lib: Oracles)
  {
    && (forall i :: 0 <= i < |grps| ==> grps[i].name != "")
    && (forall i, j :: 0 <= i < j < |grps| ==> grps[i].name != grps[j].name)
    && (forall i, j :: 0 <= i < |grps| && 0 <= j < |grps[i].rules| ==> WellFormedRule(grps[i].rules[j], lib))
  }

  lemma {:induction false} NamesAreGroupNames(grps: seq<RuleGroup>, name: string)
    ensures name in Names(grps) <==> exists j :: 0 <= j < |grps| && grps[j].name == name
    decreases |grps|
  {
    if grps != [] {
      var n := |grps| - 1;
      NamesAreGroupNames(grps[..n], name);
      if exists j :: 0 <= j < |grps| && grps[j].name == name {
        var j :| 0 <= j < |grps| && grps[j].name == name;
        if j < n {
          assert grps[..n][j] == grps[j];
        }
      }
    }
  }

  /** A group's rules draw no error exactly when `validateRuleNode` accepts each of them. */
  lemma {:induction false} NoRuleErrorsIffRulesAccepted(rules: seq<RuleNode>, group: string, lib: Oracles)
    ensures RuleErrors(rules, group, lib) == [] <==>
      forall j :: 0 <= j < |rules| ==> ValidateRuleNode(rules[j], group, lib).None?
    decreases |rules|
  {
    if rules != [] {
      var n := |rules| - 1;
      var p := rules[..n];
      NoRuleErrorsIffRulesAccepted(p, group, lib);
      var last := ValidateRuleNode(rules[n], group, lib);
      assert RuleErrors(rules, group, lib) == RuleErrors(p, group, lib) + Reported(last);
      if forall j :: 0 <= j < |rules| ==> ValidateRuleNode(rules[j], group, lib).None? {
        forall j | 0 <= j < n ensures ValidateRuleNode(p[j], group, lib).None? {
          assert p[j] == rules[j];
        }
      }
      if RuleErrors(rules, group, lib) == [] {
        forall j | 0 <= j < |rules| ensures ValidateRuleNode(rules[j], group, lib).None? {
          if j < n {
            assert p[j] == rules[j];
          }
        }
      }
    }
  }

  /** The errors of a group's rules are exactly the verdicts of its rejected rules. */
  lemma {:induction false} RuleErrorsMembers(rules: seq<RuleNode>, group: string, lib: Oracles)
    ensures forall e :: e in RuleErrors(rules, group, lib) <==>
      e.InRule? && exists j :: 0 <= j < |rules| && ValidateRuleNode(rules[j], group, lib) == Some(e.rule)
    decreases |rules|
  {
    if rules != [] {
      var n := |rules| - 1;
      RuleErrorsMembers(rules[..n], group, lib);
      assert forall j :: 0 <= j < n ==> rules[..n][j] == rules[j];
    }
  }

  /** The positions of the rules `validateRuleNode` rejects. */
  function RejectedRules(rules: seq<RuleNode>, group: string, lib: Oracles): set<nat>
  {
    set j: nat | j < |rules| && ValidateRuleNode(rules[j], group, lib).Some?
  }

  /** A group's rules draw exactly one error per rejected rule. */
  lemma {:induction false} RuleErrorsCount(rules: seq<RuleNode>, group: string, lib: Oracles)
    ensures |RuleErrors(rules, group, lib)| == |RejectedRules(rules, group, lib)|
    decreases |rules|
  {
    if rules != [] {
      var n := |rules| - 1;
      RuleErrorsCount(rules[..n], group, lib);
      var before := RejectedRules(rules[..n], group, lib);
      var last: set<nat> := if ValidateRuleNode(rules[n], group, lib).Some? then {n} else {};
      assert RejectedRules(rules, group, lib) == before + last;
      assert before !! last;
    }
  }

  lemma GroupsValidLast(grps: seq<RuleGroup>, lib: Oracles)
    requires grps != []
    ensures var n := |grps| - 1;
      GroupsValid(grps, lib) <==>
        && GroupsValid(grps[..n], lib)
        && grps[n].name != ""
        && grps[n].name !in Names(grps[..n])
        && forall j :: 0 <= j < |grps[n].rules| ==> WellFormedRule(grps[n].rules[j], lib)
  {
    var n := |grps| - 1;
    var p, g := grps[..n], grps[n];
    NamesAreGroupNames(p, g.name);
    assert forall i :: 0 <= i < n ==> p[i] == grps[i];
    if GroupsValid(p, lib) && g.name != "" && g.name !in Names(p) &&
       forall j :: 0 <= j < |g.rules| ==> WellFormedRule(g.rules[j], lib)
    {
      forall i, j | 0 <= i < j < |grps| ensures grps[i].name != grps[j].name {
        if j == n {
          assert p[i].name != g.name;
        } else {
          assert p[i].name != p[j].name;
        }
      }
    }
  }

  /** The validator reports nothing exactly when every group has a name, no two groups
      share one, and every rule passes every check. */
  lemma {:induction false} NoErrorsIffGroupsValid(grps: seq<RuleGroup>, lib: Oracles)
    ensures GroupErrors(grps, lib) == [] <==> GroupsValid(grps, lib)
    decreases |grps|
  {
    if grps != [] {
      var n := |grps| - 1;
      var p, g := grps[..n], grps[n];
      NoErrorsIffGroupsValid(p, lib);
      GroupErrorsLast(grps, lib);
      GroupsValidLast(grps, lib);
      NoRuleErrorsIffRulesAccepted(g.rules, g.name, lib);
      forall j | 0 <= j < |g.rules|
        ensures ValidateRuleNode(g.rules[j], g.name, lib).None? <==> WellFormedRule(g.rules[j], lib)
      {
        RuleVerdictIsFirstFailingCheck(g.rules[j], g.name, lib);
      }
    }
  }

  /** Two error lists that agree position by position in everything but the label or
      annotation a rule error names. */
  predicate SameClasses(a: seq<Error>, b: seq<Error>)
  {
    |a| == |b| && forall p :: 0 <= p < |a| ==> Classify(a[p]) == Classify(b[p])
  }

  lemma SameClassesConcat(a1: seq<Error>, a2: seq<Error>, b1: seq<Error>, b2: seq<Error>)
    requires SameClasses(a1, b1) && SameClasses(a2, b2)
    ensures SameClasses(a1 + a2, b1 + b2)
  {
    forall p | 0 <= p < |a1 + a2| ensures Classify((a1 + a2)[p]) == Classify((b1 + b2)[p]) {
      if p >= |a1| {
        assert (a1 + a2)[p] == a2[p - |a1|] && (b1 + b2)[p] == b2[p - |a1|];
      }
    }
  }

  lemma {:induction false} RuleErrorClassesIgnoreMapOrder(
    rules1: seq<RuleNode>, rules2: seq<RuleNode>, group: string, lib: Oracles)
    requires |rules1| == |rules2|
    requires forall j :: 0 <= j < |rules1| ==> SameUpToMapOrder(rules1[j], rules2[j])
    ensures SameClasses(RuleErrors(rules1, group, lib), RuleErrors(rules2, group, lib))
    decreases |rules1|
  {
    if rules1 != [] {
      var n := |rules1| - 1;
      RuleErrorClassesIgnoreMapOrder(rules1[..n], rules2[..n], group, lib);
      VerdictIgnoresMapOrder(rules1[n], rules2[n], group, lib);
      var v1, v2 := ValidateRuleNode(rules1[n], group, lib), ValidateRuleNode(rules2[n], group, lib);
      assert SameClasses(Reported(v1), Reported(v2));
      SameClassesConcat(RuleErrors(rules1[..n], group, lib), Reported(v1), RuleErrors(rules2[..n], group, lib), Reported(v2));
    }
  }

  lemma {:induction false} NamesDependOnlyOnNames(g1: seq<RuleGroup>, g2: seq<RuleGroup>)
    requires |g1| == |g2| && forall i :: 0 <= i < |g1| ==> g1[i].name == g2[i].name
    ensures Names(g1) == Names(g2)
    decreases |g1|
  {
    if g1 != [] {
      NamesDependOnlyOnNames(g1[..|g1| - 1], g2[..|g2| - 1]);
    }
  }

  /** Whatever order Go's `range` visits the rules' maps in, the validator reports the same
      number of errors, in the same order, of the same kinds: the group errors exactly,
      and for each rejected rule the check that rejected it. */
  lemma {:induction false} ErrorClassesIgnoreMapOrder(g1: seq<RuleGroup>, g2: seq<RuleGroup>, lib: Oracles)
    requires GroupsSameUpToMapOrder(g1, g2)
    ensures SameClasses(GroupErrors(g1, lib), GroupErrors(g2, lib))
    decreases |g1|
  {
    if g1 != [] {
      var n := |g1| - 1;
      var p1, p2 := g1[..n], g2[..n];
      assert GroupsSameUpToMapOrder(p1, p2) by {
        assert forall i :: 0 <= i < n ==> p1[i] == g1[i] && p2[i] == g2[i];
      }
      ErrorClassesIgnoreMapOrder(p1, p2, lib);
      NamesDependOnlyOnNames(p1, p2);
      RuleErrorClassesIgnoreMapOrder(g1[n].rules, g2[n].rules, g1[n].name, lib);
      GroupErrorsLast(g1, lib);
      GroupErrorsLast(g2, lib);
      var ne1, ne2 := NameErrors(p1, g1[n]), NameErrors(p2, g2[n]);
      assert ne1 == ne2;
      SameClassesConcat(GroupErrors(p1, lib), ne1, GroupErrors(p2, lib), ne2);
      SameClassesConcat(GroupErrors(p1, lib) + ne1, RuleErrors(g1[n].rules, g1[n].name, lib),
                        GroupErrors(p2, lib) + ne2, RuleErrors(g2[n].rules, g2[n].name, lib));
    }
  }
}
