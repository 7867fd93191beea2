/** What `validateRuleNode` and `testTemplateParsing` promise, proved of the model. */
module RuleNodeProperties {
  import opened Results
  import opened RuleFmt
  import opened External
  import opened Errors
  import opened RuleNodeValidation

  /** `testTemplateParsing` reports nothing for a rule that is not an alerting rule, at
      most one error per label and annotation, and nothing at all exactly when every
      template of an alerting rule parses. */
  lemma TemplateErrorsEmptyIffTemplatesParse(r: RuleNode, lib: Oracles)
    ensures r.alert == "" ==> TemplateErrors(r, lib) == []
    ensures |TemplateErrors(r, lib)| <= |r.labels| + |r.annotations|
    ensures TemplateErrors(r, lib) == [] <==> Passes(r, lib, Templates)
  {
    if r.alert != "" {
      var ls := LabelTemplateErrors(r.labels, r.alert, lib);
      var ans := AnnotationTemplateErrors(r.annotations, r.alert, lib);
      forall l | l in r.labels && ParseTest(lib, r.alert, l.value).Fail?
        ensures LabelTemplate(l.name, ParseTest(lib, r.alert, l.value).cause) in ls
      {
      }
      forall a | a in r.annotations && ParseTest(lib, r.alert, a.value).Fail?
        ensures AnnotationTemplate(a.name, ParseTest(lib, r.alert, a.value).cause) in ans
      {
      }
      if ls + ans != [] {
        if |ls| > 0 {
          assert ls[0] in ls;
        } else {
          assert ans[0] in ans;
        }
      }
    }
  }

  /** The failing positions of a list are those of its prefix, plus the last position
      when its template fails. */
  lemma FailingTemplatesLast(entries: seq<Entry>, alert: string, lib: Oracles)
    requires entries != []
    ensures var n := |entries| - 1;
      && n !in FailingTemplates(entries[..n], alert, lib)
      && |FailingTemplates(entries, alert, lib)| ==
           |FailingTemplates(entries[..n], alert, lib)| + (if ParseTest(lib, alert, entries[n].value).Fail? then 1 else 0)
  {
    var n := |entries| - 1;
    var before := FailingTemplates(entries[..n], alert, lib);
    var last: set<nat> := if ParseTest(lib, alert, entries[n].value).Fail? then {n} else {};
    assert FailingTemplates(entries, alert, lib) == before + last;
    assert before !! last;
  }

  /** The label loop of `testTemplateParsing` collects exactly one error per label whose
      template fails to parse. */
  lemma {:induction false} LabelTemplateErrorsOnePerFailure(labels: seq<Entry>, alert: string, lib: Oracles)
    ensures |LabelTemplateErrors(labels, alert, lib)| == |FailingTemplates(labels, alert, lib)|
    decreases |labels|
  {
    if labels != [] {
      LabelTemplateErrorsOnePerFailure(labels[..|labels| - 1], alert, lib);
      FailingTemplatesLast(labels, alert, lib);
    }
  }

  /** The annotation loop of `testTemplateParsing` collects exactly one error per
      annotation whose template fails to parse. */
  lemma {:induction false} AnnotationTemplateErrorsOnePerFailure(annotations: seq<Entry>, alert: string, lib: Oracles)
    ensures |AnnotationTemplateErrors(annotations, alert, lib)| == |FailingTemplates(annotations, alert, lib)|
    decreases |annotations|
  {
    if annotations != [] {
      AnnotationTemplateErrorsOnePerFailure(annotations[..|annotations| - 1], alert, lib);
      FailingTemplatesLast(annotations, alert, lib);
    }
  }

  /** Every error of `testTemplateParsing` names a label or annotation of an alerting rule
      whose template fails, with the parser's cause. */
  lemma TemplateErrorsJustified(r: RuleNode, group: string, lib: Oracles)
    ensures forall e :: e in TemplateErrors(r, lib) ==> CheckOf(e) == Templates && Justified(r, group, lib, e)
  {
  }

  /** `testTemplateParsing` lists every label error before any annotation error. */
  lemma LabelTemplateErrorsComeFirst(r: RuleNode, lib: Oracles)
    ensures forall p, q :: 0 <= p < q < |TemplateErrors(r, lib)| && TemplateErrors(r, lib)[p].AnnotationTemplate? ==>
      TemplateErrors(r, lib)[q].AnnotationTemplate?
  {
  }

  /** The checks that come before `c`, each passed by `r`, listed one by one. */
  predicate PassesChecksBefore(r: RuleNode, lib: Oracles, c: Check)
  {
    && (Rank(c) > 0 ==> Passes(r, lib, RuleKind))
    && (Rank(c) > 1 ==> Passes(r, lib, Expression))
    && (Rank(c) > 2 ==> Passes(r, lib, RecordingFields))
    && (Rank(c) > 3 ==> Passes(r, lib, LabelPairs))
    && (Rank(c) > 4 ==> Passes(r, lib, AnnotationNames))
  }

  lemma PassesEveryCheckBefore(r: RuleNode, lib: Oracles, c: Check)
    requires PassesChecksBefore(r, lib, c)
    ensures forall c' :: Rank(c') < Rank(c) ==> Passes(r, lib, c')
  {
  }

  /** `validateRuleNode` accepts exactly the rules that pass every check, and an error
      it reports comes from the first check, in the order it makes them, that the rule fails. */
  lemma RuleVerdictIsFirstFailingCheck(r: RuleNode, group: string, lib: Oracles)
    ensures ValidateRuleNode(r, group, lib).None? <==> WellFormedRule(r, lib)
    ensures ValidateRuleNode(r, group, lib).Some? ==>
      var c := CheckOf(ValidateRuleNode(r, group, lib).value);
      !Passes(r, lib, c) && forall c' :: Rank(c') < Rank(c) ==> Passes(r, lib, c')
  {
    var v := ValidateRuleNode(r, group, lib);
    TemplateErrorsEmptyIffTemplatesParse(r, lib);
    TemplateErrorsJustified(r, group, lib);
    if v.Some? {
      var c := CheckOf(v.value);
      assert PassesChecksBefore(r, lib, c);
      PassesEveryCheckBefore(r, lib, c);
      assert !Passes(r, lib, c);
    } else {
      assert PassesChecksBefore(r, lib, Templates);
      PassesEveryCheckBefore(r, lib, Templates);
      assert Passes(r, lib, Templates);
    }
  }

  /** The error `validateRuleNode` reports names a real fault of the rule: the label,
      annotation or template it names is one of the rule's, and fails as the error says. */
  lemma RuleErrorIsJustified(r: RuleNode, group: string, lib: Oracles)
    ensures ValidateRuleNode(r, group, lib).Some? ==> Justified(r, group, lib, ValidateRuleNode(r, group, lib).value)
  {
    TemplateErrorsJustified(r, group, lib);
  }

  /** The recording-rule checks never reject an alerting rule, and the template check
      never rejects a rule that is not an alerting rule. */
  lemma ChecksFollowRuleKind(r: RuleNode, group: string, lib: Oracles)
    ensures r.record == "" && ValidateRuleNode(r, group, lib).Some? ==>
      CheckOf(ValidateRuleNode(r, group, lib).value) != RecordingFields
    ensures r.alert == "" && ValidateRuleNode(r, group, lib).Some? ==>
      CheckOf(ValidateRuleNode(r, group, lib).value) != Templates
  {
    RuleVerdictIsFirstFailingCheck(r, group, lib);
  }

  /** Within the recording-rule check, annotations are tested first, then `for`, then the
      rule's name: a later error is reported only when the earlier tests pass, and an
      earlier failure always wins. */
  lemma RecordingGuardsInOrder(r: RuleNode, group: string, lib: Oracles)
    ensures ValidateRuleNode(r, group, lib) == Some(ForInRecordingRule) ==> |r.annotations| == 0
    ensures ValidateRuleNode(r, group, lib) == Some(InvalidRecordName(r.record)) ==>
      |r.annotations| == 0 && r.forDuration == 0
    ensures r.record != "" && r.alert == "" && Passes(r, lib, Expression) ==>
      && (|r.annotations| > 0 ==> ValidateRuleNode(r, group, lib) == Some(AnnotationsInRecordingRule))
      && (|r.annotations| == 0 && r.forDuration != 0 ==> ValidateRuleNode(r, group, lib) == Some(ForInRecordingRule))
      && (|r.annotations| == 0 && r.forDuration == 0 && !IsValidMetricName(r.record) ==>
            ValidateRuleNode(r, group, lib) == Some(InvalidRecordName(r.record)))
  {
  }

  /** When the template check rejects a rule, the error is the first one
      `testTemplateParsing` returns, and a failing label wins over a failing annotation. */
  lemma ReportsFirstTemplateError(r: RuleNode, group: string, lib: Oracles)
    requires ValidateRuleNode(r, group, lib).Some?
    requires CheckOf(ValidateRuleNode(r, group, lib).value) == Templates
    ensures |TemplateErrors(r, lib)| > 0 && ValidateRuleNode(r, group, lib).value == TemplateErrors(r, lib)[0]
    ensures (exists l :: l in r.labels && ParseTest(lib, r.alert, l.value).Fail?) ==>
      ValidateRuleNode(r, group, lib).value.LabelTemplate?
  {
    if exists l :: l in r.labels && ParseTest(lib, r.alert, l.value).Fail? {
      var l :| l in r.labels && ParseTest(lib, r.alert, l.value).Fail?;
      var ls := LabelTemplateErrors(r.labels, r.alert, lib);
      assert LabelTemplate(l.name, ParseTest(lib, r.alert, l.value).cause) in ls;
      assert TemplateErrors(r, lib)[0] == ls[0];
    }
  }

  /** Passing a check does not depend on the order in which the rule's maps are visited. */
  lemma PassesIgnoresMapOrder(r1: RuleNode, r2: RuleNode, lib: Oracles)
    requires SameUpToMapOrder(r1, r2)
    ensures forall c :: Passes(r1, lib, c) <==> Passes(r2, lib, c)
  {
    assert forall l :: l in r1.labels <==> l in r2.labels by {
      forall l ensures l in r1.labels <==> l in r2.labels {
        assert l in r1.labels <==> l in multiset(r1.labels);
        assert l in r2.labels <==> l in multiset(r2.labels);
      }
    }
    assert forall a :: a in r1.annotations <==> a in r2.annotations by {
      forall a ensures a in r1.annotations <==> a in r2.annotations {
        assert a in r1.annotations <==> a in multiset(r1.annotations);
        assert a in r2.annotations <==> a in multiset(r2.annotations);
      }
    }
  }

  /** Whatever order Go's `range` visits the maps in, `validateRuleNode` accepts or rejects
      the same rules, and rejects them by the same check; only which offending label or
      annotation it names may differ. */
  lemma VerdictIgnoresMapOrder(r1: RuleNode, r2: RuleNode, group: string, lib: Oracles)
    requires SameUpToMapOrder(r1, r2)
    ensures ValidateRuleNode(r1, group, lib).None? <==> ValidateRuleNode(r2, group, lib).None?
    ensures ValidateRuleNode(r1, group, lib).Some? ==>
      CheckOf(ValidateRuleNode(r1, group, lib).value) == CheckOf(ValidateRuleNode(r2, group, lib).value)
  {
    PassesIgnoresMapOrder(r1, r2, lib);
    RuleVerdictIsFirstFailingCheck(r1, group, lib);
    RuleVerdictIsFirstFailingCheck(r2, group, lib);
    var v1, v2 := ValidateRuleNode(r1, group, lib), ValidateRuleNode(r2, group, lib);
    if v1.Some? && v2.Some? {
      var c1, c2 := CheckOf(v1.value), CheckOf(v2.value);
      assert Rank(c1) == Rank(c2);
    }
  }
}
