/** The HIS and CSR-SLA loaders and the composite repository, tied to the merge theorem. */
module RulePacks {
  import opened Common
  import opened Values
  import opened Transpilers
  import opened Rules
  import opened Policy
  import opened Pipeline
  import opened Merging
  import opened MatchingTheorems

  /** One rule of telecom_incident_decision_engine_rules.json. */
  datatype HisDocument = HisDocument(
    id: string, name: string, explain: string, priority: int, conditions: Value, enabled: bool,
    decision: Value, level: Value, confidence: Value, assignmentGroup: Value, escalationLevel: Value,
    reasonCodes: Value, slaBreachRisk: Value)

  /** One rule of csr_sla_decision_rules.json. */
  datatype CsrDocument = CsrDocument(
    ruleId: string, name: string, priority: int, when: Value, enabled: bool,
    decision: Value, action: Value, escalationTarget: Value, score: Value, confidence: Value, explanation: string)

  const HIS_FIELDS := {"hisDecision", "hisPriority", "hisConfidence", "hisAssignmentGroup",
                       "hisEscalationLevel", "hisReasonCodes", "hisSlaBreachRisk"}

  const CSR_FIELDS := {"decision", "csrSlaAction", "escalationTarget", "csrSlaPriorityScore",
                       "csrSlaConfidence", "csrSlaExplanation"}

  function Routing(code: string, name: string, description: string, family: string, familyOrder: int, weight: int,
                   conditions: Value, group: string, actions: Object, enabled: bool): Rule
  {
    Rule(code, name, description, family, familyOrder, weight, None, None, conditions, None, Some(group), [],
         false, false, 0, actions, map[], None, None, "ACTIVE", enabled, None)
  }

  function HisRule(): HisDocument -> Rule {
    (d: HisDocument) =>
      Routing(d.id, d.name, d.explain, "HISTORICAL_OPERATIONAL_PATTERN", 12, d.priority, Strip(d.conditions),
              "his-decision",
              map["hisDecision" := d.decision, "hisPriority" := d.level, "hisConfidence" := d.confidence,
                  "hisAssignmentGroup" := d.assignmentGroup, "hisEscalationLevel" := d.escalationLevel,
                  "hisReasonCodes" := d.reasonCodes, "hisSlaBreachRisk" := d.slaBreachRisk],
              d.enabled)
  }

  function CsrRule(): CsrDocument -> Rule {
    (d: CsrDocument) =>
      Routing(d.ruleId, d.name, d.explanation, "CUSTOMER_SLA_PRIORITY", 11, d.priority, Strip(d.when),
              "csr-sla-priority-decision",
              map["decision" := d.decision, "csrSlaAction" := d.action, "escalationTarget" := d.escalationTarget,
                  "csrSlaPriorityScore" := d.score, "csrSlaConfidence" := d.confidence,
                  "csrSlaExplanation" := Str(d.explanation)],
              d.enabled)
  }

  /** load_historical_pattern_rules */
  method LoadHistoricalPatternRules(documents: seq<HisDocument>) returns (rules: seq<Rule>)
    ensures rules == Map(HisRule(), documents)
  {
    rules := [];
    for i := 0 to |documents|
      invariant rules == Map(HisRule(), documents[..i])
    {
      assert documents[..i + 1] == documents[..i] + [documents[i]];
      MapAppend(HisRule(), documents[..i], [documents[i]]);
      rules := rules + [HisRule()(documents[i])];
    }
    assert documents[..|documents|] == documents;
  }

  /** load_csr_sla_rules */
  method LoadCsrSlaRules(documents: seq<CsrDocument>) returns (rules: seq<Rule>)
    ensures rules == Map(CsrRule(), documents)
  {
    rules := [];
    for i := 0 to |documents|
      invariant rules == Map(CsrRule(), documents[..i])
    {
      assert documents[..i + 1] == documents[..i] + [documents[i]];
      MapAppend(CsrRule(), documents[..i], [documents[i]]);
      rules := rules + [CsrRule()(documents[i])];
    }
    assert documents[..|documents|] == documents;
  }

  lemma NotReserved(field: string)
    requires field in HIS_FIELDS + CSR_FIELDS
    ensures !Reserved(field)
  {
    assert field[0] == 'h' || field[0] == 'd' || field[0] == 'c' || field[0] == 'e';
    if field[0] == 'd' { assert field == "decision" && |field| == 8; }
    if field[0] == 'c' { assert field[1] == 's'; }
  }

  lemma HisRuleFields(d: HisDocument)
    ensures HisRule()(d).actions.Keys == HIS_FIELDS && Inert(HisRule()(d))
    ensures HisRule()(d).mitigations == map[] && HisRule()(d).code == d.id
  {
    hide Reserved, Strip;
    forall f | f in HIS_FIELDS ensures !Reserved(f) { NotReserved(f); }
  }

  lemma CsrRuleFields(d: CsrDocument)
    ensures CsrRule()(d).actions.Keys == CSR_FIELDS && Inert(CsrRule()(d))
    ensures CsrRule()(d).mitigations == map[] && CsrRule()(d).code == d.ruleId
  {
    hide Reserved, Strip;
    forall f | f in CSR_FIELDS ensures !Reserved(f) { NotReserved(f); }
  }

  lemma StrippedFires(tree: Value, data: Object)
    requires Strippable(tree)
    ensures Fires(Strip(tree), data) <==> Fires(tree, Nested(data))
    ensures Breaks(Strip(tree), data) <==> Breaks(tree, Nested(data))
  {
    hide Fires, Breaks, Strip;
    StripCondition(tree, data);
    SatisfiedFires(Strip(tree), data);
    SatisfiedFires(tree, Nested(data));
  }

  /** A loaded rule matches exactly when its document is enabled and the document's own condition fires on the incident,
      and it decides what the document says. */
  lemma HisRuleDecides(d: HisDocument, rules: seq<Rule>, data: Object)
    requires HisRule()(d) in rules && Strippable(d.conditions)
    ensures HisRule()(d) in Matched(rules, data) <==> d.enabled && Fires(d.conditions, Nested(data))
    ensures var r := HisRule()(d);
            && r.code == d.id && r.weight == d.priority && r.familyOrder == 12
            && Says(r, "hisDecision", d.decision) && Says(r, "hisPriority", d.level)
            && Says(r, "hisConfidence", d.confidence) && Says(r, "hisAssignmentGroup", d.assignmentGroup)
            && Says(r, "hisEscalationLevel", d.escalationLevel) && Says(r, "hisReasonCodes", d.reasonCodes)
            && Says(r, "hisSlaBreachRisk", d.slaBreachRisk)
  {
    hide Fires, Breaks, Strip, Matched;
    MatchedExactly(rules, data, HisRule()(d));
    StrippedFires(d.conditions, data);
    FiresOrBreaks(Strip(d.conditions), data);
  }

  predicate Says(r: Rule, field: string, v: Value) { field in r.actions && r.actions[field] == v }

  lemma CsrRuleDecides(d: CsrDocument, rules: seq<Rule>, data: Object)
    requires CsrRule()(d) in rules && Strippable(d.when)
    ensures CsrRule()(d) in Matched(rules, data) <==> d.enabled && Fires(d.when, Nested(data))
    ensures var r := CsrRule()(d);
            && r.code == d.ruleId && r.weight == d.priority && r.familyOrder == 11
            && Says(r, "decision", d.decision) && Says(r, "csrSlaAction", d.action)
            && Says(r, "escalationTarget", d.escalationTarget) && Says(r, "csrSlaPriorityScore", d.score)
            && Says(r, "csrSlaConfidence", d.confidence) && Says(r, "csrSlaExplanation", Str(d.explanation))
  {
    hide Fires, Breaks, Strip, Matched;
    MatchedExactly(rules, data, CsrRule()(d));
    StrippedFires(d.when, data);
    FiresOrBreaks(Strip(d.when), data);
  }

  lemma PackIndependent(P: seq<Rule>, Q: seq<Rule>, fields: set<string>)
    requires forall q :: q in Q ==> Inert(q) && q.actions.Keys == fields && q.mitigations == map[]
    requires forall p, q :: p in P && q in Q ==> p.code != q.code
    requires forall p, f :: p in P && f in p.actions ==> f !in fields
    ensures Independent(P, Q)
  {
    hide Inert;
  }

  /** Whatever the documents say, loaded HIS rules are independent of rules that avoid their codes and fields. */
  lemma HisIndependent(P: seq<Rule>, documents: seq<HisDocument>)
    requires forall p, d :: p in P && d in documents ==> p.code != d.id
    requires forall p, f :: p in P && f in p.actions ==> f !in HIS_FIELDS
    ensures Independent(P, Map(HisRule(), documents))
  {
    hide HisRule, Inert, Independent;
    var Q := Map(HisRule(), documents);
    forall i | 0 <= i < |Q|
      ensures Inert(Q[i]) && Q[i].actions.Keys == HIS_FIELDS && Q[i].mitigations == map[]
              && Q[i].code == documents[i].id
    {
      HisRuleFields(documents[i]);
    }
    forall p, q | p in P && q in Q ensures p.code != q.code {
      var i :| 0 <= i < |Q| && Q[i] == q;
      assert documents[i] in documents;
    }
    PackIndependent(P, Q, HIS_FIELDS);
  }

  lemma CsrIndependent(P: seq<Rule>, documents: seq<CsrDocument>)
    requires forall p, d :: p in P && d in documents ==> p.code != d.ruleId
    requires forall p, f :: p in P && f in p.actions ==> f !in CSR_FIELDS
    ensures Independent(P, Map(CsrRule(), documents))
  {
    hide CsrRule, Inert, Independent;
    var Q := Map(CsrRule(), documents);
    forall i | 0 <= i < |Q|
      ensures Inert(Q[i]) && Q[i].actions.Keys == CSR_FIELDS && Q[i].mitigations == map[]
              && Q[i].code == documents[i].ruleId
    {
      CsrRuleFields(documents[i]);
    }
    forall p, q | p in P && q in Q ensures p.code != q.code {
      var i :| 0 <= i < |Q| && Q[i] == q;
      assert documents[i] in documents;
    }
    PackIndependent(P, Q, CSR_FIELDS);
  }

  /** "Nothing existing should break": merging both loaded packs into any base pack that avoids their codes and fields
      leaves every decision of the base pack as it was, up to the packs' own fields. */
  lemma LoadedPacksAreConservative(P: seq<Rule>, csr: seq<CsrDocument>, his: seq<HisDocument>, incident: Incident,
                                   matrix: Option<Matrix>)
    requires forall p, d :: p in P && d in csr ==> p.code != d.ruleId
    requires forall p, d :: p in P && d in his ==> p.code != d.id
    requires forall c, h :: c in csr && h in his ==> c.ruleId != h.id
    requires forall p, f :: p in P && f in p.actions ==> f !in CSR_FIELDS && f !in HIS_FIELDS
    requires Run(P + Map(CsrRule(), csr) + Map(HisRule(), his), incident, matrix).Done?
    ensures Run(P, incident, matrix).Done?
    ensures var d, p := Run(P + Map(CsrRule(), csr) + Map(HisRule(), his), incident, matrix).value,
            Run(P, incident, matrix).value;
            && d.priority == p.priority && d.riskScore == p.riskScore && d.riskBand == p.riskBand
            && d.plan == p.plan && d.constraints == p.constraints
            && (forall f :: f in p.actions ==> f in d.actions && d.actions[f] == p.actions[f])
            && (forall k :: k in p.mitigations ==> k in d.mitigations && d.mitigations[k] == p.mitigations[k])
            && (forall f :: f in p.suppressed ==> f in d.suppressed && d.suppressed[f] == p.suppressed[f])
            && Filter(CodedIn(P), d.matched) == p.matched && Filter(RejectedIn(P), d.rejected) == p.rejected
  {
    hide Run, Independent, HisRule, CsrRule, Inert;
    var Q, H := Map(CsrRule(), csr), Map(HisRule(), his);
    CsrIndependent(P, csr);
    forall p | p in P + Q
      ensures (forall f :: f in p.actions ==> f !in HIS_FIELDS) && forall d :: d in his ==> p.code != d.id
    {
      if p in Q {
        var i :| 0 <= i < |Q| && Q[i] == p;
        CsrRuleFields(csr[i]);
        assert csr[i] in csr && p.code == csr[i].ruleId;
        assert CSR_FIELDS !! HIS_FIELDS by { FieldSetsApart(); }
      }
    }
    HisIndependent(P + Q, his);
    MergeIsConservative(P + Q, H, incident, matrix);
    MergeIsConservative(P, Q, incident, matrix);
    var d := Run(P + Q + H, incident, matrix).value;
    FilterWithin(CodedIn(P), CodedIn(P + Q), d.matched);
    FilterWithin(RejectedIn(P), RejectedIn(P + Q), d.rejected);
  }

  lemma FieldSetsApart()
    ensures CSR_FIELDS !! HIS_FIELDS
  {
    forall f | f in CSR_FIELDS ensures f !in HIS_FIELDS {
      assert f[0] != 'h';
    }
  }

  function Concat(groups: seq<seq<Rule>>): seq<Rule> {
    if groups == [] then [] else Concat(groups[..|groups| - 1]) + groups[|groups| - 1]
  }

  lemma {:induction false} ConcatMembers(groups: seq<seq<Rule>>)
    ensures forall r :: r in Concat(groups) <==> exists i :: 0 <= i < |groups| && r in groups[i]
  {
    if groups != [] {
      var last := |groups| - 1;
      ConcatMembers(groups[..last]);
      assert forall i :: 0 <= i < last ==> groups[..last][i] == groups[i];
    }
  }

  class CompositeRuleRepository {
    var pack: RulePack
    /** The rule lists the repository was built from, in order. */
    ghost var groups: seq<seq<Rule>>

    ghost predicate Valid()
      reads this
    {
      pack.rules == Concat(groups)
    }

    constructor (name: string, version: int, region: Option<string>, groups: seq<seq<Rule>>)
      ensures Valid() && this.groups == groups
      ensures pack == RulePack(name, version, "active", region, Concat(groups), None, None, None, "system", None, None,
              None, 1)
    {
      this.groups := groups;
      var merged := [];
      for i := 0 to |groups|
        invariant merged == Concat(groups[..i])
      {
        assert groups[..i + 1][..i] == groups[..i];
        merged := merged + groups[i];
      }
      assert groups[..|groups|] == groups;
      pack := RulePack(name, version, "active", region, merged, None, None, None, "system", None, None, None, 1);
    }

    /** The pack served holds the rules of all groups and no others, group after group. */
    method GetActive() returns (active: RulePack)
      requires Valid()
      ensures active.rules == Concat(groups)
      ensures forall r :: r in active.rules <==> exists i :: 0 <= i < |groups| && r in groups[i]
      ensures active == pack
    {
      ConcatMembers(groups);
      active := pack;
    }
  }
}
