/** Decisions under more evidence: when a policy's verdict outlasts the facts that are still missing. */
module PolicyEvidence {
  import opened Common
  import opened Json
  import opened Policy
  import opened Evaluator
  import opened PolicyEvaluation
  import opened Evidence

  // ---------------------------------------------------------------- decisions under more evidence

  /** A policy that is one query, or an allow query beside a deny query. */
  ghost predicate EvidencePolicy(p: Value) {
    || EqQuery(p)
    || (p.Obj? && p.keys == ["allow", "deny"] && |p.values| == 2 && EqQuery(p.values[0]) && EqQuery(p.values[1]))
  }

  lemma {:induction false} QueryKeys(p: Value, key: string)
    requires EqQuery(p) && key != "all" && key != "any" && key != "eq"
    ensures !Has(p, key)
  {
    assert p.keys[1..] == [];
  }

  lemma {:induction false} TwoSidedKeys(p: Value, key: string)
    requires p.Obj? && p.keys == ["allow", "deny"] && |p.values| == 2
    ensures Get(p, key)
            == if key == "allow" then Some(p.values[0]) else if key == "deny" then Some(p.values[1]) else None
  {
    var keys, values := p.keys[1..], p.values[1..];
    assert keys == ["deny"] && values == [p.values[1]];
    assert Find(keys[1..], values[1..], key) == None;
    assert Find(keys, values, key) == if key == "deny" then Some(p.values[1]) else None;
    assert p.keys[0] == "allow";
  }

  lemma {:induction false} IdealVerdictOfEvidencePolicy(context: Value, p: Value)
    requires EvidencePolicy(p)
    ensures EqQuery(p) ==> IdealVerdict(context, p) == Disposition(Meaning(p, context))
    ensures !EqQuery(p) ==>
              IdealVerdict(context, p) ==
                (match Meaning(p.values[1], context)
                 case True => Verdict(Deny, ExplicitDeny)
                 case False => Disposition(Meaning(p.values[0], context))
                 case other => Disposition(other))
  {
    if EqQuery(p) {
      QueryKeys(p, "require_adapter_allow");
      QueryKeys(p, "action");
      QueryKeys(p, "allow");
      QueryKeys(p, "evidence_valid_at");
    } else {
      TwoSidedKeys(p, "require_adapter_allow");
      TwoSidedKeys(p, "action");
      TwoSidedKeys(p, "evidence_valid_at");
      TwoSidedKeys(p, "allow");
      TwoSidedKeys(p, "deny");
    }
  }

  lemma OnlyField(e: Value, key: string)
    requires e.Obj? && e.keys == [key] && |e.values| == 1
    ensures forall other :: Get(e, other) == if other == key then Some(e.values[0]) else None
  {
    assert e.keys[1..] == [];
  }

  lemma ComparisonMeaning(e: Value, name: string, bound: int, context: Value)
    requires e == Obj(["lte"], [Arr([Str(name), Num(bound)])])
    ensures Meaning(e, context) == EvalBinary("lte", [Str(name), Num(bound)], context)
  {
    OnlyField(e, "lte");
  }

  /** With a comparison beside a decided query a fact that arrives later can undo an allow. */
  lemma {:induction false} ComparisonIsNotStable(comparison: Value, decided: Value, now: Value, later: Value)
    requires comparison == Obj(["lte"], [Arr([Str("x"), Num(5)])])
    requires EqQuery(decided) && Meaning(decided, now) == True
    requires Get(now, "x") == None && Get(later, "x") == Some(Str("a")) && Supplies(now, later)
    ensures MeaningAny([comparison, decided], now) == True
    ensures MeaningAny([comparison, decided], later) == Invalid
  {
    ComparisonMeaning(comparison, "x", 5, now);
    ComparisonMeaning(comparison, "x", 5, later);
    assert MeaningAny([decided][1..], now) == False;
    assert MeaningAny([decided], now) == True;
    assert [comparison, decided][1..] == [decided];
  }

  // ---------------------------------------------------------------- exactly when a verdict stands

  predicate TwoSided(p: Value) {
    Has(p, "allow") && Has(p, "deny")
  }

  /**
   The verdicts whose standing the facts at hand decide: not open, not stale, and, where an
   evidence window overrides an allow query beside a deny query, with the deny query decided.
   (Whether a stale or an open query can still come true is a question of satisfiability.)
   */
  predicate Firm(now: Value, p: Value) {
    && IdealVerdict(now, p).decision != Indeterminate && IdealVerdict(now, p).reason != EvidenceStale
    && (TwoSided(p) && Has(p, "evidence_valid_at") ==> Decided(Meaning(Get(p, "deny").value, now)))
  }

  /** Whether missing facts can still change the verdict. */
  predicate Unsettled(now: Value, p: Value) {
    if Has(p, "require_adapter_allow") then false
    else if AuthorityDenied(now, p) then Missing(now, "apply_authority")
    else if TwoSided(p) then
      var deny := Get(p, "deny").value;
      if Meaning(deny, now) == True then Exposed(deny, now)
      else !Has(p, "evidence_valid_at") && (Exposed(deny, now) || Exposed(Get(p, "allow").value, now))
    else !Has(p, "evidence_valid_at") && Exposed(p, now)
  }

  lemma {:induction false} AuthorityStays(now: Value, later: Value, p: Value)
    requires Supplies(now, later)
    ensures !AuthorityDenied(now, p) ==> !AuthorityDenied(later, p)
    ensures AuthorityDenied(now, p) && !Missing(now, "apply_authority") ==> AuthorityDenied(later, p)
  {
  }

  lemma {:induction false} StatedTextStays(now: Value, later: Value, key: string)
    requires Supplies(now, later) && TextAt(now, key).Some?
    ensures TextAt(later, key) == TextAt(now, key)
  {
  }

  lemma {:induction false} EvidenceTimeStays(now: Value, later: Value)
    requires Supplies(now, later) && EvidenceTime(now) == True
    ensures EvidenceTime(later) == True
  {
    StatedTextStays(now, later, "evaluated_at");
    StatedTextStays(now, later, "evidence_expires_at");
  }

  lemma {:induction false} SettledBodyStands(now: Value, later: Value, p: Value)
    requires Firm(now, p) && !Unsettled(now, p) && Supplies(now, later)
    requires !Has(p, "require_adapter_allow") && !AuthorityDenied(now, p) && !AuthorityDenied(later, p)
    requires EvidenceTime(now) == True ==> EvidenceTime(later) == True
    ensures IdealVerdict(later, p) == IdealVerdict(now, p)
  {
    if TwoSided(p) {
      var deny, allow := Get(p, "deny").value, Get(p, "allow").value;
      if Decided(Meaning(deny, now)) {
        DecidedNeverFlips(deny, now, later);
      }
      if !Exposed(deny, now) {
        UnexposedIsSafe(deny, now, later);
      }
      if !Exposed(allow, now) {
        UnexposedIsSafe(allow, now, later);
      }
    } else if !Exposed(p, now) {
      UnexposedIsSafe(p, now, later);
    }
  }

  lemma {:induction false} SettledStands(now: Value, later: Value, p: Value)
    requires Firm(now, p) && !Unsettled(now, p) && Supplies(now, later)
    ensures IdealVerdict(later, p) == IdealVerdict(now, p)
  {
    AuthorityStays(now, later, p);
    if Has(p, "require_adapter_allow") {
      StatedTextStays(now, later, "adapter_result");
    } else if !AuthorityDenied(now, p) {
      if EvidenceTime(now) == True {
        EvidenceTimeStays(now, later);
      }
      SettledBodyStands(now, later, p);
    }
  }

  lemma {:induction false} FieldTexts(p: Value, key: string)
    ensures Has(p, key) ==> Texts(Get(p, key).value) <= Texts(p)
  {
    if p.Obj? {
      FoundTexts(p.keys, p.values, key);
    }
  }

  lemma {:induction false} AuthorityGranted(now: Value, p: Value) returns (later: Value)
    requires AuthorityDenied(now, p) && Missing(now, "apply_authority")
    ensures Supplies(now, later) && AsGood(now, later) && !AuthorityDenied(later, p)
  {
    later := Put(now, "apply_authority", Bool(true));
    PutIsCompletion(now, "apply_authority", Bool(true));
    PutGets(now, "apply_authority", Bool(true), "apply_authority");
  }

  lemma {:induction false} UnsettledPairOverturns(now: Value, later: Value, p: Value, filler: Value)
    requires Firm(now, p) && Unsettled(now, p) && !AuthorityDenied(now, p) && TwoSided(p)
    requires Supplies(now, later) && Adverse(now, later, Texts(p), filler) && filler.Obj? && Nodes(p) <= Nodes(filler)
    ensures IdealVerdict(later, p) != IdealVerdict(now, p)
  {
    AuthorityStays(now, later, p);
    FieldTexts(p, "deny");
    FieldTexts(p, "allow");
    AdverseIsWorstCase(Get(p, "deny").value, now, later, Texts(p), filler);
    AdverseIsWorstCase(Get(p, "allow").value, now, later, Texts(p), filler);
  }

  lemma {:induction false} QueryVerdict(context: Value, p: Value)
    requires !AuthorityDenied(context, p) && !TwoSided(p)
    requires !Has(p, "require_adapter_allow") && !Has(p, "evidence_valid_at")
    ensures IdealVerdict(context, p) == Disposition(Meaning(p, context))
  {
  }

  lemma {:induction false} FatalOverturns(before: Eval, after: Eval)
    requires Disposition(before).decision != Indeterminate && Disposition(before).reason != EvidenceStale
    requires Fatal(after)
    ensures Disposition(after) != Disposition(before)
  {
  }

  lemma {:induction false} UnsettledQueryOverturns(now: Value, later: Value, p: Value, filler: Value)
    requires Firm(now, p) && Unsettled(now, p) && !AuthorityDenied(now, p) && !TwoSided(p)
    requires Supplies(now, later) && Adverse(now, later, Texts(p), filler) && filler.Obj? && Nodes(p) <= Nodes(filler)
    ensures IdealVerdict(later, p) != IdealVerdict(now, p)
  {
    AuthorityStays(now, later, p);
    QueryVerdict(now, p);
    QueryVerdict(later, p);
    AdverseIsWorstCase(p, now, later, Texts(p), filler);
    FatalOverturns(Meaning(p, now), Meaning(p, later));
  }

  /** An unsettled verdict is changed by some completion, as admissible as the facts it completes. */
  lemma {:induction false} UnsettledIsChanged(now: Value, p: Value) returns (later: Value)
    requires Firm(now, p) && Unsettled(now, p)
    ensures Supplies(now, later) && AsGood(now, later) && IdealVerdict(later, p) != IdealVerdict(now, p)
  {
    if AuthorityDenied(now, p) {
      later := AuthorityGranted(now, p);
    } else {
      var filler := Oversized(Nodes(p));
      later := AdverseOversized(now, Texts(p), Nodes(p));
      if TwoSided(p) {
        UnsettledPairOverturns(now, later, p, filler);
      } else {
        UnsettledQueryOverturns(now, later, p, filler);
      }
    }
  }

  /**
   A firm verdict survives every supply of missing facts exactly when it is not unsettled; and
   facts that change it can be as well formed and as small as those at hand.
   */
  lemma {:induction false} VerdictStandsIff(now: Value, policy: Value, limits: Limits)
    requires limits.ProfileCompliant() && limits.astNodesPerRule <= limits.fuel
    requires CollectionsFit(now, limits.collectionValues)
    requires Prepare(policy, limits).Ok? && ProbeFree(Prepare(policy, limits).value)
    requires Firm(now, Prepare(policy, limits).value)
    ensures
      (forall later :: Supplies(now, later) && AsGood(now, later) ==>
         EvaluatePolicy(later, policy, limits) == EvaluatePolicy(now, policy, limits))
      <==> !Unsettled(now, Prepare(policy, limits).value)
  {
    var p := Prepare(policy, limits).value;
    LimitsAreAdequate(now, policy, limits);
    if Unsettled(now, p) {
      var later := UnsettledIsChanged(now, p);
      LimitsAreAdequate(later, policy, limits);
    } else {
      forall later | Supplies(now, later) && AsGood(now, later)
        ensures EvaluatePolicy(later, policy, limits) == EvaluatePolicy(now, policy, limits)
      {
        LimitsAreAdequate(later, policy, limits);
        SettledStands(now, later, p);
      }
    }
  }

  // ---------------------------------------------------------------- equality policies

  lemma {:induction false} EqualityQueryIsSettled(now: Value, p: Value)
    requires EvidencePolicy(p) && EqQuery(p) && IdealVerdict(now, p).decision != Indeterminate
    ensures Firm(now, p) && !Unsettled(now, p)
  {
    IdealVerdictOfEvidencePolicy(now, p);
    QueryKeys(p, "require_adapter_allow");
    QueryKeys(p, "action");
    QueryKeys(p, "allow");
    EqQueryIsUnexposed(p, now);
    DecidedMeaningIsStable(p, now, now);
  }

  lemma {:induction false} PairFields(p: Value)
    requires EvidencePolicy(p) && !EqQuery(p)
    ensures !Has(p, "require_adapter_allow") && !Has(p, "evidence_valid_at") && TextAt(p, "action").None?
    ensures Get(p, "allow") == Some(p.values[0]) && Get(p, "deny") == Some(p.values[1])
  {
    TwoSidedKeys(p, "require_adapter_allow");
    TwoSidedKeys(p, "action");
    TwoSidedKeys(p, "evidence_valid_at");
    TwoSidedKeys(p, "allow");
    TwoSidedKeys(p, "deny");
  }

  lemma {:induction false} EqualityPairIsDecided(now: Value, p: Value)
    requires EvidencePolicy(p) && !EqQuery(p) && IdealVerdict(now, p).decision != Indeterminate
    ensures IdealVerdict(now, p).reason != EvidenceStale
  {
    IdealVerdictOfEvidencePolicy(now, p);
    DecidedMeaningIsStable(p.values[0], now, now);
    DecidedMeaningIsStable(p.values[1], now, now);
  }

  lemma {:induction false} EqualityPairIsSettled(now: Value, p: Value)
    requires EvidencePolicy(p) && !EqQuery(p) && IdealVerdict(now, p).decision != Indeterminate
    ensures Firm(now, p) && !Unsettled(now, p)
  {
    PairFields(p);
    EqQueryIsUnexposed(p.values[0], now);
    EqQueryIsUnexposed(p.values[1], now);
    EqualityPairIsDecided(now, p);
  }

  /** An equality policy is settled as soon as it decides. */
  lemma {:induction false} EqualityPolicyIsSettled(now: Value, p: Value)
    requires EvidencePolicy(p) && IdealVerdict(now, p).decision != Indeterminate
    ensures Firm(now, p) && !Unsettled(now, p)
  {
    if EqQuery(p) {
      EqualityQueryIsSettled(now, p);
    } else {
      EqualityPairIsSettled(now, p);
    }
  }

  /** Filling in missing facts never overturns an allow or a deny of an equality policy. */
  lemma {:induction false} DecisionIsStable(now: Value, later: Value, policy: Value, limits: Limits)
    requires limits.ProfileCompliant() && limits.astNodesPerRule <= limits.fuel
    requires CollectionsFit(now, limits.collectionValues) && CollectionsFit(later, limits.collectionValues)
    requires Prepare(policy, limits).Ok? && ProbeFree(Prepare(policy, limits).value)
    requires EvidencePolicy(Prepare(policy, limits).value)
    requires Supplies(now, later)
    ensures EvaluatePolicy(now, policy, limits).decision != Indeterminate ==>
              EvaluatePolicy(later, policy, limits) == EvaluatePolicy(now, policy, limits)
  {
    var p := Prepare(policy, limits).value;
    LimitsAreAdequate(now, policy, limits);
    LimitsAreAdequate(later, policy, limits);
    if IdealVerdict(now, p).decision != Indeterminate {
      EqualityPolicyIsSettled(now, p);
      SettledStands(now, later, p);
    }
  }
}
