/**
 What a policy means, told from the facts and the policy's text: each comparison, `all` and `any`,
 which decision is drawn from an answer, and which rule a name stands for.
 */
module PolicyLaws {
  import opened Common
  import opened Json
  import opened Policy
  import opened References
  import opened Evaluator
  import opened PolicyEvaluation
  import opened Evidence
  import opened PolicyEvidence

  // ---------------------------------------------------------------- comparisons

  predicate Operator(s: string) {
    s == "eq" || s == "lte" || s == "in" || s == "contains"
  }

  /** The query of one field, which is an array. */
  function Alone(key: string, items: seq<Value>): Value {
    Obj([key], [Arr(items)])
  }

  lemma {:induction false} AloneHasOneField(key: string, items: seq<Value>)
    ensures forall other :: GetArray(Alone(key, items), other) == if other == key then Some(items) else None
  {
    OnlyField(Alone(key, items), key);
  }

  lemma {:induction false} AloneIsBinary(operator: string, arguments: seq<Value>, facts: Value)
    requires Operator(operator)
    ensures Meaning(Alone(operator, arguments), facts) == EvalBinary(operator, arguments, facts)
  {
    var e := Alone(operator, arguments);
    AloneHasOneField(operator, arguments);
    assert GetArray(e, operator) == Some(arguments);
    assert GetArray(e, "all").None? && GetArray(e, "any").None?;
    if operator == "eq" {
    } else if operator == "lte" {
      assert GetArray(e, "eq").None?;
    } else if operator == "in" {
      assert GetArray(e, "eq").None? && GetArray(e, "lte").None?;
    } else {
      assert GetArray(e, "eq").None? && GetArray(e, "lte").None? && GetArray(e, "in").None?;
    }
  }

  /** A policy that is one comparison of a fact. */
  function Comparison(operator: string, name: string, bound: Value): Value {
    Alone(operator, [Str(name), bound])
  }

  /** The facts say nothing about the name. */
  predicate Silent(facts: Value, name: string) {
    Get(facts, name) == None || Get(facts, name) == Some(Null)
  }

  lemma {:induction false} ComparisonIsBinary(operator: string, name: string, bound: Value, facts: Value)
    requires Operator(operator)
    ensures Meaning(Comparison(operator, name, bound), facts) == EvalBinary(operator, [Str(name), bound], facts)
  {
    AloneIsBinary(operator, [Str(name), bound], facts);
  }

  lemma {:induction false} BinaryIsOpenIff(operator: string, name: string, bound: Value, facts: Value)
    requires Operator(operator)
    ensures EvalBinary(operator, [Str(name), bound], facts) == Unknown <==> Silent(facts, name)
  {
    if !Silent(facts, name) {
      assert Get(facts, name).Some? && Get(facts, name).value != Null;
    }
  }

  /** A comparison over a fact that is missing or null is open, and no other comparison is. */
  lemma {:induction false} MissingFactIsUnknown(operator: string, name: string, bound: Value, facts: Value)
    requires Operator(operator)
    ensures Meaning(Comparison(operator, name, bound), facts) == Unknown <==> Silent(facts, name)
  {
    ComparisonIsBinary(operator, name, bound, facts);
    BinaryIsOpenIff(operator, name, bound, facts);
  }

  /** Which reading each operator gives a stated fact. */
  lemma {:induction false} ComparisonReads(name: string, bound: Value, facts: Value)
    requires !Silent(facts, name)
    ensures Get(facts, name).Some?
    ensures
      var fact := Get(facts, name).value;
      && Meaning(Comparison("eq", name, bound), facts) == FromBool(fact == bound)
      && Meaning(Comparison("lte", name, bound), facts) == EvalLte(name, fact, bound)
      && Meaning(Comparison("in", name, bound), facts) == EvalIn(fact, bound)
      && Meaning(Comparison("contains", name, bound), facts) == EvalContains(fact, bound)
  {
    var arguments, fact := [Str(name), bound], Get(facts, name).value;
    assert arguments[0].s == name && fact != Null;
    ComparisonIsBinary("eq", name, bound, facts);
    ComparisonIsBinary("lte", name, bound, facts);
    ComparisonIsBinary("in", name, bound, facts);
    ComparisonIsBinary("contains", name, bound, facts);
  }

  /** The name is about the age of evidence. */
  ghost predicate SpeaksOfAge(name: string) {
    exists before, after :: name == before + "evidence_age" + after
  }

  lemma {:induction false} MentionsIff(text: string, needle: string)
    ensures Mentions(text, needle) <==> exists before, after :: text == before + needle + after
  {
    if Mentions(text, needle) {
      var i :| 0 <= i <= |text| && needle <= text[i..];
      assert text == text[..i] + needle + text[i + |needle|..];
    }
    if before, after :| text == before + needle + after {
      assert text[|before|..] == needle + after;
    }
  }

  /**
   `lte`: True exactly for a number up to the bound. A larger number is stale evidence where the
   name is about its age, and False elsewhere. Anything but two numbers is invalid.
   */
  lemma {:induction false} LteMeans(name: string, bound: Value, facts: Value)
    requires !Silent(facts, name)
    ensures
      var m, fact := Meaning(Comparison("lte", name, bound), facts), Get(facts, name).value;
      && (m == True <==> fact.Num? && bound.Num? && fact.n <= bound.n)
      && (m == Stale <==> fact.Num? && bound.Num? && fact.n > bound.n && SpeaksOfAge(name))
      && (m == False <==> fact.Num? && bound.Num? && fact.n > bound.n && !SpeaksOfAge(name))
      && (m == Invalid <==> !(fact.Num? && bound.Num?))
  {
    ComparisonReads(name, bound, facts);
    MentionsIff(name, "evidence_age");
  }

  /** A smaller fact and a larger bound keep an `lte` true. */
  lemma {:induction false} LteIsMonotone(name: string, bound: int, facts: Value, fact: int, larger: int, later: Value)
    requires Meaning(Comparison("lte", name, Num(bound)), facts) == True && Get(facts, name) == Some(Num(fact))
    requires Get(later, name).Some? && Get(later, name).value.Num? && Get(later, name).value.n <= fact
    requires bound <= larger
    ensures Meaning(Comparison("lte", name, Num(larger)), later) == True
  {
    LteMeans(name, Num(bound), facts);
    LteMeans(name, Num(larger), later);
  }

  /** `contains`: True exactly for an array that lists the value; more than 1024 items are too many. */
  lemma {:induction false} ContainsMeans(name: string, wanted: Value, facts: Value)
    requires !Silent(facts, name)
    ensures
      var m, fact := Meaning(Comparison("contains", name, wanted), facts), Get(facts, name).value;
      && (m == True <==> fact.Arr? && |fact.items| <= 1024 && wanted in fact.items)
      && (m == False <==> fact.Arr? && |fact.items| <= 1024 && wanted !in fact.items)
      && (m == Limit <==> fact.Arr? && |fact.items| > 1024)
      && (m == Invalid <==> !fact.Arr?)
  {
    ComparisonReads(name, wanted, facts);
  }

  /** An array that grows, within the limit, keeps a `contains` true. */
  lemma {:induction false} ContainsIsMonotone(name: string, wanted: Value, facts: Value, later: Value)
    requires Meaning(Comparison("contains", name, wanted), facts) == True
    requires Get(later, name).Some? && Get(later, name).value.Arr? && |Get(later, name).value.items| <= 1024
    requires Get(facts, name).Some? && Get(facts, name).value.Arr? ==>
               forall v :: v in Get(facts, name).value.items ==> v in Get(later, name).value.items
    ensures Meaning(Comparison("contains", name, wanted), later) == True
  {
    MissingFactIsUnknown("contains", name, wanted, facts);
    ContainsMeans(name, wanted, facts);
    ContainsMeans(name, wanted, later);
  }

  /** `in`: True exactly for a plain value the bound lists. */
  lemma {:induction false} InMeans(name: string, bound: Value, facts: Value)
    requires !Silent(facts, name)
    ensures
      var m, fact := Meaning(Comparison("in", name, bound), facts), Get(facts, name).value;
      var comparable := bound.Arr? && !fact.Arr? && !fact.Obj?;
      && (m == True <==> comparable && |bound.items| <= 1024 && fact in bound.items)
      && (m == False <==> comparable && |bound.items| <= 1024 && fact !in bound.items)
      && (m == Limit <==> comparable && |bound.items| > 1024)
      && (m == Invalid <==> !comparable)
  {
    ComparisonReads(name, bound, facts);
  }

  /** `eq`: True exactly for that value, False for every other. */
  lemma {:induction false} EqMeans(name: string, bound: Value, facts: Value)
    requires !Silent(facts, name)
    ensures
      var m := Meaning(Comparison("eq", name, bound), facts);
      && (m == True <==> Get(facts, name) == Some(bound))
      && (m == False <==> Get(facts, name) != Some(bound))
  {
    ComparisonReads(name, bound, facts);
  }

  // ---------------------------------------------------------------- all and any

  predicate StaysOpen(answer: Eval) {
    answer == False || answer == Unknown
  }

  /** `answer` is that of item `k`, the first one not settled by `usual`. */
  ghost predicate FirstAt(items: seq<Value>, facts: Value, usual: Eval -> bool, k: nat, answer: Eval) {
    && k < |items| && Meaning(items[k], facts) == answer && !usual(answer)
    && forall j :: 0 <= j < k ==> usual(Meaning(items[j], facts))
  }

  ghost predicate FirstWithout(items: seq<Value>, facts: Value, usual: Eval -> bool, answer: Eval) {
    exists k: nat :: FirstAt(items, facts, usual, k, answer)
  }

  lemma {:induction false} FirstFurther(items: seq<Value>, facts: Value, usual: Eval -> bool, answer: Eval)
    requires items != [] && usual(Meaning(items[0], facts)) && FirstWithout(items[1..], facts, usual, answer)
    ensures FirstWithout(items, facts, usual, answer)
  {
    var k: nat :| FirstAt(items[1..], facts, usual, k, answer);
    forall j | 0 <= j < k + 1 ensures usual(Meaning(items[j], facts)) {
      assert j > 0 ==> items[j] == items[1..][j - 1];
    }
    assert FirstAt(items, facts, usual, k + 1, answer);
  }

  lemma {:induction false} MeaningAllIs(items: seq<Value>, facts: Value)
    ensures
      var m := MeaningAll(items, facts);
      && (m == True ==> forall k :: 0 <= k < |items| ==> Meaning(items[k], facts) == True)
      && (m == False ==>
            && (forall k :: 0 <= k < |items| ==> Decided(Meaning(items[k], facts)))
            && exists k :: 0 <= k < |items| && Meaning(items[k], facts) == False)
      && (!Decided(m) ==> FirstWithout(items, facts, Decided, m))
    decreases |items|
  {
    if items == [] {
    } else {
      var head, rest := Meaning(items[0], facts), MeaningAll(items[1..], facts);
      MeaningAllIs(items[1..], facts);
      assert forall k :: 1 <= k < |items| ==> items[k] == items[1..][k - 1];
      if !Decided(head) {
        assert FirstAt(items, facts, Decided, 0, head);
      } else if !Decided(rest) {
        FirstFurther(items, facts, Decided, rest);
      } else if rest == False {
        var k :| 0 <= k < |items[1..]| && Meaning(items[1..][k], facts) == False;
        assert Meaning(items[k + 1], facts) == False;
      }
    }
  }

  lemma {:induction false} MeaningAnyIs(items: seq<Value>, facts: Value)
    ensures
      var m := MeaningAny(items, facts);
      && (m == False ==> forall k :: 0 <= k < |items| ==> Meaning(items[k], facts) == False)
      && (m == Unknown ==>
            && (forall k :: 0 <= k < |items| ==> StaysOpen(Meaning(items[k], facts)))
            && exists k :: 0 <= k < |items| && Meaning(items[k], facts) == Unknown)
      && (!StaysOpen(m) ==> FirstWithout(items, facts, StaysOpen, m))
    decreases |items|
  {
    if items == [] {
    } else {
      var head, rest := Meaning(items[0], facts), MeaningAny(items[1..], facts);
      MeaningAnyIs(items[1..], facts);
      assert forall k :: 1 <= k < |items| ==> items[k] == items[1..][k - 1];
      if !StaysOpen(head) {
        assert FirstAt(items, facts, StaysOpen, 0, head);
      } else if !StaysOpen(rest) {
        FirstFurther(items, facts, StaysOpen, rest);
      } else if rest == Unknown {
        var k :| 0 <= k < |items[1..]| && Meaning(items[1..][k], facts) == Unknown;
        assert Meaning(items[k + 1], facts) == Unknown;
      }
    }
  }

  /**
   `all`: True exactly when every item is, False exactly when every item decides and one is False;
   otherwise the answer is that of the first item that does not decide.
   */
  lemma {:induction false} AllMeans(items: seq<Value>, facts: Value)
    ensures
      var m := Meaning(Alone("all", items), facts);
      && (m == True <==> forall k :: 0 <= k < |items| ==> Meaning(items[k], facts) == True)
      && (m == False <==>
            && (forall k :: 0 <= k < |items| ==> Decided(Meaning(items[k], facts)))
            && exists k :: 0 <= k < |items| && Meaning(items[k], facts) == False)
      && (!Decided(m) <==> FirstWithout(items, facts, Decided, m))
  {
    AloneHasOneField("all", items);
    MeaningAllIs(items, facts);
  }

  /**
   `any`: False exactly when every item is, Unknown exactly when every item is False or Unknown and
   one is Unknown; otherwise the answer is that of the first other item, be it True or a failure.
   */
  lemma {:induction false} AnyMeans(items: seq<Value>, facts: Value)
    ensures
      var m := Meaning(Alone("any", items), facts);
      && (m == False <==> forall k :: 0 <= k < |items| ==> Meaning(items[k], facts) == False)
      && (m == Unknown <==>
            && (forall k :: 0 <= k < |items| ==> StaysOpen(Meaning(items[k], facts)))
            && exists k :: 0 <= k < |items| && Meaning(items[k], facts) == Unknown)
      && (!StaysOpen(m) <==> FirstWithout(items, facts, StaysOpen, m))
  {
    AloneHasOneField("any", items);
    MeaningAnyIs(items, facts);
  }

  // ---------------------------------------------------------------- expressions of several fields, or of none

  lemma {:induction false} BinaryFieldDecides(e: Value, facts: Value, operator: string)
    requires Operator(operator) && GetArray(e, operator).Some? && GetArray(e, "all").None? && GetArray(e, "any").None?
    requires operator != "eq" ==> GetArray(e, "eq").None?
    requires operator != "eq" && operator != "lte" ==> GetArray(e, "lte").None?
    requires operator == "contains" ==> GetArray(e, "in").None?
    ensures Meaning(e, facts) == Meaning(Alone(operator, GetArray(e, operator).value), facts)
  {
    AloneIsBinary(operator, GetArray(e, operator).value, facts);
  }

  /** The first of the six fields that an expression carries as an array. */
  function FirstField(e: Value): Option<string> {
    if GetArray(e, "all").Some? then Some("all")
    else if GetArray(e, "any").Some? then Some("any")
    else if GetArray(e, "eq").Some? then Some("eq")
    else if GetArray(e, "lte").Some? then Some("lte")
    else if GetArray(e, "in").Some? then Some("in")
    else if GetArray(e, "contains").Some? then Some("contains")
    else None
  }

  /** An expression means what its first field means alone; without any of the fields it is invalid. */
  lemma {:induction false} FirstFieldDecides(e: Value, facts: Value)
    ensures FirstField(e).None? ==> Meaning(e, facts) == Invalid
    ensures FirstField(e).Some? ==>
              var key := FirstField(e).value;
              GetArray(e, key).Some? && Meaning(e, facts) == Meaning(Alone(key, GetArray(e, key).value), facts)
  {
    if FirstField(e).Some? {
      var key := FirstField(e).value;
      if key == "all" || key == "any" {
        AloneHasOneField(key, GetArray(e, key).value);
      } else {
        BinaryFieldDecides(e, facts, key);
      }
    }
  }

  /** A comparison must have exactly a name and a bound. */
  lemma {:induction false} MalformedIsInvalid(operator: string, arguments: seq<Value>, facts: Value)
    requires Operator(operator) && !(|arguments| == 2 && arguments[0].Str?)
    ensures Meaning(Alone(operator, arguments), facts) == Invalid
  {
    AloneIsBinary(operator, arguments, facts);
  }

  /** The whole number under the name, or nothing for any other value. */
  predicate Counts(v: Value, key: string, n: nat) {
    Get(v, key) == Some(Num(n))
  }

  /** The probes of the three limits report one exactly when what they are told is beyond it. */
  lemma {:induction false} ProbesTestTheLimits(e: Value, facts: Value, depth: nat, fuel: nat, limits: Limits, n: nat)
    requires e.Obj? && depth <= limits.expressionDepth && fuel > 0
    ensures
      var r := EvalExpr(e, facts, depth, fuel, limits).0;
      && (Counts(e, "generated_nesting", n) ==> r == if n > limits.expressionDepth then Limit else True)
      && (!Has(e, "generated_nesting") && Has(e, "all_values_must_be_true")
          && Counts(facts, "generated_collection_size", n) ==>
            r == if n > limits.collectionValues then Limit else True)
      && (!Has(e, "generated_nesting") && !Has(e, "all_values_must_be_true")
          && Has(e, "evaluate_generated_operations") && Counts(facts, "generated_operations", n) ==>
            r == if n > limits.fuel then Limit else True)
  {
  }

  // ---------------------------------------------------------------- from answers to decisions

  /** Which verdict goes with which answer. */
  predicate Judges(v: Verdict, answer: Eval) {
    && (v == Verdict(Allow, AllowReason) <==> answer == True)
    && (v == Verdict(Deny, DefaultDeny) <==> answer == False)
    && (v == Verdict(Deny, EvidenceStale) <==> answer == Stale)
    && (v == Verdict(Indeterminate, EvidenceUnknown) <==> answer == Unknown)
    && (v == Verdict(Indeterminate, InputInvalid) <==> answer == Invalid)
    && (v == Verdict(Indeterminate, LimitExceeded) <==> answer == Limit)
  }

  lemma {:induction false} DispositionJudges(answer: Eval)
    ensures Judges(Disposition(answer), answer)
  {
  }

  /** The evaluator with limits that admit the policy and the facts. */
  ghost predicate Admitted(facts: Value, policy: Value, limits: Limits) {
    && limits.ProfileCompliant() && limits.astNodesPerRule <= limits.fuel
    && CollectionsFit(facts, limits.collectionValues) && ShapeFits(policy, limits) && ProbeFree(policy)
  }

  /** A policy that is nothing but a query: no rules, no pair of sides, nothing to ask beside the facts. */
  predicate PlainQuery(policy: Value) {
    && !Has(policy, "rules") && !Has(policy, "entry") && !Has(policy, "allow") && !Has(policy, "deny")
    && !Has(policy, "require_adapter_allow") && !Has(policy, "evidence_valid_at") && !Has(policy, "action")
  }

  lemma {:induction false} UnnamedIsItself(policy: Value, limits: Limits)
    requires !Has(policy, "rules") && !Has(policy, "entry") && ShapeFits(policy, limits)
    ensures Prepare(policy, limits) == Ok(policy)
  {
  }

  /** A plain query is decided by what it means. */
  lemma {:induction false} QueryDecides(facts: Value, policy: Value, limits: Limits)
    requires Admitted(facts, policy, limits) && PlainQuery(policy)
    ensures Judges(EvaluatePolicy(facts, policy, limits), Meaning(policy, facts))
  {
    UnnamedIsItself(policy, limits);
    LimitsAreAdequate(facts, policy, limits);
    QueryVerdict(facts, policy);
    DispositionJudges(Meaning(policy, facts));
  }

  lemma {:induction false} ComparisonIsPlain(operator: string, name: string, bound: Value)
    requires Operator(operator)
    ensures PlainQuery(Comparison(operator, name, bound))
  {
    OnlyField(Comparison(operator, name, bound), operator);
  }

  /** A policy that is one comparison is decided by what the comparison means. */
  lemma {:induction false} ComparisonDecides(operator: string, name: string, bound: Value, facts: Value,
        limits: Limits)
    requires Operator(operator) && Admitted(facts, Comparison(operator, name, bound), limits)
    ensures
      var policy := Comparison(operator, name, bound);
      Judges(EvaluatePolicy(facts, policy, limits), Meaning(policy, facts))
  {
    ComparisonIsPlain(operator, name, bound);
    QueryDecides(facts, Comparison(operator, name, bound), limits);
  }

  /**
   A bound on a fact, decided: allowed up to the bound; beyond it denied, as stale where the name
   is about the age of evidence; open without the fact; and invalid for a fact that is no number.
   */
  lemma {:induction false} BoundDecides(name: string, bound: int, facts: Value, limits: Limits)
    requires Admitted(facts, Comparison("lte", name, Num(bound)), limits)
    ensures
      var v, fact := EvaluatePolicy(facts, Comparison("lte", name, Num(bound)), limits), Get(facts, name);
      && (Silent(facts, name) ==> v == Verdict(Indeterminate, EvidenceUnknown))
      && (!Silent(facts, name) && !fact.value.Num? ==> v == Verdict(Indeterminate, InputInvalid))
      && (fact.Some? && fact.value.Num? ==>
            v == if fact.value.n <= bound then Verdict(Allow, AllowReason)
                 else if SpeaksOfAge(name) then Verdict(Deny, EvidenceStale)
                 else Verdict(Deny, DefaultDeny))
  {
    ComparisonDecides("lte", name, Num(bound), facts, limits);
    MissingFactIsUnknown("lte", name, Num(bound), facts);
    if !Silent(facts, name) {
      LteMeans(name, Num(bound), facts);
    }
  }

  /** A listed value, decided: allowed when the fact lists it, denied when it is a list without it. */
  lemma {:induction false} ListingDecides(name: string, wanted: Value, facts: Value, limits: Limits)
    requires Admitted(facts, Comparison("contains", name, wanted), limits) && !Silent(facts, name)
    requires Get(facts, name).value.Arr? && |Get(facts, name).value.items| <= 1024
    ensures EvaluatePolicy(facts, Comparison("contains", name, wanted), limits)
            == if wanted in Get(facts, name).value.items then Verdict(Allow, AllowReason)
              else Verdict(Deny, DefaultDeny)
  {
    ComparisonDecides("contains", name, wanted, facts, limits);
    ContainsMeans(name, wanted, facts);
  }

  // ---------------------------------------------------------------- the whole verdict

  predicate AdapterAllows(facts: Value) {
    Get(facts, "adapter_result") == Some(Str("allow"))
  }

  /** An apply that needs an authority the facts do not state. */
  predicate LacksAuthority(facts: Value, p: Value) {
    && Get(p, "action") == Some(Str("apply")) && Get(p, "requires_authority") == Some(Bool(true))
    && Get(facts, "apply_authority") != Some(Bool(true))
  }

  predicate HasBothSides(p: Value) {
    Has(p, "allow") && Has(p, "deny")
  }

  predicate DenyHolds(facts: Value, p: Value) {
    HasBothSides(p) && Meaning(Get(p, "deny").value, facts) == True
  }

  /** The evidence was evaluated no later than it expires, later, or one of the times is not stated. */
  predicate TimesAnswer(facts: Value, answer: Eval) {
    match (Get(facts, "evaluated_at"), Get(facts, "evidence_expires_at"))
    case (Some(Str(now)), Some(Str(expires))) =>
      (answer == Stale <==> Before(expires, now)) && (answer == True <==> !Before(expires, now))
    case _ => answer == Unknown
  }

  /** What the policy's queries answer: its evidence window before its sides, its sides before the whole. */
  predicate Answers(facts: Value, p: Value, answer: Eval) {
    if Has(p, "evidence_valid_at") then TimesAnswer(facts, answer)
    else if HasBothSides(p) then
      var deny := Meaning(Get(p, "deny").value, facts);
      answer == if deny == False then Meaning(Get(p, "allow").value, facts) else deny
    else answer == Meaning(p, facts)
  }

  lemma {:induction false} BodyAnswers(facts: Value, p: Value)
    requires !DenyHolds(facts, p)
    ensures forall answer :: Answers(facts, p, answer) <==> answer == BodyMeaning(facts, p)
  {
  }

  lemma {:induction false} PreparedVerdict(facts: Value, p: Value, v: Verdict)
    requires v == IdealVerdict(facts, p)
    ensures
      var asks := Has(p, "require_adapter_allow");
      && (asks && AdapterAllows(facts) ==> v == Verdict(Allow, AllowReason))
      && (asks && !AdapterAllows(facts) <==> v == Verdict(Indeterminate, AdapterError))
      && (!asks && LacksAuthority(facts, p) <==> v == Verdict(Deny, AuthorityDenial))
      && (!asks && !LacksAuthority(facts, p) && DenyHolds(facts, p) <==> v == Verdict(Deny, ExplicitDeny))
      && (!asks && !LacksAuthority(facts, p) && !DenyHolds(facts, p) ==>
            forall answer :: Answers(facts, p, answer) ==> Judges(v, answer))
  {
    if !DenyHolds(facts, p) {
      BodyAnswers(facts, p);
      DispositionJudges(BodyMeaning(facts, p));
    }
  }

  /**
   The whole verdict of a prepared policy. Deferring to an adapter comes first, then a missing
   authority, then a deny query that holds; each gives its own reason and nothing else does. In all
   other cases the queries' answer is judged.
   */
  lemma {:induction false} VerdictExactlyWhen(facts: Value, policy: Value, limits: Limits)
    requires limits.ProfileCompliant() && limits.astNodesPerRule <= limits.fuel
    requires CollectionsFit(facts, limits.collectionValues)
    requires Prepare(policy, limits).Ok? && ProbeFree(Prepare(policy, limits).value)
    ensures
      var v, p := EvaluatePolicy(facts, policy, limits), Prepare(policy, limits).value;
      var asks := Has(p, "require_adapter_allow");
      && (asks && AdapterAllows(facts) ==> v == Verdict(Allow, AllowReason))
      && (asks && !AdapterAllows(facts) <==> v == Verdict(Indeterminate, AdapterError))
      && (!asks && LacksAuthority(facts, p) <==> v == Verdict(Deny, AuthorityDenial))
      && (!asks && !LacksAuthority(facts, p) && DenyHolds(facts, p) <==> v == Verdict(Deny, ExplicitDeny))
      && (!asks && !LacksAuthority(facts, p) && !DenyHolds(facts, p) ==>
            forall answer :: Answers(facts, p, answer) ==> Judges(v, answer))
  {
    LimitsAreAdequate(facts, policy, limits);
    var p := Prepare(policy, limits).value;
    PreparedVerdict(facts, p, IdealVerdict(facts, p));
  }

  /** What is refused before anything is evaluated, and how. */
  lemma {:induction false} RefusedInputs(facts: Value, policy: Value, limits: Limits)
    ensures
      var v := EvaluatePolicy(facts, policy, limits);
      && (!limits.ProfileCompliant() ==> v == Verdict(Indeterminate, InputInvalid))
      && (limits.ProfileCompliant() && !CollectionsFit(facts, limits.collectionValues) ==>
            v == Verdict(Indeterminate, LimitExceeded))
      && (limits.ProfileCompliant() && CollectionsFit(facts, limits.collectionValues)
          && Prepare(policy, limits).Err? ==>
            Judges(v, Prepare(policy, limits).error))
  {
    DispositionJudges(Invalid);
    DispositionJudges(Limit);
    if Prepare(policy, limits).Err? {
      DispositionJudges(Prepare(policy, limits).error);
    }
  }

  // ---------------------------------------------------------------- limits

  /** The limits that a profile may set. */
  lemma {:induction false} LimitsAreBounded(limits: Limits)
    ensures limits.ProfileCompliant() <==>
            && 1 <= limits.rules <= 1000 && 1 <= limits.astNodesPerRule <= 256 && 1 <= limits.expressionDepth <= 16
            && 1 <= limits.collectionValues <= 1024 && 1 <= limits.referenceDepth <= 16
            && 1 <= limits.fuel <= 50_000
  {
  }

  /** `w` stands `depth` levels below `v`. */
  ghost predicate Below(w: Value, v: Value, depth: nat)
    decreases v, 1
  {
    if depth == 0 then w == v
    else
      match v
      case Arr(items) => BelowAny(w, items, depth - 1)
      case Obj(_, values) => BelowAny(w, values, depth - 1)
      case _ => false
  }

  ghost predicate BelowAny(w: Value, vs: seq<Value>, depth: nat)
    decreases vs, 0
  {
    vs != [] && (Below(w, vs[0], depth) || BelowAny(w, vs[1..], depth))
  }

  ghost predicate Shallow(v: Value, levels: int, cap: nat) {
    forall w, depth: nat :: Below(w, v, depth) ==> depth <= levels && (w.Arr? ==> |w.items| <= cap)
  }

  ghost predicate AllShallow(vs: seq<Value>, levels: int, cap: nat) {
    forall w, depth: nat :: BelowAny(w, vs, depth) ==> depth <= levels && (w.Arr? ==> |w.items| <= cap)
  }

  lemma {:induction false} ShallowSplit(v: Value, children: seq<Value>, levels: int, cap: nat)
    requires v == Arr(children) || (v.Obj? && v.values == children)
    ensures Shallow(v, levels, cap) <==>
            levels >= 0 && (v.Arr? ==> |children| <= cap) && AllShallow(children, levels - 1, cap)
  {
    assert Below(v, v, 0);
    if Shallow(v, levels, cap) {
      forall w, depth: nat | BelowAny(w, children, depth)
        ensures depth <= levels - 1 && (w.Arr? ==> |w.items| <= cap)
      {
        assert Below(w, v, depth + 1);
      }
    }
    if levels >= 0 && (v.Arr? ==> |children| <= cap) && AllShallow(children, levels - 1, cap) {
      forall w, depth: nat | Below(w, v, depth) ensures depth <= levels && (w.Arr? ==> |w.items| <= cap) {
        assert depth > 0 ==> BelowAny(w, children, depth - 1);
      }
    }
  }

  lemma {:induction false} AllShallowSplit(vs: seq<Value>, levels: int, cap: nat)
    requires vs != []
    ensures AllShallow(vs, levels, cap) <==> Shallow(vs[0], levels, cap) && AllShallow(vs[1..], levels, cap)
  {
    if AllShallow(vs, levels, cap) {
      forall w, depth: nat | Below(w, vs[0], depth) ensures depth <= levels && (w.Arr? ==> |w.items| <= cap) {
        assert BelowAny(w, vs, depth);
      }
      forall w, depth: nat | BelowAny(w, vs[1..], depth) ensures depth <= levels && (w.Arr? ==> |w.items| <= cap) {
        assert BelowAny(w, vs, depth);
      }
    }
    if Shallow(vs[0], levels, cap) && AllShallow(vs[1..], levels, cap) {
      forall w, depth: nat | BelowAny(w, vs, depth) ensures depth <= levels && (w.Arr? ==> |w.items| <= cap) {
        assert Below(w, vs[0], depth) || BelowAny(w, vs[1..], depth);
      }
    }
  }

  /** A value is within its limits exactly when nothing in it is too deep and no array in it too long. */
  lemma {:induction false} WithinExactlyWhen(v: Value, levels: int, cap: nat)
    ensures Within(v, levels, cap) <==> Shallow(v, levels, cap)
    decreases v, 1
  {
    match v
    case Arr(items) =>
      AllWithinExactlyWhen(items, levels - 1, cap);
      ShallowSplit(v, items, levels, cap);
    case Obj(_, values) =>
      AllWithinExactlyWhen(values, levels - 1, cap);
      ShallowSplit(v, values, levels, cap);
    case _ =>
      assert Below(v, v, 0);
      assert forall w, depth: nat :: Below(w, v, depth) ==> depth == 0 && w == v;
  }

  lemma {:induction false} AllWithinExactlyWhen(vs: seq<Value>, levels: int, cap: nat)
    ensures AllWithin(vs, levels, cap) <==> AllShallow(vs, levels, cap)
    decreases vs, 0
  {
    if vs == [] {
    } else {
      WithinExactlyWhen(vs[0], levels, cap);
      AllWithinExactlyWhen(vs[1..], levels, cap);
      AllShallowSplit(vs, levels, cap);
    }
  }

  /** No array in `v` is too long. */
  ghost predicate Short(v: Value, cap: nat) {
    forall w, depth: nat :: Below(w, v, depth) && w.Arr? ==> |w.items| <= cap
  }

  ghost predicate AllShort(vs: seq<Value>, cap: nat) {
    forall w, depth: nat :: BelowAny(w, vs, depth) && w.Arr? ==> |w.items| <= cap
  }

  lemma {:induction false} ShortSplit(v: Value, children: seq<Value>, cap: nat)
    requires v == Arr(children) || (v.Obj? && v.values == children)
    ensures Short(v, cap) <==> (v.Arr? ==> |children| <= cap) && AllShort(children, cap)
  {
    assert Below(v, v, 0);
    if Short(v, cap) {
      forall w, depth: nat | BelowAny(w, children, depth) && w.Arr? ensures |w.items| <= cap {
        assert Below(w, v, depth + 1);
      }
    }
    if (v.Arr? ==> |children| <= cap) && AllShort(children, cap) {
      forall w, depth: nat | Below(w, v, depth) && w.Arr? ensures |w.items| <= cap {
        assert depth > 0 ==> BelowAny(w, children, depth - 1);
      }
    }
  }

  lemma {:induction false} AllShortSplit(vs: seq<Value>, cap: nat)
    requires vs != []
    ensures AllShort(vs, cap) <==> Short(vs[0], cap) && AllShort(vs[1..], cap)
  {
    if AllShort(vs, cap) {
      forall w, depth: nat | (Below(w, vs[0], depth) || BelowAny(w, vs[1..], depth)) && w.Arr?
        ensures |w.items| <= cap
      {
        assert BelowAny(w, vs, depth);
      }
    }
    if Short(vs[0], cap) && AllShort(vs[1..], cap) {
      forall w, depth: nat | BelowAny(w, vs, depth) && w.Arr? ensures |w.items| <= cap {
        assert Below(w, vs[0], depth) || BelowAny(w, vs[1..], depth);
      }
    }
  }

  /** The collections of the facts fit exactly when no array anywhere in them is too long. */
  lemma {:induction false} CollectionsFitExactlyWhen(v: Value, cap: nat)
    ensures CollectionsFit(v, cap) <==> Short(v, cap)
    decreases v, 1
  {
    match v
    case Arr(items) =>
      AllFitExactlyWhen(items, cap);
      ShortSplit(v, items, cap);
    case Obj(_, values) =>
      AllFitExactlyWhen(values, cap);
      ShortSplit(v, values, cap);
    case _ =>
      assert forall w, depth: nat :: Below(w, v, depth) ==> depth == 0 && w == v;
  }

  lemma {:induction false} AllFitExactlyWhen(vs: seq<Value>, cap: nat)
    ensures AllCollectionsFit(vs, cap) <==> AllShort(vs, cap)
    decreases vs, 0
  {
    if vs == [] {
    } else {
      CollectionsFitExactlyWhen(vs[0], cap);
      AllFitExactlyWhen(vs[1..], cap);
      AllShortSplit(vs, cap);
    }
  }

  // ---------------------------------------------------------------- rules and their names

  /** A rule is what the rules object holds under its name. */
  lemma {:induction false} RuleIsItsField(names: seq<string>, bodies: seq<Value>, name: string)
    ensures
      var rules := RulesOf(names, bodies);
      && (name in rules <==> Has(Obj(names, bodies), name))
      && (name in rules ==> Get(Obj(names, bodies), name) == Some(rules[name]))
    decreases |names|
  {
    if names == [] || bodies == [] {
    } else {
      RuleIsItsField(names[1..], bodies[1..], name);
    }
  }

  /** A value without references resolves to itself. */
  lemma {:induction false} RefFreeIsUntouched(v: Value, rules: Rules, limit: nat, stack: seq<string>)
    requires RefFree(v)
    ensures Resolve(v, rules, limit, stack) == Ok(v)
    decreases v, 1
  {
    match v
    case Arr(items) => AllRefFreeIsUntouched(items, rules, limit, stack);
    case Obj(_, values) => AllRefFreeIsUntouched(values, rules, limit, stack);
    case _ =>
  }

  lemma {:induction false} AllRefFreeIsUntouched(vs: seq<Value>, rules: Rules, limit: nat, stack: seq<string>)
    requires AllRefFree(vs)
    ensures ResolveAll(vs, rules, limit, stack) == Ok(vs)
    decreases vs, 0
  {
    if vs == [] {
    } else {
      RefFreeIsUntouched(vs[0], rules, limit, stack);
      AllRefFreeIsUntouched(vs[1..], rules, limit, stack);
      assert [vs[0]] + vs[1..] == vs;
    }
  }

  lemma {:induction false} AllShapesFitIff(vs: seq<Value>, limits: Limits)
    ensures AllShapesFit(vs, limits) <==> forall k :: 0 <= k < |vs| ==> ShapeFits(vs[k], limits)
  {
    if vs == [] {
    } else {
      AllShapesFitIff(vs[1..], limits);
      assert forall k :: 1 <= k < |vs| ==> vs[k] == vs[1..][k - 1];
    }
  }

  /** Rules within the limits: not too many, and none too large. */
  ghost predicate RulesFit(rules: Value, limits: Limits) {
    && rules.Obj? && |rules.keys| <= limits.rules
    && forall k :: 0 <= k < |rules.values| ==> ShapeFits(rules.values[k], limits)
  }

  /**
   What a policy is prepared to: itself, when it names no rules; otherwise its entry, resolved
   under the rules. Rules without an entry, or that are no object, are invalid; whatever is too
   large, before or after resolution, is over the limit.
   */
  lemma {:induction false} PreparedExactlyWhen(policy: Value, limits: Limits)
    ensures
      var r, rules, entry := Prepare(policy, limits), Get(policy, "rules"), Get(policy, "entry");
      && (rules.None? && entry.None? ==> r == if ShapeFits(policy, limits) then Ok(policy) else Err(Limit))
      && (rules.Some? != entry.Some? || (rules.Some? && !rules.value.Obj?) ==> r == Err(Invalid))
      && (rules.Some? && entry.Some? && rules.value.Obj? && !RulesFit(rules.value, limits) ==> r == Err(Limit))
      && (rules.Some? && entry.Some? && RulesFit(rules.value, limits) ==>
            var resolved :=
              Resolve(entry.value, RulesOf(rules.value.keys, rules.value.values), limits.referenceDepth, []);
            && (r.Ok? <==> resolved.Ok? && ShapeFits(resolved.value, limits))
            && (r.Ok? ==> r == resolved)
            && (r.Err? ==> r.error == if resolved.Err? then resolved.error else Limit))
  {
    if Get(policy, "rules").Some? && Get(policy, "rules").value.Obj? {
      AllShapesFitIff(Get(policy, "rules").value.values, limits);
    }
  }

  /** A policy of rules whose entry is a reference to one of them. */
  function Named(rules: Value, name: string): Value {
    Obj(["rules", "entry"], [rules, Obj(["ref"], [Str(name)])])
  }

  lemma {:induction false} NamedFields(rules: Value, name: string)
    ensures Get(Named(rules, name), "rules") == Some(rules)
    ensures Get(Named(rules, name), "entry") == Some(Obj(["ref"], [Str(name)]))
  {
    var p := Named(rules, name);
    assert p.keys[1..] == ["entry"] && p.values[1..] == [Obj(["ref"], [Str(name)])];
    assert Find(p.keys[1..], p.values[1..], "entry") == Some(Obj(["ref"], [Str(name)]));
  }

  lemma {:induction false} NamedIsPrepared(rules: Value, name: string, limits: Limits)
    requires limits.ProfileCompliant() && RulesFit(rules, limits) && Has(rules, name)
    requires RefFree(Get(rules, name).value) && ShapeFits(Get(rules, name).value, limits)
    ensures Prepare(Named(rules, name), limits) == Ok(Get(rules, name).value)
  {
    NamedFields(rules, name);
    PreparedExactlyWhen(Named(rules, name), limits);
    RuleIsItsField(rules.keys, rules.values, name);
    RefFreeIsUntouched(Get(rules, name).value, RulesOf(rules.keys, rules.values), limits.referenceDepth, [name]);
    assert [] + [name] == [name];
  }

  /** A name stands for its own rule: the entry that names it is decided as that rule would be alone. */
  lemma {:induction false} NamedRuleDecides(rules: Value, name: string, facts: Value, limits: Limits)
    requires limits.ProfileCompliant() && RulesFit(rules, limits) && Has(rules, name)
    requires RefFree(Get(rules, name).value) && ShapeFits(Get(rules, name).value, limits)
    requires !Has(Get(rules, name).value, "rules") && !Has(Get(rules, name).value, "entry")
    ensures EvaluatePolicy(facts, Named(rules, name), limits) == EvaluatePolicy(facts, Get(rules, name).value, limits)
  {
    NamedIsPrepared(rules, name, limits);
    UnnamedIsItself(Get(rules, name).value, limits);
  }
}
