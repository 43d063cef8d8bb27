/** Preparing a policy and drawing a decision from it, end to end. */
module PolicyEvaluation {
  import opened Common
  import opened Json
  import opened Policy
  import opened References
  import opened Evaluator

  datatype Decision = Allow | Deny | Indeterminate

  /** The reason codes reported with a decision. */
  datatype Reason =
    | AllowReason
    | AdapterError
    | AuthorityDenial
    | ExplicitDeny
    | DefaultDeny
    | EvidenceUnknown
    | EvidenceStale
    | InputInvalid
    | LimitExceeded

  datatype Verdict = Verdict(decision: Decision, reason: Reason)

  // ---------------------------------------------------------------- preparation

  function RulesOf(keys: seq<string>, values: seq<Value>): Rules {
    if keys == [] || values == [] then map[]
    else RulesOf(keys[1..], values[1..])[keys[0] := values[0]]
  }

  predicate AllShapesFit(vs: seq<Value>, limits: Limits) {
    vs == [] || (ShapeFits(vs[0], limits) && AllShapesFit(vs[1..], limits))
  }

  function CheckedShape(v: Value, limits: Limits): Result<Value, Eval> {
    if ShapeFits(v, limits) then Ok(v) else Err(Limit)
  }

  /** The expression to evaluate: the policy itself, or its entry with every rule inlined. */
  function Prepare(policy: Value, limits: Limits): Result<Value, Eval> {
    var rules, entry := Get(policy, "rules"), Get(policy, "entry");
    if rules.Some? != entry.Some? then Err(Invalid)
    else if rules.None? then CheckedShape(policy, limits)
    else if !rules.value.Obj? then Err(Invalid)
    else if |rules.value.keys| > limits.rules then Err(Limit)
    else if !AllShapesFit(rules.value.values, limits) then Err(Limit)
    else
      var resolved :- Resolve(entry.value, RulesOf(rules.value.keys, rules.value.values), limits.referenceDepth, []);
      CheckedShape(resolved, limits)
  }

  method ValidateShape(v: Value, limits: Limits) returns (r: Result<Value, Eval>)
    ensures r == CheckedShape(v, limits)
  {
    var result, nodes := ValidateValueShape(v, limits, 0, 0);
    r := if result == True then Ok(v) else Err(result);
  }

  method PreparePolicy(policy: Value, limits: Limits) returns (r: Result<Value, Eval>)
    ensures r == Prepare(policy, limits)
  {
    var rules, entry := Get(policy, "rules"), Get(policy, "entry");
    if rules.Some? != entry.Some? {
      return Err(Invalid);
    }
    if rules.None? {
      r := ValidateShape(policy, limits);
      return;
    }
    if !rules.value.Obj? {
      return Err(Invalid);
    }
    if |rules.value.keys| > limits.rules {
      return Err(Limit);
    }
    var bodies := rules.value.values;
    for k := 0 to |bodies|
      invariant AllShapesFit(bodies, limits) <==> AllShapesFit(bodies[k..], limits)
    {
      assert bodies[k..][0] == bodies[k] && bodies[k..][1..] == bodies[k + 1..];
      var checked := ValidateShape(bodies[k], limits);
      if checked.Err? {
        return Err(checked.error);
      }
    }
    var stack := new Stack();
    var resolved := ResolveValue(entry.value, RulesOf(rules.value.keys, bodies), limits.referenceDepth, stack);
    if resolved.Err? {
      return resolved;
    }
    r := ValidateShape(resolved.value, limits);
  }

  // ---------------------------------------------------------------- decision

  function TextAt(v: Value, key: string): Option<string> {
    match Get(v, key)
    case Some(Str(s)) => Some(s)
    case _ => None
  }

  predicate AuthorityDenied(context: Value, policy: Value) {
    && TextAt(policy, "action") == Some("apply")
    && Get(policy, "requires_authority") == Some(Bool(true))
    && Get(context, "apply_authority") != Some(Bool(true))
  }

  /** `expr` evaluated at the top with a full tank. */
  function Fresh(expr: Value, context: Value, limits: Limits): (Eval, nat) {
    EvalExpr(expr, context, 0, limits.fuel, limits)
  }

  function Preflight(context: Value, policy: Value, limits: Limits): Option<Verdict> {
    if Has(policy, "require_adapter_allow") then
      Some(if TextAt(context, "adapter_result") == Some("allow") then Verdict(Allow, AllowReason)
           else Verdict(Indeterminate, AdapterError))
    else if AuthorityDenied(context, policy) then Some(Verdict(Deny, AuthorityDenial))
    else if Has(policy, "allow") && Has(policy, "deny")
      && Fresh(Get(policy, "deny").value, context, limits).0 == True then
      Some(Verdict(Deny, ExplicitDeny))
    else None
  }

  function EvidenceTime(context: Value): Eval {
    match (TextAt(context, "evaluated_at"), TextAt(context, "evidence_expires_at"))
    case (Some(now), Some(expires)) => if Before(expires, now) then Stale else True
    case _ => Unknown
  }

  /** `deny` is evaluated first and `allow` with the fuel it leaves. */
  function Body(context: Value, policy: Value, limits: Limits): Eval {
    if Has(policy, "evidence_valid_at") then EvidenceTime(context)
    else if Has(policy, "allow") && Has(policy, "deny") then
      var (deny, left) := Fresh(Get(policy, "deny").value, context, limits);
      match deny
      case True => False
      case False => EvalExpr(Get(policy, "allow").value, context, 0, left, limits).0
      case _ => deny
    else Fresh(policy, context, limits).0
  }

  function Disposition(r: Eval): Verdict {
    match r
    case True => Verdict(Allow, AllowReason)
    case False => Verdict(Deny, DefaultDeny)
    case Unknown => Verdict(Indeterminate, EvidenceUnknown)
    case Stale => Verdict(Deny, EvidenceStale)
    case Invalid => Verdict(Indeterminate, InputInvalid)
    case Limit => Verdict(Indeterminate, LimitExceeded)
  }

  function EvaluatePrepared(context: Value, prepared: Value, limits: Limits): Verdict {
    match Preflight(context, prepared, limits)
    case Some(verdict) => verdict
    case None => Disposition(Body(context, prepared, limits))
  }

  function EvaluatePolicy(context: Value, policy: Value, limits: Limits): Verdict {
    if !limits.ProfileCompliant() then Disposition(Invalid)
    else if !CollectionsFit(context, limits.collectionValues) then Disposition(Limit)
    else
      match Prepare(policy, limits)
      case Err(e) => Disposition(e)
      case Ok(prepared) => EvaluatePrepared(context, prepared, limits)
  }

  // ---------------------------------------------------------------- limits are adequate

  function BodyMeaning(context: Value, policy: Value): Eval {
    if Has(policy, "evidence_valid_at") then EvidenceTime(context)
    else if Has(policy, "allow") && Has(policy, "deny") then
      var deny := Meaning(Get(policy, "deny").value, context);
      match deny
      case True => False
      case False => Meaning(Get(policy, "allow").value, context)
      case _ => deny
    else Meaning(policy, context)
  }

  /** The decision with every limit removed. */
  function IdealVerdict(context: Value, policy: Value): Verdict {
    if Has(policy, "require_adapter_allow") then
      if TextAt(context, "adapter_result") == Some("allow") then Verdict(Allow, AllowReason)
      else Verdict(Indeterminate, AdapterError)
    else if AuthorityDenied(context, policy) then Verdict(Deny, AuthorityDenial)
    else if Has(policy, "allow") && Has(policy, "deny") && Meaning(Get(policy, "deny").value, context) == True then
      Verdict(Deny, ExplicitDeny)
    else Disposition(BodyMeaning(context, policy))
  }

  lemma {:induction false} PreparedFits(policy: Value, limits: Limits)
    requires Prepare(policy, limits).Ok?
    ensures ShapeFits(Prepare(policy, limits).value, limits)
  {
  }

  lemma {:induction false} TwoFields(keys: seq<string>, values: seq<Value>, a: string, b: string)
    requires a != b && Find(keys, values, a).Some? && Find(keys, values, b).Some?
    ensures Nodes(Find(keys, values, a).value) + Nodes(Find(keys, values, b).value) <= NodesAll(values)
  {
    if keys[0] != a && keys[0] != b {
      TwoFields(keys[1..], values[1..], a, b);
    }
  }

  /** What a shape-checked expression needs is within the limits that checked it. */
  ghost predicate Adequate(context: Value, e: Value, limits: Limits) {
    && limits.ProfileCompliant() && limits.astNodesPerRule <= limits.fuel
    && CollectionsFit(context, limits.collectionValues)
    && ShapeFits(e, limits) && ProbeFree(e)
  }

  lemma {:induction false} FreshIsMeaning(context: Value, e: Value, limits: Limits)
    requires Adequate(context, e, limits)
    ensures Fresh(e, context, limits).0 == Meaning(e, context) != Limit
  {
    MeteredIsMeaning(e, context, 0, limits.fuel, limits, limits.expressionDepth);
  }

  /** One tank is enough for `deny` followed by `allow`. */
  lemma {:induction false} BothSidesAreMeaning(context: Value, e: Value, limits: Limits)
    requires Adequate(context, e, limits) && Has(e, "allow") && Has(e, "deny")
    ensures
      var (deny, left) := Fresh(Get(e, "deny").value, context, limits);
      && deny == Meaning(Get(e, "deny").value, context) != Limit
      && EvalExpr(Get(e, "allow").value, context, 0, left, limits).0 == Meaning(Get(e, "allow").value, context) != Limit
  {
    var levels := limits.expressionDepth - 1;
    FieldWithin(e.keys, e.values, "allow", levels, limits.collectionValues);
    FieldWithin(e.keys, e.values, "deny", levels, limits.collectionValues);
    TwoFields(e.keys, e.values, "allow", "deny");
    MeteredIsMeaning(Get(e, "deny").value, context, 0, limits.fuel, limits, levels);
    var left := Fresh(Get(e, "deny").value, context, limits).1;
    MeteredIsMeaning(Get(e, "allow").value, context, 0, left, limits, levels);
  }

  lemma {:induction false} PreparedVerdictIsIdeal(context: Value, prepared: Value, limits: Limits)
    requires Adequate(context, prepared, limits)
    ensures EvaluatePrepared(context, prepared, limits) == IdealVerdict(context, prepared)
    ensures IdealVerdict(context, prepared).reason != LimitExceeded
  {
    if Has(prepared, "allow") && Has(prepared, "deny") {
      BothSidesAreMeaning(context, prepared, limits);
    } else {
      FreshIsMeaning(context, prepared, limits);
    }
  }

  /**
   For a policy that passed preparation, with at least as much fuel as a rule may have nodes and no
   probe key, the limits never show: the verdict is the one of the evaluator without limits.
   */
  lemma {:induction false} LimitsAreAdequate(context: Value, policy: Value, limits: Limits)
    requires limits.ProfileCompliant() && limits.astNodesPerRule <= limits.fuel
    requires CollectionsFit(context, limits.collectionValues)
    requires Prepare(policy, limits).Ok? && ProbeFree(Prepare(policy, limits).value)
    ensures
      var verdict := EvaluatePolicy(context, policy, limits);
      verdict == IdealVerdict(context, Prepare(policy, limits).value) && verdict.reason != LimitExceeded
  {
    PreparedFits(policy, limits);
    PreparedVerdictIsIdeal(context, Prepare(policy, limits).value, limits);
  }

  /** A matching explicit deny is honoured exactly when the policy does not defer to an adapter. */
  lemma {:induction false} ExplicitDenyWinsIff(context: Value, prepared: Value, limits: Limits)
    requires Has(prepared, "allow") && Has(prepared, "deny")
    requires Fresh(Get(prepared, "deny").value, context, limits).0 == True
    ensures EvaluatePrepared(context, prepared, limits).decision == Deny <==> !Has(prepared, "require_adapter_allow")
  {
  }
}
