/** Which bundles are planned, what each planned step says, and which receipts are verified against a plan. */
module PlannerLaws {
  import opened Common
  import opened Json
  import opened Planner
  import Sorting

  // ---------------------------------------------------------------- secrets in plain sight

  /** `w` is `v` itself, or stands somewhere inside it. */
  ghost predicate Inside(w: Value, v: Value)
    decreases v, 1
  {
    w == v
    || match v
       case Arr(items) => InsideAny(w, items)
       case Obj(_, values) => InsideAny(w, values)
       case _ => false
  }

  ghost predicate InsideAny(w: Value, vs: seq<Value>)
    decreases vs, 0
  {
    vs != [] && (Inside(w, vs[0]) || InsideAny(w, vs[1..]))
  }

  /** An object with a field that is named like a secret. */
  ghost predicate NamesSecret(w: Value) {
    w.Obj? && exists k :: k in w.keys && k in {"secret", "secret_value", "password", "token", "private_key"}
  }

  ghost predicate HoldsSecret(v: Value) {
    exists w :: Inside(w, v) && NamesSecret(w)
  }

  ghost predicate AnyHoldsSecret(vs: seq<Value>) {
    exists w :: InsideAny(w, vs) && NamesSecret(w)
  }

  lemma {:induction false} NamesSecretIff(v: Value)
    requires v.Obj?
    ensures NamesSecret(v) <==> exists k :: k in v.keys && SecretKey(k)
  {
    if k :| k in v.keys && SecretKey(k) {
      assert k in {"secret", "secret_value", "password", "token", "private_key"};
    }
  }

  /** A secret is found exactly when some object, however deep, has a field named like one. */
  lemma {:induction false} SecretFoundIff(v: Value)
    ensures ContainsInlineSecret(v) <==> HoldsSecret(v)
    decreases v, 1
  {
    match v
    case Arr(items) =>
      AnySecretFoundIff(items);
      if w :| InsideAny(w, items) && NamesSecret(w) {
        assert Inside(w, v);
      }
    case Obj(_, values) =>
      AnySecretFoundIff(values);
      NamesSecretIff(v);
      assert Inside(v, v);
      if w :| InsideAny(w, values) && NamesSecret(w) {
        assert Inside(w, v);
      }
    case _ =>
  }

  lemma {:induction false} AnySecretFoundIff(vs: seq<Value>)
    ensures AnyInlineSecret(vs) <==> AnyHoldsSecret(vs)
    decreases vs, 0
  {
    if vs == [] {
    } else {
      SecretFoundIff(vs[0]);
      AnySecretFoundIff(vs[1..]);
      if w :| Inside(w, vs[0]) && NamesSecret(w) {
        assert InsideAny(w, vs);
      }
      if w :| InsideAny(w, vs[1..]) && NamesSecret(w) {
        assert InsideAny(w, vs);
      }
    }
  }

  // ---------------------------------------------------------------- which bundles are planned

  ghost predicate Plannable(r: Resource) {
    r.resourceId != "" && r.kind != "" && !HoldsSecret(r.desired)
  }

  /** Named, within the limit, of plannable and different resources, with nothing in it to be understood first. */
  ghost predicate Admissible(b: Bundle, supported: set<string>, maxResources: nat) {
    && b.schemaVersion == "1" && b.bundleId != "" && b.issuer != "" && b.audience != ""
    && |b.resources| <= maxResources
    && (forall r :: r in b.resources ==> Plannable(r))
    && (forall i, j :: 0 <= i < j < |b.resources| ==> b.resources[i].resourceId != b.resources[j].resourceId)
    && (forall e :: e in b.extensions ==> e.id in supported || e.level in {OptionalIgnorable, OptionalNegotiable})
  }

  lemma {:induction false} AdmissibleIff(b: Bundle, supported: set<string>, maxResources: nat)
    ensures BundleFault(b, supported, maxResources).None? <==> Admissible(b, supported, maxResources)
  {
    ResourcesPassIff(b.resources, {});
    AllSupportedIff(b.extensions, supported);
    forall r | r in b.resources ensures GoodResource(r) <==> Plannable(r) {
      SecretFoundIff(r.desired);
    }
    forall e: Extension
      ensures !MustUnderstand(e, supported) <==>
              e.id in supported || e.level in {OptionalIgnorable, OptionalNegotiable}
    {
    }
  }

  lemma {:induction false} ResourceFaultsAre(resources: seq<Resource>, seen: set<string>)
    ensures ResourceFault(resources, seen) in {None, Some(EmptyIdentifier), Some(DuplicateResource), Some(InlineSecret)}
    decreases |resources|
  {
    if resources == [] {
    } else {
      ResourceFaultsAre(resources[1..], seen + {resources[0].resourceId});
    }
  }

  lemma {:induction false} FaultsAreNot(b: Bundle, supported: set<string>, maxResources: nat)
    ensures BundleFault(b, supported, maxResources) != Some(Cancelled)
    ensures BundleFault(b, supported, maxResources) != Some(StaleGeneration)
  {
    ResourceFaultsAre(b.resources, {});
  }

  /**
   A bundle is planned exactly when it is admissible, of the accepted generation, and planning was
   not cancelled. Cancellation is reported before anything else, a stale generation only of an
   admissible bundle.
   */
  lemma {:induction false} PlannedExactlyWhen(b: Bundle, accepted: Accepted, supported: set<string>, control: Control)
    ensures
      var r, admissible := PlanFor(b, accepted, supported, control), Admissible(b, supported, control.maxResources);
      && (r.Ok? <==> !control.cancelled && admissible && b.expectedGeneration == accepted.generation)
      && (r == Err(Cancelled) <==> control.cancelled)
      && (r == Err(StaleGeneration) <==>
            !control.cancelled && admissible && b.expectedGeneration != accepted.generation)
  {
    AdmissibleIff(b, supported, control.maxResources);
    FaultsAreNot(b, supported, control.maxResources);
  }

  predicate IsNewAt(resources: seq<Resource>, k: nat)
    requires k < |resources|
  {
    forall j :: 0 <= j < k ==> resources[j].resourceId != resources[k].resourceId
  }

  /** Resource `k` is the first that is unnamed, repeated or holds a secret. */
  ghost predicate FirstUnplannable(resources: seq<Resource>, k: nat) {
    && k < |resources|
    && !(Plannable(resources[k]) && IsNewAt(resources, k))
    && forall j :: 0 <= j < k ==> Plannable(resources[j]) && IsNewAt(resources, j)
  }

  /** Resource `k` is new at its place, and not among those seen before all. */
  predicate IsNewBeside(resources: seq<Resource>, k: nat, seen: set<string>)
    requires k < |resources|
  {
    IsNewAt(resources, k) && resources[k].resourceId !in seen
  }

  lemma {:induction false} IsNewBesideFirst(r: Resource, rest: seq<Resource>, seen: set<string>, j: nat)
    requires j < |rest|
    ensures IsNewBeside(rest, j, seen + {r.resourceId}) <==> IsNewBeside([r] + rest, j + 1, seen)
  {
    var all := [r] + rest;
    assert all[j + 1] == rest[j] && all[0] == r;
    assert forall i :: 0 <= i < j ==> all[i + 1] == rest[i];
    if IsNewBeside(rest, j, seen + {r.resourceId}) {
      forall i | 0 <= i < j + 1 ensures all[i].resourceId != all[j + 1].resourceId {
        assert i > 0 ==> all[i] == rest[i - 1];
      }
    }
  }

  lemma {:induction false} UnplannableIsReported(resources: seq<Resource>, seen: set<string>, k: nat)
    requires k < |resources| && !(Plannable(resources[k]) && IsNewBeside(resources, k, seen))
    requires forall j :: 0 <= j < k ==> Plannable(resources[j]) && IsNewBeside(resources, j, seen)
    ensures ResourceFault(resources, seen)
            == Some(if resources[k].resourceId == "" || resources[k].kind == "" then EmptyIdentifier
                    else if !IsNewBeside(resources, k, seen) then DuplicateResource
                    else InlineSecret)
    decreases k
  {
    var r, rest := resources[0], resources[1..];
    SecretFoundIff(r.desired);
    if k == 0 {
    } else {
      assert Plannable(r) && IsNewBeside(resources, 0, seen) && [r] + rest == resources;
      forall j | 0 <= j < |rest|
        ensures IsNewBeside(rest, j, seen + {r.resourceId}) <==> IsNewBeside(resources, j + 1, seen)
      {
        IsNewBesideFirst(r, rest, seen, j);
      }
      assert forall j :: 0 <= j < |rest| ==> rest[j] == resources[j + 1];
      UnplannableIsReported(rest, seen + {r.resourceId}, k - 1);
    }
  }

  /** The bundle's own names are there, and there are no more resources than may be. */
  predicate BundleNamed(b: Bundle) {
    b.bundleId != "" && b.issuer != "" && b.audience != ""
  }

  /**
   What a bundle that is not planned is refused as: for its version, its names, its size, its first
   resource at fault, then an extension that must be understood and is not.
   */
  lemma {:induction false} BundleRefusedAs(b: Bundle, accepted: Accepted, supported: set<string>, control: Control)
    requires !control.cancelled
    ensures
      var r := PlanFor(b, accepted, supported, control);
      && (b.schemaVersion != "1" ==> r == Err(UnsupportedVersion))
      && (b.schemaVersion == "1" && !BundleNamed(b) ==> r == Err(EmptyIdentifier))
      && (b.schemaVersion == "1" && BundleNamed(b) && |b.resources| > control.maxResources ==> r == Err(ResourceLimit))
      && (b.schemaVersion == "1" && BundleNamed(b) && |b.resources| <= control.maxResources ==>
            forall k: nat :: FirstUnplannable(b.resources, k) ==>
              r == Err(if b.resources[k].resourceId == "" || b.resources[k].kind == "" then EmptyIdentifier
                       else if !IsNewAt(b.resources, k) then DuplicateResource
                       else InlineSecret))
  {
    forall k: nat | FirstUnplannable(b.resources, k)
      ensures ResourceFault(b.resources, {})
              == Some(if b.resources[k].resourceId == "" || b.resources[k].kind == "" then EmptyIdentifier
                      else if !IsNewAt(b.resources, k) then DuplicateResource
                      else InlineSecret)
    {
      UnplannableIsReported(b.resources, {}, k);
    }
  }

  /** And then the first extension at fault is named. */
  lemma {:induction false} ExtensionRefusedAs(b: Bundle, accepted: Accepted, supported: set<string>, control: Control,
        k: nat)
    requires !control.cancelled && Admissible(b.(extensions := []), supported, control.maxResources)
    requires k < |b.extensions| && b.extensions[k].id !in supported
    requires b.extensions[k].level in {RequiredUnderstood, RequiredSecurityCritical}
    requires forall j :: 0 <= j < k ==>
               b.extensions[j].id in supported || b.extensions[j].level in {OptionalIgnorable, OptionalNegotiable}
    ensures PlanFor(b, accepted, supported, control) == Err(UnsupportedRequiredExtension(b.extensions[k].id))
  {
    AdmissibleIff(b.(extensions := []), supported, control.maxResources);
    FirstUnsupportedIs(b.extensions, supported, k);
  }

  // ---------------------------------------------------------------- what each step says

  /** The step takes its resource from what was accepted, if anything was, to what the bundle desires. */
  predicate StepSays(step: Operation, accepted: Accepted, bundleId: string) {
    && (step.resourceId in accepted.digests ==> step.beforeDigest == accepted.digests[step.resourceId])
    && (step.resourceId !in accepted.digests ==> step.beforeDigest == Text("absent"))
    && (step.action == Create <==> step.beforeDigest == Text("absent"))
    && (step.action == Update <==> step.beforeDigest != Text("absent"))
    && step.expectedGeneration == accepted.generation && step.targetGeneration == accepted.generation + 1
    && step.idempotencyKey == bundleId + ":" + step.resourceId
  }

  lemma {:induction false} SortedHolds<T>(before: (T, T) -> bool, s: seq<T>, sorted: seq<T>, k: nat)
    requires multiset(sorted) == multiset(s) && k < |sorted|
    ensures sorted[k] in s
  {
    assert sorted[k] in multiset(sorted);
  }

  /** A plan says of the bundle what it is, and each of its steps is about one of the bundle's resources. */
  lemma {:induction false} PlanSays(b: Bundle, accepted: Accepted, supported: set<string>, control: Control)
    requires PlanFor(b, accepted, supported, control).Ok?
    ensures
      var plan := PlanFor(b, accepted, supported, control).value;
      && plan.schemaVersion == "1" && plan.plannerVersion == "iicp-management-planner/0.1.0"
      && plan.bundleId == b.bundleId
      && plan.expectedGeneration == accepted.generation && plan.targetGeneration == accepted.generation + 1
      && forall k :: 0 <= k < |plan.operations| ==>
           && StepSays(plan.operations[k], accepted, b.bundleId)
           && exists r :: r in b.resources && r.resourceId == plan.operations[k].resourceId
                          && plan.operations[k].afterDigest == Sha(r.desired)
  {
    var plan := PlanFor(b, accepted, supported, control).value;
    var sorted := Sorting.SortBy(ByResource, b.resources);
    forall k | 0 <= k < |plan.operations|
      ensures StepSays(plan.operations[k], accepted, b.bundleId)
      ensures exists r :: r in b.resources && r.resourceId == plan.operations[k].resourceId
                          && plan.operations[k].afterDigest == Sha(r.desired)
    {
      SortedHolds(ByResource, b.resources, sorted, k);
      assert plan.operations[k] == OperationFor(sorted[k], k, accepted, b.bundleId);
    }
  }

  /** The digest a plan carries is of the bundle with its resources and extensions in order. */
  lemma {:induction false} PlanDigestsTheBundle(b: Bundle, accepted: Accepted, supported: set<string>, control: Control)
    requires PlanFor(b, accepted, supported, control).Ok?
    ensures
      var plan := PlanFor(b, accepted, supported, control).value;
      && plan.bundleDigest.Sha? && Reordered(b, plan.bundleDigest.of)
      && |plan.operations| == |plan.bundleDigest.of.resources|
      && forall k :: 0 <= k < |plan.operations| ==>
           && plan.operations[k].resourceId == plan.bundleDigest.of.resources[k].resourceId
           && plan.operations[k].afterDigest == Sha(plan.bundleDigest.of.resources[k].desired)
  {
  }

  lemma {:induction false} PaddedIs(s: string, width: nat)
    ensures |Padded(s, width)| == if |s| >= width then |s| else width
    ensures forall k :: 0 <= k < |Padded(s, width)| - |s| ==> Padded(s, width)[k] == '0'
    ensures |s| <= |Padded(s, width)| && Padded(s, width)[|Padded(s, width)| - |s|..] == s
    decreases width - |s|
  {
    if |s| < width {
      PaddedIs("0" + s, width);
      var all := Padded("0" + s, width);
      assert all[|all| - |s| - 1..] == "0" + s;
      assert all[|all| - |s| - 1] == '0' && all[|all| - |s|..] == s;
    }
  }

  lemma {:induction false} DecimalIs(n: nat)
    ensures |Decimal(n)| >= 1
    ensures n < 10_000 ==> |Decimal(n)| <= 4
    ensures n < 1_000 ==> |Decimal(n)| <= 3
    ensures n < 100 ==> |Decimal(n)| <= 2
    ensures n < 10 ==> |Decimal(n)| <= 1
  {
    if n >= 10 {
      DecimalIs(n / 10);
    }
  }

  lemma {:induction false} AfterPrefix(prefix: string, s: string, last: nat)
    requires last <= |s|
    ensures
      var all := prefix + s;
      && all[..|prefix|] == prefix && all[|all| - last..] == s[|s| - last..]
      && forall k :: |prefix| <= k < |all| ==> all[k] == s[k - |prefix|]
  {
  }

  lemma {:induction false} PrefixedIs(prefix: string, s: string, width: nat, all: string)
    requires all == prefix + Padded(s, width)
    ensures |all| == |prefix| + if |s| >= width then |s| else width
    ensures all[..|prefix|] == prefix && all[|all| - |s|..] == s
    ensures forall k :: |prefix| <= k < |all| - |s| ==> all[k] == '0'
  {
    PaddedIs(s, width);
    AfterPrefix(prefix, Padded(s, width), |s|);
  }

  /** The id of step `n` is `op-` and its number, with zeros before it up to four digits. */
  lemma {:induction false} OperationIdsAre(n: nat)
    ensures
      var id, digits := OperationId(n), Decimal(n);
      && id[..3] == "op-" && |id| == 3 + (if |digits| >= 4 then |digits| else 4)
      && (n < 10_000 ==> |id| == 7)
      && id[|id| - |digits|..] == digits && forall k :: 3 <= k < |id| - |digits| ==> id[k] == '0'
  {
    DecimalIs(n);
    PrefixedIs("op-", Decimal(n), 4, OperationId(n));
  }

  /** What extensions are ordered by: the name of their class, a colon, and their id. */
  function ClassAndId(e: Extension): string {
    (match e.level
     case OptionalIgnorable => "OptionalIgnorable"
     case OptionalNegotiable => "OptionalNegotiable"
     case RequiredUnderstood => "RequiredUnderstood"
     case RequiredSecurityCritical => "RequiredSecurityCritical")
    + ":" + e.id
  }

  /** In the digested bundle resources and extensions stand in ascending order. */
  lemma {:induction false} DigestedInOrder(b: Bundle, accepted: Accepted, supported: set<string>, control: Control)
    requires PlanFor(b, accepted, supported, control).Ok?
             && PlanFor(b, accepted, supported, control).value.bundleDigest.Sha?
    ensures
      var digested := PlanFor(b, accepted, supported, control).value.bundleDigest.of;
      && (forall i, j :: 0 <= i < j < |digested.resources| ==>
            !Before(digested.resources[j].resourceId, digested.resources[i].resourceId))
      && (forall i, j :: 0 <= i < j < |digested.extensions| ==>
            !Before(ClassAndId(digested.extensions[j]), ClassAndId(digested.extensions[i])))
  {
    ByResourceIsOrder();
    ByExtensionIsOrder();
    Sorting.SortAscending(ByResource, b.resources);
    Sorting.SortAscending(ByExtension, b.extensions);
  }

  // ---------------------------------------------------------------- which receipts are verified

  /** Step `k` is the first about the resource. */
  predicate IsFirst(operations: seq<Operation>, resourceId: string, k: int) {
    && 0 <= k < |operations| && operations[k].resourceId == resourceId
    && forall j :: 0 <= j < k ==> operations[j].resourceId != resourceId
  }

  /** The observation is of a planned resource, at the receipt's generation, and true if it says converged. */
  ghost predicate ObservesPlan(o: Observation, receipt: Receipt, plan: Plan) {
    && o.schemaVersion == "1" && o.generation == receipt.acceptedGeneration
    && exists k :: IsFirst(plan.operations, o.resourceId, k)
                   && (o.state == Converged ==> o.digest == plan.operations[k].afterDigest)
  }

  lemma {:induction false} FirstOperationIs(operations: seq<Operation>, resourceId: string)
    ensures
      var found := FindOperation(operations, resourceId);
      && (found.None? ==> forall k :: 0 <= k < |operations| ==> operations[k].resourceId != resourceId)
      && (found.Some? ==> exists k :: IsFirst(operations, resourceId, k) && operations[k] == found.value)
  {
    if operations == [] {
    } else if operations[0].resourceId != resourceId {
      var rest, found := operations[1..], FindOperation(operations[1..], resourceId);
      FirstOperationIs(rest, resourceId);
      assert forall k :: 1 <= k < |operations| ==> operations[k] == rest[k - 1];
      if found.Some? {
        var k :| IsFirst(rest, resourceId, k) && rest[k] == found.value;
        assert IsFirst(operations, resourceId, k + 1);
      }
    }
  }

  lemma {:induction false} ObservesPlanIff(o: Observation, receipt: Receipt, plan: Plan)
    ensures ObservationFits(o, receipt, plan) <==> ObservesPlan(o, receipt, plan)
  {
    var operations, found := plan.operations, FindOperation(plan.operations, o.resourceId);
    FirstOperationIs(operations, o.resourceId);
    if found.Some? {
      var k :| IsFirst(operations, o.resourceId, k) && operations[k] == found.value;
      assert forall i :: IsFirst(operations, o.resourceId, i) ==> i == k;
    }
  }

  lemma {:induction false} CountedIsAll(observations: seq<Observation>, state: Convergence)
    ensures Count(observations, state) == |observations| <==>
            forall k :: 0 <= k < |observations| ==> observations[k].state == state
    decreases |observations|
  {
    if observations == [] {
    } else {
      CountedIsAll(observations[1..], state);
      assert forall k :: 1 <= k < |observations| ==> observations[k] == observations[1..][k - 1];
    }
  }

  /** Converged when all are and there are some, failed when all are or there are none, partial otherwise. */
  predicate SumsUp(state: Convergence, observations: seq<Observation>) {
    && (state == Converged <==>
          observations != [] && forall k :: 0 <= k < |observations| ==> observations[k].state == Converged)
    && (state == Failed <==> forall k :: 0 <= k < |observations| ==> observations[k].state == Failed)
  }

  lemma {:induction false} EffectiveSumsUp(state: Convergence, observations: seq<Observation>)
    ensures state == EffectiveState(observations) <==> SumsUp(state, observations)
  {
    CountedIsAll(observations, Converged);
    CountedIsAll(observations, Failed);
  }

  /**
   A receipt is verified exactly when it answers this plan to this audience, observes as many
   different planned resources as there are steps, truly, and sums them up. A receipt that only
   sums up wrongly is reported as such.
   */
  lemma {:induction false} ReceiptVerifiedExactlyWhen(receipt: Receipt, plan: Plan, audience: string)
    ensures
      var obs := receipt.observations;
      var answers :=
        && receipt.schemaVersion == "1" && receipt.audience == audience
        && receipt.bundleDigest == plan.bundleDigest && receipt.planDigest == Sha(plan)
        && receipt.acceptedGeneration == plan.targetGeneration
        && |obs| == |plan.operations|
        && (forall k :: 0 <= k < |obs| ==> ObservesPlan(obs[k], receipt, plan))
        && (forall i, j :: 0 <= i < j < |obs| ==> obs[i].resourceId != obs[j].resourceId);
      && (VerifyReceipt(receipt, plan, audience).None? <==> answers && SumsUp(receipt.effectiveState, obs))
      && (VerifyReceipt(receipt, plan, audience) == Some(StateMismatch) <==>
            answers && !SumsUp(receipt.effectiveState, obs))
  {
    var obs := receipt.observations;
    FitIff(obs, receipt, plan, {});
    forall o ensures ObservationFits(o, receipt, plan) <==> ObservesPlan(o, receipt, plan) {
      ObservesPlanIff(o, receipt, plan);
    }
    EffectiveSumsUp(receipt.effectiveState, obs);
  }

}
