/** The planner and the receipt verifier. */
module Planner {
  import opened Common
  import opened Json
  import opened Sorting

  const CONTRACT_VERSION := "1"
  const PLANNER_VERSION := "iicp-management-planner/0.1.0"

  datatype Resource = Resource(resourceId: string, kind: string, desired: Value, secretRefs: map<string, string>)

  datatype Bundle = Bundle(
    schemaVersion: string,
    bundleId: string,
    issuer: string,
    audience: string,
    expectedGeneration: nat,
    resources: seq<Resource>,
    extensions: seq<Extension>)

  datatype Accepted = Accepted(generation: nat, digests: map<string, Digest<Value>>)

  datatype Action = Create | Update

  datatype Operation = Operation(
    operationId: string,
    resourceId: string,
    action: Action,
    beforeDigest: Digest<Value>,
    afterDigest: Digest<Value>,
    expectedGeneration: nat,
    targetGeneration: nat,
    idempotencyKey: string)

  datatype Plan = Plan(
    schemaVersion: string,
    plannerVersion: string,
    bundleId: string,
    bundleDigest: Digest<Bundle>,
    expectedGeneration: nat,
    targetGeneration: nat,
    operations: seq<Operation>)

  datatype PlanError =
    | UnsupportedVersion
    | EmptyIdentifier
    | DuplicateResource
    | InlineSecret
    | UnsupportedRequiredExtension(id: string)
    | StaleGeneration
    | ResourceLimit
    | Cancelled

  datatype Control = Control(maxResources: nat, cancelled: bool)

  // ---------------------------------------------------------------- validation

  predicate SecretKey(key: string) {
    key == "secret" || key == "secret_value" || key == "password" || key == "token" || key == "private_key"
  }

  predicate ContainsInlineSecret(v: Value)
    decreases v, 1
  {
    match v
    case Arr(items) => AnyInlineSecret(items)
    case Obj(keys, values) => (exists k :: k in keys && SecretKey(k)) || AnyInlineSecret(values)
    case _ => false
  }

  predicate AnyInlineSecret(vs: seq<Value>)
    decreases vs, 0
  {
    vs != [] && (ContainsInlineSecret(vs[0]) || AnyInlineSecret(vs[1..]))
  }

  function ResourceFault(resources: seq<Resource>, seen: set<string>): Option<PlanError> {
    if resources == [] then None
    else
      var r := resources[0];
      if r.resourceId == "" || r.kind == "" then Some(EmptyIdentifier)
      else if r.resourceId in seen then Some(DuplicateResource)
      else if ContainsInlineSecret(r.desired) then Some(InlineSecret)
      else ResourceFault(resources[1..], seen + {r.resourceId})
  }

  function BundleFault(b: Bundle, supported: set<string>, maxResources: nat): Option<PlanError> {
    if b.schemaVersion != CONTRACT_VERSION then Some(UnsupportedVersion)
    else if b.bundleId == "" || b.issuer == "" || b.audience == "" then Some(EmptyIdentifier)
    else if |b.resources| > maxResources then Some(ResourceLimit)
    else
      match ResourceFault(b.resources, {})
      case Some(fault) => Some(fault)
      case None =>
        match FirstUnsupported(b.extensions, supported)
        case Some(id) => Some(UnsupportedRequiredExtension(id))
        case None => None
  }

  method ValidateBundle(b: Bundle, supported: set<string>, maxResources: nat) returns (fault: Option<PlanError>)
    ensures fault == BundleFault(b, supported, maxResources)
  {
    if b.schemaVersion != CONTRACT_VERSION {
      return Some(UnsupportedVersion);
    }
    if b.bundleId == "" || b.issuer == "" || b.audience == "" {
      return Some(EmptyIdentifier);
    }
    if |b.resources| > maxResources {
      return Some(ResourceLimit);
    }
    var ids: set<string> := {};
    for k := 0 to |b.resources|
      invariant ResourceFault(b.resources, {}) == ResourceFault(b.resources[k..], ids)
    {
      var r := b.resources[k];
      assert b.resources[k..][0] == r && b.resources[k..][1..] == b.resources[k + 1..];
      if r.resourceId == "" || r.kind == "" {
        return Some(EmptyIdentifier);
      }
      if r.resourceId in ids {
        return Some(DuplicateResource);
      }
      if ContainsInlineSecret(r.desired) {
        return Some(InlineSecret);
      }
      ids := ids + {r.resourceId};
    }
    for k := 0 to |b.extensions|
      invariant FirstUnsupported(b.extensions, supported) == FirstUnsupported(b.extensions[k..], supported)
    {
      assert b.extensions[k..][0] == b.extensions[k] && b.extensions[k..][1..] == b.extensions[k + 1..];
      if MustUnderstand(b.extensions[k], supported) {
        return Some(UnsupportedRequiredExtension(b.extensions[k].id));
      }
    }
    fault := None;
  }

  // ---------------------------------------------------------------- planning

  function DigitChar(d: nat): char
    requires d < 10
  {
    '0' + d as char
  }

  function Decimal(n: nat): string {
    if n < 10 then [DigitChar(n)] else Decimal(n / 10) + [DigitChar(n % 10)]
  }

  /** Left-padded with zeros to `width` characters. */
  function Padded(s: string, width: nat): string
    decreases width - |s|
  {
    if |s| >= width then s else Padded("0" + s, width)
  }

  function OperationId(number: nat): string {
    "op-" + Padded(Decimal(number), 4)
  }

  function ClassName(level: ExtensionClass): string {
    match level
    case OptionalIgnorable => "OptionalIgnorable"
    case OptionalNegotiable => "OptionalNegotiable"
    case RequiredUnderstood => "RequiredUnderstood"
    case RequiredSecurityCritical => "RequiredSecurityCritical"
  }

  predicate ByResource(a: Resource, b: Resource) {
    Before(a.resourceId, b.resourceId)
  }

  function ExtensionKey(e: Extension): string {
    ClassName(e.level) + ":" + e.id
  }

  predicate ByExtension(a: Extension, b: Extension) {
    Before(ExtensionKey(a), ExtensionKey(b))
  }

  function OperationFor(r: Resource, index: nat, accepted: Accepted, bundleId: string): Operation {
    var before := if r.resourceId in accepted.digests then accepted.digests[r.resourceId] else Text("absent");
    Operation(
      OperationId(index + 1), r.resourceId, if before == Text("absent") then Create else Update,
      before, Sha(r.desired), accepted.generation, accepted.generation + 1, bundleId + ":" + r.resourceId)
  }

  function Operations(resources: seq<Resource>, accepted: Accepted, bundleId: string): seq<Operation> {
    seq(|resources|, i requires 0 <= i < |resources| => OperationFor(resources[i], i, accepted, bundleId))
  }

  /** The plan of an admissible bundle, from its resources and extensions in canonical order. */
  function PlanOf(b: Bundle, resources: seq<Resource>, extensions: seq<Extension>, accepted: Accepted): Plan {
    Plan(
      CONTRACT_VERSION, PLANNER_VERSION, b.bundleId, Sha(b.(resources := resources, extensions := extensions)),
      accepted.generation, accepted.generation + 1, Operations(resources, accepted, b.bundleId))
  }

  function PlanFor(b: Bundle, accepted: Accepted, supported: set<string>, control: Control): Result<Plan, PlanError> {
    if control.cancelled then Err(Cancelled)
    else
      match BundleFault(b, supported, control.maxResources)
      case Some(fault) => Err(fault)
      case None =>
        if b.expectedGeneration != accepted.generation then Err(StaleGeneration)
        else
          Ok(PlanOf(b, SortBy(ByResource, b.resources), SortBy(ByExtension, b.extensions), accepted))
  }

  method BuildOperations(resources: seq<Resource>, accepted: Accepted, bundleId: string)
    returns (operations: seq<Operation>)
    ensures operations == Operations(resources, accepted, bundleId)
  {
    operations := [];
    for index := 0 to |resources|
      invariant |operations| == index
      invariant forall k :: 0 <= k < index ==> operations[k] == OperationFor(resources[k], k, accepted, bundleId)
    {
      var resource := resources[index];
      var before := Text("absent");
      if resource.resourceId in accepted.digests {
        before := accepted.digests[resource.resourceId];
      }
      var action := if before == Text("absent") then Create else Update;
      operations := operations + [Operation(
        OperationId(index + 1), resource.resourceId, action, before, Sha(resource.desired),
        accepted.generation, accepted.generation + 1, bundleId + ":" + resource.resourceId)];
    }
  }

  method PlanWithControl(b: Bundle, accepted: Accepted, supported: set<string>, control: Control)
    returns (r: Result<Plan, PlanError>)
    ensures r == PlanFor(b, accepted, supported, control)
  {
    if control.cancelled {
      return Err(Cancelled);
    }
    var fault := ValidateBundle(b, supported, control.maxResources);
    if fault.Some? {
      return Err(fault.value);
    }
    if b.expectedGeneration != accepted.generation {
      return Err(StaleGeneration);
    }
    var resources, extensions := SortBy(ByResource, b.resources), SortBy(ByExtension, b.extensions);
    var bundleDigest := Sha(b.(resources := resources, extensions := extensions));
    var targetGeneration := accepted.generation + 1;
    var operations := BuildOperations(resources, accepted, b.bundleId);
    return Ok(Plan(CONTRACT_VERSION, PLANNER_VERSION, b.bundleId, bundleDigest, accepted.generation, targetGeneration,
                   operations));
  }

  // ---------------------------------------------------------------- the plan is canonical

  ghost predicate GoodResource(r: Resource) {
    r.resourceId != "" && r.kind != "" && !ContainsInlineSecret(r.desired)
  }

  function Ids(resources: seq<Resource>): set<string> {
    set r | r in resources :: r.resourceId
  }

  ghost predicate DistinctIds(resources: seq<Resource>) {
    forall i, j :: 0 <= i < j < |resources| ==> resources[i].resourceId != resources[j].resourceId
  }

  lemma {:induction false} DistinctIdsSplit(resources: seq<Resource>)
    requires resources != []
    ensures DistinctIds(resources) <==> DistinctIds(resources[1..]) && resources[0].resourceId !in Ids(resources[1..])
  {
    var r, rest := resources[0], resources[1..];
    if DistinctIds(rest) && r.resourceId !in Ids(rest) {
      forall i, j | 0 <= i < j < |resources| ensures resources[i].resourceId != resources[j].resourceId {
        assert resources[j] == rest[j - 1] && rest[j - 1] in rest && rest[j - 1].resourceId in Ids(rest);
        assert i > 0 ==> resources[i] == rest[i - 1];
      }
    }
    if DistinctIds(resources) {
      forall i, j | 0 <= i < j < |rest| ensures rest[i].resourceId != rest[j].resourceId {
        assert rest[i] == resources[i + 1] && rest[j] == resources[j + 1];
      }
      forall other | other in rest ensures other.resourceId != r.resourceId {
        var k :| 0 <= k < |rest| && rest[k] == other;
        assert resources[k + 1] == other;
      }
    }
  }

  lemma {:induction false} ResourcesPassIff(resources: seq<Resource>, seen: set<string>)
    ensures ResourceFault(resources, seen).None? <==>
            && (forall r :: r in resources ==> GoodResource(r) && r.resourceId !in seen)
            && DistinctIds(resources)
    decreases |resources|
  {
    if resources == [] {
    } else {
      var r, rest := resources[0], resources[1..];
      ResourcesPassIff(rest, seen + {r.resourceId});
      DistinctIdsSplit(resources);
      assert forall x :: x in resources <==> x == r || x in rest;
      assert (forall x :: x in rest ==> x.resourceId != r.resourceId) <==> r.resourceId !in Ids(rest);
    }
  }

  lemma {:induction false} IdsSplit(resources: seq<Resource>)
    requires resources != []
    ensures Ids(resources) == Ids(resources[1..]) + {resources[0].resourceId}
  {
    assert forall x :: x in resources <==> x == resources[0] || x in resources[1..];
  }

  lemma {:induction false} DistinctIffCounted(resources: seq<Resource>)
    ensures |Ids(resources)| <= |resources|
    ensures DistinctIds(resources) <==> |Ids(resources)| == |resources|
    decreases |resources|
  {
    if resources == [] {
    } else {
      var id, rest := resources[0].resourceId, Ids(resources[1..]);
      DistinctIffCounted(resources[1..]);
      DistinctIdsSplit(resources);
      IdsSplit(resources);
      assert if id in rest then rest + {id} == rest else |rest + {id}| == |rest| + 1;
    }
  }

  lemma {:induction false} SameElements<T>(a: seq<T>, b: seq<T>)
    requires multiset(a) == multiset(b)
    ensures |a| == |b| && forall x :: x in a <==> x in b
  {
    assert |a| == |multiset(a)| && |b| == |multiset(b)|;
    forall x ensures x in a <==> x in b {
      assert x in a <==> x in multiset(a);
      assert x in b <==> x in multiset(b);
    }
  }

  lemma {:induction false} ResourcesPassInAnyOrder(a: seq<Resource>, b: seq<Resource>)
    requires multiset(a) == multiset(b) && ResourceFault(a, {}).None?
    ensures ResourceFault(b, {}).None? && DistinctIds(a)
  {
    SameElements(a, b);
    ResourcesPassIff(a, {});
    ResourcesPassIff(b, {});
    DistinctIffCounted(a);
    DistinctIffCounted(b);
    assert Ids(a) == Ids(b);
  }

  function ColonIndex(s: string): nat {
    if s == "" || s[0] == ':' then 0 else 1 + ColonIndex(s[1..])
  }

  lemma {:induction false} ColonIndexAfter(prefix: string, rest: string)
    requires ':' !in prefix
    ensures ColonIndex(prefix + ":" + rest) == |prefix|
    decreases |prefix|
  {
    var s := prefix + ":" + rest;
    if prefix == "" {
      assert s[0] == ':';
    } else {
      assert s[0] == prefix[0] && s[1..] == prefix[1..] + ":" + rest;
      ColonIndexAfter(prefix[1..], rest);
    }
  }

  lemma {:induction false} ColonSplits(prefix: string, rest: string, other: string, otherRest: string)
    requires prefix + ":" + rest == other + ":" + otherRest
    requires ':' !in prefix && ':' !in other
    ensures prefix == other && rest == otherRest
  {
    var s, t := prefix + ":" + rest, other + ":" + otherRest;
    ColonIndexAfter(prefix, rest);
    ColonIndexAfter(other, otherRest);
    assert s[..|prefix|] == prefix && t[..|other|] == other;
    assert s[|prefix| + 1..] == rest && t[|other| + 1..] == otherRest;
  }

  lemma {:induction false} ExtensionKeyIsInjective(a: Extension, b: Extension)
    requires ExtensionKey(a) == ExtensionKey(b)
    ensures a == b
  {
    ColonSplits(ClassName(a.level), a.id, ClassName(b.level), b.id);
    assert ClassName(a.level)[0] == ClassName(b.level)[0];
    assert |ClassName(a.level)| == |ClassName(b.level)|;
  }

  /** Two bundles that differ at most in the order of their resources and extensions. */
  ghost predicate Reordered(a: Bundle, b: Bundle) {
    && b == a.(resources := b.resources, extensions := b.extensions)
    && multiset(a.resources) == multiset(b.resources) && multiset(a.extensions) == multiset(b.extensions)
  }

  lemma {:induction false} ReorderedExtensionsPass(a: seq<Extension>, b: seq<Extension>, supported: set<string>)
    requires multiset(a) == multiset(b) && FirstUnsupported(a, supported).None?
    ensures FirstUnsupported(b, supported).None?
  {
    SameElements(a, b);
    AllSupportedIff(a, supported);
    AllSupportedIff(b, supported);
  }

  lemma {:induction false} ReorderedPasses(a: Bundle, b: Bundle, supported: set<string>, maxResources: nat)
    requires Reordered(a, b) && BundleFault(a, supported, maxResources).None?
    ensures BundleFault(b, supported, maxResources).None?
  {
    SameElements(a.resources, b.resources);
    ResourcesPassInAnyOrder(a.resources, b.resources);
    ReorderedExtensionsPass(a.extensions, b.extensions, supported);
  }

  lemma {:induction false} ByResourceIsOrder()
    ensures WeakOrder(ByResource)
  {
    forall x, y | ByResource(x, y) ensures !ByResource(y, x) {
      BeforeIsAsymmetric(x.resourceId, y.resourceId);
    }
    forall x, y, z | ByResource(x, z) ensures ByResource(x, y) || ByResource(y, z) {
      BeforeBetween(x.resourceId, y.resourceId, z.resourceId);
    }
  }

  lemma {:induction false} ByExtensionIsOrder()
    ensures WeakOrder(ByExtension)
  {
    forall x, y | ByExtension(x, y) ensures !ByExtension(y, x) {
      BeforeIsAsymmetric(ExtensionKey(x), ExtensionKey(y));
    }
    forall x, y, z | ByExtension(x, z) ensures ByExtension(x, y) || ByExtension(y, z) {
      BeforeBetween(ExtensionKey(x), ExtensionKey(y), ExtensionKey(z));
    }
  }

  lemma {:induction false} ResourcesSortAlike(a: seq<Resource>, b: seq<Resource>)
    requires multiset(a) == multiset(b) && ResourceFault(a, {}).None?
    ensures SortBy(ByResource, a) == SortBy(ByResource, b)
  {
    ResourcesPassInAnyOrder(a, b);
    forall x, y | x in a && y in a && !ByResource(x, y) && !ByResource(y, x) ensures x == y {
      BeforeIsTotal(x.resourceId, y.resourceId);
      assert DistinctIds(a);
    }
    ByResourceIsOrder();
    SortForgetsOrder(ByResource, a, b);
  }

  lemma {:induction false} ExtensionsSortAlike(a: seq<Extension>, b: seq<Extension>)
    requires multiset(a) == multiset(b)
    ensures SortBy(ByExtension, a) == SortBy(ByExtension, b)
  {
    forall x, y | x in a && y in a && !ByExtension(x, y) && !ByExtension(y, x) ensures x == y {
      BeforeIsTotal(ExtensionKey(x), ExtensionKey(y));
      ExtensionKeyIsInjective(x, y);
    }
    ByExtensionIsOrder();
    SortForgetsOrder(ByExtension, a, b);
  }

  /** The order a bundle came in leaves no trace in its plan. */
  lemma {:induction false} PlanOfReordered(a: Bundle, b: Bundle, resources: seq<Resource>, extensions: seq<Extension>,
        accepted: Accepted)
    requires b == a.(resources := b.resources, extensions := b.extensions)
    ensures PlanOf(a, resources, extensions, accepted) == PlanOf(b, resources, extensions, accepted)
  {
    assert a.(resources := resources, extensions := extensions) == b.(resources := resources, extensions := extensions);
  }

  /** Reordering the resources and extensions of a bundle yields the identical plan. */
  lemma {:induction false} PlanForgetsOrder(a: Bundle, b: Bundle, accepted: Accepted, supported: set<string>,
        control: Control)
    requires Reordered(a, b) && PlanFor(a, accepted, supported, control).Ok?
    ensures PlanFor(b, accepted, supported, control) == PlanFor(a, accepted, supported, control)
  {
    ReorderedPasses(a, b, supported, control.maxResources);
    ResourcesSortAlike(a.resources, b.resources);
    ExtensionsSortAlike(a.extensions, b.extensions);
    PlanOfReordered(a, b, SortBy(ByResource, b.resources), SortBy(ByExtension, b.extensions), accepted);
  }

  /** One operation for each of the resources, in their order. */
  predicate OneForEach(operations: seq<Operation>, resources: seq<Resource>) {
    && |operations| == |resources|
    && forall k :: 0 <= k < |operations| ==>
         operations[k].resourceId == resources[k].resourceId && operations[k].afterDigest == Sha(resources[k].desired)
  }

  lemma {:induction false} PlannedAreSorted(b: Bundle, accepted: Accepted, supported: set<string>, control: Control)
    requires PlanFor(b, accepted, supported, control).Ok?
    ensures OneForEach(PlanFor(b, accepted, supported, control).value.operations, SortBy(ByResource, b.resources))
    ensures ResourceFault(b.resources, {}).None?
  {
  }

  lemma {:induction false} SortedAreStrict(resources: seq<Resource>, operations: seq<Operation>)
    requires ResourceFault(resources, {}).None? && OneForEach(operations, SortBy(ByResource, resources))
    ensures forall i, j :: 0 <= i < j < |operations| ==> Before(operations[i].resourceId, operations[j].resourceId)
  {
    var sorted := SortBy(ByResource, resources);
    ByResourceIsOrder();
    SortAscending(ByResource, resources);
    ResourcesPassInAnyOrder(resources, sorted);
    ResourcesPassInAnyOrder(sorted, resources);
    forall i, j | 0 <= i < j < |operations| ensures Before(operations[i].resourceId, operations[j].resourceId) {
      assert !ByResource(sorted[j], sorted[i]);
      BeforeIsTotal(sorted[i].resourceId, sorted[j].resourceId);
    }
  }

  /** Operations come in strictly increasing resource order and cover each resource exactly once. */
  lemma {:induction false} PlanCoversResources(b: Bundle, accepted: Accepted, supported: set<string>, control: Control)
    requires PlanFor(b, accepted, supported, control).Ok?
    ensures
      var ops := PlanFor(b, accepted, supported, control).value.operations;
      && |ops| == |b.resources|
      && (forall i, j :: 0 <= i < j < |ops| ==> Before(ops[i].resourceId, ops[j].resourceId))
      && (forall r :: r in b.resources ==>
            exists i :: 0 <= i < |ops| && ops[i].resourceId == r.resourceId && ops[i].afterDigest == Sha(r.desired))
  {
    var sorted := SortBy(ByResource, b.resources);
    var ops := PlanFor(b, accepted, supported, control).value.operations;
    PlannedAreSorted(b, accepted, supported, control);
    SortedAreStrict(b.resources, ops);
    SameElements(b.resources, sorted);
    forall r | r in b.resources
      ensures exists i :: 0 <= i < |ops| && ops[i].resourceId == r.resourceId && ops[i].afterDigest == Sha(r.desired)
    {
      assert r in sorted;
      var i :| 0 <= i < |sorted| && sorted[i] == r;
      assert ops[i].resourceId == r.resourceId && ops[i].afterDigest == Sha(r.desired);
    }
  }

  // ---------------------------------------------------------------- operation ids

  function DigitValue(c: char): nat {
    if '0' <= c <= '9' then c as int - '0' as int else 0
  }

  function ParseDecimal(s: string, sofar: nat): nat {
    if s == "" then sofar
    else ParseDecimal(s[1..], 10 * sofar + DigitValue(s[0]))
  }

  lemma {:induction false} ParseAppend(s: string, d: nat, sofar: nat)
    requires d < 10
    ensures ParseDecimal(s + [DigitChar(d)], sofar) == 10 * ParseDecimal(s, sofar) + d
    decreases |s|
  {
    var t := s + [DigitChar(d)];
    if s == "" {
      assert t[1..] == "";
    } else {
      assert t[1..] == s[1..] + [DigitChar(d)];
      ParseAppend(s[1..], d, 10 * sofar + DigitValue(s[0]));
    }
  }

  lemma {:induction false} ParseOfDecimal(n: nat)
    ensures ParseDecimal(Decimal(n), 0) == n
  {
    if n < 10 {
      assert [DigitChar(n)] == "" + [DigitChar(n)];
      ParseAppend("", n, 0);
    } else {
      ParseOfDecimal(n / 10);
      ParseAppend(Decimal(n / 10), n % 10, 0);
    }
  }

  lemma {:induction false} ParseOfPadded(s: string, width: nat)
    ensures ParseDecimal(Padded(s, width), 0) == ParseDecimal(s, 0)
    decreases width - |s|
  {
    if |s| < width {
      assert ("0" + s)[1..] == s;
      ParseOfPadded("0" + s, width);
    }
  }

  /** The number of an operation can be read back from its id. */
  lemma {:induction false} OperationIdReadsBack(number: nat)
    ensures ParseDecimal(OperationId(number)[3..], 0) == number
  {
    assert OperationId(number)[3..] == Padded(Decimal(number), 4);
    ParseOfPadded(Decimal(number), 4);
    ParseOfDecimal(number);
  }

  lemma {:induction false} OperationIdsDiffer(m: nat, n: nat)
    requires m != n
    ensures OperationId(m) != OperationId(n)
  {
    OperationIdReadsBack(m);
    OperationIdReadsBack(n);
  }

  predicate Numbered(operations: seq<Operation>) {
    forall k :: 0 <= k < |operations| ==> operations[k].operationId == OperationId(k + 1)
  }

  lemma {:induction false} NumberedIdsDiffer(operations: seq<Operation>)
    requires Numbered(operations)
    ensures forall i, j :: 0 <= i < j < |operations| ==> operations[i].operationId != operations[j].operationId
  {
    forall i, j | 0 <= i < j < |operations| ensures operations[i].operationId != operations[j].operationId {
      OperationIdsDiffer(i + 1, j + 1);
    }
  }

  lemma {:induction false} PlannedAreNumbered(b: Bundle, accepted: Accepted, supported: set<string>, control: Control)
    requires PlanFor(b, accepted, supported, control).Ok?
    ensures Numbered(PlanFor(b, accepted, supported, control).value.operations)
  {
  }

  /** No operation id repeats within a plan. */
  lemma {:induction false} PlannedIdsAreDistinct(b: Bundle, accepted: Accepted, supported: set<string>,
        control: Control, plan: Plan)
    requires PlanFor(b, accepted, supported, control) == Ok(plan)
    ensures forall i, j :: 0 <= i < j < |plan.operations| ==>
            plan.operations[i].operationId != plan.operations[j].operationId
  {
    PlannedAreNumbered(b, accepted, supported, control);
    NumberedIdsDiffer(plan.operations);
  }

  // ---------------------------------------------------------------- receipts

  datatype Observation = Observation(
    schemaVersion: string,
    resourceId: string,
    generation: nat,
    digest: Digest<Value>,
    state: Convergence)

  datatype Receipt = Receipt(
    schemaVersion: string,
    receiptId: string,
    audience: string,
    bundleDigest: Digest<Bundle>,
    planDigest: Digest<Plan>,
    acceptedGeneration: nat,
    effectiveState: Convergence,
    observations: seq<Observation>)

  datatype ReceiptError = BindingMismatch | StateMismatch

  function Count(observations: seq<Observation>, state: Convergence): (n: nat)
    ensures n <= |observations|
  {
    if observations == [] then 0
    else (if observations[0].state == state then 1 else 0) + Count(observations[1..], state)
  }

  function EffectiveState(observations: seq<Observation>): Convergence {
    if observations != [] && Count(observations, Converged) == |observations| then Converged
    else if observations == [] || Count(observations, Failed) == |observations| then Failed
    else PartiallyConverged
  }

  function FindOperation(operations: seq<Operation>, resourceId: string): Option<Operation> {
    if operations == [] then None
    else if operations[0].resourceId == resourceId then Some(operations[0])
    else FindOperation(operations[1..], resourceId)
  }

  predicate ObservationFits(o: Observation, receipt: Receipt, plan: Plan) {
    var operation := FindOperation(plan.operations, o.resourceId);
    && operation.Some?
    && o.schemaVersion == CONTRACT_VERSION
    && o.generation == receipt.acceptedGeneration
    && (o.state == Converged ==> o.digest == operation.value.afterDigest)
  }

  predicate ObservationsFit(observations: seq<Observation>, receipt: Receipt, plan: Plan, seen: set<string>) {
    observations == []
    || (&& ObservationFits(observations[0], receipt, plan)
        && observations[0].resourceId !in seen
        && ObservationsFit(observations[1..], receipt, plan, seen + {observations[0].resourceId}))
  }

  predicate ObservationsMatchPlan(receipt: Receipt, plan: Plan) {
    |receipt.observations| == |plan.operations| && ObservationsFit(receipt.observations, receipt, plan, {})
  }

  method MatchObservations(receipt: Receipt, plan: Plan) returns (ok: bool)
    ensures ok == ObservationsMatchPlan(receipt, plan)
  {
    if |receipt.observations| != |plan.operations| {
      return false;
    }
    var seen: set<string> := {};
    for k := 0 to |receipt.observations|
      invariant ObservationsFit(receipt.observations, receipt, plan, {})
                == ObservationsFit(receipt.observations[k..], receipt, plan, seen)
    {
      var o := receipt.observations[k];
      assert receipt.observations[k..][0] == o && receipt.observations[k..][1..] == receipt.observations[k + 1..];
      var operation := FindOperation(plan.operations, o.resourceId);
      if operation.None? {
        return false;
      }
      if o.schemaVersion != CONTRACT_VERSION || o.generation != receipt.acceptedGeneration || o.resourceId in seen {
        return false;
      }
      if o.state == Converged && o.digest != operation.value.afterDigest {
        return false;
      }
      seen := seen + {o.resourceId};
    }
    return true;
  }

  function VerifyReceipt(receipt: Receipt, plan: Plan, audience: string): Option<ReceiptError> {
    if receipt.schemaVersion != CONTRACT_VERSION || receipt.audience != audience
       || receipt.bundleDigest != plan.bundleDigest || receipt.planDigest != Sha(plan)
       || receipt.acceptedGeneration != plan.targetGeneration || !ObservationsMatchPlan(receipt, plan)
    then Some(BindingMismatch)
    else if receipt.effectiveState != EffectiveState(receipt.observations) then Some(StateMismatch)
    else None
  }

  lemma {:induction false} FitIff(observations: seq<Observation>, receipt: Receipt, plan: Plan, seen: set<string>)
    ensures ObservationsFit(observations, receipt, plan, seen) <==>
            && (forall o :: o in observations ==> ObservationFits(o, receipt, plan) && o.resourceId !in seen)
            && (forall i, j :: 0 <= i < j < |observations| ==> observations[i].resourceId != observations[j].resourceId)
    decreases |observations|
  {
    if observations == [] {
    } else {
      var o, rest := observations[0], observations[1..];
      FitIff(rest, receipt, plan, seen + {o.resourceId});
      assert observations == [o] + rest;
      assert forall j :: 1 <= j < |observations| ==> observations[j] == rest[j - 1] && observations[j] in rest;
    }
  }

  lemma {:induction false} FoundIsOperation(operations: seq<Operation>, resourceId: string)
    ensures FindOperation(operations, resourceId).Some? ==>
              FindOperation(operations, resourceId).value in operations
              && FindOperation(operations, resourceId).value.resourceId == resourceId
    decreases |operations|
  {
    if operations == [] {
    } else {
      FoundIsOperation(operations[1..], resourceId);
    }
  }

  ghost function Names(ids: seq<string>): set<string> {
    set id | id in ids
  }

  lemma {:induction false} DistinctCount(ids: seq<string>)
    requires forall i, j :: 0 <= i < j < |ids| ==> ids[i] != ids[j]
    ensures |Names(ids)| == |ids|
    decreases |ids|
  {
    if ids == [] {
    } else {
      DistinctCount(ids[1..]);
      assert Names(ids) == {ids[0]} + Names(ids[1..]);
    }
  }

  lemma {:induction false} NamesAtMost(ids: seq<string>)
    ensures |Names(ids)| <= |ids|
    decreases |ids|
  {
    if ids == [] {
    } else {
      NamesAtMost(ids[1..]);
      assert Names(ids) == {ids[0]} + Names(ids[1..]);
    }
  }

  lemma {:induction false} CountedIsDistinct(ids: seq<string>)
    requires |Names(ids)| == |ids|
    ensures forall i, j :: 0 <= i < j < |ids| ==> ids[i] != ids[j]
    decreases |ids|
  {
    if ids == [] {
    } else {
      var rest := ids[1..];
      NamesAtMost(rest);
      assert Names(ids) == {ids[0]} + Names(rest);
      CountedIsDistinct(rest);
      forall i, j | 0 <= i < j < |ids| ensures ids[i] != ids[j] {
        assert ids[j] == rest[j - 1] && rest[j - 1] in Names(rest);
        assert i > 0 ==> ids[i] == rest[i - 1];
      }
    }
  }

  /** As many distinct observed resources as operations, all of them planned: none is missing, none planned twice. */
  lemma {:induction false} EveryOperationObserved(receipt: Receipt, plan: Plan)
    requires ObservationsMatchPlan(receipt, plan)
    ensures forall op :: op in plan.operations ==>
              exists i :: 0 <= i < |receipt.observations| && receipt.observations[i].resourceId == op.resourceId
    ensures forall i, j :: 0 <= i < j < |plan.operations| ==>
              plan.operations[i].resourceId != plan.operations[j].resourceId
  {
    var obs, ops := receipt.observations, plan.operations;
    var observed := seq(|obs|, i requires 0 <= i < |obs| => obs[i].resourceId);
    var planned := seq(|ops|, i requires 0 <= i < |ops| => ops[i].resourceId);
    FitIff(obs, receipt, plan, {});
    DistinctCount(observed);
    NamesAtMost(planned);
    forall id | id in Names(observed) ensures id in Names(planned) {
      var i :| 0 <= i < |observed| && observed[i] == id;
      assert obs[i] in obs;
      FoundIsOperation(ops, id);
      var op := FindOperation(ops, id).value;
      var j :| 0 <= j < |ops| && ops[j] == op;
      assert planned[j] == id;
    }
    SubsetIsNoLarger(Names(observed), Names(planned));
    CountedIsDistinct(planned);
    forall i, j | 0 <= i < j < |ops| ensures ops[i].resourceId != ops[j].resourceId {
      assert planned[i] != planned[j];
    }
    forall op | op in ops ensures exists i :: 0 <= i < |obs| && obs[i].resourceId == op.resourceId {
      var j :| 0 <= j < |ops| && ops[j] == op;
      assert planned[j] in Names(planned);
      var i :| 0 <= i < |observed| && observed[i] == op.resourceId;
    }
  }

  lemma {:induction false} AllCounted(observations: seq<Observation>, state: Convergence)
    requires Count(observations, state) == |observations|
    ensures forall o :: o in observations ==> o.state == state
    decreases |observations|
  {
    if observations == [] {
    } else {
      AllCounted(observations[1..], state);
      assert observations == [observations[0]] + observations[1..];
    }
  }

  /** Exactly one observation per operation. */
  lemma {:induction false} ReceiptIsBijection(receipt: Receipt, plan: Plan, audience: string, op: Operation)
    requires VerifyReceipt(receipt, plan, audience).None? && op in plan.operations
    ensures exists i ::
              && 0 <= i < |receipt.observations|
              && receipt.observations[i].resourceId == op.resourceId
              && forall j | 0 <= j < |receipt.observations| && j != i ::
                   receipt.observations[j].resourceId != op.resourceId
  {
    EveryOperationObserved(receipt, plan);
    FitIff(receipt.observations, receipt, plan, {});
  }

  /** A verified receipt that claims convergence shows every planned digest at the target generation. */
  lemma {:induction false} ConvergedReceiptIsComplete(receipt: Receipt, plan: Plan, audience: string, op: Operation)
    requires VerifyReceipt(receipt, plan, audience).None? && receipt.effectiveState == Converged
    requires op in plan.operations
    ensures exists o :: o in receipt.observations && o.resourceId == op.resourceId
              && o.digest == op.afterDigest && o.generation == plan.targetGeneration && o.state == Converged
  {
    EveryOperationObserved(receipt, plan);
    FitIff(receipt.observations, receipt, plan, {});
    AllCounted(receipt.observations, Converged);
    var i :| 0 <= i < |receipt.observations| && receipt.observations[i].resourceId == op.resourceId;
    var o := receipt.observations[i];
    assert o in receipt.observations;
    FoundIsOperation(plan.operations, op.resourceId);
  }
}
