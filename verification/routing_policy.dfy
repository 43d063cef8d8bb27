/** Resolved routing policies, the candidates they admit, and their intersection. */
module RoutingPolicies {
  import opened Common

  /** Manifest identity levels; any other text is unrecognized. */
  datatype Level = SignedValid | OperatorBound | KnownOperator | Unrecognized(text: string)

  function Rank(level: Level): Option<nat> {
    match level
    case SignedValid => Some(1)
    case OperatorBound => Some(2)
    case KnownOperator => Some(3)
    case Unrecognized(_) => None
  }

  /** Rank as the intersection reads it, with unrecognized levels beside the strictest. */
  function RankOrStrictest(level: Level): nat {
    match Rank(level)
    case Some(rank) => rank
    case None => 3
  }

  function LowerChar(c: char): char {
    if 'A' <= c <= 'Z' then c + 32 as char else c
  }

  function Lower(s: string): (r: string)
    ensures |r| == |s|
  {
    seq(|s|, i requires 0 <= i < |s| => LowerChar(s[i]))
  }

  function LowerAll(regions: set<string>): set<string> {
    set region | region in regions :: Lower(region)
  }

  /** An empty set of regions leaves the region unrestricted. */
  datatype RoutingPolicy = RoutingPolicy(
    allowedRegions: set<string>,
    requireEncryption: bool,
    requireManifest: bool,
    requireNoRetention: bool,
    allowRemote: bool,
    knownOperatorOnly: bool,
    identityLevel: Option<Level>)

  /**
   The facts about a candidate node that a routing policy looks at. What an unrecognized identity
   level asks for is up to the client; `vouched` lists the unrecognized levels the client would
   find the candidate to meet.
   */
  datatype Candidate = Candidate(
    region: string,
    encrypted: bool,
    manifest: bool,
    noRetention: bool,
    remote: bool,
    identity: nat,
    vouched: set<string>)

  predicate Meets(c: Candidate, level: Level) {
    match level
    case Unrecognized(text) => text in c.vouched
    case _ => c.identity >= Rank(level).value
  }

  function Listed(level: Option<Level>): seq<Level> {
    if level.Some? then [level.value] else []
  }

  function Switched(on: bool): seq<Level> {
    if on then [KnownOperator] else []
  }

  /** The identity levels a policy demands: its level, and the known-operator switch. */
  function Demands(p: RoutingPolicy): seq<Level> {
    Listed(p.identityLevel) + Switched(p.knownOperatorOnly)
  }

  predicate MeetsAll(c: Candidate, levels: seq<Level>) {
    forall level :: level in levels ==> Meets(c, level)
  }

  ghost predicate RegionAdmitted(p: RoutingPolicy, c: Candidate) {
    p.allowedRegions == {} || Lower(c.region) in LowerAll(p.allowedRegions)
  }

  /** Everything a policy asks of a candidate but its identity. */
  ghost predicate AdmitsAnonymous(p: RoutingPolicy, c: Candidate) {
    && RegionAdmitted(p, c)
    && (p.requireEncryption ==> c.encrypted)
    && (p.requireManifest ==> c.manifest)
    && (p.requireNoRetention ==> c.noRetention)
    && (c.remote ==> p.allowRemote)
  }

  ghost predicate Admits(p: RoutingPolicy, c: Candidate) {
    AdmitsAnonymous(p, c) && MeetsAll(c, Demands(p))
  }

  /** The last of the highest-ranked levels, as a maximum by key picks it. */
  function Highest(levels: seq<Level>): Option<Level> {
    if levels == [] then None
    else
      var rest := Highest(levels[1..]);
      if rest.Some? && RankOrStrictest(rest.value) >= RankOrStrictest(levels[0]) then rest else Some(levels[0])
  }

  /** Regions both sides allow, an empty side allowing all. */
  function Meet(left: set<string>, right: set<string>): set<string> {
    if left == {} then right else if right == {} then left else left * right
  }

  /** The levels of both sides, in the order the intersection considers them. */
  function Contenders(left: RoutingPolicy, right: RoutingPolicy): seq<Level> {
    Listed(left.identityLevel) + Listed(right.identityLevel) + Switched(left.knownOperatorOnly)
      + Switched(right.knownOperatorOnly)
  }

  /** The combined policy, and whether the two sides share no region at all. */
  function Intersect(left: RoutingPolicy, right: RoutingPolicy): (RoutingPolicy, bool) {
    var regions := Meet(LowerAll(left.allowedRegions), LowerAll(right.allowedRegions));
    var denyAll := left.allowedRegions != {} && right.allowedRegions != {} && regions == {};
    var level := Highest(Contenders(left, right));
    (RoutingPolicy(
       regions,
       left.requireEncryption || right.requireEncryption,
       left.requireManifest || right.requireManifest || level.Some?,
       left.requireNoRetention || right.requireNoRetention,
       left.allowRemote && right.allowRemote,
       level == Some(KnownOperator),
       level),
     denyAll)
  }

  // ---------------------------------------------------------------- regions

  lemma {:induction false} LowerIdempotent(s: string)
    ensures Lower(Lower(s)) == Lower(s)
  {
  }

  lemma {:induction false} LowerAllHas(regions: set<string>, region: string)
    requires region in regions
    ensures Lower(region) in LowerAll(regions)
  {
  }

  lemma {:induction false} LowerAllEmpty(regions: set<string>)
    ensures LowerAll(regions) == {} <==> regions == {}
  {
    if regions != {} {
      var region :| region in regions;
      LowerAllHas(regions, region);
    }
  }

  /** Lower-cased regions are their own image. */
  lemma {:induction false} LowerAllFixed(regions: set<string>)
    requires forall region :: region in regions ==> Lower(region) == region
    ensures LowerAll(regions) == regions
  {
    forall region | region in regions ensures region in LowerAll(regions) {
      LowerAllHas(regions, region);
    }
    forall low | low in LowerAll(regions) ensures low in regions {
      var region :| region in regions && low == Lower(region);
    }
  }

  lemma {:induction false} LowerAllIsLower(regions: set<string>)
    ensures forall low :: low in LowerAll(regions) ==> Lower(low) == low
  {
    forall low | low in LowerAll(regions) ensures Lower(low) == low {
      var region :| region in regions && low == Lower(region);
      LowerIdempotent(region);
    }
  }

  lemma {:induction false} MeetIsLower(left: set<string>, right: set<string>)
    ensures LowerAll(Meet(LowerAll(left), LowerAll(right))) == Meet(LowerAll(left), LowerAll(right))
  {
    LowerAllIsLower(left);
    LowerAllIsLower(right);
    LowerAllFixed(Meet(LowerAll(left), LowerAll(right)));
  }

  /** An element is in the meet, or the meet is unrestricted, exactly when each side has it or is unrestricted. */
  lemma {:induction false} MeetAdmits(l: set<string>, r: set<string>, low: string)
    ensures
      var both := Meet(l, r);
      (!(l != {} && r != {} && both == {}) && (both == {} || low in both))
      <==> ((l == {} || low in l) && (r == {} || low in r))
  {
    assert low in l * r <==> low in l && low in r;
  }

  lemma {:induction false} IntersectionRegions(left: RoutingPolicy, right: RoutingPolicy, c: Candidate)
    ensures
      var (both, denyAll) := Intersect(left, right);
      (!denyAll && RegionAdmitted(both, c)) <==> (RegionAdmitted(left, c) && RegionAdmitted(right, c))
  {
    LowerAllEmpty(left.allowedRegions);
    LowerAllEmpty(right.allowedRegions);
    MeetIsLower(left.allowedRegions, right.allowedRegions);
    MeetAdmits(LowerAll(left.allowedRegions), LowerAll(right.allowedRegions), Lower(c.region));
  }

  /** What an intersection does to everything but the identity levels. */
  lemma {:induction false} IntersectionAnonymous(left: RoutingPolicy, right: RoutingPolicy, c: Candidate)
    ensures
      var (both, denyAll) := Intersect(left, right);
      (!denyAll && AdmitsAnonymous(both, c)) <==>
      (AdmitsAnonymous(left, c) && AdmitsAnonymous(right, c) && (both.identityLevel.Some? ==> c.manifest))
  {
    IntersectionRegions(left, right, c);
  }

  // ---------------------------------------------------------------- identity levels

  /** Levels whose highest stands for all of them: all recognized, or all the same. */
  predicate Agree(levels: seq<Level>) {
    (forall level :: level in levels ==> Rank(level).Some?) || (forall a, b :: a in levels && b in levels ==> a == b)
  }

  lemma {:induction false} HighestIsBound(levels: seq<Level>)
    ensures Highest(levels).None? <==> levels == []
    ensures Highest(levels).Some? ==> Highest(levels).value in levels
    ensures forall level :: level in levels ==> RankOrStrictest(level) <= RankOrStrictest(Highest(levels).value)
  {
    if levels == [] {
    } else {
      HighestIsBound(levels[1..]);
      assert levels == [levels[0]] + levels[1..];
    }
  }

  lemma {:induction false} HighestStandsForAll(levels: seq<Level>, c: Candidate)
    requires levels != [] && Agree(levels)
    ensures Meets(c, Highest(levels).value) <==> MeetsAll(c, levels)
  {
    HighestIsBound(levels);
  }

  /** Where the levels do not agree, whichever of them is kept, some identity meets it and not all the others. */
  lemma {:induction false} KeptForgetsAnother(levels: seq<Level>, kept: Level)
    returns (identity: nat, vouched: set<string>)
    requires kept in levels && !Agree(levels)
    ensures
      forall c: Candidate :: c.identity == identity && c.vouched == vouched ==> Meets(c, kept) && !MeetsAll(c, levels)
  {
    match kept {
      case Unrecognized(text) =>
        identity, vouched := 0, {text};
        var a, b :| a in levels && b in levels && a != b;
        var other := if a == kept then b else a;
        assert other in levels && other != kept;
      case _ =>
        identity, vouched := 3, {};
        var other :| other in levels && Rank(other).None?;
    }
  }

  lemma {:induction false} ContendersAreDemands(left: RoutingPolicy, right: RoutingPolicy)
    ensures forall level :: level in Contenders(left, right) <==> level in Demands(left) + Demands(right)
    ensures Contenders(left, right) == [] <==> Demands(left) + Demands(right) == []
  {
  }

  /** The combined policy demands just the highest contender. */
  lemma {:induction false} IntersectionDemands(left: RoutingPolicy, right: RoutingPolicy)
    ensures
      var both := Intersect(left, right).0;
      && both.identityLevel == Highest(Contenders(left, right))
      && (both.identityLevel.None? <==> Demands(left) + Demands(right) == [])
      && (both.identityLevel.Some? ==> both.identityLevel.value in Demands(left) + Demands(right))
      && (forall level :: level in Demands(both) <==> both.identityLevel == Some(level))
  {
    ContendersAreDemands(left, right);
    HighestIsBound(Contenders(left, right));
  }

  lemma {:induction false} AgreeSameElements(a: seq<Level>, b: seq<Level>)
    requires (forall level :: level in a ==> level in b) && Agree(b)
    ensures Agree(a)
  {
  }

  /** A policy whose demands are one level, or none, admits what meets it. */
  lemma {:induction false} OneDemand(p: RoutingPolicy, c: Candidate)
    requires forall level :: level in Demands(p) <==> p.identityLevel == Some(level)
    ensures Admits(p, c) <==> AdmitsAnonymous(p, c) && (p.identityLevel.Some? ==> Meets(c, p.identityLevel.value))
  {
    assert p.identityLevel.Some? ==> p.identityLevel.value in Demands(p);
  }

  // ---------------------------------------------------------------- the intersection

  /** What a candidate must satisfy for both sides: each admits it, and a demanded identity comes with a manifest. */
  ghost predicate AdmittedByBoth(left: RoutingPolicy, right: RoutingPolicy, c: Candidate) {
    && Admits(left, c) && Admits(right, c)
    && (Demands(left) + Demands(right) != [] ==> c.manifest)
  }

  /** The intersection never turns away what both sides admit; where the levels agree it admits nothing else. */
  lemma {:induction false} IntersectionAdmits(left: RoutingPolicy, right: RoutingPolicy, c: Candidate)
    ensures
      var (both, denyAll) := Intersect(left, right);
      && (AdmittedByBoth(left, right, c) ==> !denyAll && Admits(both, c))
      && (Agree(Demands(left) + Demands(right)) ==> (!denyAll && Admits(both, c) <==> AdmittedByBoth(left, right, c)))
  {
    var both := Intersect(left, right).0;
    var levels := Demands(left) + Demands(right);
    IntersectionAnonymous(left, right, c);
    IntersectionDemands(left, right);
    OneDemand(both, c);
    ContendersAreDemands(left, right);
    assert MeetsAll(c, levels) <==> MeetsAll(c, Demands(left)) && MeetsAll(c, Demands(right));
    assert MeetsAll(c, levels) <==> MeetsAll(c, Contenders(left, right));
    if Agree(levels) && levels != [] {
      AgreeSameElements(Contenders(left, right), levels);
      HighestStandsForAll(Contenders(left, right), c);
    }
  }

  /** A candidate that a policy admits but for its identity, whatever the policy asks. */
  lemma {:induction false} AnonymousCandidate(p: RoutingPolicy, identity: nat, vouched: set<string>)
    returns (c: Candidate)
    ensures AdmitsAnonymous(p, c) && c.manifest && c.identity == identity && c.vouched == vouched
  {
    var region := "";
    if p.allowedRegions != {} {
      region :| region in p.allowedRegions;
      LowerAllHas(p.allowedRegions, region);
    }
    c := Candidate(region, true, true, true, false, identity, vouched);
  }

  /**
   The intersection is exact, for all candidates at once, exactly when the two sides deny each
   other every region or all the identity levels they demand agree. Otherwise some candidate gets
   in that one of the sides does not admit.
   */
  lemma {:induction false} IntersectionIsExactIff(left: RoutingPolicy, right: RoutingPolicy)
    ensures
      var (both, denyAll) := Intersect(left, right);
      (forall c :: (!denyAll && Admits(both, c)) <==> AdmittedByBoth(left, right, c))
      <==> (denyAll || Agree(Demands(left) + Demands(right)))
  {
    var (both, denyAll) := Intersect(left, right);
    var levels := Demands(left) + Demands(right);
    forall c
      ensures (denyAll || Agree(levels)) ==> ((!denyAll && Admits(both, c)) <==> AdmittedByBoth(left, right, c))
    {
      IntersectionAdmits(left, right, c);
    }
    if !denyAll && !Agree(levels) {
      IntersectionDemands(left, right);
      var identity, vouched := KeptForgetsAnother(levels, both.identityLevel.value);
      var c := AnonymousCandidate(both, identity, vouched);
      OneDemand(both, c);
      assert Admits(both, c) && !MeetsAll(c, levels);
      assert !AdmittedByBoth(left, right, c) by {
        assert MeetsAll(c, Demands(left)) && MeetsAll(c, Demands(right)) ==> MeetsAll(c, levels);
      }
    }
  }

  /** With an identity demand that already entails a manifest demand, exact means the meet of the two. */
  lemma {:induction false} IntersectionIsMeet(left: RoutingPolicy, right: RoutingPolicy, c: Candidate)
    requires Agree(Demands(left) + Demands(right))
    requires Demands(left) != [] ==> left.requireManifest
    requires Demands(right) != [] ==> right.requireManifest
    ensures
      var (both, denyAll) := Intersect(left, right);
      (!denyAll && Admits(both, c)) <==> (Admits(left, c) && Admits(right, c))
  {
    IntersectionAdmits(left, right, c);
  }

  /**
   A client that vouches for an unrecognized level may be sent a node that is no known operator,
   though one side demands it.
   */
  lemma {:induction false} UnrecognizedLevelWidens(left: RoutingPolicy, right: RoutingPolicy, text: string,
        c: Candidate)
    requires left == RoutingPolicy({}, false, false, false, true, false, Some(KnownOperator))
    requires right == RoutingPolicy({}, false, false, false, true, false, Some(Unrecognized(text)))
    requires c == Candidate("", true, true, true, false, 0, {text})
    ensures Intersect(left, right)
            == (RoutingPolicy({}, false, true, false, true, false, Some(Unrecognized(text))), false)
    ensures Admits(Intersect(left, right).0, c) && !Admits(left, c)
  {
    var levels := Contenders(left, right);
    assert levels == [KnownOperator, Unrecognized(text)];
    assert levels[1..] == [Unrecognized(text)];
    assert levels[1..][1..] == [];
    assert Highest(levels[1..]) == Some(Unrecognized(text));
    assert LowerAll({}) == {};
    assert KnownOperator in Demands(left) && !Meets(c, KnownOperator);
    assert Demands(Intersect(left, right).0) == [Unrecognized(text)];
  }

  // ---------------------------------------------------------------- the managed client

  /** What the client wrapper keeps after construction. */
  datatype ManagedClient = ManagedClient(baseline: RoutingPolicy, baselineDenyAll: bool)

  function NewClient(config: RoutingPolicy, projected: RoutingPolicy, projectedDenyAll: bool): ManagedClient {
    var (baseline, denies) := Intersect(config, projected);
    ManagedClient(baseline, projectedDenyAll || denies)
  }

  /** The policy a request is dispatched under, or nothing when it is refused before dispatch. */
  function DispatchPolicy(client: ManagedClient, request: Option<RoutingPolicy>): Option<RoutingPolicy> {
    var (policy, denies) :=
      match request
      case Some(p) => Intersect(client.baseline, p)
      case None => (client.baseline, false);
    if client.baselineDenyAll || denies then None else Some(policy)
  }

  function RequestDemands(request: Option<RoutingPolicy>): seq<Level> {
    if request.Some? then Demands(request.value) else []
  }

  /** Every identity level demanded on the way to dispatch. */
  function AllDemands(config: RoutingPolicy, projected: RoutingPolicy, request: Option<RoutingPolicy>): seq<Level> {
    Demands(config) + Demands(projected) + RequestDemands(request)
  }

  ghost predicate Anonymously(config: RoutingPolicy, projected: RoutingPolicy, request: Option<RoutingPolicy>,
        c: Candidate)
  {
    && AdmitsAnonymous(config, c) && AdmitsAnonymous(projected, c)
    && (request.Some? ==> AdmitsAnonymous(request.value, c))
    && (AllDemands(config, projected, request) != [] ==> c.manifest)
  }

  /** What configuration, projection and request admit together. */
  ghost predicate AdmittedByAll(config: RoutingPolicy, projected: RoutingPolicy, request: Option<RoutingPolicy>,
        c: Candidate)
  {
    && Admits(config, c) && Admits(projected, c) && (request.Some? ==> Admits(request.value, c))
    && (AllDemands(config, projected, request) != [] ==> c.manifest)
  }

  lemma {:induction false} AllAdmitIff(config: RoutingPolicy, projected: RoutingPolicy, request: Option<RoutingPolicy>,
        c: Candidate)
    ensures AdmittedByAll(config, projected, request, c) <==>
            Anonymously(config, projected, request, c) && MeetsAll(c, AllDemands(config, projected, request))
  {
    var all := AllDemands(config, projected, request);
    assert MeetsAll(c, all) <==>
        MeetsAll(c, Demands(config)) && MeetsAll(c, Demands(projected)) && MeetsAll(c, RequestDemands(request));
  }

  /** The policy dispatched under keeps one of the levels demanded, if any is, and everything else that is asked. */
  lemma {:induction false} DispatchedDemands(config: RoutingPolicy, projected: RoutingPolicy, denyAll: bool,
        request: Option<RoutingPolicy>)
    requires DispatchPolicy(NewClient(config, projected, denyAll), request).Some?
    ensures
      var policy := DispatchPolicy(NewClient(config, projected, denyAll), request).value;
      var all := AllDemands(config, projected, request);
      && (policy.identityLevel.None? <==> all == [])
      && (policy.identityLevel.Some? ==> policy.identityLevel.value in all)
      && (forall level :: level in Demands(policy) <==> policy.identityLevel == Some(level))
  {
    var baseline := Intersect(config, projected).0;
    IntersectionDemands(config, projected);
    if request.Some? {
      IntersectionDemands(baseline, request.value);
    }
  }

  lemma {:induction false} DispatchedAnonymously(
    config: RoutingPolicy, projected: RoutingPolicy, denyAll: bool, request: Option<RoutingPolicy>, c: Candidate)
    ensures
      var policy := DispatchPolicy(NewClient(config, projected, denyAll), request);
      (policy.Some? && AdmitsAnonymous(policy.value, c)) <==> (!denyAll && Anonymously(config, projected, request, c))
  {
    var baseline := Intersect(config, projected).0;
    IntersectionAnonymous(config, projected, c);
    IntersectionDemands(config, projected);
    if request.Some? {
      IntersectionAnonymous(baseline, request.value, c);
      IntersectionDemands(baseline, request.value);
    }
  }

  /** In a list that agrees, any level that bounds it stands for all. */
  lemma {:induction false} DispatchedLevelStands(
    config: RoutingPolicy, projected: RoutingPolicy, denyAll: bool, request: Option<RoutingPolicy>, c: Candidate)
    requires DispatchPolicy(NewClient(config, projected, denyAll), request).Some?
    requires Agree(AllDemands(config, projected, request)) && AllDemands(config, projected, request) != []
    ensures
      var policy := DispatchPolicy(NewClient(config, projected, denyAll), request).value;
      policy.identityLevel.Some?
      && (Meets(c, policy.identityLevel.value) <==> MeetsAll(c, AllDemands(config, projected, request)))
  {
    var all := AllDemands(config, projected, request);
    var baseline := Intersect(config, projected).0;
    var first := Demands(config) + Demands(projected);
    DispatchedDemands(config, projected, denyAll, request);
    IntersectionDemands(config, projected);
    ContendersAreDemands(config, projected);
    AgreeSameElements(Contenders(config, projected), all);
    if first != [] {
      HighestStandsForAll(Contenders(config, projected), c);
    }
    assert MeetsAll(c, Contenders(config, projected)) <==> MeetsAll(c, first);
    assert MeetsAll(c, all) <==> MeetsAll(c, first) && MeetsAll(c, RequestDemands(request));
    if request.Some? {
      IntersectionDemands(baseline, request.value);
      ContendersAreDemands(baseline, request.value);
      AgreeSameElements(Contenders(baseline, request.value), all);
      HighestStandsForAll(Contenders(baseline, request.value), c);
      assert MeetsAll(c, Contenders(baseline, request.value)) <==>
          MeetsAll(c, Demands(baseline)) && MeetsAll(c, Demands(request.value));
      assert baseline.identityLevel.Some? ==> baseline.identityLevel.value in Demands(baseline);
    }
  }

  /** What the client may be sent: never less than all three admit, and where the levels agree nothing else. */
  lemma {:induction false} DispatchAdmits(
    config: RoutingPolicy, projected: RoutingPolicy, denyAll: bool, request: Option<RoutingPolicy>, c: Candidate)
    ensures
      var policy := DispatchPolicy(NewClient(config, projected, denyAll), request);
      && (!denyAll && AdmittedByAll(config, projected, request, c) ==> policy.Some? && Admits(policy.value, c))
      && (Agree(AllDemands(config, projected, request)) ==>
            ((policy.Some? && Admits(policy.value, c)) <==> (!denyAll && AdmittedByAll(config, projected, request, c))))
  {
    var policy := DispatchPolicy(NewClient(config, projected, denyAll), request);
    var all := AllDemands(config, projected, request);
    AllAdmitIff(config, projected, request, c);
    DispatchedAnonymously(config, projected, denyAll, request, c);
    if policy.Some? {
      DispatchedDemands(config, projected, denyAll, request);
      OneDemand(policy.value, c);
      if Agree(all) && all != [] {
        DispatchedLevelStands(config, projected, denyAll, request, c);
      }
    }
  }

  /**
   A request, with a policy of its own or without, reaches exactly the candidates that the
   configuration, the active projection and the request all admit (with a manifest once any of
   them demands an identity), exactly when it is refused before dispatch or all the identity
   levels demanded agree.
   */
  lemma {:induction false} DispatchIsConjunctionIff(
    config: RoutingPolicy, projected: RoutingPolicy, denyAll: bool, request: Option<RoutingPolicy>)
    ensures
      var policy := DispatchPolicy(NewClient(config, projected, denyAll), request);
      (forall c ::
         (policy.Some? && Admits(policy.value, c)) <==> (!denyAll && AdmittedByAll(config, projected, request, c)))
      <==> (policy.None? || Agree(AllDemands(config, projected, request)))
  {
    var policy := DispatchPolicy(NewClient(config, projected, denyAll), request);
    var all := AllDemands(config, projected, request);
    forall c ensures (policy.None? || Agree(all)) ==>
      ((policy.Some? && Admits(policy.value, c)) <==> (!denyAll && AdmittedByAll(config, projected, request, c)))
    {
      DispatchAdmits(config, projected, denyAll, request, c);
    }
    if policy.Some? && !Agree(all) {
      DispatchedDemands(config, projected, denyAll, request);
      var identity, vouched := KeptForgetsAnother(all, policy.value.identityLevel.value);
      var c := AnonymousCandidate(policy.value, identity, vouched);
      OneDemand(policy.value, c);
      AllAdmitIff(config, projected, request, c);
      assert Admits(policy.value, c) && !AdmittedByAll(config, projected, request, c);
    }
  }
}
