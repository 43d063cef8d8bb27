/** Projecting the active policy of a binding for the router, and verifying such a projection later. */
module RoutingEnforcement {
  import opened Common
  import opened Json
  import opened PolicyRepository
  import opened RoutingPolicies
  import Sorting
  import RP = RoutingProjection

  const SCHEMA := "iicp.management-routing-enforcement.v1"
  const EVIDENCE_SCHEMA := "iicp.management-routing-candidate-evidence.v1"
  const MAX_TTL: nat := 300

  datatype Evidence = Evidence(
    schemaVersion: string,
    source: string,
    observedAt: nat,
    expiresAt: nat,
    eligible: seq<string>,
    ineligible: nat,
    unresolved: nat)

  /** What the routing digest is taken over. */
  datatype RoutingKey = RoutingKey(
    policy: RoutingPolicy,
    denyAll: bool,
    bindingDigest: Digest<Binding>,
    evidenceDigest: Digest<Evidence>,
    generation: nat,
    issuedAt: nat,
    expiresAt: nat)

  /** What the digest of the effective policy is taken over. */
  datatype EffectiveKey = EffectiveKey(bindingDigest: Digest<Binding>, revisionDigests: RevisionDigests,
                                       generation: nat)

  datatype Projection = Projection(
    schemaVersion: string,
    applicationId: string,
    bindingId: string,
    bindingDigest: Digest<Binding>,
    generation: nat,
    effectiveDigest: Digest<EffectiveKey>,
    evidenceDigest: Digest<Evidence>,
    routingDigest: Digest<RoutingKey>,
    issuedAt: nat,
    expiresAt: nat,
    denyAll: bool,
    evidence: Evidence,
    policy: RoutingPolicy)

  datatype EnforcementError =
    | Inactive
    | Expired
    | BadWindow
    | EmptyPolicy
    | EvidenceInvalid
    | EvidenceStale
    | EvidenceUnresolved
    | UnsupportedPolicy
    | ProjectionMismatch

  // ---------------------------------------------------------------- candidate evidence

  predicate SourceChar(c: char) {
    'a' <= c <= 'z' || '0' <= c <= '9' || c == '_' || c == '.' || c == '-'
  }

  predicate ValidSource(s: string) {
    0 < |s| <= 128 && ('a' <= s[0] <= 'z' || '0' <= s[0] <= '9') && forall c :: c in s ==> SourceChar(c)
  }

  predicate ValidRef(s: string) {
    |s| == 64 && forall c :: c in s ==> '0' <= c <= '9' || 'a' <= c <= 'f'
  }

  function EvidenceFault(e: Evidence, issuedAt: nat, expiresAt: nat): Option<EnforcementError> {
    if issuedAt >= e.expiresAt then Some(EvidenceStale)
    else if e.schemaVersion != EVIDENCE_SCHEMA || !ValidSource(e.source)
         || e.observedAt > issuedAt || e.expiresAt < expiresAt
         || e.expiresAt - e.observedAt > MAX_TTL || |e.eligible| > 10_000
    then Some(EvidenceInvalid)
    else if e.unresolved > 0 then Some(EvidenceUnresolved)
    else if (exists r :: r in e.eligible && !ValidRef(r))
         || (exists i, j :: 0 <= i < j < |e.eligible| && e.eligible[i] == e.eligible[j])
    then Some(EvidenceInvalid)
    else None
  }

  // ---------------------------------------------------------------- the policies of a binding

  datatype Source = Source(ref: PolicyRef, revision: Revision)

  function DirectSources(repo: Repo, refs: seq<PolicyRef>): Option<seq<Source>> {
    if refs == [] then Some([])
    else
      var key := (refs[0].policyId, refs[0].revisionId);
      var rest := DirectSources(repo, refs[1..]);
      if key in repo.revisions && rest.Some? then Some([Source(refs[0], repo.revisions[key])] + rest.value) else None
  }

  /** Members of a set take their place in the binding's order from the set's own order. */
  function Placed(members: seq<PolicyRef>, order: nat): seq<PolicyRef> {
    if members == [] then []
    else [members[0].(order := order * 10_000 + members[0].order)] + Placed(members[1..], order)
  }

  function SetSources(repo: Repo, sets: seq<SetRef>): Option<seq<Source>> {
    if sets == [] then Some([])
    else
      var key := (sets[0].setId, sets[0].revisionId);
      if key !in repo.sets then None
      else
        var head := DirectSources(repo, Placed(repo.sets[key].members, sets[0].order));
        var rest := SetSources(repo, sets[1..]);
        if head.Some? && rest.Some? then Some(head.value + rest.value) else None
  }

  /** Higher authority first, then by order, policy and revision. */
  predicate Precedes(x: Source, y: Source) {
    var a, b := x.ref, y.ref;
    || b.rank < a.rank
    || (a.rank == b.rank
        && (|| a.order < b.order
            || (a.order == b.order
                && (|| Before(a.policyId, b.policyId)
                    || (a.policyId == b.policyId && Before(a.revisionId, b.revisionId))))))
  }

  function SourcesFor(repo: Repo, b: Binding): Option<seq<Source>> {
    var direct, members := DirectSources(repo, b.policies), SetSources(repo, b.sets);
    if direct.Some? && members.Some? then Some(Sorting.SortBy(Precedes, direct.value + members.value)) else None
  }

  // ---------------------------------------------------------------- projection

  predicate InForce(r: Revision, issuedAt: nat, expiresAt: nat) {
    && !r.standing.Invalid? && !r.standing.Archived?
    && (r.validFrom.Some? ==> r.validFrom.value <= issuedAt)
    && (r.validUntil.Some? ==> issuedAt < r.validUntil.value && expiresAt <= r.validUntil.value)
  }

  function ProjectSources(sources: seq<Source>, acc: RP.Acc, issuedAt: nat,
        expiresAt: nat): Result<RP.Acc, EnforcementError>
    decreases |sources|
  {
    if sources == [] then Ok(acc)
    else if !InForce(sources[0].revision, issuedAt, expiresAt) then Err(Expired)
    else
      match RP.Project(sources[0].revision.policy, acc)
      case Ok(next) => ProjectSources(sources[1..], next, issuedAt, expiresAt)
      case Err(UnsupportedPolicy) => Err(UnsupportedPolicy)
      case Err(EmptyPolicy) => Err(EmptyPolicy)
  }

  function RoutingDigest(policy: RoutingPolicy, denyAll: bool, b: Digest<Binding>, e: Digest<Evidence>,
        generation: nat, issuedAt: nat, expiresAt: nat): Digest<RoutingKey>
  {
    Sha(RoutingKey(policy, denyAll, b, e, generation, issuedAt, expiresAt))
  }

  function Assemble(b: Binding, a: Activation, acc: RP.Acc, evidence: Evidence, issuedAt: nat,
        expiresAt: nat): Projection
  {
    var denyAll := acc.denyAll || evidence.eligible == [];
    var policy := RP.PolicyOf(acc);
    Projection(
      SCHEMA, b.applicationId, b.bindingId, Sha(b), a.targetGeneration,
      Sha(EffectiveKey(Sha(b), a.revisionDigests, a.targetGeneration)),
      Sha(evidence),
      RoutingDigest(policy, denyAll, Sha(b), Sha(evidence), a.targetGeneration, issuedAt, expiresAt),
      issuedAt, expiresAt, denyAll, evidence, policy)
  }

  /** The binding and activation a projection over the given window rests on. */
  function ActiveFor(repo: Repo, bindingId: string, issuedAt: nat, expiresAt: nat): Result<Activation, EnforcementError>
  {
    if bindingId !in repo.bindings then Err(Inactive)
    else
      var b := repo.bindings[bindingId];
      if (b.validFrom.Some? && issuedAt < b.validFrom.value)
         || (b.validUntil.Some? && (issuedAt >= b.validUntil.value || expiresAt > b.validUntil.value)) then Err(Expired)
      else if bindingId !in repo.activations then Err(Inactive)
      else
        var a := repo.activations[bindingId];
        if a.activatedAt > issuedAt
           || (a.validUntil.Some? && (issuedAt >= a.validUntil.value || expiresAt > a.validUntil.value))
        then Err(Expired)
        else if Sha(b) != a.bindingDigest then Err(ProjectionMismatch)
        else Ok(a)
  }

  /** The projection once binding, activation and policies are known. */
  function Compile(b: Binding, a: Activation, sources: Option<seq<Source>>, evidence: Evidence, issuedAt: nat,
        expiresAt: nat): Result<Projection, EnforcementError>
  {
    if sources.None? then Err(ProjectionMismatch)
    else if sources.value == [] then Err(EmptyPolicy)
    else
      var acc :- ProjectSources(sources.value, RP.INITIAL, issuedAt, expiresAt);
      if acc.rules == 0 then Err(EmptyPolicy) else Ok(Assemble(b, a, acc, evidence, issuedAt, expiresAt))
  }

  function Produce(repo: Repo, bindingId: string, evidence: Evidence, issuedAt: nat,
        expiresAt: nat): Result<Projection, EnforcementError>
  {
    var a :- ActiveFor(repo, bindingId, issuedAt, expiresAt);
    Compile(repo.bindings[bindingId], a, SourcesFor(repo, repo.bindings[bindingId]), evidence, issuedAt, expiresAt)
  }

  function ProjectActive(repo: Repo, bindingId: string, evidence: Evidence, issuedAt: nat,
        expiresAt: nat): Result<Projection, EnforcementError>
  {
    if expiresAt <= issuedAt || expiresAt - issuedAt > MAX_TTL then Err(BadWindow)
    else
      match EvidenceFault(evidence, issuedAt, expiresAt)
      case Some(fault) => Err(fault)
      case None => Produce(repo, bindingId, evidence, issuedAt, expiresAt)
  }

  method ProjectActiveRoutingPolicy(repository: Repository, bindingId: string, evidence: Evidence, issuedAt: nat,
        expiresAt: nat)
    returns (result: Result<Projection, EnforcementError>)
    ensures result == ProjectActive(repository.View(), bindingId, evidence, issuedAt, expiresAt)
  {
    var repo := repository.View();
    if expiresAt <= issuedAt || expiresAt - issuedAt > MAX_TTL {
      return Err(BadWindow);
    }
    var fault := EvidenceFault(evidence, issuedAt, expiresAt);
    if fault.Some? {
      return Err(fault.value);
    }
    var standing := ActiveFor(repo, bindingId, issuedAt, expiresAt);
    if standing.Err? {
      return Err(standing.error);
    }
    var b := repo.bindings[bindingId];
    var found := SourcesFor(repo, b);
    if found.None? {
      return Err(ProjectionMismatch);
    }
    var sources := found.value;
    if sources == [] {
      return Err(EmptyPolicy);
    }
    var accumulator := new RP.Accumulator();
    for k := 0 to |sources|
      invariant ProjectSources(sources[k..], accumulator.View(), issuedAt, expiresAt)
                == ProjectSources(sources, RP.INITIAL, issuedAt, expiresAt)
    {
      assert sources[k..][0] == sources[k] && sources[k..][1..] == sources[k + 1..];
      if !InForce(sources[k].revision, issuedAt, expiresAt) {
        return Err(Expired);
      }
      var error := accumulator.ProjectExpression(sources[k].revision.policy);
      if error.Some? {
        return Err(if error.value.UnsupportedPolicy? then UnsupportedPolicy else EmptyPolicy);
      }
    }
    if accumulator.rules == 0 {
      return Err(EmptyPolicy);
    }
    return Ok(Assemble(b, standing.value, accumulator.View(), evidence, issuedAt, expiresAt));
  }

  // ---------------------------------------------------------------- verification

  function Verify(repo: Repo, p: Projection, now: nat): Option<EnforcementError> {
    if p.schemaVersion != SCHEMA then Some(UnsupportedPolicy)
    else if now < p.issuedAt || now >= p.expiresAt then Some(Expired)
    else
      match ProjectActive(repo, p.bindingId, p.evidence, p.issuedAt, p.expiresAt)
      case Err(e) => Some(e)
      case Ok(expected) =>
        if && p.applicationId == expected.applicationId
           && p.bindingDigest == expected.bindingDigest
           && p.generation == expected.generation
           && p.effectiveDigest == expected.effectiveDigest
           && p.evidenceDigest == expected.evidenceDigest
           && p.routingDigest == expected.routingDigest
           && p.denyAll == expected.denyAll
           && RoutingDigest(p.policy, p.denyAll, p.bindingDigest, p.evidenceDigest, p.generation, p.issuedAt,
                            p.expiresAt)
              == expected.routingDigest
        then None
        else Some(ProjectionMismatch)
  }

  /** What a produced projection is assembled from. */
  lemma {:induction false} ProducedIsAssembled(repo: Repo, bindingId: string, evidence: Evidence, issuedAt: nat,
        expiresAt: nat)
    returns (a: Activation, acc: RP.Acc)
    requires Keyed(repo) && ProjectActive(repo, bindingId, evidence, issuedAt, expiresAt).Ok?
    ensures bindingId in repo.bindings && repo.bindings[bindingId].bindingId == bindingId
    ensures ProjectActive(repo, bindingId, evidence, issuedAt, expiresAt)
            == Ok(Assemble(repo.bindings[bindingId], a, acc, evidence, issuedAt, expiresAt))
  {
    a := ActiveFor(repo, bindingId, issuedAt, expiresAt).value;
    var sources := SourcesFor(repo, repo.bindings[bindingId]).value;
    acc := ProjectSources(sources, RP.INITIAL, issuedAt, expiresAt).value;
  }

  /** A projection that agrees with an assembled one in all that is compared is that one. */
  lemma {:induction false} MatchesAssembled(p: Projection, b: Binding, a: Activation, acc: RP.Acc)
    requires b.bindingId == p.bindingId && p.schemaVersion == SCHEMA
    ensures
      var expected := Assemble(b, a, acc, p.evidence, p.issuedAt, p.expiresAt);
      (&& p.applicationId == expected.applicationId
       && p.bindingDigest == expected.bindingDigest
       && p.generation == expected.generation
       && p.effectiveDigest == expected.effectiveDigest
       && p.evidenceDigest == expected.evidenceDigest
       && p.routingDigest == expected.routingDigest
       && p.denyAll == expected.denyAll
       && RoutingDigest(p.policy, p.denyAll, p.bindingDigest, p.evidenceDigest, p.generation, p.issuedAt, p.expiresAt)
          == expected.routingDigest)
      <==> p == expected
  {
  }

  /** Verification accepts a projection exactly when the repository would produce that very projection. */
  lemma {:induction false} VerifiedIsReproduced(repo: Repo, p: Projection, now: nat)
    requires Keyed(repo)
    ensures Verify(repo, p, now).None? <==>
            && p.issuedAt <= now < p.expiresAt
            && ProjectActive(repo, p.bindingId, p.evidence, p.issuedAt, p.expiresAt) == Ok(p)
  {
    if ProjectActive(repo, p.bindingId, p.evidence, p.issuedAt, p.expiresAt).Ok? {
      var a, acc := ProducedIsAssembled(repo, p.bindingId, p.evidence, p.issuedAt, p.expiresAt);
      if p.schemaVersion == SCHEMA {
        MatchesAssembled(p, repo.bindings[p.bindingId], a, acc);
      }
    }
  }

  lemma {:induction false} DirectSourcesStable(a: Repo, b: Repo, refs: seq<PolicyRef>)
    requires Grown(a, b) && DirectSources(a, refs).Some?
    ensures DirectSources(b, refs) == DirectSources(a, refs)
  {
    if refs == [] {
    } else {
      DirectSourcesStable(a, b, refs[1..]);
    }
  }

  lemma {:induction false} SetSourcesStable(a: Repo, b: Repo, sets: seq<SetRef>)
    requires Grown(a, b) && SetSources(a, sets).Some?
    ensures SetSources(b, sets) == SetSources(a, sets)
  {
    if sets == [] {
    } else {
      DirectSourcesStable(a, b, Placed(a.sets[(sets[0].setId, sets[0].revisionId)].members, sets[0].order));
      SetSourcesStable(a, b, sets[1..]);
    }
  }

  lemma {:induction false} SourcesForStable(a: Repo, b: Repo, binding: Binding)
    requires Grown(a, b) && SourcesFor(a, binding).Some?
    ensures SourcesFor(b, binding) == SourcesFor(a, binding)
  {
    DirectSourcesStable(a, b, binding.policies);
    SetSourcesStable(a, b, binding.sets);
  }

  lemma {:induction false} ActiveForStable(a: Repo, b: Repo, bindingId: string, issuedAt: nat, expiresAt: nat)
    requires Grown(a, b) && bindingId in a.bindings && bindingId in a.activations
    requires bindingId in b.activations && b.activations[bindingId] == a.activations[bindingId]
    ensures bindingId in b.bindings && b.bindings[bindingId] == a.bindings[bindingId]
    ensures ActiveFor(b, bindingId, issuedAt, expiresAt) == ActiveFor(a, bindingId, issuedAt, expiresAt)
  {
  }

  /** While the activation stands, growth of the repository does not change what is projected. */
  lemma {:induction false} ProjectionStable(a: Repo, b: Repo, bindingId: string, evidence: Evidence, issuedAt: nat,
        expiresAt: nat)
    requires Grown(a, b) && Produce(a, bindingId, evidence, issuedAt, expiresAt).Ok?
    requires bindingId in b.activations && b.activations[bindingId] == a.activations[bindingId]
    ensures Produce(b, bindingId, evidence, issuedAt, expiresAt) == Produce(a, bindingId, evidence, issuedAt, expiresAt)
  {
    ActiveForStable(a, b, bindingId, issuedAt, expiresAt);
    SourcesForStable(a, b, a.bindings[bindingId]);
  }

  /** What a produced projection records about its origin. */
  lemma {:induction false} ProducedRecords(repo: Repo, bindingId: string, evidence: Evidence, issuedAt: nat,
        expiresAt: nat)
    requires Keyed(repo) && Produce(repo, bindingId, evidence, issuedAt, expiresAt).Ok?
    ensures bindingId in repo.activations && bindingId in repo.bindings
    ensures
      var p := Produce(repo, bindingId, evidence, issuedAt, expiresAt).value;
      && p.bindingId == bindingId && p.evidence == evidence
      && p.issuedAt == issuedAt && p.expiresAt == expiresAt
      && p.generation == repo.activations[bindingId].targetGeneration
  {
  }

  /**
   Between two sound repositories, one grown from the other, the same projection is produced iff the
   activation is the same.
   */
  lemma {:induction false} SameProjectionIff(a: Repo, b: Repo, bindingId: string, evidence: Evidence, issuedAt: nat,
        expiresAt: nat)
    requires Keyed(a) && Keyed(b) && Grown(a, b) && Produce(a, bindingId, evidence, issuedAt, expiresAt).Ok?
    requires bindingId in a.activations && bindingId in b.activations
    requires b.activations[bindingId] == a.activations[bindingId]
             || b.activations[bindingId].targetGeneration != a.activations[bindingId].targetGeneration
    ensures Produce(b, bindingId, evidence, issuedAt, expiresAt) == Produce(a, bindingId, evidence, issuedAt, expiresAt)
            <==> b.activations[bindingId] == a.activations[bindingId]
  {
    ProducedRecords(a, bindingId, evidence, issuedAt, expiresAt);
    if b.activations[bindingId] == a.activations[bindingId] {
      ProjectionStable(a, b, bindingId, evidence, issuedAt, expiresAt);
    } else if Produce(b, bindingId, evidence, issuedAt, expiresAt).Ok? {
      ProducedRecords(b, bindingId, evidence, issuedAt, expiresAt);
    }
  }

  /**
   After any further stores and activations, a projection still verifies exactly while the clock
   is inside its window and its binding has not been activated again.
   */
  lemma {:induction false} ProjectionVerifiesExactlyWhile(repo: Repo, requests: seq<Request>, bindingId: string,
        evidence: Evidence, issuedAt: nat, expiresAt: nat, now: nat)
    requires Sound(repo) && ProjectActive(repo, bindingId, evidence, issuedAt, expiresAt).Ok?
    ensures bindingId in repo.activations && bindingId in Run(repo, requests).activations
    ensures
      var p := ProjectActive(repo, bindingId, evidence, issuedAt, expiresAt).value;
      Verify(Run(repo, requests), p, now).None? <==>
      issuedAt <= now < expiresAt && Run(repo, requests).activations[bindingId] == repo.activations[bindingId]
  {
    var later := Run(repo, requests);
    ProducedRecords(repo, bindingId, evidence, issuedAt, expiresAt);
    var p := Produce(repo, bindingId, evidence, issuedAt, expiresAt).value;
    RunStaysSound(repo, requests);
    ActivationKeptOrLater(repo, requests, bindingId);
    VerifiedIsReproduced(later, p, now);
    SameProjectionIff(repo, later, bindingId, evidence, issuedAt, expiresAt);
  }

  // ---------------------------------------------------------------- what a verified projection enforces

  /** Every comparison of every policy in force for the binding. */
  ghost predicate SatisfiesPolicies(c: Candidate, sources: seq<Source>) {
    forall s :: s in sources ==>
      RP.Atoms(s.revision.policy).Some?
      && forall atom :: atom in RP.Atoms(s.revision.policy).value ==> RP.Satisfies(c, atom)
  }

  lemma {:induction false} ProjectSourcesMeans(sources: seq<Source>, acc: RP.Acc, issuedAt: nat, expiresAt: nat,
        c: Candidate)
    requires RP.Consistent(acc) && ProjectSources(sources, acc, issuedAt, expiresAt).Ok?
    ensures
      var next := ProjectSources(sources, acc, issuedAt, expiresAt).value;
      && RP.Consistent(next)
      && (RP.Passes(next, c) <==> RP.Passes(acc, c) && SatisfiesPolicies(c, sources))
    decreases |sources|
  {
    if sources == [] {
    } else {
      var policy := sources[0].revision.policy;
      RP.ProjectionPreservesMeaning(policy, acc, c);
      ProjectSourcesMeans(sources[1..], RP.Project(policy, acc).value, issuedAt, expiresAt, c);
      assert sources == [sources[0]] + sources[1..];
    }
  }

  /** Every comparison that is not about identity. */
  ghost predicate SatisfiesAnonymously(c: Candidate, sources: seq<Source>) {
    forall s :: s in sources ==>
      RP.Atoms(s.revision.policy).Some?
      && forall atom :: atom in RP.Atoms(s.revision.policy).value && !atom.IdentityAtLeast? ==> RP.Satisfies(c, atom)
  }

  /** Some identity that meets every recognized level, for a candidate otherwise as given. */
  function Identified(c: Candidate): Candidate {
    c.(identity := 3)
  }

  lemma {:induction false} IdentifiedPasses(acc: RP.Acc, c: Candidate)
    requires RP.Consistent(acc) && !acc.denyAll && AdmitsAnonymous(RP.PolicyOf(acc), c)
    ensures RP.Passes(acc, Identified(c))
  {
  }

  lemma {:induction false} SatisfiedButForIdentity(c: Candidate, sources: seq<Source>)
    requires SatisfiesPolicies(Identified(c), sources)
    ensures SatisfiesAnonymously(c, sources)
  {
    forall s, atom | s in sources && atom in RP.Atoms(s.revision.policy).value && !atom.IdentityAtLeast?
      ensures RP.Satisfies(c, atom)
    {
      assert RP.Satisfies(Identified(c), atom);
    }
  }

  /** The accumulator behind a projection. */
  lemma {:induction false} ProducedPolicyIsProjected(repo: Repo, p: Projection, c: Candidate)
    requires ProjectActive(repo, p.bindingId, p.evidence, p.issuedAt, p.expiresAt) == Ok(p)
    ensures p.bindingId in repo.bindings && SourcesFor(repo, repo.bindings[p.bindingId]).Some?
    ensures
      var sources := SourcesFor(repo, repo.bindings[p.bindingId]).value;
      && ProjectSources(sources, RP.INITIAL, p.issuedAt, p.expiresAt).Ok?
      && var acc := ProjectSources(sources, RP.INITIAL, p.issuedAt, p.expiresAt).value;
         RP.Consistent(acc) && p.policy == RP.PolicyOf(acc) && (acc.denyAll ==> p.denyAll)
         && (RP.Passes(acc, c) <==> SatisfiesPolicies(c, sources))
  {
    var sources := SourcesFor(repo, repo.bindings[p.bindingId]).value;
    ProjectSourcesMeans(sources, RP.INITIAL, p.issuedAt, p.expiresAt, c);
  }

  /**
   From policy text to dispatch: when the client verifies its projection, a candidate reaches a
   request, with or without a policy of its own, only if it satisfies every comparison of every
   policy active for the binding, and only if the client's own configuration and the request admit
   it too. Of identity comparisons and demands this holds where the identity levels agree.
   */
  lemma {:induction false} DispatchSatisfiesActivePolicies(
    repo: Repo, p: Projection, now: nat, config: RoutingPolicy, request: Option<RoutingPolicy>, c: Candidate)
    requires Keyed(repo) && Verify(repo, p, now).None?
    requires
      var dispatched := DispatchPolicy(NewClient(config, p.policy, p.denyAll), request);
      dispatched.Some? && Admits(dispatched.value, c)
    ensures p.bindingId in repo.bindings && SourcesFor(repo, repo.bindings[p.bindingId]).Some?
    ensures
      var sources := SourcesFor(repo, repo.bindings[p.bindingId]).value;
      && SatisfiesAnonymously(c, sources)
      && AdmitsAnonymous(config, c) && (request.Some? ==> AdmitsAnonymous(request.value, c))
      && (Agree(AllDemands(config, p.policy, request)) ==>
            SatisfiesPolicies(c, sources) && Admits(config, c) && (request.Some? ==> Admits(request.value, c)))
  {
    VerifiedIsReproduced(repo, p, now);
    ProducedPolicyIsProjected(repo, p, c);
    ProducedPolicyIsProjected(repo, p, Identified(c));
    var sources := SourcesFor(repo, repo.bindings[p.bindingId]).value;
    var acc := ProjectSources(sources, RP.INITIAL, p.issuedAt, p.expiresAt).value;
    DispatchAdmits(config, p.policy, p.denyAll, request, c);
    DispatchedAnonymously(config, p.policy, p.denyAll, request, c);
    IdentifiedPasses(acc, c);
    SatisfiedButForIdentity(c, sources);
  }
}
