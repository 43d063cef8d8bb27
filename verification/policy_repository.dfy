/** The policy repository: immutable revisions, sets and bindings, and generation-bound activation. */
module PolicyRepository {
  import opened Common
  import opened Json

  const VERSION := "1"

  datatype Standing = Stored | Invalid | Active | Superseded | Archived

  datatype Revision = Revision(
    schemaVersion: string,
    policyId: string,
    revisionId: string,
    authority: string,
    scope: string,
    standing: Standing,
    policy: Value,
    validFrom: Option<nat>,
    validUntil: Option<nat>,
    extensions: seq<Extension>)

  /** A member of a policy set, or a policy a binding names directly. */
  datatype PolicyRef = PolicyRef(policyId: string, revisionId: string, rank: nat, mandatory: bool, order: nat)

  datatype PolicySet = PolicySet(
    schemaVersion: string,
    setId: string,
    revisionId: string,
    authority: string,
    members: seq<PolicyRef>,
    extensions: seq<Extension>)

  datatype SetRef = SetRef(setId: string, revisionId: string, order: nat)

  datatype Binding = Binding(
    schemaVersion: string,
    bindingId: string,
    applicationId: string,
    authority: string,
    policies: seq<PolicyRef>,
    sets: seq<SetRef>,
    validFrom: Option<nat>,
    validUntil: Option<nat>,
    extensions: seq<Extension>)

  type RevisionDigests = map<string, Digest<Revision>>

  datatype Activation = Activation(
    schemaVersion: string,
    activationId: string,
    bindingId: string,
    authority: string,
    expectedGeneration: nat,
    targetGeneration: nat,
    bindingDigest: Digest<Binding>,
    revisionDigests: RevisionDigests,
    activatedAt: nat,
    validUntil: Option<nat>)

  datatype RepositoryError =
    | UnsupportedVersion
    | EmptyIdentifier
    | InvalidValidity
    | DuplicateMember
    | RevisionNotFound
    | SetNotFound
    | BindingNotFound
    | DigestMismatch
    | StaleGeneration
    | InvalidActivation
    | UnsupportedRequiredExtension(id: string)

  datatype Repo = Repo(
    revisions: map<(string, string), Revision>,
    sets: map<(string, string), PolicySet>,
    bindings: map<string, Binding>,
    activations: map<string, Activation>,
    generation: nat,
    supported: set<string>)

  function Empty(supported: set<string>): Repo {
    Repo(map[], map[], map[], map[], 0, supported)
  }

  // ---------------------------------------------------------------- validation

  predicate ValidWindow(from: Option<nat>, until: Option<nat>) {
    from.Some? && until.Some? ==> from.value < until.value
  }

  predicate WindowContains(from: Option<nat>, until: Option<nat>, at: nat) {
    (from.Some? ==> from.value <= at) && (until.Some? ==> at < until.value)
  }

  function UnsupportedExtension(extensions: seq<Extension>, supported: set<string>): Option<RepositoryError> {
    match FirstUnsupported(extensions, supported)
    case Some(id) => Some(UnsupportedRequiredExtension(id))
    case None => None
  }

  function RevisionFault(r: Revision): Option<RepositoryError> {
    if r.schemaVersion != VERSION then Some(UnsupportedVersion)
    else if Blank(r.policyId) || Blank(r.revisionId) || Blank(r.authority) || Blank(r.scope) then Some(EmptyIdentifier)
    else if !ValidWindow(r.validFrom, r.validUntil) then Some(InvalidValidity)
    else None
  }

  function MemberFault(members: seq<PolicyRef>, ids: set<(string, string)>, orders: set<nat>): Option<RepositoryError> {
    if members == [] then None
    else
      var m := members[0];
      if Blank(m.policyId) || Blank(m.revisionId) then Some(EmptyIdentifier)
      else if (m.policyId, m.revisionId) in ids || m.order in orders then Some(DuplicateMember)
      else MemberFault(members[1..], ids + {(m.policyId, m.revisionId)}, orders + {m.order})
  }

  method ValidateMembers(members: seq<PolicyRef>) returns (fault: Option<RepositoryError>)
    ensures fault == MemberFault(members, {}, {})
  {
    var ids: set<(string, string)>, orders: set<nat> := {}, {};
    for k := 0 to |members|
      invariant MemberFault(members, {}, {}) == MemberFault(members[k..], ids, orders)
    {
      var m := members[k];
      assert members[k..][0] == m && members[k..][1..] == members[k + 1..];
      if Blank(m.policyId) || Blank(m.revisionId) {
        return Some(EmptyIdentifier);
      }
      if (m.policyId, m.revisionId) in ids || m.order in orders {
        return Some(DuplicateMember);
      }
      ids := ids + {(m.policyId, m.revisionId)};
      orders := orders + {m.order};
    }
    fault := None;
  }

  /** Two references that cannot both be members of one set. */
  predicate Clash(a: PolicyRef, b: PolicyRef) {
    a.order == b.order || (a.policyId, a.revisionId) == (b.policyId, b.revisionId)
  }

  predicate Admissible(m: PolicyRef, ids: set<(string, string)>, orders: set<nat>) {
    !Blank(m.policyId) && !Blank(m.revisionId) && (m.policyId, m.revisionId) !in ids && m.order !in orders
  }

  predicate NoClash(members: seq<PolicyRef>) {
    forall i, j :: 0 <= i < j < |members| ==> !Clash(members[i], members[j])
  }

  lemma {:induction false} NoClashSplit(m: PolicyRef, rest: seq<PolicyRef>)
    ensures NoClash([m] + rest) <==> NoClash(rest) && forall x :: x in rest ==> !Clash(m, x)
  {
    var all := [m] + rest;
    assert forall j :: 1 <= j < |all| ==> all[j] == rest[j - 1] && all[j] in rest;
    if NoClash(all) {
      forall x | x in rest ensures !Clash(m, x) {
        var k :| 0 <= k < |rest| && rest[k] == x;
        assert all[0] == m && all[k + 1] == x;
      }
      forall i, j | 0 <= i < j < |rest| ensures !Clash(rest[i], rest[j]) {
        assert all[i + 1] == rest[i] && all[j + 1] == rest[j];
      }
    }
  }

  /** A list of members passes exactly when identities and orders are pairwise distinct and named. */
  lemma {:induction false} MembersPassIff(members: seq<PolicyRef>, ids: set<(string, string)>, orders: set<nat>)
    ensures MemberFault(members, ids, orders).None? <==>
            (forall m :: m in members ==> Admissible(m, ids, orders)) && NoClash(members)
    decreases |members|
  {
    if members == [] {
    } else {
      var m, rest := members[0], members[1..];
      MembersPassIff(rest, ids + {(m.policyId, m.revisionId)}, orders + {m.order});
      assert members == [m] + rest;
      NoClashSplit(m, rest);
      assert MemberFault(members, ids, orders).None? <==>
          Admissible(m, ids, orders) && MemberFault(rest, ids + {(m.policyId, m.revisionId)}, orders + {m.order}).None?;
      forall x | x in rest
        ensures Admissible(x, ids + {(m.policyId, m.revisionId)}, orders + {m.order})
                <==> Admissible(x, ids, orders) && !Clash(m, x)
      {
      }
    }
  }

  function SetFault(s: PolicySet): Option<RepositoryError> {
    if s.schemaVersion != VERSION then Some(UnsupportedVersion)
    else if Blank(s.setId) || Blank(s.revisionId) || Blank(s.authority) then Some(EmptyIdentifier)
    else MemberFault(s.members, {}, {})
  }

  function PolicyRefOrders(refs: seq<PolicyRef>, orders: set<nat>): Option<set<nat>> {
    if refs == [] then Some(orders)
    else if Blank(refs[0].policyId) || Blank(refs[0].revisionId) || refs[0].order in orders then None
    else PolicyRefOrders(refs[1..], orders + {refs[0].order})
  }

  function SetRefOrders(refs: seq<SetRef>, orders: set<nat>): Option<set<nat>> {
    if refs == [] then Some(orders)
    else if Blank(refs[0].setId) || Blank(refs[0].revisionId) || refs[0].order in orders then None
    else SetRefOrders(refs[1..], orders + {refs[0].order})
  }

  function BindingFault(b: Binding): Option<RepositoryError> {
    if b.schemaVersion != VERSION then Some(UnsupportedVersion)
    else if Blank(b.bindingId) || Blank(b.applicationId) || Blank(b.authority) then Some(EmptyIdentifier)
    else if !ValidWindow(b.validFrom, b.validUntil) then Some(InvalidValidity)
    else
      var orders := PolicyRefOrders(b.policies, {});
      if orders.None? || SetRefOrders(b.sets, orders.value).None? then Some(DuplicateMember) else None
  }

  // ---------------------------------------------------------------- storing

  predicate RefsKnown(repo: Repo, refs: seq<PolicyRef>) {
    forall r :: r in refs ==> (r.policyId, r.revisionId) in repo.revisions
  }

  predicate SetRefsKnown(repo: Repo, refs: seq<SetRef>) {
    forall r :: r in refs ==> (r.setId, r.revisionId) in repo.sets
  }

  function StoreRevision(repo: Repo, r: Revision): Result<Repo, RepositoryError> {
    var fault := RevisionFault(r);
    var extension := UnsupportedExtension(r.extensions, repo.supported);
    var key := (r.policyId, r.revisionId);
    if fault.Some? then Err(fault.value)
    else if extension.Some? then Err(extension.value)
    else if key in repo.revisions then
      if Sha(repo.revisions[key]) != Sha(r) then Err(DigestMismatch) else Ok(repo)
    else Ok(repo.(revisions := repo.revisions[key := r]))
  }

  function StoreSet(repo: Repo, s: PolicySet): Result<Repo, RepositoryError> {
    var fault := SetFault(s);
    var extension := UnsupportedExtension(s.extensions, repo.supported);
    var key := (s.setId, s.revisionId);
    if fault.Some? then Err(fault.value)
    else if extension.Some? then Err(extension.value)
    else if !RefsKnown(repo, s.members) then Err(RevisionNotFound)
    else if key in repo.sets then
      if Sha(repo.sets[key]) != Sha(s) then Err(DigestMismatch) else Ok(repo)
    else Ok(repo.(sets := repo.sets[key := s]))
  }

  function StoreBinding(repo: Repo, b: Binding): Result<Repo, RepositoryError> {
    var fault := BindingFault(b);
    var extension := UnsupportedExtension(b.extensions, repo.supported);
    if fault.Some? then Err(fault.value)
    else if extension.Some? then Err(extension.value)
    else if !RefsKnown(repo, b.policies) then Err(RevisionNotFound)
    else if !SetRefsKnown(repo, b.sets) then Err(SetNotFound)
    else if b.bindingId in repo.bindings then
      if Sha(repo.bindings[b.bindingId]) != Sha(b) then Err(DigestMismatch) else Ok(repo)
    else Ok(repo.(bindings := repo.bindings[b.bindingId := b]))
  }

  // ---------------------------------------------------------------- activation

  predicate Activatable(r: Revision, at: Option<nat>) {
    && !r.standing.Invalid? && !r.standing.Archived?
    && (at.Some? ==> WindowContains(r.validFrom, r.validUntil, at.value))
  }

  function Identity(policyId: string, revisionId: string): string {
    policyId + "@" + revisionId
  }

  function DigestRefs(repo: Repo, refs: seq<PolicyRef>, at: Option<nat>,
        sofar: RevisionDigests): Result<RevisionDigests, RepositoryError>
    decreases |refs|
  {
    if refs == [] then Ok(sofar)
    else
      var key := (refs[0].policyId, refs[0].revisionId);
      if key !in repo.revisions then Err(RevisionNotFound)
      else if !Activatable(repo.revisions[key], at) then Err(InvalidActivation)
      else DigestRefs(repo, refs[1..], at, sofar[Identity(key.0, key.1) := Sha(repo.revisions[key])])
  }

  function DigestSets(repo: Repo, sets: seq<SetRef>, at: Option<nat>,
        sofar: RevisionDigests): Result<RevisionDigests, RepositoryError>
    decreases |sets|
  {
    if sets == [] then Ok(sofar)
    else
      var key := (sets[0].setId, sets[0].revisionId);
      if key !in repo.sets then Err(SetNotFound)
      else
        var next :- DigestRefs(repo, repo.sets[key].members, at, sofar);
        DigestSets(repo, sets[1..], at, next)
  }

  /** The digest of every revision the binding reaches, directly or through its sets. */
  function PolicyDigests(repo: Repo, b: Binding, at: Option<nat>): Result<RevisionDigests, RepositoryError> {
    var direct :- DigestRefs(repo, b.policies, at, map[]);
    DigestSets(repo, b.sets, at, direct)
  }

  function Activate(repo: Repo, a: Activation): Result<Repo, RepositoryError> {
    if a.expectedGeneration != repo.generation then Err(StaleGeneration)
    else if a.schemaVersion != VERSION || Blank(a.activationId) || Blank(a.bindingId) || Blank(a.authority)
         || a.targetGeneration != repo.generation + 1
         || (a.validUntil.Some? && a.validUntil.value <= a.activatedAt) then Err(InvalidActivation)
    else if a.bindingId !in repo.bindings then Err(BindingNotFound)
    else
      var b := repo.bindings[a.bindingId];
      if Sha(b) != a.bindingDigest then Err(DigestMismatch)
      else if !WindowContains(b.validFrom, b.validUntil, a.activatedAt) then Err(InvalidActivation)
      else
        var expected :- PolicyDigests(repo, b, Some(a.activatedAt));
        if expected != a.revisionDigests then Err(DigestMismatch)
        else Ok(repo.(generation := a.targetGeneration, activations := repo.activations[a.bindingId := a]))
  }

  // ---------------------------------------------------------------- the repository object

  class Repository {
    var revisions: map<(string, string), Revision>
    var sets: map<(string, string), PolicySet>
    var bindings: map<string, Binding>
    var activations: map<string, Activation>
    var generation: nat
    const supported: set<string>

    function View(): Repo
      reads this
    {
      Repo(revisions, sets, bindings, activations, generation, supported)
    }

    constructor (supported: set<string>)
      ensures View() == Empty(supported)
    {
      this.supported := supported;
      revisions, sets, bindings, activations := map[], map[], map[], map[];
      generation := 0;
    }

    method AddRevision(r: Revision) returns (result: Result<Digest<Revision>, RepositoryError>)
      modifies this
      ensures match StoreRevision(old(View()), r)
              case Ok(next) => View() == next && result == Ok(Sha(r))
              case Err(e) => View() == old(View()) && result == Err(e)
    {
      var fault := RevisionFault(r);
      if fault.Some? {
        return Err(fault.value);
      }
      fault := UnsupportedExtension(r.extensions, supported);
      if fault.Some? {
        return Err(fault.value);
      }
      var key := (r.policyId, r.revisionId);
      if key in revisions {
        if Sha(revisions[key]) != Sha(r) {
          return Err(DigestMismatch);
        }
        return Ok(Sha(r));
      }
      revisions := revisions[key := r];
      return Ok(Sha(r));
    }

    method AddSet(s: PolicySet) returns (result: Result<Digest<PolicySet>, RepositoryError>)
      modifies this
      ensures match StoreSet(old(View()), s)
              case Ok(next) => View() == next && result == Ok(Sha(s))
              case Err(e) => View() == old(View()) && result == Err(e)
    {
      if s.schemaVersion != VERSION {
        return Err(UnsupportedVersion);
      }
      if Blank(s.setId) || Blank(s.revisionId) || Blank(s.authority) {
        return Err(EmptyIdentifier);
      }
      var fault := ValidateMembers(s.members);
      if fault.Some? {
        return Err(fault.value);
      }
      fault := UnsupportedExtension(s.extensions, supported);
      if fault.Some? {
        return Err(fault.value);
      }
      for k := 0 to |s.members|
        invariant RefsKnown(View(), s.members[..k])
      {
        if (s.members[k].policyId, s.members[k].revisionId) !in revisions {
          assert s.members[k] in s.members;
          return Err(RevisionNotFound);
        }
      }
      assert s.members[..|s.members|] == s.members;
      var key := (s.setId, s.revisionId);
      if key in sets {
        if Sha(sets[key]) != Sha(s) {
          return Err(DigestMismatch);
        }
        return Ok(Sha(s));
      }
      sets := sets[key := s];
      return Ok(Sha(s));
    }

    method AddBinding(b: Binding) returns (result: Result<Digest<Binding>, RepositoryError>)
      modifies this
      ensures match StoreBinding(old(View()), b)
              case Ok(next) => View() == next && result == Ok(Sha(b))
              case Err(e) => View() == old(View()) && result == Err(e)
    {
      var fault := BindingFault(b);
      if fault.Some? {
        return Err(fault.value);
      }
      fault := UnsupportedExtension(b.extensions, supported);
      if fault.Some? {
        return Err(fault.value);
      }
      for k := 0 to |b.policies|
        invariant RefsKnown(View(), b.policies[..k])
      {
        if (b.policies[k].policyId, b.policies[k].revisionId) !in revisions {
          assert b.policies[k] in b.policies;
          return Err(RevisionNotFound);
        }
      }
      assert b.policies[..|b.policies|] == b.policies;
      for k := 0 to |b.sets|
        invariant SetRefsKnown(View(), b.sets[..k])
      {
        if (b.sets[k].setId, b.sets[k].revisionId) !in sets {
          assert b.sets[k] in b.sets;
          return Err(SetNotFound);
        }
      }
      assert b.sets[..|b.sets|] == b.sets;
      if b.bindingId in bindings {
        if Sha(bindings[b.bindingId]) != Sha(b) {
          return Err(DigestMismatch);
        }
        return Ok(Sha(b));
      }
      bindings := bindings[b.bindingId := b];
      return Ok(Sha(b));
    }

    method DigestMembers(members: seq<PolicyRef>, at: Option<nat>, sofar: RevisionDigests)
      returns (result: Result<RevisionDigests, RepositoryError>)
      ensures result == DigestRefs(View(), members, at, sofar)
    {
      var digests := sofar;
      for k := 0 to |members|
        invariant DigestRefs(View(), members, at, sofar) == DigestRefs(View(), members[k..], at, digests)
      {
        assert members[k..][0] == members[k] && members[k..][1..] == members[k + 1..];
        var key := (members[k].policyId, members[k].revisionId);
        if key !in revisions {
          return Err(RevisionNotFound);
        }
        if !Activatable(revisions[key], at) {
          return Err(InvalidActivation);
        }
        digests := digests[Identity(key.0, key.1) := Sha(revisions[key])];
      }
      return Ok(digests);
    }

    method PolicyDigestsForBinding(b: Binding, at: Option<nat>)
      returns (result: Result<RevisionDigests, RepositoryError>)
      ensures result == PolicyDigests(View(), b, at)
    {
      result := DigestMembers(b.policies, at, map[]);
      if result.Err? {
        return;
      }
      for k := 0 to |b.sets|
        invariant result.Ok?
        invariant PolicyDigests(View(), b, at) == DigestSets(View(), b.sets[k..], at, result.value)
      {
        assert b.sets[k..][0] == b.sets[k] && b.sets[k..][1..] == b.sets[k + 1..];
        var key := (b.sets[k].setId, b.sets[k].revisionId);
        if key !in sets {
          return Err(SetNotFound);
        }
        result := DigestMembers(sets[key].members, at, result.value);
        if result.Err? {
          return;
        }
      }
    }

    method ActivateBinding(a: Activation) returns (error: Option<RepositoryError>)
      modifies this
      ensures match Activate(old(View()), a)
              case Ok(next) => View() == next && error == None
              case Err(e) => View() == old(View()) && error == Some(e)
    {
      if a.schemaVersion != VERSION || Blank(a.activationId) || Blank(a.bindingId) || Blank(a.authority)
         || a.expectedGeneration != generation || a.targetGeneration != generation + 1
         || (a.validUntil.Some? && a.validUntil.value <= a.activatedAt)
      {
        return Some(if a.expectedGeneration != generation then StaleGeneration else InvalidActivation);
      }
      if a.bindingId !in bindings {
        return Some(BindingNotFound);
      }
      var b := bindings[a.bindingId];
      if Sha(b) != a.bindingDigest {
        return Some(DigestMismatch);
      }
      if !WindowContains(b.validFrom, b.validUntil, a.activatedAt) {
        return Some(InvalidActivation);
      }
      var expected := PolicyDigestsForBinding(b, Some(a.activatedAt));
      if expected.Err? {
        return Some(expected.error);
      }
      if expected.value != a.revisionDigests {
        return Some(DigestMismatch);
      }
      generation := a.targetGeneration;
      activations := activations[a.bindingId := a];
      return None;
    }
  }

  // ---------------------------------------------------------------- every run of the repository

  datatype Request =
    | PutRevision(revision: Revision)
    | PutSet(policySet: PolicySet)
    | PutBinding(binding: Binding)
    | PutActivation(activation: Activation)

  function Attempt(repo: Repo, request: Request): Result<Repo, RepositoryError> {
    match request
    case PutRevision(r) => StoreRevision(repo, r)
    case PutSet(s) => StoreSet(repo, s)
    case PutBinding(b) => StoreBinding(repo, b)
    case PutActivation(a) => Activate(repo, a)
  }

  /** A refused request changes nothing. */
  function Next(repo: Repo, request: Request): Repo {
    match Attempt(repo, request)
    case Ok(next) => next
    case Err(_) => repo
  }

  function Run(repo: Repo, requests: seq<Request>): Repo
    decreases |requests|
  {
    if requests == [] then repo else Run(Next(repo, requests[0]), requests[1..])
  }

  /** Everything stored in `a` is still stored, unchanged, in `b`. */
  ghost predicate Grown(a: Repo, b: Repo) {
    && (forall k :: k in a.revisions ==> k in b.revisions && b.revisions[k] == a.revisions[k])
    && (forall k :: k in a.sets ==> k in b.sets && b.sets[k] == a.sets[k])
    && (forall k :: k in a.bindings ==> k in b.bindings && b.bindings[k] == a.bindings[k])
    && a.generation <= b.generation
  }

  lemma {:induction false} DigestRefsStable(a: Repo, b: Repo, refs: seq<PolicyRef>, at: Option<nat>,
        sofar: RevisionDigests)
    requires Grown(a, b) && DigestRefs(a, refs, at, sofar).Ok?
    ensures DigestRefs(b, refs, at, sofar) == DigestRefs(a, refs, at, sofar)
    decreases |refs|
  {
    if refs == [] {
    } else {
      var key := (refs[0].policyId, refs[0].revisionId);
      DigestRefsStable(a, b, refs[1..], at, sofar[Identity(key.0, key.1) := Sha(a.revisions[key])]);
    }
  }

  lemma {:induction false} DigestSetsStable(a: Repo, b: Repo, sets: seq<SetRef>, at: Option<nat>,
        sofar: RevisionDigests)
    requires Grown(a, b) && DigestSets(a, sets, at, sofar).Ok?
    ensures DigestSets(b, sets, at, sofar) == DigestSets(a, sets, at, sofar)
    decreases |sets|
  {
    if sets == [] {
    } else {
      var members := a.sets[(sets[0].setId, sets[0].revisionId)].members;
      DigestRefsStable(a, b, members, at, sofar);
      DigestSetsStable(a, b, sets[1..], at, DigestRefs(a, members, at, sofar).value);
    }
  }

  lemma {:induction false} PolicyDigestsStable(a: Repo, b: Repo, binding: Binding, at: Option<nat>)
    requires Grown(a, b) && PolicyDigests(a, binding, at).Ok?
    ensures PolicyDigests(b, binding, at) == PolicyDigests(a, binding, at)
  {
    DigestRefsStable(a, b, binding.policies, at, map[]);
    DigestSetsStable(a, b, binding.sets, at, DigestRefs(a, binding.policies, at, map[]).value);
  }

  /** The activation's evidence can be recomputed from what the repository holds now. */
  ghost predicate Derivable(repo: Repo, a: Activation) {
    && a.bindingId in repo.bindings
    && a.bindingDigest == Sha(repo.bindings[a.bindingId])
    && PolicyDigests(repo, repo.bindings[a.bindingId], Some(a.activatedAt)) == Ok(a.revisionDigests)
  }

  /** Bindings are filed under their own id. */
  ghost predicate Keyed(repo: Repo) {
    forall id :: id in repo.bindings ==> repo.bindings[id].bindingId == id
  }

  ghost predicate Sound(repo: Repo) {
    && (forall id :: id in repo.activations ==>
          && repo.activations[id].bindingId == id
          && Derivable(repo, repo.activations[id])
          && 1 <= repo.activations[id].targetGeneration <= repo.generation)
    && (forall i, j :: i in repo.activations && j in repo.activations && i != j ==>
          repo.activations[i].targetGeneration != repo.activations[j].targetGeneration)
    && Keyed(repo)
  }

  lemma {:induction false} DerivableStable(a: Repo, b: Repo, activation: Activation)
    requires Grown(a, b) && Derivable(a, activation)
    ensures Derivable(b, activation)
  {
    PolicyDigestsStable(a, b, a.bindings[activation.bindingId], Some(activation.activatedAt));
  }

  lemma {:induction false} NextGrows(repo: Repo, request: Request)
    ensures Grown(repo, Next(repo, request))
    ensures Keyed(repo) ==> Keyed(Next(repo, request))
  {
  }

  /** One request either leaves the activations alone or installs a derivable one of the next generation. */
  ghost predicate Transition(repo: Repo, next: Repo) {
    || (next.activations == repo.activations && next.generation == repo.generation)
    || (exists a: Activation ::
          && next.activations == repo.activations[a.bindingId := a]
          && Derivable(repo, a)
          && a.targetGeneration == next.generation == repo.generation + 1)
  }

  lemma {:induction false} NextIsTransition(repo: Repo, request: Request)
    ensures Transition(repo, Next(repo, request))
  {
    if request.PutActivation? && Activate(repo, request.activation).Ok? {
      assert Derivable(repo, request.activation);
    }
  }

  lemma {:induction false} TransitionStaysSound(repo: Repo, next: Repo)
    requires Sound(repo) && Grown(repo, next) && Transition(repo, next) && Keyed(next)
    ensures Sound(next)
  {
    forall id | id in next.activations ensures Derivable(next, next.activations[id]) {
      DerivableStable(repo, next, next.activations[id]);
    }
  }

  lemma {:induction false} NextStaysSound(repo: Repo, request: Request)
    requires Sound(repo)
    ensures Sound(Next(repo, request))
  {
    NextGrows(repo, request);
    NextIsTransition(repo, request);
    TransitionStaysSound(repo, Next(repo, request));
  }

  lemma {:induction false} TransitionKeepsOrReplaces(repo: Repo, next: Repo, id: string)
    requires Transition(repo, next) && id in repo.activations
    ensures id in next.activations
    ensures next.activations[id] == repo.activations[id] || next.activations[id].targetGeneration > repo.generation
  {
  }

  /**
   Over every run: what was stored stays stored unchanged, the generation never falls, and every
   activation still standing recomputes to exactly the evidence it was activated with, under a
   generation of its own.
   */
  lemma {:induction false} RunStaysSound(repo: Repo, requests: seq<Request>)
    requires Sound(repo)
    ensures Sound(Run(repo, requests)) && Grown(repo, Run(repo, requests))
    decreases |requests|
  {
    if requests == [] {
    } else {
      NextGrows(repo, requests[0]);
      NextStaysSound(repo, requests[0]);
      RunStaysSound(Next(repo, requests[0]), requests[1..]);
    }
  }

  lemma EmptyIsSound(supported: set<string>)
    ensures Sound(Empty(supported))
  {
  }

  /** From the empty store on, every standing activation recomputes to the evidence it was activated with. */
  lemma {:induction false} ActivationsStayDerivable(supported: set<string>, requests: seq<Request>)
    ensures Sound(Run(Empty(supported), requests))
  {
    EmptyIsSound(supported);
    RunStaysSound(Empty(supported), requests);
  }

  /** An activation is either untouched by a run or replaced by one of a later generation. */
  lemma {:induction false} ActivationKeptOrLater(repo: Repo, requests: seq<Request>, id: string)
    requires Sound(repo) && id in repo.activations
    ensures
      var later := Run(repo, requests);
      id in later.activations
      && (later.activations[id] == repo.activations[id] || later.activations[id].targetGeneration > repo.generation)
    decreases |requests|
  {
    if requests == [] {
    } else {
      var next := Next(repo, requests[0]);
      NextGrows(repo, requests[0]);
      NextIsTransition(repo, requests[0]);
      TransitionKeepsOrReplaces(repo, next, id);
      NextStaysSound(repo, requests[0]);
      ActivationKeptOrLater(next, requests[1..], id);
    }
  }
}
