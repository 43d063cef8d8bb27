/**
 What the policy repository stores and activates: told from the documents and from what is stored
 already.
 */
module RepositoryLaws {
  import opened Common
  import opened Json
  import opened PolicyRepository

  // ---------------------------------------------------------------- documents

  /** Nothing in it must be understood that is not. */
  predicate Understood(extensions: seq<Extension>, supported: set<string>) {
    forall e :: e in extensions ==> e.id in supported || e.level in {OptionalIgnorable, OptionalNegotiable}
  }

  /** A window that is not empty. */
  predicate Opens(from: Option<nat>, until: Option<nat>) {
    from.None? || until.None? || from.value < until.value
  }

  lemma {:induction false} UnderstoodIff(extensions: seq<Extension>, supported: set<string>)
    ensures UnsupportedExtension(extensions, supported).None? <==> Understood(extensions, supported)
    ensures UnsupportedExtension(extensions, supported).Some? ==>
              UnsupportedExtension(extensions, supported).value.UnsupportedRequiredExtension?
  {
    AllSupportedIff(extensions, supported);
    forall e: Extension
      ensures !MustUnderstand(e, supported) <==>
              e.id in supported || e.level in {OptionalIgnorable, OptionalNegotiable}
    {
    }
  }

  /** Versioned, named, and valid for some time. */
  predicate GoodRevision(r: Revision) {
    && r.schemaVersion == "1"
    && !Blank(r.policyId) && !Blank(r.revisionId) && !Blank(r.authority) && !Blank(r.scope)
    && Opens(r.validFrom, r.validUntil)
  }

  /** Versioned and named, of named members that differ in identity and in order. */
  predicate GoodSet(s: PolicySet) {
    && s.schemaVersion == "1" && !Blank(s.setId) && !Blank(s.revisionId) && !Blank(s.authority)
    && (forall m :: m in s.members ==> !Blank(m.policyId) && !Blank(m.revisionId))
    && forall i, j :: 0 <= i < j < |s.members| ==>
         && s.members[i].order != s.members[j].order
         && (s.members[i].policyId != s.members[j].policyId || s.members[i].revisionId != s.members[j].revisionId)
  }

  lemma {:induction false} GoodSetIff(s: PolicySet)
    ensures SetFault(s).None? <==> GoodSet(s)
  {
    MembersPassIff(s.members, {}, {});
    assert NoClash(s.members) <==>
      forall i, j :: 0 <= i < j < |s.members| ==>
        && s.members[i].order != s.members[j].order
        && (s.members[i].policyId != s.members[j].policyId || s.members[i].revisionId != s.members[j].revisionId);
  }

  predicate PoliciesNamed(refs: seq<PolicyRef>) {
    forall i :: 0 <= i < |refs| ==> !Blank(refs[i].policyId) && !Blank(refs[i].revisionId)
  }

  predicate SetsNamed(refs: seq<SetRef>) {
    forall i :: 0 <= i < |refs| ==> !Blank(refs[i].setId) && !Blank(refs[i].revisionId)
  }

  /** The places in the binding's order that its policies, and then its sets, take. */
  function Places(policies: seq<PolicyRef>, sets: seq<SetRef>): seq<nat> {
    seq(|policies|, i requires 0 <= i < |policies| => policies[i].order)
    + seq(|sets|, i requires 0 <= i < |sets| => sets[i].order)
  }

  /** Versioned, named, valid for some time, of named policies and sets that each have a place of their own. */
  predicate GoodBinding(b: Binding) {
    && b.schemaVersion == "1" && !Blank(b.bindingId) && !Blank(b.applicationId) && !Blank(b.authority)
    && Opens(b.validFrom, b.validUntil)
    && PoliciesNamed(b.policies) && SetsNamed(b.sets) && NoRepeat(Places(b.policies, b.sets))
  }

  predicate Avoids(orders: seq<nat>, taken: set<nat>) {
    forall i :: 0 <= i < |orders| ==> orders[i] !in taken
  }

  lemma {:induction false} NoRepeatSplit(first: nat, rest: seq<nat>, taken: set<nat>)
    ensures NoRepeat([first] + rest) && Avoids([first] + rest, taken) <==>
            first !in taken && NoRepeat(rest) && Avoids(rest, taken + {first})
  {
    var all := [first] + rest;
    assert forall j :: 1 <= j < |all| ==> all[j] == rest[j - 1];
    if NoRepeat(all) && Avoids(all, taken) {
      forall i, j | 0 <= i < j < |rest| ensures rest[i] != rest[j] {
        assert all[i + 1] == rest[i] && all[j + 1] == rest[j];
      }
      forall j | 0 <= j < |rest| ensures rest[j] !in taken + {first} {
        assert all[j + 1] == rest[j] && all[0] == first;
      }
    }
    if first !in taken && NoRepeat(rest) && Avoids(rest, taken + {first}) {
      forall i, j | 0 <= i < j < |all| ensures all[i] != all[j] {
        assert all[j] == rest[j - 1] && rest[j - 1] !in taken + {first};
        assert i > 0 ==> all[i] == rest[i - 1];
      }
    }
  }

  lemma {:induction false} SetPlacesIff(sets: seq<SetRef>, taken: set<nat>)
    ensures SetRefOrders(sets, taken).Some? <==>
            SetsNamed(sets) && NoRepeat(Places([], sets)) && Avoids(Places([], sets), taken)
    decreases |sets|
  {
    if sets == [] {
    } else {
      SetPlacesIff(sets[1..], taken + {sets[0].order});
      NoRepeatSplit(sets[0].order, Places([], sets[1..]), taken);
      assert Places([], sets) == [sets[0].order] + Places([], sets[1..]);
      assert forall i :: 1 <= i < |sets| ==> sets[i] == sets[1..][i - 1];
    }
  }

  lemma {:induction false} PlacesIff(policies: seq<PolicyRef>, sets: seq<SetRef>, taken: set<nat>)
    ensures
      var orders := PolicyRefOrders(policies, taken);
      orders.Some? && SetRefOrders(sets, orders.value).Some? <==>
        && PoliciesNamed(policies) && SetsNamed(sets)
        && NoRepeat(Places(policies, sets)) && Avoids(Places(policies, sets), taken)
    decreases |policies|
  {
    if policies == [] {
      SetPlacesIff(sets, taken);
      assert Places(policies, sets) == Places([], sets);
    } else {
      PlacesIff(policies[1..], sets, taken + {policies[0].order});
      NoRepeatSplit(policies[0].order, Places(policies[1..], sets), taken);
      assert Places(policies, sets) == [policies[0].order] + Places(policies[1..], sets);
      assert forall i :: 1 <= i < |policies| ==> policies[i] == policies[1..][i - 1];
    }
  }

  lemma {:induction false} GoodBindingIff(b: Binding)
    ensures BindingFault(b).None? <==> GoodBinding(b)
  {
    PlacesIff(b.policies, b.sets, {});
  }

  // ---------------------------------------------------------------- storing

  /**
   A revision is stored exactly when it is good and understood and no other has its identity; the
   same again changes nothing.
   */
  lemma {:induction false} RevisionStoredExactlyWhen(repo: Repo, r: Revision)
    ensures
      var stored, key := StoreRevision(repo, r), (r.policyId, r.revisionId);
      && (stored.Ok? <==>
            && GoodRevision(r) && Understood(r.extensions, repo.supported)
            && (key in repo.revisions ==> repo.revisions[key] == r))
      && (stored.Ok? ==> stored.value == repo.(revisions := repo.revisions[key := r]))
      && (stored == Err(DigestMismatch) <==>
            && GoodRevision(r) && Understood(r.extensions, repo.supported)
            && key in repo.revisions && repo.revisions[key] != r)
  {
    UnderstoodIff(r.extensions, repo.supported);
    var key := (r.policyId, r.revisionId);
    if key in repo.revisions && repo.revisions[key] == r {
      assert repo.revisions[key := r] == repo.revisions;
    }
  }

  /** A set likewise, once everything it names is stored. */
  lemma {:induction false} SetStoredExactlyWhen(repo: Repo, s: PolicySet)
    ensures
      var stored, key := StoreSet(repo, s), (s.setId, s.revisionId);
      && (stored.Ok? <==>
            && GoodSet(s) && Understood(s.extensions, repo.supported)
            && (forall m :: m in s.members ==> (m.policyId, m.revisionId) in repo.revisions)
            && (key in repo.sets ==> repo.sets[key] == s))
      && (stored.Ok? ==> stored.value == repo.(sets := repo.sets[key := s]))
  {
    GoodSetIff(s);
    UnderstoodIff(s.extensions, repo.supported);
    var key := (s.setId, s.revisionId);
    if key in repo.sets && repo.sets[key] == s {
      assert repo.sets[key := s] == repo.sets;
    }
  }

  /** And a binding. */
  lemma {:induction false} BindingStoredExactlyWhen(repo: Repo, b: Binding)
    ensures
      var stored := StoreBinding(repo, b);
      && (stored.Ok? <==>
            && GoodBinding(b) && Understood(b.extensions, repo.supported)
            && (forall r :: r in b.policies ==> (r.policyId, r.revisionId) in repo.revisions)
            && (forall r :: r in b.sets ==> (r.setId, r.revisionId) in repo.sets)
            && (b.bindingId in repo.bindings ==> repo.bindings[b.bindingId] == b))
      && (stored.Ok? ==> stored.value == repo.(bindings := repo.bindings[b.bindingId := b]))
  {
    GoodBindingIff(b);
    UnderstoodIff(b.extensions, repo.supported);
    if b.bindingId in repo.bindings && repo.bindings[b.bindingId] == b {
      assert repo.bindings[b.bindingId := b] == repo.bindings;
    }
  }

  // ---------------------------------------------------------------- how storing is refused

  /** The first extension that must be understood and is not. */
  predicate FirstUnknown(extensions: seq<Extension>, supported: set<string>, k: nat) {
    && k < |extensions| && extensions[k].id !in supported
    && extensions[k].level in {RequiredUnderstood, RequiredSecurityCritical}
    && forall j :: 0 <= j < k ==>
         extensions[j].id in supported || extensions[j].level in {OptionalIgnorable, OptionalNegotiable}
  }

  lemma {:induction false} FirstUnknownIsReported(extensions: seq<Extension>, supported: set<string>, k: nat)
    requires FirstUnknown(extensions, supported, k)
    ensures UnsupportedExtension(extensions, supported) == Some(UnsupportedRequiredExtension(extensions[k].id))
  {
    FirstUnsupportedIs(extensions, supported, k);
  }

  predicate RevisionNamed(r: Revision) {
    !Blank(r.policyId) && !Blank(r.revisionId) && !Blank(r.authority) && !Blank(r.scope)
  }

  /** A revision is refused for its version, then its names, its window, an extension, and another of its identity. */
  lemma {:induction false} RevisionRefusedAs(repo: Repo, r: Revision)
    requires StoreRevision(repo, r).Err?
    ensures
      Some(StoreRevision(repo, r).error)
      == (if r.schemaVersion != "1" then Some(UnsupportedVersion)
          else if !RevisionNamed(r) then Some(EmptyIdentifier)
          else if !Opens(r.validFrom, r.validUntil) then Some(InvalidValidity)
          else if !Understood(r.extensions, repo.supported) then UnsupportedExtension(r.extensions, repo.supported)
          else Some(DigestMismatch))
  {
    UnderstoodIff(r.extensions, repo.supported);
  }

  predicate MemberNamed(m: PolicyRef) {
    !Blank(m.policyId) && !Blank(m.revisionId)
  }

  predicate Fine(members: seq<PolicyRef>, k: nat)
    requires k < |members|
  {
    MemberNamed(members[k]) && forall j :: 0 <= j < k ==> !Clash(members[j], members[k])
  }

  /** Member `k` is the first that is unnamed or clashes with one before it. */
  predicate FirstBadMember(members: seq<PolicyRef>, k: nat) {
    && k < |members| && !Fine(members, k) && forall j :: 0 <= j < k ==> Fine(members, j)
  }

  /** Member `k` is named and clashes with none of the ids and orders, and with none before it. */
  predicate FineBeside(members: seq<PolicyRef>, k: nat, ids: set<(string, string)>, orders: set<nat>)
    requires k < |members|
  {
    && Fine(members, k)
    && (members[k].policyId, members[k].revisionId) !in ids && members[k].order !in orders
  }

  lemma {:induction false} FineBesideFirst(m: PolicyRef, rest: seq<PolicyRef>, ids: set<(string, string)>,
        orders: set<nat>, j: nat)
    requires j < |rest|
    ensures FineBeside(rest, j, ids + {(m.policyId, m.revisionId)}, orders + {m.order})
            <==> FineBeside([m] + rest, j + 1, ids, orders)
  {
    var all := [m] + rest;
    assert all[j + 1] == rest[j] && all[0] == m;
    assert forall i :: 0 <= i < j ==> all[i + 1] == rest[i];
    if FineBeside(rest, j, ids + {(m.policyId, m.revisionId)}, orders + {m.order}) {
      forall i | 0 <= i < j + 1 ensures !Clash(all[i], all[j + 1]) {
        assert i > 0 ==> all[i] == rest[i - 1];
      }
    }
    if FineBeside(all, j + 1, ids, orders) {
      assert !Clash(all[0], all[j + 1]);
      forall i | 0 <= i < j ensures !Clash(rest[i], rest[j]) {
        assert !Clash(all[i + 1], all[j + 1]);
      }
    }
  }

  lemma {:induction false} BadMemberIsReported(members: seq<PolicyRef>, ids: set<(string, string)>, orders: set<nat>,
        k: nat)
    requires k < |members| && !FineBeside(members, k, ids, orders)
    requires forall j :: 0 <= j < k ==> FineBeside(members, j, ids, orders)
    ensures MemberFault(members, ids, orders)
            == Some(if MemberNamed(members[k]) then DuplicateMember else EmptyIdentifier)
    decreases k
  {
    if k == 0 {
    } else {
      var m, rest := members[0], members[1..];
      var moreIds, moreOrders := ids + {(m.policyId, m.revisionId)}, orders + {m.order};
      assert FineBeside(members, 0, ids, orders);
      forall j | 0 <= j < |rest|
        ensures FineBeside(rest, j, moreIds, moreOrders) <==> FineBeside(members, j + 1, ids, orders)
      {
        FineBesideFirst(m, rest, ids, orders, j);
        assert [m] + rest == members;
      }
      BadMemberIsReported(rest, moreIds, moreOrders, k - 1);
    }
  }

  predicate SetNamed(s: PolicySet) {
    !Blank(s.setId) && !Blank(s.revisionId) && !Blank(s.authority)
  }

  /**
   A set is refused for its version, its names, its first bad member, an extension, a member not
   stored, another set.
   */
  lemma {:induction false} SetRefusedAs(repo: Repo, s: PolicySet)
    requires StoreSet(repo, s).Err?
    ensures
      var error := StoreSet(repo, s).error;
      && (s.schemaVersion != "1" ==> error == UnsupportedVersion)
      && (s.schemaVersion == "1" && !SetNamed(s) ==> error == EmptyIdentifier)
      && (s.schemaVersion == "1" && SetNamed(s) ==>
            && (forall k: nat :: FirstBadMember(s.members, k) ==>
                  error == if MemberNamed(s.members[k]) then DuplicateMember else EmptyIdentifier)
            && (GoodSet(s) ==>
                  Some(error)
                  == (if !Understood(s.extensions, repo.supported)
                      then UnsupportedExtension(s.extensions, repo.supported)
                      else if exists m :: m in s.members && (m.policyId, m.revisionId) !in repo.revisions
                      then Some(RevisionNotFound) else Some(DigestMismatch))))
  {
    GoodSetIff(s);
    UnderstoodIff(s.extensions, repo.supported);
    if s.schemaVersion == "1" && SetNamed(s) {
      forall k: nat | FirstBadMember(s.members, k)
        ensures StoreSet(repo, s).error == if MemberNamed(s.members[k]) then DuplicateMember else EmptyIdentifier
      {
        assert forall j :: 0 <= j < k ==> Fine(s.members, j);
        BadMemberIsReported(s.members, {}, {}, k);
      }
    }
  }

  predicate BindingNamed(b: Binding) {
    !Blank(b.bindingId) && !Blank(b.applicationId) && !Blank(b.authority)
  }

  /** A binding likewise; what it names must be stored, policies before sets. */
  lemma {:induction false} BindingRefusedAs(repo: Repo, b: Binding)
    requires StoreBinding(repo, b).Err?
    ensures
      Some(StoreBinding(repo, b).error)
      == (if b.schemaVersion != "1" then Some(UnsupportedVersion)
          else if !BindingNamed(b) then Some(EmptyIdentifier)
          else if !Opens(b.validFrom, b.validUntil) then Some(InvalidValidity)
          else if !GoodBinding(b) then Some(DuplicateMember)
          else if !Understood(b.extensions, repo.supported) then UnsupportedExtension(b.extensions, repo.supported)
          else if exists r :: r in b.policies && (r.policyId, r.revisionId) !in repo.revisions
          then Some(RevisionNotFound)
          else if exists r :: r in b.sets && (r.setId, r.revisionId) !in repo.sets then Some(SetNotFound)
          else Some(DigestMismatch))
  {
    GoodBindingIff(b);
    UnderstoodIff(b.extensions, repo.supported);
  }

  // ---------------------------------------------------------------- activating

  ghost predicate ReachesBySet(repo: Repo, sets: seq<SetRef>, ref: PolicyRef) {
    exists i :: 0 <= i < |sets| && (sets[i].setId, sets[i].revisionId) in repo.sets
                && ref in repo.sets[(sets[i].setId, sets[i].revisionId)].members
  }

  /** The references a binding reaches: its own, and those of its sets. */
  ghost predicate Reaches(repo: Repo, b: Binding, ref: PolicyRef) {
    ref in b.policies || ReachesBySet(repo, b.sets, ref)
  }

  /** The revision is stored, neither invalid nor archived, and in force at the time, if one is given. */
  predicate CanActivate(repo: Repo, ref: PolicyRef, at: Option<nat>) {
    var key := (ref.policyId, ref.revisionId);
    && key in repo.revisions
    && repo.revisions[key].standing != Invalid && repo.revisions[key].standing != Archived
    && (at.Some? && repo.revisions[key].validFrom.Some? ==> repo.revisions[key].validFrom.value <= at.value)
    && (at.Some? && repo.revisions[key].validUntil.Some? ==> at.value < repo.revisions[key].validUntil.value)
  }

  /** The name a reference's digest is listed under. */
  function NameOf(ref: PolicyRef): string {
    ref.policyId + "@" + ref.revisionId
  }

  /** The digest is that of a stored revision of that name among the references. */
  ghost predicate ListedFrom(repo: Repo, refs: seq<PolicyRef>, name: string, digest: Digest<Revision>) {
    exists ref :: ref in refs && NameOf(ref) == name && (ref.policyId, ref.revisionId) in repo.revisions
                  && digest == Sha(repo.revisions[(ref.policyId, ref.revisionId)])
  }

  /** What the others leave listed, with the first reference listed before them. */
  lemma {:induction false} ListedWithFirst(repo: Repo, ref: PolicyRef, rest: seq<PolicyRef>, sofar: RevisionDigests,
        digests: RevisionDigests)
    requires (ref.policyId, ref.revisionId) in repo.revisions
    requires
      var next := sofar[NameOf(ref) := Sha(repo.revisions[(ref.policyId, ref.revisionId)])];
      forall name :: name in digests ==>
        ListedFrom(repo, rest, name, digests[name]) || (name in next && digests[name] == next[name])
    ensures forall name :: name in digests ==>
              ListedFrom(repo, [ref] + rest, name, digests[name]) || (name in sofar && digests[name] == sofar[name])
  {
    forall name | name in digests
      ensures ListedFrom(repo, [ref] + rest, name, digests[name]) || (name in sofar && digests[name] == sofar[name])
    {
      if ListedFrom(repo, rest, name, digests[name]) {
        var other :| other in rest && NameOf(other) == name
                     && (other.policyId, other.revisionId) in repo.revisions
                     && digests[name] == Sha(repo.revisions[(other.policyId, other.revisionId)]);
        assert other in [ref] + rest;
      } else if name == NameOf(ref) {
        assert ref in [ref] + rest;
      }
    }
  }

  lemma {:induction false} DigestRefsAre(repo: Repo, refs: seq<PolicyRef>, at: Option<nat>, sofar: RevisionDigests)
    ensures DigestRefs(repo, refs, at, sofar).Ok? <==> forall ref :: ref in refs ==> CanActivate(repo, ref, at)
    ensures DigestRefs(repo, refs, at, sofar).Ok? ==>
              var digests := DigestRefs(repo, refs, at, sofar).value;
              && (forall ref :: ref in refs ==> NameOf(ref) in digests)
              && (forall name :: name in sofar ==> name in digests)
              && forall name :: name in digests ==>
                   ListedFrom(repo, refs, name, digests[name]) || (name in sofar && digests[name] == sofar[name])
    decreases |refs|
  {
    if refs == [] {
    } else {
      var ref, rest := refs[0], refs[1..];
      var key := (ref.policyId, ref.revisionId);
      assert refs == [ref] + rest;
      if CanActivate(repo, ref, at) {
        var next := sofar[NameOf(ref) := Sha(repo.revisions[key])];
        DigestRefsAre(repo, rest, at, next);
        if DigestRefs(repo, rest, at, next).Ok? {
          ListedWithFirst(repo, ref, rest, sofar, DigestRefs(repo, rest, at, next).value);
        }
      }
    }
  }

  lemma {:induction false} DigestRefsChain(repo: Repo, first: seq<PolicyRef>, second: seq<PolicyRef>, at: Option<nat>,
        sofar: RevisionDigests)
    ensures DigestRefs(repo, first + second, at, sofar)
            == match DigestRefs(repo, first, at, sofar)
               case Err(e) => Err(e)
               case Ok(next) => DigestRefs(repo, second, at, next)
    decreases |first|
  {
    if first == [] {
      assert first + second == second;
    } else {
      assert (first + second)[0] == first[0] && (first + second)[1..] == first[1..] + second;
      var key := (first[0].policyId, first[0].revisionId);
      if key in repo.revisions {
        DigestRefsChain(repo, first[1..], second, at, sofar[Identity(key.0, key.1) := Sha(repo.revisions[key])]);
      }
    }
  }

  predicate SetsHeld(repo: Repo, sets: seq<SetRef>) {
    forall i :: 0 <= i < |sets| ==> (sets[i].setId, sets[i].revisionId) in repo.sets
  }

  /** The members of the sets, one set after the other. */
  function MembersOf(repo: Repo, sets: seq<SetRef>): seq<PolicyRef>
    requires SetsHeld(repo, sets)
  {
    if sets == [] then [] else repo.sets[(sets[0].setId, sets[0].revisionId)].members + MembersOf(repo, sets[1..])
  }

  lemma {:induction false} MembersAreReached(repo: Repo, sets: seq<SetRef>, ref: PolicyRef)
    requires SetsHeld(repo, sets)
    ensures ref in MembersOf(repo, sets) <==> ReachesBySet(repo, sets, ref)
    decreases |sets|
  {
    if sets == [] {
    } else {
      var rest := sets[1..];
      MembersAreReached(repo, rest, ref);
      assert forall i :: 1 <= i < |sets| ==> sets[i] == rest[i - 1];
      if ReachesBySet(repo, rest, ref) {
        var i :| 0 <= i < |rest| && ref in repo.sets[(rest[i].setId, rest[i].revisionId)].members;
        assert ref in repo.sets[(sets[i + 1].setId, sets[i + 1].revisionId)].members;
      }
    }
  }

  lemma {:induction false} DigestSetsAre(repo: Repo, sets: seq<SetRef>, at: Option<nat>, sofar: RevisionDigests)
    ensures DigestSets(repo, sets, at, sofar).Ok? ==> SetsHeld(repo, sets)
    ensures SetsHeld(repo, sets) ==>
              DigestSets(repo, sets, at, sofar) == DigestRefs(repo, MembersOf(repo, sets), at, sofar)
    decreases |sets|
  {
    if sets == [] {
    } else if (sets[0].setId, sets[0].revisionId) in repo.sets {
      var members := repo.sets[(sets[0].setId, sets[0].revisionId)].members;
      var next := DigestRefs(repo, members, at, sofar);
      assert forall i :: 1 <= i < |sets| ==> sets[i] == sets[1..][i - 1];
      if next.Ok? {
        DigestSetsAre(repo, sets[1..], at, next.value);
      }
      if SetsHeld(repo, sets) {
        DigestRefsChain(repo, members, MembersOf(repo, sets[1..]), at, sofar);
      }
    }
  }

  /** Each revision reached is listed under its name, and what is listed is the digest of one of that name. */
  ghost predicate ListsReached(repo: Repo, b: Binding, digests: RevisionDigests) {
    && (forall ref :: Reaches(repo, b, ref) ==> NameOf(ref) in digests)
    && forall name :: name in digests ==>
         exists ref :: Reaches(repo, b, ref) && NameOf(ref) == name
                       && (ref.policyId, ref.revisionId) in repo.revisions
                       && digests[name] == Sha(repo.revisions[(ref.policyId, ref.revisionId)])
  }

  /** The digests of a binding are found exactly when its sets are stored and all it reaches can be activated. */
  lemma {:induction false} DigestsFoundExactlyWhen(repo: Repo, b: Binding, at: Option<nat>)
    ensures PolicyDigests(repo, b, at).Ok? <==>
            SetsHeld(repo, b.sets) && forall ref :: Reaches(repo, b, ref) ==> CanActivate(repo, ref, at)
    ensures PolicyDigests(repo, b, at).Ok? ==> ListsReached(repo, b, PolicyDigests(repo, b, at).value)
  {
    var direct := DigestRefs(repo, b.policies, at, map[]);
    if direct.Ok? {
      DigestSetsAre(repo, b.sets, at, direct.value);
    }
    DigestRefsAre(repo, b.policies, at, map[]);
    if SetsHeld(repo, b.sets) {
      var all := b.policies + MembersOf(repo, b.sets);
      DigestRefsChain(repo, b.policies, MembersOf(repo, b.sets), at, map[]);
      DigestRefsAre(repo, all, at, map[]);
      forall ref ensures ref in all <==> Reaches(repo, b, ref) {
        MembersAreReached(repo, b.sets, ref);
      }
    }
  }

  /** The activation is versioned and named, and does not end before it begins. */
  predicate GoodActivation(a: Activation) {
    && a.schemaVersion == "1" && !Blank(a.activationId) && !Blank(a.bindingId) && !Blank(a.authority)
    && (a.validUntil.Some? ==> a.activatedAt < a.validUntil.value)
  }

  /** The binding is stored as the activation saw it, and in force when it activates. */
  predicate Activates(repo: Repo, a: Activation) {
    && a.bindingId in repo.bindings
    && var b := repo.bindings[a.bindingId];
       && a.bindingDigest == Sha(b)
       && (b.validFrom.Some? ==> b.validFrom.value <= a.activatedAt)
       && (b.validUntil.Some? ==> a.activatedAt < b.validUntil.value)
  }

  /**
   An activation is taken exactly when it is good, made for the next generation, of the binding as it
   is stored and in force, with the digests of all that the binding reaches, each of which can be
   activated then. It replaces the binding's activation and takes the generation; nothing else changes.
   */
  lemma {:induction false} ActivatedExactlyWhen(repo: Repo, a: Activation)
    ensures
      var activated := Activate(repo, a);
      && (activated.Ok? <==>
            && GoodActivation(a) && a.expectedGeneration == repo.generation
            && a.targetGeneration == repo.generation + 1
            && Activates(repo, a)
            && PolicyDigests(repo, repo.bindings[a.bindingId], Some(a.activatedAt)) == Ok(a.revisionDigests))
      && (activated.Ok? ==>
            && activated.value
               == repo.(generation := repo.generation + 1, activations := repo.activations[a.bindingId := a])
            && ListsReached(repo, repo.bindings[a.bindingId], a.revisionDigests)
            && forall ref :: Reaches(repo, repo.bindings[a.bindingId], ref) ==>
                 CanActivate(repo, ref, Some(a.activatedAt)))
      && (a.expectedGeneration != repo.generation ==> activated == Err(StaleGeneration))
  {
    if a.bindingId in repo.bindings {
      DigestsFoundExactlyWhen(repo, repo.bindings[a.bindingId], Some(a.activatedAt));
    }
  }

  /** Reference `k` is the first that cannot be activated. */
  predicate FirstBadRef(repo: Repo, refs: seq<PolicyRef>, at: Option<nat>, k: nat) {
    k < |refs| && !CanActivate(repo, refs[k], at) && forall j :: 0 <= j < k ==> CanActivate(repo, refs[j], at)
  }

  /** What is wrong with the first reference that cannot be activated. */
  lemma {:induction false} FirstRefIsReported(repo: Repo, refs: seq<PolicyRef>, at: Option<nat>, sofar: RevisionDigests,
        k: nat)
    requires FirstBadRef(repo, refs, at, k)
    ensures DigestRefs(repo, refs, at, sofar)
            == Err(if (refs[k].policyId, refs[k].revisionId) in repo.revisions then InvalidActivation
                   else RevisionNotFound)
    decreases k
  {
    if k == 0 {
    } else {
      var key := (refs[0].policyId, refs[0].revisionId);
      assert CanActivate(repo, refs[0], at);
      assert forall j :: 0 <= j < |refs[1..]| ==> refs[1..][j] == refs[j + 1];
      FirstRefIsReported(repo, refs[1..], at, sofar[Identity(key.0, key.1) := Sha(repo.revisions[key])], k - 1);
    }
  }

  /**
   An activation is refused for its generation, then as invalid, for an unknown binding, for one that
   differs, for the time, as its digests are, and for digests that differ.
   */
  lemma {:induction false} ActivationRefusedAs(repo: Repo, a: Activation)
    requires Activate(repo, a).Err?
    ensures
      var error := Activate(repo, a).error;
      if a.expectedGeneration != repo.generation then error == StaleGeneration
      else if !GoodActivation(a) || a.targetGeneration != repo.generation + 1 then error == InvalidActivation
      else if a.bindingId !in repo.bindings then error == BindingNotFound
      else if a.bindingDigest != Sha(repo.bindings[a.bindingId]) then error == DigestMismatch
      else if !Activates(repo, a) then error == InvalidActivation
      else
        var digests := PolicyDigests(repo, repo.bindings[a.bindingId], Some(a.activatedAt));
        error == if digests.Err? then digests.error else DigestMismatch
  {
  }

  /** The digests of a binding are refused for its first own reference at fault, before any of its sets. */
  lemma {:induction false} DigestsRefusedAs(repo: Repo, b: Binding, at: Option<nat>, k: nat)
    requires FirstBadRef(repo, b.policies, at, k)
    ensures PolicyDigests(repo, b, at)
            == Err(if (b.policies[k].policyId, b.policies[k].revisionId) in repo.revisions then InvalidActivation
                   else RevisionNotFound)
  {
    FirstRefIsReported(repo, b.policies, at, map[], k);
  }

  lemma {:induction false} UnknownSetIsReported(repo: Repo, sets: seq<SetRef>, at: Option<nat>, sofar: RevisionDigests,
        k: nat)
    requires k < |sets| && (sets[k].setId, sets[k].revisionId) !in repo.sets
    requires forall j :: 0 <= j < k ==> (sets[j].setId, sets[j].revisionId) in repo.sets
    requires forall ref :: ReachesBySet(repo, sets, ref) ==> CanActivate(repo, ref, at)
    ensures DigestSets(repo, sets, at, sofar) == Err(SetNotFound)
    decreases k
  {
    if k == 0 {
    } else {
      var members, rest := repo.sets[(sets[0].setId, sets[0].revisionId)].members, sets[1..];
      assert forall j :: 0 <= j < |rest| ==> rest[j] == sets[j + 1];
      forall ref | ref in members ensures CanActivate(repo, ref, at) {
        assert ReachesBySet(repo, sets, ref);
      }
      forall ref | ReachesBySet(repo, rest, ref) ensures CanActivate(repo, ref, at) {
        var i :| 0 <= i < |rest| && (rest[i].setId, rest[i].revisionId) in repo.sets
                 && ref in repo.sets[(rest[i].setId, rest[i].revisionId)].members;
        assert sets[i + 1] == rest[i];
      }
      DigestRefsAre(repo, members, at, sofar);
      UnknownSetIsReported(repo, rest, at, DigestRefs(repo, members, at, sofar).value, k - 1);
    }
  }
}
