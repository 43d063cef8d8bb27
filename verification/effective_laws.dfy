/**
 The effective policy of a binding, told from what the repository holds and from the verdict of each
 policy alone: which sources are listed, in which order, and what they come to together.
 */
module EffectiveLaws {
  import opened Common
  import opened Json
  import opened PolicyEvaluation
  import opened PolicyRepository
  import opened RoutingEnforcement
  import opened EffectivePolicies
  import Sorting

  // ---------------------------------------------------------------- the sources of a binding

  /** The stored revision a reference names. */
  predicate IsSource(repo: Repo, ref: PolicyRef, s: Source) {
    && s.ref == ref && (ref.policyId, ref.revisionId) in repo.revisions
    && s.revision == repo.revisions[(ref.policyId, ref.revisionId)]
  }

  predicate IsDirect(repo: Repo, b: Binding, i: nat, s: Source) {
    i < |b.policies| && IsSource(repo, b.policies[i], s)
  }

  /** Member `j` of the binding's set `i`, at its place in the binding's order. */
  predicate IsMember(repo: Repo, sets: seq<SetRef>, i: nat, j: nat, s: Source) {
    i < |sets| && (sets[i].setId, sets[i].revisionId) in repo.sets
    && var members := repo.sets[(sets[i].setId, sets[i].revisionId)].members;
       j < |members| && IsSource(repo, members[j].(order := sets[i].order * 10_000 + members[j].order), s)
  }

  /** The binding names it, or a set the binding names does. */
  ghost predicate Named(repo: Repo, b: Binding, s: Source) {
    (exists i: nat :: IsDirect(repo, b, i, s)) || (exists i: nat, j: nat :: IsMember(repo, b.sets, i, j, s))
  }

  /** Everything the references name is stored. */
  predicate RefsStored(repo: Repo, refs: seq<PolicyRef>) {
    forall i :: 0 <= i < |refs| ==> (refs[i].policyId, refs[i].revisionId) in repo.revisions
  }

  predicate SetsStored(repo: Repo, sets: seq<SetRef>) {
    forall i :: 0 <= i < |sets| ==>
      (sets[i].setId, sets[i].revisionId) in repo.sets
      && RefsStored(repo, repo.sets[(sets[i].setId, sets[i].revisionId)].members)
  }

  /** How many members the sets have together. */
  function MembersIn(repo: Repo, sets: seq<SetRef>): nat
    requires SetsStored(repo, sets)
  {
    if sets == [] then 0
    else
      assert SetsStored(repo, sets[1..]) by {
        assert forall i :: 0 <= i < |sets[1..]| ==> sets[1..][i] == sets[i + 1];
      }
      |repo.sets[(sets[0].setId, sets[0].revisionId)].members| + MembersIn(repo, sets[1..])
  }

  lemma {:induction false} DirectSourcesAre(repo: Repo, refs: seq<PolicyRef>)
    ensures DirectSources(repo, refs).Some? <==> RefsStored(repo, refs)
    ensures DirectSources(repo, refs).Some? ==>
              var found := DirectSources(repo, refs).value;
              |found| == |refs| && forall i :: 0 <= i < |refs| ==> IsSource(repo, refs[i], found[i])
    decreases |refs|
  {
    if refs == [] {
    } else {
      DirectSourcesAre(repo, refs[1..]);
      assert forall i :: 1 <= i < |refs| ==> refs[i] == refs[1..][i - 1];
    }
  }

  lemma {:induction false} PlacedAre(members: seq<PolicyRef>, order: nat)
    ensures
      var placed := Placed(members, order);
      |placed| == |members|
      && forall j :: 0 <= j < |members| ==> placed[j] == members[j].(order := order * 10_000 + members[j].order)
  {
    if members == [] {
    } else {
      PlacedAre(members[1..], order);
    }
  }

  lemma {:induction false} PlacedAreStored(repo: Repo, members: seq<PolicyRef>, order: nat)
    ensures RefsStored(repo, Placed(members, order)) <==> RefsStored(repo, members)
  {
    PlacedAre(members, order);
    var placed := Placed(members, order);
    assert forall j :: 0 <= j < |members| ==>
      placed[j].policyId == members[j].policyId && placed[j].revisionId == members[j].revisionId;
    if RefsStored(repo, placed) {
      forall j | 0 <= j < |members| ensures (members[j].policyId, members[j].revisionId) in repo.revisions {
        assert (placed[j].policyId, placed[j].revisionId) in repo.revisions;
      }
    }
  }

  lemma {:induction false} HeadMembersAre(repo: Repo, sets: seq<SetRef>)
    requires sets != [] && (sets[0].setId, sets[0].revisionId) in repo.sets
    ensures
      var members := repo.sets[(sets[0].setId, sets[0].revisionId)].members;
      var head := DirectSources(repo, Placed(members, sets[0].order));
      && (head.Some? <==> RefsStored(repo, members))
      && (head.Some? ==> |head.value| == |members|)
      && (head.Some? ==> forall j :: 0 <= j < |members| ==> IsMember(repo, sets, 0, j, head.value[j]))
  {
    var members := repo.sets[(sets[0].setId, sets[0].revisionId)].members;
    PlacedAre(members, sets[0].order);
    PlacedAreStored(repo, members, sets[0].order);
    DirectSourcesAre(repo, Placed(members, sets[0].order));
  }

  lemma {:induction false} SetsStoredSplit(repo: Repo, sets: seq<SetRef>)
    requires sets != []
    ensures SetsStored(repo, sets) <==>
            && (sets[0].setId, sets[0].revisionId) in repo.sets
            && RefsStored(repo, repo.sets[(sets[0].setId, sets[0].revisionId)].members)
            && SetsStored(repo, sets[1..])
  {
    assert forall i :: 1 <= i < |sets| ==> sets[i] == sets[1..][i - 1];
    assert forall i :: 0 <= i < |sets[1..]| ==> sets[1..][i] == sets[i + 1];
  }

  lemma {:induction false} SetSourcesAreStored(repo: Repo, sets: seq<SetRef>)
    ensures SetSources(repo, sets).Some? <==> SetsStored(repo, sets)
    ensures SetsStored(repo, sets) && SetSources(repo, sets).Some? ==>
              |SetSources(repo, sets).value| == MembersIn(repo, sets)
    decreases |sets|
  {
    if sets == [] {
    } else {
      SetSourcesAreStored(repo, sets[1..]);
      SetsStoredSplit(repo, sets);
      if (sets[0].setId, sets[0].revisionId) in repo.sets {
        HeadMembersAre(repo, sets);
      }
    }
  }

  ghost predicate SomeMember(repo: Repo, sets: seq<SetRef>, s: Source) {
    exists i: nat, j: nat :: IsMember(repo, sets, i, j, s)
  }

  /** A member of one of several sets is a member of the first, or of one of the others. */
  lemma {:induction false} SomeMemberSplit(repo: Repo, sets: seq<SetRef>, s: Source)
    requires sets != []
    ensures SomeMember(repo, sets, s) <==>
              (exists j: nat :: IsMember(repo, sets, 0, j, s)) || SomeMember(repo, sets[1..], s)
  {
    if SomeMember(repo, sets, s) {
      var i: nat, j: nat :| IsMember(repo, sets, i, j, s);
      assert i > 0 ==> IsMember(repo, sets[1..], i - 1, j, s);
    }
    if SomeMember(repo, sets[1..], s) {
      var i: nat, j: nat :| IsMember(repo, sets[1..], i, j, s);
      assert IsMember(repo, sets, i + 1, j, s);
    }
  }

  /** The first set's sources are its members. */
  lemma {:induction false} HeadHolds(repo: Repo, sets: seq<SetRef>, head: seq<Source>, s: Source)
    requires sets != [] && (sets[0].setId, sets[0].revisionId) in repo.sets
    requires |head| == |repo.sets[(sets[0].setId, sets[0].revisionId)].members|
    requires forall j :: 0 <= j < |head| ==> IsMember(repo, sets, 0, j, head[j])
    ensures s in head <==> exists j: nat :: IsMember(repo, sets, 0, j, s)
  {
    if s in head {
      var j :| 0 <= j < |head| && head[j] == s;
      assert IsMember(repo, sets, 0, j, s);
    }
    if j: nat :| IsMember(repo, sets, 0, j, s) {
      assert IsMember(repo, sets, 0, j, head[j]);
      assert head[j] == s;
    }
  }

  lemma {:induction false} SetSourcesHold(repo: Repo, sets: seq<SetRef>, s: Source)
    requires SetSources(repo, sets).Some?
    ensures s in SetSources(repo, sets).value <==> SomeMember(repo, sets, s)
    decreases |sets|
  {
    if sets == [] {
    } else {
      var members := repo.sets[(sets[0].setId, sets[0].revisionId)].members;
      var head := DirectSources(repo, Placed(members, sets[0].order)).value;
      HeadMembersAre(repo, sets);
      HeadHolds(repo, sets, head, s);
      SetSourcesHold(repo, sets[1..], s);
      SomeMemberSplit(repo, sets, s);
    }
  }

  lemma {:induction false} DirectSourcesHold(repo: Repo, b: Binding, s: Source)
    requires DirectSources(repo, b.policies).Some?
    ensures s in DirectSources(repo, b.policies).value <==> exists i: nat :: IsDirect(repo, b, i, s)
  {
    var found := DirectSources(repo, b.policies).value;
    DirectSourcesAre(repo, b.policies);
    if s in found {
      var i :| 0 <= i < |found| && found[i] == s;
      assert IsDirect(repo, b, i, s);
    }
    if i: nat :| IsDirect(repo, b, i, s) {
      assert IsSource(repo, b.policies[i], found[i]);
      assert found[i] == s;
    }
  }

  /**
   The sources of a binding are exactly the stored revisions it names, directly or through its
   sets, one for each naming; and they are found exactly when everything named is stored.
   */
  lemma {:induction false} SourcesAreTheNamed(repo: Repo, b: Binding)
    ensures SourcesFor(repo, b).Some? <==> RefsStored(repo, b.policies) && SetsStored(repo, b.sets)
    ensures SourcesFor(repo, b).Some? ==>
              && |SourcesFor(repo, b).value| == |b.policies| + MembersIn(repo, b.sets)
              && forall s :: s in SourcesFor(repo, b).value <==> Named(repo, b, s)
  {
    DirectSourcesAre(repo, b.policies);
    SetSourcesAreStored(repo, b.sets);
    if SourcesFor(repo, b).Some? {
      var direct, members := DirectSources(repo, b.policies).value, SetSources(repo, b.sets).value;
      forall s ensures s in SourcesFor(repo, b).value <==> Named(repo, b, s) {
        DirectSourcesHold(repo, b, s);
        SetSourcesHold(repo, b.sets, s);
        Sorting.SortKeeps(Precedes, direct + members, s);
      }
    }
  }

  // ---------------------------------------------------------------- their order

  /** Higher rank first; then the smaller order, policy and revision. */
  predicate NotAfter(a: PolicyRef, b: PolicyRef) {
    || a.rank > b.rank
    || (a.rank == b.rank && a.order < b.order)
    || (a.rank == b.rank && a.order == b.order && Before(a.policyId, b.policyId))
    || (a.rank == b.rank && a.order == b.order && a.policyId == b.policyId && !Before(b.revisionId, a.revisionId))
  }

  lemma {:induction false} NotAfterIs(x: Source, y: Source)
    ensures NotAfter(x.ref, y.ref) <==> !Precedes(y, x)
  {
    BeforeIsTotal(x.ref.policyId, y.ref.policyId);
    BeforeIsStrict(x.ref.policyId);
    if Before(x.ref.policyId, y.ref.policyId) {
      Sorting.BeforeIsAsymmetric(x.ref.policyId, y.ref.policyId);
    }
  }

  lemma {:induction false} PrecedesIsAsymmetric(x: Source, y: Source)
    requires Precedes(x, y)
    ensures !Precedes(y, x)
  {
    var a, b := x.ref, y.ref;
    if Before(a.policyId, b.policyId) {
      Sorting.BeforeIsAsymmetric(a.policyId, b.policyId);
    }
    if Before(a.revisionId, b.revisionId) {
      Sorting.BeforeIsAsymmetric(a.revisionId, b.revisionId);
    }
    BeforeIsStrict(a.policyId);
  }

  lemma {:induction false} PrecedesBetween(x: Source, y: Source, z: Source)
    requires Precedes(x, z)
    ensures Precedes(x, y) || Precedes(y, z)
  {
    var a, b, c := x.ref, y.ref, z.ref;
    if Before(a.policyId, c.policyId) {
      Sorting.BeforeBetween(a.policyId, b.policyId, c.policyId);
    }
    if Before(a.revisionId, c.revisionId) {
      Sorting.BeforeBetween(a.revisionId, b.revisionId, c.revisionId);
    }
    BeforeIsTotal(a.policyId, b.policyId);
    BeforeIsTotal(b.policyId, c.policyId);
  }

  lemma {:induction false} PrecedesIsOrder()
    ensures Sorting.WeakOrder(Precedes)
  {
    forall x, y | Precedes(x, y) ensures !Precedes(y, x) {
      PrecedesIsAsymmetric(x, y);
    }
    forall x, y, z | Precedes(x, z) ensures Precedes(x, y) || Precedes(y, z) {
      PrecedesBetween(x, y, z);
    }
  }

  /** Sources are listed by falling rank, and within a rank by order, policy and revision. */
  lemma {:induction false} SourcesAreInOrder(repo: Repo, b: Binding)
    requires SourcesFor(repo, b).Some?
    ensures
      var sources := SourcesFor(repo, b).value;
      forall i, j :: 0 <= i < j < |sources| ==> NotAfter(sources[i].ref, sources[j].ref)
  {
    var sources := SourcesFor(repo, b).value;
    PrecedesIsOrder();
    Sorting.SortAscending(Precedes, DirectSources(repo, b.policies).value + SetSources(repo, b.sets).value);
    forall i, j | 0 <= i < j < |sources| ensures NotAfter(sources[i].ref, sources[j].ref) {
      NotAfterIs(sources[i], sources[j]);
    }
  }

  // ---------------------------------------------------------------- what they come to together

  /** What the source's policy says of the facts. */
  function Says(s: Source, facts: Value): Decision {
    EvaluatePolicy(facts, s.revision.policy, DEFAULT_LIMITS).decision
  }

  /** The view lists the sources one by one, each with its own verdict. */
  predicate ListsEach(view: EffectiveView, sources: seq<Source>, facts: Value) {
    && |view.sources| == |sources|
    && forall i :: 0 <= i < |sources| ==>
         && view.sources[i].policyId == sources[i].revision.policyId
         && view.sources[i].revisionId == sources[i].revision.revisionId
         && view.sources[i].rank == sources[i].ref.rank
         && view.sources[i].mandatory == sources[i].ref.mandatory
         && view.sources[i].verdict == EvaluatePolicy(facts, sources[i].revision.policy, DEFAULT_LIMITS)
  }

  lemma {:induction false} OverallIs(sources: seq<Source>, facts: Value)
    ensures
      var overall := Overall(DecideAll(sources, facts));
      && (overall == Deny <==> exists i :: 0 <= i < |sources| && Says(sources[i], facts) == Deny)
      && (overall == Allow <==>
            sources != [] && forall i :: 0 <= i < |sources| ==> Says(sources[i], facts) == Allow)
  {
    var ds := DecideAll(sources, facts);
    assert forall i :: 0 <= i < |sources| ==> ds[i].verdict.decision == Says(sources[i], facts) && ds[i] in ds;
    if i :| 0 <= i < |sources| && Says(sources[i], facts) == Deny {
      assert ds[i] in ds;
    }
  }

  /** Only an unknown binding and a policy that is not stored are errors. */
  lemma {:induction false} EffectiveFailsExactlyWhen(repo: Repo, bindingId: string, facts: Value)
    ensures
      var r := Effective(repo, bindingId, facts);
      && (r == Err(BindingUnknown) <==> bindingId !in repo.bindings)
      && (r == Err(SourceMissing) <==>
            bindingId in repo.bindings
            && !(RefsStored(repo, repo.bindings[bindingId].policies)
                 && SetsStored(repo, repo.bindings[bindingId].sets)))
      && (r.Err? ==> r.error in {BindingUnknown, SourceMissing})
  {
    if bindingId in repo.bindings {
      SourcesAreTheNamed(repo, repo.bindings[bindingId]);
    }
  }

  /**
   The effective decision of a binding: Deny exactly when some source denies, Allow exactly when
   there is a source and every source allows, open otherwise; with each source listed beside what
   its own policy says.
   */
  lemma {:induction false} EffectiveMeans(repo: Repo, bindingId: string, facts: Value)
    requires Effective(repo, bindingId, facts).Ok?
    ensures bindingId in repo.bindings && SourcesFor(repo, repo.bindings[bindingId]).Some?
    ensures
      var view, b := Effective(repo, bindingId, facts).value, repo.bindings[bindingId];
      var sources := SourcesFor(repo, b).value;
      && view.applicationId == b.applicationId && view.bindingId == b.bindingId
      && view.bindingDigest == Sha(b) && view.factDigest == Sha(facts) && ListsEach(view, sources, facts)
      && (view.decision == Deny <==> exists i :: 0 <= i < |sources| && Says(sources[i], facts) == Deny)
      && (view.decision == Allow <==>
            sources != [] && forall i :: 0 <= i < |sources| ==> Says(sources[i], facts) == Allow)
  {
    OverallIs(SourcesFor(repo, repo.bindings[bindingId]).value, facts);
  }

  /** The second binding names all that the first does, and maybe more. */
  predicate NamesMore(more: Binding, b: Binding) {
    b.policies <= more.policies && b.sets <= more.sets
  }

  lemma {:induction false} NamedByMore(repo: Repo, b: Binding, more: Binding, s: Source)
    requires NamesMore(more, b) && Named(repo, b, s)
    ensures Named(repo, more, s)
  {
    if i: nat :| IsDirect(repo, b, i, s) {
      assert IsDirect(repo, more, i, s);
    } else {
      var i: nat, j: nat :| IsMember(repo, b.sets, i, j, s);
      assert IsMember(repo, more.sets, i, j, s);
    }
  }

  lemma {:induction false} NamingMoreAddsSources(repo: Repo, b: Binding, more: Binding)
    requires NamesMore(more, b) && SourcesFor(repo, b).Some? && SourcesFor(repo, more).Some?
    ensures forall s :: s in SourcesFor(repo, b).value ==> s in SourcesFor(repo, more).value
  {
    SourcesAreTheNamed(repo, b);
    SourcesAreTheNamed(repo, more);
    forall s | s in SourcesFor(repo, b).value ensures s in SourcesFor(repo, more).value {
      NamedByMore(repo, b, more, s);
    }
  }

  /** Naming more policies never lifts a denial, and never turns the answer of a binding with sources into an allow. */
  lemma {:induction false} NamingMoreNeverLoosens(repo: Repo, bindingId: string, moreId: string, facts: Value)
    requires Effective(repo, bindingId, facts).Ok? && Effective(repo, moreId, facts).Ok?
    requires bindingId in repo.bindings && moreId in repo.bindings
             && NamesMore(repo.bindings[moreId], repo.bindings[bindingId])
    ensures
      var view, more := Effective(repo, bindingId, facts).value, Effective(repo, moreId, facts).value;
      && (view.decision == Deny ==> more.decision == Deny)
      && (more.decision == Allow && view.sources != [] ==> view.decision == Allow)
  {
    EffectiveMeans(repo, bindingId, facts);
    EffectiveMeans(repo, moreId, facts);
    NamingMoreAddsSources(repo, repo.bindings[bindingId], repo.bindings[moreId]);
    var few, many := SourcesFor(repo, repo.bindings[bindingId]).value, SourcesFor(repo, repo.bindings[moreId]).value;
    forall i | 0 <= i < |few| ensures exists j :: 0 <= j < |many| && many[j] == few[i] {
      assert few[i] in many;
    }
  }
}
