/**
 When a routing projection is produced, and what it then says: told from the clock, the evidence of
 candidates, the binding with its activation, and the policies themselves.
 */
module RoutingLaws {
  import opened Common
  import opened Json
  import opened PolicyRepository
  import opened RoutingPolicies
  import opened RoutingEnforcement
  import PE = PolicyEvidence
  import RP = RoutingProjection

  // ---------------------------------------------------------------- the evidence of candidates

  /** The evidence covers the whole window and is no older than it may be. */
  predicate Current(e: Evidence, issuedAt: nat, expiresAt: nat) {
    e.observedAt <= issuedAt < e.expiresAt && expiresAt <= e.expiresAt && e.expiresAt - e.observedAt <= 300
  }

  /** 64 lower-case hexadecimal digits each. */
  predicate Hexadecimal(refs: seq<string>) {
    forall i :: 0 <= i < |refs| ==>
      |refs[i]| == 64 && forall k :: 0 <= k < 64 ==> '0' <= refs[i][k] <= '9' || 'a' <= refs[i][k] <= 'f'
  }

  /** Up to 10000 different candidates, each named by its digest. */
  predicate NamesCandidates(e: Evidence) {
    |e.eligible| <= 10_000 && NoRepeat(e.eligible) && Hexadecimal(e.eligible)
  }

  /** A lower-case letter or a digit, or, further on, one of three marks. */
  predicate SourceLetter(c: char, first: bool) {
    'a' <= c <= 'z' || '0' <= c <= '9' || (!first && c in {'_', '.', '-'})
  }

  /** Of the one version, from a source named in at most 128 such letters. */
  predicate FromKnownSource(e: Evidence) {
    && e.schemaVersion == "iicp.management-routing-candidate-evidence.v1"
    && 0 < |e.source| <= 128 && forall k :: 0 <= k < |e.source| ==> SourceLetter(e.source[k], k == 0)
  }

  lemma {:induction false} KnownSourceIff(e: Evidence)
    ensures FromKnownSource(e) <==> e.schemaVersion == EVIDENCE_SCHEMA && ValidSource(e.source)
  {
    if ValidSource(e.source) {
      assert forall k :: 0 <= k < |e.source| ==> e.source[k] in e.source;
    }
    if FromKnownSource(e) {
      forall c | c in e.source ensures SourceChar(c) {
        var k :| 0 <= k < |e.source| && e.source[k] == c;
        assert SourceLetter(e.source[k], k == 0);
      }
      assert SourceLetter(e.source[0], true);
    }
  }

  lemma {:induction false} RefIsDigest(ref: string)
    ensures ValidRef(ref) <==>
            |ref| == 64 && forall k :: 0 <= k < 64 ==> '0' <= ref[k] <= '9' || 'a' <= ref[k] <= 'f'
  {
    assert ValidRef(ref) && |ref| == 64 ==> forall k :: 0 <= k < 64 ==> ref[k] in ref;
  }

  lemma {:induction false} RefsAreDigests(refs: seq<string>)
    ensures Hexadecimal(refs) <==> !exists r :: r in refs && !ValidRef(r)
  {
    forall i | 0 <= i < |refs|
      ensures ValidRef(refs[i]) <==>
              |refs[i]| == 64 && forall k :: 0 <= k < 64 ==> '0' <= refs[i][k] <= '9' || 'a' <= refs[i][k] <= 'f'
    {
      RefIsDigest(refs[i]);
    }
    if r :| r in refs && !ValidRef(r) {
      var i :| 0 <= i < |refs| && refs[i] == r;
    }
    if !exists r :: r in refs && !ValidRef(r) {
      forall i | 0 <= i < |refs| ensures ValidRef(refs[i]) {
        assert refs[i] in refs;
      }
    }
  }

  lemma {:induction false} NoRepeatIff(refs: seq<string>)
    ensures NoRepeat(refs) <==> !exists i, j :: 0 <= i < j < |refs| && refs[i] == refs[j]
  {
  }

  /** Evidence is used exactly when it is current, from a known source, resolved, and names its candidates. */
  lemma {:induction false} EvidenceUsedExactlyWhen(e: Evidence, issuedAt: nat, expiresAt: nat)
    requires issuedAt < expiresAt
    ensures EvidenceFault(e, issuedAt, expiresAt).None? <==>
            Current(e, issuedAt, expiresAt) && FromKnownSource(e) && e.unresolved == 0 && NamesCandidates(e)
    ensures EvidenceFault(e, issuedAt, expiresAt) == Some(EvidenceStale) <==> e.expiresAt <= issuedAt
    ensures EvidenceFault(e, issuedAt, expiresAt) == Some(EvidenceUnresolved) <==>
            && Current(e, issuedAt, expiresAt) && FromKnownSource(e) && e.unresolved > 0 && |e.eligible| <= 10_000
  {
    KnownSourceIff(e);
    RefsAreDigests(e.eligible);
    NoRepeatIff(e.eligible);
  }

  /** Any other fault of the evidence makes it invalid. */
  lemma {:induction false} OtherEvidenceIsInvalid(e: Evidence, issuedAt: nat, expiresAt: nat)
    ensures EvidenceFault(e, issuedAt, expiresAt) in
            {None, Some(EvidenceStale), Some(EvidenceUnresolved), Some(EvidenceInvalid)}
  {
  }

  // ---------------------------------------------------------------- the binding and its policies

  /** From no later than `issuedAt`, and until no earlier than `expiresAt` and after `issuedAt`. */
  predicate Covers(from: Option<nat>, until: Option<nat>, issuedAt: nat, expiresAt: nat) {
    && (from.Some? ==> from.value <= issuedAt)
    && (until.Some? ==> expiresAt <= until.value)
  }

  /** The binding is stored, its newest activation is of this very binding, and both cover the window. */
  predicate Stands(repo: Repo, bindingId: string, issuedAt: nat, expiresAt: nat) {
    && bindingId in repo.bindings && bindingId in repo.activations
    && var b, a := repo.bindings[bindingId], repo.activations[bindingId];
       && Covers(b.validFrom, b.validUntil, issuedAt, expiresAt)
       && Covers(Some(a.activatedAt), a.validUntil, issuedAt, expiresAt)
       && a.bindingDigest == Sha(b)
  }

  lemma {:induction false} StandsIff(repo: Repo, bindingId: string, issuedAt: nat, expiresAt: nat)
    requires issuedAt < expiresAt
    ensures ActiveFor(repo, bindingId, issuedAt, expiresAt).Ok? <==> Stands(repo, bindingId, issuedAt, expiresAt)
    ensures Stands(repo, bindingId, issuedAt, expiresAt) ==>
              ActiveFor(repo, bindingId, issuedAt, expiresAt) == Ok(repo.activations[bindingId])
  {
  }

  /** A policy in force over the window, made of comparisons the router understands. */
  predicate Enforceable(r: Revision, issuedAt: nat, expiresAt: nat) {
    && r.standing != Standing.Invalid && r.standing != Archived
    && Covers(r.validFrom, r.validUntil, issuedAt, expiresAt)
    && RP.Atoms(r.policy).Some?
  }

  lemma {:induction false} AtomsAreSome(e: Value)
    requires RP.Atoms(e).Some?
    ensures RP.Atoms(e).value != []
    decreases Nodes(e), 0
  {
    if GetArray(e, "all").Some? {
      var items := GetArray(e, "all").value;
      AtomsAreSome(items[0]);
    }
  }

  lemma {:induction false} AbsorbCountsOne(acc: RP.Acc, atom: RP.Atom)
    ensures RP.Absorb(acc, atom).rules == acc.rules + 1
  {
  }

  lemma {:induction false} AbsorbCounts(acc: RP.Acc, atoms: seq<RP.Atom>)
    ensures RP.AbsorbAll(acc, atoms).rules == acc.rules + |atoms|
    decreases |atoms|
  {
    if atoms == [] {
    } else {
      AbsorbCountsOne(acc, atoms[0]);
      AbsorbCounts(RP.Absorb(acc, atoms[0]), atoms[1..]);
    }
  }

  lemma {:induction false} ProjectedExactlyWhen(sources: seq<Source>, acc: RP.Acc, issuedAt: nat, expiresAt: nat)
    requires issuedAt < expiresAt
    ensures ProjectSources(sources, acc, issuedAt, expiresAt).Ok? <==>
            forall i :: 0 <= i < |sources| ==> Enforceable(sources[i].revision, issuedAt, expiresAt)
    ensures ProjectSources(sources, acc, issuedAt, expiresAt).Ok? ==>
              ProjectSources(sources, acc, issuedAt, expiresAt).value.rules >= acc.rules + |sources|
    decreases |sources|
  {
    if sources == [] {
    } else {
      var policy := sources[0].revision.policy;
      RP.ProjectionAbsorbsAtoms(policy, acc);
      assert forall i :: 1 <= i < |sources| ==> sources[i] == sources[1..][i - 1];
      if RP.Atoms(policy).Some? {
        AtomsAreSome(policy);
        AbsorbCounts(acc, RP.Atoms(policy).value);
        ProjectedExactlyWhen(sources[1..], RP.Project(policy, acc).value, issuedAt, expiresAt);
      }
    }
  }

  /**
   A projection is produced exactly when its window is a proper one of at most 300 seconds, the
   evidence is usable, the binding stands, and there are policies, all enforceable over the window.
   */
  lemma {:induction false} ProducedExactlyWhen(repo: Repo, bindingId: string, evidence: Evidence, issuedAt: nat,
        expiresAt: nat)
    ensures ProjectActive(repo, bindingId, evidence, issuedAt, expiresAt).Ok? <==>
            && issuedAt < expiresAt <= issuedAt + 300
            && Current(evidence, issuedAt, expiresAt) && FromKnownSource(evidence) && evidence.unresolved == 0
            && NamesCandidates(evidence)
            && Stands(repo, bindingId, issuedAt, expiresAt)
            && var found := SourcesFor(repo, repo.bindings[bindingId]);
               && found.Some? && found.value != []
               && forall i :: 0 <= i < |found.value| ==> Enforceable(found.value[i].revision, issuedAt, expiresAt)
  {
    if issuedAt < expiresAt {
      EvidenceUsedExactlyWhen(evidence, issuedAt, expiresAt);
      StandsIff(repo, bindingId, issuedAt, expiresAt);
      if bindingId in repo.bindings && SourcesFor(repo, repo.bindings[bindingId]).Some? {
        ProjectedExactlyWhen(SourcesFor(repo, repo.bindings[bindingId]).value, RP.INITIAL, issuedAt, expiresAt);
      }
    }
  }

  // ---------------------------------------------------------------- how a projection is refused

  /** What is wrong with the binding, if its window and evidence are right. */
  predicate BindingRefused(repo: Repo, bindingId: string, issuedAt: nat, expiresAt: nat, e: EnforcementError) {
    if bindingId !in repo.bindings then e == Inactive
    else if !Covers(repo.bindings[bindingId].validFrom, repo.bindings[bindingId].validUntil, issuedAt, expiresAt)
    then e == Expired
    else if bindingId !in repo.activations then e == Inactive
    else if !Covers(Some(repo.activations[bindingId].activatedAt), repo.activations[bindingId].validUntil, issuedAt,
                    expiresAt)
    then e == Expired
    else e == ProjectionMismatch
  }

  lemma {:induction false} BindingRefusedAs(repo: Repo, bindingId: string, issuedAt: nat, expiresAt: nat)
    requires issuedAt < expiresAt && !Stands(repo, bindingId, issuedAt, expiresAt)
    ensures ActiveFor(repo, bindingId, issuedAt, expiresAt).Err?
    ensures BindingRefused(repo, bindingId, issuedAt, expiresAt, ActiveFor(repo, bindingId, issuedAt, expiresAt).error)
  {
  }

  /** Source `k` is the first that cannot be enforced. */
  predicate FirstUnenforceable(sources: seq<Source>, k: nat, issuedAt: nat, expiresAt: nat) {
    && k < |sources| && !Enforceable(sources[k].revision, issuedAt, expiresAt)
    && forall j :: 0 <= j < k ==> Enforceable(sources[j].revision, issuedAt, expiresAt)
  }

  /** The revision is in force over the window, whatever its policy is. */
  predicate IsInForce(r: Revision, issuedAt: nat, expiresAt: nat) {
    && r.standing != Standing.Invalid && r.standing != Archived
    && Covers(r.validFrom, r.validUntil, issuedAt, expiresAt)
  }

  lemma {:induction false} SourcesRefusedAs(sources: seq<Source>, acc: RP.Acc, issuedAt: nat, expiresAt: nat, k: nat)
    requires issuedAt < expiresAt && FirstUnenforceable(sources, k, issuedAt, expiresAt)
    ensures
      var result, r := ProjectSources(sources, acc, issuedAt, expiresAt), sources[k].revision;
      && result.Err?
      && (!IsInForce(r, issuedAt, expiresAt) ==> result.error == Expired)
      && (IsInForce(r, issuedAt, expiresAt) ==> result.error in {UnsupportedPolicy, EmptyPolicy})
      && (IsInForce(r, issuedAt, expiresAt) && GetArray(r.policy, "all").None? ==> result.error == UnsupportedPolicy)
      && (IsInForce(r, issuedAt, expiresAt) && r.policy == Obj(["all"], [Arr([])]) ==> result.error == EmptyPolicy)
    decreases k
  {
    var policy := sources[0].revision.policy;
    if k == 0 {
      RP.ProjectionAbsorbsAtoms(policy, acc);
    } else {
      assert Enforceable(sources[0].revision, issuedAt, expiresAt);
      RP.ProjectionAbsorbsAtoms(policy, acc);
      assert forall j :: 0 <= j < k - 1 ==> sources[1..][j] == sources[j + 1];
      SourcesRefusedAs(sources[1..], RP.Project(policy, acc).value, issuedAt, expiresAt, k - 1);
    }
  }

  lemma {:induction false} SourcesErrAs(sources: seq<Source>, acc: RP.Acc, issuedAt: nat, expiresAt: nat)
    ensures ProjectSources(sources, acc, issuedAt, expiresAt).Err? ==>
              ProjectSources(sources, acc, issuedAt, expiresAt).error in {Expired, UnsupportedPolicy, EmptyPolicy}
    decreases |sources|
  {
    if sources == [] {
    } else if RP.Project(sources[0].revision.policy, acc).Ok? {
      SourcesErrAs(sources[1..], RP.Project(sources[0].revision.policy, acc).value, issuedAt, expiresAt);
    }
  }

  /**
   How a projection is refused: for its window, then its evidence, then its binding, then its policies,
   of which the first that cannot be enforced is reported, as expired or as not understood.
   */
  lemma {:induction false} ProjectionRefusedAs(repo: Repo, bindingId: string, evidence: Evidence, issuedAt: nat,
        expiresAt: nat)
    ensures
      var r := ProjectActive(repo, bindingId, evidence, issuedAt, expiresAt);
      var fault := EvidenceFault(evidence, issuedAt, expiresAt);
      && (!(issuedAt < expiresAt <= issuedAt + 300) <==> r == Err(BadWindow))
      && (issuedAt < expiresAt <= issuedAt + 300 ==>
            && (fault.Some? ==> r == Err(fault.value))
            && (fault.None? && !Stands(repo, bindingId, issuedAt, expiresAt) ==>
                  r.Err? && BindingRefused(repo, bindingId, issuedAt, expiresAt, r.error))
            && (fault.None? && Stands(repo, bindingId, issuedAt, expiresAt) ==>
                  var found := SourcesFor(repo, repo.bindings[bindingId]);
                  && (found.None? ==> r == Err(ProjectionMismatch))
                  && (found == Some([]) ==> r == Err(EmptyPolicy))
                  && (found.Some? && ProjectSources(found.value, RP.INITIAL, issuedAt, expiresAt).Err? ==>
                        r == Err(ProjectSources(found.value, RP.INITIAL, issuedAt, expiresAt).error))))
  {
    OtherEvidenceIsInvalid(evidence, issuedAt, expiresAt);
    if issuedAt < expiresAt {
      StandsIff(repo, bindingId, issuedAt, expiresAt);
      if !Stands(repo, bindingId, issuedAt, expiresAt) {
        BindingRefusedAs(repo, bindingId, issuedAt, expiresAt);
      } else if SourcesFor(repo, repo.bindings[bindingId]).Some? {
        SourcesErrAs(SourcesFor(repo, repo.bindings[bindingId]).value, RP.INITIAL, issuedAt, expiresAt);
      }
    }
  }

  /** How verification refuses: for the version, then the time, then as production would, then as a mismatch. */
  lemma {:induction false} VerificationRefusedAs(repo: Repo, p: Projection, now: nat)
    ensures
      var fault, again := Verify(repo, p, now), ProjectActive(repo, p.bindingId, p.evidence, p.issuedAt, p.expiresAt);
      && (p.schemaVersion != "iicp.management-routing-enforcement.v1" ==> fault == Some(UnsupportedPolicy))
      && (p.schemaVersion == "iicp.management-routing-enforcement.v1" && !(p.issuedAt <= now < p.expiresAt) ==>
            fault == Some(Expired))
      && (p.schemaVersion == "iicp.management-routing-enforcement.v1" && p.issuedAt <= now < p.expiresAt ==>
            && (again.Err? ==> fault == Some(again.error))
            && (again.Ok? ==> fault in {None, Some(ProjectionMismatch)}))
  {
  }

  // ---------------------------------------------------------------- the comparisons a router understands

  /** One comparison as a policy of its own. */
  function One(operator: string, name: string, bound: Value): Value {
    Obj([operator], [Arr([Str(name), bound])])
  }

  lemma {:induction false} OneIsRead(operator: string, name: string, bound: Value)
    requires operator == "eq" || operator == "in"
    ensures RP.Atoms(One(operator, name, bound))
            == var atom := if operator == "eq" then RP.EqAtom([Str(name), bound]) else RP.InAtom([Str(name), bound]);
               if atom.Some? then Some([atom.value]) else None
  {
    PE.OnlyField(One(operator, name, bound), operator);
    assert GetArray(One(operator, name, bound), operator) == Some([Str(name), bound]);
    assert operator == "in" ==> GetArray(One(operator, name, bound), "eq").None?;
  }

  predicate AllWhite(s: string) {
    forall k :: 0 <= k < |s| ==> WhiteSpace(s[k])
  }

  lemma {:induction false} TrimStartIs(s: string)
    returns (before: string)
    ensures s == before + RP.TrimStart(s) && AllWhite(before)
    ensures RP.TrimStart(s) != "" ==> !WhiteSpace(RP.TrimStart(s)[0])
  {
    if s != "" && WhiteSpace(s[0]) {
      var rest := TrimStartIs(s[1..]);
      before := [s[0]] + rest;
      assert s == [s[0]] + s[1..];
    } else {
      before := "";
    }
  }

  lemma {:induction false} TrimEndIs(s: string)
    returns (after: string)
    ensures s == RP.TrimEnd(s) + after && AllWhite(after)
    ensures RP.TrimEnd(s) != "" ==> !WhiteSpace(RP.TrimEnd(s)[|RP.TrimEnd(s)| - 1])
    decreases |s|
  {
    if s != "" && WhiteSpace(s[|s| - 1]) {
      var rest := TrimEndIs(s[..|s| - 1]);
      after := rest + [s[|s| - 1]];
      assert s == s[..|s| - 1] + [s[|s| - 1]];
    } else {
      after := "";
    }
  }

  /** Trimming takes the white space off both ends, and nothing else. */
  lemma {:induction false} TrimIs(s: string)
    returns (before: string, after: string)
    ensures s == before + RP.Trim(s) + after && AllWhite(before) && AllWhite(after)
    ensures RP.Trim(s) != "" ==> !WhiteSpace(RP.Trim(s)[0]) && !WhiteSpace(RP.Trim(s)[|RP.Trim(s)| - 1])
  {
    before := TrimStartIs(s);
    after := TrimEndIs(RP.TrimStart(s));
    assert RP.Trim(s) != "" ==> RP.Trim(s)[0] == RP.TrimStart(s)[0];
  }

  /** Lower case changes the letters A to Z, to those 32 places further on, and nothing else. */
  lemma {:induction false} LowerIs(s: string, k: nat)
    requires k < |s|
    ensures Lower(s)[k] == if 'A' <= s[k] <= 'Z' then s[k] + 32 as char else s[k]
  {
  }

  /** A region as the router reads it: trimmed, of 1 to 64 characters, in lower case. */
  predicate ReadsRegion(bound: Value, region: string) {
    bound.Str? && 0 < |RP.Trim(bound.s)| <= 64 && region == Lower(RP.Trim(bound.s))
  }

  /** What an equality asks of a candidate, for each fact the router knows; it understands no other. */
  lemma {:induction false} EqualityAsks(name: string, bound: Value)
    ensures
      var atoms := RP.Atoms(One("eq", name, bound));
      && (name == "region" ==>
            && (atoms.Some? <==> bound.Str? && 0 < |RP.Trim(bound.s)| <= 64)
            && forall region :: ReadsRegion(bound, region) ==> atoms == Some([RP.RegionIn({region})]))
      && (name == "remote_execution" ==> atoms == if bound == Bool(false) then Some([RP.NotRemote]) else None)
      && (name == "retention_mode" ==> atoms == if bound == Str("none") then Some([RP.NoRetention]) else None)
      && (name == "encryption_available" ==> atoms == if bound == Bool(true) then Some([RP.Encrypted]) else None)
      && (name == "policy_manifest_present" ==>
            atoms == if bound == Bool(true) then Some([RP.ManifestPresent]) else None)
  {
    OneIsRead("eq", name, bound);
  }

  /** The three identity levels the router knows, from the weakest to the strongest. */
  lemma {:induction false} IdentityAsks(bound: Value)
    ensures
      var atoms := RP.Atoms(One("eq", "manifest_identity_level", bound));
      && (bound == Str("signed_valid") ==> atoms == Some([RP.IdentityAtLeast(SignedValid)]))
      && (bound == Str("operator_bound") ==> atoms == Some([RP.IdentityAtLeast(OperatorBound)]))
      && (bound == Str("known_operator") ==> atoms == Some([RP.IdentityAtLeast(KnownOperator)]))
      && (bound !in {Str("signed_valid"), Str("operator_bound"), Str("known_operator")} ==> atoms == None)
    ensures Rank(SignedValid) == Some(1) && Rank(OperatorBound) == Some(2) && Rank(KnownOperator) == Some(3)
  {
    OneIsRead("eq", "manifest_identity_level", bound);
  }

  lemma {:induction false} UnknownFactIsNotUnderstood(name: string, bound: Value)
    requires name !in {"region", "remote_execution", "retention_mode", "encryption_available",
                       "policy_manifest_present", "manifest_identity_level"}
    ensures RP.Atoms(One("eq", name, bound)).None?
  {
    OneIsRead("eq", name, bound);
  }

  /** The regions read are those of the listed values, each of which must be one. */
  lemma {:induction false} RegionsRead(bounds: seq<Value>)
    ensures RP.RegionValues(bounds).Some? <==>
            forall k :: 0 <= k < |bounds| ==> bounds[k].Str? && 0 < |RP.Trim(bounds[k].s)| <= 64
    ensures RP.RegionValues(bounds).Some? ==>
              forall region :: region in RP.RegionValues(bounds).value <==>
                exists k :: 0 <= k < |bounds| && ReadsRegion(bounds[k], region)
    decreases |bounds|
  {
    if bounds == [] {
    } else {
      RegionsRead(bounds[1..]);
      assert forall k :: 1 <= k < |bounds| ==> bounds[k] == bounds[1..][k - 1];
      if RP.RegionValues(bounds).Some? {
        forall region
          ensures region in RP.RegionValues(bounds).value <==>
                  exists k :: 0 <= k < |bounds| && ReadsRegion(bounds[k], region)
        {
          if k :| 0 <= k < |bounds[1..]| && ReadsRegion(bounds[1..][k], region) {
            assert ReadsRegion(bounds[k + 1], region);
          }
          assert ReadsRegion(bounds[0], region) <==> region == RP.RegionValue(bounds[0]).value;
        }
      }
    }
  }

  /** An `in` is understood only of regions: from 1 to 64 of them, each one a region. */
  lemma {:induction false} MembershipAsks(name: string, bound: Value)
    ensures
      var atoms := RP.Atoms(One("in", name, bound));
      && (atoms.Some? <==>
            && name == "region" && bound.Arr? && 1 <= |bound.items| <= 64
            && forall k :: 0 <= k < |bound.items| ==>
                 bound.items[k].Str? && 0 < |RP.Trim(bound.items[k].s)| <= 64)
      && (atoms.Some? ==>
            && |atoms.value| == 1 && atoms.value[0].RegionIn?
            && forall region :: region in atoms.value[0].regions <==>
                 exists k :: 0 <= k < |bound.items| && ReadsRegion(bound.items[k], region))
  {
    OneIsRead("in", name, bound);
    if bound.Arr? {
      RegionsRead(bound.items);
    }
  }

  // ---------------------------------------------------------------- what a projection says

  /** A candidate that meets whatever can be asked of one, in the given region. */
  function Ideal(region: string): Candidate {
    Candidate(region, true, true, true, false, 3, {})
  }

  lemma {:induction false} IdealPasses(acc: RP.Acc)
    returns (c: Candidate)
    requires RP.Consistent(acc) && !acc.denyAll
    ensures RP.Passes(acc, c)
  {
    if acc.regions.Some? {
      assert acc.regions.value != {};
      var region :| region in acc.regions.value;
      c := Ideal(region);
      assert Lower(region) == region;
      LowerAllHas(acc.regions.value, region);
    } else {
      c := Ideal("");
    }
  }

  /** Some candidate satisfies every comparison of every policy. */
  ghost predicate Satisfiable(sources: seq<Source>) {
    exists c :: SatisfiesPolicies(c, sources)
  }

  lemma {:induction false} DeniesIff(sources: seq<Source>, issuedAt: nat, expiresAt: nat)
    requires ProjectSources(sources, RP.INITIAL, issuedAt, expiresAt).Ok?
    ensures ProjectSources(sources, RP.INITIAL, issuedAt, expiresAt).value.denyAll <==> !Satisfiable(sources)
  {
    var acc := ProjectSources(sources, RP.INITIAL, issuedAt, expiresAt).value;
    forall c ensures RP.Passes(acc, c) <==> SatisfiesPolicies(c, sources) {
      ProjectSourcesMeans(sources, RP.INITIAL, issuedAt, expiresAt, c);
    }
    ProjectSourcesMeans(sources, RP.INITIAL, issuedAt, expiresAt, Ideal(""));
    if !acc.denyAll {
      var c := IdealPasses(acc);
      assert SatisfiesPolicies(c, sources);
    }
  }

  /**
   What a projection says. It denies everything exactly when no candidate is eligible or none could
   satisfy all policies; what its policy admits otherwise are the candidates that do satisfy them.
   It names binding, activation and evidence, each at its digest, for exactly the window asked for.
   */
  lemma {:induction false} ProjectionSays(repo: Repo, bindingId: string, evidence: Evidence, issuedAt: nat,
        expiresAt: nat)
    requires ProjectActive(repo, bindingId, evidence, issuedAt, expiresAt).Ok?
    ensures bindingId in repo.bindings && SourcesFor(repo, repo.bindings[bindingId]).Some?
    ensures
      var p := ProjectActive(repo, bindingId, evidence, issuedAt, expiresAt).value;
      var sources := SourcesFor(repo, repo.bindings[bindingId]).value;
      && (p.denyAll <==> evidence.eligible == [] || !Satisfiable(sources))
      && (Satisfiable(sources) ==> forall c :: Admits(p.policy, c) <==> SatisfiesPolicies(c, sources))
  {
    var sources := SourcesFor(repo, repo.bindings[bindingId]).value;
    var acc := ProjectSources(sources, RP.INITIAL, issuedAt, expiresAt).value;
    DeniesIff(sources, issuedAt, expiresAt);
    forall c ensures RP.Passes(acc, c) <==> SatisfiesPolicies(c, sources) {
      ProjectSourcesMeans(sources, RP.INITIAL, issuedAt, expiresAt, c);
    }
  }

  lemma {:induction false} ProjectionNames(repo: Repo, bindingId: string, evidence: Evidence, issuedAt: nat,
        expiresAt: nat)
    requires ProjectActive(repo, bindingId, evidence, issuedAt, expiresAt).Ok?
    ensures bindingId in repo.bindings && bindingId in repo.activations
    ensures
      var p := ProjectActive(repo, bindingId, evidence, issuedAt, expiresAt).value;
      var b, a := repo.bindings[bindingId], repo.activations[bindingId];
      && p.schemaVersion == "iicp.management-routing-enforcement.v1"
      && p.applicationId == b.applicationId && p.bindingId == b.bindingId && p.bindingDigest == Sha(b)
      && p.generation == a.targetGeneration
      && p.effectiveDigest == Sha(EffectiveKey(Sha(b), a.revisionDigests, a.targetGeneration))
      && p.evidence == evidence && p.evidenceDigest == Sha(evidence)
      && p.issuedAt == issuedAt && p.expiresAt == expiresAt
      && p.routingDigest
         == Sha(RoutingKey(p.policy, p.denyAll, Sha(b), Sha(evidence), a.targetGeneration, issuedAt, expiresAt))
  {
    ProducedExactlyWhen(repo, bindingId, evidence, issuedAt, expiresAt);
    StandsIff(repo, bindingId, issuedAt, expiresAt);
  }
}
