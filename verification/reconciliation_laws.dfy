/**
 What a drift assessment says, when a proposal is made and when it may act: told from the target's
 receipt, the inspection, and the tables.
 */
module ReconciliationLaws {
  import opened Common
  import opened Json
  import opened Gates
  import opened GateLaws
  import opened RolloutManifest
  import opened Rollout
  import opened Reconciliation
  import Planner

  // ---------------------------------------------------------------- what an assessment says

  /** The row's receipt proves that the target held `e`: read back, or else reported by the adapter. */
  predicate Proves(row: Row, e: AdapterReceipt) {
    row.receipt.Some?
    && (row.receipt.value.verification == Some(e)
        || (row.receipt.value.verification.None? && row.receipt.value.adapter == Some(e)))
  }

  predicate ProvesNothing(row: Row) {
    row.receipt.None? || (row.receipt.value.verification.None? && row.receipt.value.adapter.None?)
  }

  /** Entry `i` is the inspection's first one of the target. */
  predicate IsEntryOf(v: Inspection, i: nat, t: Target) {
    && i < |v.entries| && v.entries[i].targetId == t.targetId
    && v.entries[i].registeredCapability == t.gate.operation.capability
    && forall j :: 0 <= j < i ==>
         v.entries[j].targetId != t.targetId || v.entries[j].registeredCapability != t.gate.operation.capability
  }

  ghost predicate Inspected(v: Inspection, t: Target) {
    exists i: nat :: IsEntryOf(v, i, t)
  }

  predicate Complete(e: Entry) {
    e.observationDigest.Some? && e.observedGeneration.Some?
  }

  /** What was observed is what was proved, digest and generation. */
  predicate Agrees(e: Entry, proved: AdapterReceipt) {
    e.observationDigest == Some(proved.resultDigest) && e.observedGeneration == Some(proved.generation)
  }

  lemma {:induction false} FirstEntryIs(entries: seq<Entry>, targetId: string, capability: string)
    ensures
      var found := FindEntry(entries, targetId, capability);
      && (found.None? ==>
            forall i :: 0 <= i < |entries| ==>
              entries[i].targetId != targetId || entries[i].registeredCapability != capability)
      && (found.Some? ==>
            exists i :: 0 <= i < |entries| && entries[i] == found.value
                        && entries[i].targetId == targetId && entries[i].registeredCapability == capability
                        && forall j :: 0 <= j < i ==>
                             entries[j].targetId != targetId || entries[j].registeredCapability != capability)
  {
    if entries == [] {
    } else if !(entries[0].targetId == targetId && entries[0].registeredCapability == capability) {
      var rest, found := entries[1..], FindEntry(entries[1..], targetId, capability);
      FirstEntryIs(rest, targetId, capability);
      assert forall k :: 1 <= k < |entries| ==> entries[k] == rest[k - 1];
      if found.Some? {
        var i :| 0 <= i < |rest| && rest[i] == found.value
                 && rest[i].targetId == targetId && rest[i].registeredCapability == capability
                 && forall j :: 0 <= j < i ==>
                      rest[j].targetId != targetId || rest[j].registeredCapability != capability;
        assert entries[i + 1] == found.value;
      }
    }
  }

  lemma {:induction false} EntryIsFound(v: Inspection, t: Target)
    ensures
      var found := FindEntry(v.entries, t.targetId, t.gate.operation.capability);
      && (found.Some? <==> Inspected(v, t))
      && forall i: nat :: IsEntryOf(v, i, t) ==> found == Some(v.entries[i])
  {
    FirstEntryIs(v.entries, t.targetId, t.gate.operation.capability);
    var found := FindEntry(v.entries, t.targetId, t.gate.operation.capability);
    if found.Some? {
      var i :| 0 <= i < |v.entries| && v.entries[i] == found.value
               && v.entries[i].targetId == t.targetId
               && v.entries[i].registeredCapability == t.gate.operation.capability
               && forall j :: 0 <= j < i ==>
                    v.entries[j].targetId != t.targetId
                    || v.entries[j].registeredCapability != t.gate.operation.capability;
      assert IsEntryOf(v, i, t);
    }
  }

  /** State and reason of an assessment, from what was proved and what was observed. */
  ghost predicate Assesses(a: Assessment, t: Target, row: Row, v: Inspection) {
    && (ProvesNothing(row) <==> (a.state, a.reason) == (DriftUnknown, ExpectedReceiptMissing))
    && (!ProvesNothing(row) && !Inspected(v, t) <==> (a.state, a.reason) == (DriftUnknown, EvidenceMissing))
    && forall i: nat, proved :: IsEntryOf(v, i, t) && Proves(row, proved) ==>
         && (a.state, a.reason)
            == (if !Complete(v.entries[i]) then (DriftUnknown, EvidenceIncomplete)
                else if Agrees(v.entries[i], proved) then (InSync, DriftInSync)
                else (Drifted, DriftDetected))
         && (a.observedDigest, a.observedGeneration)
            == (v.entries[i].observationDigest, v.entries[i].observedGeneration)
  }

  /** An assessment compares with what was proved, or shows the plan where nothing was. */
  ghost predicate Expects(a: Assessment, t: Target, row: Row) {
    && (forall proved: AdapterReceipt {:trigger Proves(row, proved)} :: Proves(row, proved) ==>
          (a.expectedDigest, a.expectedGeneration) == (proved.resultDigest, proved.generation))
    && (ProvesNothing(row) ==>
          (a.expectedDigest, a.expectedGeneration)
          == (t.gate.operation.desiredDigest, t.gate.operation.expectedGeneration))
  }

  /** The assessment is of this target of this run, on this inspection, and commits to nothing. */
  predicate IsAssessmentOf(a: Assessment, r: Run, t: Target, v: Inspection) {
    && a.runId == r.manifest.runId && a.manifestDigest == r.digest && a.targetId == t.targetId
    && a.assessmentId == r.manifest.runId + ":" + t.targetId + ":" + Planner.Decimal(v.observedAt)
    && a.driftClass == Unclassified && a.evidenceSource == v.evidenceSource
    && a.observedAt == v.observedAt && a.expiresAt == v.expiresAt
  }

  lemma {:induction false} AssessmentSays(r: Run, t: Target, row: Row, v: Inspection)
    ensures
      var a := AssessTarget(r, t, row, v);
      IsAssessmentOf(a, r, t, v) && Expects(a, t, row) && Assesses(a, t, row, v)
  {
    EntryIsFound(v, t);
    assert ProvesNothing(row) <==> Expectation(row).None?;
    forall proved ensures Proves(row, proved) <==> Expectation(row) == Some(proved) {
    }
  }

  lemma {:induction false} AllAssessed(r: Run, ts: seq<Target>, v: Inspection)
    ensures AssessAll(r, ts, v).Ok? <==> forall k :: 0 <= k < |ts| ==> ts[k].targetId in r.rows
    ensures AssessAll(r, ts, v).Err? ==> AssessAll(r, ts, v).error == DriftTargetNotFound
    ensures AssessAll(r, ts, v).Ok? ==>
              |AssessAll(r, ts, v).value| == |ts|
              && forall k :: 0 <= k < |ts| ==>
                   AssessAll(r, ts, v).value[k] == AssessTarget(r, ts[k], r.rows[ts[k].targetId], v)
    decreases |ts|
  {
    if ts == [] {
    } else {
      AllAssessed(r, ts[1..], v);
      assert forall k :: 1 <= k < |ts| ==> ts[k] == ts[1..][k - 1];
    }
  }

  /** Evidence from the host itself, of this moment give or take, that authorizes nothing. */
  predicate UsableAt(v: Inspection, now: nat) {
    && v.schemaVersion == "1" && v.evidenceClass == "adapter_host_observation"
    && v.evidenceSource == "domain_local_adapter_host" && !v.authorizesMutation
    && v.observedAt <= now + 60 && v.observedAt <= v.expiresAt && now <= v.expiresAt
  }

  /** 64 hexadecimal digits after the name of the digest. */
  predicate SpelledDigest(d: Digest<Value>) {
    d.Text? ==>
      && |d.text| == 71 && d.text[..7] == "sha256:"
      && forall k :: 7 <= k < 71 ==>
           '0' <= d.text[k] <= '9' || 'a' <= d.text[k] <= 'f' || 'A' <= d.text[k] <= 'F'
  }

  /** Of a named target, with its digests spelled right and its capability among those in ascending order. */
  predicate WellFormedEntry(e: Entry) {
    && 1 <= |e.targetId| <= 256 && 1 <= |e.registeredCapability| <= 256 && 1 <= |e.reason| <= 128
    && 1 <= |e.advertisedCapabilities| <= 128 && e.registeredCapability in e.advertisedCapabilities
    && (forall i, j :: 0 <= i < j < |e.advertisedCapabilities| ==>
          Before(e.advertisedCapabilities[i], e.advertisedCapabilities[j]))
    && SpelledDigest(e.descriptorDigest)
    && (e.observationDigest.Some? ==> SpelledDigest(e.observationDigest.value))
  }

  lemma {:induction false} SpelledDigestIff(d: Digest<Value>)
    ensures HexDigest(d) <==> SpelledDigest(d)
  {
    if d.Text? && |d.text| == 71 {
      var digits := d.text[7..];
      assert forall k :: 7 <= k < 71 ==> d.text[k] == digits[k - 7] && digits[k - 7] in digits;
      forall c | c in digits ensures exists k :: 7 <= k < 71 && d.text[k] == c {
        var k :| 0 <= k < |digits| && digits[k] == c;
        assert d.text[k + 7] == c;
      }
    }
  }

  lemma {:induction false} WellFormedEntryIff(e: Entry)
    ensures EntryOk(e) <==> WellFormedEntry(e)
  {
    SpelledDigestIff(e.descriptorDigest);
    if e.observationDigest.Some? {
      SpelledDigestIff(e.observationDigest.value);
    }
  }

  /** At most 1024 entries, each well formed, one for each target and capability. */
  ghost predicate WellListed(v: Inspection) {
    && |v.entries| <= 1024
    && (forall i :: 0 <= i < |v.entries| ==> WellFormedEntry(v.entries[i]))
    && (forall i, j :: 0 <= i < j < |v.entries| ==>
          v.entries[i].targetId != v.entries[j].targetId
          || v.entries[i].registeredCapability != v.entries[j].registeredCapability)
    && forall x :: x in v.extensions ==> x.level in {OptionalIgnorable, OptionalNegotiable}
  }

  lemma {:induction false} EntriesIff(entries: seq<Entry>)
    ensures (forall e :: e in entries ==> EntryOk(e))
            <==> forall i :: 0 <= i < |entries| ==> WellFormedEntry(entries[i])
  {
    forall i | 0 <= i < |entries| ensures EntryOk(entries[i]) <==> WellFormedEntry(entries[i]) {
      WellFormedEntryIff(entries[i]);
    }
    if forall e :: e in entries ==> EntryOk(e) {
      forall i | 0 <= i < |entries| ensures WellFormedEntry(entries[i]) {
        assert entries[i] in entries;
      }
    }
  }

  lemma {:induction false} OneEntryEachIff(entries: seq<Entry>)
    ensures (forall i, j :: 0 <= i < j < |entries| ==>
               (entries[i].targetId, entries[i].registeredCapability)
               != (entries[j].targetId, entries[j].registeredCapability))
            <==>
            (forall i, j :: 0 <= i < j < |entries| ==>
               entries[i].targetId != entries[j].targetId
               || entries[i].registeredCapability != entries[j].registeredCapability)
  {
  }

  lemma {:induction false} InspectionOkIff(v: Inspection, now: nat)
    ensures InspectionOk(v, now) <==> UsableAt(v, now) && WellListed(v)
  {
    forall x: Extension ensures !MustUnderstand(x, {}) <==> x.level in {OptionalIgnorable, OptionalNegotiable} {
      assert x.id !in {};
    }
    EntriesIff(v.entries);
    OneEntryEachIff(v.entries);
  }

  /**
   A run is assessed exactly on usable evidence about its own manifest with a row for each target,
   and then each target gets one assessment, which says what was proved, what was observed, and
   whether they agree: Drifted exactly when complete evidence differs from what was proved.
   */
  lemma {:induction false} AssessedExactlyWhen(r: Run, v: Inspection, now: nat)
    ensures Assess(r, v, now).Ok? <==>
            && UsableAt(v, now) && WellListed(v) && r.digest == Sha(r.manifest)
            && forall k :: 0 <= k < |r.manifest.targets| ==> r.manifest.targets[k].targetId in r.rows
    ensures Assess(r, v, now) == Err(DriftEvidenceInvalid) <==> !(UsableAt(v, now) && WellListed(v))
    ensures Assess(r, v, now) == Err(DriftBindingInvalid) <==>
            UsableAt(v, now) && WellListed(v) && r.digest != Sha(r.manifest)
    ensures Assess(r, v, now).Ok? ==>
              var all, ts := Assess(r, v, now).value, r.manifest.targets;
              |all| == |ts|
              && forall k :: 0 <= k < |ts| && ts[k].targetId in r.rows ==>
                   && IsAssessmentOf(all[k], r, ts[k], v) && Expects(all[k], ts[k], r.rows[ts[k].targetId])
                   && Assesses(all[k], ts[k], r.rows[ts[k].targetId], v)
  {
    var ts := r.manifest.targets;
    InspectionOkIff(v, now);
    AllAssessed(r, ts, v);
    forall k | 0 <= k < |ts| && ts[k].targetId in r.rows
      ensures var a := AssessTarget(r, ts[k], r.rows[ts[k].targetId], v);
              IsAssessmentOf(a, r, ts[k], v) && Expects(a, ts[k], r.rows[ts[k].targetId])
              && Assesses(a, ts[k], r.rows[ts[k].targetId], v)
    {
      AssessmentSays(r, ts[k], r.rows[ts[k].targetId], v);
    }
  }

  // ---------------------------------------------------------------- storing assessments

  /** One row to an id. */
  ghost predicate OneEach(rows: seq<Assessment>) {
    forall a, b :: a in rows && b in rows && a.assessmentId == b.assessmentId ==> a == b
  }

  lemma {:induction false} FoundById(rows: seq<Assessment>, id: string)
    ensures
      var found := FindAssessment(rows, id);
      && (found.Some? ==> found.value in rows && found.value.assessmentId == id)
      && (found.None? ==> forall a :: a in rows ==> a.assessmentId != id)
  {
    if rows == [] {
    } else {
      FoundById(rows[1..], id);
      assert rows == [rows[0]] + rows[1..];
    }
  }

  /**
   Assessments are stored together or not at all: exactly when no id stands for two different
   ones, among them or in the table. Then the table grows by those it lacks, and by no others.
   */
  lemma {:induction false} StoredExactlyWhen(rows: seq<Assessment>, more: seq<Assessment>)
    requires OneEach(rows)
    ensures InsertAll(rows, more).Ok? <==> OneEach(rows + more)
    ensures InsertAll(rows, more).Ok? ==>
              var all := InsertAll(rows, more).value;
              && rows <= all && OneEach(all)
              && forall a :: a in all <==> a in rows || a in more
    decreases |more|
  {
    if more == [] {
      assert rows + more == rows;
    } else {
      var a, rest := more[0], more[1..];
      FoundById(rows, a.assessmentId);
      assert forall x :: x in rows + more <==> x in rows || x == a || x in rest;
      if FindAssessment(rows, a.assessmentId).None? {
        assert forall x :: x in rows + [a] + rest <==> x in rows || x == a || x in rest;
        StoredExactlyWhen(rows + [a], rest);
      } else if a in rows {
        assert FindAssessment(rows, a.assessmentId).value == a;
        StoredExactlyWhen(rows, rest);
      } else {
        assert a in rows + more && FindAssessment(rows, a.assessmentId).value in rows + more;
      }
    }
  }

  // ---------------------------------------------------------------- proposals

  /** The newest assessment of a target: `a` is about it, and none about it was observed later. */
  ghost predicate IsNewest(rows: seq<Assessment>, a: Assessment, runId: string, targetId: string) {
    && a in rows && About(a, runId, targetId)
    && forall b :: b in rows && About(b, runId, targetId) ==> b.observedAt <= a.observedAt
  }

  /** A drift that was observed in full and is still current. */
  predicate CurrentDrift(a: Assessment, now: nat) {
    a.state == Drifted && now <= a.expiresAt && a.observedGeneration.Some?
  }

  predicate MayRepair(c: DriftClass) {
    c in {SafeMetadata, CapabilityRuntime}
  }

  /** The proposal repeats the assessment: back to what was expected, from what was observed, needing a fresh gate. */
  predicate Repeats(p: Proposal, a: Assessment, t: Target, c: DriftClass, now: nat) {
    && p.schemaVersion == "iicp.management-reconciliation-proposal.v1"
    && p.proposalId == "reconcile:" + a.runId + ":" + a.targetId + ":" + Planner.Decimal(now)
    && p.runId == a.runId && p.targetId == a.targetId && p.assessmentDigest == Sha(a) && p.driftClass == c
    && p.desiredDigest == a.expectedDigest && Some(p.expectedGeneration) == a.observedGeneration
    && p.relatedOperation == t.gate.operation.operationId
    && p.createdAt == now && p.expiresAt == now + 300
    && p.requiresFreshGate && !p.authorizesMutation
  }

  lemma {:induction false} FirstTargetIs(targets: seq<Target>, id: string)
    ensures FindTarget(targets, id).Some? <==> exists k :: 0 <= k < |targets| && targets[k].targetId == id
    ensures FindTarget(targets, id).Some? ==>
              FindTarget(targets, id).value in targets && FindTarget(targets, id).value.targetId == id
  {
    if targets == [] {
    } else {
      FirstTargetIs(targets[1..], id);
      assert forall k :: 1 <= k < |targets| ==> targets[k] == targets[1..][k - 1];
    }
  }

  /** There is a newest assessment of the target, and it found a drift that is still current. */
  predicate Repairable(t: Tables, runId: string, targetId: string, now: nat) {
    var newest := Latest(t.assessments, runId, targetId);
    newest.Some? && CurrentDrift(newest.value, now)
  }

  /**
   A proposal is stored exactly when its class may be repaired, the newest assessment of the target
   found a current drift, the run still has the target, and no proposal has its id. What is stored
   repeats that assessment; nothing else changes.
   */
  lemma {:induction false} ProposedExactlyWhen(t: Tables, runs: map<string, Run>, runId: string, targetId: string,
        c: DriftClass, now: nat)
    ensures
      var (after, error) := Propose(t, runs, runId, targetId, c, now);
      var id := "reconcile:" + runId + ":" + targetId + ":" + Planner.Decimal(now);
      && (error.None? <==>
            && MayRepair(c) && Repairable(t, runId, targetId, now) && runId in runs
            && (exists k :: 0 <= k < |runs[runId].manifest.targets|
                            && runs[runId].manifest.targets[k].targetId == targetId)
            && id !in t.proposals)
      && (error.Some? ==> after == t)
      && (error.None? ==>
            && after.assessments == t.assessments
            && after.proposals.Keys == t.proposals.Keys + {id} && after.proposals[id].receipt.None?
            && (forall other :: other in t.proposals ==> after.proposals[other] == t.proposals[other])
            && exists a, target ::
                 && IsNewest(t.assessments, a, runId, targetId) && CurrentDrift(a, now)
                 && target in runs[runId].manifest.targets && target.targetId == targetId
                 && Repeats(after.proposals[id].proposal, a, target, c, now))
  {
    LatestIsNewest(t.assessments, runId, targetId);
    if runId in runs {
      FirstTargetIs(runs[runId].manifest.targets, targetId);
    }
    var (after, error) := Propose(t, runs, runId, targetId, c, now);
    if error.None? {
      var a := Latest(t.assessments, runId, targetId).value;
      var target := FindTarget(runs[runId].manifest.targets, targetId).value;
      assert IsNewest(t.assessments, a, runId, targetId);
      assert Repeats(NewProposal(a, runs[runId], target, runId, c, now), a, target, c, now);
    }
  }

  /** The proposal is still about the assessment it was made for, in its time, and asks for no more than it may. */
  predicate StillStands(p: Proposal, a: Assessment, now: nat) {
    && p.schemaVersion == "iicp.management-reconciliation-proposal.v1" && !p.authorizesMutation
    && p.requiresFreshGate
    && p.assessmentDigest == Sha(a) && p.runId == a.runId && p.targetId == a.targetId
    && a.state == Drifted && now <= a.expiresAt && a.observedGeneration == Some(p.expectedGeneration)
    && MayRepair(p.driftClass) && p.createdAt <= now <= p.expiresAt && p.createdAt < p.expiresAt
  }

  /** A gate that holds now, for an operation that does just what the proposal says, in the run's own domain. */
  ghost predicate Executes(g: ApplyGate, p: Proposal, m: Manifest, now: nat) {
    && GateHolds(g, now)
    && g.operation.targetId == p.targetId && g.operation.desiredDigest == p.desiredDigest
    && g.operation.expectedGeneration == p.expectedGeneration && g.operation.related == Some(p.relatedOperation)
    && g.request.body.domain == m.domain && g.request.body.audience == m.audience
  }

  lemma {:induction false} StillStandsIff(p: Proposal, a: Assessment, now: nat)
    ensures ProposalFault(p, a, now).None? <==> StillStands(p, a, now)
  {
  }

  /**
   A proposal may act exactly when it still stands on the newest assessment of its target and the
   gate executes it.
   */
  lemma {:induction false} ActsExactlyWhen(t: Tables, runs: map<string, Run>, proposalId: string, g: ApplyGate,
        now: nat)
    ensures GateFault(t, runs, proposalId, g, now).None? <==>
            && proposalId in t.proposals
            && var p := t.proposals[proposalId].proposal;
               && Latest(t.assessments, p.runId, p.targetId).Some?
               && StillStands(p, Latest(t.assessments, p.runId, p.targetId).value, now)
               && p.runId in runs && Executes(g, p, runs[p.runId].manifest, now)
  {
    GateAcceptedExactlyWhen(g, now);
    if proposalId in t.proposals {
      var p := t.proposals[proposalId].proposal;
      var newest := Latest(t.assessments, p.runId, p.targetId);
      if newest.Some? {
        StillStandsIff(p, newest.value, now);
      }
    }
  }

  /**
   A receipt is recorded exactly when the proposal may act through its gate, the receipt is of the
   gate's operation and of no other, and none was recorded before; then the proposal has it, and
   nothing else changes.
   */
  lemma {:induction false} RecordedExactlyWhen(t: Tables, runs: map<string, Run>, proposalId: string, g: ApplyGate,
        receipt: LifecycleReceipt, now: nat)
    ensures
      var (after, error) := RecordReconciliation(t, runs, proposalId, g, receipt, now);
      && (error.None? <==>
            && GateFault(t, runs, proposalId, g, now).None? && t.proposals[proposalId].receipt.None?
            && receipt.operationId == g.operation.operationId
            && receipt.operationId != t.proposals[proposalId].proposal.relatedOperation)
      && (error.Some? ==> after == t)
      && (error.None? ==>
            && after.assessments == t.assessments && after.proposals.Keys == t.proposals.Keys
            && after.proposals[proposalId] == ProposalRow(t.proposals[proposalId].proposal, Some(receipt))
            && forall other :: other in t.proposals && other != proposalId ==>
                 after.proposals[other] == t.proposals[other])
  {
  }

  /** Drift is assessed for runs that have ended, converged or in part, and stored whole or not at all. */
  lemma {:induction false} DriftStoredExactlyWhen(t: Tables, runs: map<string, Run>, runId: string, v: Inspection,
        now: nat)
    requires OneEach(t.assessments)
    ensures
      var (after, error) := AssessDrift(t, runs, runId, v, now);
      && (error.None? <==>
            && runId in runs && runs[runId].state in {RunConverged, RunPartial}
            && Assess(runs[runId], v, now).Ok? && OneEach(t.assessments + Assess(runs[runId], v, now).value))
      && (error.Some? ==> after == t)
      && after.proposals == t.proposals && OneEach(after.assessments)
      && (error.None? ==>
            forall a :: a in after.assessments <==>
              a in t.assessments || a in Assess(runs[runId], v, now).value)
  {
    if runId in runs && Assess(runs[runId], v, now).Ok? {
      StoredExactlyWhen(t.assessments, Assess(runs[runId], v, now).value);
    }
  }

  // ---------------------------------------------------------------- how each is refused

  /** What drift that is not stored is refused as. */
  lemma {:induction false} DriftRefusedAs(t: Tables, runs: map<string, Run>, runId: string, v: Inspection, now: nat)
    requires OneEach(t.assessments) && AssessDrift(t, runs, runId, v, now).1.Some?
    ensures
      AssessDrift(t, runs, runId, v, now).1
      == (if runId !in runs then Some(RunUnknown)
          else if runs[runId].state !in {RunConverged, RunPartial} then Some(RunNotTerminal)
          else if !(UsableAt(v, now) && WellListed(v)) then Some(DriftEvidenceInvalid)
          else if runs[runId].digest != Sha(runs[runId].manifest) then Some(DriftBindingInvalid)
          else if exists k :: 0 <= k < |runs[runId].manifest.targets|
                              && runs[runId].manifest.targets[k].targetId !in runs[runId].rows
          then Some(DriftTargetNotFound)
          else Some(AssessmentIdCollision))
  {
    if runId in runs {
      InspectionOkIff(v, now);
      AllAssessed(runs[runId], runs[runId].manifest.targets, v);
      if Assess(runs[runId], v, now).Ok? {
        InsertOnlyCollides(t.assessments, Assess(runs[runId], v, now).value);
      }
    }
  }

  predicate TargetKnown(runs: map<string, Run>, runId: string, targetId: string) {
    runId in runs
    && exists k :: 0 <= k < |runs[runId].manifest.targets| && runs[runId].manifest.targets[k].targetId == targetId
  }

  /** What a proposal that is not stored is refused as. */
  lemma {:induction false} ProposalRefusedAs(t: Tables, runs: map<string, Run>, runId: string, targetId: string,
        c: DriftClass, now: nat)
    requires Propose(t, runs, runId, targetId, c, now).1.Some?
    ensures
      var newest := Latest(t.assessments, runId, targetId);
      Propose(t, runs, runId, targetId, c, now).1
      == (if !MayRepair(c) then Some(ClassReviewRequired)
          else if newest.None? then Some(AssessmentNotFound)
          else if runId !in runs then Some(RunUnknown)
          else if !TargetKnown(runs, runId, targetId) then Some(NoSuchTarget)
          else if newest.value.observedGeneration.None? then Some(ReconciliationEvidenceIncomplete)
          else if !CurrentDrift(newest.value, now) then Some(ReconciliationInvalid)
          else Some(StorageFailed))
  {
    LatestIsNewest(t.assessments, runId, targetId);
    if runId in runs {
      FirstTargetIs(runs[runId].manifest.targets, targetId);
    }
  }

  /** Everything about the proposal stands but that its assessment observed no generation. */
  predicate OnlyIncomplete(p: Proposal, a: Assessment, now: nat) {
    && p.schemaVersion == "iicp.management-reconciliation-proposal.v1" && !p.authorizesMutation
    && p.requiresFreshGate
    && p.assessmentDigest == Sha(a) && p.runId == a.runId && p.targetId == a.targetId
    && a.state == Drifted && now <= a.expiresAt && MayRepair(p.driftClass) && a.observedGeneration.None?
  }

  lemma {:induction false} ProposalFaultIs(p: Proposal, a: Assessment, now: nat)
    ensures ProposalFault(p, a, now)
            == (if StillStands(p, a, now) then None
                else if OnlyIncomplete(p, a, now) then Some(ReconciliationEvidenceIncomplete)
                else Some(ReconciliationInvalid))
  {
  }

  /** Why a proposal may not act: the first of these reasons. */
  lemma {:induction false} ActionRefusedAs(t: Tables, runs: map<string, Run>, proposalId: string, g: ApplyGate,
        now: nat)
    requires GateFault(t, runs, proposalId, g, now).Some?
    ensures
      var error := GateFault(t, runs, proposalId, g, now).value;
      if proposalId !in t.proposals then error == ProposalNotFound
      else
        var p := t.proposals[proposalId].proposal;
        var newest := Latest(t.assessments, p.runId, p.targetId);
        if newest.None? then error == AssessmentNotFound
        else if !StillStands(p, newest.value, now) then
          error == if OnlyIncomplete(p, newest.value, now) then ReconciliationEvidenceIncomplete
                   else ReconciliationInvalid
        else if p.runId !in runs then error == RunUnknown
        else error == GateBindingInvalid
  {
    if proposalId in t.proposals {
      var p := t.proposals[proposalId].proposal;
      var newest := Latest(t.assessments, p.runId, p.targetId);
      if newest.Some? {
        ProposalFaultIs(p, newest.value, now);
      }
    }
  }

  /** Why a receipt is not recorded. */
  lemma {:induction false} ReceiptRefusedAs(t: Tables, runs: map<string, Run>, proposalId: string, g: ApplyGate,
        receipt: LifecycleReceipt, now: nat)
    requires RecordReconciliation(t, runs, proposalId, g, receipt, now).1.Some?
    ensures
      var fault := GateFault(t, runs, proposalId, g, now);
      RecordReconciliation(t, runs, proposalId, g, receipt, now).1
      == (if fault.Some? then fault
          else if receipt.operationId != g.operation.operationId
               || receipt.operationId == t.proposals[proposalId].proposal.relatedOperation
          then Some(ReconciliationReceiptInvalid)
          else Some(ReceiptAlreadyRecorded))
  {
  }
}
