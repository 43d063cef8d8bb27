/**
 Drift assessment and reconciliation: assessments are only ever appended, and a proposal may act
 only on the newest one.
 */
module Reconciliation {
  import opened Common
  import opened Json
  import opened Gates
  import opened RolloutManifest
  import opened Rollout
  import opened RolloutRuns
  import Planner

  const RECONCILIATION_SCHEMA := "iicp.management-reconciliation-proposal.v1"
  const CLOCK_SKEW := 60
  const PROPOSAL_LIFETIME := 300

  // ---------------------------------------------------------------- inspections

  datatype Entry = Entry(
    targetId: string,
    registeredCapability: string,
    advertisedCapabilities: seq<string>,
    descriptorDigest: Digest<Value>,
    observationDigest: Option<Digest<Value>>,
    observedGeneration: Option<nat>,
    reason: string)

  datatype Inspection = Inspection(
    schemaVersion: string,
    evidenceClass: string,
    evidenceSource: string,
    authorizesMutation: bool,
    observedAt: nat,
    expiresAt: nat,
    entries: seq<Entry>,
    extensions: seq<Extension>)

  predicate Hex(c: char) {
    '0' <= c <= '9' || 'a' <= c <= 'f' || 'A' <= c <= 'F'
  }

  predicate HexDigest(d: Digest<Value>) {
    d.Sha? || (|d.text| == 71 && d.text[..7] == "sha256:" && forall c :: c in d.text[7..] ==> Hex(c))
  }

  predicate EntryOk(e: Entry) {
    && 0 < |e.targetId| <= 256 && 0 < |e.registeredCapability| <= 256 && 0 < |e.reason| <= 128
    && 0 < |e.advertisedCapabilities| <= 128
    && HexDigest(e.descriptorDigest) && (e.observationDigest.Some? ==> HexDigest(e.observationDigest.value))
    && (forall i, j :: 0 <= i < j < |e.advertisedCapabilities| ==>
        Before(e.advertisedCapabilities[i], e.advertisedCapabilities[j]))
    && e.registeredCapability in e.advertisedCapabilities
  }

  predicate InspectionOk(v: Inspection, now: nat) {
    && v.schemaVersion == "1" && v.evidenceClass == "adapter_host_observation"
    && v.evidenceSource == "domain_local_adapter_host" && !v.authorizesMutation
    && v.observedAt <= now + CLOCK_SKEW && v.observedAt <= v.expiresAt && now <= v.expiresAt
    && |v.entries| <= 1024
    && (forall x :: x in v.extensions ==> !MustUnderstand(x, {}))
    && (forall e :: e in v.entries ==> EntryOk(e))
    && (forall i, j :: 0 <= i < j < |v.entries| ==>
          (v.entries[i].targetId, v.entries[i].registeredCapability)
          != (v.entries[j].targetId, v.entries[j].registeredCapability))
  }

  // ---------------------------------------------------------------- assessments

  datatype DriftState = InSync | Drifted | DriftUnknown

  datatype DriftReason = ExpectedReceiptMissing | EvidenceMissing | EvidenceIncomplete | DriftInSync | DriftDetected

  datatype DriftClass =
    | Unclassified | SafeMetadata | CapabilityRuntime | Membership | TrustIdentity | SecretReference
    | IrreversibleDivergence

  datatype Assessment = Assessment(
    assessmentId: string,
    runId: string,
    manifestDigest: Digest<Manifest>,
    targetId: string,
    expectedDigest: Digest<Value>,
    expectedGeneration: nat,
    observedDigest: Option<Digest<Value>>,
    observedGeneration: Option<nat>,
    state: DriftState,
    driftClass: DriftClass,
    evidenceSource: string,
    observedAt: nat,
    expiresAt: nat,
    reason: DriftReason)

  datatype DriftError =
    | RunUnknown
    | RunNotTerminal
    | DriftEvidenceInvalid
    | DriftBindingInvalid
    | DriftTargetNotFound
    | AssessmentIdCollision
    | AssessmentNotFound
    | ClassReviewRequired
    | NoSuchTarget
    | ReconciliationEvidenceIncomplete
    | ReconciliationInvalid
    | StorageFailed
    | ProposalNotFound
    | GateBindingInvalid
    | ReconciliationReceiptInvalid
    | ReceiptAlreadyRecorded

  function AssessmentId(runId: string, targetId: string, observedAt: nat): string {
    runId + ":" + targetId + ":" + Planner.Decimal(observedAt)
  }

  /** What the target was last proved to hold: the verification of its receipt, or else the adapter's report. */
  function Expectation(row: Row): Option<AdapterReceipt> {
    if row.receipt.None? then None
    else if row.receipt.value.verification.Some? then row.receipt.value.verification
    else row.receipt.value.adapter
  }

  function FindEntry(entries: seq<Entry>, targetId: string, capability: string): Option<Entry> {
    if entries == [] then None
    else if entries[0].targetId == targetId && entries[0].registeredCapability == capability then Some(entries[0])
    else FindEntry(entries[1..], targetId, capability)
  }

  function Compare(expected: Option<AdapterReceipt>,
        evidence: Option<Entry>): (Option<Digest<Value>>, Option<nat>, DriftState, DriftReason)
  {
    if expected.None? then (None, None, DriftUnknown, ExpectedReceiptMissing)
    else
      match evidence
      case None => (None, None, DriftUnknown, EvidenceMissing)
      case Some(e) =>
        if e.observationDigest.None? || e.observedGeneration.None?
        then (e.observationDigest, e.observedGeneration, DriftUnknown, EvidenceIncomplete)
        else if e.observationDigest == Some(expected.value.resultDigest)
          && e.observedGeneration == Some(expected.value.generation)
        then (e.observationDigest, e.observedGeneration, InSync, DriftInSync)
        else (e.observationDigest, e.observedGeneration, Drifted, DriftDetected)
  }

  function AssessTarget(r: Run, t: Target, row: Row, v: Inspection): Assessment {
    var expected := Expectation(row);
    var (digest, generation, state, reason) :=
      Compare(expected, FindEntry(v.entries, t.targetId, t.gate.operation.capability));
    Assessment(
      AssessmentId(r.manifest.runId, t.targetId, v.observedAt), r.manifest.runId, r.digest, t.targetId,
      if expected.Some? then expected.value.resultDigest else t.gate.operation.desiredDigest,
      if expected.Some? then expected.value.generation else t.gate.operation.expectedGeneration,
      digest, generation, state, Unclassified, v.evidenceSource, v.observedAt, v.expiresAt, reason)
  }

  function AssessAll(r: Run, ts: seq<Target>, v: Inspection): Result<seq<Assessment>, DriftError> {
    if ts == [] then Ok([])
    else if ts[0].targetId !in r.rows then Err(DriftTargetNotFound)
    else
      var rest :- AssessAll(r, ts[1..], v);
      Ok([AssessTarget(r, ts[0], r.rows[ts[0].targetId], v)] + rest)
  }

  function Assess(r: Run, v: Inspection, now: nat): Result<seq<Assessment>, DriftError> {
    if !InspectionOk(v, now) then Err(DriftEvidenceInvalid)
    else if r.digest != Sha(r.manifest) then Err(DriftBindingInvalid)
    else AssessAll(r, r.manifest.targets, v)
  }

  method AssessInspection(r: Run, v: Inspection, now: nat) returns (result: Result<seq<Assessment>, DriftError>)
    ensures result == Assess(r, v, now)
  {
    if !InspectionOk(v, now) {
      return Err(DriftEvidenceInvalid);
    }
    if r.digest != Sha(r.manifest) {
      return Err(DriftBindingInvalid);
    }
    var done: seq<Assessment> := [];
    var ts := r.manifest.targets;
    assert ts[0..] == ts && forall rest: seq<Assessment> :: [] + rest == rest;
    for k := 0 to |ts|
      invariant AssessAll(r, ts, v)
             == match AssessAll(r, ts[k..], v) case Ok(rest) => Ok(done + rest) case Err(e) => Err(e)
    {
      assert ts[k..][0] == ts[k] && ts[k..][1..] == ts[k + 1..];
      if ts[k].targetId !in r.rows {
        return Err(DriftTargetNotFound);
      }
      var a := AssessTarget(r, ts[k], r.rows[ts[k].targetId], v);
      ghost var rest := AssessAll(r, ts[k + 1..], v);
      assert rest.Ok? ==> done + ([a] + rest.value) == (done + [a]) + rest.value;
      done := done + [a];
    }
    assert ts[|ts|..] == [] && done + [] == done;
    return Ok(done);
  }

  // ---------------------------------------------------------------- the tables

  datatype Proposal = Proposal(
    schemaVersion: string,
    proposalId: string,
    runId: string,
    targetId: string,
    assessmentDigest: Digest<Assessment>,
    driftClass: DriftClass,
    desiredDigest: Digest<Value>,
    expectedGeneration: nat,
    relatedOperation: string,
    createdAt: nat,
    expiresAt: nat,
    requiresFreshGate: bool,
    authorizesMutation: bool)

  datatype ProposalRow = ProposalRow(proposal: Proposal, receipt: Option<LifecycleReceipt>)

  datatype Tables = Tables(assessments: seq<Assessment>, proposals: map<string, ProposalRow>)

  const NO_ROWS := Tables([], map[])

  function FindAssessment(rows: seq<Assessment>, id: string): Option<Assessment> {
    if rows == [] then None else if rows[0].assessmentId == id then Some(rows[0]) else FindAssessment(rows[1..], id)
  }

  /** The newest row for a target, by the time it was observed. */
  function Latest(rows: seq<Assessment>, runId: string, targetId: string): Option<Assessment> {
    if rows == [] then None
    else
      var rest := Latest(rows[1..], runId, targetId);
      if rows[0].runId == runId && rows[0].targetId == targetId
        && (rest.None? || rows[0].observedAt >= rest.value.observedAt)
      then Some(rows[0])
      else rest
  }

  function InsertAll(rows: seq<Assessment>, more: seq<Assessment>): Result<seq<Assessment>, DriftError>
    decreases |more|
  {
    if more == [] then Ok(rows)
    else
      match FindAssessment(rows, more[0].assessmentId)
      case None => InsertAll(rows + [more[0]], more[1..])
      case Some(existing) => if existing == more[0] then InsertAll(rows, more[1..]) else Err(AssessmentIdCollision)
  }

  predicate Permits(c: DriftClass) {
    c == SafeMetadata || c == CapabilityRuntime
  }

  predicate ProposalFits(p: Proposal, a: Assessment, now: nat) {
    && p.schemaVersion == RECONCILIATION_SCHEMA && !p.authorizesMutation && p.requiresFreshGate
    && p.runId == a.runId && p.targetId == a.targetId
    && p.assessmentDigest == Sha(a)
    && a.state == Drifted && now <= a.expiresAt
    && Permits(p.driftClass)
    && a.observedGeneration == Some(p.expectedGeneration)
    && p.createdAt <= now <= p.expiresAt && p.createdAt < p.expiresAt
  }

  function ProposalFault(p: Proposal, a: Assessment, now: nat): Option<DriftError> {
    if ProposalFits(p, a, now) then None
    else if
      p.schemaVersion == RECONCILIATION_SCHEMA && !p.authorizesMutation && p.requiresFreshGate && p.runId == a.runId
      && p.targetId == a.targetId && p.assessmentDigest == Sha(a) && a.state == Drifted && now <= a.expiresAt
      && Permits(p.driftClass) && a.observedGeneration.None?
    then Some(ReconciliationEvidenceIncomplete)
    else Some(ReconciliationInvalid)
  }

  type Outcome = (Tables, Option<DriftError>)

  function AssessDrift(t: Tables, runs: map<string, Run>, runId: string, v: Inspection, now: nat): Outcome {
    if runId !in runs then (t, Some(RunUnknown))
    else if runs[runId].state != RunConverged && runs[runId].state != RunPartial then (t, Some(RunNotTerminal))
    else
      match Assess(runs[runId], v, now)
      case Err(e) => (t, Some(e))
      case Ok(more) =>
        match InsertAll(t.assessments, more)
        case Err(e) => (t, Some(e))
        case Ok(rows) => (t.(assessments := rows), None)
  }

  function NewProposal(a: Assessment, r: Run, t: Target, runId: string, c: DriftClass, now: nat): Proposal
    requires a.observedGeneration.Some?
  {
    Proposal(RECONCILIATION_SCHEMA, "reconcile:" + runId + ":" + t.targetId + ":" + Planner.Decimal(now), runId,
             t.targetId, Sha(a), c, a.expectedDigest, a.observedGeneration.value, t.gate.operation.operationId,
             now, now + PROPOSAL_LIFETIME, true, false)
  }

  function Propose(t: Tables, runs: map<string, Run>, runId: string, targetId: string, c: DriftClass, now: nat): Outcome
  {
    if !Permits(c) then (t, Some(ClassReviewRequired))
    else
      var latest := Latest(t.assessments, runId, targetId);
      if latest.None? then (t, Some(AssessmentNotFound))
      else if runId !in runs then (t, Some(RunUnknown))
      else
        var target := FindTarget(runs[runId].manifest.targets, targetId);
        if target.None? then (t, Some(NoSuchTarget))
        else if latest.value.observedGeneration.None? then (t, Some(ReconciliationEvidenceIncomplete))
        else
          var p := NewProposal(latest.value, runs[runId], target.value, runId, c, now);
          var fault := ProposalFault(p, latest.value, now);
          if fault.Some? then (t, fault)
          else if p.proposalId in t.proposals then (t, Some(StorageFailed))
          else (t.(proposals := t.proposals[p.proposalId := ProposalRow(p, None)]), None)
  }

  predicate GateFits(g: ApplyGate, p: Proposal, m: Manifest, now: nat) {
    && ApplyGateFault(g, now).None?
    && g.operation.targetId == p.targetId && g.operation.desiredDigest == p.desiredDigest
    && g.operation.expectedGeneration == p.expectedGeneration
    && g.operation.related == Some(p.relatedOperation)
    && g.request.body.domain == m.domain && g.request.body.audience == m.audience
  }

  /** Whether a fresh apply gate may act on a proposal now. */
  function GateFault(t: Tables, runs: map<string, Run>, proposalId: string, g: ApplyGate, now: nat): Option<DriftError>
  {
    if proposalId !in t.proposals then Some(ProposalNotFound)
    else
      var p := t.proposals[proposalId].proposal;
      var latest := Latest(t.assessments, p.runId, p.targetId);
      if latest.None? then Some(AssessmentNotFound)
      else if ProposalFault(p, latest.value, now).Some? then ProposalFault(p, latest.value, now)
      else if p.runId !in runs then Some(RunUnknown)
      else if !GateFits(g, p, runs[p.runId].manifest, now) then Some(GateBindingInvalid)
      else None
  }

  function RecordReconciliation(t: Tables, runs: map<string, Run>, proposalId: string, g: ApplyGate,
        receipt: LifecycleReceipt, now: nat): Outcome
  {
    var fault := GateFault(t, runs, proposalId, g, now);
    if fault.Some? then (t, fault)
    else
      var row := t.proposals[proposalId];
      if receipt.operationId != g.operation.operationId || receipt.operationId == row.proposal.relatedOperation
      then (t, Some(ReconciliationReceiptInvalid))
      else if row.receipt.Some? then (t, Some(ReceiptAlreadyRecorded))
      else (t.(proposals := t.proposals[proposalId := row.(receipt := Some(receipt))]), None)
  }

  lemma {:induction false} InsertOnlyCollides(rows: seq<Assessment>, more: seq<Assessment>)
    ensures InsertAll(rows, more).Err? ==> InsertAll(rows, more) == Err(AssessmentIdCollision)
    decreases |more|
  {
    if more == [] {
    } else {
      var existing := FindAssessment(rows, more[0].assessmentId);
      InsertOnlyCollides(if existing.None? then rows + [more[0]] else rows, more[1..]);
    }
  }

  class ReconciliationStore {
    var assessments: seq<Assessment>
    var proposals: map<string, ProposalRow>

    ghost function View(): Tables
      reads this
    {
      Tables(assessments, proposals)
    }

    constructor ()
      ensures View() == NO_ROWS
    {
      assessments, proposals := [], map[];
    }

    /** Inserts them all, or, when one collides with a different row of the same id, none. */
    method Append(more: seq<Assessment>) returns (ok: bool)
      modifies `assessments
      ensures
        match InsertAll(old(assessments), more)
        case Ok(rows) => ok && assessments == rows
        case Err(_) => !ok && assessments == old(assessments)
    {
      var saved := assessments;
      for k := 0 to |more|
        invariant InsertAll(saved, more) == InsertAll(assessments, more[k..])
      {
        assert more[k..][0] == more[k] && more[k..][1..] == more[k + 1..];
        var existing := FindAssessment(assessments, more[k].assessmentId);
        if existing.None? {
          assessments := assessments + [more[k]];
        } else if existing.value != more[k] {
          assessments := saved;
          return false;
        }
      }
      return true;
    }

    method AssessRun(runs: map<string, Run>, runId: string, v: Inspection, now: nat) returns (error: Option<DriftError>)
      modifies `assessments
      ensures (View(), error) == AssessDrift(old(View()), runs, runId, v, now)
    {
      if runId !in runs {
        return Some(RunUnknown);
      }
      if runs[runId].state != RunConverged && runs[runId].state != RunPartial {
        return Some(RunNotTerminal);
      }
      var assessed := AssessInspection(runs[runId], v, now);
      if assessed.Err? {
        return Some(assessed.error);
      }
      InsertOnlyCollides(assessments, assessed.value);
      var ok := Append(assessed.value);
      return if ok then None else Some(AssessmentIdCollision);
    }

    method CreateProposal(runs: map<string, Run>, runId: string, targetId: string, c: DriftClass, now: nat)
      returns (error: Option<DriftError>)
      modifies `proposals
      ensures (View(), error) == Propose(old(View()), runs, runId, targetId, c, now)
    {
      if !Permits(c) {
        return Some(ClassReviewRequired);
      }
      var latest := Latest(assessments, runId, targetId);
      if latest.None? {
        return Some(AssessmentNotFound);
      }
      if runId !in runs {
        return Some(RunUnknown);
      }
      var target := FindTarget(runs[runId].manifest.targets, targetId);
      if target.None? {
        return Some(NoSuchTarget);
      }
      if latest.value.observedGeneration.None? {
        return Some(ReconciliationEvidenceIncomplete);
      }
      var p := NewProposal(latest.value, runs[runId], target.value, runId, c, now);
      var fault := ProposalFault(p, latest.value, now);
      if fault.Some? {
        return fault;
      }
      if p.proposalId in proposals {
        return Some(StorageFailed);
      }
      proposals := proposals[p.proposalId := ProposalRow(p, None)];
      return None;
    }

    method RecordReceipt(runs: map<string, Run>, proposalId: string, g: ApplyGate, receipt: LifecycleReceipt, now: nat)
      returns (error: Option<DriftError>)
      modifies `proposals
      ensures (View(), error) == RecordReconciliation(old(View()), runs, proposalId, g, receipt, now)
    {
      var fault := GateFault(Tables(assessments, proposals), runs, proposalId, g, now);
      if fault.Some? {
        return fault;
      }
      var row := proposals[proposalId];
      if receipt.operationId != g.operation.operationId || receipt.operationId == row.proposal.relatedOperation {
        return Some(ReconciliationReceiptInvalid);
      }
      if row.receipt.Some? {
        return Some(ReceiptAlreadyRecorded);
      }
      proposals := proposals[proposalId := row.(receipt := Some(receipt))];
      return None;
    }
  }

  // ---------------------------------------------------------------- the newest assessment

  predicate About(a: Assessment, runId: string, targetId: string) {
    a.runId == runId && a.targetId == targetId
  }

  /** The row chosen is one about the target, and none about it was observed later. */
  lemma {:induction false} LatestIsNewest(rows: seq<Assessment>, runId: string, targetId: string)
    ensures
      match Latest(rows, runId, targetId)
      case None => forall a :: a in rows ==> !About(a, runId, targetId)
      case Some(latest) =>
        && latest in rows && About(latest, runId, targetId)
        && forall a :: a in rows && About(a, runId, targetId) ==> a.observedAt <= latest.observedAt
  {
    if rows == [] {
    } else {
      LatestIsNewest(rows[1..], runId, targetId);
      assert forall a :: a in rows ==> a == rows[0] || a in rows[1..];
    }
  }

  /** A proposal passes its gate only on the newest assessment of its target, found drifted and still current. */
  lemma {:induction false} GatePassesOnlyOnNewest(t: Tables, runs: map<string, Run>, proposalId: string, g: ApplyGate,
        now: nat)
    requires GateFault(t, runs, proposalId, g, now).None?
    ensures
      var p := t.proposals[proposalId].proposal;
      exists a :: a in t.assessments && About(a, p.runId, p.targetId) && p.assessmentDigest == Sha(a)
        && a.state == Drifted
        && now <= a.expiresAt
        && a.observedGeneration == Some(g.operation.expectedGeneration)
        && forall b :: b in t.assessments && About(b, p.runId, p.targetId) ==> b.observedAt <= a.observedAt
  {
    var p := t.proposals[proposalId].proposal;
    LatestIsNewest(t.assessments, p.runId, p.targetId);
    var a := Latest(t.assessments, p.runId, p.targetId).value;
    assert a in t.assessments && About(a, p.runId, p.targetId);
  }

  // ---------------------------------------------------------------- runs

  datatype Happening =
    | Assessed(runs: map<string, Run>, runId: string, inspection: Inspection, now: nat)
    | Proposed(runs: map<string, Run>, runId: string, targetId: string, driftClass: DriftClass, now: nat)
    | Recorded(runs: map<string, Run>, proposalId: string, gate: ApplyGate, receipt: LifecycleReceipt, now: nat)

  function After(t: Tables, h: Happening): Tables {
    match h
    case Assessed(runs, runId, v, now) => AssessDrift(t, runs, runId, v, now).0
    case Proposed(runs, runId, targetId, c, now) => Propose(t, runs, runId, targetId, c, now).0
    case Recorded(runs, id, g, receipt, now) => RecordReconciliation(t, runs, id, g, receipt, now).0
  }

  function AfterAll(t: Tables, hs: seq<Happening>): Tables
    decreases |hs|
  {
    if hs == [] then t else AfterAll(After(t, hs[0]), hs[1..])
  }

  /** Rows are never removed or changed; a proposal only ever gains the receipt it lacks. */
  ghost predicate Grows(t: Tables, later: Tables) {
    && t.assessments <= later.assessments
    && forall id :: id in t.proposals ==>
         && id in later.proposals && later.proposals[id].proposal == t.proposals[id].proposal
         && (t.proposals[id].receipt.Some? ==> later.proposals[id].receipt == t.proposals[id].receipt)
  }

  lemma {:induction false} InsertAppends(rows: seq<Assessment>, more: seq<Assessment>)
    ensures InsertAll(rows, more).Ok? ==> rows <= InsertAll(rows, more).value
    decreases |more|
  {
    if more == [] {
    } else {
      InsertAppends(if FindAssessment(rows, more[0].assessmentId).None? then rows + [more[0]] else rows, more[1..]);
    }
  }

  lemma {:induction false} AssessGrows(t: Tables, runs: map<string, Run>, runId: string, v: Inspection, now: nat)
    ensures Grows(t, AssessDrift(t, runs, runId, v, now).0)
  {
    if runId in runs && Assess(runs[runId], v, now).Ok? {
      InsertAppends(t.assessments, Assess(runs[runId], v, now).value);
    }
  }

  lemma {:induction false} ProposeGrows(t: Tables, runs: map<string, Run>, runId: string, targetId: string,
        c: DriftClass, now: nat)
    ensures Grows(t, Propose(t, runs, runId, targetId, c, now).0)
  {
  }

  lemma {:induction false} RecordGrows(t: Tables, runs: map<string, Run>, id: string, g: ApplyGate,
        receipt: LifecycleReceipt, now: nat)
    ensures Grows(t, RecordReconciliation(t, runs, id, g, receipt, now).0)
  {
  }

  lemma {:induction false} AfterGrows(t: Tables, h: Happening)
    ensures Grows(t, After(t, h))
  {
    match h {
      case Assessed(runs, runId, v, now) => AssessGrows(t, runs, runId, v, now);
      case Proposed(runs, runId, targetId, c, now) => ProposeGrows(t, runs, runId, targetId, c, now);
      case Recorded(runs, id, g, receipt, now) => RecordGrows(t, runs, id, g, receipt, now);
    }
  }

  lemma {:induction false} AfterAllGrows(t: Tables, hs: seq<Happening>)
    ensures Grows(t, AfterAll(t, hs))
    decreases |hs|
  {
    if hs == [] {
    } else {
      AfterGrows(t, hs[0]);
      AfterAllGrows(After(t, hs[0]), hs[1..]);
    }
  }

  /**
   Once an assessment observed later than the one a proposal was made for has arrived, in whatever
   order inspections come in, no gate ever lets that proposal act again.
   */
  lemma {:induction false} SupersededNeverPasses(
    t: Tables, proposalId: string, basis: Assessment, newer: Assessment, hs: seq<Happening>, runs: map<string, Run>,
      g: ApplyGate, now: nat)
    requires proposalId in t.proposals
    requires t.proposals[proposalId].proposal.assessmentDigest == Sha(basis)
    requires newer in t.assessments
             && About(newer, t.proposals[proposalId].proposal.runId, t.proposals[proposalId].proposal.targetId)
    requires basis.observedAt < newer.observedAt
    ensures GateFault(AfterAll(t, hs), runs, proposalId, g, now).Some?
  {
    var later := AfterAll(t, hs);
    AfterAllGrows(t, hs);
    var p := t.proposals[proposalId].proposal;
    LatestIsNewest(later.assessments, p.runId, p.targetId);
    assert newer in later.assessments;
  }

  /** A proposal repeats what its assessment expected, and starts from the generation it observed. */
  predicate ProposalTrue(p: Proposal) {
    && p.assessmentDigest.Sha?
    && p.desiredDigest == p.assessmentDigest.of.expectedDigest
    && p.assessmentDigest.of.observedGeneration == Some(p.expectedGeneration)
    && p.assessmentDigest.of.state == Drifted && Permits(p.driftClass)
  }

  ghost predicate ProposalsTrue(t: Tables) {
    forall id :: id in t.proposals ==> ProposalTrue(t.proposals[id].proposal)
  }

  lemma {:induction false} ProposeKeepsTrue(t: Tables, runs: map<string, Run>, runId: string, targetId: string,
        c: DriftClass, now: nat)
    requires ProposalsTrue(t)
    ensures ProposalsTrue(Propose(t, runs, runId, targetId, c, now).0)
  {
  }

  lemma {:induction false} AfterAllKeepsTrue(t: Tables, hs: seq<Happening>)
    requires ProposalsTrue(t)
    ensures ProposalsTrue(AfterAll(t, hs))
    decreases |hs|
  {
    if hs == [] {
    } else {
      match hs[0] {
        case Assessed(_, _, _, _) =>
        case Proposed(runs, runId, targetId, c, now) => ProposeKeepsTrue(t, runs, runId, targetId, c, now);
        case Recorded(runs, id, g, receipt, now) => RecordGrows(t, runs, id, g, receipt, now);
      }
      AfterAllKeepsTrue(After(t, hs[0]), hs[1..]);
    }
  }

  /**
   In every reachable store, a gate that passes carries an operation that writes exactly the state
   the newest assessment of its target expected, from exactly the generation it observed.
   */
  lemma {:induction false} ReconciliationRestoresExpectation(hs: seq<Happening>, runs: map<string, Run>,
        proposalId: string, g: ApplyGate, now: nat)
    requires GateFault(AfterAll(NO_ROWS, hs), runs, proposalId, g, now).None?
    ensures
      var t := AfterAll(NO_ROWS, hs);
      var p := t.proposals[proposalId].proposal;
      var newest := Latest(t.assessments, p.runId, p.targetId);
      && newest.Some? && newest.value.state == Drifted
      && newest.value.expectedDigest == Sha(g.operation.desired)
      && newest.value.observedGeneration == Some(g.operation.expectedGeneration)
      && g.operation.targetId == newest.value.targetId
  {
    AfterAllKeepsTrue(NO_ROWS, hs);
    var t := AfterAll(NO_ROWS, hs);
    var p := t.proposals[proposalId].proposal;
    LatestIsNewest(t.assessments, p.runId, p.targetId);
  }

  /** A proposal gets one receipt at most, for an operation other than the one it repairs, and keeps it. */
  lemma {:induction false} OneReceiptPerProposal(t: Tables, first: Happening, between: seq<Happening>, again: Happening)
    requires first.Recorded? && again.Recorded? && first.proposalId == again.proposalId
    requires RecordReconciliation(t, first.runs, first.proposalId, first.gate, first.receipt, first.now).1.None?
    ensures
      var later := AfterAll(After(t, first), between);
      var row := t.proposals[first.proposalId];
      && row.receipt.None? && first.receipt.operationId != row.proposal.relatedOperation
      && first.proposalId in later.proposals && later.proposals[first.proposalId].receipt == Some(first.receipt)
      && RecordReconciliation(later, again.runs, again.proposalId, again.gate, again.receipt, again.now).1.Some?
      && After(later, again) == later
  {
    AfterAllGrows(After(t, first), between);
  }

  // ---------------------------------------------------------------- what an assessment says

  /** Drifted is only said of a target with a proved expectation and complete evidence that differs from it. */
  lemma {:induction false} DriftIsEvidenced(r: Run, t: Target, row: Row, v: Inspection)
    ensures
      var a := AssessTarget(r, t, row, v);
      var expected := Expectation(row);
      && (a.state == Drifted || a.state == InSync ==>
            expected.Some? && a.observedDigest.Some? && a.observedGeneration.Some?
            && a.expectedDigest == expected.value.resultDigest && a.expectedGeneration == expected.value.generation)
      && (a.state == InSync <==>
            expected.Some? && a.observedDigest == Some(a.expectedDigest)
              && a.observedGeneration == Some(a.expectedGeneration))
  {
  }

  ghost predicate StillExpected(r: Run, id: string, events: seq<Event>)
    requires id in r.rows
  {
    var later := RunAll(r, events);
    id in later.rows && Expectation(later.rows[id]) == Expectation(r.rows[id])
  }

  /** A receipt for the target's operation that proves nothing. */
  function BareReceipt(t: Target): LifecycleReceipt {
    var o := t.gate.operation;
    LifecycleReceipt(
      o.operationId, AuthorizationReceipt(o.operationId, Accepted, None, Sha(o), Sha(t.gate.authorization)),
      None, None, ExecFailed, OutcomeUnknownReason, ManualReviewRequired)
  }

  lemma {:induction false} OpenRowTakesReceipt(r: Run, id: string)
    requires id in r.rows && !Final(r.rows[id]) && FindTarget(r.manifest.targets, id).Some?
    ensures
      var receipt := BareReceipt(FindTarget(r.manifest.targets, id).value);
      Step(r, ReceiptEvent(id, receipt)).rows[id] == Received(r.rows[id], receipt)
  {
  }

  lemma {:induction false} RunOnce(r: Run, e: Event)
    ensures RunAll(r, [e]) == Step(r, e)
  {
    assert RunAll(Step(r, e), [e][1..]) == Step(r, e);
  }

  /**
   An assessment is made of what its target was last proved to hold, and a proposal for it may act
   later. Whatever the run goes through in between, that expectation is still the run's own exactly
   when the target was final: a deferred one can take another receipt.
   */
  lemma {:induction false} ExpectationStandsIff(r: Run, id: string)
    requires Durable(r) && id in r.rows && Expectation(r.rows[id]).Some?
    ensures (forall events :: StillExpected(r, id, events)) <==> Final(r.rows[id])
  {
    if Final(r.rows[id]) {
      forall events ensures StillExpected(r, id, events) {
        FinalTargetStays(r, events, id);
      }
    } else {
      assert RowOk(r.manifest, r.currentBatch, id, r.rows[id]);
      var e := ReceiptEvent(id, BareReceipt(FindTarget(r.manifest.targets, id).value));
      OpenRowTakesReceipt(r, id);
      RunOnce(r, e);
      assert !StillExpected(r, id, [e]);
    }
  }
}
