/**
 One rollout run as a state machine: targets take receipts in any order, and whenever the current
 batch has nothing left to do the run state is decided anew. An operation on a target is two
 writes, first the target's row and then the run, and the process can end between them.
 */
module Rollout {
  import opened Common
  import opened Gates
  import opened RolloutManifest

  const PARTIAL_ACCEPTANCE_SCHEMA := "iicp.management-partial-acceptance.v1"

  datatype RunState = RunPending | RunRunning | RunPaused | RunConverged | RunPartial | RunFailed

  datatype TargetState =
    | TargetPending | TargetRunning | TargetConverged | TargetDeferred | TargetRejected | TargetFailed | TargetHeld

  datatype Note =
    | PendingNote | ExecutionStarted | ExplicitRetry | FromReceipt(reason: ExecutionReason) | FromError(text: string)

  datatype Row = Row(executorRef: string, batch: nat, required: bool, state: TargetState, note: Note,
                     receipt: Option<LifecycleReceipt>)

  datatype Run = Run(
    manifest: Manifest,
    digest: Digest<Manifest>,
    state: RunState,
    currentBatch: nat,
    version: nat,
    partialAccepted: bool,
    rows: map<string, Row>)

  datatype RolloutError =
    | Unacceptable(error: ManifestError)
    | RunIdCollision
    | NotFound
    | StateTransitionInvalid
    | NotRunnable
    | TargetNotFound
    | TargetNotRunnable
    | ReceiptBindingInvalid
    | RetryNotAllowed
    | AcceptanceInvalid
    | AcceptanceSignatureInvalid
    | ExecutorNotConfigured

  // ---------------------------------------------------------------- creation and lookup

  function TargetIds(ts: seq<Target>): set<string> {
    set t | t in ts :: t.targetId
  }

  function FindTarget(ts: seq<Target>, id: string): Option<Target> {
    if ts == [] then None else if ts[0].targetId == id then Some(ts[0]) else FindTarget(ts[1..], id)
  }

  function FreshRow(t: Target): Row {
    Row(t.executorRef, t.batch, t.required, TargetPending, PendingNote, None)
  }

  lemma {:induction false} FindsEachTarget(ts: seq<Target>, id: string)
    ensures FindTarget(ts, id).Some? <==> id in TargetIds(ts)
    ensures FindTarget(ts, id).Some? ==> FindTarget(ts, id).value in ts && FindTarget(ts, id).value.targetId == id
  {
    if ts == [] {
    } else {
      FindsEachTarget(ts[1..], id);
      assert forall t :: t in ts <==> t == ts[0] || t in ts[1..];
      assert ts[0] in ts;
    }
  }

  function FreshRows(ts: seq<Target>): map<string, Row> {
    map id | id in TargetIds(ts) && FindTarget(ts, id).Some? :: FreshRow(FindTarget(ts, id).value)
  }

  function NewRun(m: Manifest): Run {
    Run(m, Sha(m), RunPending, 0, 0, false, FreshRows(m.targets))
  }

  // ---------------------------------------------------------------- the verdict on a batch

  predicate Unfinished(row: Row) {
    row.state == TargetPending || row.state == TargetRunning
  }

  predicate Busy(r: Run) {
    exists id :: id in r.rows && r.rows[id].batch == r.currentBatch && Unfinished(r.rows[id])
  }

  /** Some required (or some optional) target of the current batch has not converged. */
  predicate Unconverged(r: Run, required: bool) {
    exists id :: id in r.rows && r.rows[id].batch == r.currentBatch && r.rows[id].required == required
      && r.rows[id].state != TargetConverged
  }

  predicate AllConverged(r: Run) {
    forall id :: id in r.rows ==> r.rows[id].state == TargetConverged
  }

  function Verdict(r: Run): (RunState, nat) {
    var last := LastOf(r.manifest.targets);
    if r.currentBatch > 0 && r.currentBatch == last && (Unconverged(r, true) || Unconverged(r, false))
    then (RunPartial, r.currentBatch)
    else if Unconverged(r, true) || (Unconverged(r, false) && r.manifest.failurePolicy == StopAndHold)
    then (RunPaused, r.currentBatch)
    else if r.currentBatch < last then (RunRunning, r.currentBatch + 1)
    else (if AllConverged(r) then RunConverged else RunPartial, r.currentBatch)
  }

  function Recalculate(r: Run): Run {
    if Busy(r) then r
    else
      var (state, batch) := Verdict(r);
      r.(state := state, currentBatch := batch, version := r.version + 1)
  }

  // ---------------------------------------------------------------- operations

  type Update = Result<Run, RolloutError>

  function Pause(r: Run): Update {
    if r.state == RunRunning then Ok(r.(state := RunPaused, version := r.version + 1)) else Err(StateTransitionInvalid)
  }

  function Resume(r: Run): Update {
    if r.state == RunPaused then Ok(r.(state := RunRunning, version := r.version + 1)) else Err(StateTransitionInvalid)
  }

  predicate Runnable(r: Run, t: Target) {
    t.batch == r.currentBatch && t.targetId in r.rows && Unfinished(r.rows[t.targetId])
  }

  function RunnableAmong(r: Run, ts: seq<Target>): seq<Target> {
    if ts == [] then []
    else if Runnable(r, ts[0]) then [ts[0]] + RunnableAmong(r, ts[1..])
    else RunnableAmong(r, ts[1..])
  }

  function RunnableTargets(r: Run): Result<seq<Target>, RolloutError> {
    if r.state == RunPaused || r.state == RunConverged || r.state == RunFailed then Err(NotRunnable)
    else Ok(RunnableAmong(r, r.manifest.targets))
  }

  function SetRow(r: Run, id: string, row: Row): Run {
    r.(rows := r.rows[id := row])
  }

  /** The first write of a mark. */
  function MarkRow(r: Run, id: string): Update {
    if id !in r.rows || !Unfinished(r.rows[id]) then Err(TargetNotRunnable)
    else Ok(SetRow(r, id, r.rows[id].(state := TargetRunning, note := ExecutionStarted)))
  }

  /** The second: a pending run is running now, and no other run changes. */
  function StartRun(r: Run): Run {
    if r.state == RunPending || r.state == RunRunning then r.(state := RunRunning) else r
  }

  function MarkRunning(r: Run, id: string): Update {
    match MarkRow(r, id)
    case Err(e) => Err(e)
    case Ok(marked) => Ok(StartRun(marked))
  }

  function StateFrom(receipt: LifecycleReceipt): TargetState {
    match receipt.state
    case ExecConverged => TargetConverged
    case ExecPartiallyConverged => TargetFailed
    case ExecDeferred => TargetDeferred
    case ExecFailed => if receipt.authorization.decision == Rejected then TargetRejected else TargetFailed
  }

  predicate Receptive(row: Row) {
    Unfinished(row) || row.state == TargetDeferred || row.state == TargetHeld
  }

  function Received(row: Row, receipt: LifecycleReceipt): Row {
    row.(state := StateFrom(receipt), note := FromReceipt(receipt.reason), receipt := Some(receipt))
  }

  /** The first write of a receipt; the second decides the run anew. */
  function ReceiptRow(r: Run, id: string, receipt: LifecycleReceipt): Update {
    var target := FindTarget(r.manifest.targets, id);
    if target.None? then Err(TargetNotFound)
    else if receipt.operationId != target.value.gate.operation.operationId then Err(ReceiptBindingInvalid)
    else if id !in r.rows || !Receptive(r.rows[id]) then Err(TargetNotRunnable)
    else Ok(SetRow(r, id, Received(r.rows[id], receipt)))
  }

  function RecordReceipt(r: Run, id: string, receipt: LifecycleReceipt): Update {
    match ReceiptRow(r, id, receipt)
    case Err(e) => Err(e)
    case Ok(received) => Ok(Recalculate(received))
  }

  predicate Interruptible(row: Row) {
    Unfinished(row) || row.state == TargetDeferred
  }

  /** The first write of a failed execution, if a row matches. */
  function ErrorRow(r: Run, id: string, text: string): Run {
    if id in r.rows && Interruptible(r.rows[id])
    then SetRow(r, id, r.rows[id].(state := TargetDeferred, note := FromError(text)))
    else r
  }

  /** An execution that could not be attempted or answered; the run is recalculated even if no row matches. */
  function RecordExecutionError(r: Run, id: string, text: string): Run {
    Recalculate(ErrorRow(r, id, text))
  }

  /** The first write of a retry. */
  function RetryRow(r: Run, id: string): Update {
    if id !in r.rows then Err(TargetNotFound)
    else if r.rows[id].state != TargetDeferred then Err(RetryNotAllowed)
    else Ok(SetRow(r, id, r.rows[id].(state := TargetRunning, note := ExplicitRetry)))
  }

  /** The second: whatever the run was, it is running again. */
  function Reopen(r: Run): Run {
    r.(state := RunRunning, version := r.version + 1)
  }

  function PrepareRetry(r: Run, id: string): Update {
    match RetryRow(r, id)
    case Err(e) => Err(e)
    case Ok(retried) => Ok(Reopen(retried))
  }

  datatype Acceptance = Acceptance(
    schemaVersion: string,
    acceptanceId: string,
    issuerId: string,
    audience: string,
    domain: string,
    runId: string,
    manifestDigest: Digest<Manifest>,
    expectedVersion: nat,
    issuedAt: nat,
    expiresAt: nat,
    signatureProfile: string)

  predicate AcceptanceFits(a: Acceptance, r: Run, now: nat) {
    && a.schemaVersion == PARTIAL_ACCEPTANCE_SCHEMA && a.signatureProfile == SIGNATURE_PROFILE
    && !Blank(a.acceptanceId) && !Blank(a.issuerId) && !Blank(a.audience) && !Blank(a.domain)
    && a.domain == r.manifest.domain && a.audience == r.manifest.audience
    && a.runId == r.manifest.runId && a.manifestDigest == r.digest && a.expectedVersion == r.version
    && a.issuedAt <= now <= a.expiresAt && a.issuedAt < a.expiresAt
    && r.state == RunPartial && !r.partialAccepted
  }

  function AcceptPartial(r: Run, a: Signed<Acceptance>, key: string, now: nat): Update {
    if !AcceptanceFits(a.body, r, now) then Err(AcceptanceInvalid)
    else if !SignedBy(a, key) then Err(AcceptanceSignatureInvalid)
    else Ok(r.(partialAccepted := true, version := r.version + 1))
  }

  // ---------------------------------------------------------------- runs of a rollout

  datatype Event =
    | PauseEvent
    | ResumeEvent
    | MarkEvent(id: string)
    | ReceiptEvent(id: string, receipt: LifecycleReceipt)
    | ErrorEvent(id: string, text: string)
    | RetryEvent(id: string)
    | AcceptEvent(acceptance: Signed<Acceptance>, key: string, now: nat)
    | MarkCut(id: string)
    | ReceiptCut(id: string, receipt: LifecycleReceipt)
    | ErrorCut(id: string, text: string)
    | RetryCut(id: string)

  /** Not cut off between two writes. */
  predicate Whole(e: Event) {
    !e.MarkCut? && !e.ReceiptCut? && !e.ErrorCut? && !e.RetryCut?
  }

  predicate AllWhole(events: seq<Event>) {
    forall e :: e in events ==> Whole(e)
  }

  function Try(r: Run, e: Event): Update {
    match e
    case PauseEvent => Pause(r)
    case ResumeEvent => Resume(r)
    case MarkEvent(id) => MarkRunning(r, id)
    case ReceiptEvent(id, receipt) => RecordReceipt(r, id, receipt)
    case ErrorEvent(id, text) => Ok(RecordExecutionError(r, id, text))
    case RetryEvent(id) => PrepareRetry(r, id)
    case AcceptEvent(a, key, now) => AcceptPartial(r, a, key, now)
    case MarkCut(id) => MarkRow(r, id)
    case ReceiptCut(id, receipt) => ReceiptRow(r, id, receipt)
    case ErrorCut(id, text) => Ok(ErrorRow(r, id, text))
    case RetryCut(id) => RetryRow(r, id)
  }

  /** An operation that errs changes nothing. */
  function Step(r: Run, e: Event): Run {
    match Try(r, e)
    case Ok(next) => next
    case Err(_) => r
  }

  /** What an operation comes to when the process ends after so many of its two writes. */
  function Cut(r: Run, first: Event, whole: Event, writes: nat): Update {
    if writes == 0 then Ok(r) else if writes == 1 then Try(r, first) else Try(r, whole)
  }

  function RunAll(r: Run, events: seq<Event>): Run
    decreases |events|
  {
    if events == [] then r else RunAll(Step(r, events[0]), events[1..])
  }

  // ---------------------------------------------------------------- the invariant

  /** A row holds no receipt but its own operation's, and a settled or deferred row has a reason to be so. */
  predicate Explained(row: Row, operationId: string) {
    && (row.receipt.Some? ==> row.receipt.value.operationId == operationId)
    && match row.state
       case TargetConverged => row.receipt.Some? && row.receipt.value.state == ExecConverged
       case TargetRejected =>
         row.receipt.Some? && row.receipt.value.state == ExecFailed
           && row.receipt.value.authorization.decision == Rejected
       case TargetFailed =>
         && row.receipt.Some?
         && (row.receipt.value.state == ExecPartiallyConverged
             || (row.receipt.value.state == ExecFailed && row.receipt.value.authorization.decision != Rejected))
       case TargetDeferred => row.note.FromError? || (row.receipt.Some? && row.receipt.value.state == ExecDeferred)
       case _ => true
  }

  /**
   What holds of a row while batch `current` is being worked on: it stands for its target,
   its state is explained, nothing below is pending, and below `current` all
   that must have converged has.
   */
  predicate RowOk(m: Manifest, current: nat, id: string, row: Row) {
    var t := FindTarget(m.targets, id);
    && t.Some? && row.batch == t.value.batch <= LastOf(m.targets) && row.required == t.value.required
    && (row.batch == 0 ==> row.required)
    && row.state != TargetHeld
    && Explained(row, t.value.gate.operation.operationId)
    && (row.state == TargetPending ==> row.batch >= current)
    && (row.batch < current && (row.required || m.failurePolicy == StopAndHold) ==> row.state == TargetConverged)
  }

  ghost predicate Core(r: Run) {
    && r.digest == Sha(r.manifest) && r.currentBatch <= LastOf(r.manifest.targets)
    && forall id {:trigger r.rows[id]} :: id in r.rows ==> RowOk(r.manifest, r.currentBatch, id, r.rows[id])
  }

  /** What the run state says even after operations were cut off. */
  predicate StateStands(r: Run) {
    && r.state != RunFailed
    && (r.state == RunConverged ==> r.currentBatch == LastOf(r.manifest.targets) && AllConverged(r))
    && (r.state == RunPartial ==> r.currentBatch == LastOf(r.manifest.targets) >= 1)
  }

  /** The run state means what it says. */
  predicate StateOk(r: Run) {
    && StateStands(r)
    && (r.state == RunPending ==> Busy(r))
    && (r.state == RunPartial ==> !Busy(r) && !AllConverged(r))
  }

  /** What holds in every state, wherever an operation was cut off. */
  ghost predicate Durable(r: Run) {
    Core(r) && StateStands(r)
  }

  /** What holds in every state that operations lead to when none is cut off. */
  ghost predicate Sound(r: Run) {
    Core(r) && StateOk(r)
  }

  /** Every target has a row. */
  ghost predicate Populated(r: Run) {
    forall t :: t in r.manifest.targets ==> t.targetId in r.rows
  }

  lemma {:induction false} SameIdSamePlace(ts: seq<Target>, i: nat, j: nat)
    requires DistinctTargets(ts) && i < |ts| && j < |ts| && ts[i].targetId == ts[j].targetId
    ensures i == j
  {
  }

  lemma {:induction false} FindsItself(m: Manifest, t: Target)
    requires WellStaged(m) && t in m.targets
    ensures FindTarget(m.targets, t.targetId) == Some(t)
  {
    FindsEachTarget(m.targets, t.targetId);
    assert t.targetId in TargetIds(m.targets);
    var found := FindTarget(m.targets, t.targetId).value;
    var i :| 0 <= i < |m.targets| && m.targets[i] == t;
    var j :| 0 <= j < |m.targets| && m.targets[j] == found;
    SameIdSamePlace(m.targets, i, j);
  }

  lemma {:induction false} NewRunIsSound(m: Manifest)
    requires WellStaged(m)
    ensures Sound(NewRun(m)) && Populated(NewRun(m))
  {
    var r := NewRun(m);
    forall t | t in m.targets ensures t.targetId in r.rows && r.rows[t.targetId] == FreshRow(t) {
      FindsItself(m, t);
      assert t.targetId in TargetIds(m.targets);
    }
    forall id | id in r.rows ensures RowOk(m, 0, id, r.rows[id]) {
      FindsEachTarget(m.targets, id);
    }
    assert HasBatch(m, 0);
    var canary :| canary in m.targets && canary.batch == 0;
    assert r.rows[canary.targetId].batch == 0;
  }

  lemma {:induction false} QuietLastBatch(r: Run)
    requires Core(r) && r.currentBatch == LastOf(r.manifest.targets) == 0 && !Unconverged(r, true)
    ensures AllConverged(r)
  {
    forall id | id in r.rows ensures r.rows[id].state == TargetConverged {
      assert RowOk(r.manifest, 0, id, r.rows[id]);
    }
  }

  /** Deciding anew keeps every row right under the batch decided on, and the state right under the rows. */
  lemma {:induction false} RecalculateIsSound(r: Run)
    requires Core(r) && (Busy(r) ==> StateOk(r))
    ensures Sound(Recalculate(r))
  {
    if !Busy(r) {
      var next := Recalculate(r);
      forall id | id in next.rows ensures RowOk(next.manifest, next.currentBatch, id, next.rows[id]) {
        assert RowOk(r.manifest, r.currentBatch, id, r.rows[id]);
      }
      if r.currentBatch == LastOf(r.manifest.targets) == 0 && !Unconverged(r, true) {
        QuietLastBatch(r);
      }
    }
  }

  lemma {:induction false} RecalculateIsDurable(r: Run)
    requires Durable(r)
    ensures Durable(Recalculate(r))
  {
    if !Busy(r) {
      RecalculateIsSound(r);
    }
  }

  lemma {:induction false} SetRowKeepsCore(r: Run, id: string, row: Row)
    requires Core(r) && id in r.rows && RowOk(r.manifest, r.currentBatch, id, row)
    ensures Core(SetRow(r, id, row))
  {
  }

  /** If the batch is still busy after a row has finished, the run state is as right as it was. */
  lemma {:induction false} FinishedRowKeepsState(r: Run, id: string, row: Row)
    requires StateOk(r) && id in r.rows && r.rows[id].batch == row.batch
    requires r.rows[id].state != TargetConverged && !Unfinished(row)
    ensures Busy(SetRow(r, id, row)) ==> StateOk(SetRow(r, id, row))
  {
    var next := SetRow(r, id, row);
    if Busy(next) {
      var k :| k in next.rows && next.rows[k].batch == next.currentBatch && Unfinished(next.rows[k]);
      assert k != id && next.rows[k] == r.rows[k];
      assert Busy(r);
    }
  }

  lemma {:induction false} FinishedRowIsSound(r: Run, id: string, row: Row)
    requires Sound(r) && id in r.rows && RowOk(r.manifest, r.currentBatch, id, row)
    requires r.rows[id].state != TargetConverged && !Unfinished(row)
    ensures Sound(Recalculate(SetRow(r, id, row)))
  {
    assert RowOk(r.manifest, r.currentBatch, id, r.rows[id]);
    SetRowKeepsCore(r, id, row);
    FinishedRowKeepsState(r, id, row);
    RecalculateIsSound(SetRow(r, id, row));
  }

  lemma {:induction false} ReceiptIsSound(r: Run, id: string, receipt: LifecycleReceipt)
    requires Sound(r) && RecordReceipt(r, id, receipt).Ok?
    ensures Sound(RecordReceipt(r, id, receipt).value)
  {
    assert RowOk(r.manifest, r.currentBatch, id, r.rows[id]);
    FinishedRowIsSound(r, id, Received(r.rows[id], receipt));
  }

  lemma {:induction false} ErrorIsSound(r: Run, id: string, text: string)
    requires Sound(r)
    ensures Sound(RecordExecutionError(r, id, text))
  {
    if id in r.rows && Interruptible(r.rows[id]) {
      assert RowOk(r.manifest, r.currentBatch, id, r.rows[id]);
      FinishedRowIsSound(r, id, r.rows[id].(state := TargetDeferred, note := FromError(text)));
    } else {
      RecalculateIsSound(r);
    }
  }

  lemma {:induction false} StartedRowKeepsState(r: Run, id: string, row: Row)
    requires StateOk(r) && id in r.rows && r.rows[id].batch == row.batch
    requires row.state == TargetRunning && Unfinished(r.rows[id])
    ensures Busy(SetRow(r, id, row)) == Busy(r)
    ensures StateOk(SetRow(r, id, row))
  {
    var next := SetRow(r, id, row);
    if Busy(next) {
      var k :| k in next.rows && next.rows[k].batch == next.currentBatch && Unfinished(next.rows[k]);
      assert r.rows[k].batch == r.currentBatch && Unfinished(r.rows[k]);
    }
    if Busy(r) {
      var k :| k in r.rows && r.rows[k].batch == r.currentBatch && Unfinished(r.rows[k]);
      assert next.rows[k].batch == next.currentBatch && Unfinished(next.rows[k]);
    }
    assert next.rows[id].state != TargetConverged;
  }

  lemma {:induction false} MarkIsSound(r: Run, id: string)
    requires Sound(r) && MarkRunning(r, id).Ok?
    ensures Sound(MarkRunning(r, id).value)
  {
    assert RowOk(r.manifest, r.currentBatch, id, r.rows[id]);
    var row := r.rows[id].(state := TargetRunning, note := ExecutionStarted);
    SetRowKeepsCore(r, id, row);
    StartedRowKeepsState(r, id, row);
  }

  lemma {:induction false} RetryIsSound(r: Run, id: string)
    requires Sound(r) && PrepareRetry(r, id).Ok?
    ensures Sound(PrepareRetry(r, id).value)
  {
    assert RowOk(r.manifest, r.currentBatch, id, r.rows[id]);
    SetRowKeepsCore(r, id, r.rows[id].(state := TargetRunning, note := ExplicitRetry));
  }

  lemma {:induction false} StepStaysSound(r: Run, e: Event)
    requires Sound(r) && Whole(e)
    ensures Sound(Step(r, e))
  {
    if Try(r, e).Ok? {
      match e {
        case ReceiptEvent(id, receipt) => ReceiptIsSound(r, id, receipt);
        case ErrorEvent(id, text) => ErrorIsSound(r, id, text);
        case MarkEvent(id) => MarkIsSound(r, id);
        case RetryEvent(id) => RetryIsSound(r, id);
        case _ =>
      }
    }
  }

  lemma {:induction false} RunStaysSound(r: Run, events: seq<Event>)
    requires Sound(r) && AllWhole(events)
    ensures Sound(RunAll(r, events))
    decreases |events|
  {
    if events == [] {
    } else {
      StepStaysSound(r, events[0]);
      RunStaysSound(Step(r, events[0]), events[1..]);
    }
  }

  // ---------------------------------------------------------------- operations cut off anywhere

  lemma {:induction false} SetRowIsDurable(r: Run, id: string, row: Row)
    requires Durable(r) && id in r.rows && r.rows[id].state != TargetConverged
    requires RowOk(r.manifest, r.currentBatch, id, row)
    ensures Durable(SetRow(r, id, row))
  {
    SetRowKeepsCore(r, id, row);
  }

  lemma {:induction false} CutIsDurable(r: Run, e: Event)
    requires Durable(r) && !Whole(e)
    ensures Durable(Step(r, e))
  {
    if Try(r, e).Ok? && e.id in r.rows {
      var row := r.rows[e.id];
      assert RowOk(r.manifest, r.currentBatch, e.id, row);
      match e {
        case MarkCut(id) => SetRowIsDurable(r, id, row.(state := TargetRunning, note := ExecutionStarted));
        case ReceiptCut(id, receipt) => SetRowIsDurable(r, id, Received(row, receipt));
        case ErrorCut(id, text) =>
          if Interruptible(row) {
            SetRowIsDurable(r, id, row.(state := TargetDeferred, note := FromError(text)));
          }
        case RetryCut(id) => SetRowIsDurable(r, id, row.(state := TargetRunning, note := ExplicitRetry));
      }
    }
  }

  /** A receipt that is not cut off is its two writes; so are the other operations on a target. */
  lemma {:induction false} ReceiptIsTwoWrites(r: Run, id: string, receipt: LifecycleReceipt)
    ensures
      Step(r, ReceiptEvent(id, receipt))
      == if ReceiptRow(r, id, receipt).Ok? then Recalculate(Step(r, ReceiptCut(id, receipt))) else r
  {
  }

  lemma {:induction false} ErrorIsTwoWrites(r: Run, id: string, text: string)
    ensures Step(r, ErrorEvent(id, text)) == Recalculate(Step(r, ErrorCut(id, text)))
  {
  }

  lemma {:induction false} MarkIsTwoWrites(r: Run, id: string)
    ensures Step(r, MarkEvent(id)) == if MarkRow(r, id).Ok? then StartRun(Step(r, MarkCut(id))) else r
  {
  }

  lemma {:induction false} RetryIsTwoWrites(r: Run, id: string)
    ensures Step(r, RetryEvent(id)) == if RetryRow(r, id).Ok? then Reopen(Step(r, RetryCut(id))) else r
  {
  }

  lemma {:induction false} RecalculatedIsDurable(r: Run, cut: Event, next: Run)
    requires Durable(r) && !Whole(cut) && (next == r || next == Recalculate(Step(r, cut)))
    ensures Durable(next)
  {
    CutIsDurable(r, cut);
    RecalculateIsDurable(Step(r, cut));
  }

  lemma {:induction false} ReceiptIsDurable(r: Run, id: string, receipt: LifecycleReceipt)
    requires Durable(r)
    ensures Durable(Step(r, ReceiptEvent(id, receipt)))
  {
    ReceiptIsTwoWrites(r, id, receipt);
    RecalculatedIsDurable(r, ReceiptCut(id, receipt), Step(r, ReceiptEvent(id, receipt)));
  }

  lemma {:induction false} ErrorIsDurable(r: Run, id: string, text: string)
    requires Durable(r)
    ensures Durable(Step(r, ErrorEvent(id, text)))
  {
    ErrorIsTwoWrites(r, id, text);
    RecalculatedIsDurable(r, ErrorCut(id, text), Step(r, ErrorEvent(id, text)));
  }

  lemma {:induction false} StartedIsDurable(first: Run)
    requires Durable(first)
    ensures Durable(StartRun(first)) && Durable(Reopen(first))
  {
  }

  lemma {:induction false} MarkIsDurable(r: Run, id: string)
    requires Durable(r)
    ensures Durable(Step(r, MarkEvent(id)))
  {
    CutIsDurable(r, MarkCut(id));
    StartedIsDurable(Step(r, MarkCut(id)));
    MarkIsTwoWrites(r, id);
  }

  lemma {:induction false} RetryIsDurable(r: Run, id: string)
    requires Durable(r)
    ensures Durable(Step(r, RetryEvent(id)))
  {
    CutIsDurable(r, RetryCut(id));
    StartedIsDurable(Step(r, RetryCut(id)));
    RetryIsTwoWrites(r, id);
  }

  lemma {:induction false} StepStaysDurable(r: Run, e: Event)
    requires Durable(r)
    ensures Durable(Step(r, e))
  {
    match e {
      case MarkEvent(id) => MarkIsDurable(r, id);
      case ReceiptEvent(id, receipt) => ReceiptIsDurable(r, id, receipt);
      case ErrorEvent(id, text) => ErrorIsDurable(r, id, text);
      case RetryEvent(id) => RetryIsDurable(r, id);
      case PauseEvent =>
      case ResumeEvent =>
      case AcceptEvent(_, _, _) =>
      case _ => CutIsDurable(r, e);
    }
  }

  lemma {:induction false} RunStaysDurable(r: Run, events: seq<Event>)
    requires Durable(r)
    ensures Durable(RunAll(r, events))
    decreases |events|
  {
    if events == [] {
    } else {
      StepStaysDurable(r, events[0]);
      RunStaysDurable(Step(r, events[0]), events[1..]);
    }
  }
}
