/**
 Which rollouts may start, and what each operation does to a run: told from the manifest, the rows of
 the targets and the run's own fields.
 */
module RolloutLaws {
  import opened Common
  import opened Gates
  import opened GateLaws
  import opened RolloutManifest
  import opened Rollout

  // ---------------------------------------------------------------- manifests

  /** The manifest is named, current, of a bounded number of targets, and executes nothing by itself. */
  predicate Headed(m: Manifest, now: nat) {
    && m.schemaVersion == "iicp.management-rollout.v1" && !m.authorizesTargetExecution
    && !Blank(m.runId) && !Blank(m.domain) && !Blank(m.audience)
    && m.createdAt <= now <= m.expiresAt && m.createdAt < m.expiresAt
    && 0 < |m.targets| <= 10000
  }

  /** The target is named and its gate is for it, in the manifest's domain, audience and time. */
  predicate Belongs(m: Manifest, t: Target) {
    && !Blank(t.targetId) && !Blank(t.executorRef) && t.gate.operation.targetId == t.targetId
    && t.gate.request.body.domain == m.domain && t.gate.authorization.body.domain == m.domain
    && t.gate.request.body.audience == m.audience && t.gate.authorization.body.audience == m.audience
    && t.gate.request.body.expiresAt <= m.expiresAt
  }

  /** Some target is in the batch. */
  ghost predicate Occurs(ts: seq<Target>, batch: nat) {
    exists i :: 0 <= i < |ts| && ts[i].batch == batch
  }

  /** No target of the list was seen before it. */
  predicate NewTo(ts: seq<Target>, ids: set<string>, operations: set<string>) {
    forall i :: 0 <= i < |ts| ==> ts[i].targetId !in ids && ts[i].gate.operation.operationId !in operations
  }

  lemma {:induction false} DistinctSplit(ts: seq<Target>)
    requires ts != []
    ensures DistinctTargets(ts) <==>
            DistinctTargets(ts[1..]) && NewTo(ts[1..], {ts[0].targetId}, {ts[0].gate.operation.operationId})
  {
    assert forall i :: 1 <= i < |ts| ==> ts[i] == ts[1..][i - 1];
    assert forall i :: 0 <= i < |ts[1..]| ==> ts[1..][i] == ts[i + 1];
  }

  lemma {:induction false} NewToSplit(ts: seq<Target>, ids: set<string>, operations: set<string>)
    requires ts != []
    ensures
      var t, rest := ts[0], ts[1..];
      NewTo(ts, ids, operations) && DistinctTargets(ts) <==>
        && t.targetId !in ids && t.gate.operation.operationId !in operations
        && NewTo(rest, ids + {t.targetId}, operations + {t.gate.operation.operationId}) && DistinctTargets(rest)
  {
    var rest := ts[1..];
    DistinctSplit(ts);
    assert forall i :: 1 <= i < |ts| ==> ts[i] == rest[i - 1];
    assert forall i :: 0 <= i < |rest| ==> rest[i] == ts[i + 1];
  }

  /** Every target of the list belongs and its gate holds. */
  ghost predicate AllBelong(m: Manifest, ts: seq<Target>, now: nat) {
    forall i :: 0 <= i < |ts| ==> Belongs(m, ts[i]) && GateHolds(ts[i].gate, now)
  }

  lemma {:induction false} AllBelongSplit(m: Manifest, ts: seq<Target>, now: nat)
    requires ts != []
    ensures AllBelong(m, ts, now) <==>
            && TargetBinds(m, ts[0]) && ApplyGateFault(ts[0].gate, now).None? && AllBelong(m, ts[1..], now)
  {
    GateAcceptedExactlyWhen(ts[0].gate, now);
    assert Belongs(m, ts[0]) <==> TargetBinds(m, ts[0]);
    if AllBelong(m, ts[1..], now) && Belongs(m, ts[0]) && GateHolds(ts[0].gate, now) {
      forall i | 0 <= i < |ts| ensures Belongs(m, ts[i]) && GateHolds(ts[i].gate, now) {
        assert i > 0 ==> ts[i] == ts[1..][i - 1];
      }
    }
    if AllBelong(m, ts, now) {
      forall i | 0 <= i < |ts[1..]| ensures Belongs(m, ts[1..][i]) && GateHolds(ts[1..][i].gate, now) {
        assert ts[1..][i] == ts[i + 1];
      }
    }
  }

  lemma {:induction false} TargetsPassIff(m: Manifest, ts: seq<Target>, ids: set<string>, operations: set<string>,
        now: nat)
    ensures TargetsFault(m, ts, ids, operations, now).None? <==>
            NewTo(ts, ids, operations) && DistinctTargets(ts) && AllBelong(m, ts, now)
    ensures TargetsFault(m, ts, ids, operations, now) in
            {None, Some(TargetBindingInvalid), Some(TargetGateInvalid)}
    decreases |ts|
  {
    if ts == [] {
    } else {
      NewToSplit(ts, ids, operations);
      AllBelongSplit(m, ts, now);
      TargetsPassIff(m, ts[1..], ids + {ts[0].targetId}, operations + {ts[0].gate.operation.operationId}, now);
    }
  }

  lemma {:induction false} NoCanary(ts: seq<Target>)
    requires forall i :: 0 <= i < |ts| ==> ts[i].batch != 0
    ensures InBatch(ts, 0) == []
  {
    if ts == [] {
    } else {
      assert forall k :: 0 <= k < |ts[1..]| ==> ts[1..][k] == ts[k + 1];
      NoCanary(ts[1..]);
    }
  }

  lemma {:induction false} OneCanary(ts: seq<Target>, i: nat)
    requires i < |ts| && ts[i].batch == 0
    requires forall i, j :: 0 <= i < j < |ts| ==> ts[i].batch != 0 || ts[j].batch != 0
    ensures InBatch(ts, 0) == [ts[i]]
    decreases |ts|
  {
    assert forall k :: 0 <= k < |ts[1..]| ==> ts[1..][k] == ts[k + 1];
    if i == 0 {
      NoCanary(ts[1..]);
    } else {
      OneCanary(ts[1..], i - 1);
    }
  }

  /** Batch 0 is one target, which is required. */
  ghost predicate HasCanary(ts: seq<Target>) {
    && (exists i :: 0 <= i < |ts| && ts[i].batch == 0)
    && (forall i :: 0 <= i < |ts| && ts[i].batch == 0 ==> ts[i].required)
    && (forall i, j :: 0 <= i < j < |ts| ==> ts[i].batch != 0 || ts[j].batch != 0)
  }

  /** Every batch below one that occurs occurs too. */
  ghost predicate WithoutHoles(ts: seq<Target>) {
    forall i, b: nat {:trigger ts[i], Occurs(ts, b)} :: 0 <= i < |ts| && b <= ts[i].batch ==> Occurs(ts, b)
  }

  lemma {:induction false} HasCanaryIff(ts: seq<Target>)
    ensures CanaryOk(ts) <==> HasCanary(ts)
  {
    if CanaryOk(ts) {
      CanaryIsTheOnlyOne(ts);
      if forall i :: 0 <= i < |ts| ==> ts[i].batch != 0 {
        NoCanary(ts);
      }
      forall i | 0 <= i < |ts| && ts[i].batch == 0 ensures ts[i].required {
        assert ts[i] in ts;
      }
    }
    if HasCanary(ts) {
      var i :| 0 <= i < |ts| && ts[i].batch == 0;
      OneCanary(ts, i);
    }
  }

  lemma {:induction false} OccursIff(ts: seq<Target>, batch: nat)
    ensures Occurs(ts, batch) <==> batch in BatchesOf(ts)
  {
    if batch in BatchesOf(ts) {
      var t :| t in ts && t.batch == batch;
      var i :| 0 <= i < |ts| && ts[i] == t;
    }
    if Occurs(ts, batch) {
      var i :| 0 <= i < |ts| && ts[i].batch == batch;
      assert ts[i] in ts;
    }
  }

  lemma {:induction false} WithoutHolesIff(m: Manifest)
    requires m.targets != []
    ensures CountsFromZero(BatchesOf(m.targets)) <==> WithoutHoles(m.targets)
  {
    var ts, batches := m.targets, BatchesOf(m.targets);
    if CountsFromZero(batches) {
      BatchesHaveNoHoles(m);
      forall i, b: nat | 0 <= i < |ts| && b <= ts[i].batch ensures Occurs(ts, b) {
        assert ts[i] in ts && HasBatch(m, b);
        OccursIff(ts, b);
      }
    }
    if WithoutHoles(ts) {
      LastIsReached(ts);
      OccursIff(ts, LastOf(ts));
      var last :| 0 <= last < |ts| && ts[last].batch == LastOf(ts);
      forall b | b in Upto(LastOf(ts) + 1) ensures b in batches {
        assert b <= ts[last].batch;
        OccursIff(ts, b);
      }
      forall b | b in batches ensures b in Upto(LastOf(ts) + 1) {
      }
      assert batches == Upto(LastOf(ts) + 1);
    }
  }

  lemma {:induction false} HeadedIff(m: Manifest, now: nat)
    ensures HeaderOk(m, now) <==> Headed(m, now)
  {
  }

  /** All targets are different, belong, and have gates that hold. */
  ghost predicate TargetsSound(m: Manifest, now: nat) {
    DistinctTargets(m.targets) && AllBelong(m, m.targets, now)
  }

  lemma {:induction false} TargetsSoundIff(m: Manifest, now: nat)
    ensures TargetsFault(m, m.targets, {}, {}, now).None? <==> TargetsSound(m, now)
    ensures TargetsFault(m, m.targets, {}, {}, now) in {None, Some(TargetBindingInvalid), Some(TargetGateInvalid)}
  {
    TargetsPassIff(m, m.targets, {}, {}, now);
  }

  /**
   A manifest is accepted exactly when it is headed, its targets are sound, and it is staged: one
   required canary alone, then batches without holes. The first of these that fails is reported.
   */
  lemma {:induction false} ManifestAcceptedExactlyWhen(m: Manifest, now: nat)
    ensures
      var fault := ManifestFault(m, now);
      && (fault.None? <==> Headed(m, now) && TargetsSound(m, now) && HasCanary(m.targets) && WithoutHoles(m.targets))
      && (fault == Some(ManifestInvalid) <==> !Headed(m, now))
      && (fault in {Some(TargetBindingInvalid), Some(TargetGateInvalid)} <==>
            Headed(m, now) && !TargetsSound(m, now))
      && (fault == Some(CanaryInvalid) <==> Headed(m, now) && TargetsSound(m, now) && !HasCanary(m.targets))
  {
    HeadedIff(m, now);
    TargetsSoundIff(m, now);
    HasCanaryIff(m.targets);
    if m.targets != [] {
      WithoutHolesIff(m);
    }
  }

  predicate IsNewTarget(ts: seq<Target>, k: nat)
    requires k < |ts|
  {
    forall j :: 0 <= j < k ==>
      ts[j].targetId != ts[k].targetId && ts[j].gate.operation.operationId != ts[k].gate.operation.operationId
  }

  /** Target `k` differs from every one before it, and belongs. */
  ghost predicate Fits(m: Manifest, k: nat)
    requires k < |m.targets|
  {
    Belongs(m, m.targets[k]) && IsNewTarget(m.targets, k)
  }

  lemma {:induction false} TargetsFaultFrom(m: Manifest, k: nat, n: nat, ids: set<string>, operations: set<string>,
        now: nat)
    requires n <= k < |m.targets|
    requires ids == set j | 0 <= j < n :: m.targets[j].targetId
    requires operations == set j | 0 <= j < n :: m.targets[j].gate.operation.operationId
    requires forall j :: n <= j < k ==> Fits(m, j) && ApplyGateFault(m.targets[j].gate, now).None?
    requires !Fits(m, k) || ApplyGateFault(m.targets[k].gate, now).Some?
    ensures TargetsFault(m, m.targets[n..], ids, operations, now)
            == Some(if Fits(m, k) then TargetGateInvalid else TargetBindingInvalid)
    decreases k - n
  {
    var t, rest := m.targets[n], m.targets[n..];
    assert rest[0] == t && rest[1..] == m.targets[n + 1..];
    assert IsNewTarget(m.targets, n) <==> t.targetId !in ids && t.gate.operation.operationId !in operations;
    if n < k {
      assert Fits(m, n);
      TargetsFaultFrom(m, k, n + 1, ids + {t.targetId}, operations + {t.gate.operation.operationId}, now);
    }
  }

  /** The first target at fault is reported: as not bound to the manifest, or else for its gate. */
  lemma {:induction false} TargetRefusedAs(m: Manifest, now: nat, k: nat)
    requires Headed(m, now) && k < |m.targets|
    requires forall j :: 0 <= j < k ==> Fits(m, j) && GateHolds(m.targets[j].gate, now)
    requires !(Fits(m, k) && GateHolds(m.targets[k].gate, now))
    ensures ManifestFault(m, now) == Some(if Fits(m, k) then TargetGateInvalid else TargetBindingInvalid)
  {
    HeadedIff(m, now);
    forall j | 0 <= j <= k ensures ApplyGateFault(m.targets[j].gate, now).None? <==> GateHolds(m.targets[j].gate, now) {
      GateAcceptedExactlyWhen(m.targets[j].gate, now);
    }
    TargetsFaultFrom(m, k, 0, {}, {}, now);
    assert m.targets[0..] == m.targets;
  }

  // ---------------------------------------------------------------- a new run

  /** A run starts pending at its canary, at version 0, with each target pending in its own batch. */
  lemma {:induction false} NewRunIsPending(m: Manifest)
    requires DistinctTargets(m.targets)
    ensures
      var r := NewRun(m);
      && r.manifest == m && r.digest == Sha(m) && r.state == RunPending && r.currentBatch == 0 && r.version == 0
      && !r.partialAccepted
      && (forall i :: 0 <= i < |m.targets| ==>
            var t := m.targets[i];
            t.targetId in r.rows
            && r.rows[t.targetId] == Row(t.executorRef, t.batch, t.required, TargetPending, PendingNote, None))
      && (forall id :: id in r.rows ==> exists i :: 0 <= i < |m.targets| && m.targets[i].targetId == id)
  {
    var r := NewRun(m);
    forall i | 0 <= i < |m.targets|
      ensures FindTarget(m.targets, m.targets[i].targetId) == Some(m.targets[i])
              && m.targets[i].targetId in TargetIds(m.targets)
    {
      assert m.targets[i] in m.targets;
      FindsEachTarget(m.targets, m.targets[i].targetId);
      var found := FindTarget(m.targets, m.targets[i].targetId).value;
      var j :| 0 <= j < |m.targets| && m.targets[j] == found;
    }
    forall id | id in r.rows ensures exists i :: 0 <= i < |m.targets| && m.targets[i].targetId == id {
      var t :| t in m.targets && t.targetId == id;
      var i :| 0 <= i < |m.targets| && m.targets[i] == t;
    }
  }

  // ---------------------------------------------------------------- deciding a batch anew

  /** A target of the current batch. */
  predicate Current(r: Run, id: string) {
    id in r.rows && r.rows[id].batch == r.currentBatch
  }

  /** Some target of the current batch is pending or running. */
  ghost predicate InProgress(r: Run) {
    exists id :: Current(r, id) && r.rows[id].state in {TargetPending, TargetRunning}
  }

  /** Some target of the current batch has not converged that had to. */
  ghost predicate RequiredMissing(r: Run) {
    exists id :: Current(r, id) && r.rows[id].required && r.rows[id].state != TargetConverged
  }

  ghost predicate OptionalMissing(r: Run) {
    exists id :: Current(r, id) && !r.rows[id].required && r.rows[id].state != TargetConverged
  }

  /** What is missing holds the rollout: a required target, or any, if the policy is to stop. */
  ghost predicate Holds(r: Run) {
    RequiredMissing(r) || (OptionalMissing(r) && r.manifest.failurePolicy == StopAndHold)
  }

  /** There are batches after the current one. */
  ghost predicate MoreBatches(r: Run) {
    exists t :: t in r.manifest.targets && t.batch > r.currentBatch
  }

  ghost predicate EachConverged(r: Run) {
    forall id :: id in r.rows ==> r.rows[id].state == TargetConverged
  }

  lemma {:induction false} MoreBatchesIff(r: Run)
    ensures MoreBatches(r) <==> r.currentBatch < LastOf(r.manifest.targets)
  {
    if r.currentBatch < LastOf(r.manifest.targets) {
      if r.manifest.targets != [] {
        LastIsReached(r.manifest.targets);
      }
    }
  }

  lemma {:induction false} MissingIff(r: Run)
    ensures Busy(r) <==> InProgress(r)
    ensures Unconverged(r, true) <==> RequiredMissing(r)
    ensures Unconverged(r, false) <==> OptionalMissing(r)
    ensures AllConverged(r) <==> EachConverged(r)
  {
  }

  /**
   What a run becomes when a batch has ended, at a new version: the next batch runs exactly when
   there is one and nothing holds; the run has converged exactly when all targets have and there is
   no further batch; it pauses exactly when something holds before the last batch, or in an only
   one; and it ends in part in every other case.
   */
  lemma {:induction false} EndedBatchDecides(r: Run)
    requires !InProgress(r) && r.currentBatch <= LastOf(r.manifest.targets)
    ensures
      var next := Recalculate(r);
      && next.version == r.version + 1
      && next.(state := r.state, currentBatch := r.currentBatch, version := r.version) == r
      && (next.state == RunRunning <==> MoreBatches(r) && !Holds(r))
      && (next.state == RunPaused <==> Holds(r) && (MoreBatches(r) || r.currentBatch == 0))
      && (next.state == RunConverged <==> !MoreBatches(r) && EachConverged(r))
      && (next.state == RunPartial <==>
            !MoreBatches(r) && !EachConverged(r) && (r.currentBatch > 0 || !Holds(r)))
      && next.currentBatch == r.currentBatch + if next.state == RunRunning then 1 else 0
  {
    MoreBatchesIff(r);
    MissingIff(r);
  }

  /** While the batch has work nothing is decided. */
  lemma {:induction false} BusyBatchWaits(r: Run)
    requires InProgress(r)
    ensures Recalculate(r) == r
  {
    MissingIff(r);
  }

  // ---------------------------------------------------------------- operations on a run

  /** Only a running run pauses, and only a paused one resumes; each at a new version, and nothing else changes. */
  lemma {:induction false} PauseAndResume(r: Run)
    ensures Try(r, PauseEvent).Ok? <==> r.state == RunRunning
    ensures Try(r, ResumeEvent).Ok? <==> r.state == RunPaused
    ensures Try(r, PauseEvent).Ok? ==>
              Try(r, PauseEvent).value == r.(state := RunPaused, version := r.version + 1)
    ensures Try(r, ResumeEvent).Ok? ==>
              Try(r, ResumeEvent).value == r.(state := RunRunning, version := r.version + 1)
    ensures Try(r, PauseEvent).Err? ==> Try(r, PauseEvent).error == StateTransitionInvalid
    ensures Try(r, ResumeEvent).Err? ==> Try(r, ResumeEvent).error == StateTransitionInvalid
  {
  }

  /** The row of a target is replaced; everything else about the run is as it was. */
  predicate OneRowSet(r: Run, next: Run, id: string, row: Row) {
    next.rows == r.rows[id := row] && next.(rows := r.rows) == r
  }

  predicate StateIn(r: Run, id: string, states: set<TargetState>) {
    id in r.rows && r.rows[id].state in states
  }

  /**
   Marking takes exactly a pending or running target. First its row says that it was started; then
   a pending run is running. No version is taken.
   */
  lemma {:induction false} MarkStarts(r: Run, id: string)
    ensures
      var cut, whole := Try(r, MarkCut(id)), Try(r, MarkEvent(id));
      && (cut.Ok? <==> whole.Ok?) && (cut.Ok? <==> StateIn(r, id, {TargetPending, TargetRunning}))
      && (cut.Err? ==> cut.error == whole.error == TargetNotRunnable)
      && (cut.Ok? ==>
            && OneRowSet(r, cut.value, id, r.rows[id].(state := TargetRunning, note := ExecutionStarted))
            && whole.value == cut.value.(state := if r.state == RunPending then RunRunning else r.state))
  {
  }

  /** The state a receipt puts its target in. */
  predicate Settles(receipt: LifecycleReceipt, state: TargetState) {
    && (state == TargetConverged <==> receipt.state == ExecConverged)
    && (state == TargetDeferred <==> receipt.state == ExecDeferred)
    && (state == TargetRejected <==> receipt.state == ExecFailed && receipt.authorization.decision == Rejected)
    && (state == TargetFailed <==>
          receipt.state == ExecPartiallyConverged
          || (receipt.state == ExecFailed && receipt.authorization.decision != Rejected))
  }

  /** The manifest has the target, and the receipt is of its operation. */
  ghost predicate IsReceiptOf(r: Run, id: string, receipt: LifecycleReceipt) {
    exists t :: t in r.manifest.targets && t.targetId == id && t.gate.operation.operationId == receipt.operationId
  }

  lemma {:induction false} TargetIsUnique(r: Run, id: string, receipt: LifecycleReceipt)
    requires DistinctTargets(r.manifest.targets)
    ensures
      var target := FindTarget(r.manifest.targets, id);
      && (target.Some? <==> exists t :: t in r.manifest.targets && t.targetId == id)
      && (IsReceiptOf(r, id, receipt) <==>
            target.Some? && target.value.gate.operation.operationId == receipt.operationId)
  {
    FindsEachTarget(r.manifest.targets, id);
    var target := FindTarget(r.manifest.targets, id);
    if t :| t in r.manifest.targets && t.targetId == id && t.gate.operation.operationId == receipt.operationId {
      assert id in TargetIds(r.manifest.targets);
      var i :| 0 <= i < |r.manifest.targets| && r.manifest.targets[i] == t;
      var j :| 0 <= j < |r.manifest.targets| && r.manifest.targets[j] == target.value;
      assert i == j;
    }
  }

  /**
   A receipt is taken exactly by the target it is of, while that has not settled. First the row holds
   the receipt, its reason and the state it settles to; then the batch is decided anew.
   */
  lemma {:induction false} ReceiptSettles(r: Run, id: string, receipt: LifecycleReceipt)
    requires DistinctTargets(r.manifest.targets)
    ensures
      var cut, whole := Try(r, ReceiptCut(id, receipt)), Try(r, ReceiptEvent(id, receipt));
      && (cut.Ok? <==> whole.Ok?)
      && (cut.Ok? <==>
            IsReceiptOf(r, id, receipt)
            && StateIn(r, id, {TargetPending, TargetRunning, TargetDeferred, TargetHeld}))
      && (cut.Err? ==> cut.error == whole.error)
      && (cut.Ok? ==>
            && id in cut.value.rows && Settles(receipt, cut.value.rows[id].state)
            && OneRowSet(r, cut.value, id, r.rows[id].(state := cut.value.rows[id].state,
                                                       note := FromReceipt(receipt.reason), receipt := Some(receipt)))
            && whole.value == Recalculate(cut.value))
  {
    TargetIsUnique(r, id, receipt);
  }

  /** What a receipt that is not taken is refused as. */
  lemma {:induction false} ReceiptRefusedAs(r: Run, id: string, receipt: LifecycleReceipt)
    requires DistinctTargets(r.manifest.targets) && Try(r, ReceiptEvent(id, receipt)).Err?
    ensures
      var error := Try(r, ReceiptEvent(id, receipt)).error;
      && (error == TargetNotFound <==> !exists t :: t in r.manifest.targets && t.targetId == id)
      && (error == ReceiptBindingInvalid <==>
            (exists t :: t in r.manifest.targets && t.targetId == id) && !IsReceiptOf(r, id, receipt))
      && (error == TargetNotRunnable <==> IsReceiptOf(r, id, receipt))
  {
    TargetIsUnique(r, id, receipt);
  }

  /** A failed execution defers its target, unless that has settled; the batch is decided anew in any case. */
  lemma {:induction false} ErrorDefers(r: Run, id: string, text: string)
    ensures
      var cut, whole := Try(r, ErrorCut(id, text)), Try(r, ErrorEvent(id, text));
      && cut.Ok? && whole.Ok? && whole.value == Recalculate(cut.value)
      && (StateIn(r, id, {TargetPending, TargetRunning, TargetDeferred}) ==>
            OneRowSet(r, cut.value, id, r.rows[id].(state := TargetDeferred, note := FromError(text))))
      && (!StateIn(r, id, {TargetPending, TargetRunning, TargetDeferred}) ==> cut.value == r)
  {
  }

  /** Exactly a deferred target is retried: first its row is running; then the run is, at a new version. */
  lemma {:induction false} RetryReopens(r: Run, id: string)
    ensures
      var cut, whole := Try(r, RetryCut(id)), Try(r, RetryEvent(id));
      && (cut.Ok? <==> whole.Ok?) && (cut.Ok? <==> StateIn(r, id, {TargetDeferred}))
      && (cut.Err? ==> cut.error == whole.error == if id in r.rows then RetryNotAllowed else TargetNotFound)
      && (cut.Ok? ==>
            && OneRowSet(r, cut.value, id, r.rows[id].(state := TargetRunning, note := ExplicitRetry))
            && whole.value == cut.value.(state := RunRunning, version := r.version + 1))
  {
  }

  /** The acceptance is of this run at this version, by someone named, in its time. */
  predicate IsAcceptanceOf(a: Acceptance, r: Run, now: nat) {
    && a.schemaVersion == "iicp.management-partial-acceptance.v1" && a.signatureProfile == "ed25519-jcs-v1"
    && a.runId == r.manifest.runId && a.manifestDigest == r.digest && a.expectedVersion == r.version
    && a.domain == r.manifest.domain && a.audience == r.manifest.audience
    && !Blank(a.acceptanceId) && !Blank(a.issuerId) && !Blank(a.domain) && !Blank(a.audience)
    && a.issuedAt <= now <= a.expiresAt && a.issuedAt < a.expiresAt
  }

  /** A partial outcome is accepted exactly once, by a signed acceptance of just this run at just this version. */
  lemma {:induction false} AcceptedExactlyWhen(r: Run, a: Signed<Acceptance>, key: string, now: nat)
    ensures
      var result := Try(r, AcceptEvent(a, key, now));
      var fits := IsAcceptanceOf(a.body, r, now) && r.state == RunPartial && !r.partialAccepted;
      && (result.Ok? <==> fits && SignedBy(a, key))
      && (result == Err(AcceptanceInvalid) <==> !fits)
      && (result == Err(AcceptanceSignatureInvalid) <==> fits && !SignedBy(a, key))
      && (result.Ok? ==> result.value == r.(partialAccepted := true, version := r.version + 1))
  {
  }

  /** An operation that is refused changes nothing; one cut off has made no write, the first alone, or both. */
  lemma {:induction false} CutsAndRefusals(r: Run, first: Event, whole: Event, writes: nat)
    ensures Try(r, whole).Err? ==> Step(r, whole) == r
    ensures Try(r, whole).Ok? ==> Step(r, whole) == Try(r, whole).value
    ensures Cut(r, first, whole, 0) == Ok(r)
    ensures Cut(r, first, whole, 1) == Try(r, first)
    ensures writes >= 2 ==> Cut(r, first, whole, writes) == Try(r, whole)
  {
  }

  // ---------------------------------------------------------------- what may run now

  /** `part` is left of `ts` when some of its items are taken out. */
  ghost predicate Thinned(part: seq<Target>, ts: seq<Target>)
    decreases ts
  {
    if ts == [] then part == []
    else (part != [] && part[0] == ts[0] && Thinned(part[1..], ts[1..])) || Thinned(part, ts[1..])
  }

  predicate MayRun(r: Run, t: Target) {
    Current(r, t.targetId) && t.batch == r.currentBatch && StateIn(r, t.targetId, {TargetPending, TargetRunning})
  }

  lemma {:induction false} RunnableAre(r: Run, ts: seq<Target>)
    requires forall t :: t in ts && t.targetId in r.rows ==> r.rows[t.targetId].batch == t.batch
    ensures
      var runnable := RunnableAmong(r, ts);
      && Thinned(runnable, ts)
      && forall t :: t in runnable <==> t in ts && MayRun(r, t)
    decreases |ts|
  {
    if ts == [] {
    } else {
      var runnable := RunnableAmong(r, ts[1..]);
      RunnableAre(r, ts[1..]);
      assert forall t :: t in ts <==> t == ts[0] || t in ts[1..];
      if Runnable(r, ts[0]) {
        assert RunnableAmong(r, ts)[1..] == runnable;
      }
    }
  }

  /**
   What may run now: the pending and running targets of the current batch, in manifest order; none
   can be asked for of a run that is paused, converged or failed.
   */
  lemma {:induction false} RunnableExactly(r: Run)
    requires forall t :: t in r.manifest.targets && t.targetId in r.rows ==> r.rows[t.targetId].batch == t.batch
    ensures
      var runnable := RunnableTargets(r);
      && (runnable == Err(NotRunnable) <==> r.state in {RunPaused, RunConverged, RunFailed})
      && (runnable.Ok? <==> r.state !in {RunPaused, RunConverged, RunFailed})
      && (runnable.Ok? ==>
            && Thinned(runnable.value, r.manifest.targets)
            && forall t :: t in runnable.value <==> t in r.manifest.targets && MayRun(r, t))
  {
    RunnableAre(r, r.manifest.targets);
  }
}
