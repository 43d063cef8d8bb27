/** What the commands that drive a rollout make of each executor's answer, write by write. */
module DriverLaws {
  import opened Common
  import opened Gates
  import opened RolloutManifest
  import opened Rollout
  import opened RolloutDriver
  import opened RolloutLaws

  /** The manifest's one target of this id, which may run now. */
  predicate CanDrive(r: Run, t: Target) {
    t in r.manifest.targets && DistinctTargets(r.manifest.targets)
      && StateIn(r, t.targetId, {TargetPending, TargetRunning})
  }

  /** The target's row says that it was started, and a pending run is running. */
  predicate IsStarted(r: Run, next: Run, id: string)
    requires id in r.rows
  {
    next == r.(rows := r.rows[id := r.rows[id].(state := TargetRunning, note := ExecutionStarted)],
               state := if r.state == RunPending then RunRunning else r.state)
  }

  /** The started target's row holds the receipt and what it settles to, and nothing else differs. */
  predicate HoldsReceipt(started: Run, next: Run, id: string, receipt: LifecycleReceipt)
    requires id in started.rows
  {
    && id in next.rows && Settles(receipt, next.rows[id].state)
    && OneRowSet(started, next, id, started.rows[id].(state := next.rows[id].state, note := FromReceipt(receipt.reason),
                                                      receipt := Some(receipt)))
  }

  /** The started target's row is deferred with the text, and nothing else differs. */
  predicate IsDeferred(started: Run, next: Run, id: string, text: string)
    requires id in started.rows
  {
    OneRowSet(started, next, id, started.rows[id].(state := TargetDeferred, note := FromError(text)))
  }

  /**
   What is written of an executor's answer before the batch is decided anew: a receipt of the target's
   own operation settles it, and no answer, or no executor, defers it.
   */
  ghost predicate Writes(started: Run, next: Run, t: Target, reply: Option<Reply>)
    requires t.targetId in started.rows
  {
    match reply
    case Some(Answered(receipt)) => HoldsReceipt(started, next, t.targetId, receipt)
    case Some(Unanswered(text)) => IsDeferred(started, next, t.targetId, text)
    case None => IsDeferred(started, next, t.targetId, "ROLLOUT_EXECUTOR_NOT_CONFIGURED")
  }

  /** The answer is no receipt of another operation. */
  predicate Fits(t: Target, reply: Option<Reply>) {
    reply.Some? && reply.value.Answered? ==> reply.value.receipt.operationId == t.gate.operation.operationId
  }

  lemma {:induction false} MarkIsStart(r: Run, t: Target)
    requires CanDrive(r, t)
    ensures MarkRunning(r, t.targetId).Ok? && IsStarted(r, MarkRunning(r, t.targetId).value, t.targetId)
  {
    MarkStarts(r, t.targetId);
  }

  lemma {:induction false} OwnReceipt(r: Run, t: Target, receipt: LifecycleReceipt)
    requires t in r.manifest.targets && DistinctTargets(r.manifest.targets)
    ensures IsReceiptOf(r, t.targetId, receipt) <==> receipt.operationId == t.gate.operation.operationId
  {
    var i :| 0 <= i < |r.manifest.targets| && r.manifest.targets[i] == t;
    if IsReceiptOf(r, t.targetId, receipt) {
      var other :| other in r.manifest.targets && other.targetId == t.targetId
                   && other.gate.operation.operationId == receipt.operationId;
      var j :| 0 <= j < |r.manifest.targets| && r.manifest.targets[j] == other;
      assert i == j;
    }
  }

  lemma {:induction false} AnswerIsWritten(started: Run, t: Target, executors: Executors)
    requires t in started.manifest.targets && DistinctTargets(started.manifest.targets)
    requires StateIn(started, t.targetId, {TargetRunning}) && Fits(t, executors(t))
    ensures
      var reply := Answer(executors, t);
      var cut, whole := Try(started, ReplyCut(t, reply)), Try(started, ReplyEvent(t, reply));
      && cut.Ok? && Writes(started, cut.value, t, executors(t))
      && whole == Ok(Recalculate(cut.value))
  {
    match Answer(executors, t) {
      case Answered(receipt) =>
        OwnReceipt(started, t, receipt);
        ReceiptSettles(started, t.targetId, receipt);
      case Unanswered(text) =>
        ErrorDefers(started, t.targetId, text);
    }
  }

  /**
   Driving a target writes by write, for an answer that fits: started after the first two, its answer
   written after the third, and the batch decided anew after the fourth.
   */
  lemma {:induction false} DrivingWrites(r: Run, t: Target, executors: Executors)
    returns (started: Run, answered: Run)
    requires CanDrive(r, t) && Fits(t, executors(t))
    ensures IsStarted(r, started, t.targetId) && Writes(started, answered, t, executors(t))
    ensures CutDrive(r, t, executors, 0) == (r, None)
    ensures CutDrive(r, t, executors, 1) == (started.(state := r.state), None)
    ensures CutDrive(r, t, executors, 2) == (started, None)
    ensures CutDrive(r, t, executors, 3) == (answered, None)
    ensures DriveTarget(r, t, executors) == (Recalculate(answered), None)
  {
    MarkIsStart(r, t);
    MarkStarts(r, t.targetId);
    started := MarkRunning(r, t.targetId).value;
    AnswerIsWritten(started, t, executors);
    answered := Try(started, ReplyCut(t, Answer(executors, t))).value;
  }

  /** A receipt of another operation stops the command, with its target started and nothing else written. */
  lemma {:induction false} MisfitStops(r: Run, t: Target, executors: Executors)
    requires CanDrive(r, t) && !Fits(t, executors(t))
    ensures
      var (next, error) := DriveTarget(r, t, executors);
      IsStarted(r, next, t.targetId) && error == Some(ReceiptBindingInvalid)
  {
    MarkIsStart(r, t);
    var started := MarkRunning(r, t.targetId).value;
    OwnReceipt(started, t, executors(t).value.receipt);
    ReceiptSettles(started, t.targetId, executors(t).value.receipt);
    ReceiptRefusedAs(started, t.targetId, executors(t).value.receipt);
  }

  /** A batch command drives what may run, in order, until one stops it or pauses the run. */
  lemma {:induction false} BatchDrivesInOrder(r: Run, executors: Executors, queue: seq<Target>)
    ensures RunnableTargets(r).Ok? ==> RunBatch(r, executors) == RunTargets(r, RunnableTargets(r).value, executors)
    ensures RunnableTargets(r).Err? ==> RunBatch(r, executors) == (r, Some(RunnableTargets(r).error))
    ensures RunTargets(r, [], executors) == (r, None)
    ensures queue != [] ==>
              var (next, error) := DriveTarget(r, queue[0], executors);
              RunTargets(r, queue, executors)
              == if error.Some? || next.state == RunPaused then (next, error)
                 else RunTargets(next, queue[1..], executors)
  {
    if queue != [] {
      RunTargetsGoesOn(r, queue, executors);
    }
  }

  lemma {:induction false} FindsIt(r: Run, t: Target)
    requires t in r.manifest.targets && DistinctTargets(r.manifest.targets)
    ensures FindTarget(r.manifest.targets, t.targetId) == Some(t)
  {
    FindsEachTarget(r.manifest.targets, t.targetId);
    assert t.targetId in TargetIds(r.manifest.targets);
    var found := FindTarget(r.manifest.targets, t.targetId).value;
    var i :| 0 <= i < |r.manifest.targets| && r.manifest.targets[i] == t;
    var j :| 0 <= j < |r.manifest.targets| && r.manifest.targets[j] == found;
    assert i == j;
  }

  /**
   A retry: the deferred target is running again and then the run, at a new version; its answer is
   written and the batch decided anew. Without an executor it stops there, and says so.
   */
  lemma {:induction false} RetryWrites(r: Run, t: Target, executors: Executors)
    requires t in r.manifest.targets && DistinctTargets(r.manifest.targets) && StateIn(r, t.targetId, {TargetDeferred})
    ensures
      var again := r.(rows := r.rows[t.targetId := r.rows[t.targetId].(state := TargetRunning, note := ExplicitRetry)]);
      var open := again.(state := RunRunning, version := r.version + 1);
      && CutRetry(r, t.targetId, executors, 0) == (r, None)
      && CutRetry(r, t.targetId, executors, 1) == (again, None)
      && (executors(t).None? ==>
            forall writes :: 2 <= writes ==>
              CutRetry(r, t.targetId, executors, writes) == (open, Some(ExecutorNotConfigured)))
      && (executors(t).Some? ==> CutRetry(r, t.targetId, executors, 2) == (open, None))
      && (executors(t).Some? && Fits(t, executors(t)) ==>
            exists answered :: Writes(open, answered, t, executors(t))
                               && CutRetry(r, t.targetId, executors, 3) == (answered, None)
                               && CutRetry(r, t.targetId, executors, 4) == (Recalculate(answered), None))
  {
    RetryReopens(r, t.targetId);
    var open := Try(r, RetryEvent(t.targetId)).value;
    FindsIt(r, t);
    if executors(t).Some? && Fits(t, executors(t)) {
      AnswerIsWritten(open, t, executors);
      var answered := Try(open, ReplyCut(t, Answer(executors, t))).value;
      assert Writes(open, answered, t, executors(t));
    }
  }

  /** What pausing, resuming and accepting by command make of a run. */
  lemma {:induction false} PlainCommands(r: Run, a: Signed<Acceptance>, key: string, now: nat)
    ensures Obey(r, PauseCommand)
            == if r.state == RunRunning then r.(state := RunPaused, version := r.version + 1) else r
    ensures Obey(r, ResumeCommand)
            == if r.state == RunPaused then r.(state := RunRunning, version := r.version + 1) else r
    ensures Obey(r, AcceptCommand(a, key, now))
            == if IsAcceptanceOf(a.body, r, now) && r.state == RunPartial && !r.partialAccepted && SignedBy(a, key)
               then r.(partialAccepted := true, version := r.version + 1) else r
  {
    PauseAndResume(r);
    AcceptedExactlyWhen(r, a, key, now);
  }
}
