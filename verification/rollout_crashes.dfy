/**
 What a process that ends between the two writes of an operation does to a rollout: which of the
 properties of uninterrupted runs it spoils, and exactly when.
 */
module RolloutCrashes {
  import opened Common
  import opened Gates
  import opened RolloutManifest
  import opened Rollout
  import opened RolloutRuns
  import opened RolloutDriver

  // ---------------------------------------------------------------- what the run state says

  /** The only target of the current batch that is not finished. */
  predicate LastUnfinished(r: Run, id: string) {
    && id in r.rows && r.rows[id].batch == r.currentBatch && Unfinished(r.rows[id])
    && forall other :: other in r.rows && other != id && r.rows[other].batch == r.currentBatch ==>
         !Unfinished(r.rows[other])
  }

  predicate LastUnconverged(r: Run, id: string) {
    forall other :: other in r.rows && other != id ==> r.rows[other].state == TargetConverged
  }

  /** Whether the event is cut off where the second write would have corrected the run state. */
  predicate Misleads(r: Run, e: Event) {
    match e
    case RetryCut(id) => RetryRow(r, id).Ok? && r.state == RunPartial && r.rows[id].batch == r.currentBatch
    case ErrorCut(id, _) => r.state == RunPending && LastUnfinished(r, id)
    case ReceiptCut(id, receipt) =>
      && ReceiptRow(r, id, receipt).Ok?
      && ((r.state == RunPending && LastUnfinished(r, id))
          || (r.state == RunPartial && receipt.state == ExecConverged && LastUnconverged(r, id)))
    case _ => false
  }

  ghost function OtherUnfinished(r: Run, id: string): (other: string)
    requires id in r.rows && r.rows[id].batch == r.currentBatch && Unfinished(r.rows[id]) && !LastUnfinished(r, id)
    ensures other in r.rows && other != id && r.rows[other].batch == r.currentBatch && Unfinished(r.rows[other])
  {
    var other :| other in r.rows && other != id && r.rows[other].batch == r.currentBatch && Unfinished(r.rows[other]);
    other
  }

  lemma {:induction false} BusyAfterFinished(r: Run, id: string, row: Row)
    requires id in r.rows && row.batch == r.rows[id].batch && !Unfinished(row)
    ensures Busy(SetRow(r, id, row)) <==> Busy(r) && !LastUnfinished(r, id)
  {
    var next := SetRow(r, id, row);
    if Busy(next) {
      var k :| k in next.rows && next.rows[k].batch == next.currentBatch && Unfinished(next.rows[k]);
      assert k != id && r.rows[k].batch == r.currentBatch && Unfinished(r.rows[k]);
    }
    if Busy(r) && !LastUnfinished(r, id) {
      var k :| k in r.rows && r.rows[k].batch == r.currentBatch && Unfinished(r.rows[k]);
      var other := if k != id then k else OtherUnfinished(r, id);
      assert next.rows[other].batch == next.currentBatch && Unfinished(next.rows[other]);
    }
  }

  lemma {:induction false} ConvergedAfter(r: Run, id: string, row: Row)
    requires id in r.rows
    ensures AllConverged(SetRow(r, id, row)) <==> row.state == TargetConverged && LastUnconverged(r, id)
  {
    var next := SetRow(r, id, row);
    assert next.rows[id] == row;
    assert forall other :: other in r.rows && other != id ==> next.rows[other] == r.rows[other];
  }

  lemma {:induction false} ReceiptCutMisleadsIff(r: Run, id: string, receipt: LifecycleReceipt)
    requires Sound(r) && ReceiptRow(r, id, receipt).Ok?
    ensures StateOk(Step(r, ReceiptCut(id, receipt))) <==> !Misleads(r, ReceiptCut(id, receipt))
  {
    var row := Received(r.rows[id], receipt);
    BusyAfterFinished(r, id, row);
    ConvergedAfter(r, id, row);
  }

  lemma {:induction false} ErrorCutMisleadsIff(r: Run, id: string, text: string)
    requires Sound(r)
    ensures StateOk(Step(r, ErrorCut(id, text))) <==> !Misleads(r, ErrorCut(id, text))
  {
    if id in r.rows && Interruptible(r.rows[id]) {
      var row := r.rows[id].(state := TargetDeferred, note := FromError(text));
      BusyAfterFinished(r, id, row);
      assert SetRow(r, id, row).rows[id] == row;
    }
  }

  lemma {:induction false} FinishedElsewhere(r: Run, id: string, row: Row)
    requires id in r.rows && row.batch == r.rows[id].batch != r.currentBatch && !Busy(r)
    ensures !Busy(SetRow(r, id, row))
  {
    var next := SetRow(r, id, row);
    forall k | k in next.rows && next.rows[k].batch == next.currentBatch ensures !Unfinished(next.rows[k]) {
      assert k != id && r.rows[k].batch == r.currentBatch;
    }
  }

  lemma {:induction false} RetryCutMisleadsIff(r: Run, id: string)
    requires Sound(r)
    ensures StateOk(Step(r, RetryCut(id))) <==> !Misleads(r, RetryCut(id))
  {
    if RetryRow(r, id).Ok? {
      var row := r.rows[id].(state := TargetRunning, note := ExplicitRetry);
      var next := SetRow(r, id, row);
      assert next.rows[id] == row && Unfinished(row);
      if Busy(r) {
        var k :| k in r.rows && r.rows[k].batch == r.currentBatch && Unfinished(r.rows[k]);
        assert next.rows[k] == r.rows[k];
      } else if r.rows[id].batch != r.currentBatch {
        FinishedElsewhere(r, id, row);
      }
    }
  }

  /** The run state goes on meaning what it says exactly when the step is not cut off where it would mislead. */
  lemma {:induction false} StepStaysSoundIff(r: Run, e: Event)
    requires Sound(r)
    ensures Sound(Step(r, e)) <==> !Misleads(r, e)
  {
    StepStaysDurable(r, e);
    match e {
      case ReceiptCut(id, receipt) =>
        if ReceiptRow(r, id, receipt).Ok? {
          ReceiptCutMisleadsIff(r, id, receipt);
        }
      case ErrorCut(id, text) => ErrorCutMisleadsIff(r, id, text);
      case RetryCut(id) => RetryCutMisleadsIff(r, id);
      case MarkCut(id) =>
        if MarkRow(r, id).Ok? {
          StartedRowKeepsState(r, id, r.rows[id].(state := TargetRunning, note := ExecutionStarted));
        }
      case _ => StepStaysSound(r, e);
    }
  }

  // ---------------------------------------------------------------- which acceptances are safe

  ghost predicate AllFinal(r: Run) {
    forall id :: id in r.rows ==> Final(r.rows[id])
  }

  /** The acceptance, signed for the version of `seen`, is taken after the events. */
  ghost predicate Taken(seen: Run, events: seq<Event>, a: Signed<Acceptance>, key: string, now: nat) {
    a.body.expectedVersion == seen.version && AcceptPartial(RunAll(seen, events), a, key, now).Ok?
  }

  function FittingAcceptance(r: Run): Signed<Acceptance> {
    var m := r.manifest;
    var body := Acceptance(PARTIAL_ACCEPTANCE_SCHEMA, "a", "i", m.audience, m.domain, m.runId, r.digest, r.version,
                           0, 1, SIGNATURE_PROFILE);
    Signed(body, "k", body)
  }

  lemma {:induction false} FittingIsTaken(r: Run)
    requires r.state == RunPartial && !r.partialAccepted && !Blank(r.manifest.domain) && !Blank(r.manifest.audience)
    ensures AcceptPartial(r, FittingAcceptance(r), "k", 0).Ok?
  {
    assert "a"[0] in "a" && "i"[0] in "i";
  }

  /** The event that tears an outcome that is not final. */
  function Tear(r: Run, id: string): Event
    requires id in r.rows
  {
    if r.rows[id].state == TargetDeferred then RetryCut(id) else ErrorCut(id, "")
  }

  lemma {:induction false} OpenOutcomeTears(r: Run, id: string)
    requires Quiet(r) && id in r.rows && !Final(r.rows[id])
    ensures Tears(r, Tear(r, id))
    ensures Step(r, Tear(r, id)) == SetRow(r, id, Step(r, Tear(r, id)).rows[id])
  {
    NothingPendingAtTheEnd(r, id);
    assert RowOk(r.manifest, r.currentBatch, id, r.rows[id]);
  }

  lemma {:induction false} RunOne(r: Run, e: Event)
    ensures RunAll(r, [e]) == Step(r, e)
  {
    assert RunAll(Step(r, e), [e][1..]) == Step(r, e);
  }

  lemma {:induction false} FinalOutcomesStay(r: Run, events: seq<Event>)
    requires AllFinal(r)
    ensures SameOutcomes(r, RunAll(r, events))
  {
    TargetsAreFixed(r, events);
    forall id | id in r.rows ensures id in RunAll(r, events).rows && RunAll(r, events).rows[id] == r.rows[id] {
      FinalTargetStays(r, events, id);
    }
  }

  /**
   What a signer of a quiet run can rely on, whatever is cut off where: an acceptance is only ever
   taken on the outcome that was signed exactly when every target of that outcome is final.
   */
  lemma {:induction false} AcceptanceIsSafeIff(seen: Run, created: nat)
    requires Quiet(seen) && !seen.partialAccepted && HeaderOk(seen.manifest, created)
    ensures
      (forall events, a, key, now :: Taken(seen, events, a, key, now) ==> SameOutcomes(seen, RunAll(seen, events)))
      <==> AllFinal(seen)
  {
    if AllFinal(seen) {
      forall events, a, key, now | Taken(seen, events, a, key, now) ensures SameOutcomes(seen, RunAll(seen, events)) {
        FinalOutcomesStay(seen, events);
      }
    } else {
      var id :| id in seen.rows && !Final(seen.rows[id]);
      var e := Tear(seen, id);
      OpenOutcomeTears(seen, id);
      PartialStep(seen, e);
      RunOne(seen, e);
      FittingIsTaken(Step(seen, e));
      assert Taken(seen, [e], FittingAcceptance(Step(seen, e)), "k", 0);
    }
  }

  // ---------------------------------------------------------------- which runs have something to run

  predicate AllBound(executors: Executors, queue: seq<Target>) {
    forall k :: 0 <= k < |queue| ==> BoundFor(executors, queue[k])
  }

  /** The process lives to record the batch's last receipt, and not to decide the run anew. */
  predicate LosesVerdict(r: Run, executors: Executors, writes: nat) {
    match RunnableTargets(r)
    case Err(_) => false
    case Ok(queue) => queue != [] && writes == 4 * |queue| - 1 && AllBound(executors, queue)
  }

  lemma {:induction false} CoveredIsBusy(r: Run, queue: seq<Target>)
    requires queue != [] && Covers(r, queue)
    ensures Busy(r)
  {
    assert queue[0] in queue && IsUnfinished(r, queue[0].targetId);
  }

  /** Until its receipt is recorded a target that is driven keeps its run live and busy. */
  lemma {:induction false} MarkedIsBusy(r: Run, id: string)
    requires Live(r) && IsUnfinished(r, id)
    ensures Live(Step(r, MarkCut(id))) && Busy(Step(r, MarkCut(id)))
    ensures Live(Step(r, MarkEvent(id))) && Busy(Step(r, MarkEvent(id)))
  {
    assert IsUnfinished(Step(r, MarkCut(id)), id);
    assert IsUnfinished(Step(r, MarkEvent(id)), id);
  }

  lemma {:induction false} NextIfLive(r: Run, next: Run)
    requires WellStaged(r.manifest) && Populated(r) && Core(next) && PendingFrom(next, r.currentBatch + 1)
    requires next.manifest == r.manifest && next.rows.Keys == r.rows.Keys
    ensures Populated(next)
    ensures Progressed(r, next) && Live(next) ==> Busy(next)
  {
    if Progressed(r, next) && Live(next) {
      NextBatchIsWaiting(next);
    }
  }

  lemma {:induction false} UnboundDriveStops(r: Run, t: Target, executors: Executors, writes: nat)
    requires Live(r) && IsUnfinished(r, t.targetId) && Known(r.manifest, t)
    requires writes >= 3 && !BoundFor(executors, t)
    ensures CutDrive(r, t, executors, writes) == (Step(r, MarkEvent(t.targetId)), Some(ReceiptBindingInvalid))
  {
  }

  /** A drive that records nothing leaves its run live and busy. */
  lemma {:induction false} DriveWithoutRecord(r: Run, t: Target, executors: Executors, writes: nat)
    requires Live(r) && IsUnfinished(r, t.targetId) && Known(r.manifest, t)
    requires writes < 3 || !BoundFor(executors, t)
    ensures
      var (next, e) := CutDrive(r, t, executors, writes);
      Live(next) && Busy(next) && (writes >= 3 ==> e.Some?)
  {
    MarkedIsBusy(r, t.targetId);
    if writes >= 3 {
      UnboundDriveStops(r, t, executors, writes);
    } else {
      CutDriveIsSteps(r, t, executors, writes);
      assert IsUnfinished(r, t.targetId);
    }
  }

  lemma {:induction false} BoundReplyIsTaken(r: Run, t: Target, executors: Executors)
    requires IsUnfinished(r, t.targetId) && Known(r.manifest, t) && BoundFor(executors, t)
    ensures CutDrive(r, t, executors, 3).1.None?
  {
  }

  /** A drive that records and does not decide leaves its run live, with the rest of the queue to run. */
  lemma {:induction false} DriveWithoutVerdict(r: Run, queue: seq<Target>, executors: Executors)
    requires Live(r) && queue != [] && Covers(r, queue) && BoundFor(executors, queue[0])
    ensures
      var (next, e) := CutDrive(r, queue[0], executors, 3);
      e.None? && Live(next) && (Busy(next) <==> queue[1..] != [])
  {
    var t := queue[0];
    assert t in queue && IsUnfinished(r, t.targetId);
    DrivenIsCut(r, t, executors);
    DrivingCovers(r, queue, Answer(executors, t));
    CutDriveIsSteps(r, t, executors, 3);
    BoundReplyIsTaken(r, t, executors);
  }

  /** A whole drive decides when the queue ends, and otherwise leaves its run live, with the rest to run. */
  lemma {:induction false} DriveWithVerdict(r: Run, queue: seq<Target>, executors: Executors)
    requires Orderly(r) && Live(r) && WellStaged(r.manifest) && Populated(r)
    requires queue != [] && Covers(r, queue) && BoundFor(executors, queue[0])
    ensures
      var (next, e) := DriveTarget(r, queue[0], executors);
      && e.None? && Orderly(next) && Populated(next) && next.manifest == r.manifest
      && (queue[1..] == [] ==> Sound(next) && (Live(next) ==> Busy(next)))
      && (queue[1..] != [] ==> Live(next) && Covers(next, queue[1..]))
  {
    var t := queue[0];
    assert t in queue && IsUnfinished(r, t.targetId);
    DrivingTheFirst(r, queue, executors);
    NextIfLive(r, DriveTarget(r, t, executors).0);
    DriveIsOrderly(r, t, executors);
    CutDriveIsSteps(r, t, executors, 4);
  }

  lemma {:induction false} AllBoundSplits(executors: Executors, queue: seq<Target>)
    requires queue != []
    ensures AllBound(executors, queue) <==> BoundFor(executors, queue[0]) && AllBound(executors, queue[1..])
  {
    assert queue == [queue[0]] + queue[1..];
  }

  /** The command has ended in `next`: what it means to leave a live run idle exactly when it loses the verdict. */
  predicate IdleIffLost(next: Run, queue: seq<Target>, executors: Executors, writes: nat) {
    && (next.state == RunPartial ==> !Busy(next))
    && (Live(next) ==> (Busy(next) <==> !(writes == 4 * |queue| - 1 && AllBound(executors, queue))))
  }

  lemma {:induction false} IdleWithoutRecord(r: Run, queue: seq<Target>, executors: Executors, writes: nat)
    requires Live(r) && queue != [] && Covers(r, queue)
    requires 0 < writes && (writes < 3 || !BoundFor(executors, queue[0]))
    ensures IdleIffLost(CutTargets(r, queue, executors, writes).0, queue, executors, writes)
  {
    assert queue[0] in queue && IsUnfinished(r, queue[0].targetId);
    CutTargetsGoesOn(r, queue, executors, writes);
    DriveWithoutRecord(r, queue[0], executors, writes);
    AllBoundSplits(executors, queue);
  }

  lemma {:induction false} IdleWithoutVerdict(r: Run, queue: seq<Target>, executors: Executors)
    requires Live(r) && queue != [] && Covers(r, queue) && BoundFor(executors, queue[0])
    ensures IdleIffLost(CutTargets(r, queue, executors, 3).0, queue, executors, 3)
  {
    CutTargetsGoesOn(r, queue, executors, 3);
    DriveWithoutVerdict(r, queue, executors);
    AllBoundSplits(executors, queue);
  }

  lemma {:induction false} IdleAtTheEnd(r: Run, queue: seq<Target>, executors: Executors, writes: nat)
    requires Orderly(r) && Live(r) && WellStaged(r.manifest) && Populated(r)
    requires queue != [] && Covers(r, queue) && BoundFor(executors, queue[0]) && queue[1..] == [] && writes >= 4
    ensures IdleIffLost(CutTargets(r, queue, executors, writes).0, queue, executors, writes)
  {
    CutTargetsGoesOn(r, queue, executors, writes);
    DriveWithVerdict(r, queue, executors);
  }

  lemma {:induction false} IdleLater(r: Run, queue: seq<Target>, executors: Executors, writes: nat, next: Run)
    requires queue != [] && queue[1..] != [] && writes >= 4 && BoundFor(executors, queue[0])
    requires DriveTarget(r, queue[0], executors) == (next, None) && Live(next)
    requires IdleIffLost(CutTargets(next, queue[1..], executors, writes - 4).0, queue[1..], executors, writes - 4)
    ensures IdleIffLost(CutTargets(r, queue, executors, writes).0, queue, executors, writes)
  {
    CutTargetsGoesOn(r, queue, executors, writes);
    AllBoundSplits(executors, queue);
  }

  /** A batch command on a busy live run leaves it live with nothing to run exactly when it loses the verdict. */
  lemma {:induction false} CutTargetsIdleIff(r: Run, queue: seq<Target>, executors: Executors, writes: nat)
    requires Orderly(r) && Live(r) && WellStaged(r.manifest) && Populated(r)
    requires queue != [] && Covers(r, queue)
    ensures IdleIffLost(CutTargets(r, queue, executors, writes).0, queue, executors, writes)
    decreases |queue|
  {
    if writes == 0 {
      CoveredIsBusy(r, queue);
    } else if writes < 3 || !BoundFor(executors, queue[0]) {
      IdleWithoutRecord(r, queue, executors, writes);
    } else if writes == 3 {
      IdleWithoutVerdict(r, queue, executors);
    } else if queue[1..] == [] {
      IdleAtTheEnd(r, queue, executors, writes);
    } else {
      var next, rest := DriveTarget(r, queue[0], executors).0, queue[1..];
      DriveWithVerdict(r, queue, executors);
      CutTargetsIdleIff(next, rest, executors, writes - 4);
      IdleLater(r, queue, executors, writes, next);
    }
  }

  predicate BatchesAndPauses(commands: seq<Command>) {
    forall k :: 0 <= k < |commands| ==> commands[k].BatchCommand? || commands[k].PauseCommand?
  }

  /** Whether some command loses the verdict on the batch it ends. */
  predicate Lost(r: Run, commands: seq<Command>)
    decreases |commands|
  {
    commands != []
    && ((commands[0].BatchCommand? && LosesVerdict(r, commands[0].executors, commands[0].writes))
        || Lost(Obey(r, commands[0]), commands[1..]))
  }

  /** A run that batch and pause commands leave as it is. */
  predicate Halted(r: Run) {
    !Live(r) && (r.state == RunPartial ==> !Busy(r))
  }

  lemma {:induction false} NothingRunnable(r: Run, executors: Executors, writes: nat)
    requires Core(r) && WellStaged(r.manifest) && Populated(r) && !Busy(r)
    ensures CutBatch(r, executors, writes).0 == r && !LosesVerdict(r, executors, writes)
  {
    RunnableIffBusy(r);
  }

  lemma {:induction false} HaltedStays(r: Run, c: Command)
    requires Orderly(r) && WellStaged(r.manifest) && Populated(r) && Halted(r)
    requires c.BatchCommand? || c.PauseCommand?
    ensures Obey(r, c) == r && (c.BatchCommand? ==> !LosesVerdict(r, c.executors, c.writes))
  {
    if c.BatchCommand? && r.state == RunPartial {
      NothingRunnable(r, c.executors, c.writes);
    }
  }

  lemma {:induction false} BatchIdlesIff(r: Run, executors: Executors, writes: nat)
    requires Orderly(r) && WellStaged(r.manifest) && Populated(r) && Live(r)
    ensures
      var next := CutBatch(r, executors, writes).0;
      && (Live(next) || Halted(next))
      && (Live(next) ==> (Busy(next) <==> Busy(r) && !LosesVerdict(r, executors, writes)))
  {
    if Busy(r) {
      var queue := RunnableAmong(r, r.manifest.targets);
      RunnableIffBusy(r);
      RunnableCovers(r);
      CutTargetsIdleIff(r, queue, executors, writes);
    } else {
      NothingRunnable(r, executors, writes);
    }
  }

  lemma {:induction false} LiveStepIdlesIff(r: Run, c: Command)
    requires Orderly(r) && WellStaged(r.manifest) && Populated(r) && Live(r)
    requires c.BatchCommand? || c.PauseCommand?
    ensures
      var next, lost := Obey(r, c), c.BatchCommand? && LosesVerdict(r, c.executors, c.writes);
      && (Live(next) || Halted(next))
      && (Live(next) ==> (Busy(next) <==> Busy(r) && !lost))
  {
    if c.BatchCommand? {
      BatchIdlesIff(r, c.executors, c.writes);
    }
  }

  lemma {:induction false} HaltedForGood(r: Run, commands: seq<Command>)
    requires Orderly(r) && WellStaged(r.manifest) && Populated(r) && Halted(r) && BatchesAndPauses(commands)
    ensures ObeyAll(r, commands) == r
    decreases |commands|
  {
    if commands == [] {
    } else {
      HaltedStays(r, commands[0]);
      HaltedForGood(r, commands[1..]);
    }
  }

  lemma {:induction false} BatchesIdleIff(r: Run, commands: seq<Command>)
    requires Orderly(r) && WellStaged(r.manifest) && Populated(r) && Live(r) && BatchesAndPauses(commands)
    ensures
      var later := ObeyAll(r, commands);
      Live(later) ==> (Busy(later) <==> Busy(r) && !Lost(r, commands))
    decreases |commands|
  {
    if commands == [] {
    } else {
      var next := Obey(r, commands[0]);
      LiveStepIdlesIff(r, commands[0]);
      ObeyIsOrderly(r, commands[0]);
      ObeyKeepsTargets(r, commands[0]);
      if Live(next) {
        BatchesIdleIff(next, commands[1..]);
      } else {
        HaltedForGood(next, commands[1..]);
      }
    }
  }

  lemma {:induction false} NewRunIsBusy(m: Manifest)
    requires WellStaged(m)
    ensures Live(NewRun(m)) && Busy(NewRun(m))
  {
    NewRunIsSound(m);
  }

  /**
   Driven by batch commands and pauses, each cut off anywhere, a live run has a runnable target
   exactly when no process recorded the last receipt of a batch and ended before the verdict.
   */
  lemma {:induction false} LiveRunIsRunnableIff(m: Manifest, created: nat, commands: seq<Command>)
    requires ManifestFault(m, created).None? && BatchesAndPauses(commands)
    requires Live(ObeyAll(NewRun(m), commands))
    ensures RunnableTargets(ObeyAll(NewRun(m), commands)) != Ok([]) <==> !Lost(NewRun(m), commands)
  {
    var r := ObeyAll(NewRun(m), commands);
    ObeyedIsOrderly(m, created, commands);
    ObeyedIsOrderly(m, created, []);
    BatchesIdleIff(NewRun(m), commands);
    NewRunIsBusy(m);
    RunnableIffBusy(r);
  }

  // ---------------------------------------------------------------- which idle runs are lost

  predicate NoneDeferred(r: Run) {
    forall id :: id in r.rows ==> r.rows[id].state != TargetDeferred
  }

  /** The run is where it was, but for being paused or resumed. */
  predicate Unmoved(r: Run, later: Run) {
    && later == r.(state := later.state, version := later.version)
    && (later.state == r.state || later.state == RunRunning || later.state == RunPaused)
  }

  predicate Idle(r: Run) {
    Live(r) && !Busy(r)
  }

  lemma {:induction false} IdleObeys(r: Run, now: Run, c: Command)
    requires Core(r) && WellStaged(r.manifest) && Populated(r) && Idle(r) && NoneDeferred(r)
    requires Unmoved(r, now)
    ensures Unmoved(r, Obey(now, c))
  {
    match c {
      case BatchCommand(executors, writes) => NothingRunnable(now, executors, writes);
      case _ =>
    }
  }

  lemma {:induction false} IdleObeysAll(r: Run, now: Run, commands: seq<Command>)
    requires Core(r) && WellStaged(r.manifest) && Populated(r) && Idle(r) && NoneDeferred(r)
    requires Unmoved(r, now)
    ensures Unmoved(r, ObeyAll(now, commands))
    decreases |commands|
  {
    if commands == [] {
    } else {
      IdleObeys(r, now, commands[0]);
      IdleObeysAll(r, Obey(now, commands[0]), commands[1..]);
    }
  }

  function Unavailable(t: Target): Option<Reply> {
    Some(Unanswered(""))
  }

  lemma {:induction false} SameVerdict(r: Run, other: Run)
    requires other.manifest == r.manifest && other.currentBatch == r.currentBatch && other.rows.Keys == r.rows.Keys
    requires forall id :: id in r.rows ==>
               && other.rows[id].batch == r.rows[id].batch && other.rows[id].required == r.rows[id].required
               && (other.rows[id].state == TargetConverged <==> r.rows[id].state == TargetConverged)
    ensures Verdict(other) == Verdict(r)
  {
    assert Unconverged(other, true) <==> Unconverged(r, true);
    assert Unconverged(other, false) <==> Unconverged(r, false);
  }

  /** A deferred target that was retried in vain. */
  function RetriedInVain(r: Run, id: string): Run
    requires id in r.rows
  {
    Reopen(SetRow(r, id, r.rows[id].(note := FromError(""))))
  }

  lemma {:induction false} VainRetry(r: Run, t: Target)
    requires t.targetId in r.rows && r.rows[t.targetId].state == TargetDeferred && Known(r.manifest, t)
    ensures Obey(r, RetryCommand(t.targetId, Unavailable, 4)) == Recalculate(RetriedInVain(r, t.targetId))
  {
    var retried := Step(r, RetryEvent(t.targetId));
    assert retried.manifest == r.manifest;
    assert ErrorRow(retried, t.targetId, "").rows == RetriedInVain(r, t.targetId).rows;
    assert Obey(r, RetryCommand(t.targetId, Unavailable, 4)) == Step(retried, ErrorEvent(t.targetId, ""));
  }

  /** Retrying a deferred target, even in vain, makes up for the lost verdict. */
  lemma {:induction false} RetryDecides(r: Run, t: Target)
    requires Idle(r) && t.targetId in r.rows && r.rows[t.targetId].state == TargetDeferred && Known(r.manifest, t)
    ensures
      var next := Obey(r, RetryCommand(t.targetId, Unavailable, 4));
      (next.state, next.currentBatch) == Verdict(r)
  {
    var id := t.targetId;
    VainRetry(r, t);
    FinishedInQuietBatch(r, id, r.rows[id].(note := FromError("")));
    assert !Busy(RetriedInVain(r, id));
    SameVerdict(r, RetriedInVain(r, id));
  }

  lemma {:induction false} ObeyOne(r: Run, c: Command)
    ensures ObeyAll(r, [c]) == Obey(r, c)
  {
    assert ObeyAll(Obey(r, c), [c][1..]) == Obey(r, c);
  }

  lemma {:induction false} RetryMoves(r: Run, id: string)
    requires id in r.rows && r.rows[id].state == TargetDeferred
    ensures !Unmoved(r, ObeyAll(r, [RetryCommand(id, Unavailable, 1)]))
  {
    ObeyOne(r, RetryCommand(id, Unavailable, 1));
    assert Obey(r, RetryCommand(id, Unavailable, 1)).rows[id].state == TargetRunning;
  }

  /**
   A live run with nothing to run is stuck for ever, whatever is commanded and answered, exactly
   when it has no deferred target to retry.
   */
  lemma {:induction false} StuckForEverIff(r: Run)
    requires Core(r) && WellStaged(r.manifest) && Populated(r) && Idle(r)
    ensures (forall commands :: Unmoved(r, ObeyAll(r, commands))) <==> NoneDeferred(r)
  {
    if NoneDeferred(r) {
      forall commands ensures Unmoved(r, ObeyAll(r, commands)) {
        IdleObeysAll(r, r, commands);
      }
    } else {
      var id :| id in r.rows && r.rows[id].state == TargetDeferred;
      RetryMoves(r, id);
    }
  }
}
