/** The commands that drive a rollout: one batch at a time, or one deferred target again. */
module RolloutDriver {
  import opened Common
  import opened Gates
  import opened RolloutManifest
  import opened Rollout
  import opened RolloutRuns
  import opened RolloutStores

  /** What executing a target's gate comes back with: a receipt, or why none was obtained. */
  datatype Reply = Answered(receipt: LifecycleReceipt) | Unanswered(text: string)

  /** What each target's executor answers; a target may have none configured. */
  type Executors = Target -> Option<Reply>

  /** What a batch takes an executor's answer to be: a missing executor is a failed execution. */
  function Answer(executors: Executors, t: Target): Reply {
    match executors(t)
    case Some(reply) => reply
    case None => Unanswered("ROLLOUT_EXECUTOR_NOT_CONFIGURED")
  }

  function ReplyEvent(t: Target, reply: Reply): Event {
    match reply
    case Answered(receipt) => ReceiptEvent(t.targetId, receipt)
    case Unanswered(text) => ErrorEvent(t.targetId, text)
  }

  function ReplyCut(t: Target, reply: Reply): Event {
    match reply
    case Answered(receipt) => ReceiptCut(t.targetId, receipt)
    case Unanswered(text) => ErrorCut(t.targetId, text)
  }

  /** Where a command leaves the run, and the error that cut it short, if any. */
  type Ending = (Run, Option<RolloutError>)

  /** Mark a target, execute it, record what came back. */
  function DriveTarget(r: Run, t: Target, executors: Executors): Ending {
    match MarkRunning(r, t.targetId)
    case Err(e) => (r, Some(e))
    case Ok(marked) =>
      match Try(marked, ReplyEvent(t, Answer(executors, t)))
      case Err(e) => (marked, Some(e))
      case Ok(next) => (next, None)
  }

  /** The same when the process ends after so many of the four writes: two of the mark, two of the record. */
  function CutDrive(r: Run, t: Target, executors: Executors, writes: nat): Ending {
    if writes >= 4 then DriveTarget(r, t, executors)
    else
      match Cut(r, MarkCut(t.targetId), MarkEvent(t.targetId), writes)
      case Err(e) => (r, Some(e))
      case Ok(marked) =>
        if writes < 3 then (marked, None)
        else
          match Try(marked, ReplyCut(t, Answer(executors, t)))
          case Err(e) => (marked, Some(e))
          case Ok(next) => (next, None)
  }

  /** Driving targets in turn, for so many writes. */
  function CutTargets(r: Run, queue: seq<Target>, executors: Executors, writes: nat): Ending
    decreases |queue|
  {
    if queue == [] || writes == 0 then (r, None)
    else
      var (next, e) := CutDrive(r, queue[0], executors, writes);
      if e.Some? || next.state == RunPaused || writes <= 4 then (next, e)
      else CutTargets(next, queue[1..], executors, writes - 4)
  }

  /** Driving targets in turn to the end: four writes for each. */
  function RunTargets(r: Run, queue: seq<Target>, executors: Executors): Ending {
    CutTargets(r, queue, executors, 4 * |queue|)
  }

  /** A batch command whose process ends after so many writes, if it makes as many. */
  function CutBatch(r: Run, executors: Executors, writes: nat): Ending {
    match RunnableTargets(r)
    case Err(e) => (r, Some(e))
    case Ok(queue) => CutTargets(r, queue, executors, writes)
  }

  function RunBatch(r: Run, executors: Executors): Ending {
    match RunnableTargets(r)
    case Err(e) => (r, Some(e))
    case Ok(queue) => RunTargets(r, queue, executors)
  }

  /** A retry command for so many of its four writes. */
  function CutRetry(r: Run, id: string, executors: Executors, writes: nat): Ending {
    match Cut(r, RetryCut(id), RetryEvent(id), writes)
    case Err(e) => (r, Some(e))
    case Ok(retried) =>
      if writes < 2 then (retried, None)
      else
        match FindTarget(r.manifest.targets, id)
        case None => (retried, Some(TargetNotFound))
        case Some(t) =>
          match executors(t)
          case None => (retried, Some(ExecutorNotConfigured))
          case Some(reply) =>
            match Cut(retried, ReplyCut(t, reply), ReplyEvent(t, reply), writes - 2)
            case Err(e) => (retried, Some(e))
            case Ok(next) => (next, None)
  }

  lemma {:induction false} CutTargetsGoesOn(r: Run, queue: seq<Target>, executors: Executors, writes: nat)
    requires queue != [] && writes > 0
    ensures
      var (next, e) := CutDrive(r, queue[0], executors, writes);
      CutTargets(r, queue, executors, writes)
      == if e.Some? || next.state == RunPaused || writes <= 4 then (next, e)
         else CutTargets(next, queue[1..], executors, writes - 4)
  {
  }

  lemma {:induction false} RunTargetsGoesOn(r: Run, queue: seq<Target>, executors: Executors)
    requires queue != []
    ensures
      var (next, e) := DriveTarget(r, queue[0], executors);
      RunTargets(r, queue, executors)
      == if e.Some? || next.state == RunPaused then (next, e) else RunTargets(next, queue[1..], executors)
  {
  }

  // ---------------------------------------------------------------- the commands themselves

  method RecordReply(store: RolloutStore, id: string, t: Target, reply: Reply, writes: nat) returns (r: Status)
    requires id in store.runs
    modifies store
    ensures r == Cut(old(store.runs)[id], ReplyCut(t, reply), ReplyEvent(t, reply), writes)
    ensures store.runs == Updated(old(store.runs), id, r)
  {
    match reply {
      case Answered(receipt) => r := store.Record(id, t.targetId, receipt, writes);
      case Unanswered(text) => r := store.RecordError(id, t.targetId, text, writes);
    }
  }

  method DriveTargetCommand(store: RolloutStore, id: string, t: Target, executors: Executors, writes: nat)
    returns (error: Option<RolloutError>)
    requires id in store.runs
    modifies store
    ensures
      var (run, e) := CutDrive(old(store.runs)[id], t, executors, writes);
      store.runs == old(store.runs)[id := run] && error == e
  {
    var marked := store.Mark(id, t.targetId, writes);
    if marked.Err? {
      return Some(marked.error);
    }
    if writes <= 2 {
      return None;
    }
    var recorded := RecordReply(store, id, t, Answer(executors, t), writes - 2);
    return if recorded.Err? then Some(recorded.error) else None;
  }

  method RunBatchCommand(store: RolloutStore, id: string, executors: Executors, writes: nat)
    returns (error: Option<RolloutError>)
    requires id in store.runs
    modifies store
    ensures
      var (run, e) := CutBatch(old(store.runs)[id], executors, writes);
      store.runs == old(store.runs)[id := run] && error == e
  {
    var queue := store.Runnable(id);
    if queue.Err? {
      return Some(queue.error);
    }
    ghost var start := store.runs;
    var left := writes;
    for k := 0 to |queue.value|
      invariant id in store.runs && store.runs == start[id := store.runs[id]]
      invariant CutTargets(start[id], queue.value, executors, writes)
                == CutTargets(store.runs[id], queue.value[k..], executors, left)
    {
      if left == 0 {
        return None;
      }
      assert queue.value[k..][0] == queue.value[k] && queue.value[k..][1..] == queue.value[k + 1..];
      CutTargetsGoesOn(store.runs[id], queue.value[k..], executors, left);
      error := DriveTargetCommand(store, id, queue.value[k], executors, left);
      if error.Some? || store.runs[id].state == RunPaused || left <= 4 {
        return error;
      }
      left := left - 4;
    }
    return None;
  }

  method RetryTargetCommand(store: RolloutStore, id: string, target: string, executors: Executors, writes: nat)
    returns (error: Option<RolloutError>)
    requires id in store.runs
    modifies store
    ensures
      var (run, e) := CutRetry(old(store.runs)[id], target, executors, writes);
      store.runs == old(store.runs)[id := run] && error == e
  {
    var retried := store.Retry(id, target, writes);
    if retried.Err? {
      return Some(retried.error);
    }
    if writes < 2 {
      return None;
    }
    var t := FindTarget(store.runs[id].manifest.targets, target);
    if t.None? {
      return Some(TargetNotFound);
    }
    var reply := executors(t.value);
    if reply.None? {
      return Some(ExecutorNotConfigured);
    }
    var recorded := RecordReply(store, id, t.value, reply.value, writes - 2);
    return if recorded.Err? then Some(recorded.error) else None;
  }

  // ---------------------------------------------------------------- driver discipline

  /** No target of batch `batch` or later has been started. */
  ghost predicate PendingFrom(r: Run, batch: nat) {
    forall id {:trigger r.rows[id]} :: id in r.rows && r.rows[id].batch >= batch ==> r.rows[id].state == TargetPending
  }

  ghost predicate NothingAhead(r: Run) {
    PendingFrom(r, r.currentBatch + 1)
  }

  predicate InCurrentBatch(r: Run, id: string) {
    RunnableTargets(r).Ok? && id in r.rows && r.rows[id].batch == r.currentBatch
  }

  predicate HasStarted(r: Run, id: string) {
    id in r.rows && r.rows[id].state == TargetRunning
  }

  /** The driver marks only in the current batch, and records only for a target it has started. */
  predicate Disciplined(r: Run, e: Event) {
    match e
    case MarkEvent(id) => InCurrentBatch(r, id)
    case MarkCut(id) => InCurrentBatch(r, id)
    case ReceiptEvent(id, _) => HasStarted(r, id)
    case ReceiptCut(id, _) => HasStarted(r, id)
    case ErrorEvent(id, _) => HasStarted(r, id)
    case ErrorCut(id, _) => HasStarted(r, id)
    case _ => true
  }

  lemma {:induction false} StepLeavesNothingAhead(r: Run, e: Event)
    requires NothingAhead(r) && Disciplined(r, e)
    ensures NothingAhead(Step(r, e))
  {
    var next := Step(r, e);
    assert next.currentBatch >= r.currentBatch;
    forall id | id in next.rows && next.rows[id].batch > next.currentBatch
      ensures next.rows[id].state == TargetPending
    {
      assert id in r.rows && r.rows[id].batch == next.rows[id].batch;
    }
  }

  /** Marking checks no batch: it keeps later batches untouched exactly when the target is not ahead. */
  lemma {:induction false} MarkingStaysInOrderIff(r: Run, id: string)
    requires NothingAhead(r) && MarkRunning(r, id).Ok?
    ensures NothingAhead(MarkRunning(r, id).value) <==> r.rows[id].batch <= r.currentBatch
  {
    var next := MarkRunning(r, id).value;
    assert next.rows[id].batch == r.rows[id].batch && next.rows[id].state == TargetRunning;
  }

  // ---------------------------------------------------------------- a batch command ends its batch

  /** The target a row stands for. */
  predicate Known(m: Manifest, t: Target) {
    FindTarget(m.targets, t.targetId) == Some(t)
  }

  predicate IsUnfinished(r: Run, id: string) {
    id in r.rows && r.rows[id].batch == r.currentBatch && Unfinished(r.rows[id])
  }

  predicate Listed(queue: seq<Target>, id: string) {
    exists t :: t in queue && t.targetId == id
  }

  predicate EachOnce(queue: seq<Target>) {
    forall i, j :: 0 <= i < j < |queue| ==> queue[i].targetId != queue[j].targetId
  }

  /** What is left to do is exactly what is unfinished in the current batch, each target once. */
  ghost predicate Covers(r: Run, queue: seq<Target>) {
    && (forall t {:trigger t in queue} :: t in queue ==> Known(r.manifest, t) && IsUnfinished(r, t.targetId))
    && EachOnce(queue)
    && (forall id {:trigger IsUnfinished(r, id)} :: IsUnfinished(r, id) ==> Listed(queue, id))
  }

  lemma {:induction false} PrependOnce(t: Target, queue: seq<Target>)
    requires EachOnce(queue) && forall x :: x in queue ==> x.targetId != t.targetId
    ensures EachOnce([t] + queue)
  {
    var all := [t] + queue;
    forall i, j | 0 <= i < j < |all| ensures all[i].targetId != all[j].targetId {
      assert all[j] == queue[j - 1] && all[j] in queue;
      assert i > 0 ==> all[i] == queue[i - 1];
    }
  }

  lemma {:induction false} RunnableAmongIsDistinct(r: Run, ts: seq<Target>)
    requires EachOnce(ts)
    ensures EachOnce(RunnableAmong(r, ts))
  {
    if ts == [] {
    } else {
      var rest := RunnableAmong(r, ts[1..]);
      assert EachOnce(ts[1..]);
      RunnableAmongIsDistinct(r, ts[1..]);
      forall x | x in rest ensures x.targetId != ts[0].targetId {
        RunnableAmongHas(r, ts[1..], x);
        var k :| 0 <= k < |ts[1..]| && ts[1..][k] == x;
        assert ts[k + 1] == x;
      }
      PrependOnce(ts[0], rest);
    }
  }

  lemma {:induction false} RunnableCovers(r: Run)
    requires Core(r) && WellStaged(r.manifest)
    ensures Covers(r, RunnableAmong(r, r.manifest.targets))
  {
    var ts := r.manifest.targets;
    var queue := RunnableAmong(r, ts);
    RunnableAmongIsDistinct(r, ts);
    forall t | t in queue ensures Known(r.manifest, t) && IsUnfinished(r, t.targetId) {
      RunnableAmongHas(r, ts, t);
      FindsItself(r.manifest, t);
      assert RowOk(r.manifest, r.currentBatch, t.targetId, r.rows[t.targetId]);
    }
    forall id | IsUnfinished(r, id) ensures Listed(queue, id) {
      assert RowOk(r.manifest, r.currentBatch, id, r.rows[id]);
      FindsEachTarget(ts, id);
      RunnableAmongHas(r, ts, FindTarget(ts, id).value);
    }
  }

  /** The row once its execution has come back. */
  function Replied(row: Row, reply: Reply): Row {
    match reply
    case Answered(receipt) => Received(row, receipt)
    case Unanswered(text) => row.(state := TargetDeferred, note := FromError(text))
  }

  /** A receipt obtained for a target is for the operation it was asked for. */
  predicate BoundFor(executors: Executors, t: Target) {
    var reply := Answer(executors, t);
    reply.Answered? ==> reply.receipt.operationId == t.gate.operation.operationId
  }

  ghost predicate Bound(m: Manifest, executors: Executors) {
    forall t :: t in m.targets ==> BoundFor(executors, t)
  }

  predicate Live(r: Run) {
    r.state == RunPending || r.state == RunRunning
  }

  /** A run that batch commands work on: a live one, or one left partially converged by a retry that was cut off. */
  predicate Open(r: Run) {
    Live(r) || r.state == RunPartial
  }

  /** An open run before it is decided anew, once `t` has been driven. */
  function Driven(r: Run, t: Target, reply: Reply): Run
    requires t.targetId in r.rows
  {
    var started := r.rows[t.targetId].(state := TargetRunning, note := ExecutionStarted);
    StartRun(SetRow(r, t.targetId, Replied(started, reply)))
  }

  lemma {:induction false} DrivingDecides(r: Run, t: Target, executors: Executors)
    requires Known(r.manifest, t) && BoundFor(executors, t) && IsUnfinished(r, t.targetId) && Open(r)
    ensures DriveTarget(r, t, executors) == (Recalculate(Driven(r, t, Answer(executors, t))), None)
  {
    var marked := MarkRunning(r, t.targetId).value;
    assert Driven(r, t, Answer(executors, t)).rows
           == marked.rows[t.targetId := Replied(marked.rows[t.targetId], Answer(executors, t))];
  }

  lemma {:induction false} DrivingIsTwoSteps(r: Run, t: Target, executors: Executors)
    requires Known(r.manifest, t) && BoundFor(executors, t) && IsUnfinished(r, t.targetId) && Open(r)
    ensures DriveTarget(r, t, executors).0 == Step(Step(r, MarkEvent(t.targetId)), ReplyEvent(t, Answer(executors, t)))
    ensures Disciplined(r, MarkEvent(t.targetId))
    ensures Disciplined(Step(r, MarkEvent(t.targetId)), ReplyEvent(t, Answer(executors, t)))
  {
  }

  lemma {:induction false} DrivenIsCut(r: Run, t: Target, executors: Executors)
    requires Known(r.manifest, t) && BoundFor(executors, t) && IsUnfinished(r, t.targetId) && Open(r)
    ensures
      Driven(r, t, Answer(executors, t)) == Step(Step(r, MarkEvent(t.targetId)), ReplyCut(t, Answer(executors, t)))
  {
    var marked := MarkRunning(r, t.targetId).value;
    assert Driven(r, t, Answer(executors, t)).rows
           == marked.rows[t.targetId := Replied(marked.rows[t.targetId], Answer(executors, t))];
  }

  lemma {:induction false} DrivenIsDurable(r: Run, t: Target, executors: Executors)
    requires Known(r.manifest, t) && BoundFor(executors, t) && IsUnfinished(r, t.targetId) && Open(r)
    requires Durable(r)
    ensures Durable(Driven(r, t, Answer(executors, t)))
  {
    DrivenIsCut(r, t, executors);
    StepStaysDurable(r, MarkEvent(t.targetId));
    StepStaysDurable(Step(r, MarkEvent(t.targetId)), ReplyCut(t, Answer(executors, t)));
  }

  /** Driving a target leaves all later batches alone. */
  lemma {:induction false} DrivingStaysInBatch(r: Run, t: Target, executors: Executors)
    requires Known(r.manifest, t) && BoundFor(executors, t) && IsUnfinished(r, t.targetId) && Open(r)
    requires NothingAhead(r)
    ensures
      var next := DriveTarget(r, t, executors).0;
      PendingFrom(next, r.currentBatch + 1) && next.manifest == r.manifest && next.rows.Keys == r.rows.Keys
  {
    DrivingDecides(r, t, executors);
  }

  lemma {:induction false} DrivingCovers(r: Run, queue: seq<Target>, reply: Reply)
    requires queue != [] && Covers(r, queue) && IsUnfinished(r, queue[0].targetId)
    ensures Covers(Driven(r, queue[0], reply), queue[1..])
    ensures Busy(Driven(r, queue[0], reply)) <==> queue[1..] != []
  {
    var id := queue[0].targetId;
    var next := Driven(r, queue[0], reply);
    forall t | t in queue[1..] ensures Known(next.manifest, t) && IsUnfinished(next, t.targetId) {
      assert t in queue;
      var k :| 0 <= k < |queue[1..]| && queue[1..][k] == t;
      assert queue[k + 1] == t && queue[0].targetId != queue[k + 1].targetId;
    }
    forall k | IsUnfinished(next, k) ensures Listed(queue[1..], k) {
      assert k != id && IsUnfinished(r, k);
      var t :| t in queue && t.targetId == k;
      assert t in queue[1..];
    }
    if queue[1..] != [] {
      assert queue[1..][0] in queue[1..];
      assert IsUnfinished(next, queue[1..][0].targetId);
    } else if Busy(next) {
      var k :| k in next.rows && next.rows[k].batch == next.currentBatch && Unfinished(next.rows[k]);
      assert IsUnfinished(next, k);
    }
  }

  /** The run has stopped, or moved on to the next batch. */
  predicate Progressed(r: Run, next: Run) {
    || next.state == RunPaused || next.state == RunPartial || next.state == RunConverged
    || (next.state == RunRunning && next.currentBatch == r.currentBatch + 1)
  }

  lemma {:induction false} QuietRunProgresses(r: Run)
    requires Core(r) && !Busy(r)
    ensures Progressed(r, Recalculate(r)) && Sound(Recalculate(r))
  {
    RecalculateIsSound(r);
  }

  lemma {:induction false} DrivingTheFirst(r: Run, queue: seq<Target>, executors: Executors)
    requires Durable(r) && NothingAhead(r) && Open(r)
    requires queue != [] && Covers(r, queue) && BoundFor(executors, queue[0])
    ensures
      var (next, e) := DriveTarget(r, queue[0], executors);
      && e.None? && Durable(next)
      && PendingFrom(next, r.currentBatch + 1) && next.manifest == r.manifest && next.rows.Keys == r.rows.Keys
      && (queue[1..] == [] ==> Progressed(r, next) && Sound(next))
      && (queue[1..] != [] ==>
          next.state == StartRun(r).state && next.currentBatch == r.currentBatch && Covers(next, queue[1..]))
  {
    var t := queue[0];
    assert t in queue && IsUnfinished(r, t.targetId);
    DrivingDecides(r, t, executors);
    DrivenIsDurable(r, t, executors);
    RecalculateIsDurable(Driven(r, t, Answer(executors, t)));
    DrivingStaysInBatch(r, t, executors);
    DrivingCovers(r, queue, Answer(executors, t));
    if queue[1..] == [] {
      QuietRunProgresses(Driven(r, t, Answer(executors, t)));
    }
  }

  ghost predicate EndedBatch(r: Run, x: Ending) {
    && x.1.None? && Progressed(r, x.0) && Sound(x.0)
    && PendingFrom(x.0, r.currentBatch + 1) && x.0.manifest == r.manifest && x.0.rows.Keys == r.rows.Keys
  }

  lemma {:induction false} EndedFromLater(r: Run, mid: Run, x: Ending)
    requires mid.currentBatch == r.currentBatch && mid.manifest == r.manifest && mid.rows.Keys == r.rows.Keys
    requires EndedBatch(mid, x)
    ensures EndedBatch(r, x)
  {
  }

  lemma {:induction false} RunTargetsEnds(r: Run, queue: seq<Target>, executors: Executors)
    requires Durable(r) && NothingAhead(r) && Open(r)
    requires queue != [] && Covers(r, queue) && forall k :: 0 <= k < |queue| ==> BoundFor(executors, queue[k])
    ensures EndedBatch(r, RunTargets(r, queue, executors))
    decreases |queue|
  {
    DrivingTheFirst(r, queue, executors);
    RunTargetsGoesOn(r, queue, executors);
    var next := DriveTarget(r, queue[0], executors).0;
    if queue[1..] == [] {
    } else {
      RunTargetsEnds(next, queue[1..], executors);
      EndedFromLater(r, next, RunTargets(next, queue[1..], executors));
    }
  }

  lemma {:induction false} NextBatchIsWaiting(r: Run)
    requires WellStaged(r.manifest) && Populated(r) && Core(r) && PendingFrom(r, r.currentBatch)
    ensures Busy(r)
  {
    assert HasBatch(r.manifest, r.currentBatch);
    var t :| t in r.manifest.targets && t.batch == r.currentBatch;
    FindsItself(r.manifest, t);
    assert RowOk(r.manifest, r.currentBatch, t.targetId, r.rows[t.targetId]);
  }

  lemma {:induction false} RunnableIsBound(r: Run, executors: Executors)
    requires Bound(r.manifest, executors)
    ensures
      var queue := RunnableAmong(r, r.manifest.targets);
      forall k :: 0 <= k < |queue| ==> BoundFor(executors, queue[k])
  {
    var queue := RunnableAmong(r, r.manifest.targets);
    forall k | 0 <= k < |queue| ensures BoundFor(executors, queue[k]) {
      RunnableAmongHas(r, r.manifest.targets, queue[k]);
    }
  }

  /** What a batch command needs of the run it is given, and leaves for the next. */
  ghost predicate Waiting(r: Run) {
    Durable(r) && NothingAhead(r) && Open(r) && Busy(r)
  }

  lemma {:induction false} BatchProgresses(r: Run, queue: seq<Target>, executors: Executors)
    requires WellStaged(r.manifest) && Populated(r) && Waiting(r)
    requires queue != [] && Covers(r, queue) && forall k :: 0 <= k < |queue| ==> BoundFor(executors, queue[k])
    ensures
      var (next, e) := RunTargets(r, queue, executors);
      && e.None? && Progressed(r, next) && Sound(next) && (Live(next) ==> Waiting(next))
      && next.manifest == r.manifest && Populated(next)
  {
    RunTargetsEnds(r, queue, executors);
    var next := RunTargets(r, queue, executors).0;
    if Live(next) {
      NextBatchIsWaiting(next);
    }
  }

  /**
   One batch command on an open run that has something to run: it ends without error, and the run
   has stopped for a verdict or stands at the next batch, which again has something to run.
   */
  lemma {:induction false} BatchCommandEndsTheBatch(r: Run, executors: Executors)
    requires WellStaged(r.manifest) && Populated(r) && Bound(r.manifest, executors) && Waiting(r)
    ensures
      var (next, e) := RunBatch(r, executors);
      && e.None? && Progressed(r, next) && Sound(next) && (Live(next) ==> Waiting(next))
      && next.manifest == r.manifest && Populated(next)
  {
    RunnableCovers(r);
    RunnableIffBusy(r);
    RunnableIsBound(r, executors);
    BatchProgresses(r, RunnableAmong(r, r.manifest.targets), executors);
  }

  function RunBatches(r: Run, calls: seq<Executors>): Ending
    decreases |calls|
  {
    if calls == [] then (r, None)
    else
      var (next, e) := RunBatch(r, calls[0]);
      if e.Some? || !Live(next) then (next, e) else RunBatches(next, calls[1..])
  }

  lemma {:induction false} RunBatchesEnd(r: Run, calls: seq<Executors>)
    requires WellStaged(r.manifest) && Populated(r) && Waiting(r)
    requires |calls| > LastOf(r.manifest.targets) - r.currentBatch
    requires forall k :: 0 <= k < |calls| ==> Bound(r.manifest, calls[k])
    ensures
      var (next, e) := RunBatches(r, calls);
      e.None? && Sound(next) && !Live(next)
    decreases |calls|
  {
    BatchCommandEndsTheBatch(r, calls[0]);
    var next := RunBatch(r, calls[0]).0;
    if Live(next) {
      RunBatchesEnd(next, calls[1..]);
    }
  }

  /**
   Termination of the driver: for a valid manifest, with correctly bound receipts and no pause,
   resume or retry in between, every live run has a runnable target, and at most one batch command
   for each batch brings the run to Paused, PartiallyConverged or Converged.
   */
  lemma {:induction false} DriverTerminates(m: Manifest, created: nat, calls: seq<Executors>)
    requires ManifestFault(m, created).None?
    requires |calls| == LastOf(m.targets) + 1 && forall k :: 0 <= k < |calls| ==> Bound(m, calls[k])
    ensures
      var (r, e) := RunBatches(NewRun(m), calls);
      e.None? && Sound(r) && (r.state == RunPaused || r.state == RunPartial || r.state == RunConverged)
  {
    AcceptedManifestIsWellStaged(m, created);
    NewRunIsSound(m);
    RunBatchesEnd(NewRun(m), calls);
  }

  // ---------------------------------------------------------------- every mix of commands

  /** A command, and how many writes its process lives to make. */
  datatype Command =
    | BatchCommand(executors: Executors, writes: nat)
    | RetryCommand(id: string, executors: Executors, writes: nat)
    | PauseCommand
    | ResumeCommand
    | AcceptCommand(acceptance: Signed<Acceptance>, key: string, now: nat)

  function Obey(r: Run, c: Command): Run {
    match c
    case BatchCommand(executors, writes) => CutBatch(r, executors, writes).0
    case RetryCommand(id, executors, writes) => CutRetry(r, id, executors, writes).0
    case PauseCommand => Step(r, PauseEvent)
    case ResumeCommand => Step(r, ResumeEvent)
    case AcceptCommand(a, key, now) => Step(r, AcceptEvent(a, key, now))
  }

  function ObeyAll(r: Run, commands: seq<Command>): Run
    decreases |commands|
  {
    if commands == [] then r else ObeyAll(Obey(r, commands[0]), commands[1..])
  }

  /** What every command keeps. */
  ghost predicate Orderly(r: Run) {
    Durable(r) && NothingAhead(r)
  }

  lemma {:induction false} DisciplinedStepIsOrderly(r: Run, e: Event)
    requires Orderly(r) && Disciplined(r, e)
    ensures Orderly(Step(r, e))
  {
    StepStaysDurable(r, e);
    StepLeavesNothingAhead(r, e);
  }

  lemma {:induction false} DriveIsOrderly(r: Run, t: Target, executors: Executors)
    requires Orderly(r) && Open(r) && IsUnfinished(r, t.targetId)
    ensures Orderly(Step(r, MarkCut(t.targetId))) && Orderly(Step(r, MarkEvent(t.targetId)))
    ensures Orderly(Step(Step(r, MarkEvent(t.targetId)), ReplyCut(t, Answer(executors, t))))
    ensures Orderly(Step(Step(r, MarkEvent(t.targetId)), ReplyEvent(t, Answer(executors, t))))
  {
    DisciplinedStepIsOrderly(r, MarkCut(t.targetId));
    DisciplinedStepIsOrderly(r, MarkEvent(t.targetId));
    var marked := Step(r, MarkEvent(t.targetId));
    DisciplinedStepIsOrderly(marked, ReplyCut(t, Answer(executors, t)));
    DisciplinedStepIsOrderly(marked, ReplyEvent(t, Answer(executors, t)));
  }

  /** A drive is its steps, as many as its process lives to make; one that ends well had a bound receipt. */
  lemma {:induction false} CutDriveIsSteps(r: Run, t: Target, executors: Executors, writes: nat)
    requires IsUnfinished(r, t.targetId) && Known(r.manifest, t)
    ensures
      var marked := Step(r, MarkEvent(t.targetId));
      CutDrive(r, t, executors, writes).0
      == if writes == 0 then r
         else if writes == 1 then Step(r, MarkCut(t.targetId))
         else if writes == 2 then marked
         else if writes == 3 then Step(marked, ReplyCut(t, Answer(executors, t)))
         else Step(marked, ReplyEvent(t, Answer(executors, t)))
    ensures writes >= 3 && CutDrive(r, t, executors, writes).1.None? ==> BoundFor(executors, t)
  {
  }

  lemma {:induction false} CutTargetsIsOrderly(r: Run, queue: seq<Target>, executors: Executors, writes: nat)
    requires Orderly(r) && (queue != [] ==> Open(r) && Covers(r, queue))
    ensures Orderly(CutTargets(r, queue, executors, writes).0)
    decreases |queue|
  {
    if queue == [] || writes == 0 {
    } else {
      assert queue[0] in queue && IsUnfinished(r, queue[0].targetId);
      DriveIsOrderly(r, queue[0], executors);
      CutDriveIsSteps(r, queue[0], executors, writes);
      CutTargetsGoesOn(r, queue, executors, writes);
      var (next, e) := CutDrive(r, queue[0], executors, writes);
      if writes > 4 && e.None? && next.state != RunPaused {
        DrivingTheFirst(r, queue, executors);
        CutTargetsIsOrderly(next, queue[1..], executors, writes - 4);
      }
    }
  }

  lemma {:induction false} BatchIsOrderly(r: Run, executors: Executors, writes: nat)
    requires Orderly(r) && WellStaged(r.manifest) && Populated(r)
    ensures Orderly(CutBatch(r, executors, writes).0)
  {
    if RunnableTargets(r).Ok? {
      var queue := RunnableAmong(r, r.manifest.targets);
      RunnableCovers(r);
      CutTargetsIsOrderly(r, queue, executors, writes);
    }
  }

  /** Where a retry command can leave its run. */
  lemma {:induction false} RetryStops(r: Run, id: string, executors: Executors, writes: nat)
    ensures
      var next, retried := CutRetry(r, id, executors, writes).0, Step(r, RetryEvent(id));
      || next in {r, Step(r, RetryCut(id)), retried}
      || (&& RetryRow(r, id).Ok? && FindTarget(r.manifest.targets, id).Some?
          && var t := FindTarget(r.manifest.targets, id).value;
             executors(t).Some?
             && var reply := executors(t).value;
                next in {Step(retried, ReplyCut(t, reply)), Step(retried, ReplyEvent(t, reply))})
  {
  }

  lemma {:induction false} ReplyIsOrderly(r: Run, t: Target, reply: Reply)
    requires Orderly(r) && RetryRow(r, t.targetId).Ok?
    ensures
      var retried := Step(r, RetryEvent(t.targetId));
      && Orderly(retried)
      && Orderly(Step(retried, ReplyCut(t, reply))) && Orderly(Step(retried, ReplyEvent(t, reply)))
  {
    var retried := Step(r, RetryEvent(t.targetId));
    DisciplinedStepIsOrderly(r, RetryEvent(t.targetId));
    assert HasStarted(retried, t.targetId);
    DisciplinedStepIsOrderly(retried, ReplyCut(t, reply));
    DisciplinedStepIsOrderly(retried, ReplyEvent(t, reply));
  }

  lemma {:induction false} RetryIsOrderly(r: Run, id: string, executors: Executors, writes: nat)
    requires Orderly(r)
    ensures Orderly(CutRetry(r, id, executors, writes).0)
  {
    RetryStops(r, id, executors, writes);
    DisciplinedStepIsOrderly(r, RetryCut(id));
    DisciplinedStepIsOrderly(r, RetryEvent(id));
    var found := FindTarget(r.manifest.targets, id);
    if RetryRow(r, id).Ok? && found.Some? && executors(found.value).Some? {
      FindsEachTarget(r.manifest.targets, id);
      ReplyIsOrderly(r, found.value, executors(found.value).value);
    }
  }

  lemma {:induction false} StepKeepsTargets(r: Run, e: Event)
    ensures Step(r, e).manifest == r.manifest && Step(r, e).rows.Keys == r.rows.Keys
  {
  }

  lemma {:induction false} CutDriveStops(r: Run, t: Target, executors: Executors, writes: nat)
    ensures
      var marked, reply := Step(r, MarkEvent(t.targetId)), Answer(executors, t);
      CutDrive(r, t, executors, writes).0
      in {r, Step(r, MarkCut(t.targetId)), marked, Step(marked, ReplyCut(t, reply)), Step(marked, ReplyEvent(t, reply))}
  {
  }

  lemma {:induction false} CutDriveKeepsTargets(r: Run, t: Target, executors: Executors, writes: nat)
    ensures
      var next := CutDrive(r, t, executors, writes).0;
      next.manifest == r.manifest && next.rows.Keys == r.rows.Keys
  {
    var marked, reply := Step(r, MarkEvent(t.targetId)), Answer(executors, t);
    CutDriveStops(r, t, executors, writes);
    StepKeepsTargets(r, MarkCut(t.targetId));
    StepKeepsTargets(r, MarkEvent(t.targetId));
    StepKeepsTargets(marked, ReplyCut(t, reply));
    StepKeepsTargets(marked, ReplyEvent(t, reply));
  }

  lemma {:induction false} CutKeepsTargets(r: Run, queue: seq<Target>, executors: Executors, writes: nat)
    ensures
      var next := CutTargets(r, queue, executors, writes).0;
      next.manifest == r.manifest && next.rows.Keys == r.rows.Keys
    decreases |queue|
  {
    if queue == [] || writes == 0 {
    } else {
      CutDriveKeepsTargets(r, queue[0], executors, writes);
      CutTargetsGoesOn(r, queue, executors, writes);
      if writes > 4 {
        CutKeepsTargets(CutDrive(r, queue[0], executors, writes).0, queue[1..], executors, writes - 4);
      }
    }
  }

  lemma {:induction false} RetryKeepsTargets(r: Run, id: string, executors: Executors, writes: nat)
    ensures
      var next := CutRetry(r, id, executors, writes).0;
      next.manifest == r.manifest && next.rows.Keys == r.rows.Keys
  {
    RetryStops(r, id, executors, writes);
    StepKeepsTargets(r, RetryCut(id));
    StepKeepsTargets(r, RetryEvent(id));
    var retried, found := Step(r, RetryEvent(id)), FindTarget(r.manifest.targets, id);
    if found.Some? && executors(found.value).Some? {
      StepKeepsTargets(retried, ReplyCut(found.value, executors(found.value).value));
      StepKeepsTargets(retried, ReplyEvent(found.value, executors(found.value).value));
    }
  }

  lemma {:induction false} ObeyKeepsTargets(r: Run, c: Command)
    ensures Obey(r, c).manifest == r.manifest && Obey(r, c).rows.Keys == r.rows.Keys
  {
    match c {
      case BatchCommand(executors, writes) =>
        if RunnableTargets(r).Ok? {
          CutKeepsTargets(r, RunnableTargets(r).value, executors, writes);
        }
      case RetryCommand(id, executors, writes) => RetryKeepsTargets(r, id, executors, writes);
      case _ =>
    }
  }

  lemma {:induction false} ObeyIsOrderly(r: Run, c: Command)
    requires Orderly(r) && WellStaged(r.manifest) && Populated(r)
    ensures Orderly(Obey(r, c))
  {
    match c {
      case BatchCommand(executors, writes) => BatchIsOrderly(r, executors, writes);
      case RetryCommand(id, executors, writes) => RetryIsOrderly(r, id, executors, writes);
      case PauseCommand => DisciplinedStepIsOrderly(r, PauseEvent);
      case ResumeCommand => DisciplinedStepIsOrderly(r, ResumeEvent);
      case AcceptCommand(a, key, now) => DisciplinedStepIsOrderly(r, AcceptEvent(a, key, now));
    }
  }

  lemma {:induction false} ObeyAllIsOrderly(r: Run, commands: seq<Command>)
    requires Orderly(r) && WellStaged(r.manifest) && Populated(r)
    ensures Orderly(ObeyAll(r, commands)) && ObeyAll(r, commands).manifest == r.manifest
    decreases |commands|
  {
    if commands == [] {
    } else {
      ObeyIsOrderly(r, commands[0]);
      ObeyKeepsTargets(r, commands[0]);
      ObeyAllIsOrderly(Obey(r, commands[0]), commands[1..]);
    }
  }

  lemma {:induction false} ObeyAllKeepsTargets(r: Run, commands: seq<Command>)
    ensures ObeyAll(r, commands).manifest == r.manifest && ObeyAll(r, commands).rows.Keys == r.rows.Keys
    decreases |commands|
  {
    if commands == [] {
    } else {
      ObeyKeepsTargets(r, commands[0]);
      ObeyAllKeepsTargets(Obey(r, commands[0]), commands[1..]);
    }
  }

  /** Whatever commands a created run has obeyed, each cut off anywhere, it is orderly and has its targets. */
  lemma {:induction false} ObeyedIsOrderly(m: Manifest, created: nat, commands: seq<Command>)
    requires ManifestFault(m, created).None?
    ensures
      var r := ObeyAll(NewRun(m), commands);
      Orderly(r) && Populated(r) && r.manifest == m && WellStaged(m)
  {
    AcceptedManifestIsWellStaged(m, created);
    NewRunIsSound(m);
    ObeyAllIsOrderly(NewRun(m), commands);
    ObeyAllKeepsTargets(NewRun(m), commands);
  }

  /**
   The same termination after any commands cut off anywhere: as long as an open run has a target
   left in its batch, a batch command for each batch still to come ends it with a verdict.
   */
  lemma {:induction false} DriverRecovers(m: Manifest, created: nat, commands: seq<Command>, calls: seq<Executors>)
    requires ManifestFault(m, created).None?
    requires
      var r := ObeyAll(NewRun(m), commands);
      Open(r) && Busy(r) && |calls| > LastOf(m.targets) - r.currentBatch
    requires forall k :: 0 <= k < |calls| ==> Bound(m, calls[k])
    ensures
      var (r, e) := RunBatches(ObeyAll(NewRun(m), commands), calls);
      e.None? && Sound(r) && (r.state == RunPaused || r.state == RunPartial || r.state == RunConverged)
  {
    ObeyedIsOrderly(m, created, commands);
    RunBatchesEnd(ObeyAll(NewRun(m), commands), calls);
  }

  /**
   Whatever mix of batch, retry, pause, resume and accept commands drives a rollout, each cut off at
   any write, and whatever the executors answer, rightly bound or not, or not configured at all: a
   target is only started once every required target of every earlier batch, the canary among them,
   has converged.
   */
  lemma {:induction false} CanaryGoesFirst(m: Manifest, created: nat, commands: seq<Command>, id: string,
        earlier: string)
    requires ManifestFault(m, created).None?
    requires id in ObeyAll(NewRun(m), commands).rows && earlier in ObeyAll(NewRun(m), commands).rows
    ensures
      var rows := ObeyAll(NewRun(m), commands).rows;
      rows[id].state != TargetPending && rows[earlier].batch < rows[id].batch && rows[earlier].required
      ==> rows[earlier].state == TargetConverged
  {
    ObeyedIsOrderly(m, created, commands);
    var r := ObeyAll(NewRun(m), commands);
    assert RowOk(m, r.currentBatch, earlier, r.rows[earlier]);
    assert r.rows[id].batch > r.currentBatch ==> r.rows[id].state == TargetPending;
  }
}
