/** What every run of a rollout keeps, and what its verdicts and signed acceptances mean. */
module RolloutRuns {
  import opened Common
  import opened Gates
  import opened RolloutManifest
  import opened Rollout

  // ---------------------------------------------------------------- staged safety and verdicts

  /** Nothing changes which targets there are. */
  lemma {:induction false} TargetsAreFixed(r: Run, events: seq<Event>)
    ensures
      var later := RunAll(r, events);
      && later.manifest == r.manifest && later.rows.Keys == r.rows.Keys
    decreases |events|
  {
    if events == [] {
    } else {
      assert Step(r, events[0]).rows.Keys == r.rows.Keys;
      TargetsAreFixed(Step(r, events[0]), events[1..]);
    }
  }

  /** Every state a created run can reach keeps what is durable and has a row for each target. */
  lemma {:induction false} ReachedIsDurable(m: Manifest, created: nat, events: seq<Event>)
    requires ManifestFault(m, created).None?
    ensures
      var r := RunAll(NewRun(m), events);
      Durable(r) && Populated(r) && r.manifest == m && WellStaged(m)
  {
    AcceptedManifestIsWellStaged(m, created);
    NewRunIsSound(m);
    RunStaysDurable(NewRun(m), events);
    TargetsAreFixed(NewRun(m), events);
  }

  /** Every state reached without a cut is sound. */
  lemma {:induction false} ReachedIsSound(m: Manifest, created: nat, events: seq<Event>)
    requires ManifestFault(m, created).None? && AllWhole(events)
    ensures Sound(RunAll(NewRun(m), events))
  {
    AcceptedManifestIsWellStaged(m, created);
    NewRunIsSound(m);
    RunStaysSound(NewRun(m), events);
  }

  /**
   Staged safety, whatever is marked, recorded, retried, paused or resumed in whatever order, and cut
   off at whatever write: below the current batch every required target has converged, and every
   target has under stop-and-hold.
   */
  lemma {:induction false} LowerBatchesConverged(m: Manifest, created: nat, events: seq<Event>, id: string)
    requires ManifestFault(m, created).None? && id in RunAll(NewRun(m), events).rows
    ensures
      var r := RunAll(NewRun(m), events);
      var row := r.rows[id];
      row.batch < r.currentBatch && (row.required || m.failurePolicy == StopAndHold) ==> row.state == TargetConverged
  {
    ReachedIsDurable(m, created, events);
    var r := RunAll(NewRun(m), events);
    assert RowOk(m, r.currentBatch, id, r.rows[id]);
  }

  /**
   Every target state in every reachable run has its reason: a converged, rejected or failed target
   holds a receipt of its own operation that says so, and a target open to retry was left deferred
   by its execution or could not be executed at all.
   */
  lemma {:induction false} TargetStatesAreExplained(m: Manifest, created: nat, events: seq<Event>, id: string)
    requires ManifestFault(m, created).None? && id in RunAll(NewRun(m), events).rows
    ensures
      var t := FindTarget(m.targets, id);
      t.Some? && Explained(RunAll(NewRun(m), events).rows[id], t.value.gate.operation.operationId)
  {
    ReachedIsDurable(m, created, events);
    var r := RunAll(NewRun(m), events);
    assert RowOk(m, r.currentBatch, id, r.rows[id]);
  }

  ghost predicate CanaryConverged(r: Run) {
    forall id :: id in r.rows && r.rows[id].batch == 0 ==> r.rows[id].state == TargetConverged
  }

  /**
   What the run states mean in every reachable state. Converged: every target has converged.
   PartiallyConverged: the last batch, which is not the canary's, is the current one and the canary
   has converged; when no operation was cut off, the batch also has nothing left to do, and some
   target has not converged. Failed runs and held targets do not exist.
   */
  lemma {:induction false} VerdictsAreSound(m: Manifest, created: nat, events: seq<Event>)
    requires ManifestFault(m, created).None?
    ensures
      var r := RunAll(NewRun(m), events);
      && r.state != RunFailed
      && (forall id :: id in r.rows ==> r.rows[id].state != TargetHeld)
      && (r.state == RunConverged ==> AllConverged(r))
      && (r.state == RunPartial ==> r.currentBatch == LastOf(m.targets) >= 1 && CanaryConverged(r))
      && (r.state == RunPartial && AllWhole(events) ==>
            !Busy(r) && exists id :: id in r.rows && r.rows[id].state != TargetConverged)
  {
    ReachedIsDurable(m, created, events);
    if AllWhole(events) {
      ReachedIsSound(m, created, events);
    }
    var r := RunAll(NewRun(m), events);
    forall id | id in r.rows
      ensures r.rows[id].state != TargetHeld
      ensures r.state == RunPartial && r.rows[id].batch == 0 ==> r.rows[id].state == TargetConverged
    {
      assert RowOk(m, r.currentBatch, id, r.rows[id]);
    }
  }

  // ---------------------------------------------------------------- what is final

  predicate Final(row: Row) {
    row.state == TargetConverged || row.state == TargetFailed || row.state == TargetRejected
  }

  lemma {:induction false} FinalRowStays(r: Run, e: Event, id: string)
    requires id in r.rows && Final(r.rows[id])
    ensures id in Step(r, e).rows && Step(r, e).rows[id] == r.rows[id]
  {
  }

  /** A target that has converged, failed or been rejected is never touched again. */
  lemma {:induction false} FinalTargetStays(r: Run, events: seq<Event>, id: string)
    requires id in r.rows && Final(r.rows[id])
    ensures id in RunAll(r, events).rows && RunAll(r, events).rows[id] == r.rows[id]
    decreases |events|
  {
    if events == [] {
    } else {
      FinalRowStays(r, events[0], id);
      FinalTargetStays(Step(r, events[0]), events[1..], id);
    }
  }

  lemma {:induction false} ConvergedStep(r: Run, e: Event)
    requires Durable(r) && r.state == RunConverged
    ensures Step(r, e).(version := r.version) == r
  {
    assert !Busy(r) && !Unconverged(r, true) && !Unconverged(r, false);
  }

  /** A converged run stays converged, with the same targets and receipts, whatever is asked of it. */
  lemma {:induction false} ConvergedIsAbsorbing(r: Run, events: seq<Event>)
    requires Durable(r) && r.state == RunConverged
    ensures RunAll(r, events).(version := r.version) == r
    decreases |events|
  {
    if events == [] {
    } else {
      ConvergedStep(r, events[0]);
      StepStaysDurable(r, events[0]);
      ConvergedIsAbsorbing(Step(r, events[0]), events[1..]);
    }
  }

  // ---------------------------------------------------------------- versions and acceptances

  /** The part of the rows an acceptance is about. */
  predicate SameOutcomes(r: Run, later: Run) {
    && r.rows.Keys == later.rows.Keys
    && forall id :: id in r.rows && id in later.rows ==>
         later.rows[id].state == r.rows[id].state && later.rows[id].receipt == r.rows[id].receipt
  }

  lemma {:induction false} FinishedInQuietBatch(r: Run, id: string, row: Row)
    requires id in r.rows && !Busy(r) && !Unfinished(row)
    ensures !Busy(SetRow(r, id, row))
  {
    var next := SetRow(r, id, row);
    forall k | k in next.rows && next.rows[k].batch == next.currentBatch ensures !Unfinished(next.rows[k]) {
      assert k != id ==> r.rows[k].batch == r.currentBatch;
    }
  }

  /** A partially converged run whose batch has nothing left to do: what a signer is shown. */
  ghost predicate Quiet(r: Run) {
    Durable(r) && r.state == RunPartial && !Busy(r)
  }

  /** No pending target is left in it. */
  lemma {:induction false} NothingPendingAtTheEnd(r: Run, id: string)
    requires Quiet(r) && id in r.rows
    ensures r.rows[id].state != TargetPending
  {
    assert RowOk(r.manifest, r.currentBatch, id, r.rows[id]);
  }

  /** Whether an operation finds its target open to it and is cut off after changing the target's outcome. */
  predicate Tears(r: Run, e: Event) {
    match e
    case RetryCut(id) => RetryRow(r, id).Ok?
    case ErrorCut(id, _) => id in r.rows && Unfinished(r.rows[id])
    case ReceiptCut(id, receipt) =>
      ReceiptRow(r, id, receipt).Ok? && (r.rows[id].state != StateFrom(receipt) || r.rows[id].receipt != Some(receipt))
    case _ => false
  }

  /** What a step does to a quiet run: it moves the version, or tears the outcome, or keeps outcome and quiet. */
  ghost predicate Pinned(r: Run, e: Event) {
    var next := Step(r, e);
    || (next.version > r.version && !Tears(r, e))
    || (next.version == r.version && next.state == RunPartial
        && if Tears(r, e) then !SameOutcomes(r, next) else SameOutcomes(r, next) && Quiet(next))
  }

  lemma {:induction false} PartialReceipt(r: Run, id: string, receipt: LifecycleReceipt)
    requires Quiet(r)
    ensures Pinned(r, ReceiptEvent(id, receipt))
  {
    if ReceiptRow(r, id, receipt).Ok? {
      FinishedInQuietBatch(r, id, Received(r.rows[id], receipt));
    }
  }

  lemma {:induction false} PartialError(r: Run, id: string, text: string)
    requires Quiet(r)
    ensures Pinned(r, ErrorEvent(id, text))
  {
    if id in r.rows && Interruptible(r.rows[id]) {
      FinishedInQuietBatch(r, id, r.rows[id].(state := TargetDeferred, note := FromError(text)));
    }
  }

  lemma {:induction false} SameRowIsPinned(r: Run, id: string, row: Row)
    requires Quiet(r) && id in r.rows
    requires row.state == r.rows[id].state && row.receipt == r.rows[id].receipt && row.batch == r.rows[id].batch
    ensures SameOutcomes(r, SetRow(r, id, row)) && !Busy(SetRow(r, id, row))
  {
    var next := SetRow(r, id, row);
    forall k | k in next.rows && next.rows[k].batch == next.currentBatch ensures !Unfinished(next.rows[k]) {
      assert r.rows[k].batch == r.currentBatch;
    }
  }

  lemma {:induction false} PartialMarkCut(r: Run, id: string)
    requires Quiet(r)
    ensures Pinned(r, MarkCut(id))
  {
    if MarkRow(r, id).Ok? {
      NothingPendingAtTheEnd(r, id);
      SameRowIsPinned(r, id, r.rows[id].(state := TargetRunning, note := ExecutionStarted));
      CutIsDurable(r, MarkCut(id));
    }
  }

  lemma {:induction false} PartialMark(r: Run, id: string)
    requires Quiet(r)
    ensures Pinned(r, MarkEvent(id))
  {
    PartialMarkCut(r, id);
    assert Step(r, MarkEvent(id)) == Step(r, MarkCut(id));
  }

  lemma {:induction false} PartialReceiptCut(r: Run, id: string, receipt: LifecycleReceipt)
    requires Quiet(r)
    ensures Pinned(r, ReceiptCut(id, receipt))
  {
    var e := ReceiptCut(id, receipt);
    if ReceiptRow(r, id, receipt).Ok? {
      if Tears(r, e) {
        assert Step(r, e).rows[id] == Received(r.rows[id], receipt);
      } else {
        SameRowIsPinned(r, id, Received(r.rows[id], receipt));
        CutIsDurable(r, e);
      }
    }
  }

  lemma {:induction false} PartialErrorCut(r: Run, id: string, text: string)
    requires Quiet(r)
    ensures Pinned(r, ErrorCut(id, text))
  {
    var e := ErrorCut(id, text);
    if id in r.rows && Interruptible(r.rows[id]) {
      if Tears(r, e) {
        assert Step(r, e).rows[id].state == TargetDeferred;
      } else {
        SameRowIsPinned(r, id, r.rows[id].(state := TargetDeferred, note := FromError(text)));
        CutIsDurable(r, e);
      }
    }
  }

  lemma {:induction false} PartialStep(r: Run, e: Event)
    requires Quiet(r)
    ensures Pinned(r, e)
  {
    match e {
      case ReceiptEvent(id, receipt) => PartialReceipt(r, id, receipt);
      case ErrorEvent(id, text) => PartialError(r, id, text);
      case MarkEvent(id) => PartialMark(r, id);
      case MarkCut(id) => PartialMarkCut(r, id);
      case ReceiptCut(id, receipt) => PartialReceiptCut(r, id, receipt);
      case ErrorCut(id, text) => PartialErrorCut(r, id, text);
      case RetryCut(id) =>
        if RetryRow(r, id).Ok? {
          assert Step(r, e).rows[id].state == TargetRunning;
        }
      case _ =>
    }
  }

  lemma {:induction false} VersionNeverFalls(r: Run, events: seq<Event>)
    ensures RunAll(r, events).version >= r.version
    decreases |events|
  {
    if events == [] {
    } else {
      assert Step(r, events[0]).version >= r.version;
      VersionNeverFalls(Step(r, events[0]), events[1..]);
    }
  }

  /** Whether, before the version first moves, some operation is cut off after changing its target's outcome. */
  predicate Torn(r: Run, events: seq<Event>)
    decreases |events|
  {
    events != []
    && (Tears(r, events[0])
        || (Step(r, events[0]).version == r.version && Torn(Step(r, events[0]), events[1..])))
  }

  lemma {:induction false} WholeIsNotTorn(r: Run, events: seq<Event>)
    requires AllWhole(events)
    ensures !Torn(r, events)
    decreases |events|
  {
    if events == [] {
    } else {
      assert Whole(events[0]);
      WholeIsNotTorn(Step(r, events[0]), events[1..]);
    }
  }

  /**
   From a quiet run on, the same version means the same target states and receipts, unless an
   operation was cut off after changing one.
   */
  lemma {:induction false} VersionPinsOutcome(r: Run, events: seq<Event>)
    requires Quiet(r) && RunAll(r, events).version == r.version && !Torn(r, events)
    ensures Quiet(RunAll(r, events)) && SameOutcomes(r, RunAll(r, events))
    decreases |events|
  {
    if events == [] {
    } else {
      var next := Step(r, events[0]);
      PartialStep(r, events[0]);
      VersionNeverFalls(next, events[1..]);
      VersionPinsOutcome(next, events[1..]);
    }
  }

  /** At every point of the run that still has its first version, targets and receipts are the first ones. */
  ghost predicate PinnedThroughout(r: Run, events: seq<Event>) {
    forall k {:trigger events[..k]} :: 0 <= k <= |events| && RunAll(r, events[..k]).version == r.version ==>
      SameOutcomes(r, RunAll(r, events[..k]))
  }

  lemma {:induction false} RunAllPrefix(r: Run, events: seq<Event>, k: nat)
    requires 0 < k <= |events|
    ensures RunAll(r, events[..k]) == RunAll(Step(r, events[0]), events[1..][..k - 1])
  {
    assert events[..k][0] == events[0] && events[..k][1..] == events[1..][..k - 1];
  }

  lemma {:induction false} PrefixIsNotTorn(r: Run, events: seq<Event>, k: nat)
    requires k <= |events| && !Torn(r, events)
    ensures !Torn(r, events[..k])
    decreases |events|
  {
    if k == 0 {
    } else {
      assert events[..k][0] == events[0] && events[..k][1..] == events[1..][..k - 1];
      if Step(r, events[0]).version == r.version {
        PrefixIsNotTorn(Step(r, events[0]), events[1..], k - 1);
      }
    }
  }

  /** A torn run has a point where the version is the first one and the outcome is not. */
  lemma {:induction false} TornShows(r: Run, events: seq<Event>) returns (k: nat)
    requires Quiet(r) && Torn(r, events)
    ensures k <= |events| && RunAll(r, events[..k]).version == r.version && !SameOutcomes(r, RunAll(r, events[..k]))
    decreases |events|
  {
    PartialStep(r, events[0]);
    var next := Step(r, events[0]);
    if Tears(r, events[0]) {
      k := 1;
      RunAllPrefix(r, events, 1);
    } else {
      k := TornShows(next, events[1..]);
      k := k + 1;
      RunAllPrefix(r, events, k);
    }
  }

  /**
   The version of a quiet run pins its outcome, over any run of operations cut off anywhere, exactly
   when no operation is cut off after changing its target's outcome while the version stands.
   */
  lemma {:induction false} VersionPinsOutcomeIff(r: Run, events: seq<Event>)
    requires Quiet(r)
    ensures PinnedThroughout(r, events) <==> !Torn(r, events)
  {
    if Torn(r, events) {
      var k := TornShows(r, events);
    } else {
      forall k | 0 <= k <= |events| && RunAll(r, events[..k]).version == r.version
        ensures SameOutcomes(r, RunAll(r, events[..k]))
      {
        PrefixIsNotTorn(r, events, k);
        VersionPinsOutcome(r, events[..k]);
      }
    }
  }

  /**
   A signed acceptance pins an exact outcome: written for the version of a quiet run, it is accepted
   later only if every target state and receipt is still what the signer saw, and accepting changes
   none of them, unless an operation was cut off after changing one.
   */
  lemma {:induction false} AcceptancePinsOutcome(seen: Run, events: seq<Event>, a: Signed<Acceptance>, key: string,
        now: nat)
    requires Quiet(seen) && a.body.expectedVersion == seen.version && !Torn(seen, events)
    requires AcceptPartial(RunAll(seen, events), a, key, now).Ok?
    ensures
      var accepted := AcceptPartial(RunAll(seen, events), a, key, now).value;
      && SameOutcomes(seen, accepted) && accepted.state == RunPartial && accepted.rows == RunAll(seen, events).rows
      && SignedBy(a, key) && a.body.manifestDigest == accepted.digest && a.body.runId == accepted.manifest.runId
      && accepted.partialAccepted && accepted.version == seen.version + 1
  {
    VersionPinsOutcome(seen, events);
  }

  lemma {:induction false} AcceptedStays(r: Run, events: seq<Event>)
    requires r.partialAccepted
    ensures RunAll(r, events).partialAccepted
    decreases |events|
  {
    if events == [] {
    } else {
      assert Step(r, events[0]).partialAccepted;
      AcceptedStays(Step(r, events[0]), events[1..]);
    }
  }

  /** At most one acceptance ever succeeds, even after retries have made the run live again. */
  lemma {:induction false} AcceptedOnce(r: Run, first: Event, between: seq<Event>, again: Event)
    requires first.AcceptEvent? && again.AcceptEvent? && Try(r, first).Ok?
    ensures Try(RunAll(Step(r, first), between), again).Err?
  {
    AcceptedStays(Step(r, first), between);
  }

  // ---------------------------------------------------------------- what pause and resume do not do

  /**
   Pause is not sticky: a receipt that finishes the batch decides the run state anew. A paused run
   is still paused after a receipt exactly when the batch has more to do, or has a failure that
   holds it before the last batch.
   */
  lemma {:induction false} PauseOutlastsReceiptIff(r: Run, id: string, receipt: LifecycleReceipt)
    requires r.state == RunPaused && RecordReceipt(r, id, receipt).Ok?
    ensures
      var recorded := SetRow(r, id, Received(r.rows[id], receipt));
      var last := LastOf(r.manifest.targets);
      var held :=
        Unconverged(recorded, true) || (Unconverged(recorded, false) && r.manifest.failurePolicy == StopAndHold);
      RecordReceipt(r, id, receipt).value.state == RunPaused
      <==> (Busy(recorded) || (held && (r.currentBatch == 0 || r.currentBatch != last)))
  {
  }

  lemma {:induction false} RunnableAmongHas(r: Run, ts: seq<Target>, t: Target)
    ensures t in RunnableAmong(r, ts) <==> t in ts && Runnable(r, t)
  {
    if ts == [] {
    } else {
      RunnableAmongHas(r, ts[1..], t);
      assert t in ts <==> t == ts[0] || t in ts[1..];
    }
  }

  /** A batch has a runnable target exactly when it is busy. */
  lemma {:induction false} RunnableIffBusy(r: Run)
    requires Core(r) && Populated(r) && WellStaged(r.manifest)
    ensures RunnableAmong(r, r.manifest.targets) != [] <==> Busy(r)
  {
    var ts := r.manifest.targets;
    if RunnableAmong(r, ts) != [] {
      var t := RunnableAmong(r, ts)[0];
      RunnableAmongHas(r, ts, t);
      FindsItself(r.manifest, t);
      assert RowOk(r.manifest, r.currentBatch, t.targetId, r.rows[t.targetId]);
    }
    if Busy(r) {
      var id :| id in r.rows && r.rows[id].batch == r.currentBatch && Unfinished(r.rows[id]);
      assert RowOk(r.manifest, r.currentBatch, id, r.rows[id]);
      FindsEachTarget(ts, id);
      RunnableAmongHas(r, ts, FindTarget(ts, id).value);
    }
  }

  /** Resuming after a batch has failed leaves a running run with nothing to run; it does exactly then. */
  lemma {:induction false} ResumeIsIdleIff(r: Run)
    requires Core(r) && Populated(r) && WellStaged(r.manifest) && r.state == RunPaused
    ensures Resume(r).Ok?
    ensures RunnableTargets(Resume(r).value) == Ok([]) <==> !Busy(r)
  {
    var resumed := Resume(r).value;
    assert Core(resumed);
    assert Busy(resumed) <==> Busy(r);
    RunnableIffBusy(resumed);
  }
}
