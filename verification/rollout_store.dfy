/**
 The rollout store: the tables of runs and targets, updated in place. Creating a run is one
 transaction; every other update is committed by itself, and an operation on a target makes two.
 `writes` is how many updates the process lives to make.
 */
module RolloutStores {
  import opened Common
  import opened Gates
  import opened RolloutManifest
  import opened Rollout

  type Status = Result<Run, RolloutError>

  /** The store after an update of one run; an error changes nothing. */
  function Updated(runs: map<string, Run>, id: string, u: Update): map<string, Run> {
    if u.Ok? then runs[id := u.value] else runs
  }

  function Created(runs: map<string, Run>, m: Manifest, now: nat): (map<string, Run>, Status) {
    match ManifestFault(m, now)
    case Some(e) => (runs, Err(Unacceptable(e)))
    case None =>
      if m.runId !in runs then (runs[m.runId := NewRun(m)], Ok(NewRun(m)))
      else if runs[m.runId].digest != Sha(m) then (runs, Err(RunIdCollision))
      else (runs, Ok(runs[m.runId]))
  }

  lemma {:induction false} FindsAcross(a: seq<Target>, b: seq<Target>, id: string)
    ensures FindTarget(a + b, id) == if FindTarget(a, id).Some? then FindTarget(a, id) else FindTarget(b, id)
  {
    if a == [] {
      assert a + b == b;
    } else {
      assert (a + b)[0] == a[0] && (a + b)[1..] == a[1..] + b;
      FindsAcross(a[1..], b, id);
    }
  }

  lemma {:induction false} FreshRowOf(ts: seq<Target>, id: string)
    ensures id in FreshRows(ts) <==> FindTarget(ts, id).Some?
    ensures id in FreshRows(ts) ==> FreshRows(ts)[id] == FreshRow(FindTarget(ts, id).value)
  {
    FindsEachTarget(ts, id);
  }

  lemma {:induction false} FreshRowsExtend(ts: seq<Target>, t: Target)
    requires FindTarget(ts, t.targetId).None?
    ensures FreshRows(ts + [t]) == FreshRows(ts)[t.targetId := FreshRow(t)]
  {
    var longer, grown := FreshRows(ts + [t]), FreshRows(ts)[t.targetId := FreshRow(t)];
    forall id ensures id in longer <==> id in grown
      ensures id in longer ==> longer[id] == grown[id]
    {
      FindsAcross(ts, [t], id);
      FreshRowOf(ts, id);
      FreshRowOf(ts + [t], id);
    }
  }

  lemma {:induction false} NotFoundEarlier(m: Manifest, k: nat)
    requires WellStaged(m) && k < |m.targets|
    ensures FindTarget(m.targets[..k], m.targets[k].targetId).None?
  {
    FindsEachTarget(m.targets[..k], m.targets[k].targetId);
  }

  lemma {:induction false} FreshRowsGrow(m: Manifest, k: nat)
    requires WellStaged(m) && k < |m.targets|
    ensures FreshRows(m.targets[..k + 1]) == FreshRows(m.targets[..k])[m.targets[k].targetId := FreshRow(m.targets[k])]
  {
    NotFoundEarlier(m, k);
    FreshRowsExtend(m.targets[..k], m.targets[k]);
    assert m.targets[..k + 1] == m.targets[..k] + [m.targets[k]];
  }

  method InsertTargets(m: Manifest) returns (rows: map<string, Row>)
    requires WellStaged(m)
    ensures rows == FreshRows(m.targets)
  {
    rows := map[];
    for k := 0 to |m.targets|
      invariant rows == FreshRows(m.targets[..k])
    {
      FreshRowsGrow(m, k);
      rows := rows[m.targets[k].targetId := FreshRow(m.targets[k])];
    }
    assert m.targets[..|m.targets|] == m.targets;
  }

  method SelectRunnable(run: Run) returns (found: seq<Target>)
    ensures found == RunnableAmong(run, run.manifest.targets)
  {
    found := [];
    var ts := run.manifest.targets;
    for k := 0 to |ts|
      invariant RunnableAmong(run, ts) == found + RunnableAmong(run, ts[k..])
    {
      assert ts[k..][0] == ts[k] && ts[k..][1..] == ts[k + 1..];
      ghost var rest := RunnableAmong(run, ts[k + 1..]);
      if ts[k].batch == run.currentBatch && ts[k].targetId in run.rows && Unfinished(run.rows[ts[k].targetId]) {
        assert found + ([ts[k]] + rest) == (found + [ts[k]]) + rest;
        found := found + [ts[k]];
      }
    }
    assert ts[|ts|..] == [] && found + [] == found;
  }

  class RolloutStore {
    var runs: map<string, Run>

    constructor ()
      ensures runs == map[]
    {
      runs := map[];
    }

    method Create(m: Manifest, now: nat) returns (r: Status)
      modifies this
      ensures (runs, r) == Created(old(runs), m, now)
    {
      var digest := ValidateManifest(m, now);
      if digest.Err? {
        return Err(Unacceptable(digest.error));
      }
      if m.runId in runs {
        if runs[m.runId].digest != digest.value {
          return Err(RunIdCollision);
        }
        return Ok(runs[m.runId]);
      }
      AcceptedManifestIsWellStaged(m, now);
      var rows := InsertTargets(m);
      runs := runs[m.runId := Run(m, digest.value, RunPending, 0, 0, false, rows)];
      return Ok(runs[m.runId]);
    }

    method TransitionRun(id: string, to: RunState, from: RunState) returns (changed: bool)
      modifies this
      ensures changed <==> id in old(runs) && old(runs)[id].state == from
      ensures !changed ==> runs == old(runs)
      ensures changed ==> runs == old(runs)[id := old(runs)[id].(state := to, version := old(runs)[id].version + 1)]
    {
      if id !in runs || runs[id].state != from {
        return false;
      }
      runs := runs[id := runs[id].(state := to, version := runs[id].version + 1)];
      return true;
    }

    method PauseRun(id: string) returns (r: Status)
      modifies this
      ensures if id in old(runs) then r == Pause(old(runs)[id]) && runs == Updated(old(runs), id, r)
              else r.Err? && runs == old(runs)
    {
      var changed := TransitionRun(id, RunPaused, RunRunning);
      return if changed then Ok(runs[id]) else Err(StateTransitionInvalid);
    }

    method ResumeRun(id: string) returns (r: Status)
      modifies this
      ensures if id in old(runs) then r == Resume(old(runs)[id]) && runs == Updated(old(runs), id, r)
              else r.Err? && runs == old(runs)
    {
      var changed := TransitionRun(id, RunRunning, RunPaused);
      return if changed then Ok(runs[id]) else Err(StateTransitionInvalid);
    }

    method Runnable(id: string) returns (r: Result<seq<Target>, RolloutError>)
      ensures r == if id in runs then RunnableTargets(runs[id]) else Err(NotFound)
    {
      if id !in runs {
        return Err(NotFound);
      }
      var run := runs[id];
      if run.state == RunPaused || run.state == RunConverged || run.state == RunFailed {
        return Err(NotRunnable);
      }
      var found := SelectRunnable(run);
      return Ok(found);
    }

    /** The update of one target's row, committed by itself. */
    method WriteRow(id: string, target: string, row: Row)
      requires id in runs && target in runs[id].rows
      modifies this
      ensures runs == old(runs)[id := SetRow(old(runs)[id], target, row)]
    {
      runs := runs[id := runs[id].(rows := runs[id].rows[target := row])];
    }

    method Mark(id: string, target: string, writes: nat) returns (r: Status)
      requires id in runs
      modifies this
      ensures r == Cut(old(runs)[id], MarkCut(target), MarkEvent(target), writes)
      ensures runs == Updated(old(runs), id, r)
    {
      var run := runs[id];
      if writes == 0 {
        return Ok(run);
      }
      if target !in run.rows || !Unfinished(run.rows[target]) {
        return Err(TargetNotRunnable);
      }
      WriteRow(id, target, run.rows[target].(state := TargetRunning, note := ExecutionStarted));
      if writes > 1 && (run.state == RunPending || run.state == RunRunning) {
        runs := runs[id := runs[id].(state := RunRunning)];
      }
      return Ok(runs[id]);
    }

    method RecalculateRun(id: string)
      requires id in runs
      modifies this
      ensures runs == old(runs)[id := Recalculate(old(runs)[id])]
    {
      var run := runs[id];
      if Busy(run) {
        return;
      }
      var required, optional := Unconverged(run, true), Unconverged(run, false);
      var last := LastOf(run.manifest.targets);
      var final := run.currentBatch > 0 && run.currentBatch == last && (required || optional);
      var state, batch := RunPartial, run.currentBatch;
      if final {
        state := RunPartial;
      } else if required || (optional && run.manifest.failurePolicy == StopAndHold) {
        state := RunPaused;
      } else if run.currentBatch < last {
        state, batch := RunRunning, run.currentBatch + 1;
      } else if AllConverged(run) {
        state := RunConverged;
      }
      runs := runs[id := run.(state := state, currentBatch := batch, version := run.version + 1)];
    }

    method Record(id: string, target: string, receipt: LifecycleReceipt, writes: nat) returns (r: Status)
      requires id in runs
      modifies this
      ensures r == Cut(old(runs)[id], ReceiptCut(target, receipt), ReceiptEvent(target, receipt), writes)
      ensures runs == Updated(old(runs), id, r)
    {
      var run := runs[id];
      if writes == 0 {
        return Ok(run);
      }
      var found := FindTarget(run.manifest.targets, target);
      if found.None? {
        return Err(TargetNotFound);
      }
      if receipt.operationId != found.value.gate.operation.operationId {
        return Err(ReceiptBindingInvalid);
      }
      var state := StateFrom(receipt);
      if target !in run.rows || !Receptive(run.rows[target]) {
        return Err(TargetNotRunnable);
      }
      var row := run.rows[target].(state := state, note := FromReceipt(receipt.reason), receipt := Some(receipt));
      WriteRow(id, target, row);
      if writes > 1 {
        RecalculateRun(id);
      }
      return Ok(runs[id]);
    }

    method RecordError(id: string, target: string, text: string, writes: nat) returns (r: Status)
      requires id in runs
      modifies this
      ensures r == Cut(old(runs)[id], ErrorCut(target, text), ErrorEvent(target, text), writes)
      ensures runs == Updated(old(runs), id, r)
    {
      var run := runs[id];
      if writes == 0 {
        return Ok(run);
      }
      if target in run.rows && Interruptible(run.rows[target]) {
        WriteRow(id, target, run.rows[target].(state := TargetDeferred, note := FromError(text)));
      }
      if writes > 1 {
        RecalculateRun(id);
      }
      return Ok(runs[id]);
    }

    method Retry(id: string, target: string, writes: nat) returns (r: Status)
      requires id in runs
      modifies this
      ensures r == Cut(old(runs)[id], RetryCut(target), RetryEvent(target), writes)
      ensures runs == Updated(old(runs), id, r)
    {
      var run := runs[id];
      if writes == 0 {
        return Ok(run);
      }
      if target !in run.rows {
        return Err(TargetNotFound);
      }
      if run.rows[target].state != TargetDeferred {
        return Err(RetryNotAllowed);
      }
      WriteRow(id, target, run.rows[target].(state := TargetRunning, note := ExplicitRetry));
      if writes > 1 {
        runs := runs[id := runs[id].(state := RunRunning, version := runs[id].version + 1)];
      }
      return Ok(runs[id]);
    }

    method Accept(a: Signed<Acceptance>, key: string, now: nat) returns (r: Status)
      modifies this
      ensures
        var id := a.body.runId;
        if id in old(runs) then r == AcceptPartial(old(runs)[id], a, key, now) && runs == Updated(old(runs), id, r)
        else r == Err(NotFound) && runs == old(runs)
    {
      var id := a.body.runId;
      if id !in runs {
        return Err(NotFound);
      }
      if !AcceptanceFits(a.body, runs[id], now) {
        return Err(AcceptanceInvalid);
      }
      if !SignedBy(a, key) {
        return Err(AcceptanceSignatureInvalid);
      }
      runs := runs[id := runs[id].(partialAccepted := true, version := runs[id].version + 1)];
      return Ok(runs[id]);
    }
  }
}
