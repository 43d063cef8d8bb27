/**
 Inputs on which a property one might expect fails. Each is reached from where a user starts, a
 policy, a valid manifest or a fresh adapter, and shows the failing side of an exact condition
 that is proved for all inputs where the component is modelled.
 */
module Witnesses {
  import opened Common
  import opened Json
  import opened Policy
  import opened PolicyEvaluation
  import opened Gates
  import opened RolloutManifest
  import opened Rollout
  import opened RolloutRuns
  import opened RolloutDriver
  import opened RolloutCrashes
  import opened FileAdapter
  import C = Controllers
  import K = ControllerCrashes
  import P = Planner
  import X = EffectivePolicies

  // ---------------------------------------------------------------- an explicit deny that loses

  const ALWAYS := Obj(["all"], [Arr([])])

  const DEFERRING := Obj(["allow", "deny", "require_adapter_allow"], [ALWAYS, ALWAYS, Bool(true)])

  const APPROVED := Obj(["adapter_result"], [Str("allow")])

  lemma {:induction false} AlwaysIsTrue(context: Value, limits: Limits)
    requires limits.fuel > 0
    ensures Fresh(ALWAYS, context, limits).0 == True
  {
    assert GetArray(ALWAYS, "all") == Some([]);
  }

  lemma {:induction false} FindNext(k: string, keys: seq<string>, v: Value, values: seq<Value>, key: string)
    ensures Find([k] + keys, [v] + values, key) == if k == key then Some(v) else Find(keys, values, key)
  {
    assert ([k] + keys)[1..] == keys && ([v] + values)[1..] == values;
  }

  lemma {:induction false} DeferringField(key: string)
    ensures
      Get(DEFERRING, key)
      == if key == "allow" || key == "deny" then Some(ALWAYS)
         else if key == "require_adapter_allow" then Some(Bool(true))
         else None
  {
    FindNext("allow", ["deny", "require_adapter_allow"], ALWAYS, [ALWAYS, Bool(true)], key);
    FindNext("deny", ["require_adapter_allow"], ALWAYS, [Bool(true)], key);
    FindNext("require_adapter_allow", [], Bool(true), [], key);
    assert DEFERRING.keys == ["allow"] + ["deny", "require_adapter_allow"];
    assert DEFERRING.values == [ALWAYS] + [ALWAYS, Bool(true)];
    assert ["deny", "require_adapter_allow"] == ["deny"] + ["require_adapter_allow"];
    assert [ALWAYS, Bool(true)] == [ALWAYS] + [Bool(true)];
    var none: seq<string>, nothing: seq<Value> := [], [];
    assert ["require_adapter_allow"] == ["require_adapter_allow"] + none && [Bool(true)] == [Bool(true)] + nothing;
  }

  lemma {:induction false} FitsNext(v: Value, values: seq<Value>, levels: int, cap: nat)
    ensures AllWithin([v] + values, levels, cap) <==> Within(v, levels, cap) && AllWithin(values, levels, cap)
    ensures NodesAll([v] + values) == Nodes(v) + NodesAll(values)
  {
    assert ([v] + values)[1..] == values;
  }

  lemma {:induction false} DeferringFits()
    ensures Prepare(DEFERRING, X.DEFAULT_LIMITS) == Ok(DEFERRING)
    ensures CollectionsFit(APPROVED, X.DEFAULT_LIMITS.collectionValues)
  {
    DeferringField("rules");
    DeferringField("entry");
    var none: seq<Value> := [];
    FitsNext(Arr([]), none, 14, MAX_COLLECTION_VALUES);
    FitsNext(Bool(true), none, 15, MAX_COLLECTION_VALUES);
    FitsNext(ALWAYS, [Bool(true)], 15, MAX_COLLECTION_VALUES);
    FitsNext(ALWAYS, [ALWAYS, Bool(true)], 15, MAX_COLLECTION_VALUES);
    assert [Arr([])] == [Arr([])] + none && [Bool(true)] == [Bool(true)] + none;
    assert [ALWAYS, Bool(true)] == [ALWAYS] + [Bool(true)];
    assert DEFERRING.values == [ALWAYS] + [ALWAYS, Bool(true)];
    assert Within(DEFERRING, MAX_POLICY_DEPTH, MAX_COLLECTION_VALUES) && Nodes(DEFERRING) == 6;
  }

  /** The deny query holds, and the policy still allows: it defers to an adapter that said so. */
  lemma {:induction false} MatchingDenyIsIgnored()
    ensures Get(DEFERRING, "deny") == Some(ALWAYS) && Fresh(ALWAYS, APPROVED, X.DEFAULT_LIMITS).0 == True
    ensures EvaluatePolicy(APPROVED, DEFERRING, X.DEFAULT_LIMITS) == PolicyEvaluation.Verdict(Allow, AllowReason)
  {
    DeferringField("allow");
    DeferringField("deny");
    DeferringField("require_adapter_allow");
    DeferringFits();
    assert TextAt(APPROVED, "adapter_result") == Some("allow");
    AlwaysIsTrue(APPROVED, X.DEFAULT_LIMITS);
  }

  // ---------------------------------------------------------------- an accepted manifest of two stages

  /** A required canary, then one more required target. */
  predicate TwoStage(m: Manifest, a: Target, b: Target) {
    && m.targets == [a, b] && a.targetId != b.targetId
    && a.batch == 0 && a.required && b.batch == 1 && b.required
  }

  const CANARY := "a"
  const SECOND := "b"

  function SamplePlan(id: string): P.Plan {
    P.Plan("1", "p", "b", Text(""), 0, 1, [P.Operation(id, id, P.Create, Text(""), Sha(Null), 0, 1, id)])
  }

  function SampleOperation(id: string): AdapterOperation {
    AdapterOperation(id, id, Apply, Sha(OfPlan(SamplePlan(id))), Sha(Null), 1, 9, "c", Null, None)
  }

  function SampleRequest(id: string): Request {
    Request("1", id, "i", "x", "d", Apply, [id], Sha(DesiredState(Null)), Sha(OfPlan(SamplePlan(id))),
            1, 0, 9, "n", "s")
  }

  function SampleAuthorization(id: string): Signed<Authorization> {
    var body := Authorization("1", "z", "i", "x", "d", Confirm, Sha(OfPlan(SamplePlan(id))), Sha(SampleOperation(id)),
                              1, Sha(Null), Satisfied, Allow, 0, 9, SIGNATURE_PROFILE);
    Signed(body, "k", body)
  }

  function SampleAuthority(id: string): ProgressiveAuthority {
    ProgressiveAuthority("1", "e", Confirm, "m", "n", 1, Sha(Null), None, Some(Allow),
                         Some(Sha(OfPlan(SamplePlan(id)))), Some(Sha(SampleAuthorization(id))), Satisfied, true, [])
  }

  function SampleGate(id: string): ApplyGate {
    ApplyGate(APPLY_GATE_SCHEMA, Signed(SampleRequest(id), "k", SampleRequest(id)), SamplePlan(id), SampleOperation(id),
              SampleAuthority(id), SampleAuthorization(id))
  }

  lemma {:induction false} SampleAuthorityIsValid(id: string)
    ensures AuthorityValid(SampleAuthority(id))
  {
    assert "e"[0] in "e" && "m"[0] in "m" && "n"[0] in "n";
  }

  lemma {:induction false} SampleGateBinds(id: string)
    ensures RequestBinds(SampleGate(id), 1) && EvidenceBinds(SampleGate(id))
  {
    assert FindPlanned(SamplePlan(id).operations, id) == Some(SamplePlan(id).operations[0]);
  }

  lemma {:induction false} SampleGateIsSound(id: string)
    ensures ApplyGateFault(SampleGate(id), 1).None?
  {
    SampleGateBinds(id);
    SampleAuthorityIsValid(id);
  }

  function SampleTarget(id: string, batch: nat): Target {
    Target(id, "r", batch, true, SampleGate(id))
  }

  const SAMPLE := Manifest(
    ROLLOUT_SCHEMA, "r", "d", "x", StopAndHold, 0, 9, [SampleTarget(CANARY, 0), SampleTarget(SECOND, 1)], false)

  lemma {:induction false} SampleTargetBinds(id: string, batch: nat)
    requires id == CANARY || id == SECOND
    ensures TargetBinds(SAMPLE, SampleTarget(id, batch))
  {
    assert id[0] in id && "r"[0] in "r";
  }

  lemma {:induction false} TwoTargetsAreSound(m: Manifest, a: Target, b: Target, now: nat)
    requires a.targetId != b.targetId && a.gate.operation.operationId != b.gate.operation.operationId
    requires TargetBinds(m, a) && TargetBinds(m, b)
    requires ApplyGateFault(a.gate, now).None? && ApplyGateFault(b.gate, now).None?
    ensures TargetsFault(m, [a, b], {}, {}, now).None?
  {
    assert [a, b][1..] == [b] && [b][1..] == [];
    var id, operationId := a.targetId, a.gate.operation.operationId;
    assert TargetsFault(m, [], {id} + {b.targetId}, {operationId} + {b.gate.operation.operationId}, now).None?;
    assert TargetsFault(m, [b], {id}, {operationId}, now).None?;
    assert {} + {id} == {id} && {} + {operationId} == {operationId};
  }

  lemma {:induction false} TwoStages(a: Target, b: Target)
    requires a.batch == 0 && a.required && b.batch == 1
    ensures CanaryOk([a, b]) && CountsFromZero(BatchesOf([a, b])) && LastOf([a, b]) == 1
  {
    var ts := [a, b];
    assert ts[1..] == [b] && [b][1..] == [];
    assert InBatch([b], 0) == [] && InBatch(ts, 0) == [a];
    assert LastOf([]) == 0 && LastOf([b]) == 1;
    assert ts[0] in ts && ts[1] in ts;
    assert BatchesOf(ts) == {0, 1};
  }

  lemma {:induction false} SampleHeaderIsOk()
    ensures HeaderOk(SAMPLE, 1)
  {
    assert "r"[0] in "r" && "d"[0] in "d" && "x"[0] in "x";
  }

  /** So there is a two-stage manifest that a run can be created from. */
  lemma {:induction false} SampleIsValid()
    ensures ManifestFault(SAMPLE, 1).None? && TwoStage(SAMPLE, SampleTarget(CANARY, 0), SampleTarget(SECOND, 1))
  {
    SampleTargetBinds(CANARY, 0);
    SampleTargetBinds(SECOND, 1);
    SampleGateIsSound(CANARY);
    SampleGateIsSound(SECOND);
    assert CANARY[0] != SECOND[0];
    TwoTargetsAreSound(SAMPLE, SampleTarget(CANARY, 0), SampleTarget(SECOND, 1), 1);
    TwoStages(SampleTarget(CANARY, 0), SampleTarget(SECOND, 1));
    SampleHeaderIsOk();
  }

  // ---------------------------------------------------------------- runs of two stages

  function PairRun(m: Manifest, a: Target, b: Target, state: RunState, batch: nat, version: nat, first: Row,
        second: Row): Run
  {
    Run(m, Sha(m), state, batch, version, false, map[a.targetId := first, b.targetId := second])
  }

  function MarkedRow(t: Target): Row {
    FreshRow(t).(state := TargetRunning, note := ExecutionStarted)
  }

  lemma {:induction false} PairIsFound(m: Manifest, a: Target, b: Target)
    requires TwoStage(m, a, b)
    ensures FindTarget(m.targets, a.targetId) == Some(a) && FindTarget(m.targets, b.targetId) == Some(b)
    ensures TargetIds(m.targets) == {a.targetId, b.targetId} && LastOf(m.targets) == 1
  {
    var ts := m.targets;
    assert ts[1..] == [b];
    assert ts[0] in ts && ts[1] in ts;
    TwoStages(a, b);
  }

  lemma {:induction false} PairStarts(m: Manifest, a: Target, b: Target)
    requires TwoStage(m, a, b)
    ensures NewRun(m) == PairRun(m, a, b, RunPending, 0, 0, FreshRow(a), FreshRow(b))
  {
    PairIsFound(m, a, b);
    assert NewRun(m).rows == map[a.targetId := FreshRow(a), b.targetId := FreshRow(b)];
  }

  lemma {:induction false} PairMarks(m: Manifest, a: Target, b: Target)
    requires TwoStage(m, a, b)
    ensures Step(NewRun(m), MarkEvent(a.targetId)) == PairRun(m, a, b, RunRunning, 0, 0, MarkedRow(a), FreshRow(b))
    ensures Step(NewRun(m), MarkEvent(b.targetId)) == PairRun(m, a, b, RunRunning, 0, 0, FreshRow(a), MarkedRow(b))
  {
    PairStarts(m, a, b);
    var rows := map[a.targetId := FreshRow(a), b.targetId := FreshRow(b)];
    assert rows[a.targetId := MarkedRow(a)] == map[a.targetId := MarkedRow(a), b.targetId := FreshRow(b)];
    assert rows[b.targetId := MarkedRow(b)] == map[a.targetId := FreshRow(a), b.targetId := MarkedRow(b)];
  }

  lemma {:induction false} CanaryVerdict(r: Run, first: string, second: string)
    requires r.rows.Keys == {first, second} && r.rows[first].batch == 0 && r.rows[first].required
             && r.rows[second].batch == 1
    requires r.currentBatch == 0 && !Unfinished(r.rows[first]) && LastOf(r.manifest.targets) == 1
    ensures
      var converged := r.rows[first].state == TargetConverged;
      Recalculate(r) == r.(state := if converged then RunRunning else RunPaused,
                           currentBatch := if converged then 1 else 0, version := r.version + 1)
  {
    assert !Busy(r) && !Unconverged(r, false);
    assert Unconverged(r, true) <==> r.rows[first].state != TargetConverged;
  }

  /** The canary's receipt ends batch 0: converged, the next batch starts; otherwise the run is held. */
  lemma {:induction false} CanaryDecides(m: Manifest, a: Target, b: Target, state: RunState, version: nat,
        receipt: LifecycleReceipt)
    requires TwoStage(m, a, b) && receipt.operationId == a.gate.operation.operationId
    ensures
      var row := Received(MarkedRow(a), receipt);
      Step(PairRun(m, a, b, state, 0, version, MarkedRow(a), FreshRow(b)), ReceiptEvent(a.targetId, receipt))
      == if receipt.state == ExecConverged then PairRun(m, a, b, RunRunning, 1, version + 1, row, FreshRow(b))
         else PairRun(m, a, b, RunPaused, 0, version + 1, row, FreshRow(b))
  {
    PairIsFound(m, a, b);
    var before := PairRun(m, a, b, state, 0, version, MarkedRow(a), FreshRow(b));
    var recorded := PairRun(m, a, b, state, 0, version, Received(MarkedRow(a), receipt), FreshRow(b));
    assert SetRow(before, a.targetId, Received(MarkedRow(a), receipt)).rows == recorded.rows;
    CanaryVerdict(recorded, a.targetId, b.targetId);
  }

  lemma {:induction false} PairIsRunnable(r: Run, a: Target, b: Target)
    requires TwoStage(r.manifest, a, b) && a.targetId in r.rows && b.targetId in r.rows
    ensures
      RunnableAmong(r, r.manifest.targets)
      == if r.currentBatch == 0 && Unfinished(r.rows[a.targetId]) then [a]
         else if r.currentBatch == 1 && Unfinished(r.rows[b.targetId]) then [b]
         else []
  {
    assert r.manifest.targets[1..] == [b] && [b][1..] == [];
    assert RunnableAmong(r, [b]) == if Runnable(r, b) then [b] else [];
  }

  lemma {:induction false} RunOn(r: Run, e: Event, events: seq<Event>)
    ensures RunAll(r, [e] + events) == RunAll(Step(r, e), events)
  {
    assert ([e] + events)[1..] == events;
  }

  lemma {:induction false} RunThree(r: Run, a: Event, b: Event, c: Event)
    ensures RunAll(r, [a, b, c]) == Step(Step(Step(r, a), b), c)
  {
    RunOn(r, a, [b, c]);
    RunOn(Step(r, a), b, [c]);
    var none: seq<Event> := [];
    RunOn(Step(Step(r, a), b), c, none);
    assert [a, b, c] == [a] + [b, c] && [b, c] == [b] + [c] && [c] == [c] + none;
  }

  lemma {:induction false} PausesAndLifts(m: Manifest, a: Target, b: Target, receipt: LifecycleReceipt)
    requires TwoStage(m, a, b) && receipt.operationId == a.gate.operation.operationId && receipt.state == ExecConverged
    ensures
      var paused := Step(Step(NewRun(m), MarkEvent(a.targetId)), PauseEvent);
      && paused.state == RunPaused
      && Step(paused, ReceiptEvent(a.targetId, receipt))
         == PairRun(m, a, b, RunRunning, 1, 2, Received(MarkedRow(a), receipt), FreshRow(b))
  {
    PairMarks(m, a, b);
    CanaryDecides(m, a, b, RunPaused, 1, receipt);
  }

  /**
   A pause lifted by a receipt: the canary was executing when the run was paused, its receipt
   starts the next batch, and the next batch command executes the next target.
   */
  lemma {:induction false} PauseIsLifted(m: Manifest, a: Target, b: Target, receipt: LifecycleReceipt)
    requires TwoStage(m, a, b) && receipt.operationId == a.gate.operation.operationId && receipt.state == ExecConverged
    ensures
      var paused := Step(Step(NewRun(m), MarkEvent(a.targetId)), PauseEvent);
      var r := RunAll(NewRun(m), [MarkEvent(a.targetId), PauseEvent, ReceiptEvent(a.targetId, receipt)]);
      && paused.state == RunPaused && r == Step(paused, ReceiptEvent(a.targetId, receipt))
      && r.state == RunRunning && RunnableTargets(r) == Ok([b])
  {
    PausesAndLifts(m, a, b, receipt);
    RunThree(NewRun(m), MarkEvent(a.targetId), PauseEvent, ReceiptEvent(a.targetId, receipt));
    PairIsRunnable(PairRun(m, a, b, RunRunning, 1, 2, Received(MarkedRow(a), receipt), FreshRow(b)), a, b);
  }

  /** An idle resume: the canary has failed and the run is held; resumed, it is running with nothing to run. */
  lemma {:induction false} ResumeIsIdle(m: Manifest, a: Target, b: Target, receipt: LifecycleReceipt)
    requires TwoStage(m, a, b) && receipt.operationId == a.gate.operation.operationId && receipt.state == ExecFailed
    ensures
      var r := RunAll(NewRun(m), [MarkEvent(a.targetId), ReceiptEvent(a.targetId, receipt), ResumeEvent]);
      r.state == RunRunning && RunnableTargets(r) == Ok([])
  {
    PairMarks(m, a, b);
    RunThree(NewRun(m), MarkEvent(a.targetId), ReceiptEvent(a.targetId, receipt), ResumeEvent);
    CanaryDecides(m, a, b, RunRunning, 0, receipt);
    PairIsRunnable(PairRun(m, a, b, RunRunning, 0, 2, Received(MarkedRow(a), receipt), FreshRow(b)), a, b);
  }

  /** A mark out of order: the store starts the second batch's target before the canary. */
  lemma {:induction false} SecondIsMarkedFirst(m: Manifest, a: Target, b: Target)
    requires TwoStage(m, a, b)
    ensures
      var r := Step(NewRun(m), MarkEvent(b.targetId));
      && NothingAhead(NewRun(m)) && !NothingAhead(r)
      && r.rows == map[a.targetId := FreshRow(a), b.targetId := MarkedRow(b)]
  {
    PairStarts(m, a, b);
    PairMarks(m, a, b);
    var r := Step(NewRun(m), MarkEvent(b.targetId));
    assert r.rows[b.targetId] == MarkedRow(b);
  }

  // ---------------------------------------------------------------- processes that end between two writes

  lemma {:induction false} CanaryIsCut(m: Manifest, a: Target, b: Target, receipt: LifecycleReceipt)
    requires TwoStage(m, a, b) && receipt.operationId == a.gate.operation.operationId
    ensures Step(PairRun(m, a, b, RunRunning, 0, 0, MarkedRow(a), FreshRow(b)), ReceiptCut(a.targetId, receipt))
            == PairRun(m, a, b, RunRunning, 0, 0, Received(MarkedRow(a), receipt), FreshRow(b))
  {
    PairIsFound(m, a, b);
    var before := PairRun(m, a, b, RunRunning, 0, 0, MarkedRow(a), FreshRow(b));
    assert before.rows[a.targetId := Received(MarkedRow(a), receipt)]
           == map[a.targetId := Received(MarkedRow(a), receipt), b.targetId := FreshRow(b)];
  }

  lemma {:induction false} FirstBatchIsCut(m: Manifest, a: Target, b: Target, executors: Executors)
    requires TwoStage(m, a, b) && executors(a).Some? && executors(a).value.Answered? && BoundFor(executors, a)
    ensures
      Obey(NewRun(m), BatchCommand(executors, 3))
      == PairRun(m, a, b, RunRunning, 0, 0, Received(MarkedRow(a), executors(a).value.receipt), FreshRow(b))
  {
    var r := NewRun(m);
    PairStarts(m, a, b);
    PairIsRunnable(r, a, b);
    PairMarks(m, a, b);
    CanaryIsCut(m, a, b, executors(a).value.receipt);
    CutTargetsGoesOn(r, [a], executors, 3);
    PairIsFound(m, a, b);
    CutDriveIsSteps(r, a, executors, 3);
  }

  lemma {:induction false} FirstBatchIsOrderly(m: Manifest, created: nat, executors: Executors)
    requires ManifestFault(m, created).None?
    ensures
      var r := Obey(NewRun(m), BatchCommand(executors, 3));
      Core(r) && Populated(r) && WellStaged(m)
  {
    var c := BatchCommand(executors, 3);
    ObeyedIsOrderly(m, created, [c]);
    ObeyOne(NewRun(m), c);
  }

  lemma {:induction false} PairIsStuck(m: Manifest, a: Target, b: Target, done: Row)
    requires TwoStage(m, a, b) && WellStaged(m) && done.state == TargetConverged && done.batch == 0
    requires Core(PairRun(m, a, b, RunRunning, 0, 0, done, FreshRow(b)))
    requires Populated(PairRun(m, a, b, RunRunning, 0, 0, done, FreshRow(b)))
    ensures
      var r := PairRun(m, a, b, RunRunning, 0, 0, done, FreshRow(b));
      RunnableTargets(r) == Ok([]) && forall commands :: Unmoved(r, ObeyAll(r, commands))
  {
    var r := PairRun(m, a, b, RunRunning, 0, 0, done, FreshRow(b));
    PairIsRunnable(r, a, b);
    assert !Busy(r) && NoneDeferred(r);
    StuckForEverIff(r);
  }

  /**
   A rollout stuck for ever: the process records that the canary has converged and ends before the
   verdict. The run is running with nothing to run, and no command ever starts the second batch.
   */
  lemma {:induction false} RolloutIsStuck(m: Manifest, created: nat, a: Target, b: Target, executors: Executors)
    requires ManifestFault(m, created).None? && TwoStage(m, a, b)
    requires executors(a).Some? && executors(a).value.Answered? && BoundFor(executors, a)
    requires executors(a).value.receipt.state == ExecConverged
    ensures
      var r := Obey(NewRun(m), BatchCommand(executors, 3));
      && r.state == RunRunning && RunnableTargets(r) == Ok([])
      && r.rows.Keys == {a.targetId, b.targetId}
      && r.rows[a.targetId].state == TargetConverged && r.rows[b.targetId].state == TargetPending
      && forall commands :: Unmoved(r, ObeyAll(r, commands))
  {
    FirstBatchIsCut(m, a, b, executors);
    FirstBatchIsOrderly(m, created, executors);
    PairIsStuck(m, a, b, Received(MarkedRow(a), executors(a).value.receipt));
  }

  /** The second stage, executed in vain. */
  function FailedRow(t: Target): Row {
    MarkedRow(t).(state := TargetDeferred, note := FromError(""))
  }

  lemma {:induction false} SecondFails(m: Manifest, a: Target, b: Target, done: Row)
    requires TwoStage(m, a, b) && done.state == TargetConverged && done.batch == 0
    ensures
      var r := PairRun(m, a, b, RunRunning, 1, 1, done, FreshRow(b));
      Step(Step(r, MarkEvent(b.targetId)), ErrorEvent(b.targetId, ""))
      == PairRun(m, a, b, RunPartial, 1, 2, done, FailedRow(b))
  {
    PairIsFound(m, a, b);
    var r := PairRun(m, a, b, RunRunning, 1, 1, done, FreshRow(b));
    var marked := PairRun(m, a, b, RunRunning, 1, 1, done, MarkedRow(b));
    var failed := PairRun(m, a, b, RunRunning, 1, 1, done, FailedRow(b));
    assert r.rows[b.targetId := MarkedRow(b)] == marked.rows;
    assert marked.rows[b.targetId := FailedRow(b)] == failed.rows;
    assert failed.rows[b.targetId] == FailedRow(b);
    assert !Busy(failed) && Unconverged(failed, true);
  }

  lemma {:induction false} RunFour(r: Run, a: Event, b: Event, c: Event, d: Event)
    ensures RunAll(r, [a, b, c, d]) == Step(Step(Step(Step(r, a), b), c), d)
  {
    RunOn(r, a, [b, c, d]);
    RunThree(Step(r, a), b, c, d);
    assert [a, b, c, d] == [a] + [b, c, d];
  }

  /** The run a signer is shown: the canary has converged, the second stage could not be executed. */
  lemma {:induction false} PartialPair(m: Manifest, a: Target, b: Target, receipt: LifecycleReceipt)
    requires TwoStage(m, a, b) && receipt.operationId == a.gate.operation.operationId && receipt.state == ExecConverged
    ensures
      var events := [MarkEvent(a.targetId), ReceiptEvent(a.targetId, receipt),
                     MarkEvent(b.targetId), ErrorEvent(b.targetId, "")];
      RunAll(NewRun(m), events) == PairRun(m, a, b, RunPartial, 1, 2, Received(MarkedRow(a), receipt), FailedRow(b))
  {
    RunFour(NewRun(m), MarkEvent(a.targetId), ReceiptEvent(a.targetId, receipt),
            MarkEvent(b.targetId), ErrorEvent(b.targetId, ""));
    PairMarks(m, a, b);
    CanaryDecides(m, a, b, RunRunning, 0, receipt);
    SecondFails(m, a, b, Received(MarkedRow(a), receipt));
  }

  /** Nothing an acceptance is checked against is in the rows. */
  lemma {:induction false} AcceptanceIgnoresRows(seen: Run, now: Run)
    requires now == seen.(rows := now.rows)
    requires AcceptPartial(seen, FittingAcceptance(seen), "k", 0).Ok?
    ensures AcceptPartial(now, FittingAcceptance(seen), "k", 0).Ok?
  {
  }

  lemma {:induction false} TornRetryIsTaken(seen: Run, id: string, executors: Executors)
    requires Quiet(seen) && id in seen.rows && seen.rows[id].state == TargetDeferred
    requires seen.rows[id].batch == seen.currentBatch && !seen.partialAccepted
    requires !Blank(seen.manifest.domain) && !Blank(seen.manifest.audience)
    ensures
      var now := Obey(seen, RetryCommand(id, executors, 1));
      && now.version == seen.version && Busy(now) && !SameOutcomes(seen, now)
      && AcceptPartial(now, FittingAcceptance(seen), "k", 0).Ok?
  {
    var now := Step(seen, RetryCut(id));
    PartialStep(seen, RetryCut(id));
    assert now.rows[id].state == TargetRunning && now.rows[id].batch == now.currentBatch;
    FittingIsTaken(seen);
    AcceptanceIgnoresRows(seen, now);
  }

  lemma {:induction false} PartialPairIsQuiet(m: Manifest, created: nat, a: Target, b: Target,
        receipt: LifecycleReceipt)
    requires ManifestFault(m, created).None? && TwoStage(m, a, b)
    requires receipt.operationId == a.gate.operation.operationId && receipt.state == ExecConverged
    ensures Quiet(PairRun(m, a, b, RunPartial, 1, 2, Received(MarkedRow(a), receipt), FailedRow(b)))
  {
    PartialPair(m, a, b, receipt);
    var events := [MarkEvent(a.targetId), ReceiptEvent(a.targetId, receipt),
                   MarkEvent(b.targetId), ErrorEvent(b.targetId, "")];
    ReachedIsSound(m, created, events);
  }

  /**
   An acceptance of something else: the signer is shown a quiet run whose second target is
   deferred; a retry of it ends after its first write; the acceptance is taken all the same, of a
   run with a target executing.
   */
  lemma {:induction false} AcceptanceIsOfAnotherOutcome(m: Manifest, created: nat, a: Target, b: Target,
        receipt: LifecycleReceipt, executors: Executors)
    requires ManifestFault(m, created).None? && TwoStage(m, a, b)
    requires receipt.operationId == a.gate.operation.operationId && receipt.state == ExecConverged
    ensures
      var events := [MarkEvent(a.targetId), ReceiptEvent(a.targetId, receipt),
                     MarkEvent(b.targetId), ErrorEvent(b.targetId, "")];
      var seen := RunAll(NewRun(m), events);
      var now := Obey(seen, RetryCommand(b.targetId, executors, 1));
      && Quiet(seen) && now.version == seen.version && Busy(now) && !SameOutcomes(seen, now)
      && AcceptPartial(now, FittingAcceptance(seen), "k", 0).Ok?
  {
    PartialPair(m, a, b, receipt);
    PartialPairIsQuiet(m, created, a, b, receipt);
    var seen := PairRun(m, a, b, RunPartial, 1, 2, Received(MarkedRow(a), receipt), FailedRow(b));
    TornRetryIsTaken(seen, b.targetId, executors);
  }

  // ---------------------------------------------------------------- a report that is not logged

  lemma {:induction false} AcceptedIsReportable(p: C.ControllerPolicy, i: C.Input, now: nat)
    requires i.Submit? && C.Step(p, C.EMPTY, i).1.Ok?
    ensures
      var id, l := i.request.body.requestId, C.Step(p, C.EMPTY, i).0;
      && id in l.decisions && l.decisions[id].state == Accepted
      && var after := C.CutReport(p, l, id, FailedDecision, "x", 1, now, 1);
         id in after.decisions && after.decisions[id].state == FailedDecision && after.events == l.events
  {
    var r, l := i.request.body, C.Step(p, C.EMPTY, i).0;
    assert C.ValidText("x", 256);
    assert C.RequestFault(p, i.request, i.now).None?;
    assert C.ValidText(r.requestId, 128);
    assert l.decisions == map[r.requestId := C.DecisionRow(Accepted, C.Authorized, 1)] && l.generation == 1;
  }

  lemma {:induction false} CutRunOn(p: C.ControllerPolicy, l: C.Ledger, c: K.CutInput, cuts: seq<K.CutInput>)
    ensures K.RunCut(p, l, [c] + cuts) == K.RunCut(p, K.CutStep(p, l, c), cuts)
  {
    assert ([c] + cuts)[1..] == cuts;
  }

  /** The first request is accepted; the report of its failure changes the decision and ends before its event. */
  lemma {:induction false} ReportIsNotLogged(p: C.ControllerPolicy, i: C.Input, now: nat)
    requires i.Submit? && C.Step(p, C.EMPTY, i).1.Ok?
    ensures
      var id := i.request.body.requestId;
      var report := K.CutInput(C.ReportInput(id, FailedDecision, "x", 1, now), 1);
      var before, after := K.RunCut(p, C.EMPTY, [K.CutInput(i, 2)]), K.RunCut(p, C.EMPTY, [K.CutInput(i, 2), report]);
      && id in before.decisions && before.decisions[id].state == Accepted
      && id in after.decisions && after.decisions[id].state == FailedDecision
      && after.events == before.events
  {
    var id := i.request.body.requestId;
    var first, report := K.CutInput(i, 2), K.CutInput(C.ReportInput(id, FailedDecision, "x", 1, now), 1);
    var accepted := C.Step(p, C.EMPTY, i).0;
    assert K.CutStep(p, C.EMPTY, first) == accepted;
    CutRunOn(p, C.EMPTY, first, []);
    CutRunOn(p, C.EMPTY, first, [report]);
    CutRunOn(p, accepted, report, []);
    var none: seq<K.CutInput> := [];
    assert [first] == [first] + none && [report] == [report] + none && [first, report] == [first] + [report];
    AcceptedIsReportable(p, i, now);
  }

  // ---------------------------------------------------------------- the file adapter

  const AT_FIRST := Stored(0, map[], map[])

  /** A freshly opened adapter over a configuration file. */
  function Opened(config: Value): FileTarget {
    FileTarget(Some(Document(config, COMPACT)), AT_FIRST, AT_FIRST)
  }

  function SetConfig(config: Value): AdapterOperation {
    AdapterOperation("o", "t", Apply, Text("p"), Sha(config), 0, 9, "c", config, None)
  }

  const UNDO := AdapterOperation("u", "t", Rollback, Text("p"), Sha(Null), 1, 9, "c", Null, Some("o"))

  predicate AnySchema(v: Value) {
    true
  }

  lemma {:induction false} OpenedApplies(config: Value, wanted: Value, f: Faults)
    requires !ContainsSecret(config) && !ContainsSecret(wanted)
    ensures ApplyFile(AnySchema, Opened(config), SetConfig(wanted), 1, f)
            == Install(Opened(config), SetConfig(wanted), Document(config, COMPACT), f)
  {
  }

  /** A rollback whose read-back finds no file: memory has moved on to a generation that was never stored. */
  lemma {:induction false} FailedRollbackMovesGeneration(config: Value, wanted: Value)
    requires !ContainsSecret(config) && !ContainsSecret(wanted)
    ensures
      var applied := ApplyFile(AnySchema, Opened(config), SetConfig(wanted), 1, NO_FAULTS).0;
      var (after, outcome) := RollbackFile(applied, UNDO, NO_FAULTS.(intrusion := Some(None)), false);
      outcome == Err(Io) && after.memory.generation == 2 && after.disk.generation == 1
  {
    OpenedApplies(config, wanted, NO_FAULTS);
  }

  /** An unknown outcome, the retry, and the rollback: the file keeps what was to be undone. */
  lemma {:induction false} RollbackKeepsTheNewConfig(config: Value, wanted: Value)
    requires !ContainsSecret(config) && !ContainsSecret(wanted) && config != wanted
    ensures
      var (unknown, first) :=
        ApplyFile(AnySchema, Opened(config), SetConfig(wanted), 1, NO_FAULTS.(unknownAfterReplace := true));
      var (retried, second) := ApplyFile(AnySchema, unknown, SetConfig(wanted), 1, NO_FAULTS);
      var (restored, third) := RollbackFile(retried, UNDO, NO_FAULTS, false);
      && first == Err(OutcomeUnknown) && second.Ok? && third.Ok?
      && restored.file == Some(Document(wanted, COMPACT)) != Opened(config).file
  {
    OpenedApplies(config, wanted, NO_FAULTS.(unknownAfterReplace := true));
    RetryAfterUnknownSpoilsRollback(
      AnySchema, Opened(config), SetConfig(wanted), 1, NO_FAULTS.(unknownAfterReplace := true), UNDO);
  }
}
