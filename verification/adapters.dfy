/** The adapter host and the synthetic adapter, whose generation is a version clock for its state. */
module Adapters {
  import opened Common
  import opened Json
  import opened Gates

  type Outcome = Result<AdapterReceipt, AdapterError>

  // ---------------------------------------------------------------- the synthetic adapter

  predicate ValidOperation(o: AdapterOperation, now: nat) {
    && now <= o.expiresAt
    && 0 < |o.operationId| <= 128
    && 0 < |o.targetId| <= 256
    && o.planDigest != Text("")
    && o.desiredDigest != Text("")
    && (o.planDigest.Text? ==> |o.planDigest.text| <= 256)
    && (o.desiredDigest.Text? ==> |o.desiredDigest.text| <= 256)
    && (o.related.Some? ==> 0 < |o.related.value| <= 128)
  }

  datatype Change = Change(binding: Digest<AdapterOperation>, prior: Value, receipt: AdapterReceipt)

  datatype Undone = Undone(binding: Digest<AdapterOperation>, receipt: AdapterReceipt)

  datatype Synthetic = Synthetic(
    generation: nat,
    state: Value,
    history: map<string, Change>,
    rollbacks: map<string, Undone>)

  const FRESH := Synthetic(0, Null, map[], map[])

  datatype Simulation = NoSimulation | TimeoutBeforeEffect | UnknownAfterEffect | PartialEffect | NoEffect

  function SimulationOf(desired: Value): Simulation {
    match Get(desired, "simulate")
    case Some(Str(s)) =>
      if s == "timeout_before_effect" then TimeoutBeforeEffect
      else if s == "unknown_after_effect" then UnknownAfterEffect
      else if s == "partial" then PartialEffect
      else if s == "irrecoverable_failure" then NoEffect
      else NoSimulation
    case _ => NoSimulation
  }

  const PARTIAL := Obj(["partial"], [Bool(true)])

  function Advance(a: Synthetic, state: Value): Synthetic {
    a.(state := state, generation := a.generation + 1)
  }

  /** State and outcome of an apply that is neither invalid, replayed nor stale. */
  function Effect(a: Synthetic, o: AdapterOperation): (Synthetic, Convergence, AdapterReason) {
    match SimulationOf(o.desired)
    case PartialEffect => (Advance(a, PARTIAL), PartiallyConverged, SyntheticPartial)
    case NoEffect => (a, Failed, IrrecoverableFailure)
    case _ => (Advance(a, o.desired), Converged, AdapterReason.Applied)
  }

  function ApplySynthetic(a: Synthetic, o: AdapterOperation, now: nat): (Synthetic, Outcome) {
    if !ValidOperation(o, now) || o.desiredDigest != Sha(o.desired) then (a, Err(InvalidConfig))
    else if o.operationId in a.history then
      var prior := a.history[o.operationId];
      (a, if prior.binding == Sha(o) then Ok(prior.receipt) else Err(ReplayConflict))
    else if o.expectedGeneration != a.generation then (a, Err(GenerationConflict))
    else if SimulationOf(o.desired) == TimeoutBeforeEffect then (a, Err(Timeout))
    else if SimulationOf(o.desired) == UnknownAfterEffect then (Advance(a, o.desired), Err(OutcomeUnknown))
    else
      var (next, state, reason) := Effect(a, o);
      var receipt := AdapterReceipt(o.operationId, state, next.generation, Sha(next.state), reason);
      (next.(history := next.history[o.operationId := Change(Sha(o), a.state, receipt)]), Ok(receipt))
  }

  function RollbackSynthetic(a: Synthetic, o: AdapterOperation): (Synthetic, Outcome) {
    if o.operationId in a.rollbacks then
      var prior := a.rollbacks[o.operationId];
      (a, if prior.binding == Sha(o) then Ok(prior.receipt) else Err(ReplayConflict))
    else if o.expectedGeneration != a.generation then (a, Err(GenerationConflict))
    else if o.related.None? then (a, Err(InvalidConfig))
    else if o.related.value !in a.history then (a, Err(Unsupported))
    else
      var next := Advance(a, a.history[o.related.value].prior);
      var receipt := AdapterReceipt(o.operationId, Converged, next.generation, Sha(next.state), RolledBack);
      (next.(rollbacks := next.rollbacks[o.operationId := Undone(Sha(o), receipt)]), Ok(receipt))
  }

  function DryRunSynthetic(a: Synthetic, o: AdapterOperation, now: nat): Outcome {
    if !ValidOperation(o, now) || o.desiredDigest != Sha(o.desired) then Err(InvalidConfig)
    else Ok(AdapterReceipt(o.operationId, Converged, a.generation, o.desiredDigest, DryRunValid))
  }

  function VerifySynthetic(a: Synthetic, o: AdapterOperation): AdapterReceipt {
    var observed := Sha(a.state);
    var state := if observed == o.desiredDigest then Converged else Failed;
    AdapterReceipt(o.operationId, state, a.generation, observed, Verified)
  }

  class SyntheticAdapter {
    var generation: nat
    var state: Value
    var history: map<string, Change>
    var rollbacks: map<string, Undone>

    function View(): Synthetic
      reads this
    {
      Synthetic(generation, state, history, rollbacks)
    }

    constructor ()
      ensures View() == FRESH
    {
      generation, state := 0, Null;
      history, rollbacks := map[], map[];
    }

    method Apply(o: AdapterOperation, now: nat) returns (r: Outcome)
      modifies this
      ensures (View(), r) == ApplySynthetic(old(View()), o, now)
    {
      if !ValidOperation(o, now) || o.desiredDigest != Sha(o.desired) {
        return Err(InvalidConfig);
      }
      if o.operationId in history {
        return if history[o.operationId].binding == Sha(o) then Ok(history[o.operationId].receipt)
          else Err(ReplayConflict);
      }
      if o.expectedGeneration != generation {
        return Err(GenerationConflict);
      }
      var before := state;
      var simulation := SimulationOf(o.desired);
      if simulation == TimeoutBeforeEffect {
        return Err(Timeout);
      }
      if simulation == UnknownAfterEffect {
        state := o.desired;
        generation := generation + 1;
        return Err(OutcomeUnknown);
      }
      var reached, reason := Converged, AdapterReason.Applied;
      if simulation == PartialEffect {
        state := PARTIAL;
        generation := generation + 1;
        reached, reason := PartiallyConverged, SyntheticPartial;
      } else if simulation == NoEffect {
        reached, reason := Failed, IrrecoverableFailure;
      } else {
        state := o.desired;
        generation := generation + 1;
      }
      var receipt := AdapterReceipt(o.operationId, reached, generation, Sha(state), reason);
      history := history[o.operationId := Change(Sha(o), before, receipt)];
      return Ok(receipt);
    }

    method Rollback(o: AdapterOperation) returns (r: Outcome)
      modifies this
      ensures (View(), r) == RollbackSynthetic(old(View()), o)
    {
      if o.operationId in rollbacks {
        return if rollbacks[o.operationId].binding == Sha(o) then Ok(rollbacks[o.operationId].receipt)
          else Err(ReplayConflict);
      }
      if o.expectedGeneration != generation {
        return Err(GenerationConflict);
      }
      if o.related.None? {
        return Err(InvalidConfig);
      }
      if o.related.value !in history {
        return Err(Unsupported);
      }
      state := history[o.related.value].prior;
      generation := generation + 1;
      var receipt := AdapterReceipt(o.operationId, Converged, generation, Sha(state), RolledBack);
      rollbacks := rollbacks[o.operationId := Undone(Sha(o), receipt)];
      return Ok(receipt);
    }
  }

  // ---------------------------------------------------------------- the version clock

  datatype Call = CallApply(operation: AdapterOperation, now: nat) | CallRollback(operation: AdapterOperation)

  function Perform(a: Synthetic, call: Call): (Synthetic, Outcome) {
    match call
    case CallApply(o, now) => ApplySynthetic(a, o, now)
    case CallRollback(o) => RollbackSynthetic(a, o)
  }

  /** The states an adapter has been in, one per generation, and the operation behind each change. */
  datatype Life = Life(states: seq<Value>, causes: seq<AdapterOperation>)

  const BIRTH := Life([Null], [])

  function Witness(life: Life, before: Synthetic, after: Synthetic, call: Call): Life {
    if after.generation == before.generation then life
    else Life(life.states + [after.state], life.causes + [call.operation])
  }

  function RunAdapter(a: Synthetic, life: Life, calls: seq<Call>): (Synthetic, Life)
    decreases |calls|
  {
    if calls == [] then (a, life)
    else
      var next := Perform(a, calls[0]).0;
      RunAdapter(next, Witness(life, a, next, calls[0]), calls[1..])
  }

  /** A history entry tells the truth about the states before and after its operation. */
  ghost predicate TrueChange(id: string, e: Change, life: Life) {
    && e.binding.Sha? && e.binding.of.operationId == id == e.receipt.operationId
    && e.binding.of.expectedGeneration < |life.states|
    && e.prior == life.states[e.binding.of.expectedGeneration]
    && e.receipt.generation < |life.states|
    && e.receipt.resultDigest == Sha(life.states[e.receipt.generation])
    && (e.receipt.state == Converged ==>
          && e.receipt.generation == e.binding.of.expectedGeneration + 1
          && e.receipt.resultDigest == e.binding.of.desiredDigest)
  }

  ghost predicate TrueUndone(id: string, e: Undone, life: Life) {
    && e.binding.Sha? && e.binding.of.operationId == id == e.receipt.operationId
    && e.receipt.generation == e.binding.of.expectedGeneration + 1 < |life.states|
    && e.receipt.resultDigest == Sha(life.states[e.receipt.generation])
  }

  /** Generation numbers the states; each change was made at the generation its operation expected. */
  ghost predicate Clocked(a: Synthetic, life: Life) {
    && |life.states| == a.generation + 1
    && |life.causes| == a.generation
    && life.states[a.generation] == a.state
    && (forall g :: 0 <= g < |life.causes| ==> life.causes[g].expectedGeneration == g)
    && (forall id :: id in a.history ==> TrueChange(id, a.history[id], life))
    && (forall id :: id in a.rollbacks ==> TrueUndone(id, a.rollbacks[id], life))
  }

  ghost predicate LifeGrows(a: Life, b: Life) {
    a.states <= b.states && a.causes <= b.causes
  }

  lemma {:induction false} TrueChangeLater(id: string, e: Change, life: Life, later: Life)
    requires TrueChange(id, e, life) && LifeGrows(life, later)
    ensures TrueChange(id, e, later)
  {
    assert forall g :: 0 <= g < |life.states| ==> later.states[g] == life.states[g];
  }

  lemma {:induction false} TrueUndoneLater(id: string, e: Undone, life: Life, later: Life)
    requires TrueUndone(id, e, life) && LifeGrows(life, later)
    ensures TrueUndone(id, e, later)
  {
    assert forall g :: 0 <= g < |life.states| ==> later.states[g] == life.states[g];
  }

  /** What one call can do: nothing to the clock, or one tick caused by an operation that expected it. */
  ghost predicate Tick(a: Synthetic, next: Synthetic, o: AdapterOperation) {
    || (next.generation == a.generation && next.state == a.state)
    || (next.generation == a.generation + 1 && o.expectedGeneration == a.generation)
  }

  lemma {:induction false} PerformTicks(a: Synthetic, call: Call)
    ensures Tick(a, Perform(a, call).0, call.operation)
  {
  }

  lemma {:induction false} ApplyRecords(a: Synthetic, o: AdapterOperation, now: nat, life: Life)
    requires Clocked(a, life)
    ensures
      var next := ApplySynthetic(a, o, now).0;
      var later := Witness(life, a, next, CallApply(o, now));
      && next.rollbacks == a.rollbacks
      && (forall id :: id in next.history ==>
            (id in a.history && next.history[id] == a.history[id]) || TrueChange(id, next.history[id], later))
  {
  }

  lemma {:induction false} RollbackRecords(a: Synthetic, o: AdapterOperation, life: Life)
    requires Clocked(a, life)
    ensures
      var next := RollbackSynthetic(a, o).0;
      var later := Witness(life, a, next, CallRollback(o));
      && next.history == a.history
      && (forall id :: id in next.rollbacks ==>
            (id in a.rollbacks && next.rollbacks[id] == a.rollbacks[id]) || TrueUndone(id, next.rollbacks[id], later))
  {
  }

  lemma {:induction false} PerformStaysClocked(a: Synthetic, call: Call, life: Life)
    requires Clocked(a, life)
    ensures
      var next := Perform(a, call).0;
      Clocked(next, Witness(life, a, next, call)) && LifeGrows(life, Witness(life, a, next, call))
  {
    var next := Perform(a, call).0;
    var later := Witness(life, a, next, call);
    PerformTicks(a, call);
    match call {
      case CallApply(o, now) => ApplyRecords(a, o, now, life);
      case CallRollback(o) => RollbackRecords(a, o, life);
    }
    forall id | id in next.history ensures TrueChange(id, next.history[id], later) {
      if id in a.history && next.history[id] == a.history[id] {
        TrueChangeLater(id, a.history[id], life, later);
      }
    }
    forall id | id in next.rollbacks ensures TrueUndone(id, next.rollbacks[id], later) {
      if id in a.rollbacks && next.rollbacks[id] == a.rollbacks[id] {
        TrueUndoneLater(id, a.rollbacks[id], life, later);
      }
    }
  }

  /** Over every run of applies and rollbacks the generation stays a clock for the state. */
  lemma {:induction false} RunStaysClocked(a: Synthetic, life: Life, calls: seq<Call>)
    requires Clocked(a, life)
    ensures Clocked(RunAdapter(a, life, calls).0, RunAdapter(a, life, calls).1)
    ensures LifeGrows(life, RunAdapter(a, life, calls).1)
    decreases |calls|
  {
    if calls == [] {
    } else {
      PerformStaysClocked(a, calls[0], life);
      var next := Perform(a, calls[0]).0;
      RunStaysClocked(next, Witness(life, a, next, calls[0]), calls[1..]);
    }
  }

  lemma FreshIsClocked()
    ensures Clocked(FRESH, BIRTH)
  {
  }

  /** Seeing the same generation twice means seeing the same state, whatever happened in between. */
  lemma {:induction false} StateIsFunctionOfGeneration(a: Synthetic, life: Life, calls: seq<Call>)
    requires Clocked(a, life)
    ensures
      var later := RunAdapter(a, life, calls).0;
      later.generation >= a.generation && (later.generation == a.generation ==> later.state == a.state)
  {
    RunStaysClocked(a, life, calls);
  }

  /** No operation ever takes effect twice, even one whose outcome was reported unknown. */
  lemma {:induction false} EffectAtMostOnce(calls: seq<Call>)
    ensures
      var causes := RunAdapter(FRESH, BIRTH, calls).1.causes;
      forall i, j :: 0 <= i < j < |causes| ==> causes[i] != causes[j]
  {
    FreshIsClocked();
    RunStaysClocked(FRESH, BIRTH, calls);
  }

  /** An operation that changed the state can never change it again. */
  lemma {:induction false} SpentOperationIsInert(a: Synthetic, life: Life, call: Call)
    requires Clocked(a, life) && call.operation in life.causes
    ensures Perform(a, call).0.generation == a.generation && Perform(a, call).0.state == a.state
  {
    PerformTicks(a, call);
  }

  // ---------------------------------------------------------------- the host

  datatype Completed = Completed(binding: Digest<AdapterOperation>, receipt: AdapterReceipt)

  type Slot = (string, string)

  datatype Host = Host(adapters: map<Slot, Synthetic>, cancelled: set<string>, completed: map<string, Completed>)

  const SYNTHETIC_CAPABILITY := "synthetic-v1"

  function SlotOf(o: AdapterOperation): Slot {
    (o.targetId, o.capability)
  }

  function Dispatch(a: Synthetic, o: AdapterOperation, now: nat): (Synthetic, Outcome) {
    match o.action
    case DryRun => (a, DryRunSynthetic(a, o, now))
    case Apply => ApplySynthetic(a, o, now)
    case VerifyAction => (a, Ok(VerifySynthetic(a, o)))
    case Observe => (a, Ok(VerifySynthetic(a, o)))
    case Rollback => RollbackSynthetic(a, o)
    case _ => (a, Err(Unsupported))
  }

  /** One execution by the host: completed operations are answered from memory. */
  function HostExecute(h: Host, o: AdapterOperation, now: nat): (Host, Outcome) {
    if !ValidOperation(o, now) then (h, Err(InvalidConfig))
    else if o.operationId in h.completed then
      (h, if h.completed[o.operationId].binding == Sha(o) then Ok(h.completed[o.operationId].receipt)
       else Err(ReplayConflict))
    else if o.operationId in h.cancelled then (h, Err(Cancelled))
    else if SlotOf(o) !in h.adapters then (h, Err(UnknownTarget))
    else if o.capability != SYNTHETIC_CAPABILITY then (h, Err(Unsupported))
    else
      var (a, r) := Dispatch(h.adapters[SlotOf(o)], o, now);
      var touched := h.(adapters := h.adapters[SlotOf(o) := a]);
      match r
      case Ok(receipt) => (touched.(completed := touched.completed[o.operationId := Completed(Sha(o), receipt)]), r)
      case Err(_) => (touched, r)
  }

  /** An independent read of the target. */
  function HostVerify(h: Host, o: AdapterOperation): Outcome {
    if SlotOf(o) in h.adapters then Ok(VerifySynthetic(h.adapters[SlotOf(o)], o)) else Err(UnknownTarget)
  }

  class AdapterHost {
    var adapters: map<Slot, SyntheticAdapter>
    var cancelled: set<string>
    var completed: map<string, Completed>

    /** Each slot has an adapter of its own. */
    ghost predicate Valid()
      reads this
    {
      forall i, j :: i in adapters && j in adapters && i != j ==> adapters[i] != adapters[j]
    }

    ghost function View(): Host
      reads this, adapters.Values
    {
      Host(map slot | slot in adapters :: adapters[slot].View(), cancelled, completed)
    }

    constructor ()
      ensures Valid() && View() == Host(map[], {}, map[])
    {
      adapters, cancelled, completed := map[], {}, map[];
    }

    method Register(target: string, capability: string, adapter: SyntheticAdapter)
      requires Valid() && adapter !in adapters.Values
      modifies this
      ensures Valid()
      ensures View() == old(View()).(adapters := old(View()).adapters[(target, capability) := adapter.View()])
      ensures adapters == old(adapters)[(target, capability) := adapter]
    {
      adapters := adapters[(target, capability) := adapter];
      assert forall slot :: slot in adapters ==> adapters[slot] == adapter || adapters[slot] in old(adapters.Values);
    }

    method Cancel(operationId: string)
      requires Valid()
      modifies this
      ensures Valid() && adapters == old(adapters)
      ensures View() == old(View()).(cancelled := old(View()).cancelled + {operationId})
    {
      cancelled := cancelled + {operationId};
    }

    static method Perform(adapter: SyntheticAdapter, o: AdapterOperation, now: nat) returns (r: Outcome)
      modifies adapter
      ensures (adapter.View(), r) == Dispatch(old(adapter.View()), o, now)
    {
      match o.action {
        case DryRun => r := DryRunSynthetic(adapter.View(), o, now);
        case Apply => r := adapter.Apply(o, now);
        case VerifyAction => r := Ok(VerifySynthetic(adapter.View(), o));
        case Observe => r := Ok(VerifySynthetic(adapter.View(), o));
        case Rollback => r := adapter.Rollback(o);
        case _ => r := Err(Unsupported);
      }
    }

    method Execute(o: AdapterOperation, now: nat) returns (r: Outcome)
      requires Valid()
      modifies this, adapters.Values
      ensures Valid() && adapters == old(adapters)
      ensures (View(), r) == HostExecute(old(View()), o, now)
    {
      if !ValidOperation(o, now) {
        return Err(InvalidConfig);
      }
      if o.operationId in completed {
        return if completed[o.operationId].binding == Sha(o) then Ok(completed[o.operationId].receipt)
          else Err(ReplayConflict);
      }
      if o.operationId in cancelled {
        return Err(Cancelled);
      }
      var slot := SlotOf(o);
      if slot !in adapters {
        return Err(UnknownTarget);
      }
      if o.capability != SYNTHETIC_CAPABILITY {
        return Err(Unsupported);
      }
      var adapter := adapters[slot];
      assert adapter in adapters.Values;
      r := Perform(adapter, o, now);
      if r.Ok? {
        completed := completed[o.operationId := Completed(Sha(o), r.value)];
      }
      assert View().adapters == old(View()).adapters[slot := adapter.View()];
    }

    method VerifyAuthorized(o: AdapterOperation) returns (r: Outcome)
      requires Valid()
      ensures r == HostVerify(View(), o)
    {
      if SlotOf(o) !in adapters {
        return Err(UnknownTarget);
      }
      return Ok(VerifySynthetic(adapters[SlotOf(o)].View(), o));
    }
  }

  lemma {:induction false} DispatchTicks(a: Synthetic, o: AdapterOperation, now: nat)
    ensures a.generation <= Dispatch(a, o, now).0.generation <= a.generation + 1
  {
  }

  /** One host execution moves at most one adapter, by at most one generation. */
  lemma {:induction false} HostTicksOnce(h: Host, o: AdapterOperation, now: nat)
    ensures
      var next := HostExecute(h, o, now).0;
      && next.adapters.Keys == h.adapters.Keys
      && (forall slot :: slot in h.adapters && slot != SlotOf(o) ==> next.adapters[slot] == h.adapters[slot])
      && (forall slot :: slot in h.adapters ==>
            h.adapters[slot].generation <= next.adapters[slot].generation <= h.adapters[slot].generation + 1)
  {
    if SlotOf(o) in h.adapters {
      DispatchTicks(h.adapters[SlotOf(o)], o, now);
    }
  }
}
