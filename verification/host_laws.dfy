/**
 What the adapter host does to its targets, in terms of the host alone: which operations take
 effect, which are refused, and what is reported of either.
 */
module HostLaws {
  import opened Common
  import opened Json
  import opened Gates
  import opened Adapters

  // ---------------------------------------------------------------- which operations are considered

  /** Unexpired and filled in, within the bounds on its texts. */
  predicate WellPosed(o: AdapterOperation, now: nat) {
    && now <= o.expiresAt
    && 0 < |o.operationId| <= 128 && 0 < |o.targetId| <= 256
    && (o.planDigest.Text? ==> 0 < |o.planDigest.text| <= 256)
    && (o.desiredDigest.Text? ==> 0 < |o.desiredDigest.text| <= 256)
    && (o.related.Some? ==> 0 < |o.related.value| <= 128)
  }

  lemma {:induction false} WellPosedIff(o: AdapterOperation, now: nat)
    ensures ValidOperation(o, now) <==> WellPosed(o, now)
  {
  }

  /** The host has a synthetic target for the operation, and has neither seen nor cancelled it. */
  predicate Open(h: Host, o: AdapterOperation, now: nat) {
    && WellPosed(o, now)
    && o.operationId !in h.completed && o.operationId !in h.cancelled
    && (o.targetId, o.capability) in h.adapters && o.capability == "synthetic-v1"
  }

  /** The target of an operation. */
  function Target(h: Host, o: AdapterOperation): Synthetic
    requires (o.targetId, o.capability) in h.adapters
  {
    h.adapters[(o.targetId, o.capability)]
  }

  /** No target but the operation's own differs, and nothing was cancelled. */
  predicate ElsewhereSame(h: Host, next: Host, o: AdapterOperation) {
    && next.adapters.Keys == h.adapters.Keys && next.cancelled == h.cancelled
    && forall slot :: slot in h.adapters && slot != (o.targetId, o.capability) ==>
         next.adapters[slot] == h.adapters[slot]
  }

  /** The host remembers the receipt under the operation, and everything it remembered before. */
  predicate RemembersReceipt(h: Host, next: Host, o: AdapterOperation, r: AdapterReceipt) {
    next.completed == h.completed[o.operationId := Completed(Sha(o), r)]
  }

  lemma {:induction false} OpenIsDispatched(h: Host, o: AdapterOperation, now: nat)
    requires Open(h, o, now)
    ensures
      var (next, r) := HostExecute(h, o, now);
      && ElsewhereSame(h, next, o) && (Target(next, o), r) == Dispatch(Target(h, o), o, now)
      && (r.Ok? ==> RemembersReceipt(h, next, o, r.value)) && (r.Err? ==> next.completed == h.completed)
  {
    WellPosedIff(o, now);
  }

  /** Operations that are not open are answered without touching anything: in this order, and exactly then. */
  lemma {:induction false} NotOpenIsAnswered(h: Host, o: AdapterOperation, now: nat)
    requires !Open(h, o, now)
    ensures
      var (next, r) := HostExecute(h, o, now);
      && next == h
      && (!WellPosed(o, now) ==> r == Err(InvalidConfig))
      && (WellPosed(o, now) && o.operationId in h.completed ==>
            r == if h.completed[o.operationId].binding == Sha(o) then Ok(h.completed[o.operationId].receipt)
                 else Err(ReplayConflict))
      && (WellPosed(o, now) && o.operationId !in h.completed ==>
            r == if o.operationId in h.cancelled then Err(Cancelled)
                 else if (o.targetId, o.capability) !in h.adapters then Err(UnknownTarget)
                 else Err(Unsupported))
  {
    WellPosedIff(o, now);
  }

  // ---------------------------------------------------------------- what an apply does

  /** A desired state that asks for none of the simulated failures. */
  predicate Plain(desired: Value) {
    Get(desired, "simulate") !in {
      Some(Str("timeout_before_effect")), Some(Str("unknown_after_effect")), Some(Str("partial")),
      Some(Str("irrecoverable_failure"))}
  }

  lemma {:induction false} PlainIff(desired: Value)
    ensures Plain(desired) <==> SimulationOf(desired) == NoSimulation
  {
  }

  /** An apply the target has not seen, of the state its digest names, at the target's generation. */
  predicate FreshApply(a: Synthetic, o: AdapterOperation) {
    && o.action == Apply && o.desiredDigest == Sha(o.desired)
    && o.operationId !in a.history && o.expectedGeneration == a.generation
  }

  /** The target holds `v` one generation later than before. */
  predicate MovedTo(a: Synthetic, next: Synthetic, v: Value) {
    next.state == v && next.generation == a.generation + 1 && next.rollbacks == a.rollbacks
  }

  /** The target remembers what it held before the operation, and what was reported. */
  predicate Recorded(a: Synthetic, next: Synthetic, o: AdapterOperation, r: AdapterReceipt) {
    next.history == a.history[o.operationId := Change(Sha(o), a.state, r)]
  }

  lemma {:induction false} FreshApplyDispatches(a: Synthetic, o: AdapterOperation, now: nat)
    requires WellPosed(o, now) && FreshApply(a, o) && Plain(o.desired)
    ensures
      var (next, r) := Dispatch(a, o, now);
      && r == Ok(AdapterReceipt(o.operationId, Converged, a.generation + 1, Sha(o.desired), Applied))
      && MovedTo(a, next, o.desired) && Recorded(a, next, o, r.value)
  {
    WellPosedIff(o, now);
    PlainIff(o.desired);
  }

  /**
   An apply takes effect: its target holds the desired state one generation later, remembers the
   state before, and no other target moves. The receipt says so truly, the host remembers it, and
   an independent read of the new host agrees.
   */
  lemma {:induction false} ApplyTakesEffect(h: Host, o: AdapterOperation, now: nat)
    requires Open(h, o, now) && FreshApply(Target(h, o), o) && Plain(o.desired)
    ensures
      var (next, r) := HostExecute(h, o, now);
      var generation := Target(h, o).generation + 1;
      && r == Ok(AdapterReceipt(o.operationId, Converged, generation, Sha(o.desired), Applied))
      && ElsewhereSame(h, next, o) && RemembersReceipt(h, next, o, r.value)
      && MovedTo(Target(h, o), Target(next, o), o.desired)
      && Recorded(Target(h, o), Target(next, o), o, r.value)
      && HostVerify(next, o)
         == Ok(AdapterReceipt(o.operationId, Converged, generation, Sha(o.desired), Verified))
  {
    OpenIsDispatched(h, o, now);
    FreshApplyDispatches(Target(h, o), o, now);
  }

  lemma {:induction false} SimulatedDispatches(a: Synthetic, o: AdapterOperation, now: nat)
    requires WellPosed(o, now) && FreshApply(a, o) && !Plain(o.desired)
    ensures
      var (next, r) := Dispatch(a, o, now);
      match SimulationOf(o.desired)
      case TimeoutBeforeEffect => r == Err(Timeout) && next == a
      case UnknownAfterEffect =>
        r == Err(OutcomeUnknown) && MovedTo(a, next, o.desired) && next.history == a.history
      case PartialEffect =>
        && r == Ok(AdapterReceipt(o.operationId, PartiallyConverged, a.generation + 1, Sha(next.state),
                                  SyntheticPartial))
        && MovedTo(a, next, Obj(["partial"], [Bool(true)])) && Recorded(a, next, o, r.value)
      case _ =>
        && r == Ok(AdapterReceipt(o.operationId, Failed, a.generation, Sha(a.state), IrrecoverableFailure))
        && next.state == a.state && next.generation == a.generation && next.rollbacks == a.rollbacks
        && Recorded(a, next, o, r.value)
  {
    WellPosedIff(o, now);
    PlainIff(o.desired);
  }

  /**
   The simulated failures, by what the desired state asks for. Before the effect: a timeout, and
   the target as it was. After it: the outcome is reported unknown though the target holds the
   desired state, and nothing is remembered. Partial and irrecoverable ones are reported truly.
   */
  lemma {:induction false} SimulatedFailures(h: Host, o: AdapterOperation, now: nat)
    requires Open(h, o, now) && FreshApply(Target(h, o), o) && !Plain(o.desired)
    ensures
      var (next, r) := HostExecute(h, o, now);
      var a, after, asked := Target(h, o), Target(next, o), Get(o.desired, "simulate");
      && ElsewhereSame(h, next, o) && (r.Err? ==> next.completed == h.completed)
      && (asked == Some(Str("timeout_before_effect")) ==> r == Err(Timeout) && after == a)
      && (asked == Some(Str("unknown_after_effect")) ==>
            r == Err(OutcomeUnknown) && MovedTo(a, after, o.desired) && after.history == a.history)
      && (asked == Some(Str("partial")) ==>
            && r == Ok(AdapterReceipt(o.operationId, PartiallyConverged, a.generation + 1, Sha(after.state),
                                      SyntheticPartial))
            && MovedTo(a, after, Obj(["partial"], [Bool(true)])) && Recorded(a, after, o, r.value))
      && (asked == Some(Str("irrecoverable_failure")) ==>
            && r == Ok(AdapterReceipt(o.operationId, Failed, a.generation, Sha(a.state), IrrecoverableFailure))
            && after.state == a.state && after.generation == a.generation && Recorded(a, after, o, r.value))
  {
    OpenIsDispatched(h, o, now);
    SimulatedDispatches(Target(h, o), o, now);
  }

  /** An apply that is not fresh leaves its target as it was, and says why. */
  lemma {:induction false} StaleApplyIsRefused(h: Host, o: AdapterOperation, now: nat)
    requires Open(h, o, now) && o.action == Apply && !FreshApply(Target(h, o), o)
    ensures
      var (next, r) := HostExecute(h, o, now);
      var a := Target(h, o);
      && next.adapters == h.adapters
      && (o.desiredDigest != Sha(o.desired) ==> r == Err(InvalidConfig))
      && (o.desiredDigest == Sha(o.desired) && o.operationId in a.history ==>
            r == if a.history[o.operationId].binding == Sha(o) then Ok(a.history[o.operationId].receipt)
                 else Err(ReplayConflict))
      && (o.desiredDigest == Sha(o.desired) && o.operationId !in a.history ==> r == Err(GenerationConflict))
  {
    WellPosedIff(o, now);
    OpenIsDispatched(h, o, now);
  }

  /**
   A converged receipt that the host has not given before means that the target, by this very
   operation, now holds the desired state; and an apply of an unseen operation converges exactly
   when it is fresh, plain and open.
   */
  lemma {:induction false} ConvergedMeansHeld(h: Host, o: AdapterOperation, now: nat)
    requires o.action == Apply && o.operationId !in h.completed
    requires (o.targetId, o.capability) in h.adapters ==> o.operationId !in Target(h, o).history
    ensures
      var (next, r) := HostExecute(h, o, now);
      && (r.Ok? && r.value.state == Converged <==>
            Open(h, o, now) && FreshApply(Target(h, o), o) && Plain(o.desired))
      && (r.Ok? && r.value.state == Converged ==> MovedTo(Target(h, o), Target(next, o), o.desired))
  {
    if !Open(h, o, now) {
      NotOpenIsAnswered(h, o, now);
    } else if !FreshApply(Target(h, o), o) {
      StaleApplyIsRefused(h, o, now);
    } else if Plain(o.desired) {
      ApplyTakesEffect(h, o, now);
    } else {
      SimulatedFailures(h, o, now);
    }
  }

  // ---------------------------------------------------------------- what a rollback does

  /** A rollback the target has not seen, at the target's generation, of an apply it remembers. */
  predicate FreshRollback(a: Synthetic, o: AdapterOperation) {
    && o.action == Rollback
    && o.operationId !in a.rollbacks && o.expectedGeneration == a.generation
    && o.related.Some? && o.related.value in a.history
  }

  /**
   A rollback takes effect: its target holds what it held before the related apply, one generation
   later still; the receipt, the host's memory and an independent read say so.
   */
  lemma {:induction false} RollbackTakesEffect(h: Host, o: AdapterOperation, now: nat)
    requires Open(h, o, now) && FreshRollback(Target(h, o), o)
    ensures
      var (next, r) := HostExecute(h, o, now);
      var a, after := Target(h, o), Target(next, o);
      var prior := a.history[o.related.value].prior;
      && r == Ok(AdapterReceipt(o.operationId, Converged, a.generation + 1, Sha(prior), RolledBack))
      && ElsewhereSame(h, next, o) && RemembersReceipt(h, next, o, r.value)
      && after == Synthetic(a.generation + 1, prior, a.history,
                            a.rollbacks[o.operationId := Undone(Sha(o), r.value)])
      && HostVerify(next, o)
         == Ok(AdapterReceipt(o.operationId, if Sha(prior) == o.desiredDigest then Converged else Failed,
                              a.generation + 1, Sha(prior), Verified))
  {
    OpenIsDispatched(h, o, now);
  }

  /** A rollback that is not fresh leaves every target as it was, and says why. */
  lemma {:induction false} StaleRollbackIsRefused(h: Host, o: AdapterOperation, now: nat)
    requires Open(h, o, now) && o.action == Rollback && !FreshRollback(Target(h, o), o)
    ensures
      var (next, r) := HostExecute(h, o, now);
      var a := Target(h, o);
      && next.adapters == h.adapters
      && (o.operationId in a.rollbacks ==>
            r == if a.rollbacks[o.operationId].binding == Sha(o) then Ok(a.rollbacks[o.operationId].receipt)
                 else Err(ReplayConflict))
      && (o.operationId !in a.rollbacks ==>
            r == if o.expectedGeneration != a.generation then Err(GenerationConflict)
                 else if o.related.None? then Err(InvalidConfig)
                 else Err(Unsupported))
  {
    OpenIsDispatched(h, o, now);
  }

  /** An apply and then the rollback of it, with nothing in between, is a round trip. */
  lemma {:induction false} ApplyThenRollback(h: Host, o: AdapterOperation, now: nat, back: AdapterOperation, later: nat)
    requires Open(h, o, now) && FreshApply(Target(h, o), o) && Plain(o.desired)
    requires WellPosed(back, later) && back.action == Rollback && back.related == Some(o.operationId)
    requires (back.targetId, back.capability) == (o.targetId, o.capability)
    requires back.operationId != o.operationId && back.operationId !in h.completed && back.operationId !in h.cancelled
    requires back.expectedGeneration == Target(h, o).generation + 1 && back.operationId !in Target(h, o).rollbacks
    ensures
      var restored := HostExecute(HostExecute(h, o, now).0, back, later).0;
      && ElsewhereSame(h, restored, o)
      && Target(restored, o).state == Target(h, o).state
      && Target(restored, o).generation == Target(h, o).generation + 2
  {
    ApplyTakesEffect(h, o, now);
    RollbackTakesEffect(HostExecute(h, o, now).0, back, later);
  }

  // ---------------------------------------------------------------- reads

  /** What a read of the target finds, for an operation that hopes for `o.desiredDigest`. */
  predicate IsReadOf(a: Synthetic, o: AdapterOperation, r: AdapterReceipt) {
    && r.operationId == o.operationId && r.reason == Verified
    && r.generation == a.generation && r.resultDigest == Sha(a.state)
    && (r.state == Converged <==> Sha(a.state) == o.desiredDigest)
    && (r.state == Failed <==> Sha(a.state) != o.desiredDigest)
  }

  /** An independent read finds the target as it is, and fails exactly where there is none. */
  lemma {:induction false} VerifyReadsTheTarget(h: Host, o: AdapterOperation)
    ensures HostVerify(h, o).Ok? <==> (o.targetId, o.capability) in h.adapters
    ensures HostVerify(h, o).Ok? ==> IsReadOf(Target(h, o), o, HostVerify(h, o).value)
    ensures HostVerify(h, o).Err? ==> HostVerify(h, o).error == UnknownTarget
  {
  }

  /** Only applies and rollbacks change anything; reads and dry runs report the target as it is. */
  lemma {:induction false} OtherActionsAreInert(h: Host, o: AdapterOperation, now: nat)
    requires o.action != Apply && o.action != Rollback
    ensures HostExecute(h, o, now).0.adapters == h.adapters
    ensures
      var r := HostExecute(h, o, now).1;
      Open(h, o, now) ==>
        match o.action
        case VerifyAction => r.Ok? && IsReadOf(Target(h, o), o, r.value)
        case Observe => r.Ok? && IsReadOf(Target(h, o), o, r.value)
        case DryRun =>
          r == if o.desiredDigest == Sha(o.desired)
               then Ok(AdapterReceipt(o.operationId, Converged, Target(h, o).generation, Sha(o.desired), DryRunValid))
               else Err(InvalidConfig)
        case _ => r == Err(Unsupported)
  {
    WellPosedIff(o, now);
    if Open(h, o, now) {
      OpenIsDispatched(h, o, now);
    } else {
      NotOpenIsAnswered(h, o, now);
    }
  }
}
