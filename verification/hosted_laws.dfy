/** What an authorized execution answers when the targets are the host's own: told from their states. */
module HostedLaws {
  import opened Common
  import opened Gates
  import opened Controllers
  import opened Execution
  import opened ExecutionRuns
  import opened Adapters
  import opened HostedRuns
  import opened HostLaws
  import opened GateLaws
  import opened ExecutionLaws
  import R = Recovery

  /** What the controller sees of an attempt against the host. */
  function SeenAttempt(h: Hosted, order: Order, now: nat, budget: nat): Occurrence {
    OnExecute(order, now, Met(h.host, h.world.journal, order, now), budget)
  }

  /** The target holds the state this gate is to write. */
  predicate Holds(h: Host, g: ApplyGate) {
    var slot := (g.operation.targetId, g.operation.capability);
    slot in h.adapters && h.adapters[slot].state == g.operation.desired
  }

  predicate Registered(h: Host, g: ApplyGate) {
    (g.operation.targetId, g.operation.capability) in h.adapters
  }

  // ---------------------------------------------------------------- after a restart

  /** What is told of an apply that was started and never reported, from the target's state. */
  predicate TellsTheState(r: LifecycleReceipt, h: Host, g: ApplyGate) {
    && (Holds(h, g) <==> (r.state, r.reason) == (ExecPartiallyConverged, EffectObservedAfterRestart))
    && (Registered(h, g) && !Holds(h, g) <==> (r.state, r.reason) == (ExecDeferred, RestartObservationMismatch))
    && (!Registered(h, g) <==> (r.state, r.reason) == (ExecDeferred, RestartObservationUnavailable))
  }

  lemma {:induction false} ReadTellsTheState(r: LifecycleReceipt, h: Host, g: ApplyGate, now: nat)
    requires HangsTogether(g, now) && ExplainsRestart(r, g, HostVerify(h, g.operation))
    ensures TellsTheState(r, h, g)
  {
    VerifyReadsTheTarget(h, g.operation);
  }

  lemma {:induction false} AttemptIsSeen(p: ControllerPolicy, h: Hosted, order: Order, now: nat, budget: nat)
    ensures Occur(p, h, Attempted(order, now, budget)).world == Happen(p, h.world, SeenAttempt(h, order, now, budget))
  {
  }

  lemma {:induction false} NoCallNoService(p: ControllerPolicy, h: Hosted, order: Order, now: nat, budget: nat)
    requires Occur(p, h, Attempted(order, now, budget)).world.calls == h.world.calls
    ensures Occur(p, h, Attempted(order, now, budget)).host == h.host
  {
    if Reaches(ScriptOf(p, h, order, now), budget) {
      ReachedIsCounted(KeyOf(order.gate), ScriptOf(p, h, order, now), budget);
      AttemptIsSeen(p, h, order, now, budget);
    }
  }

  /**
   After a restart, over every hosted run: an attempt that finds its apply started and not reported
   leaves every target alone, and its receipt, stored for good, says that the effect was observed
   exactly when the target holds the desired state.
   */
  lemma {:induction false} RestartTellsTheState(p: ControllerPolicy, slots: seq<Slot>, incidents: seq<Incident>,
        order: Order, now: nat, budget: nat)
    returns (r: LifecycleReceipt)
    requires
      var h := RunHosted(p, Start(slots), incidents);
      && LetThrough(p, h.world, SeenAttempt(h, order, now, budget)) && budget >= 1
      && RowOf(h.world.journal, order.gate).Some? && RowOf(h.world.journal, order.gate).value.phase.Started?
    ensures
      var h := RunHosted(p, Start(slots), incidents);
      var next := Occur(p, h, Attempted(order, now, budget));
      && next.host == h.host && next.world.calls == h.world.calls
      && RowOf(next.world.journal, order.gate) == Some(Row(Complete, None, Some(r)))
      && TellsTheState(r, h.host, order.gate)
  {
    var h := RunHosted(p, Start(slots), incidents);
    HostedRunIsARun(p, Start(slots), incidents);
    r := RestartObserves(p, Seen(p, Start(slots), incidents), SeenAttempt(h, order, now, budget));
    ReadTellsTheState(r, h.host, order.gate, now);
    AttemptIsSeen(p, h, order, now, budget);
    NoCallNoService(p, h, order, now, budget);
  }

  // ---------------------------------------------------------------- who the host remembers

  /** What a target or the host remembers of `id` was granted, and was an apply or a recovery of some run. */
  ghost predicate Accounted(h: Hosted, id: string, binding: Digest<AdapterOperation>) {
    && binding.Sha? && binding.of.operationId == id && Granted(h.world.ledger, (id, binding))
    && ((id, binding) in h.world.journal || (id, binding) in h.undone)
  }

  ghost predicate TargetAccounted(h: Hosted, a: Synthetic) {
    forall id :: id in a.history ==> Accounted(h, id, a.history[id].binding)
  }

  predicate PlansRecovery(key: JournalKey) {
    key.1.Sha? && key.1.of.planDigest.Sha? && key.1.of.planDigest.of.OfRecovery?
  }

  ghost predicate AllAccounted(h: Hosted) {
    && (forall id :: id in h.host.completed ==> Accounted(h, id, h.host.completed[id].binding))
    && (forall slot :: slot in h.host.adapters ==> TargetAccounted(h, h.host.adapters[slot]))
    && (forall key :: key in h.undone ==> PlansRecovery(key))
  }

  /** Ledger, journal and recoveries only grow. */
  ghost predicate BooksGrow(h: Hosted, next: Hosted) {
    && (forall key :: Granted(h.world.ledger, key) ==> Granted(next.world.ledger, key))
    && h.world.journal.Keys <= next.world.journal.Keys
    && h.undone <= next.undone
  }

  lemma {:induction false} AccountedLater(h: Hosted, next: Hosted, id: string, binding: Digest<AdapterOperation>)
    requires Accounted(h, id, binding) && BooksGrow(h, next)
    ensures Accounted(next, id, binding)
  {
    if (id, binding) in h.undone {
      var k :| 0 <= k < |h.undone| && h.undone[k] == (id, binding);
      assert next.undone[k] == (id, binding);
    }
  }

  lemma {:induction false} TargetAccountedLater(h: Hosted, next: Hosted, a: Synthetic)
    requires TargetAccounted(h, a) && BooksGrow(h, next)
    ensures TargetAccounted(next, a)
  {
    forall id | id in a.history ensures Accounted(next, id, a.history[id].binding) {
      AccountedLater(h, next, id, a.history[id].binding);
    }
  }

  /** Books that grow, and a host that remembers nothing more. */
  lemma {:induction false} SameHostStaysAccounted(h: Hosted, next: Hosted)
    requires AllAccounted(h) && BooksGrow(h, next)
    requires next.host.completed.Keys <= h.host.completed.Keys
    requires forall id :: id in next.host.completed ==> next.host.completed[id] == h.host.completed[id]
    requires forall slot :: slot in next.host.adapters ==>
               next.host.adapters[slot] == FRESH
               || (slot in h.host.adapters && next.host.adapters[slot] == h.host.adapters[slot])
    requires forall key :: key in next.undone ==> PlansRecovery(key)
    ensures AllAccounted(next)
  {
    forall id | id in next.host.completed ensures Accounted(next, id, next.host.completed[id].binding) {
      AccountedLater(h, next, id, h.host.completed[id].binding);
    }
    forall slot | slot in next.host.adapters ensures TargetAccounted(next, next.host.adapters[slot]) {
      if next.host.adapters[slot] != FRESH {
        TargetAccountedLater(h, next, h.host.adapters[slot]);
      }
    }
  }

  lemma {:induction false} DispatchRemembersOne(a: Synthetic, o: AdapterOperation, now: nat)
    ensures
      var next := Dispatch(a, o, now).0;
      forall id :: id in next.history ==>
        (id in a.history && next.history[id].binding == a.history[id].binding)
        || (id == o.operationId && next.history[id].binding == Sha(o))
  {
  }

  lemma {:induction false} ExecuteRemembersOne(h: Host, o: AdapterOperation, now: nat)
    ensures
      var next := HostExecute(h, o, now).0;
      forall id :: id in next.completed ==>
        (id in h.completed && next.completed[id] == h.completed[id])
        || (id == o.operationId && next.completed[id].binding == Sha(o))
  {
  }

  /** A host that executed an operation on the books remembers only what is on the books. */
  lemma {:induction false} ServedStaysAccounted(h: Hosted, next: Hosted, o: AdapterOperation, now: nat)
    requires AllAccounted(h) && BooksGrow(h, next) && Accounted(next, o.operationId, Sha(o))
    requires next.host == HostExecute(h.host, o, now).0
    requires forall key :: key in next.undone ==> PlansRecovery(key)
    ensures AllAccounted(next)
  {
    ExecuteRemembersOne(h.host, o, now);
    HostDispatches(h.host, o, now);
    forall id | id in next.host.completed ensures Accounted(next, id, next.host.completed[id].binding) {
      if id in h.host.completed && next.host.completed[id] == h.host.completed[id] {
        AccountedLater(h, next, id, h.host.completed[id].binding);
      }
    }
    forall slot | slot in next.host.adapters ensures TargetAccounted(next, next.host.adapters[slot]) {
      TargetAccountedLater(h, next, h.host.adapters[slot]);
      if next.host.adapters[slot] != h.host.adapters[slot] {
        DispatchRemembersOne(h.host.adapters[slot], o, now);
      }
    }
  }

  lemma {:induction false} JournalKeysGrow(j: Journal, key: JournalKey, script: seq<Action>, budget: nat)
    ensures j.Keys <= Execution.Perform(j, key, script, budget).Keys
    decreases |script|
  {
    if script != [] && budget > 0 {
      JournalKeysGrow(Act(j, key, script[0]), key, script[1..], budget - 1);
    }
  }

  /** An attempt that reaches the host has journalled its start. */
  lemma {:induction false} StartedIsOnTheBooks(p: ControllerPolicy, w: World, e: Occurrence)
    requires e.OnExecute? && Reaches(Attempt(p, w.ledger, w.journal, e.order, e.now, e.replies).0, e.budget)
    ensures KeyOf(e.order.gate) in Happen(p, w, e).journal
  {
    var g := e.order.gate;
    var a := ResumeGate(p, w.ledger, g, e.now).value;
    var script := Attempt(p, w.ledger, w.journal, e.order, e.now, e.replies).0;
    ReachesTheHost(RowAt(w.journal, KeyOf(g)), a, g, e.replies, e.budget);
    assert script[0] == Write(Started, None, None);
    JournalKeysGrow(Act(w.journal, KeyOf(g), script[0]), KeyOf(g), script[1..], e.budget - 1);
  }

  lemma {:induction false} AttemptStaysAccounted(p: ControllerPolicy, h: Hosted, order: Order, now: nat, budget: nat)
    requires AllAccounted(h)
    ensures AllAccounted(Occur(p, h, Attempted(order, now, budget)))
  {
    var next, key := Occur(p, h, Attempted(order, now, budget)), KeyOf(order.gate);
    var script := ScriptOf(p, h, order, now);
    JournalKeysGrow(h.world.journal, key, script, budget);
    if Reaches(script, budget) {
      ResumedIsBound(p, h.world.ledger, order.gate, now);
      StartedIsOnTheBooks(p, h.world, SeenAttempt(h, order, now, budget));
      ServedStaysAccounted(h, next, order.gate.operation, now);
    } else {
      SameHostStaysAccounted(h, next);
    }
  }

  lemma {:induction false} RecoveryStaysAccounted(p: ControllerPolicy, h: Hosted, g: R.RecoveryGate, now: nat)
    requires AllAccounted(h)
    ensures AllAccounted(Occur(p, h, Recovering(g, now)))
  {
    var next := Occur(p, h, Recovering(g, now));
    if RecoveryReaches(p, h.world.ledger, g, now) {
      RecoveringNeedsGrant(p, h.world.ledger, g, now);
      RecoveryResumedExactlyWhen(p, h.world.ledger, g, now);
      var key := (g.operation.operationId, Sha(g.operation));
      assert next.undone[|h.undone|] == key;
      ServedStaysAccounted(h, next, g.operation, now);
    }
  }

  lemma {:induction false} OccurStaysAccounted(p: ControllerPolicy, h: Hosted, done: seq<Acceptance>, i: Incident)
    requires AllAccounted(h) && GapFree(h.world.ledger, done)
    ensures AllAccounted(Occur(p, h, i))
  {
    match i {
      case Asked(input) =>
        StepExtends(p, h.world.ledger, input);
        SameHostStaysAccounted(h, Occur(p, h, i));
      case Attempted(order, now, budget) => AttemptStaysAccounted(p, h, order, now, budget);
      case Recovering(g, now) => RecoveryStaysAccounted(p, h, g, now);
      case _ => SameHostStaysAccounted(h, Occur(p, h, i));
    }
  }

  lemma {:induction false} RunStaysAccounted(p: ControllerPolicy, h: Hosted, done: seq<Acceptance>,
        incidents: seq<Incident>)
    requires AllAccounted(h) && GapFree(h.world.ledger, done)
    ensures AllAccounted(RunHosted(p, h, incidents))
    decreases |incidents|
  {
    if incidents == [] {
    } else {
      var next := Occur(p, h, incidents[0]);
      var more := done;
      if incidents[0].Asked? {
        StepStaysGapFree(p, h.world.ledger, done, incidents[0].input);
        more := done + Accepting(h.world.ledger, next.world.ledger, incidents[0].input);
      }
      OccurStaysAccounted(p, h, done, incidents[0]);
      RunStaysAccounted(p, next, more, incidents[1..]);
    }
  }

  lemma {:induction false} AccountedIsJournalled(h: Hosted, g: ApplyGate, now: nat, binding: Digest<AdapterOperation>)
    requires AllAccounted(h) && HangsTogether(g, now) && Granted(h.world.ledger, KeyOf(g))
    requires Accounted(h, g.operation.operationId, binding)
    ensures RowOf(h.world.journal, g).Some?
  {
    assert binding == Sha(g.operation);
    assert !PlansRecovery(KeyOf(g));
  }

  /** What host or target remember of a gate's operation has a journal row: no row, then no memory. */
  lemma {:induction false} RememberedIsJournalled(h: Hosted, g: ApplyGate, now: nat)
    requires AllAccounted(h) && HangsTogether(g, now) && Granted(h.world.ledger, KeyOf(g))
    ensures g.operation.operationId in h.host.completed ==> RowOf(h.world.journal, g).Some?
    ensures Registered(h.host, g) && g.operation.operationId in Target(h.host, g.operation).history ==>
              RowOf(h.world.journal, g).Some?
  {
    var id := g.operation.operationId;
    if id in h.host.completed {
      AccountedIsJournalled(h, g, now, h.host.completed[id].binding);
    }
    if Registered(h.host, g) && id in Target(h.host, g.operation).history {
      assert TargetAccounted(h, Target(h.host, g.operation));
      AccountedIsJournalled(h, g, now, Target(h.host, g.operation).history[id].binding);
    }
  }

  // ---------------------------------------------------------------- a first attempt

  /** The host can apply this now: the operation in its bounds, its target registered, current and not told to fail. */
  predicate CanApply(h: Host, o: AdapterOperation, now: nat) {
    && WellPosed(o, now) && o.operationId !in h.cancelled && o.capability == "synthetic-v1"
    && (o.targetId, o.capability) in h.adapters && Target(h, o).generation == o.expectedGeneration
    && Plain(o.desired)
  }

  lemma {:induction false} FirstCallConvergesIff(h: Host, g: ApplyGate, now: nat, row: Option<Row>)
    requires HangsTogether(g, now) && g.operation.action == Apply && row.None?
    requires g.operation.operationId !in h.completed
    requires Registered(h, g) ==> g.operation.operationId !in Target(h, g.operation).history
    ensures
      var replies := RepliesOf(h, g.operation, now, row);
      var after := HostExecute(h, g.operation, now).0;
      && (replies.applied.Ok? && replies.applied.value.state == Converged && ReadBack(replies.verified, g) <==>
            CanApply(h, g.operation, now))
      && (CanApply(h, g.operation, now) ==>
          MovedTo(Target(h, g.operation), Target(after, g.operation), g.operation.desired))
  {
    ConvergedMeansHeld(h, g.operation, now);
    if CanApply(h, g.operation, now) {
      ApplyTakesEffect(h, g.operation, now);
    }
  }

  lemma {:induction false} FirstAttemptServes(p: ControllerPolicy, h: Hosted, order: Order, now: nat, budget: nat)
    requires LetThrough(p, h.world, SeenAttempt(h, order, now, budget)) && budget >= 2
    requires RowOf(h.world.journal, order.gate).None?
    ensures Occur(p, h, Attempted(order, now, budget)).host == HostExecute(h.host, order.gate.operation, now).0
  {
    var replies := Met(h.host, h.world.journal, order, now);
    var a := LetThroughIsScript(p, h.world, SeenAttempt(h, order, now, budget));
    ReachesTheHost(None, a, order.gate, replies, budget);
  }

  /**
   A first attempt at an apply, over every hosted run and not cut short: it ends converged exactly
   when the host can apply the operation now, and then its target holds the desired state, one
   generation later.
   */
  lemma {:induction false} FirstAttemptConvergesIff(p: ControllerPolicy, slots: seq<Slot>, incidents: seq<Incident>,
        order: Order, now: nat, budget: nat)
    returns (r: LifecycleReceipt)
    requires
      var h := RunHosted(p, Start(slots), incidents);
      && LetThrough(p, h.world, SeenAttempt(h, order, now, budget)) && budget >= 5
      && RowOf(h.world.journal, order.gate).None? && order.gate.operation.action == Apply
    ensures
      var h := RunHosted(p, Start(slots), incidents);
      var next, o := Occur(p, h, Attempted(order, now, budget)), order.gate.operation;
      && Told(p, h.world, SeenAttempt(h, order, now, budget)) == Some(Ok(r))
      && (r.state == ExecConverged <==> CanApply(h.host, o, now))
      && (r.state == ExecConverged ==>
            Registered(next.host, order.gate) && MovedTo(Target(h.host, o), Target(next.host, o), o.desired))
  {
    var h := RunHosted(p, Start(slots), incidents);
    var e := SeenAttempt(h, order, now, budget);
    StartIsSound(slots, []);
    RunStaysAccounted(p, Start(slots), [], incidents);
    RememberedIsJournalled(h, order.gate, now);
    r := FirstAttemptExplains(p, h.world, e);
    FirstCallConvergesIff(h.host, order.gate, now, RowOf(h.world.journal, order.gate));
    FirstAttemptServes(p, h, order, now, budget);
  }

}
