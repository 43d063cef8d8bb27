/**
 The same runs with the adapter host in the picture: its adapters are the targets, its memory of
 completed operations is lost whenever it restarts, and recoveries, which keep no journal, call it too.
 */
module HostedRuns {
  import opened Common
  import opened Gates
  import opened Controllers
  import opened Execution
  import opened ExecutionRuns
  import opened Adapters
  import R = Recovery

  /** The database, the host, what each target has been through, and every host call made by a recovery. */
  datatype Hosted = Hosted(world: World, host: Host, lives: map<Slot, Life>, undone: seq<JournalKey>)

  datatype Incident =
    | Asked(input: Input)
    | Attempted(order: Order, now: nat, budget: nat)
    | Recovering(gate: R.RecoveryGate, now: nat)
    | CancelledBy(operationId: string)
    | RestartedWith(survivors: set<Slot>)

  function ScriptOf(p: ControllerPolicy, h: Hosted, order: Order, now: nat): seq<Action> {
    Attempt(p, h.world.ledger, h.world.journal, order, now, Met(h.host, h.world.journal, order, now)).0
  }

  /** Whether a recovery gets as far as calling the host. */
  predicate RecoveryReaches(p: ControllerPolicy, l: Ledger, g: R.RecoveryGate, now: nat) {
    R.ResumeRecovery(p, l, g, now).Ok? && g.strategy == R.ExactReversal
  }

  /** The host, and the record of its targets' lives, after one execution. */
  function Serve(h: Hosted, o: AdapterOperation, now: nat): Hosted {
    var after := HostExecute(h.host, o, now).0;
    var slot := SlotOf(o);
    if slot in h.host.adapters && slot in after.adapters && slot in h.lives
       && after.adapters[slot].generation != h.host.adapters[slot].generation
    then
      var life := h.lives[slot];
      h.(host := after, lives := h.lives[slot := Life(life.states + [after.adapters[slot].state], life.causes + [o])])
    else h.(host := after)
  }

  /** A host that forgets what it completed and cancelled; targets it cannot reach again start afresh. */
  function Restart(h: Hosted, survivors: set<Slot>): Hosted {
    var adapters := map slot | slot in h.host.adapters :: if slot in survivors then h.host.adapters[slot] else FRESH;
    h.(host := Host(adapters, {}, map[]),
       lives := map slot | slot in h.lives :: if slot in survivors then h.lives[slot] else BIRTH)
  }

  function Occur(p: ControllerPolicy, h: Hosted, i: Incident): Hosted {
    match i
    case Asked(input) => h.(world := Happen(p, h.world, OnLedger(input)))
    case Attempted(order, now, budget) =>
      var world := Happen(p, h.world, OnExecute(order, now, Met(h.host, h.world.journal, order, now), budget));
      (if Reaches(ScriptOf(p, h, order, now), budget) then Serve(h, order.gate.operation, now) else h).(world := world)
    case Recovering(g, now) =>
      if RecoveryReaches(p, h.world.ledger, g, now)
      then Serve(h, g.operation, now).(undone := h.undone + [(g.operation.operationId, Sha(g.operation))])
      else h
    case CancelledBy(id) => h.(host := h.host.(cancelled := h.host.cancelled + {id}))
    case RestartedWith(survivors) => Restart(h, survivors)
  }

  function RunHosted(p: ControllerPolicy, h: Hosted, incidents: seq<Incident>): Hosted
    decreases |incidents|
  {
    if incidents == [] then h else RunHosted(p, Occur(p, h, incidents[0]), incidents[1..])
  }

  /** What the controller's database sees of an incident. */
  function SeenAs(h: Hosted, i: Incident): seq<Occurrence> {
    match i
    case Asked(input) => [OnLedger(input)]
    case Attempted(order, now, budget) => [OnExecute(order, now, Met(h.host, h.world.journal, order, now), budget)]
    case _ => []
  }

  function Seen(p: ControllerPolicy, h: Hosted, incidents: seq<Incident>): seq<Occurrence>
    decreases |incidents|
  {
    if incidents == [] then [] else SeenAs(h, incidents[0]) + Seen(p, Occur(p, h, incidents[0]), incidents[1..])
  }

  /** Every hosted run is a run of the controller: what holds whatever the targets answer holds here. */
  lemma {:induction false} HostedRunIsARun(p: ControllerPolicy, h: Hosted, incidents: seq<Incident>)
    ensures RunHosted(p, h, incidents).world == RunWorld(p, h.world, Seen(p, h, incidents))
    decreases |incidents|
  {
    if incidents == [] {
    } else {
      var next := Occur(p, h, incidents[0]);
      var first := SeenAs(h, incidents[0]);
      var rest := Seen(p, next, incidents[1..]);
      HostedRunIsARun(p, next, incidents[1..]);
      if first == [] {
        assert first + rest == rest;
      } else {
        assert (first + rest)[0] == first[0] && (first + rest)[1..] == rest;
      }
    }
  }

  /** What a recovery does to the host is what its procedure specifies. */
  lemma {:induction false} RecoveringIsRecover(p: ControllerPolicy, h: Hosted, g: R.RecoveryGate, now: nat)
    ensures Occur(p, h, Recovering(g, now)).host == R.Recover(p, h.world.ledger, h.host, g, now).0
  {
  }

  // ---------------------------------------------------------------- what every target has been through

  /** A change a target went through was made by an operation for that target which the ledger granted. */
  predicate GrantedCause(l: Ledger, slot: Slot, o: AdapterOperation) {
    SlotOf(o) == slot && Granted(l, (o.operationId, Sha(o)))
  }

  /** What the target remembers having applied was granted, for that target. */
  ghost predicate Remembers(l: Ledger, slot: Slot, a: Synthetic) {
    forall id :: id in a.history ==> a.history[id].binding.Sha? && GrantedCause(l, slot, a.history[id].binding.of)
  }

  ghost predicate Lived(l: Ledger, slot: Slot, a: Synthetic, life: Life) {
    Clocked(a, life) && Remembers(l, slot, a) && forall o :: o in life.causes ==> GrantedCause(l, slot, o)
  }

  ghost predicate AllLived(h: Hosted) {
    && h.lives.Keys == h.host.adapters.Keys
    && forall slot {:trigger h.lives[slot]} :: slot in h.lives ==>
       Lived(h.world.ledger, slot, h.host.adapters[slot], h.lives[slot])
  }

  lemma {:induction false} DispatchIsACall(a: Synthetic, o: AdapterOperation, now: nat)
    ensures
      var next := Dispatch(a, o, now).0;
      next == a || next == Adapters.Perform(a, CallApply(o, now)).0 || next == Adapters.Perform(a, CallRollback(o)).0
  {
  }

  lemma {:induction false} DispatchRemembers(l: Ledger, a: Synthetic, o: AdapterOperation, now: nat)
    requires Remembers(l, SlotOf(o), a) && Granted(l, (o.operationId, Sha(o)))
    ensures Remembers(l, SlotOf(o), Dispatch(a, o, now).0)
  {
    assert GrantedCause(l, SlotOf(o), o);
  }

  lemma {:induction false} DispatchIsLived(l: Ledger, a: Synthetic, life: Life, o: AdapterOperation, now: nat)
    requires Lived(l, SlotOf(o), a, life) && Granted(l, (o.operationId, Sha(o)))
    ensures
      var next := Dispatch(a, o, now).0;
      Lived(l, SlotOf(o), next,
            if next.generation != a.generation then Life(life.states + [next.state], life.causes + [o]) else life)
  {
    var next := Dispatch(a, o, now).0;
    DispatchIsACall(a, o, now);
    DispatchRemembers(l, a, o, now);
    PerformStaysClocked(a, CallApply(o, now), life);
    PerformStaysClocked(a, CallRollback(o), life);
    PerformTicks(a, CallApply(o, now));
    PerformTicks(a, CallRollback(o));
  }

  lemma {:induction false} HostDispatches(h: Host, o: AdapterOperation, now: nat)
    ensures
      var after, slot := HostExecute(h, o, now).0, SlotOf(o);
      && after.adapters.Keys == h.adapters.Keys
      && (forall other :: other in h.adapters && other != slot ==> after.adapters[other] == h.adapters[other])
      && (slot in h.adapters ==>
            after.adapters[slot] == h.adapters[slot] || after.adapters[slot] == Dispatch(h.adapters[slot], o, now).0)
  {
  }

  lemma {:induction false} ServedIsLived(h: Hosted, o: AdapterOperation, now: nat)
    requires SlotOf(o) in h.host.adapters && SlotOf(o) in h.lives && Granted(h.world.ledger, (o.operationId, Sha(o)))
    requires Lived(h.world.ledger, SlotOf(o), h.host.adapters[SlotOf(o)], h.lives[SlotOf(o)])
    ensures
      var next, slot := Serve(h, o, now), SlotOf(o);
      && slot in next.host.adapters && slot in next.lives
      && Lived(h.world.ledger, slot, next.host.adapters[slot], next.lives[slot])
  {
    HostDispatches(h.host, o, now);
    DispatchIsLived(h.world.ledger, h.host.adapters[SlotOf(o)], h.lives[SlotOf(o)], o, now);
  }

  lemma {:induction false} ServeLeavesTheRest(h: Hosted, o: AdapterOperation, now: nat)
    requires h.lives.Keys == h.host.adapters.Keys
    ensures
      var next := Serve(h, o, now);
      && next.world == h.world && next.lives.Keys == next.host.adapters.Keys == h.lives.Keys
      && forall other :: other in h.lives && other != SlotOf(o) ==>
           next.host.adapters[other] == h.host.adapters[other] && next.lives[other] == h.lives[other]
  {
    HostDispatches(h.host, o, now);
  }

  /** Lives that agree everywhere but at one slot, where the new one is right, are all right. */
  lemma {:induction false} OneSlotAside(h: Hosted, next: Hosted, slot: Slot)
    requires AllLived(h) && next.world == h.world && next.lives.Keys == next.host.adapters.Keys == h.lives.Keys
    requires forall other :: other in h.lives && other != slot ==>
               next.host.adapters[other] == h.host.adapters[other] && next.lives[other] == h.lives[other]
    requires slot in h.lives ==> Lived(h.world.ledger, slot, next.host.adapters[slot], next.lives[slot])
    ensures AllLived(next)
  {
    forall other | other in next.lives
      ensures Lived(next.world.ledger, other, next.host.adapters[other], next.lives[other])
    {
      assert Lived(h.world.ledger, other, h.host.adapters[other], h.lives[other]);
    }
  }

  lemma {:induction false} ServeStaysLived(h: Hosted, o: AdapterOperation, now: nat)
    requires AllLived(h) && Granted(h.world.ledger, (o.operationId, Sha(o)))
    ensures AllLived(Serve(h, o, now))
  {
    ServeLeavesTheRest(h, o, now);
    if SlotOf(o) in h.lives {
      assert Lived(h.world.ledger, SlotOf(o), h.host.adapters[SlotOf(o)], h.lives[SlotOf(o)]);
      ServedIsLived(h, o, now);
    }
    OneSlotAside(h, Serve(h, o, now), SlotOf(o));
  }

  lemma {:induction false} LedgerKeepsLived(p: ControllerPolicy, h: Hosted, done: seq<Acceptance>, input: Input)
    requires AllLived(h) && GapFree(h.world.ledger, done)
    ensures AllLived(Occur(p, h, Asked(input)))
  {
    var next := Occur(p, h, Asked(input));
    StepExtends(p, h.world.ledger, input);
    forall slot | slot in next.lives
      ensures Lived(next.world.ledger, slot, next.host.adapters[slot], next.lives[slot])
    {
      assert Lived(h.world.ledger, slot, h.host.adapters[slot], h.lives[slot]);
      assert forall o :: GrantedCause(h.world.ledger, slot, o) ==> GrantedCause(next.world.ledger, slot, o);
    }
  }

  lemma {:induction false} RestartStaysLived(h: Hosted, survivors: set<Slot>)
    requires AllLived(h)
    ensures AllLived(Restart(h, survivors))
  {
    FreshIsClocked();
    var next := Restart(h, survivors);
    forall slot | slot in next.lives
      ensures Lived(next.world.ledger, slot, next.host.adapters[slot], next.lives[slot])
    {
      assert Lived(h.world.ledger, slot, h.host.adapters[slot], h.lives[slot]);
    }
  }

  lemma {:induction false} ReachingNeedsGrant(p: ControllerPolicy, w: World, order: Order, now: nat, replies: Replies,
        budget: nat)
    requires Reaches(Attempt(p, w.ledger, w.journal, order, now, replies).0, budget)
    ensures Granted(w.ledger, (order.gate.operation.operationId, Sha(order.gate.operation)))
  {
    ResumedIsBound(p, w.ledger, order.gate, now);
  }

  lemma {:induction false} RecoveringNeedsGrant(p: ControllerPolicy, l: Ledger, g: R.RecoveryGate, now: nat)
    requires RecoveryReaches(p, l, g, now)
    ensures Granted(l, (g.operation.operationId, Sha(g.operation)))
  {
    assert R.OperationBinds(g);
  }

  lemma {:induction false} SameTargetsStayLived(h: Hosted, next: Hosted)
    requires AllLived(h)
    requires next.world.ledger == h.world.ledger && next.lives == h.lives && next.host.adapters == h.host.adapters
    ensures AllLived(next)
  {
    forall slot | slot in next.lives
      ensures Lived(next.world.ledger, slot, next.host.adapters[slot], next.lives[slot])
    {
      assert Lived(h.world.ledger, slot, h.host.adapters[slot], h.lives[slot]);
    }
  }

  lemma {:induction false} AttemptStaysLived(p: ControllerPolicy, h: Hosted, order: Order, now: nat, budget: nat)
    requires AllLived(h)
    ensures AllLived(Occur(p, h, Attempted(order, now, budget)))
  {
    var next := Occur(p, h, Attempted(order, now, budget));
    if Reaches(ScriptOf(p, h, order, now), budget) {
      ReachingNeedsGrant(p, h.world, order, now, Met(h.host, h.world.journal, order, now), budget);
      ServeStaysLived(h, order.gate.operation, now);
      SameTargetsStayLived(Serve(h, order.gate.operation, now), next);
    } else {
      SameTargetsStayLived(h, next);
    }
  }

  lemma {:induction false} OccurStaysLived(p: ControllerPolicy, h: Hosted, done: seq<Acceptance>, i: Incident)
    requires AllLived(h) && GapFree(h.world.ledger, done)
    ensures AllLived(Occur(p, h, i))
  {
    match i {
      case Asked(input) => LedgerKeepsLived(p, h, done, input);
      case Attempted(order, now, budget) => AttemptStaysLived(p, h, order, now, budget);
      case Recovering(g, now) =>
        if RecoveryReaches(p, h.world.ledger, g, now) {
          RecoveringNeedsGrant(p, h.world.ledger, g, now);
          ServeStaysLived(h, g.operation, now);
          SameTargetsStayLived(Serve(h, g.operation, now), Occur(p, h, i));
        }
      case CancelledBy(_) => SameTargetsStayLived(h, Occur(p, h, i));
      case RestartedWith(survivors) => RestartStaysLived(h, survivors);
    }
  }

  lemma {:induction false} RunStaysLived(p: ControllerPolicy, h: Hosted, done: seq<Acceptance>,
        incidents: seq<Incident>)
    returns (all: seq<Acceptance>)
    requires AllLived(h) && GapFree(h.world.ledger, done)
    ensures AllLived(RunHosted(p, h, incidents)) && GapFree(RunHosted(p, h, incidents).world.ledger, all)
    decreases |incidents|
  {
    if incidents == [] {
      all := done;
    } else {
      var next := Occur(p, h, incidents[0]);
      var more := done;
      if incidents[0].Asked? {
        StepStaysGapFree(p, h.world.ledger, done, incidents[0].input);
        more := done + Accepting(h.world.ledger, next.world.ledger, incidents[0].input);
      }
      OccurStaysLived(p, h, done, incidents[0]);
      all := RunStaysLived(p, next, more, incidents[1..]);
    }
  }

  // ---------------------------------------------------------------- counting effects over all targets

  /** All changes of all the listed targets, each in its current life. */
  function Total(adapters: map<Slot, Synthetic>, slots: seq<Slot>): nat {
    if slots == [] then 0
    else (if slots[0] in adapters then adapters[slots[0]].generation else 0) + Total(adapters, slots[1..])
  }

  function IdsOf(causes: seq<AdapterOperation>): set<string> {
    set o | o in causes :: o.operationId
  }

  predicate IdsDiffer(causes: seq<AdapterOperation>) {
    forall i, j :: 0 <= i < j < |causes| ==> causes[i].operationId != causes[j].operationId
  }

  lemma {:induction false} FirstIdIsNew(causes: seq<AdapterOperation>)
    requires causes != [] && IdsDiffer(causes)
    ensures IdsDiffer(causes[1..]) && causes[0].operationId !in IdsOf(causes[1..])
  {
    var rest := causes[1..];
    forall i, j | 0 <= i < j < |rest| ensures rest[i].operationId != rest[j].operationId {
      assert rest[i] == causes[i + 1] && rest[j] == causes[j + 1];
    }
    forall o | o in rest ensures o.operationId != causes[0].operationId {
      var k :| 0 <= k < |rest| && rest[k] == o;
      assert causes[k + 1] == o;
    }
  }

  lemma {:induction false} IdsWithFirst(causes: seq<AdapterOperation>)
    requires causes != []
    ensures IdsOf(causes) == IdsOf(causes[1..]) + {causes[0].operationId}
  {
    assert causes == [causes[0]] + causes[1..];
  }

  lemma {:induction false} DistinctIdsCount(causes: seq<AdapterOperation>)
    requires IdsDiffer(causes)
    ensures |IdsOf(causes)| == |causes|
  {
    if causes == [] {
    } else {
      FirstIdIsNew(causes);
      DistinctIdsCount(causes[1..]);
      IdsWithFirst(causes);
    }
  }

  /** Granted operations that differ have different ids. */
  lemma {:induction false} GrantsNameOne(l: Ledger, a: AdapterOperation, b: AdapterOperation)
    requires Granted(l, (a.operationId, Sha(a))) && Granted(l, (b.operationId, Sha(b))) && a != b
    ensures a.operationId != b.operationId
  {
  }

  lemma {:induction false} LifeCounts(l: Ledger, slot: Slot, a: Synthetic, life: Life)
    requires Lived(l, slot, a, life)
    ensures |IdsOf(life.causes)| == a.generation
  {
    forall i, j | 0 <= i < j < |life.causes| ensures life.causes[i].operationId != life.causes[j].operationId {
      assert life.causes[i] in life.causes && life.causes[j] in life.causes;
      GrantsNameOne(l, life.causes[i], life.causes[j]);
    }
    DistinctIdsCount(life.causes);
  }

  lemma {:induction false} LivesAreDisjoint(l: Ledger, s: Slot, a: Synthetic, x: Life, t: Slot, b: Synthetic, y: Life)
    requires Lived(l, s, a, x) && Lived(l, t, b, y) && s != t
    ensures IdsOf(x.causes) !! IdsOf(y.causes)
  {
    forall id | id in IdsOf(x.causes) ensures id !in IdsOf(y.causes) {
      var o :| o in x.causes && o.operationId == id;
      forall q | q in y.causes ensures q.operationId != id {
        GrantsNameOne(l, o, q);
      }
    }
  }

  /** The effects on the listed targets are as many different operations, all among `ids`. */
  lemma {:induction false} TotalWithin(h: Hosted, slots: seq<Slot>, ids: set<string>)
    requires AllLived(h) && NoRepeat(slots) && forall slot :: slot in slots ==> slot in h.lives
    requires forall slot :: slot in slots ==> IdsOf(h.lives[slot].causes) <= ids
    ensures Total(h.host.adapters, slots) <= |ids|
    decreases |slots|
  {
    if slots == [] {
    } else {
      var slot, rest := slots[0], slots[1..];
      var own := IdsOf(h.lives[slot].causes);
      LifeCounts(h.world.ledger, slot, h.host.adapters[slot], h.lives[slot]);
      forall other | other in rest ensures other in slots && IdsOf(h.lives[other].causes) <= ids - own {
        var k :| 0 <= k < |rest| && rest[k] == other;
        assert slots[k + 1] == other;
        LivesAreDisjoint(h.world.ledger, slot, h.host.adapters[slot], h.lives[slot], other, h.host.adapters[other],
                         h.lives[other]);
      }
      assert forall i, j :: 0 <= i < j < |rest| ==> rest[i] == slots[i + 1] && rest[j] == slots[j + 1];
      TotalWithin(h, rest, ids - own);
      assert own <= ids && |ids - own| == |ids| - |own|;
    }
  }

  lemma {:induction false} CausesAreGranted(h: Hosted, slot: Slot)
    requires AllLived(h) && slot in h.lives
    ensures IdsOf(h.lives[slot].causes) <= h.world.ledger.grants.Keys
  {
    assert Lived(h.world.ledger, slot, h.host.adapters[slot], h.lives[slot]);
    forall id | id in IdsOf(h.lives[slot].causes) ensures id in h.world.ledger.grants {
      var o :| o in h.lives[slot].causes && o.operationId == id;
      assert GrantedCause(h.world.ledger, slot, o);
    }
  }

  // ---------------------------------------------------------------- counting host calls

  lemma {:induction false} ReachedIsCounted(key: JournalKey, script: seq<Action>, budget: nat)
    requires Reaches(script, budget)
    ensures CallsIn(key, script, budget) != []
    decreases |script|
  {
    if !script[0].Call? {
      var k :| 0 <= k < budget && k < |script| && script[k].Call?;
      assert script[1..][k - 1].Call?;
      ReachedIsCounted(key, script[1..], budget - 1);
    }
  }

  /** Moving one target by one moves the total by one at most. */
  lemma {:induction false} TotalTicks(before: map<Slot, Synthetic>, after: map<Slot, Synthetic>, slots: seq<Slot>,
        slot: Slot)
    requires before.Keys == after.Keys && NoRepeat(slots)
    requires forall other :: other in before && other != slot ==> after[other] == before[other]
    requires slot in before ==> before[slot].generation <= after[slot].generation <= before[slot].generation + 1
    ensures Total(before, slots) <= Total(after, slots) <= Total(before, slots) + if slot in slots then 1 else 0
  {
    if slots == [] {
    } else {
      var rest := slots[1..];
      assert forall i, j :: 0 <= i < j < |rest| ==> rest[i] == slots[i + 1] && rest[j] == slots[j + 1];
      assert slots[0] !in rest;
      TotalTicks(before, after, rest, slot);
    }
  }

  lemma {:induction false} TotalFalls(before: map<Slot, Synthetic>, after: map<Slot, Synthetic>, slots: seq<Slot>)
    requires before.Keys == after.Keys
    requires forall slot :: slot in before ==> after[slot].generation <= before[slot].generation
    ensures Total(after, slots) <= Total(before, slots)
  {
    if slots == [] {
    } else {
      TotalFalls(before, after, slots[1..]);
    }
  }

  /** All targets together have not changed more often than the host was called. */
  ghost predicate WithinCalls(h: Hosted, slots: seq<Slot>) {
    Total(h.host.adapters, slots) <= |h.world.calls| + |h.undone|
  }

  lemma {:induction false} OccurStaysWithinCalls(p: ControllerPolicy, h: Hosted, i: Incident, slots: seq<Slot>)
    requires WithinCalls(h, slots) && NoRepeat(slots)
    ensures WithinCalls(Occur(p, h, i), slots)
  {
    match i {
      case Attempted(order, now, budget) =>
        if Reaches(ScriptOf(p, h, order, now), budget) {
          ReachedIsCounted(KeyOf(order.gate), ScriptOf(p, h, order, now), budget);
          HostTicksOnce(h.host, order.gate.operation, now);
          TotalTicks(h.host.adapters, Serve(h, order.gate.operation, now).host.adapters, slots,
                     SlotOf(order.gate.operation));
        }
      case Recovering(g, now) =>
        if RecoveryReaches(p, h.world.ledger, g, now) {
          HostTicksOnce(h.host, g.operation, now);
          TotalTicks(h.host.adapters, Serve(h, g.operation, now).host.adapters, slots, SlotOf(g.operation));
        }
      case RestartedWith(survivors) =>
        TotalFalls(h.host.adapters, Restart(h, survivors).host.adapters, slots);
      case _ =>
    }
  }

  lemma {:induction false} RunStaysWithinCalls(p: ControllerPolicy, h: Hosted, incidents: seq<Incident>,
        slots: seq<Slot>)
    requires WithinCalls(h, slots) && NoRepeat(slots)
    ensures WithinCalls(RunHosted(p, h, incidents), slots)
    decreases |incidents|
  {
    if incidents == [] {
    } else {
      OccurStaysWithinCalls(p, h, incidents[0], slots);
      RunStaysWithinCalls(p, Occur(p, h, incidents[0]), incidents[1..], slots);
    }
  }

  // ---------------------------------------------------------------- end to end

  /** An empty database, and a host with fresh targets in the given slots. */
  function Start(slots: seq<Slot>): Hosted {
    Hosted(DAWN, Host(map slot | slot in slots :: FRESH, {}, map[]), map slot | slot in slots :: BIRTH, [])
  }

  lemma {:induction false} StartIsSound(slots: seq<Slot>, some: seq<Slot>)
    ensures AllLived(Start(slots)) && Total(Start(slots).host.adapters, some) == 0
    decreases |some|
  {
    FreshIsClocked();
    if some == [] {
    } else {
      StartIsSound(slots, some[1..]);
    }
  }

  lemma {:induction false} ServeKeepsSlots(h: Hosted, o: AdapterOperation, now: nat)
    requires h.lives.Keys == h.host.adapters.Keys
    ensures Serve(h, o, now).lives.Keys == h.lives.Keys == Serve(h, o, now).host.adapters.Keys
  {
    HostDispatches(h.host, o, now);
  }

  lemma {:induction false} OccurKeepsSlots(p: ControllerPolicy, h: Hosted, i: Incident)
    requires h.lives.Keys == h.host.adapters.Keys
    ensures Occur(p, h, i).lives.Keys == h.lives.Keys == Occur(p, h, i).host.adapters.Keys
  {
    match i {
      case Attempted(order, now, _) => ServeKeepsSlots(h, order.gate.operation, now);
      case Recovering(g, now) => ServeKeepsSlots(h, g.operation, now);
      case _ =>
    }
  }

  lemma {:induction false} SlotsStay(p: ControllerPolicy, h: Hosted, incidents: seq<Incident>)
    requires h.lives.Keys == h.host.adapters.Keys
    ensures RunHosted(p, h, incidents).lives.Keys == h.lives.Keys
    decreases |incidents|
  {
    if incidents == [] {
    } else {
      OccurKeepsSlots(p, h, incidents[0]);
      SlotsStay(p, Occur(p, h, incidents[0]), incidents[1..]);
    }
  }

  /**
   End to end, over crashes, host restarts that lose all memory, and recoveries executed any number
   of times: the applies call the host at most once per accepted generation; all targets together
   change no more often than the host is called; and all their changes together are made by as many
   different granted operations, so they never outnumber the grants or the accepted generations.
   */
  lemma {:induction false} EveryEffectWasAccepted(p: ControllerPolicy, slots: seq<Slot>, incidents: seq<Incident>)
    requires NoRepeat(slots)
    ensures
      var h := RunHosted(p, Start(slots), incidents);
      && NoRepeat(h.world.calls) && |h.world.calls| <= h.world.ledger.generation
      && Total(h.host.adapters, slots) <= |h.world.calls| + |h.undone|
      && Total(h.host.adapters, slots) <= |h.world.ledger.grants| <= h.world.ledger.generation
  {
    var h := RunHosted(p, Start(slots), incidents);
    HostedRunIsARun(p, Start(slots), incidents);
    ExecutedAtMostOnce(p, Seen(p, Start(slots), incidents));
    StartIsSound(slots, slots);
    RunStaysWithinCalls(p, Start(slots), incidents, slots);
    var done := RunStaysLived(p, Start(slots), [], incidents);
    SlotsStay(p, Start(slots), incidents);
    forall slot | slot in slots ensures slot in h.lives && IdsOf(h.lives[slot].causes) <= h.world.ledger.grants.Keys {
      CausesAreGranted(h, slot);
    }
    TotalWithin(h, slots, h.world.ledger.grants.Keys);
  }

  // ---------------------------------------------------------------- what a recovery restores

  lemma {:induction false} OneGrantEach(l: Ledger, a: AdapterOperation, b: AdapterOperation)
    requires Granted(l, (a.operationId, Sha(a))) && Granted(l, (b.operationId, Sha(b)))
    requires a.operationId == b.operationId
    ensures a == b
  {
  }

  lemma {:induction false} MovingRollback(a: Synthetic, back: AdapterOperation, now: nat)
    requires back.action == Rollback && Dispatch(a, back, now).0.generation != a.generation
    ensures
      var next := Dispatch(a, back, now).0;
      && back.expectedGeneration == a.generation && next.generation == a.generation + 1
      && back.related.Some? && back.related.value in a.history && next.state == a.history[back.related.value].prior
  {
  }

  /** The recovery of `g` changes its target. */
  predicate Moves(p: ControllerPolicy, h: Hosted, g: R.RecoveryGate, now: nat) {
    var slot, next := SlotOf(g.operation), Occur(p, h, Recovering(g, now));
    && RecoveryReaches(p, h.world.ledger, g, now) && slot in h.host.adapters && slot in next.host.adapters
    && next.host.adapters[slot].generation != h.host.adapters[slot].generation
  }

  lemma {:induction false} MovesByDispatch(p: ControllerPolicy, h: Hosted, g: R.RecoveryGate, now: nat)
    requires Moves(p, h, g, now)
    ensures
      var a := h.host.adapters[SlotOf(g.operation)];
      && Occur(p, h, Recovering(g, now)).host.adapters[SlotOf(g.operation)] == Dispatch(a, g.operation, now).0
      && Dispatch(a, g.operation, now).0.generation != a.generation
  {
    HostDispatches(h.host, g.operation, now);
  }

  lemma {:induction false} MovingRecovery(p: ControllerPolicy, h: Hosted, g: R.RecoveryGate, now: nat)
    requires Moves(p, h, g, now)
    ensures
      var slot, next := SlotOf(g.operation), Occur(p, h, Recovering(g, now));
      var a, id := h.host.adapters[slot], g.originalGate.operation.operationId;
      && g.originalExecution.adapter.Some? && g.originalExecution.adapter.value.generation == a.generation
      && slot == SlotOf(g.originalGate.operation)
      && id in a.history && next.host.adapters[slot].state == a.history[id].prior
  {
    assert R.OperationBinds(g) && R.OutcomeBinds(g);
    MovesByDispatch(p, h, g, now);
    MovingRollback(h.host.adapters[SlotOf(g.operation)], g.operation, now);
  }

  /** The target of `o` holds again what it held at the generation `o` was planned from. */
  ghost predicate HoldsAgain(h: Hosted, next: Hosted, o: AdapterOperation) {
    var slot := SlotOf(o);
    && slot in h.lives && slot in next.host.adapters && o.expectedGeneration < |h.lives[slot].states|
    && next.host.adapters[slot].state == h.lives[slot].states[o.expectedGeneration]
  }

  /** The gate's receipt says that the original operation reached the generation after its own. */
  predicate ReceiptFollows(g: R.RecoveryGate) {
    g.originalExecution.adapter.Some?
    && g.originalExecution.adapter.value.generation == g.originalGate.operation.expectedGeneration + 1
  }

  lemma {:induction false} MovedIsRestored(p: ControllerPolicy, h: Hosted, g: R.RecoveryGate, now: nat)
    requires AllLived(h) && Moves(p, h, g, now)
    requires Granted(h.world.ledger, (g.originalGate.operation.operationId, Sha(g.originalGate.operation)))
    ensures HoldsAgain(h, Occur(p, h, Recovering(g, now)), g.originalGate.operation)
    ensures ReceiptFollows(g) <==>
            |h.lives[SlotOf(g.originalGate.operation)].causes| == g.originalGate.operation.expectedGeneration + 1
  {
    var o := g.originalGate.operation;
    MovingRecovery(p, h, g, now);
    var a := h.host.adapters[SlotOf(o)];
    assert Lived(h.world.ledger, SlotOf(o), a, h.lives[SlotOf(o)]);
    assert TrueChange(o.operationId, a.history[o.operationId], h.lives[SlotOf(o)]);
    OneGrantEach(h.world.ledger, a.history[o.operationId].binding.of, o);
  }

  /**
   What a recovery restores, over every hosted run and with nothing taken on trust from its gate but
   that the original operation was granted: when it changes its target, the target holds again the
   state it had at the generation the original operation was planned from. It takes back exactly one
   change if and only if the gate's receipt says that the original reached the next generation.
   */
  lemma {:induction false} RecoveryRestores(p: ControllerPolicy, slots: seq<Slot>, incidents: seq<Incident>,
        g: R.RecoveryGate, now: nat)
    requires Moves(p, RunHosted(p, Start(slots), incidents), g, now)
    requires
      var o, l := g.originalGate.operation, RunHosted(p, Start(slots), incidents).world.ledger;
      Granted(l, (o.operationId, Sha(o)))
    ensures
      var h, o := RunHosted(p, Start(slots), incidents), g.originalGate.operation;
      && HoldsAgain(h, Occur(p, h, Recovering(g, now)), o)
      && (ReceiptFollows(g) <==> |h.lives[SlotOf(o)].causes| == o.expectedGeneration + 1)
  {
    StartIsSound(slots, []);
    var done := RunStaysLived(p, Start(slots), [], incidents);
    MovedIsRestored(p, RunHosted(p, Start(slots), incidents), g, now);
  }
}
