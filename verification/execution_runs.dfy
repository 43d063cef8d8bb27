/**
 Runs of the controller with its journal: any mix of requests, authorizations, outcome reports and
 execution attempts, each attempt cut short anywhere, against targets that answer anything at all.
 */
module ExecutionRuns {
  import opened Common
  import opened Gates
  import opened Controllers
  import opened Execution
  import Adapters

  /** The database, and every host call ever made. */
  datatype World = World(ledger: Ledger, journal: Journal, calls: seq<JournalKey>)

  const DAWN := World(EMPTY, map[], [])

  datatype Occurrence =
    | OnLedger(input: Input)
    | OnExecute(order: Order, now: nat, replies: Replies, budget: nat)

  function Happen(p: ControllerPolicy, w: World, e: Occurrence): World {
    match e
    case OnLedger(input) => w.(ledger := Step(p, w.ledger, input).0)
    case OnExecute(order, now, replies, budget) =>
      var script := Attempt(p, w.ledger, w.journal, order, now, replies).0;
      var key := KeyOf(order.gate);
      World(w.ledger, Perform(w.journal, key, script, budget), w.calls + CallsIn(key, script, budget))
  }

  /** What the caller of an attempt is told; nothing, if the attempt was cut short. */
  function Told(p: ControllerPolicy, w: World, e: Occurrence): Option<Ending>
    requires e.OnExecute?
  {
    var (script, ending) := Attempt(p, w.ledger, w.journal, e.order, e.now, e.replies);
    Answered(script, ending, e.budget)
  }

  function RunWorld(p: ControllerPolicy, w: World, events: seq<Occurrence>): World
    decreases |events|
  {
    if events == [] then w else RunWorld(p, Happen(p, w, events[0]), events[1..])
  }

  // ---------------------------------------------------------------- one journal row

  /**
   A lifecycle receipt is about its own row, and says Converged only of an apply the row reports and
   a read that agrees.
   */
  predicate Truthful(key: JournalKey, adapter: Option<AdapterReceipt>, r: LifecycleReceipt)
    requires key.1.Sha?
  {
    && r.operationId == key.0 && r.authorization.requestId == key.0 && r.authorization.operationDigest == key.1
    && r.adapter == adapter
    && (r.state.ExecConverged? ==>
          && adapter.Some? && adapter.value.state == Converged
          && r.verification.Some? && r.verification.value.state == Converged
          && r.verification.value.resultDigest == key.1.of.desiredDigest)
  }

  predicate RowOk(key: JournalKey, row: Row) {
    && key.1.Sha?
    && match row.phase
       case Started => row.adapter.None? && row.lifecycle.None?
       case AdapterReported => row.adapter.Some? && row.lifecycle.None?
       case _ => row.lifecycle.Some? && Truthful(key, row.adapter, row.lifecycle.value)
  }

  function Rank(phase: Phase): nat {
    match phase
    case Started => 0
    case AdapterReported => 1
    case PhaseVerified => 2
    case Complete => 3
  }

  /** A row only moves forward, and keeps every receipt it holds. */
  predicate RowLater(row: Row, later: Row) {
    && Rank(row.phase) <= Rank(later.phase)
    && (row.adapter.Some? ==> later.adapter == row.adapter)
    && (row.lifecycle.Some? ==> later.lifecycle == row.lifecycle)
  }

  predicate Permitted(key: JournalKey, row: Option<Row>, called: bool, a: Action)
    requires key.1.Sha?
  {
    match a
    case Call => row == Some(Row(Started, None, None)) && !called
    case Write(phase, adapter, lifecycle) =>
      match phase
      case Started => row.None? && !called && adapter.None? && lifecycle.None?
      case AdapterReported => row == Some(Row(Started, None, None)) && adapter.Some? && lifecycle.None?
      case _ =>
        && row.Some? && Rank(row.value.phase) < Rank(phase) && adapter.None? && lifecycle.Some?
        && (row.value.lifecycle.None? || row.value.lifecycle == lifecycle)
        && Truthful(key, row.value.adapter, lifecycle.value)
  }

  function NextRow(row: Option<Row>, a: Action): Option<Row> {
    match a
    case Call => row
    case Write(phase, adapter, lifecycle) =>
      if row.None? then Some(Row(phase, adapter, lifecycle))
      else Some(Row(phase, Coalesce(adapter, row.value.adapter), Coalesce(lifecycle, row.value.lifecycle)))
  }

  ghost predicate Legal(key: JournalKey, row: Option<Row>, called: bool, script: seq<Action>)
    requires key.1.Sha?
    decreases |script|
  {
    script == []
    || (Permitted(key, row, called, script[0])
        && Legal(key, NextRow(row, script[0]), called || script[0].Call?, script[1..]))
  }

  function FoldRow(row: Option<Row>, script: seq<Action>, budget: nat): Option<Row>
    decreases |script|
  {
    if script == [] || budget == 0 then row else FoldRow(NextRow(row, script[0]), script[1..], budget - 1)
  }

  lemma {:induction false} PerformTouchesOneRow(j: Journal, key: JournalKey, script: seq<Action>, budget: nat)
    ensures RowAt(Perform(j, key, script, budget), key) == FoldRow(RowAt(j, key), script, budget)
    ensures forall other :: other != key ==> RowAt(Perform(j, key, script, budget), other) == RowAt(j, other)
    decreases |script|
  {
    if script != [] && budget > 0 {
      PerformTouchesOneRow(Act(j, key, script[0]), key, script[1..], budget - 1);
    }
  }

  lemma {:induction false} PermittedStep(key: JournalKey, row: Option<Row>, called: bool, a: Action)
    requires key.1.Sha? && Permitted(key, row, called, a)
    requires row.Some? ==> RowOk(key, row.value)
    ensures NextRow(row, a).Some? && RowOk(key, NextRow(row, a).value)
    ensures row.Some? ==> RowLater(row.value, NextRow(row, a).value)
  {
  }

  /** However far a legal script gets, the row stays right, moves forward, and sees one call at most. */
  lemma {:induction false} LegalPrefix(key: JournalKey, row: Option<Row>, called: bool, script: seq<Action>,
        budget: nat)
    requires key.1.Sha? && Legal(key, row, called, script)
    requires row.Some? ==> RowOk(key, row.value)
    ensures
      var reached, calls := FoldRow(row, script, budget), CallsIn(key, script, budget);
      && (reached.Some? ==> RowOk(key, reached.value))
      && (row.Some? ==> reached.Some? && RowLater(row.value, reached.value))
      && (calls == [] || (!called && calls == [key] && reached.Some?))
    decreases |script|
  {
    if script != [] && budget > 0 {
      PermittedStep(key, row, called, script[0]);
      LegalPrefix(key, NextRow(row, script[0]), called || script[0].Call?, script[1..], budget - 1);
    }
  }

  lemma {:induction false} LegalFirst(key: JournalKey, row: Option<Row>, called: bool, a: Action, rest: seq<Action>)
    requires key.1.Sha? && Permitted(key, row, called, a)
    requires Legal(key, NextRow(row, a), called || a.Call?, rest)
    ensures Legal(key, row, called, [a] + rest)
  {
    assert ([a] + rest)[1..] == rest;
  }

  lemma {:induction false} FinishIsLegal(key: JournalKey, row: Row, called: bool, r: LifecycleReceipt)
    requires key.1.Sha? && Truthful(key, row.adapter, r)
    requires row.lifecycle.None? && Rank(row.phase) < 2
    ensures Legal(key, Some(row), called, Finish(r))
  {
    var verified := Row(PhaseVerified, row.adapter, Some(r));
    assert Legal(key, Some(Row(Complete, row.adapter, Some(r))), called, []);
    LegalFirst(key, Some(verified), called, Write(Complete, None, Some(r)), []);
    LegalFirst(key, Some(row), called, Write(PhaseVerified, None, Some(r)), [Write(Complete, None, Some(r))]);
  }

  lemma {:induction false} OpeningIsLegal(key: JournalKey, applied: Adapters.Outcome, r: LifecycleReceipt)
    requires key.1.Sha? && Truthful(key, Kept(applied), r)
    ensures Legal(key, None, false, Opening(applied, r))
  {
    var started := Row(Started, None, None);
    var rest := AdapterReport(applied) + Finish(r);
    if applied.Ok? {
      FinishIsLegal(key, Row(AdapterReported, Some(applied.value), None), true, r);
      LegalFirst(key, Some(started), true, Write(AdapterReported, Some(applied.value), None), Finish(r));
    } else {
      FinishIsLegal(key, started, true, r);
      assert rest == Finish(r);
    }
    LegalFirst(key, Some(started), false, Call, rest);
    LegalFirst(key, None, false, Write(Started, None, None), [Call] + rest);
    assert Opening(applied, r) == [Write(Started, None, None)] + ([Call] + rest);
  }

  lemma {:induction false} LifecycleIsTruthful(a: AuthorizationReceipt, g: ApplyGate, applied: Adapters.Outcome,
        verified: Adapters.Outcome)
    requires a.requestId == g.operation.operationId == g.request.body.requestId && a.operationDigest == Sha(g.operation)
    ensures Truthful(KeyOf(g), Kept(applied), Lifecycle(a, g, applied, verified))
    ensures Truthful(KeyOf(g), None, Restarted(a, g, verified))
  {
  }

  /** Whatever phase an attempt finds, its script only makes legal moves. */
  lemma {:induction false} ScriptIsLegal(row: Option<Row>, called: bool, a: AuthorizationReceipt, g: ApplyGate,
        replies: Replies)
    requires a.requestId == g.operation.operationId == g.request.body.requestId && a.operationDigest == Sha(g.operation)
    requires if row.Some? then RowOk(KeyOf(g), row.value) else !called
    ensures Legal(KeyOf(g), row, called, Script(row, a, g, replies).0)
  {
    var key := KeyOf(g);
    LifecycleIsTruthful(a, g, replies.applied, replies.verified);
    if row.None? {
      OpeningIsLegal(key, replies.applied, Lifecycle(a, g, replies.applied, replies.verified));
    } else {
      match row.value.phase {
        case PhaseVerified =>
          assert Legal(key, Some(Row(Complete, row.value.adapter, row.value.lifecycle)), called, []);
          LegalFirst(key, row, called, Write(Complete, None, row.value.lifecycle), []);
        case Complete =>
        case Started =>
          var r := Restarted(a, g, replies.verified);
          assert Legal(key, Some(Row(Complete, None, Some(r))), called, []);
          LegalFirst(key, row, called, Write(Complete, None, Some(r)), []);
        case AdapterReported =>
          LifecycleIsTruthful(a, g, Ok(row.value.adapter.value), replies.verified);
          FinishIsLegal(key, row.value, called, Lifecycle(a, g, Ok(row.value.adapter.value), replies.verified));
      }
    }
  }

  // ---------------------------------------------------------------- the whole world

  predicate Granted(l: Ledger, key: JournalKey) {
    key.0 in l.grants && l.grants[key.0].binding.operation == key.1
  }

  ghost predicate Sound(w: World) {
    && (forall key :: key in w.journal ==> RowOk(key, w.journal[key]))
    && (forall key :: key in w.journal ==> Granted(w.ledger, key))
    && (forall key :: key in w.calls ==> key in w.journal)
    && NoRepeat(w.calls)
  }

  ghost predicate JournalLater(j: Journal, later: Journal) {
    forall key :: key in j ==> key in later && RowLater(j[key], later[key])
  }

  lemma {:induction false} ResumedIsBound(p: ControllerPolicy, l: Ledger, g: ApplyGate, now: nat)
    requires ResumeGate(p, l, g, now).Ok?
    ensures
      var a := ResumeGate(p, l, g, now).value;
      && a.requestId == g.operation.operationId == g.request.body.requestId && a.operationDigest == Sha(g.operation)
      && Granted(l, KeyOf(g))
  {
  }

  lemma {:induction false} AttemptIsLegal(p: ControllerPolicy, w: World, e: Occurrence)
    requires Sound(w) && e.OnExecute?
    ensures
      var script := Attempt(p, w.ledger, w.journal, e.order, e.now, e.replies).0;
      var key := KeyOf(e.order.gate);
      Legal(key, RowAt(w.journal, key), key in w.calls, script) && (script != [] ==> Granted(w.ledger, key))
  {
    var g := e.order.gate;
    var resumed := ResumeGate(p, w.ledger, g, e.now);
    if e.order.schemaVersion == EXECUTION_SCHEMA && resumed.Ok? {
      ResumedIsBound(p, w.ledger, g, e.now);
      ScriptIsLegal(RowAt(w.journal, KeyOf(g)), KeyOf(g) in w.calls, resumed.value, g, e.replies);
    }
  }

  lemma {:induction false} ExecuteStaysSound(p: ControllerPolicy, w: World, e: Occurrence)
    requires Sound(w) && e.OnExecute?
    ensures Sound(Happen(p, w, e)) && JournalLater(w.journal, Happen(p, w, e).journal)
  {
    var key := KeyOf(e.order.gate);
    var script := Attempt(p, w.ledger, w.journal, e.order, e.now, e.replies).0;
    var next := Happen(p, w, e);
    AttemptIsLegal(p, w, e);
    PerformTouchesOneRow(w.journal, key, script, e.budget);
    LegalPrefix(key, RowAt(w.journal, key), key in w.calls, script, e.budget);
    assert script == [] ==> next == w;
    forall k | k in next.journal ensures RowOk(k, next.journal[k]) && Granted(next.ledger, k) {
      assert RowAt(next.journal, k) == Some(next.journal[k]);
      assert k != key ==> RowAt(w.journal, k) == Some(next.journal[k]);
    }
    forall k | k in w.journal ensures k in next.journal && RowLater(w.journal[k], next.journal[k]) {
      assert RowAt(w.journal, k) == Some(w.journal[k]);
      assert k != key ==> RowAt(next.journal, k) == Some(w.journal[k]);
    }
  }

  function AfterwardsDone(p: ControllerPolicy, w: World, done: seq<Acceptance>, e: Occurrence): seq<Acceptance> {
    match e
    case OnLedger(input) => done + Accepting(w.ledger, Step(p, w.ledger, input).0, input)
    case OnExecute(_, _, _, _) => done
  }

  lemma {:induction false} HappenStaysSound(p: ControllerPolicy, w: World, done: seq<Acceptance>, e: Occurrence)
    requires Sound(w) && GapFree(w.ledger, done)
    ensures Sound(Happen(p, w, e)) && JournalLater(w.journal, Happen(p, w, e).journal)
    ensures GapFree(Happen(p, w, e).ledger, AfterwardsDone(p, w, done, e))
  {
    match e {
      case OnLedger(input) =>
        StepStaysGapFree(p, w.ledger, done, input);
        StepExtends(p, w.ledger, input);
      case OnExecute(_, _, _, _) =>
        ExecuteStaysSound(p, w, e);
    }
  }

  lemma {:induction false} JournalLaterIsTransitive(a: Journal, b: Journal, c: Journal)
    requires JournalLater(a, b) && JournalLater(b, c)
    ensures JournalLater(a, c)
  {
  }

  lemma {:induction false} WritesMakeNoCall(key: JournalKey, script: seq<Action>, budget: nat)
    requires forall a :: a in script ==> a.Write?
    ensures CallsIn(key, script, budget) == []
    decreases |script|
  {
    if script != [] && budget > 0 {
      assert script[0] in script;
      WritesMakeNoCall(key, script[1..], budget - 1);
    }
  }

  lemma {:induction false} CallsFirst(key: JournalKey, a: Action, rest: seq<Action>, budget: nat)
    requires budget > 0
    ensures CallsIn(key, [a] + rest, budget) == (if a.Call? then [key] else []) + CallsIn(key, rest, budget - 1)
  {
    assert ([a] + rest)[1..] == rest;
  }

  lemma {:induction false} OneCallAtMost(
    key: JournalKey, row: Option<Row>, a: AuthorizationReceipt, g: ApplyGate, replies: Replies, budget: nat)
    ensures
      var calls := CallsIn(key, Script(row, a, g, replies).0, budget);
      calls == [] || calls == [key]
  {
    if CallsHost(row) {
      var rest := AdapterReport(replies.applied) + Finish(Lifecycle(a, g, replies.applied, replies.verified));
      assert Script(row, a, g, replies).0 == [Write(Started, None, None)] + ([Call] + rest);
      if budget >= 1 {
        CallsFirst(key, Write(Started, None, None), [Call] + rest, budget);
      }
      if budget >= 2 {
        CallsFirst(key, Call, rest, budget - 1);
        WritesMakeNoCall(key, rest, budget - 2);
      }
    } else {
      WritesMakeNoCall(key, Script(row, a, g, replies).0, budget);
    }
  }

  /**
   A host call is only made for a gate that is valid and unexpired at that moment, whose request
   and authorization the controller's key signed, and which the ledger granted for this very
   operation under this very authorization.
   */
  lemma {:induction false} CallNeedsAuthority(p: ControllerPolicy, w: World, e: Occurrence)
    requires e.OnExecute? && Happen(p, w, e).calls != w.calls
    ensures
      var g := e.order.gate;
      && ApplyGateFault(g, e.now).None? && SignedBy(g.request, p.key) && SignedBy(g.authorization, p.key)
      && g.request.body.requestId in w.ledger.grants
      && w.ledger.grants[g.request.body.requestId].binding == Binding(Sha(g.operation), Sha(g.authorization))
      && Happen(p, w, e).calls == w.calls + [(g.operation.operationId, Sha(g.operation))]
  {
    var g := e.order.gate;
    var script := Attempt(p, w.ledger, w.journal, e.order, e.now, e.replies).0;
    assert w.calls + [] == w.calls;
    assert script != [];
    ResumedIsBound(p, w.ledger, g, e.now);
    OneCallAtMost(KeyOf(g), RowAt(w.journal, KeyOf(g)), ResumeGate(p, w.ledger, g, e.now).value, g, e.replies,
                  e.budget);
  }

  /** Over every run: no phase goes backwards, no stored receipt changes, and the world stays sound. */
  lemma {:induction false} RunStaysSound(p: ControllerPolicy, w: World, done: seq<Acceptance>, events: seq<Occurrence>)
    returns (all: seq<Acceptance>)
    requires Sound(w) && GapFree(w.ledger, done)
    ensures Sound(RunWorld(p, w, events)) && GapFree(RunWorld(p, w, events).ledger, all)
    ensures JournalLater(w.journal, RunWorld(p, w, events).journal)
    decreases |events|
  {
    if events == [] {
      all := done;
    } else {
      var next := Happen(p, w, events[0]);
      HappenStaysSound(p, w, done, events[0]);
      all := RunStaysSound(p, next, AfterwardsDone(p, w, done, events[0]), events[1..]);
      JournalLaterIsTransitive(w.journal, next.journal, RunWorld(p, next, events[1..]).journal);
    }
  }

  /** From any reachable state on, journalled phases never go back and stored receipts never change. */
  lemma {:induction false} PhasesOnlyAdvance(p: ControllerPolicy, before: seq<Occurrence>, events: seq<Occurrence>)
    ensures
      var w := RunWorld(p, DAWN, before);
      JournalLater(w.journal, RunWorld(p, w, events).journal)
  {
    var done := RunStaysSound(p, DAWN, [], before);
    var all := RunStaysSound(p, RunWorld(p, DAWN, before), done, events);
  }

  // ---------------------------------------------------------------- at most once

  lemma {:induction false} RequestsBoundKeys(keys: set<JournalKey>, requests: set<string>)
    requires forall k :: k in keys ==> k.0 in requests
    requires forall a, b :: a in keys && b in keys && a.0 == b.0 ==> a == b
    ensures |keys| <= |requests|
    decreases keys
  {
    if keys != {} {
      var k :| k in keys;
      RequestsBoundKeys(keys - {k}, requests - {k.0});
    }
  }

  lemma {:induction false} DistinctIn<T>(s: seq<T>, bound: set<T>)
    requires NoRepeat(s) && forall x :: x in s ==> x in bound
    ensures |s| <= |bound|
  {
    if s == [] {
    } else {
      assert forall x :: x in s[1..] ==> x in bound - {s[0]};
      DistinctIn(s[1..], bound - {s[0]});
    }
  }

  /**
   Over every run, with crashes anywhere and targets that answer anything: the host is called at
   most once for each request and operation, only for granted ones, and the calls ever made never
   outnumber the journal rows, the grants, or the accepted generations.
   */
  lemma {:induction false} ExecutedAtMostOnce(p: ControllerPolicy, events: seq<Occurrence>)
    ensures
      var w := RunWorld(p, DAWN, events);
      && NoRepeat(w.calls)
      && (forall key :: key in w.calls ==> key in w.journal && Granted(w.ledger, key))
      && |w.calls| <= |w.journal| <= |w.ledger.grants| <= w.ledger.generation
  {
    var w := RunWorld(p, DAWN, events);
    var done := RunStaysSound(p, DAWN, [], events);
    DistinctIn(w.calls, w.journal.Keys);
    forall k | k in w.journal.Keys ensures k.0 in w.ledger.grants.Keys {
      assert Granted(w.ledger, k);
    }
    forall a, b | a in w.journal.Keys && b in w.journal.Keys && a.0 == b.0 ensures a == b {
      assert Granted(w.ledger, a) && Granted(w.ledger, b);
    }
    RequestsBoundKeys(w.journal.Keys, w.ledger.grants.Keys);
    SubsetIsNoLarger(w.ledger.grants.Keys, w.ledger.decisions.Keys);
  }

  // ---------------------------------------------------------------- one receipt for ever

  /** Once a row holds its receipt, an attempt is told that receipt or an error, and the target is left alone. */
  lemma {:induction false} StoredReceiptIsTold(p: ControllerPolicy, w: World, e: Occurrence, r: LifecycleReceipt)
    requires Sound(w) && e.OnExecute?
    requires RowAt(w.journal, KeyOf(e.order.gate)).Some? && w.journal[KeyOf(e.order.gate)].lifecycle == Some(r)
    ensures Happen(p, w, e).calls == w.calls
    ensures forall x :: Told(p, w, e) == Some(Ok(x)) ==> x == r
  {
    assert RowOk(KeyOf(e.order.gate), w.journal[KeyOf(e.order.gate)]);
    var script := Attempt(p, w.ledger, w.journal, e.order, e.now, e.replies).0;
    assert script == [] || script == [Write(Complete, None, Some(r))];
    assert script != [] ==> script[1..] == [];
    assert CallsIn(KeyOf(e.order.gate), script, e.budget) == [];
    assert w.calls + [] == w.calls;
  }

  lemma {:induction false} FoldFirst(row: Option<Row>, a: Action, rest: seq<Action>, budget: nat)
    requires budget > 0
    ensures FoldRow(row, [a] + rest, budget) == FoldRow(NextRow(row, a), rest, budget - 1)
  {
    assert ([a] + rest)[1..] == rest;
  }

  /** From an attempt's receipt to the row: a script that runs to its end leaves its receipt, complete. */
  lemma {:induction false} FinishCompletes(row: Option<Row>, r: LifecycleReceipt, budget: nat)
    requires budget >= 2
    ensures
      var reached := FoldRow(row, Finish(r), budget);
      reached.Some? && reached.value.phase.Complete? && reached.value.lifecycle == Some(r)
  {
    var verify, complete := Write(PhaseVerified, None, Some(r)), Write(Complete, None, Some(r));
    FoldFirst(row, verify, [complete], budget);
    FoldFirst(NextRow(row, verify), complete, [], budget - 1);
  }

  lemma {:induction false} OpeningCompletes(row: Option<Row>, applied: Adapters.Outcome, r: LifecycleReceipt,
        budget: nat)
    requires budget >= |Opening(applied, r)|
    ensures
      var reached := FoldRow(row, Opening(applied, r), budget);
      reached.Some? && reached.value.phase.Complete? && reached.value.lifecycle == Some(r)
  {
    var rest := AdapterReport(applied) + Finish(r);
    var started := NextRow(row, Write(Started, None, None));
    assert Opening(applied, r) == [Write(Started, None, None)] + ([Call] + rest);
    FoldFirst(row, Write(Started, None, None), [Call] + rest, budget);
    FoldFirst(started, Call, rest, budget - 1);
    if applied.Ok? {
      FoldFirst(started, Write(AdapterReported, Some(applied.value), None), Finish(r), budget - 2);
      FinishCompletes(NextRow(started, Write(AdapterReported, Some(applied.value), None)), r, budget - 3);
    } else {
      assert rest == Finish(r);
      FinishCompletes(started, r, budget - 2);
    }
  }

  lemma {:induction false} ScriptCompletes(row: Option<Row>, a: AuthorizationReceipt, g: ApplyGate, replies: Replies,
        budget: nat)
    requires row.Some? ==> RowOk(KeyOf(g), row.value)
    requires budget >= |Script(row, a, g, replies).0|
    ensures
      var (script, ending) := Script(row, a, g, replies);
      var reached := FoldRow(row, script, budget);
      ending.Ok? && reached.Some? && reached.value.phase.Complete? && reached.value.lifecycle == Some(ending.value)
  {
    if row.None? {
      OpeningCompletes(row, replies.applied, Lifecycle(a, g, replies.applied, replies.verified), budget);
    } else {
      var script := Script(row, a, g, replies).0;
      if row.value.phase.AdapterReported? {
        FinishCompletes(row, Lifecycle(a, g, Ok(row.value.adapter.value), replies.verified), budget);
      } else if script != [] {
        assert script[1..] == [];
      }
    }
  }

  /** An attempt that is told a receipt leaves that receipt in a complete row. */
  lemma {:induction false} ToldIsStored(p: ControllerPolicy, w: World, e: Occurrence)
    requires Sound(w) && e.OnExecute? && Told(p, w, e).Some? && Told(p, w, e).value.Ok?
    ensures
      var key := KeyOf(e.order.gate);
      var later := Happen(p, w, e).journal;
      key in later && later[key].phase.Complete? && later[key].lifecycle == Some(Told(p, w, e).value.value)
  {
    var key := KeyOf(e.order.gate);
    var a := ResumeGate(p, w.ledger, e.order.gate, e.now).value;
    assert RowAt(w.journal, key).Some? ==> RowOk(key, RowAt(w.journal, key).value);
    ScriptCompletes(RowAt(w.journal, key), a, e.order.gate, e.replies, e.budget);
    PerformTouchesOneRow(w.journal, key, Script(RowAt(w.journal, key), a, e.order.gate, e.replies).0, e.budget);
  }

  /** Any two receipts ever told for one request and operation are the same receipt. */
  lemma {:induction false} ReceiptsAgree(p: ControllerPolicy, before: seq<Occurrence>, first: Occurrence,
        between: seq<Occurrence>, again: Occurrence)
    requires first.OnExecute? && again.OnExecute? && KeyOf(first.order.gate) == KeyOf(again.order.gate)
    requires
      var told := Told(p, RunWorld(p, DAWN, before), first);
      told.Some? && told.value.Ok?
    ensures
      var w := RunWorld(p, DAWN, before);
      var later := RunWorld(p, Happen(p, w, first), between);
      && Happen(p, later, again).calls == later.calls
      && forall x :: Told(p, later, again) == Some(Ok(x)) ==> Some(Ok(x)) == Told(p, w, first)
  {
    var w := RunWorld(p, DAWN, before);
    var done := RunStaysSound(p, DAWN, [], before);
    ToldIsStored(p, w, first);
    HappenStaysSound(p, w, done, first);
    var later := RunWorld(p, Happen(p, w, first), between);
    var all := RunStaysSound(p, Happen(p, w, first), done, between);
    assert RowLater(Happen(p, w, first).journal[KeyOf(first.order.gate)], later.journal[KeyOf(first.order.gate)]);
    StoredReceiptIsTold(p, later, again, Told(p, w, first).value.value);
  }

  /** From every reachable state an authorized attempt that is not cut short ends with a stored receipt. */
  lemma {:induction false} UninterruptedAttemptEnds(p: ControllerPolicy, events: seq<Occurrence>, e: Occurrence)
    requires e.OnExecute? && e.order.schemaVersion == EXECUTION_SCHEMA && e.budget >= 5
    requires ResumeGate(p, RunWorld(p, DAWN, events).ledger, e.order.gate, e.now).Ok?
    ensures
      var w := RunWorld(p, DAWN, events);
      Told(p, w, e).Some? && Told(p, w, e).value.Ok?
  {
    var w := RunWorld(p, DAWN, events);
    var done := RunStaysSound(p, DAWN, [], events);
    var key := KeyOf(e.order.gate);
    assert RowAt(w.journal, key).Some? ==> RowOk(key, RowAt(w.journal, key).value);
    ScriptCompletes(RowAt(w.journal, key), ResumeGate(p, w.ledger, e.order.gate, e.now).value, e.order.gate, e.replies,
                    5);
  }

  /** A stored receipt that says Converged was earned: an apply was reported and a read saw the desired state. */
  lemma {:induction false} ConvergedWasVerified(p: ControllerPolicy, events: seq<Occurrence>, key: JournalKey)
    requires key in RunWorld(p, DAWN, events).journal
    requires
      var row := RunWorld(p, DAWN, events).journal[key];
      row.lifecycle.Some? && row.lifecycle.value.state.ExecConverged?
    ensures
      var row := RunWorld(p, DAWN, events).journal[key];
      && key.1.Sha? && row.adapter.Some? && row.adapter.value.state == Converged
      && row.lifecycle.value.verification.Some?
      && row.lifecycle.value.verification.value.resultDigest == key.1.of.desiredDigest
  {
    var done := RunStaysSound(p, DAWN, [], events);
    assert RowOk(key, RunWorld(p, DAWN, events).journal[key]);
  }
}
