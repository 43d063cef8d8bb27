/**
 What a process that ends between a controller's writes does to the ledger. An acceptance is one
 transaction and its pruning; a refusal is an event and its pruning; a report is its decision, its
 event and its pruning. Only the event log ever shows that something was cut off.
 */
module ControllerCrashes {
  import opened Common
  import opened Gates
  import opened Controllers

  /** An input, and how many writes the process lives to make for it. */
  datatype CutInput = CutInput(input: Input, writes: nat)

  /** What a step writes to the log before it is pruned. */
  function Logged(p: ControllerPolicy, l: Ledger, i: Input): seq<Event> {
    var (next, r) := Step(p, l, i);
    EventOf(l, next, r, i)
  }

  function CutStep(p: ControllerPolicy, l: Ledger, c: CutInput): Ledger {
    match c.input
    case ReportInput(id, state, reason, expected, now) => CutReport(p, l, id, state, reason, expected, now, c.writes)
    case _ =>
      if c.writes == 0 then l
      else if c.writes == 1 then Step(p, l, c.input).0.(events := l.events + Logged(p, l, c.input))
      else Step(p, l, c.input).0
  }

  function RunCut(p: ControllerPolicy, l: Ledger, cuts: seq<CutInput>): Ledger
    decreases |cuts|
  {
    if cuts == [] then l else RunCut(p, CutStep(p, l, cuts[0]), cuts[1..])
  }

  /** The inputs whose first write was made. */
  function Begun(cuts: seq<CutInput>): seq<Input> {
    if cuts == [] then []
    else (if cuts[0].writes == 0 then [] else [cuts[0].input]) + Begun(cuts[1..])
  }

  // ---------------------------------------------------------------- all but the log

  predicate AgreeButForEvents(a: Ledger, b: Ledger) {
    a.(events := b.events) == b
  }

  lemma {:induction false} AdmitIgnoresEvents(p: ControllerPolicy, a: Ledger, b: Ledger, request: Signed<Request>,
        now: nat, binding: Option<Binding>)
    requires AgreeButForEvents(a, b)
    ensures AgreeButForEvents(Admit(p, a, request, now, binding).0, Admit(p, b, request, now, binding).0)
    ensures Admit(p, a, request, now, binding).1 == Admit(p, b, request, now, binding).1
  {
  }

  lemma {:induction false} ReportIgnoresEvents(p: ControllerPolicy, a: Ledger, b: Ledger, id: string,
        state: DecisionState, reason: string, expected: nat, now: nat)
    requires AgreeButForEvents(a, b)
    ensures
      var x := ReportOutcome(p, a, id, state, reason, expected, now);
      var y := ReportOutcome(p, b, id, state, reason, expected, now);
      AgreeButForEvents(x.0, y.0) && x.1 == y.1
  {
  }

  lemma {:induction false} LoggingIgnoresEvents(p: ControllerPolicy, a: Ledger, b: Ledger, request: Signed<Request>,
        now: nat)
    requires AgreeButForEvents(a, b)
    ensures AgreeButForEvents(AdmitLogged(p, a, request, now).0, AdmitLogged(p, b, request, now).0)
    ensures AdmitLogged(p, a, request, now).1 == AdmitLogged(p, b, request, now).1
  {
    AdmitIgnoresEvents(p, a, b, request, now, None);
  }

  /** No step looks at the log. */
  lemma {:induction false} StepIgnoresEvents(p: ControllerPolicy, a: Ledger, b: Ledger, i: Input)
    requires AgreeButForEvents(a, b)
    ensures AgreeButForEvents(Step(p, a, i).0, Step(p, b, i).0) && Step(p, a, i).1 == Step(p, b, i).1
  {
    match i {
      case Submit(request, now) => LoggingIgnoresEvents(p, a, b, request, now);
      case AuthorizeInput(request, now, binding) => AdmitIgnoresEvents(p, a, b, request, now, Some(binding));
      case ReportInput(id, state, reason, expected, now) =>
        ReportIgnoresEvents(p, a, b, id, state, reason, expected, now);
    }
  }

  lemma {:induction false} CutStepAgrees(p: ControllerPolicy, a: Ledger, b: Ledger, c: CutInput)
    requires AgreeButForEvents(a, b)
    ensures AgreeButForEvents(CutStep(p, a, c), if c.writes == 0 then b else Step(p, b, c.input).0)
  {
    StepIgnoresEvents(p, a, b, c.input);
  }

  lemma {:induction false} CutRunsAgree(p: ControllerPolicy, a: Ledger, b: Ledger, cuts: seq<CutInput>)
    requires AgreeButForEvents(a, b)
    ensures AgreeButForEvents(RunCut(p, a, cuts), RunLedger(p, b, Begun(cuts)))
    decreases |cuts|
  {
    if cuts == [] {
    } else {
      CutStepAgrees(p, a, b, cuts[0]);
      if cuts[0].writes == 0 {
        assert Begun(cuts) == Begun(cuts[1..]);
        CutRunsAgree(p, CutStep(p, a, cuts[0]), b, cuts[1..]);
      } else {
        assert Begun(cuts)[0] == cuts[0].input && Begun(cuts)[1..] == Begun(cuts[1..]);
        CutRunsAgree(p, CutStep(p, a, cuts[0]), Step(p, b, cuts[0].input).0, cuts[1..]);
      }
    }
  }

  /**
   A run of the controller cut off anywhere leaves generations, nonces, decisions and grants as the
   uninterrupted run of the inputs it began: whatever is proved of those holds under crashes too.
   */
  lemma {:induction false} CutRunIsARun(p: ControllerPolicy, cuts: seq<CutInput>)
    ensures AgreeButForEvents(RunCut(p, EMPTY, cuts), RunLedger(p, EMPTY, Begun(cuts)))
  {
    CutRunsAgree(p, EMPTY, EMPTY, cuts);
  }

  // ---------------------------------------------------------------- the log

  /** The report changed its decision and ended before it logged the event. */
  predicate Unlogged(p: ControllerPolicy, l: Ledger, c: CutInput) {
    c.input.ReportInput? && c.writes == 1 && Step(p, l, c.input).1.Ok?
  }

  /** What a step, cut off or not, adds to the trail. */
  function CutLogged(p: ControllerPolicy, l: Ledger, c: CutInput): seq<Event> {
    if c.writes == 0 || Unlogged(p, l, c) then [] else Logged(p, l, c.input)
  }

  function CutTrail(p: ControllerPolicy, l: Ledger, cuts: seq<CutInput>): seq<Event>
    decreases |cuts|
  {
    if cuts == [] then [] else CutLogged(p, l, cuts[0]) + CutTrail(p, CutStep(p, l, cuts[0]), cuts[1..])
  }

  /** The log is the newest part of `full`: all of it, or at least as much as pruning keeps. */
  predicate Kept(p: ControllerPolicy, events: seq<Event>, full: seq<Event>) {
    && |events| <= |full| && events == full[|full| - |events|..]
    && (|events| == |full| || |events| >= Capacity(p))
  }

  lemma {:induction false} KeptUnpruned(p: ControllerPolicy, events: seq<Event>, full: seq<Event>, more: seq<Event>)
    requires Kept(p, events, full)
    ensures Kept(p, events + more, full + more)
  {
    var longer, all := events + more, full + more;
    assert all[|all| - |longer|..] == full[|full| - |events|..] + more;
  }

  lemma {:induction false} KeptPruned(p: ControllerPolicy, events: seq<Event>, full: seq<Event>)
    requires Kept(p, events, full)
    ensures Kept(p, Newest(events, Capacity(p)), full)
  {
  }

  lemma {:induction false} StepPrunes(p: ControllerPolicy, l: Ledger, i: Input)
    ensures
      var more := Logged(p, l, i);
      Step(p, l, i).0.events == if more == [] then l.events else Newest(l.events + more, Capacity(p))
  {
  }

  /** The log after a step is what was added to it, pruned or not yet. */
  lemma {:induction false} CutStepLogs(p: ControllerPolicy, l: Ledger, c: CutInput)
    ensures
      var longer := l.events + CutLogged(p, l, c);
      CutStep(p, l, c).events == longer || CutStep(p, l, c).events == Newest(longer, Capacity(p))
  {
    StepPrunes(p, l, c.input);
    assert l.events + [] == l.events;
  }

  lemma {:induction false} CutTrailSplits(p: ControllerPolicy, l: Ledger, full: seq<Event>, cuts: seq<CutInput>)
    requires cuts != []
    ensures full + CutTrail(p, l, cuts)
            == (full + CutLogged(p, l, cuts[0])) + CutTrail(p, CutStep(p, l, cuts[0]), cuts[1..])
  {
  }

  lemma {:induction false} CutStepKeeps(p: ControllerPolicy, l: Ledger, full: seq<Event>, c: CutInput)
    requires Kept(p, l.events, full)
    ensures Kept(p, CutStep(p, l, c).events, full + CutLogged(p, l, c))
  {
    var more := CutLogged(p, l, c);
    KeptUnpruned(p, l.events, full, more);
    KeptPruned(p, l.events + more, full + more);
    CutStepLogs(p, l, c);
  }

  lemma {:induction false} CutRunKeeps(p: ControllerPolicy, l: Ledger, full: seq<Event>, cuts: seq<CutInput>)
    requires Kept(p, l.events, full)
    ensures Kept(p, RunCut(p, l, cuts).events, full + CutTrail(p, l, cuts))
    decreases |cuts|
  {
    if cuts == [] {
      assert full + CutTrail(p, l, cuts) == full;
    } else {
      var more := CutLogged(p, l, cuts[0]);
      CutStepKeeps(p, l, full, cuts[0]);
      CutRunKeeps(p, CutStep(p, l, cuts[0]), full + more, cuts[1..]);
      CutTrailSplits(p, l, full, cuts);
    }
  }

  /** How many reports of the run lost their event. */
  function LostEvents(p: ControllerPolicy, l: Ledger, cuts: seq<CutInput>): nat
    decreases |cuts|
  {
    if cuts == [] then 0
    else (if Unlogged(p, l, cuts[0]) then 1 else 0) + LostEvents(p, CutStep(p, l, cuts[0]), cuts[1..])
  }

  lemma {:induction false} LoggedAgrees(p: ControllerPolicy, a: Ledger, b: Ledger, c: CutInput)
    requires AgreeButForEvents(a, b)
    ensures Logged(p, a, c.input) == Logged(p, b, c.input) && (Unlogged(p, a, c) ==> |Logged(p, b, c.input)| == 1)
  {
    StepIgnoresEvents(p, a, b, c.input);
  }

  lemma {:induction false} BegunSplits(p: ControllerPolicy, b: Ledger, cuts: seq<CutInput>)
    requires cuts != []
    ensures
      var c, rest := cuts[0], Begun(cuts[1..]);
      Trail(p, b, Begun(cuts))
      == if c.writes == 0 then Trail(p, b, rest) else Logged(p, b, c.input) + Trail(p, Step(p, b, c.input).0, rest)
  {
    var c, rest := cuts[0], Begun(cuts[1..]);
    if c.writes == 0 {
      assert Begun(cuts) == rest;
    } else {
      assert Begun(cuts)[0] == c.input && Begun(cuts)[1..] == rest;
    }
  }

  lemma {:induction false} FirstLogged(p: ControllerPolicy, a: Ledger, c: CutInput)
    ensures CutLogged(p, a, c) == if c.writes == 0 || Unlogged(p, a, c) then [] else Logged(p, a, c.input)
    ensures c.writes == 0 ==> !Unlogged(p, a, c)
  {
  }

  lemma {:induction false} TrailsAgree(p: ControllerPolicy, a: Ledger, b: Ledger, cuts: seq<CutInput>)
    requires AgreeButForEvents(a, b)
    ensures |CutTrail(p, a, cuts)| + LostEvents(p, a, cuts) == |Trail(p, b, Begun(cuts))|
    ensures LostEvents(p, a, cuts) == 0 ==> CutTrail(p, a, cuts) == Trail(p, b, Begun(cuts))
    decreases |cuts|
  {
    if cuts == [] {
    } else {
      var c := cuts[0];
      CutStepAgrees(p, a, b, c);
      LoggedAgrees(p, a, b, c);
      BegunSplits(p, b, cuts);
      TrailsAgree(p, CutStep(p, a, c), if c.writes == 0 then b else Step(p, b, c.input).0, cuts[1..]);
      FirstLogged(p, a, c);
    }
  }

  lemma {:induction false} LogFrom(p: ControllerPolicy, l: Ledger, cuts: seq<CutInput>)
    requires l.events == []
    ensures Kept(p, RunCut(p, l, cuts).events, CutTrail(p, l, cuts))
  {
    CutRunKeeps(p, l, [], cuts);
    assert [] + CutTrail(p, l, cuts) == CutTrail(p, l, cuts);
  }

  /**
   Under cuts the log is still the newest part of a trail, at least as much of it as pruning keeps;
   and that trail is the one of the uninterrupted run exactly when no report ended between its
   decision and its event. Each report that did is one event short.
   */
  lemma {:induction false} LogIsCompleteIff(p: ControllerPolicy, cuts: seq<CutInput>)
    ensures Kept(p, RunCut(p, EMPTY, cuts).events, CutTrail(p, EMPTY, cuts))
    ensures CutTrail(p, EMPTY, cuts) == Trail(p, EMPTY, Begun(cuts)) <==> LostEvents(p, EMPTY, cuts) == 0
    ensures |CutTrail(p, EMPTY, cuts)| + LostEvents(p, EMPTY, cuts) == |Trail(p, EMPTY, Begun(cuts))|
  {
    LogFrom(p, EMPTY, cuts);
    TrailsAgree(p, EMPTY, EMPTY, cuts);
  }
}
