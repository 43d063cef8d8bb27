/**
 What an authorized execution answers, told from the journal row it finds and from what the target
 says: over every run of attempts cut short anywhere, and then with the targets themselves.
 */
module ExecutionLaws {
  import opened Common
  import opened Gates
  import opened Controllers
  import opened Execution
  import opened ExecutionRuns
  import opened Adapters
  import opened HostedRuns
  import opened HostLaws
  import opened GateLaws

  /** The row that attempts of this gate find and leave. */
  function RowOf(j: Journal, g: ApplyGate): Option<Row> {
    RowAt(j, (g.request.body.requestId, Sha(g.operation)))
  }

  /** Nothing but the gate's own row differs. */
  ghost predicate OtherRowsSame(j: Journal, later: Journal, g: ApplyGate) {
    forall key :: key != (g.request.body.requestId, Sha(g.operation)) ==>
      (key in later <==> key in j) && (key in j ==> later[key] == j[key])
  }

  /** An execution that is let through, in a world reached by any run. */
  ghost predicate LetThrough(p: ControllerPolicy, w: World, e: Occurrence) {
    e.OnExecute? && e.order.schemaVersion == "iicp.management-local-execution.v1"
    && MayAct(p, w.ledger, e.order.gate, e.now)
  }

  /** The receipt is about the gate's operation, under the authorization the ledger granted for it. */
  predicate NamesItsGrant(r: LifecycleReceipt, l: Ledger, g: ApplyGate) {
    && r.operationId == g.operation.operationId
    && g.request.body.requestId in l.grants
    && r.authorization
       == AuthorizationReceipt(g.request.body.requestId, Accepted,
                               Some(l.grants[g.request.body.requestId].generation), Sha(g.operation),
                               Sha(g.authorization))
  }

  /** The attempt is told `r`, which is stored for good. */
  ghost predicate TellsAndStores(p: ControllerPolicy, w: World, e: Occurrence, adapter: Option<AdapterReceipt>,
        r: LifecycleReceipt)
    requires e.OnExecute?
  {
    && Told(p, w, e) == Some(Ok(r))
    && RowOf(Happen(p, w, e).journal, e.order.gate) == Some(Row(Complete, adapter, Some(r)))
    && OtherRowsSame(w.journal, Happen(p, w, e).journal, e.order.gate)
    && Happen(p, w, e).ledger == w.ledger
  }

  /** The desired state was read back. */
  predicate ReadBack(read: Outcome, g: ApplyGate) {
    read.Ok? && read.value.state == Converged && read.value.resultDigest == g.operation.desiredDigest
  }

  // ---------------------------------------------------------------- after a restart

  /** What is reported of an apply that was started and never reported, from a read of the target. */
  predicate ExplainsRestart(r: LifecycleReceipt, g: ApplyGate, read: Outcome) {
    && r.adapter.None? && r.verification == (if read.Ok? then Some(read.value) else None)
    && r.retry == ManualReviewRequired
    && (ReadBack(read, g) <==> (r.state, r.reason) == (ExecPartiallyConverged, EffectObservedAfterRestart))
    && (read.Ok? && !ReadBack(read, g) <==> (r.state, r.reason) == (ExecDeferred, RestartObservationMismatch))
    && (read.Err? <==> (r.state, r.reason) == (ExecDeferred, RestartObservationUnavailable))
  }

  lemma {:induction false} LeavesOtherRows(j: Journal, later: Journal, g: ApplyGate)
    requires forall other :: other != KeyOf(g) ==> RowAt(later, other) == RowAt(j, other)
    ensures OtherRowsSame(j, later, g)
  {
    forall key | key != KeyOf(g)
      ensures (key in later <==> key in j) && (key in j ==> later[key] == j[key])
    {
      assert RowAt(later, key) == RowAt(j, key);
    }
  }

  /** A script that is run to its end tells its ending and leaves the row it folds to. */
  lemma {:induction false} WholeScriptIsStored(p: ControllerPolicy, w: World, e: Occurrence, script: seq<Action>,
        adapter: Option<AdapterReceipt>, r: LifecycleReceipt)
    requires e.OnExecute? && Attempt(p, w.ledger, w.journal, e.order, e.now, e.replies) == (script, Ok(r))
    requires |script| <= e.budget
    requires FoldRow(RowOf(w.journal, e.order.gate), script, e.budget) == Some(Row(Complete, adapter, Some(r)))
    ensures TellsAndStores(p, w, e, adapter, r)
  {
    PerformTouchesOneRow(w.journal, KeyOf(e.order.gate), script, e.budget);
    LeavesOtherRows(w.journal, Happen(p, w, e).journal, e.order.gate);
  }

  lemma {:induction false} FinishFolds(row: Row, r: LifecycleReceipt, budget: nat)
    requires budget >= 2
    ensures FoldRow(Some(row), Finish(r), budget) == Some(Row(Complete, row.adapter, Some(r)))
  {
    FoldFirst(Some(row), Write(PhaseVerified, None, Some(r)), [Write(Complete, None, Some(r))], budget);
    FoldFirst(Some(Row(PhaseVerified, row.adapter, Some(r))), Write(Complete, None, Some(r)), [], budget - 1);
  }

  /** What an attempt that is let through does is its script. */
  lemma {:induction false} LetThroughIsScript(p: ControllerPolicy, w: World, e: Occurrence)
    returns (a: AuthorizationReceipt)
    requires LetThrough(p, w, e)
    ensures
      var g := e.order.gate;
      && a == AuthorizationReceipt(g.request.body.requestId, Accepted,
                                   Some(w.ledger.grants[g.request.body.requestId].generation), Sha(g.operation),
                                   Sha(g.authorization))
      && Attempt(p, w.ledger, w.journal, e.order, e.now, e.replies) == Script(RowOf(w.journal, g), a, g, e.replies)
  {
    ResumedExactlyWhen(p, w.ledger, e.order.gate, e.now);
    a := ResumeGate(p, w.ledger, e.order.gate, e.now).value;
  }

  lemma {:induction false} RestartedExplains(a: AuthorizationReceipt, g: ApplyGate, read: Outcome)
    ensures ExplainsRestart(Restarted(a, g, read), g, read)
  {
  }

  lemma {:induction false} StartedIsObserved(p: ControllerPolicy, w: World, e: Occurrence)
    returns (r: LifecycleReceipt)
    requires LetThrough(p, w, e) && e.budget >= 1
    requires RowOf(w.journal, e.order.gate) == Some(Row(Started, None, None))
    ensures Happen(p, w, e).calls == w.calls && NamesItsGrant(r, w.ledger, e.order.gate)
    ensures TellsAndStores(p, w, e, None, r) && ExplainsRestart(r, e.order.gate, e.replies.verified)
  {
    var a := LetThroughIsScript(p, w, e);
    r := Restarted(a, e.order.gate, e.replies.verified);
    var script := [Write(Complete, None, Some(r))];
    RestartedExplains(a, e.order.gate, e.replies.verified);
    FoldFirst(Some(Row(Started, None, None)), Write(Complete, None, Some(r)), [], e.budget);
    WritesMakeNoCall(KeyOf(e.order.gate), script, e.budget);
    WholeScriptIsStored(p, w, e, script, None, r);
    assert w.calls + [] == w.calls;
  }

  /**
   After a restart, in every reachable world: an attempt that finds its apply started but not
   reported makes no host call. It reports that the effect was observed exactly when the desired
   state is read back, a mismatch for any other read, and an unavailable target when the read
   fails; it carries the read, and what it is told is stored for good.
   */
  lemma {:induction false} RestartObserves(p: ControllerPolicy, events: seq<Occurrence>, e: Occurrence)
    returns (r: LifecycleReceipt)
    requires LetThrough(p, RunWorld(p, DAWN, events), e) && e.budget >= 1
    requires
      var row := RowOf(RunWorld(p, DAWN, events).journal, e.order.gate);
      row.Some? && row.value.phase.Started?
    ensures
      var w := RunWorld(p, DAWN, events);
      && Happen(p, w, e).calls == w.calls && NamesItsGrant(r, w.ledger, e.order.gate)
      && TellsAndStores(p, w, e, None, r) && ExplainsRestart(r, e.order.gate, e.replies.verified)
  {
    var w := RunWorld(p, DAWN, events);
    var done := RunStaysSound(p, DAWN, [], events);
    assert RowOk(KeyOf(e.order.gate), w.journal[KeyOf(e.order.gate)]);
    r := StartedIsObserved(p, w, e);
  }

  // ---------------------------------------------------------------- a reported apply

  /** The errors after which nobody knows whether the apply took effect. */
  predicate LeavesUnknown(e: AdapterError) {
    e in {Timeout, OutcomeUnknown, Io}
  }

  /** Which reason a receipt gives, and when: from what was reported and what was read. */
  predicate ExplainsReason(reason: ExecutionReason, g: ApplyGate, applied: Outcome, read: Outcome) {
    && (reason == ExecutionVerified <==> applied.Ok? && applied.value.state == Converged && ReadBack(read, g))
    && (reason == VerifiedFailed <==> applied.Ok? && read.Ok? && read.value.state == Failed)
    && (reason == NotFullyConverged <==>
          && applied.Ok? && read.Ok? && read.value.state != Failed
          && !(applied.value.state == Converged && ReadBack(read, g)))
    && (reason == VerificationUnavailable <==> applied.Ok? && read.Err?)
    && (reason == OutcomeObservedBeforeRetry <==> applied.Err? && LeavesUnknown(applied.error) && read.Ok?)
    && (reason == OutcomeUnknownReason <==> applied.Err? && LeavesUnknown(applied.error) && read.Err?)
    && (reason == RejectedByAdapter <==> applied.Err? && !LeavesUnknown(applied.error))
  }

  /** The state and the advice that go with each reason. */
  predicate FitsReason(r: LifecycleReceipt) {
    && (r.state == ExecConverged <==> r.reason == ExecutionVerified)
    && (r.state == ExecFailed <==> r.reason in {VerifiedFailed, RejectedByAdapter})
    && (r.state == ExecDeferred <==> r.reason in {OutcomeObservedBeforeRetry, OutcomeUnknownReason})
    && (r.state == ExecPartiallyConverged <==> r.reason in {NotFullyConverged, VerificationUnavailable})
    && (r.retry == NotNeeded <==> r.reason == ExecutionVerified)
    && (r.retry == ObserveBeforeRetryCompleted <==> r.reason == OutcomeObservedBeforeRetry)
  }

  predicate Explains(r: LifecycleReceipt, g: ApplyGate, applied: Outcome, read: Outcome) {
    && r.adapter == (if applied.Ok? then Some(applied.value) else None)
    && r.verification == (if read.Ok? then Some(read.value) else None)
    && ExplainsReason(r.reason, g, applied, read) && FitsReason(r)
  }

  lemma {:induction false} LifecycleExplains(a: AuthorizationReceipt, g: ApplyGate, applied: Outcome, read: Outcome)
    ensures Explains(Lifecycle(a, g, applied, read), g, applied, read)
  {
  }

  lemma {:induction false} ReportIsExplained(p: ControllerPolicy, w: World, e: Occurrence, adapter: AdapterReceipt)
    returns (r: LifecycleReceipt)
    requires LetThrough(p, w, e) && e.budget >= 2
    requires RowOf(w.journal, e.order.gate) == Some(Row(AdapterReported, Some(adapter), None))
    ensures Happen(p, w, e).calls == w.calls && NamesItsGrant(r, w.ledger, e.order.gate)
    ensures TellsAndStores(p, w, e, Some(adapter), r)
    ensures Explains(r, e.order.gate, Ok(adapter), e.replies.verified)
  {
    var g := e.order.gate;
    var a := LetThroughIsScript(p, w, e);
    r := Lifecycle(a, g, Ok(adapter), e.replies.verified);
    LifecycleExplains(a, g, Ok(adapter), e.replies.verified);
    FinishFolds(Row(AdapterReported, Some(adapter), None), r, e.budget);
    WritesMakeNoCall(KeyOf(g), Finish(r), e.budget);
    WholeScriptIsStored(p, w, e, Finish(r), Some(adapter), r);
    assert w.calls + [] == w.calls;
  }

  /**
   An attempt that finds its apply reported, in every reachable world: it makes no host call, and
   its receipt explains the stored report by what is read now.
   */
  lemma {:induction false} ReportedIsConcluded(p: ControllerPolicy, events: seq<Occurrence>, e: Occurrence)
    returns (r: LifecycleReceipt)
    requires LetThrough(p, RunWorld(p, DAWN, events), e) && e.budget >= 2
    requires
      var row := RowOf(RunWorld(p, DAWN, events).journal, e.order.gate);
      row.Some? && row.value.phase.AdapterReported?
    ensures
      var w := RunWorld(p, DAWN, events);
      var adapter := RowOf(w.journal, e.order.gate).value.adapter;
      && Happen(p, w, e).calls == w.calls && NamesItsGrant(r, w.ledger, e.order.gate)
      && adapter.Some? && TellsAndStores(p, w, e, adapter, r)
      && Explains(r, e.order.gate, Ok(adapter.value), e.replies.verified)
  {
    var w := RunWorld(p, DAWN, events);
    var done := RunStaysSound(p, DAWN, [], events);
    var row := w.journal[KeyOf(e.order.gate)];
    assert RowOk(KeyOf(e.order.gate), row);
    r := ReportIsExplained(p, w, e, row.adapter.value);
  }

  // ---------------------------------------------------------------- a first attempt

  lemma {:induction false} OpeningCalls(key: JournalKey, applied: Outcome, r: LifecycleReceipt, budget: nat)
    requires budget >= 2
    ensures CallsIn(key, Opening(applied, r), budget) == [key]
  {
    var rest := AdapterReport(applied) + Finish(r);
    assert Opening(applied, r) == [Write(Started, None, None)] + ([Call] + rest);
    CallsFirst(key, Write(Started, None, None), [Call] + rest, budget);
    CallsFirst(key, Call, rest, budget - 1);
    WritesMakeNoCall(key, rest, budget - 2);
  }

  lemma {:induction false} OpeningFolds(applied: Outcome, r: LifecycleReceipt, budget: nat)
    requires budget >= 5
    ensures FoldRow(None, Opening(applied, r), budget)
            == Some(Row(Complete, if applied.Ok? then Some(applied.value) else None, Some(r)))
  {
    var rest := AdapterReport(applied) + Finish(r);
    var started := Row(Started, None, None);
    assert Opening(applied, r) == [Write(Started, None, None)] + ([Call] + rest);
    FoldFirst(None, Write(Started, None, None), [Call] + rest, budget);
    FoldFirst(Some(started), Call, rest, budget - 1);
    if applied.Ok? {
      FoldFirst(Some(started), Write(AdapterReported, Some(applied.value), None), Finish(r), budget - 2);
      FinishFolds(Row(AdapterReported, Some(applied.value), None), r, budget - 3);
    } else {
      assert rest == Finish(r);
      FinishFolds(started, r, budget - 2);
    }
  }

  /**
   A first attempt that is not cut short calls the host once, and its receipt explains what was
   reported and what was read.
   */
  lemma {:induction false} FirstAttemptExplains(p: ControllerPolicy, w: World, e: Occurrence)
    returns (r: LifecycleReceipt)
    requires LetThrough(p, w, e) && e.budget >= 5 && RowOf(w.journal, e.order.gate).None?
    ensures Happen(p, w, e).calls == w.calls + [(e.order.gate.operation.operationId, Sha(e.order.gate.operation))]
    ensures NamesItsGrant(r, w.ledger, e.order.gate)
    ensures TellsAndStores(p, w, e, if e.replies.applied.Ok? then Some(e.replies.applied.value) else None, r)
    ensures Explains(r, e.order.gate, e.replies.applied, e.replies.verified)
  {
    var g, applied := e.order.gate, e.replies.applied;
    var a := LetThroughIsScript(p, w, e);
    r := Lifecycle(a, g, applied, e.replies.verified);
    LifecycleExplains(a, g, applied, e.replies.verified);
    OpeningCalls(KeyOf(g), applied, r, e.budget);
    OpeningFolds(applied, r, e.budget);
    WholeScriptIsStored(p, w, e, Opening(applied, r), if applied.Ok? then Some(applied.value) else None, r);
  }

  /**
   The same attempt cut short: the start is journalled before the host is called, and a report
   before anything is concluded from it; nothing is told.
   */
  lemma {:induction false} FirstAttemptCutShort(p: ControllerPolicy, w: World, e: Occurrence)
    requires LetThrough(p, w, e) && RowOf(w.journal, e.order.gate).None? && e.budget <= 3
    ensures Told(p, w, e).None?
    ensures
      var next, g, applied := Happen(p, w, e), e.order.gate, e.replies.applied;
      var key := (g.operation.operationId, Sha(g.operation));
      && (e.budget == 0 ==> next == w)
      && (e.budget == 1 ==> next.calls == w.calls && RowOf(next.journal, g) == Some(Row(Started, None, None)))
      && (e.budget == 2 ==>
            next.calls == w.calls + [key] && RowOf(next.journal, g) == Some(Row(Started, None, None)))
      && (e.budget == 3 && applied.Ok? ==>
            && next.calls == w.calls + [key]
            && RowOf(next.journal, g) == Some(Row(AdapterReported, Some(applied.value), None)))
  {
    var g, applied := e.order.gate, e.replies.applied;
    var a := LetThroughIsScript(p, w, e);
    var r := Lifecycle(a, g, applied, e.replies.verified);
    var rest := AdapterReport(applied) + Finish(r);
    var started := Row(Started, None, None);
    assert Opening(applied, r) == [Write(Started, None, None)] + ([Call] + rest);
    PerformTouchesOneRow(w.journal, KeyOf(g), Opening(applied, r), e.budget);
    assert w.calls + [] == w.calls;
    if e.budget > 0 {
      CallsFirst(KeyOf(g), Write(Started, None, None), [Call] + rest, e.budget);
      FoldFirst(None, Write(Started, None, None), [Call] + rest, e.budget);
    }
    if e.budget > 1 {
      OpeningCalls(KeyOf(g), applied, r, e.budget);
      FoldFirst(Some(started), Call, rest, e.budget - 1);
    }
    if e.budget > 2 && applied.Ok? {
      FoldFirst(Some(started), Write(AdapterReported, Some(applied.value), None), Finish(r), e.budget - 2);
    }
  }

  // ---------------------------------------------------------------- attempts that add nothing

  /** Everything about the gate is in order but a signature. */
  ghost predicate OnlyUnsigned(p: ControllerPolicy, g: ApplyGate, now: nat) {
    && GateHolds(g, now)
    && !(IsSigned(g.request, p.key) && IsSigned(g.authorization, p.key))
  }

  /** An attempt that is not let through is told why, and leaves the world as it is. */
  lemma {:induction false} RefusedAttemptDoesNothing(p: ControllerPolicy, w: World, e: Occurrence)
    requires e.OnExecute? && !LetThrough(p, w, e)
    ensures Happen(p, w, e) == w
    ensures
      Told(p, w, e)
      == Some(Err(if e.order.schemaVersion != "iicp.management-local-execution.v1" then SchemaInvalid
                  else if OnlyUnsigned(p, e.order.gate, e.now) then NotAuthorized(SignatureInvalid)
                  else NotAuthorized(GateInvalid)))
  {
    ResumedExactlyWhen(p, w.ledger, e.order.gate, e.now);
    assert w.calls + [] == w.calls;
  }

  lemma {:induction false} CompleteIsRepeated(p: ControllerPolicy, w: World, e: Occurrence, row: Row)
    requires LetThrough(p, w, e) && RowOf(w.journal, e.order.gate) == Some(row)
    requires row.phase.Complete? && row.lifecycle.Some?
    ensures Happen(p, w, e) == w && TellsAndStores(p, w, e, row.adapter, row.lifecycle.value)
  {
    var a := LetThroughIsScript(p, w, e);
    assert w.calls + [] == w.calls;
  }

  lemma {:induction false} VerifiedIsRepeated(p: ControllerPolicy, w: World, e: Occurrence, row: Row)
    requires LetThrough(p, w, e) && e.budget >= 1 && RowOf(w.journal, e.order.gate) == Some(row)
    requires row.phase.PhaseVerified? && row.lifecycle.Some?
    ensures Happen(p, w, e).calls == w.calls && TellsAndStores(p, w, e, row.adapter, row.lifecycle.value)
  {
    var a := LetThroughIsScript(p, w, e);
    var again := Write(Complete, None, row.lifecycle);
    WritesMakeNoCall(KeyOf(e.order.gate), [again], e.budget);
    FoldFirst(Some(row), again, [], e.budget);
    WholeScriptIsStored(p, w, e, [again], row.adapter, row.lifecycle.value);
    assert w.calls + [] == w.calls;
  }

  /** In every reachable world, an attempt whose receipt is stored is told it, without a host call. */
  lemma {:induction false} StoredIsRepeated(p: ControllerPolicy, events: seq<Occurrence>, e: Occurrence)
    requires LetThrough(p, RunWorld(p, DAWN, events), e) && e.budget >= 1
    requires
      var row := RowOf(RunWorld(p, DAWN, events).journal, e.order.gate);
      row.Some? && row.value.lifecycle.Some?
    ensures
      var w := RunWorld(p, DAWN, events);
      var row := RowOf(w.journal, e.order.gate).value;
      && Happen(p, w, e).calls == w.calls
      && TellsAndStores(p, w, e, row.adapter, row.lifecycle.value)
  {
    var w := RunWorld(p, DAWN, events);
    var done := RunStaysSound(p, DAWN, [], events);
    var row := w.journal[KeyOf(e.order.gate)];
    assert RowOk(KeyOf(e.order.gate), row);
    if row.phase.Complete? {
      CompleteIsRepeated(p, w, e, row);
    } else {
      VerifiedIsRepeated(p, w, e, row);
    }
  }

  // ---------------------------------------------------------------- rows no run leaves

  /**
   Of a journal from elsewhere: a finished row without its receipt is attempted afresh, and a reported
   one without its report is an error that leaves everything as it is.
   */
  lemma {:induction false} RowsWithoutReceipts(p: ControllerPolicy, w: World, e: Occurrence, row: Row)
    requires LetThrough(p, w, e) && RowOf(w.journal, e.order.gate) == Some(row)
    ensures row.phase in {PhaseVerified, Complete} && row.lifecycle.None? && e.budget >= 2 ==>
              Happen(p, w, e).calls == w.calls + [(e.order.gate.operation.operationId, Sha(e.order.gate.operation))]
    ensures row.phase == AdapterReported && row.adapter.None? ==>
              Happen(p, w, e) == w && Told(p, w, e) == Some(Err(JournalInvalid))
  {
    var a := LetThroughIsScript(p, w, e);
    if row.phase in {PhaseVerified, Complete} && row.lifecycle.None? && e.budget >= 2 {
      OpeningCalls(KeyOf(e.order.gate), e.replies.applied,
                   Lifecycle(a, e.order.gate, e.replies.applied, e.replies.verified), e.budget);
    }
    assert w.calls + [] == w.calls;
  }
}
