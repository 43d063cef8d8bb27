/**
 Authorized execution across crashes. Each attempt follows a script of journal writes and at most
 one host call, fixed by the journalled phase; a crash cuts the script short after any action.
 */
module Execution {
  import opened Common
  import opened Json
  import opened Gates
  import opened Controllers
  import opened Adapters

  const EXECUTION_SCHEMA := "iicp.management-local-execution.v1"

  datatype Order = Order(schemaVersion: string, gate: ApplyGate)

  datatype ExecutionError = SchemaInvalid | NotAuthorized(error: ControllerError) | JournalInvalid

  type Ending = Result<LifecycleReceipt, ExecutionError>

  /** What the target answers to the one apply and to the independent read after it. */
  datatype Replies = Replies(applied: Outcome, verified: Outcome)

  // ---------------------------------------------------------------- the lifecycle receipt

  predicate Unknown(e: AdapterError) {
    e == Timeout || e == OutcomeUnknown || e == Io
  }

  function Verdict(desired: Digest<Value>, applied: Outcome,
        verified: Outcome): (ExecutionState, ExecutionReason, RetryDisposition)
  {
    match (applied, verified)
    case (Ok(a), Ok(v)) =>
      if a.state == Converged && v.state == Converged && v.resultDigest == desired
      then (ExecConverged, ExecutionVerified, NotNeeded)
      else if v.state == Failed then (ExecFailed, VerifiedFailed, ManualReviewRequired)
      else (ExecPartiallyConverged, NotFullyConverged, ManualReviewRequired)
    case (Ok(_), Err(_)) => (ExecPartiallyConverged, VerificationUnavailable, ManualReviewRequired)
    case (Err(e), Ok(_)) =>
      if Unknown(e) then (ExecDeferred, OutcomeObservedBeforeRetry, ObserveBeforeRetryCompleted)
      else (ExecFailed, RejectedByAdapter, ManualReviewRequired)
    case (Err(e), Err(_)) =>
      if Unknown(e) then (ExecDeferred, OutcomeUnknownReason, ManualReviewRequired)
      else (ExecFailed, RejectedByAdapter, ManualReviewRequired)
  }

  /**
   What the states of a lifecycle receipt mean. Converged: reported so and read back so. Deferred:
   nobody knows whether the apply took effect. Failed: refused outright, or read back failed. A
   retry is unneeded exactly when converged, and prepared exactly when an unknown outcome was read.
   */
  lemma {:induction false} VerdictMeans(desired: Digest<Value>, applied: Outcome, verified: Outcome)
    ensures
      var (state, _, retry) := Verdict(desired, applied, verified);
      && (state == ExecConverged <==>
            applied.Ok? && applied.value.state == Converged
            && verified.Ok? && verified.value.state == Converged && verified.value.resultDigest == desired)
      && (state == ExecDeferred <==> applied.Err? && Unknown(applied.error))
      && (state == ExecFailed <==>
            if applied.Ok? then verified.Ok? && verified.value.state == Failed else !Unknown(applied.error))
      && (retry == NotNeeded <==> state == ExecConverged)
      && (retry == ObserveBeforeRetryCompleted <==> state == ExecDeferred && verified.Ok?)
  {
  }

  function Kept(r: Outcome): Option<AdapterReceipt> {
    match r
    case Ok(receipt) => Some(receipt)
    case Err(_) => None
  }

  function Lifecycle(a: AuthorizationReceipt, g: ApplyGate, applied: Outcome, verified: Outcome): LifecycleReceipt {
    var (state, reason, retry) := Verdict(g.operation.desiredDigest, applied, verified);
    LifecycleReceipt(g.operation.operationId, a, Kept(applied), Kept(verified), state, reason, retry)
  }

  /** After a restart with the apply started but never reported, the target is read, never applied again. */
  function Restarted(a: AuthorizationReceipt, g: ApplyGate, verified: Outcome): LifecycleReceipt {
    var (state, reason) :=
      match verified
      case Ok(v) =>
        if v.state == Converged && v.resultDigest == g.operation.desiredDigest
        then (ExecPartiallyConverged, EffectObservedAfterRestart)
        else (ExecDeferred, RestartObservationMismatch)
      case Err(_) => (ExecDeferred, RestartObservationUnavailable);
    LifecycleReceipt(g.operation.operationId, a, None, Kept(verified), state, reason, ManualReviewRequired)
  }

  // ---------------------------------------------------------------- scripts

  datatype Action = Write(phase: Phase, adapter: Option<AdapterReceipt>, lifecycle: Option<LifecycleReceipt>) | Call

  function RowAt(j: Journal, key: JournalKey): Option<Row> {
    if key in j then Some(j[key]) else None
  }

  /** The attempts that call the host: those that find no row to continue from. */
  predicate CallsHost(row: Option<Row>) {
    row.None? || ((row.value.phase.PhaseVerified? || row.value.phase.Complete?) && row.value.lifecycle.None?)
  }

  function Finish(r: LifecycleReceipt): seq<Action> {
    [Write(PhaseVerified, None, Some(r)), Write(Complete, None, Some(r))]
  }

  function AdapterReport(applied: Outcome): seq<Action> {
    match applied
    case Ok(receipt) => [Write(AdapterReported, Some(receipt), None)]
    case Err(_) => []
  }

  function Opening(applied: Outcome, receipt: LifecycleReceipt): seq<Action> {
    [Write(Started, None, None), Call] + AdapterReport(applied) + Finish(receipt)
  }

  /** What an authorized attempt does, in order, and how it ends if it is not cut short. */
  function Script(row: Option<Row>, a: AuthorizationReceipt, g: ApplyGate, replies: Replies): (seq<Action>, Ending) {
    if CallsHost(row) then
      var receipt := Lifecycle(a, g, replies.applied, replies.verified);
      (Opening(replies.applied, receipt), Ok(receipt))
    else
      match row.value.phase
      case PhaseVerified => ([Write(Complete, None, row.value.lifecycle)], Ok(row.value.lifecycle.value))
      case Complete => ([], Ok(row.value.lifecycle.value))
      case Started =>
        var receipt := Restarted(a, g, replies.verified);
        ([Write(Complete, None, Some(receipt))], Ok(receipt))
      case AdapterReported =>
        if row.value.adapter.None? then ([], Err(JournalInvalid))
        else
          var receipt := Lifecycle(a, g, Ok(row.value.adapter.value), replies.verified);
          (Finish(receipt), Ok(receipt))
  }

  function KeyOf(g: ApplyGate): JournalKey {
    (g.request.body.requestId, Sha(g.operation))
  }

  function Attempt(p: ControllerPolicy, l: Ledger, j: Journal, order: Order, now: nat,
        replies: Replies): (seq<Action>, Ending)
  {
    if order.schemaVersion != EXECUTION_SCHEMA then ([], Err(SchemaInvalid))
    else
      match ResumeGate(p, l, order.gate, now)
      case Err(e) => ([], Err(NotAuthorized(e)))
      case Ok(a) => Script(RowAt(j, KeyOf(order.gate)), a, order.gate, replies)
  }

  function Act(j: Journal, key: JournalKey, a: Action): Journal {
    match a
    case Call => j
    case Write(phase, adapter, lifecycle) => Upsert(j, key, phase, adapter, lifecycle)
  }

  /** The journal after the first `budget` actions of a script. */
  function Perform(j: Journal, key: JournalKey, script: seq<Action>, budget: nat): Journal
    decreases |script|
  {
    if script == [] || budget == 0 then j else Perform(Act(j, key, script[0]), key, script[1..], budget - 1)
  }

  /** The host calls among the first `budget` actions. */
  function CallsIn(key: JournalKey, script: seq<Action>, budget: nat): seq<JournalKey>
    decreases |script|
  {
    if script == [] || budget == 0 then []
    else (if script[0].Call? then [key] else []) + CallsIn(key, script[1..], budget - 1)
  }

  /** Whether the host call of a script is among its first `budget` actions. */
  predicate Reaches(script: seq<Action>, budget: nat) {
    exists k :: 0 <= k < budget && k < |script| && script[k].Call?
  }

  lemma {:induction false} ReachesTheHost(row: Option<Row>, a: AuthorizationReceipt, g: ApplyGate, replies: Replies,
        budget: nat)
    ensures Reaches(Script(row, a, g, replies).0, budget) <==> CallsHost(row) && budget >= 2
  {
    var script := Script(row, a, g, replies).0;
    if CallsHost(row) {
      assert script[0] == Write(Started, None, None) && script[1] == Call;
    }
  }

  function Answered(script: seq<Action>, ending: Ending, budget: nat): Option<Ending> {
    if budget < |script| then None else Some(ending)
  }

  // ---------------------------------------------------------------- the procedure itself

  function RepliesOf(h: Host, o: AdapterOperation, now: nat, row: Option<Row>): Replies {
    var after := if CallsHost(row) then HostExecute(h, o, now).0 else h;
    Replies(HostExecute(h, o, now).1, HostVerify(after, o))
  }

  /** The replies an order meets, given the host it is sent to. */
  function Met(h: Host, j: Journal, order: Order, now: nat): Replies {
    RepliesOf(h, order.gate.operation, now, RowAt(j, KeyOf(order.gate)))
  }

  lemma {:induction false} PerformFirst(j: Journal, key: JournalKey, a: Action, rest: seq<Action>, budget: nat)
    requires budget > 0
    ensures Perform(j, key, [a] + rest, budget) == Perform(Act(j, key, a), key, rest, budget - 1)
  {
    assert ([a] + rest)[1..] == rest;
  }

  method PersistComplete(controller: Controller, key: JournalKey, receipt: LifecycleReceipt, budget: nat)
    returns (done: bool)
    modifies controller`journal
    ensures controller.journal == Perform(old(controller.journal), key, [Write(Complete, None, Some(receipt))], budget)
    ensures done <==> budget >= 1
  {
    if budget == 0 {
      return false;
    }
    controller.RecordExecutionPhase(key, Complete, None, Some(receipt));
    return true;
  }

  method PersistVerifiedAndComplete(controller: Controller, key: JournalKey, receipt: LifecycleReceipt, budget: nat)
    returns (done: bool)
    modifies controller`journal
    ensures controller.journal == Perform(old(controller.journal), key, Finish(receipt), budget)
    ensures done <==> budget >= 2
  {
    if budget == 0 {
      return false;
    }
    controller.RecordExecutionPhase(key, PhaseVerified, None, Some(receipt));
    PerformFirst(old(controller.journal), key, Write(PhaseVerified, None, Some(receipt)),
                 [Write(Complete, None, Some(receipt))], budget);
    done := PersistComplete(controller, key, receipt, budget - 1);
  }

  /** Journals what the adapter reported, reads the target and ends the attempt. */
  method Conclude(controller: Controller, host: AdapterHost, a: AuthorizationReceipt, g: ApplyGate, applied: Outcome,
        budget: nat)
    returns (answer: Option<Ending>)
    requires host.Valid()
    modifies controller`journal
    ensures
      var receipt := Lifecycle(a, g, applied, HostVerify(host.View(), g.operation));
      && answer == Answered(AdapterReport(applied) + Finish(receipt), Ok(receipt), budget)
      && controller.journal
         == Perform(old(controller.journal), KeyOf(g), AdapterReport(applied) + Finish(receipt), budget)
  {
    var left := budget;
    if applied.Ok? {
      if left == 0 {
        return None;
      }
      controller.RecordExecutionPhase(KeyOf(g), AdapterReported, Some(applied.value), None);
      left := left - 1;
    }
    var verified := host.VerifyAuthorized(g.operation);
    var receipt := Lifecycle(a, g, applied, verified);
    if applied.Ok? {
      PerformFirst(old(controller.journal), KeyOf(g), Write(AdapterReported, Some(applied.value), None),
                   Finish(receipt), budget);
    } else {
      assert AdapterReport(applied) + Finish(receipt) == Finish(receipt);
    }
    var done := PersistVerifiedAndComplete(controller, KeyOf(g), receipt, left);
    return if done then Some(Ok(receipt)) else None;
  }

  lemma {:induction false} OpeningPerforms(j: Journal, key: JournalKey, applied: Outcome, receipt: LifecycleReceipt,
        budget: nat)
    requires budget > 0
    ensures
      var rest := [Call] + (AdapterReport(applied) + Finish(receipt));
      && |Opening(applied, receipt)| == 1 + |rest|
      && Perform(j, key, Opening(applied, receipt), budget)
         == Perform(Act(j, key, Write(Started, None, None)), key, rest, budget - 1)
  {
    var rest := [Call] + (AdapterReport(applied) + Finish(receipt));
    assert Opening(applied, receipt) == [Write(Started, None, None)] + rest;
    PerformFirst(j, key, Write(Started, None, None), rest, budget);
  }

  /** The one call of the host, and what follows it. */
  method CallAndConclude(controller: Controller, host: AdapterHost, a: AuthorizationReceipt, g: ApplyGate, now: nat,
        budget: nat)
    returns (answer: Option<Ending>)
    requires host.Valid()
    modifies controller`journal, host, host.adapters.Values
    ensures
      var (after, applied) := HostExecute(old(host.View()), g.operation, now);
      var receipt := Lifecycle(a, g, applied, HostVerify(after, g.operation));
      var rest := AdapterReport(applied) + Finish(receipt);
      && answer == Answered([Call] + rest, Ok(receipt), budget)
      && controller.journal == Perform(old(controller.journal), KeyOf(g), [Call] + rest, budget)
      && host.View() == (if budget >= 1 then after else old(host.View()))
    ensures host.Valid() && host.adapters == old(host.adapters)
  {
    if budget == 0 {
      return None;
    }
    var applied := host.Execute(g.operation, now);
    PerformFirst(controller.journal, KeyOf(g), Call,
                 AdapterReport(applied) + Finish(Lifecycle(a, g, applied, HostVerify(host.View(), g.operation))),
                   budget);
    answer := Conclude(controller, host, a, g, applied, budget - 1);
  }

  /** The part of an attempt that calls the host. */
  method ExecuteAfresh(controller: Controller, host: AdapterHost, a: AuthorizationReceipt, g: ApplyGate, now: nat,
        budget: nat)
    returns (answer: Option<Ending>)
    requires host.Valid()
    modifies controller`journal, host, host.adapters.Values
    ensures
      var (after, applied) := HostExecute(old(host.View()), g.operation, now);
      var receipt := Lifecycle(a, g, applied, HostVerify(after, g.operation));
      && answer == Answered(Opening(applied, receipt), Ok(receipt), budget)
      && controller.journal == Perform(old(controller.journal), KeyOf(g), Opening(applied, receipt), budget)
      && host.View() == (if budget >= 2 then after else old(host.View()))
    ensures host.Valid() && host.adapters == old(host.adapters)
  {
    if budget == 0 {
      return None;
    }
    controller.RecordExecutionPhase(KeyOf(g), Started, None, None);
    ghost var reply := HostExecute(host.View(), g.operation, now);
    OpeningPerforms(old(controller.journal), KeyOf(g), reply.1,
                    Lifecycle(a, g, reply.1, HostVerify(reply.0, g.operation)), budget);
    answer := CallAndConclude(controller, host, a, g, now, budget - 1);
  }

  /** The part of an attempt that continues from a journalled phase, without calling the host. */
  method Continue(controller: Controller, host: AdapterHost, a: AuthorizationReceipt, g: ApplyGate, row: Row,
        budget: nat, ghost applied: Outcome)
    returns (answer: Option<Ending>)
    requires host.Valid() && !CallsHost(Some(row))
    modifies controller`journal
    ensures
      var (script, ending) := Script(Some(row), a, g, Replies(applied, HostVerify(host.View(), g.operation)));
      && answer == Answered(script, ending, budget)
      && controller.journal == Perform(old(controller.journal), KeyOf(g), script, budget)
  {
    var key := KeyOf(g);
    if row.phase.PhaseVerified? || row.phase.Complete? {
      if row.phase.PhaseVerified? {
        var done := PersistComplete(controller, key, row.lifecycle.value, budget);
        return if done then Some(Ok(row.lifecycle.value)) else None;
      }
      return Some(Ok(row.lifecycle.value));
    }
    if row.phase.Started? {
      var verified := host.VerifyAuthorized(g.operation);
      var receipt := Restarted(a, g, verified);
      var done := PersistComplete(controller, key, receipt, budget);
      return if done then Some(Ok(receipt)) else None;
    }
    if row.adapter.None? {
      return Some(Err(JournalInvalid));
    }
    var verified := host.VerifyAuthorized(g.operation);
    var receipt := Lifecycle(a, g, Ok(row.adapter.value), verified);
    var done := PersistVerifiedAndComplete(controller, key, receipt, budget);
    return if done then Some(Ok(receipt)) else None;
  }

  /** The attempt once the stored authorization has been found. */
  method ExecuteResumed(controller: Controller, host: AdapterHost, a: AuthorizationReceipt, g: ApplyGate, now: nat,
        budget: nat)
    returns (answer: Option<Ending>)
    requires host.Valid()
    modifies controller`journal, host, host.adapters.Values
    ensures
      var row := RowAt(old(controller.journal), KeyOf(g));
      var (script, ending) := Script(row, a, g, RepliesOf(old(host.View()), g.operation, now, row));
      && answer == Answered(script, ending, budget)
      && controller.journal == Perform(old(controller.journal), KeyOf(g), script, budget)
      && host.View()
         == (if CallsHost(row) && budget >= 2 then HostExecute(old(host.View()), g.operation, now).0
             else old(host.View()))
    ensures host.Valid() && host.adapters == old(host.adapters)
  {
    var row := RowAt(controller.journal, KeyOf(g));
    if CallsHost(row) {
      answer := ExecuteAfresh(controller, host, a, g, now, budget);
    } else {
      ghost var replies := RepliesOf(host.View(), g.operation, now, row);
      answer := Continue(controller, host, a, g, row.value, budget, replies.applied);
    }
  }

  /** `budget` is the number of journal writes and host calls made before the process dies. */
  method ExecuteAuthorized(controller: Controller, host: AdapterHost, order: Order, now: nat, budget: nat)
    returns (answer: Option<Ending>)
    requires host.Valid()
    modifies controller`journal, host, host.adapters.Values
    ensures
      var j, h := old(controller.journal), old(host.View());
      var (script, ending) := Attempt(controller.policy, controller.View(), j, order, now, Met(h, j, order, now));
      && answer == Answered(script, ending, budget)
      && controller.journal == Perform(j, KeyOf(order.gate), script, budget)
      && host.View() == (if Reaches(script, budget) then HostExecute(h, order.gate.operation, now).0 else h)
    ensures host.Valid() && host.adapters == old(host.adapters)
  {
    if order.schemaVersion != EXECUTION_SCHEMA {
      return Some(Err(SchemaInvalid));
    }
    var resumed := controller.ResumeAuthorizedApply(order.gate, now);
    if resumed.Err? {
      return Some(Err(NotAuthorized(resumed.error)));
    }
    ghost var replies := Met(host.View(), controller.journal, order, now);
    ReachesTheHost(RowAt(controller.journal, KeyOf(order.gate)), resumed.value, order.gate, replies, budget);
    answer := ExecuteResumed(controller, host, resumed.value, order.gate, now, budget);
  }
}
