/** Recovery: a separately authorized operation that undoes one converged execution. It keeps no journal. */
module Recovery {
  import opened Common
  import opened Json
  import opened Gates
  import opened Controllers
  import Execution
  import opened Adapters
  import opened PolicyEvaluation

  const RECOVERY_SCHEMA := "iicp.management-local-recovery.v1"

  datatype Strategy = ExactReversal | Compensation | Safing

  datatype RecoveryGate = RecoveryGate(
    schemaVersion: string,
    request: Signed<Request>,
    originalGate: ApplyGate,
    originalExecution: LifecycleReceipt,
    operation: AdapterOperation,
    strategy: Strategy,
    authority: ProgressiveAuthority,
    authorization: Signed<Authorization>)

  datatype GateFault =
    | OriginalGateInvalid | OriginalPlanInvalid | ExecutionUnproven | BindingInvalid | RecoveryModeNotAuthorized

  function ActionFor(s: Strategy): ActionName {
    match s
    case ExactReversal => Rollback
    case Compensation => Compensate
    case Safing => Safe
  }

  /** Request and operation agree, and both are about undoing the original. */
  predicate OperationBinds(g: RecoveryGate) {
    var r, o, original := g.request.body, g.operation, g.originalGate.operation;
    && g.schemaVersion == RECOVERY_SCHEMA
    && r.action == o.action == ActionFor(g.strategy)
    && r.requestId == o.operationId
    && r.resourceIds == [o.targetId]
    && r.payloadDigest == StatePayload(o.desiredDigest)
    && r.planDigest == o.planDigest == Sha(OfRecovery(g.originalGate, g.originalExecution))
    && o.targetId == original.targetId && o.capability == original.capability
    && o.related == Some(original.operationId)
  }

  /** The operation starts from the generation the original reached and aims at what its plan found before. */
  predicate OutcomeBinds(g: RecoveryGate) {
    var planned := FindPlanned(g.originalGate.plan.operations, g.originalGate.operation.operationId);
    && g.originalExecution.adapter.Some? && planned.Some?
    && g.operation.expectedGeneration == g.originalExecution.adapter.value.generation
    && g.operation.desiredDigest == planned.value.beforeDigest
    && g.originalExecution.state == ExecConverged
  }

  predicate AuthorityBinds(g: RecoveryGate, now: nat) {
    var r, o, a, e := g.request.body, g.operation, g.authorization.body, g.authority;
    && a.operationDigest == Sha(o)
    && a.planDigest == r.planDigest
    && a.issuerId == r.issuerId && a.audience == r.audience && a.domain == r.domain
    && a.mode == e.mode && a.policyGeneration == e.policyGeneration && a.factDigest == e.factDigest
    && a.boundary == Satisfied && a.proposed == Allow && e.proposed == Some(Allow)
    && e.planDigest == Some(r.planDigest)
    && e.authorizationDigest == Some(Sha(g.authorization))
    && a.issuedAt <= now <= a.expiresAt <= r.expiresAt
    && o.expiresAt <= r.expiresAt
  }

  function RecoveryFault(g: RecoveryGate, now: nat): Option<GateFault> {
    if ApplyGateFault(g.originalGate, g.originalGate.authorization.body.issuedAt).Some? then Some(OriginalGateInvalid)
    else if FindPlanned(g.originalGate.plan.operations, g.originalGate.operation.operationId).None?
    then Some(OriginalPlanInvalid)
    else if g.originalExecution.adapter.None? then Some(ExecutionUnproven)
    else if !OperationBinds(g) || !OutcomeBinds(g) || !AuthorityBinds(g, now) then Some(BindingInvalid)
    else if !Actionable(g.authority.mode) then Some(RecoveryModeNotAuthorized)
    else None
  }

  // ---------------------------------------------------------------- authorization

  function RecoveryBinding(g: RecoveryGate): Binding {
    Binding(Sha(g.operation), Sha(g.authorization))
  }

  function AuthorizeRecovery(p: ControllerPolicy, l: Ledger, g: RecoveryGate, now: nat): (Ledger, Permit) {
    if RecoveryFault(g, now).Some? then (l, Err(GateInvalid))
    else if !SignedBy(g.authorization, p.key) then (l, Err(SignatureInvalid))
    else AuthorizeBound(p, l, g.request, now, RecoveryBinding(g))
  }

  function ResumeRecovery(p: ControllerPolicy, l: Ledger, g: RecoveryGate, now: nat): Permit {
    if RecoveryFault(g, now).Some? then Err(GateInvalid)
    else if !SignedBy(g.request, p.key) || !SignedBy(g.authorization, p.key) then Err(SignatureInvalid)
    else FindGrant(l, g.request.body.requestId, RecoveryBinding(g))
  }

  method AuthorizeRecoveryGate(controller: Controller, g: RecoveryGate, now: nat) returns (r: Permit)
    modifies controller
    ensures (controller.View(), r) == AuthorizeRecovery(controller.policy, old(controller.View()), g, now)
    ensures controller.journal == old(controller.journal)
  {
    if RecoveryFault(g, now).Some? {
      return Err(GateInvalid);
    }
    if !SignedBy(g.authorization, controller.policy.key) {
      return Err(SignatureInvalid);
    }
    var answer := controller.EvaluateAuthorized(g.request, now, Some(RecoveryBinding(g)));
    if answer.Err? {
      return Err(answer.error);
    }
    return Ok(AuthorizationOf(answer.value, RecoveryBinding(g)));
  }

  // ---------------------------------------------------------------- execution

  datatype RecoveryOutcome = Reversed | Compensated | Safed | PartiallyRecovered | RecoveryDeferred | RecoveryFailed

  datatype NextAction =
    | NoAction
    | DefineAdapterCompensation
    | DefineAdapterSafeState
    | KeepTargetSafedAndReview
    | ObserveBeforeRetry
    | ObserveAndReview
    | KeepCurrentStateAndReplan

  datatype RecoveryReceipt = RecoveryReceipt(
    operationId: string,
    strategy: Strategy,
    authorization: AuthorizationReceipt,
    adapter: Option<AdapterReceipt>,
    verification: Option<AdapterReceipt>,
    outcome: RecoveryOutcome,
    next: NextAction)

  datatype RecoveryError = InvalidGate(fault: GateFault) | NotPermitted(error: ControllerError)

  type RecoveryEnding = Result<RecoveryReceipt, RecoveryError>

  function RecoveryVerdict(desired: Digest<Value>, recovered: Outcome, verified: Outcome): (RecoveryOutcome, NextAction)
  {
    match (recovered, verified)
    case (Ok(a), Ok(v)) =>
      if a.state == Converged && v.state == Converged && v.resultDigest == desired then (Reversed, NoAction)
      else (PartiallyRecovered, KeepTargetSafedAndReview)
    case (Err(e), _) =>
      if Execution.Unknown(e) then (RecoveryDeferred, ObserveBeforeRetry)
      else (RecoveryFailed, KeepCurrentStateAndReplan)
    case (Ok(_), Err(_)) => (PartiallyRecovered, ObserveAndReview)
  }

  /**
   Reversed: rolled back and read back as desired. Deferred: nobody knows. Failed: refused outright.
   Anything else is partial.
   */
  lemma {:induction false} RecoveryVerdictMeans(desired: Digest<Value>, recovered: Outcome, verified: Outcome)
    ensures
      var (outcome, next) := RecoveryVerdict(desired, recovered, verified);
      && (outcome == Reversed <==>
            recovered.Ok? && recovered.value.state == Converged
            && verified.Ok? && verified.value.state == Converged && verified.value.resultDigest == desired)
      && (outcome == RecoveryDeferred <==> recovered.Err? && Execution.Unknown(recovered.error))
      && (outcome == RecoveryFailed <==> recovered.Err? && !Execution.Unknown(recovered.error))
      && (next == NoAction <==> outcome == Reversed)
      && (next == ObserveBeforeRetry <==> outcome == RecoveryDeferred)
      && (next == ObserveAndReview <==> outcome == PartiallyRecovered && verified.Err?)
  {
  }

  function RecoveryReport(a: AuthorizationReceipt, g: RecoveryGate, recovered: Outcome,
        verified: Outcome): RecoveryReceipt
  {
    var (outcome, next) := RecoveryVerdict(g.operation.desiredDigest, recovered, verified);
    RecoveryReceipt(g.operation.operationId, g.strategy, a, Execution.Kept(recovered), Execution.Kept(verified),
                    outcome, next)
  }

  function UnsupportedReport(a: AuthorizationReceipt, g: RecoveryGate): RecoveryReceipt {
    RecoveryReceipt(g.operation.operationId, g.strategy, a, None, None, RecoveryFailed,
                    if g.strategy == Compensation then DefineAdapterCompensation else DefineAdapterSafeState)
  }

  function Recover(p: ControllerPolicy, l: Ledger, h: Host, g: RecoveryGate, now: nat): (Host, RecoveryEnding) {
    match RecoveryFault(g, now)
    case Some(f) => (h, Err(InvalidGate(f)))
    case None =>
      match ResumeRecovery(p, l, g, now)
      case Err(e) => (h, Err(NotPermitted(e)))
      case Ok(a) =>
        if g.strategy != ExactReversal then (h, Ok(UnsupportedReport(a, g)))
        else
          var (after, recovered) := HostExecute(h, g.operation, now);
          (after, Ok(RecoveryReport(a, g, recovered, HostVerify(after, g.operation))))
  }

  /** The host part of a recovery, once it is authorized. */
  method Reverse(host: AdapterHost, a: AuthorizationReceipt, g: RecoveryGate, now: nat)
    returns (receipt: RecoveryReceipt)
    requires host.Valid()
    modifies host, host.adapters.Values
    ensures
      var (after, recovered) := HostExecute(old(host.View()), g.operation, now);
      host.View() == after && receipt == RecoveryReport(a, g, recovered, HostVerify(after, g.operation))
    ensures host.Valid() && host.adapters == old(host.adapters)
  {
    var recovered := host.Execute(g.operation, now);
    var verified := host.VerifyAuthorized(g.operation);
    var (outcome, next) := RecoveryVerdict(g.operation.desiredDigest, recovered, verified);
    return RecoveryReceipt(g.operation.operationId, g.strategy, a, Execution.Kept(recovered), Execution.Kept(verified),
                           outcome, next);
  }

  method ExecuteRecovery(controller: Controller, host: AdapterHost, g: RecoveryGate, now: nat)
    returns (ending: RecoveryEnding)
    requires host.Valid()
    modifies host, host.adapters.Values
    ensures (host.View(), ending) == Recover(controller.policy, controller.View(), old(host.View()), g, now)
    ensures host.Valid() && host.adapters == old(host.adapters)
  {
    var fault := RecoveryFault(g, now);
    if fault.Some? {
      return Err(InvalidGate(fault.value));
    }
    if !SignedBy(g.request, controller.policy.key) || !SignedBy(g.authorization, controller.policy.key) {
      return Err(NotPermitted(SignatureInvalid));
    }
    var resumed := controller.ResumeBound(g.request.body.requestId, RecoveryBinding(g));
    if resumed.Err? {
      return Err(NotPermitted(resumed.error));
    }
    if g.strategy != ExactReversal {
      return Ok(UnsupportedReport(resumed.value, g));
    }
    var receipt := Reverse(host, resumed.value, g, now);
    return Ok(receipt);
  }

  // ---------------------------------------------------------------- reversal is exact

  /** A history entry is never replaced. */
  lemma {:induction false} HistoryIsKept(a: Synthetic, life: Life, calls: seq<Adapters.Call>, id: string)
    requires id in a.history
    ensures
      var later := RunAdapter(a, life, calls).0;
      id in later.history && later.history[id] == a.history[id]
    decreases |calls|
  {
    if calls == [] {
    } else {
      var next := Adapters.Perform(a, calls[0]).0;
      HistoryIsKept(next, Witness(life, a, next, calls[0]), calls[1..], id);
    }
  }

  /** A fresh apply that converges records the state it replaced. */
  lemma {:induction false} ApplyRemembers(a: Synthetic, o: AdapterOperation, now: nat)
    requires o.operationId !in a.history && ApplySynthetic(a, o, now).1.Ok?
             && ApplySynthetic(a, o, now).1.value.state == Converged
    ensures
      var (after, r) := ApplySynthetic(a, o, now);
      && o.operationId in after.history && after.history[o.operationId].prior == a.state
      && r.value.generation == after.generation
  {
  }

  /**
   An apply, any run of further calls, then a rollback bound to the apply's own receipt: the
   rollback takes effect exactly when nothing else has moved the target since, and then puts back
   exactly the state the apply found.
   */
  lemma {:induction false} RollbackRestoresExactly(a: Synthetic, life: Life, o: AdapterOperation, now: nat,
        between: seq<Adapters.Call>, back: AdapterOperation)
    requires Clocked(a, life)
    requires o.operationId !in a.history && ApplySynthetic(a, o, now).1.Ok?
             && ApplySynthetic(a, o, now).1.value.state == Converged
    requires back.related == Some(o.operationId)
             && back.expectedGeneration == ApplySynthetic(a, o, now).1.value.generation
    ensures
      var applied := ApplySynthetic(a, o, now).0;
      var later := RunAdapter(applied, Witness(life, a, applied, CallApply(o, now)), between).0;
      var (restored, r) := RollbackSynthetic(later, back);
      && (back.operationId !in later.rollbacks ==> (r.Ok? <==> later.generation == applied.generation))
      && (back.operationId in later.rollbacks || r.Err? ==> restored == later)
      && (restored != later ==> later.state == applied.state && restored.state == a.state)
  {
    var applied := ApplySynthetic(a, o, now).0;
    var since := Witness(life, a, applied, CallApply(o, now));
    ApplyRemembers(a, o, now);
    PerformStaysClocked(a, CallApply(o, now), life);
    StateIsFunctionOfGeneration(applied, since, between);
    HistoryIsKept(applied, since, between, o.operationId);
  }

  /**
   What the gate buys: with the genuine receipt of a converged apply, a gated rollback that moves
   the target puts back the state before that apply; the read-back then confirms it exactly when
   the plan's before-digest was right.
   */
  lemma {:induction false} GatedRollbackRestores(g: RecoveryGate, checked: nat, a: Synthetic, life: Life, now: nat,
        between: seq<Adapters.Call>)
    requires RecoveryFault(g, checked).None? && Clocked(a, life)
    requires
      var o := g.originalGate.operation;
      && o.operationId !in a.history && ApplySynthetic(a, o, now).1 == Ok(g.originalExecution.adapter.value)
      && g.originalExecution.adapter.value.state == Converged
    ensures
      var o := g.originalGate.operation;
      var applied := ApplySynthetic(a, o, now).0;
      var later := RunAdapter(applied, Witness(life, a, applied, CallApply(o, now)), between).0;
      var restored := RollbackSynthetic(later, g.operation).0;
      var planned := FindPlanned(g.originalGate.plan.operations, o.operationId).value;
      restored != later ==>
        && restored.state == a.state
        && (VerifySynthetic(restored, g.operation).state == Converged <==> planned.beforeDigest == Sha(a.state))
  {
    assert OperationBinds(g) && OutcomeBinds(g);
    RollbackRestoresExactly(a, life, g.originalGate.operation, now, between, g.operation);
  }

  // ---------------------------------------------------------------- what Reversed means

  /** The value a target holds. */
  function Holds(h: Host, o: AdapterOperation): Value
    requires SlotOf(o) in h.adapters
  {
    h.adapters[SlotOf(o)].state
  }

  lemma {:induction false} ReversedWasRead(a: AuthorizationReceipt, g: RecoveryGate, recovered: Outcome, after: Host)
    requires RecoveryReport(a, g, recovered, HostVerify(after, g.operation)).outcome == Reversed
    ensures SlotOf(g.operation) in after.adapters && Sha(Holds(after, g.operation)) == g.operation.desiredDigest
  {
  }

  /** Whatever the host did, Reversed is only said when the target holds what the original plan found before it. */
  lemma {:induction false} ReversedMeansBeforeWasReadBack(p: ControllerPolicy, l: Ledger, h: Host, g: RecoveryGate,
        now: nat)
    requires Recover(p, l, h, g, now).1.Ok? && Recover(p, l, h, g, now).1.value.outcome == Reversed
    ensures
      var after := Recover(p, l, h, g, now).0;
      var planned := FindPlanned(g.originalGate.plan.operations, g.originalGate.operation.operationId);
      && planned.Some? && SlotOf(g.originalGate.operation) in after.adapters
      && planned.value.beforeDigest == Sha(Holds(after, g.originalGate.operation))
  {
    var after := Recover(p, l, h, g, now).0;
    assert OperationBinds(g) && OutcomeBinds(g);
    ReversedWasRead(ResumeRecovery(p, l, g, now).value, g, HostExecute(h, g.operation, now).1, after);
  }

}
