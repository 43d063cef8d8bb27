/** What a recovery does and answers: told from its gate, from the target, and from what the target says. */
module RecoveryLaws {
  import opened Common
  import opened Json
  import opened Gates
  import opened Controllers
  import opened Adapters
  import opened Recovery
  import opened HostLaws
  import opened GateLaws
  import opened ExecutionLaws

  /** Outcome and advice of a recovery that was executed, from what was reported and what was read. */
  predicate Concludes(r: RecoveryReceipt, desired: Digest<Value>, reported: Outcome, read: Outcome) {
    var readBack := read.Ok? && read.value.state == Converged && read.value.resultDigest == desired;
    && r.adapter == (if reported.Ok? then Some(reported.value) else None)
    && r.verification == (if read.Ok? then Some(read.value) else None)
    && ((r.outcome, r.next) == (Reversed, NoAction) <==>
          reported.Ok? && reported.value.state == Converged && readBack)
    && ((r.outcome, r.next) == (PartiallyRecovered, KeepTargetSafedAndReview) <==>
          reported.Ok? && read.Ok? && !(reported.value.state == Converged && readBack))
    && ((r.outcome, r.next) == (PartiallyRecovered, ObserveAndReview) <==> reported.Ok? && read.Err?)
    && ((r.outcome, r.next) == (RecoveryDeferred, ObserveBeforeRetry) <==>
          reported.Err? && LeavesUnknown(reported.error))
    && ((r.outcome, r.next) == (RecoveryFailed, KeepCurrentStateAndReplan) <==>
          reported.Err? && !LeavesUnknown(reported.error))
  }

  /** The receipt is about the recovery, under the authorization the ledger granted for it. */
  predicate NamesItsRecovery(r: RecoveryReceipt, l: Ledger, g: RecoveryGate) {
    && r.operationId == g.operation.operationId && r.strategy == g.strategy
    && g.request.body.requestId in l.grants
    && r.authorization
       == AuthorizationReceipt(g.request.body.requestId, Accepted,
                               Some(l.grants[g.request.body.requestId].generation), Sha(g.operation),
                               Sha(g.authorization))
  }

  lemma {:induction false} ReportConcludes(a: AuthorizationReceipt, g: RecoveryGate, reported: Outcome, read: Outcome)
    ensures Concludes(RecoveryReport(a, g, reported, read), g.operation.desiredDigest, reported, read)
  {
  }

  lemma {:induction false} MayUndoResumes(p: ControllerPolicy, l: Ledger, g: RecoveryGate, now: nat)
    requires MayUndo(p, l, g, now)
    ensures RecoveryFault(g, now).None?
    ensures ResumeRecovery(p, l, g, now)
            == Ok(AuthorizationReceipt(g.request.body.requestId, Accepted,
                                       Some(l.grants[g.request.body.requestId].generation), Sha(g.operation),
                                       Sha(g.authorization)))
  {
    RecoveryAcceptedExactlyWhen(g, now);
  }

  /**
   A recovery that is let through and reverses exactly executes its operation once and reads the
   target; its receipt is drawn from both.
   */
  lemma {:induction false} ReversalConcludes(p: ControllerPolicy, l: Ledger, h: Host, g: RecoveryGate, now: nat)
    requires MayUndo(p, l, g, now) && g.strategy == ExactReversal
    ensures
      var (after, ending) := Recover(p, l, h, g, now);
      var (executed, reported) := HostExecute(h, g.operation, now);
      && after == executed && ending.Ok? && NamesItsRecovery(ending.value, l, g)
      && Concludes(ending.value, g.operation.desiredDigest, reported, HostVerify(executed, g.operation))
  {
    MayUndoResumes(p, l, g, now);
    var (executed, reported) := HostExecute(h, g.operation, now);
    ReportConcludes(ResumeRecovery(p, l, g, now).value, g, reported, HostVerify(executed, g.operation));
  }

  /** The other strategies touch nothing, and ask for an adapter that has them. */
  lemma {:induction false} OtherStrategiesAreRefused(p: ControllerPolicy, l: Ledger, h: Host, g: RecoveryGate, now: nat)
    requires MayUndo(p, l, g, now) && g.strategy != ExactReversal
    ensures
      var (after, ending) := Recover(p, l, h, g, now);
      && after == h && ending.Ok? && NamesItsRecovery(ending.value, l, g)
      && ending.value.adapter.None? && ending.value.verification.None? && ending.value.outcome == RecoveryFailed
      && (g.strategy == Compensation ==> ending.value.next == DefineAdapterCompensation)
      && (g.strategy == Safing ==> ending.value.next == DefineAdapterSafeState)
  {
    MayUndoResumes(p, l, g, now);
  }

  /** A recovery that is not let through touches nothing and is told why: its gate first, then its permit. */
  lemma {:induction false} RefusedRecoveryDoesNothing(p: ControllerPolicy, l: Ledger, h: Host, g: RecoveryGate,
        now: nat)
    requires !MayUndo(p, l, g, now)
    ensures
      var (after, ending) := Recover(p, l, h, g, now);
      var holds := UndoHolds(g, now);
      var signed := IsSigned(g.request, p.key) && IsSigned(g.authorization, p.key);
      && after == h
      && (!holds ==> ending.Err? && ending.error.InvalidGate? && Some(ending.error.fault) == RecoveryFault(g, now))
      && (holds ==> ending == Err(NotPermitted(if signed then GateInvalid else SignatureInvalid)))
  {
    RecoveryAcceptedExactlyWhen(g, now);
  }

  /**
   A recovery whose rollback the host can take puts back what the target held before the original
   apply; it is reported reversed exactly when that is what the original plan found, and as partial
   otherwise.
   */
  lemma {:induction false} RecoveryTakesEffect(p: ControllerPolicy, l: Ledger, h: Host, g: RecoveryGate, now: nat)
    requires MayUndo(p, l, g, now) && g.strategy == ExactReversal
    requires Open(h, g.operation, now) && FreshRollback(Target(h, g.operation), g.operation)
    ensures
      var (after, ending) := Recover(p, l, h, g, now);
      var prior := Target(h, g.operation).history[g.originalGate.operation.operationId].prior;
      && Open(h, g.operation, now) && ElsewhereSame(h, after, g.operation)
      && Target(after, g.operation).state == prior
      && Target(after, g.operation).generation == Target(h, g.operation).generation + 1
      && ending.Ok?
      && (ending.value.outcome == Reversed <==> Sha(prior) == g.operation.desiredDigest)
      && (ending.value.outcome == PartiallyRecovered <==> Sha(prior) != g.operation.desiredDigest)
  {
    ReversalConcludes(p, l, h, g, now);
    RollbackTakesEffect(h, g.operation, now);
  }

  /** One whose rollback the host or the target refuses leaves every target alone and is reported failed. */
  lemma {:induction false} RefusedReversalFails(p: ControllerPolicy, l: Ledger, h: Host, g: RecoveryGate, now: nat)
    requires MayUndo(p, l, g, now) && g.strategy == ExactReversal && HostExecute(h, g.operation, now).1.Err?
    ensures
      var (after, ending) := Recover(p, l, h, g, now);
      after.adapters == h.adapters && ending.Ok? && ending.value.outcome == RecoveryFailed
  {
    ReversalConcludes(p, l, h, g, now);
    if Open(h, g.operation, now) {
      if FreshRollback(Target(h, g.operation), g.operation) {
        RollbackTakesEffect(h, g.operation, now);
      } else {
        StaleRollbackIsRefused(h, g.operation, now);
      }
    } else {
      NotOpenIsAnswered(h, g.operation, now);
    }
  }
}
