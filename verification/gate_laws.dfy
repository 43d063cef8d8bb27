/**
 What it takes to touch a target, in terms of the signed documents alone: who asked for what, and
 what the authorization says. Stated for one gate, then for every host call of every run.
 */
module GateLaws {
  import opened Common
  import opened Json
  import opened Gates
  import opened Controllers
  import opened Execution
  import opened ExecutionRuns
  import opened Adapters
  import opened HostedRuns
  import PolicyEvaluation
  import P = Planner
  import R = Recovery

  // ---------------------------------------------------------------- an apply gate

  /** Step `i` is the plan's first step with the operation's id, and plans what the operation does. */
  predicate IsStepFor(steps: seq<P.Operation>, i: nat, o: AdapterOperation) {
    && i < |steps| && steps[i].operationId == o.operationId
    && (forall j :: 0 <= j < i ==> steps[j].operationId != o.operationId)
    && steps[i].resourceId == o.targetId
    && steps[i].afterDigest == o.desiredDigest
    && steps[i].targetGeneration == o.expectedGeneration
  }

  ghost predicate PlannedStep(steps: seq<P.Operation>, o: AdapterOperation) {
    exists i :: IsStepFor(steps, i, o)
  }

  /** The request asks for an apply of exactly this state to exactly this target, under this plan. */
  predicate AsksToApply(r: Request, o: AdapterOperation, plan: P.Plan) {
    && r.action == Apply
    && r.requestId == o.operationId
    && r.resourceIds == [o.targetId]
    && o.desiredDigest == Sha(o.desired) && r.payloadDigest == Sha(DesiredState(o.desired))
    && r.planDigest == o.planDigest == Sha(OfPlan(plan))
    && r.expectedGeneration == plan.targetGeneration
    && o.expiresAt <= r.expiresAt
  }

  /** The authorization is about this request and operation, and holds at `now`. */
  predicate IsAbout(a: Authorization, r: Request, o: AdapterOperation, now: nat) {
    && a.operationDigest == Sha(o) && a.planDigest == r.planDigest
    && a.issuerId == r.issuerId && a.audience == r.audience && a.domain == r.domain
    && a.issuedAt <= now <= a.expiresAt <= r.expiresAt
  }

  /** The evidence is the authorization's own: the same mode, facts and proposal, and its digest. */
  predicate IsEvidenceFor(e: ProgressiveAuthority, signed: Signed<Authorization>, r: Request) {
    var a := signed.body;
    && e.mode == a.mode && e.boundary == a.boundary && e.policyGeneration == a.policyGeneration
    && e.factDigest == a.factDigest && e.proposed == Some(a.proposed)
    && e.planDigest == Some(r.planDigest) && e.authorizationDigest == Some(Sha(signed))
  }

  /** Every document of the gate is about the same operation. */
  ghost predicate HangsTogether(g: ApplyGate, now: nat) {
    var r, o, a := g.request.body, g.operation, g.authorization.body;
    && g.schemaVersion == "iicp.management-apply-gate.v1"
    && a.schemaVersion == "1" && a.signatureProfile == "ed25519-jcs-v1"
    && AsksToApply(r, o, g.plan) && PlannedStep(g.plan.operations, o)
    && IsAbout(a, r, o, now) && IsEvidenceFor(g.authority, g.authorization, r)
  }

  /** An authorization to act: the policy allows it, inside the boundary, in a mode that may act. */
  predicate AllowsActing(a: Authorization) {
    && a.proposed == PolicyEvaluation.Allow
    && a.boundary == Satisfied
    && a.mode in {Confirm, AutomaticWithinPolicy}
  }

  /** A digest spelled by its name and 64 lower-case hexadecimal digits. */
  predicate Spelled(text: string) {
    && |text| == 71 && text[..7] == "sha256:"
    && forall k :: 7 <= k < 71 ==> '0' <= text[k] <= '9' || 'a' <= text[k] <= 'f'
  }

  lemma {:induction false} SpelledIff<T>(d: Digest<T>)
    ensures DigestForm(d) <==> (d.Text? ==> Spelled(d.text))
  {
    if d.Text? && |d.text| == 71 {
      var digits := d.text[7..];
      assert forall k :: 7 <= k < 71 ==> d.text[k] == digits[k - 7] && digits[k - 7] in digits;
      forall c | c in digits ensures exists k :: 7 <= k < 71 && d.text[k] == c {
        var k :| 0 <= k < |digits| && digits[k] == c;
        assert d.text[k + 7] == c;
      }
    }
  }

  /** The evidence is filled in: named, with well-formed facts, and nothing in it to be understood first. */
  predicate FilledIn(e: ProgressiveAuthority) {
    && e.schemaVersion == "1" && e.mayRequestApply
    && !Blank(e.evidenceId) && !Blank(e.applicationId) && !Blank(e.intent)
    && (e.factDigest.Text? ==> Spelled(e.factDigest.text))
    && forall x :: x in e.extensions ==> x.level in {OptionalIgnorable, OptionalNegotiable}
  }

  lemma {:induction false} FirstPlannedIs(steps: seq<P.Operation>, id: string)
    ensures
      var found := FindPlanned(steps, id);
      && (found.None? ==> forall i :: 0 <= i < |steps| ==> steps[i].operationId != id)
      && (found.Some? ==>
            exists i :: 0 <= i < |steps| && steps[i] == found.value && steps[i].operationId == id
                        && forall j :: 0 <= j < i ==> steps[j].operationId != id)
  {
    if steps == [] {
    } else if steps[0].operationId != id {
      var found := FindPlanned(steps[1..], id);
      FirstPlannedIs(steps[1..], id);
      if found.Some? {
        var i :| 0 <= i < |steps[1..]| && steps[1..][i] == found.value && steps[1..][i].operationId == id
                 && forall j :: 0 <= j < i ==> steps[1..][j].operationId != id;
        assert steps[i + 1] == found.value;
        forall j | 0 <= j < i + 1 ensures steps[j].operationId != id {
          assert j > 0 ==> steps[j] == steps[1..][j - 1];
        }
      } else {
        assert forall i :: 1 <= i < |steps| ==> steps[i] == steps[1..][i - 1];
      }
    }
  }

  lemma {:induction false} PlannedStepIff(steps: seq<P.Operation>, o: AdapterOperation)
    ensures
      var planned := FindPlanned(steps, o.operationId);
      PlannedStep(steps, o) <==>
        && planned.Some? && planned.value.resourceId == o.targetId && planned.value.afterDigest == o.desiredDigest
        && planned.value.targetGeneration == o.expectedGeneration
  {
    var planned := FindPlanned(steps, o.operationId);
    FirstPlannedIs(steps, o.operationId);
    if planned.Some? {
      var i :| 0 <= i < |steps| && steps[i] == planned.value && steps[i].operationId == o.operationId
               && forall j :: 0 <= j < i ==> steps[j].operationId != o.operationId;
      if PlannedStep(steps, o) {
        var k :| IsStepFor(steps, k, o);
        assert i == k;
      } else {
        assert !IsStepFor(steps, i, o);
      }
    }
  }

  lemma {:induction false} HangsTogetherIff(g: ApplyGate, now: nat)
    ensures HangsTogether(g, now) <==> RequestBinds(g, now) && EvidenceBinds(g)
  {
    PlannedStepIff(g.plan.operations, g.operation);
  }

  lemma {:induction false} FilledInIff(e: ProgressiveAuthority)
    requires e.mode in {Confirm, AutomaticWithinPolicy} && e.proposed.Some?
    requires e.planDigest.Some? && e.planDigest.value.Sha?
    requires e.authorizationDigest.Some? && e.authorizationDigest.value.Sha?
    ensures AuthorityValid(e) <==> FilledIn(e) && e.boundary == Satisfied
  {
    SpelledIff(e.factDigest);
    forall x: Extension ensures MustUnderstand(x, {}) <==> x.level !in {OptionalIgnorable, OptionalNegotiable} {
      assert x.id !in {};
    }
  }

  /** The gate lets its operation happen now. */
  ghost predicate GateHolds(g: ApplyGate, now: nat) {
    HangsTogether(g, now) && AllowsActing(g.authorization.body) && FilledIn(g.authority)
  }

  /**
   A gate is accepted exactly when its documents are about one and the same operation, the signed
   authorization allows acting now, and its evidence is filled in. Documents that do not hang
   together are reported first, then a mode that may not act, then anything else.
   */
  lemma {:induction false} GateAcceptedExactlyWhen(g: ApplyGate, now: nat)
    ensures ApplyGateFault(g, now).None? <==>
            GateHolds(g, now)
    ensures ApplyGateFault(g, now) == Some(InvalidBinding) <==> !HangsTogether(g, now)
    ensures ApplyGateFault(g, now) == Some(ModeNotAuthorized) <==>
            HangsTogether(g, now) && g.authorization.body.mode in {ObserveOnly, Recommend}
  {
    HangsTogetherIff(g, now);
    if HangsTogether(g, now) && g.authority.mode in {Confirm, AutomaticWithinPolicy} {
      FilledInIff(g.authority);
    }
  }

  /** The grant in the ledger is for exactly this operation under exactly this authorization. */
  predicate GrantedFor(l: Ledger, requestId: string, o: AdapterOperation, signed: Signed<Authorization>) {
    && requestId in l.grants
    && l.grants[requestId].binding.operation == Sha(o) && l.grants[requestId].binding.context == Sha(signed)
  }

  /** The holder of the key signed this very document. */
  predicate IsSigned<T(==)>(document: Signed<T>, key: string) {
    document.signer == key && document.signedBody == document.body
  }

  ghost predicate MayAct(p: ControllerPolicy, l: Ledger, g: ApplyGate, now: nat) {
    && GateHolds(g, now)
    && IsSigned(g.request, p.key) && IsSigned(g.authorization, p.key)
    && GrantedFor(l, g.request.body.requestId, g.operation, g.authorization)
  }

  /**
   An attempt is let through exactly when the gate holds now, both signatures are the controller's
   and the ledger granted this operation under this authorization. The answer then is the
   grant's; a wrong signature is reported only of a gate that holds.
   */
  lemma {:induction false} ResumedExactlyWhen(p: ControllerPolicy, l: Ledger, g: ApplyGate, now: nat)
    ensures ResumeGate(p, l, g, now).Ok? <==> MayAct(p, l, g, now)
    ensures ResumeGate(p, l, g, now).Ok? ==>
              ResumeGate(p, l, g, now).value
              == AuthorizationReceipt(g.request.body.requestId, Accepted,
                                      Some(l.grants[g.request.body.requestId].generation), Sha(g.operation),
                                      Sha(g.authorization))
    ensures ResumeGate(p, l, g, now) == Err(SignatureInvalid) <==>
            && GateHolds(g, now)
            && !(IsSigned(g.request, p.key) && IsSigned(g.authorization, p.key))
    ensures ResumeGate(p, l, g, now).Err? ==> ResumeGate(p, l, g, now).error in {SignatureInvalid, GateInvalid}
  {
    GateAcceptedExactlyWhen(g, now);
  }

  /** The occurrence that made the call `key`: an execution let through when it happened. */
  ghost predicate Made(p: ControllerPolicy, w: World, e: Occurrence, key: JournalKey) {
    && e.OnExecute? && e.order.schemaVersion == "iicp.management-local-execution.v1"
    && key == (e.order.gate.operation.operationId, Sha(e.order.gate.operation))
    && MayAct(p, w.ledger, e.order.gate, e.now)
  }

  ghost predicate MadeIn(p: ControllerPolicy, w: World, events: seq<Occurrence>, key: JournalKey) {
    exists i :: 0 <= i < |events| && Made(p, RunWorld(p, w, events[..i]), events[i], key)
  }

  lemma {:induction false} NewCallIsMade(p: ControllerPolicy, w: World, e: Occurrence, key: JournalKey)
    requires key in Happen(p, w, e).calls && key !in w.calls
    ensures Made(p, w, e, key)
  {
    var g := e.order.gate;
    CallNeedsAuthority(p, w, e);
    GateAcceptedExactlyWhen(g, e.now);
    assert key in w.calls + [(g.operation.operationId, Sha(g.operation))];
  }

  lemma {:induction false} RunSplits(p: ControllerPolicy, w: World, events: seq<Occurrence>, i: nat)
    requires events != [] && i < |events|
    ensures RunWorld(p, w, events[..i + 1]) == RunWorld(p, Happen(p, w, events[0]), events[1..][..i])
  {
    assert events[..i + 1][0] == events[0] && events[..i + 1][1..] == events[1..][..i];
  }

  lemma {:induction false} CallsAreMade(p: ControllerPolicy, w: World, events: seq<Occurrence>, key: JournalKey)
    requires key in RunWorld(p, w, events).calls
    ensures key in w.calls || MadeIn(p, w, events, key)
    decreases |events|
  {
    if events == [] {
    } else {
      var next := Happen(p, w, events[0]);
      CallsAreMade(p, next, events[1..], key);
      if key in next.calls {
        if key !in w.calls {
          NewCallIsMade(p, w, events[0], key);
          assert RunWorld(p, w, events[..0]) == w;
        }
      } else {
        var i :| 0 <= i < |events[1..]| && Made(p, RunWorld(p, next, events[1..][..i]), events[1..][i], key);
        RunSplits(p, w, events, i);
        assert events[i + 1] == events[1..][i];
      }
    }
  }

  /**
   Over every run, with crashes anywhere and whatever the targets answer: each host call was made
   for a gate whose documents named exactly this apply on this target, whose signed authorization
   allowed it at that moment, and which the ledger had granted.
   */
  lemma {:induction false} EveryCallWasAllowed(p: ControllerPolicy, events: seq<Occurrence>, key: JournalKey)
    requires key in RunWorld(p, DAWN, events).calls
    ensures MadeIn(p, DAWN, events, key)
  {
    CallsAreMade(p, DAWN, events, key);
  }

  // ---------------------------------------------------------------- a recovery gate

  /** The request asks to undo this very gate and execution, on the target the original had. */
  predicate AsksToUndo(g: R.RecoveryGate) {
    var r, o, original := g.request.body, g.operation, g.originalGate.operation;
    && r.action == o.action
       == (match g.strategy case ExactReversal => Rollback case Compensation => Compensate case Safing => Safe)
    && r.requestId == o.operationId
    && r.resourceIds == [o.targetId] && o.targetId == original.targetId && o.capability == original.capability
    && r.payloadDigest == StatePayload(o.desiredDigest)
    && r.planDigest == o.planDigest == Sha(OfRecovery(g.originalGate, g.originalExecution))
    && o.related == Some(original.operationId)
    && o.expiresAt <= r.expiresAt
  }

  /** Step `i` is the original plan's first step for the original, and found what the recovery aims at. */
  predicate IsUndoneStep(steps: seq<P.Operation>, i: nat, original: AdapterOperation, o: AdapterOperation) {
    && i < |steps| && steps[i].operationId == original.operationId
    && (forall j :: 0 <= j < i ==> steps[j].operationId != original.operationId)
    && steps[i].beforeDigest == o.desiredDigest
  }

  /** The original converged, and the recovery starts from where it ended. */
  ghost predicate UndoesConverged(g: R.RecoveryGate) {
    && g.originalExecution.state == ExecConverged
    && g.originalExecution.adapter.Some?
    && g.operation.expectedGeneration == g.originalExecution.adapter.value.generation
    && exists i :: IsUndoneStep(g.originalGate.plan.operations, i, g.originalGate.operation, g.operation)
  }

  predicate UndoAuthorized(g: R.RecoveryGate, now: nat) {
    var r, a, e := g.request.body, g.authorization.body, g.authority;
    && IsAbout(a, r, g.operation, now)
    && a.proposed == PolicyEvaluation.Allow && a.boundary == Satisfied
    && e.mode == a.mode && e.policyGeneration == a.policyGeneration && e.factDigest == a.factDigest
    && e.proposed == Some(PolicyEvaluation.Allow)
    && e.planDigest == Some(r.planDigest) && e.authorizationDigest == Some(Sha(g.authorization))
  }

  /** The original gate held when it was issued. */
  ghost predicate OriginalHeld(g: R.RecoveryGate) {
    var original := g.originalGate;
    && HangsTogether(original, original.authorization.body.issuedAt) && AllowsActing(original.authorization.body)
    && FilledIn(original.authority)
  }

  ghost predicate UndoHangsTogether(g: R.RecoveryGate, now: nat) {
    g.schemaVersion == "iicp.management-local-recovery.v1" && AsksToUndo(g) && UndoesConverged(g)
    && UndoAuthorized(g, now)
  }

  lemma {:induction false} UndoneStepIff(steps: seq<P.Operation>, original: AdapterOperation, o: AdapterOperation)
    ensures
      var planned := FindPlanned(steps, original.operationId);
      (exists i :: IsUndoneStep(steps, i, original, o)) <==>
        planned.Some? && planned.value.beforeDigest == o.desiredDigest
  {
    var planned := FindPlanned(steps, original.operationId);
    FirstPlannedIs(steps, original.operationId);
    if planned.Some? {
      var i :| 0 <= i < |steps| && steps[i] == planned.value && steps[i].operationId == original.operationId
               && forall j :: 0 <= j < i ==> steps[j].operationId != original.operationId;
      if k :| IsUndoneStep(steps, k, original, o) {
        assert i == k;
      } else {
        assert !IsUndoneStep(steps, i, original, o);
      }
    }
  }

  lemma {:induction false} UndoHangsTogetherIff(g: R.RecoveryGate, now: nat)
    ensures UndoHangsTogether(g, now) <==> R.OperationBinds(g) && R.OutcomeBinds(g) && R.AuthorityBinds(g, now)
  {
    UndoneStepIff(g.originalGate.plan.operations, g.originalGate.operation, g.operation);
  }

  /** The recovery gate lets its operation happen now. */
  ghost predicate UndoHolds(g: R.RecoveryGate, now: nat) {
    OriginalHeld(g) && UndoHangsTogether(g, now) && g.authority.mode in {Confirm, AutomaticWithinPolicy}
  }

  /**
   A recovery gate is accepted exactly when the original gate held when issued, the documents
   name this very undoing of a converged execution and allow it now, in a mode that may act. The
   first fault in that order is reported, an execution without adapter receipt before the bindings.
   */
  lemma {:induction false} RecoveryAcceptedExactlyWhen(g: R.RecoveryGate, now: nat)
    ensures R.RecoveryFault(g, now).None? <==>
            UndoHolds(g, now)
    ensures R.RecoveryFault(g, now) == Some(R.OriginalGateInvalid) <==> !OriginalHeld(g)
    ensures R.RecoveryFault(g, now) == Some(R.ExecutionUnproven) <==>
            OriginalHeld(g) && g.originalExecution.adapter.None?
    ensures R.RecoveryFault(g, now) == Some(R.BindingInvalid) <==>
            OriginalHeld(g) && g.originalExecution.adapter.Some? && !UndoHangsTogether(g, now)
  {
    GateAcceptedExactlyWhen(g.originalGate, g.originalGate.authorization.body.issuedAt);
    UndoHangsTogetherIff(g, now);
    HangsTogetherIff(g.originalGate, g.originalGate.authorization.body.issuedAt);
  }

  ghost predicate MayUndo(p: ControllerPolicy, l: Ledger, g: R.RecoveryGate, now: nat) {
    && UndoHolds(g, now)
    && IsSigned(g.request, p.key) && IsSigned(g.authorization, p.key)
    && GrantedFor(l, g.request.body.requestId, g.operation, g.authorization)
  }

  /** The same of a recovery gate; a wrong signature is reported only of one that holds. */
  lemma {:induction false} RecoveryResumedExactlyWhen(p: ControllerPolicy, l: Ledger, g: R.RecoveryGate, now: nat)
    ensures R.ResumeRecovery(p, l, g, now).Ok? <==> MayUndo(p, l, g, now)
    ensures R.ResumeRecovery(p, l, g, now) == Err(SignatureInvalid) <==>
            && UndoHolds(g, now)
            && !(IsSigned(g.request, p.key) && IsSigned(g.authorization, p.key))
    ensures R.ResumeRecovery(p, l, g, now).Err? ==>
              R.ResumeRecovery(p, l, g, now).error in {SignatureInvalid, GateInvalid}
  {
    RecoveryAcceptedExactlyWhen(g, now);
  }

  // ---------------------------------------------------------------- every change of every target

  /** The incident that changed a target by `o`: an apply gate or a reversal let through when it happened. */
  ghost predicate Changed(p: ControllerPolicy, h: Hosted, i: Incident, o: AdapterOperation) {
    match i
    case Attempted(order, now, _) => order.gate.operation == o && MayAct(p, h.world.ledger, order.gate, now)
    case Recovering(g, now) =>
      g.operation == o && g.strategy == R.ExactReversal && MayUndo(p, h.world.ledger, g, now)
    case _ => false
  }

  ghost predicate ChangedIn(p: ControllerPolicy, h: Hosted, incidents: seq<Incident>, o: AdapterOperation) {
    exists i :: 0 <= i < |incidents| && Changed(p, RunHosted(p, h, incidents[..i]), incidents[i], o)
  }

  lemma {:induction false} NewCauseIsServed(h: Hosted, o: AdapterOperation, now: nat, slot: Slot,
        cause: AdapterOperation)
    requires slot in h.lives && slot in Serve(h, o, now).lives
    requires cause in Serve(h, o, now).lives[slot].causes && cause !in h.lives[slot].causes
    ensures cause == o
  {
  }

  lemma {:induction false} NewCauseIsChanged(p: ControllerPolicy, h: Hosted, i: Incident, slot: Slot,
        cause: AdapterOperation)
    requires slot in h.lives && slot in Occur(p, h, i).lives
    requires cause in Occur(p, h, i).lives[slot].causes && cause !in h.lives[slot].causes
    ensures Changed(p, h, i, cause)
  {
    match i {
      case Attempted(order, now, budget) =>
        NewCauseIsServed(h, order.gate.operation, now, slot, cause);
        assert Reaches(ScriptOf(p, h, order, now), budget);
        ResumedExactlyWhen(p, h.world.ledger, order.gate, now);
      case Recovering(g, now) =>
        NewCauseIsServed(h, g.operation, now, slot, cause);
        RecoveryResumedExactlyWhen(p, h.world.ledger, g, now);
      case _ =>
    }
  }

  lemma {:induction false} HostedRunSplits(p: ControllerPolicy, h: Hosted, incidents: seq<Incident>, i: nat)
    requires incidents != [] && i < |incidents|
    ensures RunHosted(p, h, incidents[..i + 1]) == RunHosted(p, Occur(p, h, incidents[0]), incidents[1..][..i])
  {
    assert incidents[..i + 1][0] == incidents[0] && incidents[..i + 1][1..] == incidents[1..][..i];
  }

  lemma {:induction false} CausesAreChanges(p: ControllerPolicy, h: Hosted, incidents: seq<Incident>, slot: Slot,
        cause: AdapterOperation)
    requires h.lives.Keys == h.host.adapters.Keys
    requires slot in RunHosted(p, h, incidents).lives && cause in RunHosted(p, h, incidents).lives[slot].causes
    ensures slot in h.lives && (cause in h.lives[slot].causes || ChangedIn(p, h, incidents, cause))
    decreases |incidents|
  {
    if incidents == [] {
    } else {
      var next, rest := Occur(p, h, incidents[0]), incidents[1..];
      OccurKeepsSlots(p, h, incidents[0]);
      CausesAreChanges(p, next, rest, slot, cause);
      if cause in next.lives[slot].causes {
        if cause !in h.lives[slot].causes {
          NewCauseIsChanged(p, h, incidents[0], slot, cause);
          assert RunHosted(p, h, incidents[..0]) == h;
        }
      } else {
        var i :| 0 <= i < |rest| && Changed(p, RunHosted(p, next, rest[..i]), rest[i], cause);
        HostedRunSplits(p, h, incidents, i);
        assert incidents[i + 1] == rest[i];
      }
    }
  }

  /**
   Over every hosted run, across crashes, restarts and recoveries: whatever operation changed a
   target was named by signed documents that asked for it, and its authorization allowed acting at
   that moment, with a policy that had decided to allow it.
   */
  lemma {:induction false} EveryChangeWasAllowed(p: ControllerPolicy, slots: seq<Slot>, incidents: seq<Incident>,
        slot: Slot, o: AdapterOperation)
    requires slot in RunHosted(p, Start(slots), incidents).lives
    requires o in RunHosted(p, Start(slots), incidents).lives[slot].causes
    ensures ChangedIn(p, Start(slots), incidents, o)
  {
    CausesAreChanges(p, Start(slots), incidents, slot, o);
  }
}
