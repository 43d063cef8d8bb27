/**
 The documents that authorize one target operation, and the gate that binds them together:
 request, plan, adapter operation, progressive authority and signed authorization.
 */
module Gates {
  import opened Common
  import opened Json
  import opened PolicyEvaluation
  import P = Planner

  const SIGNATURE_PROFILE := "ed25519-jcs-v1"
  const APPLY_GATE_SCHEMA := "iicp.management-apply-gate.v1"

  datatype ActionName =
    | Apply | DryRun | VerifyAction | Observe | Rollback | Compensate | Safe | OtherAction(text: string)

  /** What a plan digest is taken over: a plan, or the original gate and execution a recovery undoes. */
  datatype Subject =
    | OfPlan(plan: P.Plan)
    | OfRecovery(gate: ApplyGate, execution: LifecycleReceipt)

  /** What a request's payload digest is taken over: a target's desired state, or a bundle to plan. */
  datatype Payload = DesiredState(value: Value) | PlannedBundle(bundle: P.Bundle)

  function StatePayload(d: Digest<Value>): Digest<Payload> {
    match d
    case Sha(v) => Sha(DesiredState(v))
    case Text(t) => Text(t)
  }

  function BundlePayload(d: Digest<P.Bundle>): Digest<Payload> {
    match d
    case Sha(b) => Sha(PlannedBundle(b))
    case Text(t) => Text(t)
  }

  datatype AdapterOperation = AdapterOperation(
    operationId: string,
    targetId: string,
    action: ActionName,
    planDigest: Digest<Subject>,
    desiredDigest: Digest<Value>,
    expectedGeneration: nat,
    expiresAt: nat,
    capability: string,
    desired: Value,
    related: Option<string>)

  datatype Request = Request(
    schemaVersion: string,
    requestId: string,
    issuerId: string,
    audience: string,
    domain: string,
    action: ActionName,
    resourceIds: seq<string>,
    payloadDigest: Digest<Payload>,
    planDigest: Digest<Subject>,
    expectedGeneration: nat,
    issuedAt: nat,
    expiresAt: nat,
    nonce: string,
    signatureProfile: string)

  datatype Mode = ObserveOnly | Recommend | Confirm | AutomaticWithinPolicy

  datatype Boundary = Satisfied | Failing | Undetermined

  datatype Authorization = Authorization(
    schemaVersion: string,
    authorizationId: string,
    issuerId: string,
    audience: string,
    domain: string,
    mode: Mode,
    planDigest: Digest<Subject>,
    operationDigest: Digest<AdapterOperation>,
    policyGeneration: nat,
    factDigest: Digest<Value>,
    boundary: Boundary,
    proposed: Decision,
    issuedAt: nat,
    expiresAt: nat,
    signatureProfile: string)

  datatype ProgressiveAuthority = ProgressiveAuthority(
    schemaVersion: string,
    evidenceId: string,
    mode: Mode,
    applicationId: string,
    intent: string,
    policyGeneration: nat,
    factDigest: Digest<Value>,
    actual: Option<Decision>,
    proposed: Option<Decision>,
    planDigest: Option<Digest<Subject>>,
    authorizationDigest: Option<Digest<Signed<Authorization>>>,
    boundary: Boundary,
    mayRequestApply: bool,
    extensions: seq<Extension>)

  datatype ApplyGate = ApplyGate(
    schemaVersion: string,
    request: Signed<Request>,
    plan: P.Plan,
    operation: AdapterOperation,
    authority: ProgressiveAuthority,
    authorization: Signed<Authorization>)

  // ---------------------------------------------------------------- receipts

  datatype AdapterReason =
    | Applied
    | SyntheticPartial
    | IrrecoverableFailure
    | RolledBack
    | DryRunValid
    | Verified
    | ReadbackRolledBack
    | ReadbackRollbackFailed

  datatype AdapterReceipt = AdapterReceipt(
    operationId: string,
    state: Convergence,
    generation: nat,
    resultDigest: Digest<Value>,
    reason: AdapterReason)

  datatype AdapterError =
    | Unsupported
    | ReplayConflict
    | GenerationConflict
    | InvalidConfig
    | Io
    | UnknownTarget
    | Cancelled
    | Timeout
    | OutcomeUnknown

  datatype DecisionState = Accepted | Rejected | DeferredDecision | PartialDecision | FailedDecision

  datatype AuthorizationReceipt = AuthorizationReceipt(
    requestId: string,
    decision: DecisionState,
    generation: Option<nat>,
    operationDigest: Digest<AdapterOperation>,
    contextDigest: Digest<Signed<Authorization>>)

  datatype ExecutionState = ExecConverged | ExecPartiallyConverged | ExecDeferred | ExecFailed

  datatype ExecutionReason =
    | ExecutionVerified
    | VerifiedFailed
    | NotFullyConverged
    | OutcomeObservedBeforeRetry
    | OutcomeUnknownReason
    | VerificationUnavailable
    | RejectedByAdapter
    | EffectObservedAfterRestart
    | RestartObservationMismatch
    | RestartObservationUnavailable

  datatype RetryDisposition = NotNeeded | ObserveBeforeRetryCompleted | ManualReviewRequired

  datatype LifecycleReceipt = LifecycleReceipt(
    operationId: string,
    authorization: AuthorizationReceipt,
    adapter: Option<AdapterReceipt>,
    verification: Option<AdapterReceipt>,
    state: ExecutionState,
    reason: ExecutionReason,
    retry: RetryDisposition)

  // ---------------------------------------------------------------- progressive authority

  predicate LowerHex(c: char) {
    '0' <= c <= '9' || 'a' <= c <= 'f'
  }

  /** A real digest always has the right form; other text has it when it is spelled like one. */
  predicate DigestForm<T>(d: Digest<T>) {
    d.Sha? || (|d.text| == 71 && d.text[..7] == "sha256:" && forall c :: c in d.text[7..] ==> LowerHex(c))
  }

  predicate Actionable(mode: Mode) {
    mode == Confirm || mode == AutomaticWithinPolicy
  }

  /** Progressive authority evidence consistent with its own mode. */
  predicate AuthorityValid(e: ProgressiveAuthority) {
    && e.schemaVersion == "1"
    && !Blank(e.evidenceId) && !Blank(e.applicationId) && !Blank(e.intent)
    && DigestForm(e.factDigest)
    && (e.planDigest.Some? ==> DigestForm(e.planDigest.value))
    && (e.authorizationDigest.Some? ==> DigestForm(e.authorizationDigest.value))
    && (forall x :: x in e.extensions ==> !MustUnderstand(x, {}))
    && match e.mode
       case ObserveOnly =>
         e.actual.Some? && e.proposed.None? && e.planDigest.None? && e.authorizationDigest.None? && !e.mayRequestApply
       case Recommend =>
         e.actual.Some? && e.proposed.Some? && e.planDigest.None? && e.authorizationDigest.None? && !e.mayRequestApply
       case _ =>
         e.proposed.Some? && e.planDigest.Some? && e.authorizationDigest.Some? && e.mayRequestApply
           && e.boundary == Satisfied
  }

  // ---------------------------------------------------------------- the apply gate

  datatype GateError = InvalidBinding | ModeNotAuthorized | AuthorityInvalid

  function FindPlanned(operations: seq<P.Operation>, operationId: string): Option<P.Operation> {
    if operations == [] then None
    else if operations[0].operationId == operationId then Some(operations[0])
    else FindPlanned(operations[1..], operationId)
  }

  predicate RequestBinds(g: ApplyGate, now: nat) {
    var r, o, a := g.request.body, g.operation, g.authorization.body;
    && g.schemaVersion == APPLY_GATE_SCHEMA
    && a.schemaVersion == "1"
    && a.signatureProfile == SIGNATURE_PROFILE
    && r.action == Apply
    && r.requestId == o.operationId
    && r.resourceIds == [o.targetId]
    && r.payloadDigest == StatePayload(o.desiredDigest)
    && r.planDigest == Sha(OfPlan(g.plan))
    && o.planDigest == r.planDigest
    && o.desiredDigest == Sha(o.desired)
    && g.plan.targetGeneration == r.expectedGeneration
    && o.expiresAt <= r.expiresAt
    && a.expiresAt <= r.expiresAt
    && a.issuedAt <= now <= a.expiresAt
  }

  predicate EvidenceBinds(g: ApplyGate) {
    var r, o, a, e := g.request.body, g.operation, g.authorization.body, g.authority;
    var planned := FindPlanned(g.plan.operations, o.operationId);
    && planned.Some?
    && planned.value.resourceId == o.targetId
    && planned.value.afterDigest == o.desiredDigest
    && planned.value.targetGeneration == o.expectedGeneration
    && a.issuerId == r.issuerId && a.audience == r.audience && a.domain == r.domain
    && a.planDigest == r.planDigest
    && a.operationDigest == Sha(o)
    && a.policyGeneration == e.policyGeneration
    && a.factDigest == e.factDigest
    && a.boundary == e.boundary
    && e.proposed == Some(a.proposed)
    && a.mode == e.mode
    && e.planDigest == Some(r.planDigest)
    && e.authorizationDigest == Some(Sha(g.authorization))
  }

  /** Why a gate is refused at `now`, if it is. */
  function ApplyGateFault(g: ApplyGate, now: nat): Option<GateError> {
    if !RequestBinds(g, now) || !EvidenceBinds(g) then Some(InvalidBinding)
    else if !Actionable(g.authority.mode) then Some(ModeNotAuthorized)
    else if !AuthorityValid(g.authority) || g.authorization.body.boundary != Satisfied
      || g.authorization.body.proposed != Allow
    then Some(AuthorityInvalid)
    else None
  }

  /**
   A signed authorization pins everything it stands for: two accepted gates with the same
   authorization carry the same operation, the same plan and the same request payload.
   */
  lemma AuthorizationPinsTheGate(a: ApplyGate, b: ApplyGate, now: nat, later: nat)
    requires ApplyGateFault(a, now).None? && ApplyGateFault(b, later).None?
    requires a.authorization == b.authorization
    ensures a.operation == b.operation && a.plan == b.plan
    ensures a.request.body.requestId == b.request.body.requestId
    ensures a.request.body.payloadDigest == b.request.body.payloadDigest
    ensures a.request.body.expectedGeneration == b.request.body.expectedGeneration
    ensures a.authority.policyGeneration == b.authority.policyGeneration
            && a.authority.factDigest == b.authority.factDigest
  {
    assert a.authorization.body.operationDigest == Sha(a.operation);
    assert b.authorization.body.operationDigest == Sha(b.operation);
    assert a.authorization.body.planDigest == Sha(OfPlan(a.plan));
    assert b.authorization.body.planDigest == Sha(OfPlan(b.plan));
  }
}
