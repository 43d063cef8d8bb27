/**
 The controller's transactions, told from the request and the ledger alone: what is accepted, what
 each refusal is reported as, and what is written.
 */
module LedgerLaws {
  import opened Common
  import opened Gates
  import opened Controllers
  import opened GateLaws
  import P = Planner
  import R = Recovery
  import S = PlanSubmissions

  // ---------------------------------------------------------------- requests

  /** Neither a C0 nor a C1 control character. */
  predicate Printable(c: char) {
    c >= ' ' && !('\U{7F}' <= c <= '\U{9F}')
  }

  /** Not empty, not too long, and without control characters. */
  predicate Plain(s: string, most: nat) {
    0 < |s| <= most && forall k :: 0 <= k < |s| ==> Printable(s[k])
  }

  lemma {:induction false} PlainIff(s: string, most: nat)
    ensures ValidText(s, most) <==> Plain(s, most)
  {
    assert forall k :: 0 <= k < |s| ==> s[k] in s;
  }

  predicate Profiled(r: Request) {
    r.schemaVersion == "1" && r.signatureProfile == "ed25519-jcs-v1"
  }

  predicate NamedWell(r: Request) {
    && Plain(r.requestId, 128) && Plain(r.issuerId, 128) && Plain(r.audience, 128) && Plain(r.domain, 128)
    && Plain(r.nonce, 128) && (r.action.OtherAction? ==> Plain(r.action.text, 128))
  }

  predicate Counted(r: Request) {
    0 < |r.resourceIds| <= 128
  }

  predicate RefersWell(r: Request) {
    && (forall k :: 0 <= k < |r.resourceIds| ==> Plain(r.resourceIds[k], 256))
    && (r.payloadDigest.Text? ==> Plain(r.payloadDigest.text, 256))
    && (r.planDigest.Text? ==> Plain(r.planDigest.text, 256))
  }

  predicate Addressed(p: ControllerPolicy, r: Request) {
    r.audience == p.audience && r.domain == p.domain
  }

  /** In its time, which is at most 300 seconds. */
  predicate Timely(r: Request, now: nat) {
    r.issuedAt <= now <= r.expiresAt && r.expiresAt <= r.issuedAt + 300
  }

  /** An allowed action, and, if it has a high impact, revocations checked recently enough. */
  predicate Allowed(p: ControllerPolicy, r: Request, now: nat) {
    && r.action in p.allowedActions
    && (r.action in p.highImpactActions ==> now <= p.revocationCheckpoint + p.maxCheckpointAge)
  }

  lemma {:induction false} NamedWellIff(r: Request)
    ensures ValidTexts(r) <==> NamedWell(r)
  {
    PlainIff(r.requestId, 128);
    PlainIff(r.issuerId, 128);
    PlainIff(r.audience, 128);
    PlainIff(r.domain, 128);
    PlainIff(r.nonce, 128);
    if r.action.OtherAction? {
      PlainIff(r.action.text, 128);
    }
  }

  lemma {:induction false} PlainIdsIff(ids: seq<string>)
    ensures (exists id :: id in ids && !ValidText(id, 256)) <==> !forall k :: 0 <= k < |ids| ==> Plain(ids[k], 256)
  {
    forall k | 0 <= k < |ids| ensures ValidText(ids[k], 256) <==> Plain(ids[k], 256) {
      PlainIff(ids[k], 256);
    }
    if id :| id in ids && !ValidText(id, 256) {
      var k :| 0 <= k < |ids| && ids[k] == id;
      assert !Plain(ids[k], 256);
    }
    if k :| 0 <= k < |ids| && !Plain(ids[k], 256) {
      assert ids[k] in ids && !ValidText(ids[k], 256);
    }
  }

  lemma {:induction false} RefersWellIff(r: Request)
    ensures RefersWell(r) <==>
            && !(exists id :: id in r.resourceIds && !ValidText(id, 256))
            && ValidDigest(r.payloadDigest) && ValidDigest(r.planDigest)
  {
    PlainIdsIff(r.resourceIds);
    if r.payloadDigest.Text? {
      PlainIff(r.payloadDigest.text, 256);
    }
    if r.planDigest.Text? {
      PlainIff(r.planDigest.text, 256);
    }
  }

  /** What a request that its sender got right looks like. */
  predicate Right(p: ControllerPolicy, request: Signed<Request>, now: nat) {
    var r := request.body;
    && Profiled(r) && NamedWell(r) && Counted(r) && RefersWell(r) && Addressed(p, r) && Timely(r, now)
    && Allowed(p, r, now) && IsSigned(request, p.key)
  }

  /** The check that fails first is the one reported. */
  lemma {:induction false} FirstFailureIsReported(p: ControllerPolicy, request: Signed<Request>, now: nat)
    ensures
      var r, fault := request.body, RequestFault(p, request, now);
      && (fault.None? <==> Right(p, request, now))
      && (!Profiled(r) ==> fault == Some(Invalid(Profile)))
      && (Profiled(r) && !NamedWell(r) ==> fault == Some(Invalid(BoundedText)))
      && (Profiled(r) && NamedWell(r) && !Counted(r) ==> fault == Some(Invalid(Resources)))
      && (Profiled(r) && NamedWell(r) && Counted(r) ==>
            && (!RefersWell(r) ==> fault == Some(Invalid(BoundedText)))
            && (RefersWell(r) && !Addressed(p, r) ==> fault == Some(PolicyDenied))
            && (RefersWell(r) && Addressed(p, r) && !Timely(r, now) ==> fault == Some(Invalid(Time)))
            && (RefersWell(r) && Addressed(p, r) && Timely(r, now) ==>
                  && (!Allowed(p, r, now) ==> fault == Some(PolicyDenied))
                  && (Allowed(p, r, now) && !IsSigned(request, p.key) ==> fault == Some(SignatureInvalid))))
  {
    NamedWellIff(request.body);
    RefersWellIff(request.body);
  }

  // ---------------------------------------------------------------- acceptance

  /** The ledger has never seen the nonce or the id, and is where the request expects it. */
  predicate Unseen(l: Ledger, r: Request) {
    r.nonce !in l.nonces && r.expectedGeneration == l.generation && r.requestId !in l.decisions
  }

  /** The log with one more event, of which the newest are kept, as many as the policy says and at least one. */
  predicate LogGains(p: ControllerPolicy, before: seq<Event>, after: seq<Event>, e: Event) {
    var all := before + [e];
    && |after| <= |all| && after == all[|all| - |after|..]
    && (|after| == |all| || (|after| == p.maxEvents > 0) || (|after| == 1 && p.maxEvents == 0))
    && (p.maxEvents > 0 ==> |after| <= p.maxEvents) && (p.maxEvents == 0 ==> |after| <= 1)
  }

  lemma {:induction false} NewestGains(p: ControllerPolicy, before: seq<Event>, e: Event)
    ensures LogGains(p, before, Newest(before + [e], Capacity(p)), e)
  {
  }

  /** One generation on: the nonce is consumed, the decision recorded and logged, and the binding, if any, granted. */
  predicate Accepts(p: ControllerPolicy, l: Ledger, next: Ledger, r: Request, now: nat, binding: Option<Binding>) {
    && next.generation == l.generation + 1
    && next.nonces == l.nonces[r.nonce := r.requestId]
    && next.decisions == l.decisions[r.requestId := DecisionRow(Accepted, Authorized, l.generation + 1)]
    && next.grants
       == (if binding.Some? then l.grants[r.requestId := Grant(binding.value, l.generation + 1)] else l.grants)
    && LogGains(p, l.events, next.events, Event(r.requestId, Accepted, Authorized, l.generation + 1, now))
  }

  lemma {:induction false} CommitLogs(p: ControllerPolicy, l: Ledger, r: Request, now: nat, binding: Option<Binding>,
        e: Event)
    requires e == Event(r.requestId, Accepted, Authorized, l.generation + 1, now)
    ensures LogGains(p, l.events, Commit(p, l, r, now, binding).events, e)
  {
    NewestGains(p, l.events, e);
    assert Commit(p, l, r, now, binding).events == Newest(l.events + [e], Capacity(p));
  }

  lemma {:induction false} CommitAccepts(p: ControllerPolicy, l: Ledger, r: Request, now: nat, binding: Option<Binding>)
    ensures Accepts(p, l, Commit(p, l, r, now, binding), r, now, binding)
  {
    var e := Event(r.requestId, Accepted, Authorized, l.generation + 1, now);
    CommitLogs(p, l, r, now, binding, e);
  }

  /**
   A request is accepted exactly when it is right and unseen, and then exactly this is written, and
   the answer says so; what is refused leaves the ledger as it is.
   */
  lemma {:induction false} AcceptedExactly(p: ControllerPolicy, l: Ledger, request: Signed<Request>, now: nat,
        binding: Option<Binding>)
    requires l.grants.Keys <= l.decisions.Keys
    ensures
      var (next, answer) := Admit(p, l, request, now, binding);
      && (answer.Ok? <==> Right(p, request, now) && Unseen(l, request.body))
      && (answer.Ok? ==>
            && Accepts(p, l, next, request.body, now, binding)
            && answer.value == Receipt(request.body.requestId, Accepted, Authorized, l.generation + 1))
      && (answer.Err? ==> next == l)
  {
    FirstFailureIsReported(p, request, now);
    if Right(p, request, now) && Unseen(l, request.body) {
      CommitAccepts(p, l, request.body, now, binding);
    }
  }

  /** How a refusal is reported: what is wrong with the request first, then a replay, an old generation, a known id. */
  lemma {:induction false} RefusedAs(p: ControllerPolicy, l: Ledger, request: Signed<Request>, now: nat,
        binding: Option<Binding>)
    requires l.grants.Keys <= l.decisions.Keys
    ensures
      var answer, r := Admit(p, l, request, now, binding).1, request.body;
      && (!Right(p, request, now) ==> answer.Err? && Some(answer.error) == RequestFault(p, request, now))
      && (Right(p, request, now) ==>
            && (r.nonce in l.nonces ==> answer == Err(Replay))
            && (r.nonce !in l.nonces && r.expectedGeneration != l.generation ==> answer == Err(StaleGeneration))
            && (r.nonce !in l.nonces && r.expectedGeneration == l.generation && r.requestId in l.decisions ==>
                  answer == Err(Storage)))
  {
    FirstFailureIsReported(p, request, now);
  }

  /** A plain request is logged when refused, and that is all its refusal leaves. */
  lemma {:induction false} RefusalIsLogged(p: ControllerPolicy, l: Ledger, request: Signed<Request>, now: nat)
    ensures
      var (next, answer) := AdmitLogged(p, l, request, now);
      && answer == Admit(p, l, request, now, None).1
      && (answer.Ok? ==> next == Admit(p, l, request, now, None).0)
      && (answer.Err? ==>
            && next.(events := l.events) == l
            && LogGains(p, l.events, next.events,
                        Event(request.body.requestId, Rejected, Refused(answer.error), l.generation, now)))
  {
    var (next, answer) := AdmitLogged(p, l, request, now);
    if answer.Err? {
      NewestGains(p, l.events, Event(request.body.requestId, Rejected, Refused(answer.error), l.generation, now));
    }
  }

  // ---------------------------------------------------------------- outcomes

  /** The newest decision is this request's. */
  predicate IsNewest(l: Ledger, requestId: string) {
    requestId in l.decisions && l.decisions[requestId].generation == l.generation
  }

  /** An outcome can be reported in these words, and is one. */
  predicate IsOutcome(state: DecisionState) {
    state in {DeferredDecision, PartialDecision, FailedDecision}
  }

  predicate InWords(requestId: string, reason: string) {
    Plain(requestId, 128) && Plain(reason, 256)
  }

  /**
   An outcome is taken exactly for the newest decision, at the generation its reporter expects, when
   it is one and its texts are plain; otherwise the first of these that fails is reported.
   */
  lemma {:induction false} ReportedExactlyWhen(p: ControllerPolicy, l: Ledger, requestId: string, state: DecisionState,
        reason: string, expected: nat, now: nat)
    ensures
      var (next, answer) := ReportOutcome(p, l, requestId, state, reason, expected, now);
      && (answer.Ok? <==>
            InWords(requestId, reason) && IsOutcome(state) && expected == l.generation && IsNewest(l, requestId))
      && (answer.Err? ==> next == l)
      && (!InWords(requestId, reason) ==> answer == Err(Invalid(BoundedText)))
      && (InWords(requestId, reason) && !IsOutcome(state) ==> answer == Err(Invalid(OutcomeField)))
      && (InWords(requestId, reason) && IsOutcome(state) ==>
            && (expected != l.generation ==> answer == Err(StaleGeneration))
            && (expected == l.generation && !IsNewest(l, requestId) ==> answer == Err(Invalid(UnknownRequest))))
  {
    PlainIff(requestId, 128);
    PlainIff(reason, 256);
  }

  /** A report that is taken rewrites its decision's state and reason and is logged; nothing else changes. */
  lemma {:induction false} ReportWrites(p: ControllerPolicy, l: Ledger, requestId: string, state: DecisionState,
        reason: string, expected: nat, now: nat)
    requires ReportOutcome(p, l, requestId, state, reason, expected, now).1.Ok?
    ensures
      var (next, answer) := ReportOutcome(p, l, requestId, state, reason, expected, now);
      && answer.value == Receipt(requestId, state, Reported(reason), l.generation)
      && next.decisions == l.decisions[requestId := DecisionRow(state, Reported(reason), l.generation)]
      && next.generation == l.generation && next.nonces == l.nonces && next.grants == l.grants
      && LogGains(p, l.events, next.events, Event(requestId, state, Reported(reason), l.generation, now))
  {
    var e := Event(requestId, state, Reported(reason), l.generation, now);
    var decided := l.(decisions := l.decisions[requestId := DecisionRow(state, Reported(reason), l.generation)]);
    assert ReportOutcome(p, l, requestId, state, reason, expected, now).0 == Log(p, decided, e);
    NewestGains(p, l.events, e);
  }

  /**
   A report cut off between its writes: nothing without the first; the decision alone after it; the
   event as well after the second, the log not yet pruned; and everything after the third.
   */
  lemma {:induction false} CutReportLeaves(p: ControllerPolicy, l: Ledger, requestId: string, state: DecisionState,
        reason: string, expected: nat, now: nat, writes: nat)
    ensures
      var left := CutReport(p, l, requestId, state, reason, expected, now, writes);
      var (whole, answer) := ReportOutcome(p, l, requestId, state, reason, expected, now);
      && (answer.Err? || writes == 0 ==> left == l)
      && (answer.Ok? && writes >= 1 ==> left.(events := whole.events) == whole)
      && (answer.Ok? && writes == 1 ==> left.events == l.events)
      && (answer.Ok? && writes == 2 ==>
            left.events == l.events + [Event(requestId, state, Reported(reason), l.generation, now)])
      && (answer.Ok? && writes >= 3 ==> left == whole)
  {
  }

  // ---------------------------------------------------------------- the journal

  /**
   A journal write sets the phase, replaces each receipt it is given, keeps each it is not, and
   touches no other row.
   */
  lemma {:induction false} JournalWriteIs(j: Journal, key: JournalKey, phase: Phase, adapter: Option<AdapterReceipt>,
        lifecycle: Option<LifecycleReceipt>)
    ensures
      var later := Upsert(j, key, phase, adapter, lifecycle);
      && later.Keys == j.Keys + {key} && later[key].phase == phase
      && (adapter.Some? ==> later[key].adapter == adapter)
      && (adapter.None? ==> later[key].adapter == if key in j then j[key].adapter else None)
      && (lifecycle.Some? ==> later[key].lifecycle == lifecycle)
      && (lifecycle.None? ==> later[key].lifecycle == if key in j then j[key].lifecycle else None)
      && forall other :: other in j && other != key ==> later[other] == j[other]
  {
  }

  // ---------------------------------------------------------------- gates

  /** What authorizing a gate, or a recovery gate, answers: that the request was accepted, for what and under what. */
  predicate Answers(l: Ledger, a: AuthorizationReceipt, r: Request, o: AdapterOperation, signed: Signed<Authorization>)
  {
    a == AuthorizationReceipt(r.requestId, Accepted, Some(l.generation + 1), Sha(o), Sha(signed))
  }

  /**
   A gate is authorized exactly when it holds now, its authorization is signed, and its request is
   right and unseen. What is granted is this operation under this authorization; what is refused
   leaves the ledger as it is.
   */
  lemma {:induction false} AuthorizedExactlyWhen(p: ControllerPolicy, l: Ledger, g: ApplyGate, now: nat)
    requires l.grants.Keys <= l.decisions.Keys
    ensures
      var (next, permit) := AuthorizeGate(p, l, g, now);
      var holds := GateHolds(g, now);
      && (permit.Ok? <==>
            && holds && IsSigned(g.authorization, p.key)
            && Right(p, g.request, now) && Unseen(l, g.request.body))
      && (permit.Ok? ==>
            && Accepts(p, l, next, g.request.body, now, Some(Binding(Sha(g.operation), Sha(g.authorization))))
            && Answers(l, permit.value, g.request.body, g.operation, g.authorization)
            && GrantedFor(next, g.request.body.requestId, g.operation, g.authorization))
      && (permit.Err? ==> next == l)
      && (!holds ==> permit == Err(GateInvalid))
      && (holds && !IsSigned(g.authorization, p.key) ==> permit == Err(SignatureInvalid))
  {
    GateAcceptedExactlyWhen(g, now);
    AcceptedExactly(p, l, g.request, now, Some(BindingOf(g)));
  }

  /** The same of a recovery gate. */
  lemma {:induction false} RecoveryAuthorizedExactlyWhen(p: ControllerPolicy, l: Ledger, g: R.RecoveryGate, now: nat)
    requires l.grants.Keys <= l.decisions.Keys
    ensures
      var (next, permit) := R.AuthorizeRecovery(p, l, g, now);
      var holds := UndoHolds(g, now);
      && (permit.Ok? <==>
            && holds && IsSigned(g.authorization, p.key)
            && Right(p, g.request, now) && Unseen(l, g.request.body))
      && (permit.Ok? ==>
            && Accepts(p, l, next, g.request.body, now, Some(Binding(Sha(g.operation), Sha(g.authorization))))
            && Answers(l, permit.value, g.request.body, g.operation, g.authorization)
            && GrantedFor(next, g.request.body.requestId, g.operation, g.authorization))
      && (permit.Err? ==> next == l)
      && (!holds ==> permit == Err(GateInvalid))
      && (holds && !IsSigned(g.authorization, p.key) ==> permit == Err(SignatureInvalid))
  {
    RecoveryAcceptedExactlyWhen(g, now);
    AcceptedExactly(p, l, g.request, now, Some(R.RecoveryBinding(g)));
  }

  // ---------------------------------------------------------------- plans

  /** The request asks to accept this plan, at its digests and generation, which the plan moves by one. */
  predicate AsksToAccept(s: S.Submission) {
    var r := s.request.body;
    && s.schemaVersion == "iicp.management-plan-submission.v1" && r.action == OtherAction("accept_plan")
    && s.plan.schemaVersion == "1" && r.planDigest == Sha(OfPlan(s.plan))
    && (s.plan.bundleDigest.Sha? ==> r.payloadDigest == Sha(PlannedBundle(s.plan.bundleDigest.of)))
    && (s.plan.bundleDigest.Text? ==> r.payloadDigest == Text(s.plan.bundleDigest.text))
    && r.expectedGeneration == s.plan.expectedGeneration
    && s.plan.targetGeneration == s.plan.expectedGeneration + 1
  }

  /** Every step is named, is about a resource of its own, and makes the plan's own move. */
  predicate StepsFit(plan: P.Plan) {
    && plan.operations != []
    && (forall k :: 0 <= k < |plan.operations| ==>
          && plan.operations[k].operationId != "" && plan.operations[k].resourceId != ""
          && plan.operations[k].expectedGeneration == plan.expectedGeneration
          && plan.operations[k].targetGeneration == plan.targetGeneration)
    && forall i, j :: 0 <= i < j < |plan.operations| ==>
         plan.operations[i].resourceId != plan.operations[j].resourceId
  }

  /** The ids are those of the steps' resources, in ascending order. */
  predicate ListsResources(ids: seq<string>, plan: P.Plan) {
    && (forall i, j :: 0 <= i < j < |ids| ==> Before(ids[i], ids[j]))
    && (forall k :: 0 <= k < |plan.operations| ==> plan.operations[k].resourceId in ids)
    && forall id :: id in ids ==> exists k :: 0 <= k < |plan.operations| && plan.operations[k].resourceId == id
  }

  lemma {:induction false} ResourcesDifferIff(ops: seq<P.Operation>)
    ensures |S.ResourcesOf(ops)| == |ops| <==>
            forall i, j :: 0 <= i < j < |ops| ==> ops[i].resourceId != ops[j].resourceId
  {
    var ids := seq(|ops|, i requires 0 <= i < |ops| => ops[i].resourceId);
    S.ResourcesInOrder(ids, ops);
    assert P.Names(ids) == S.ResourcesOf(ops);
    if forall i, j :: 0 <= i < j < |ops| ==> ops[i].resourceId != ops[j].resourceId {
      P.DistinctCount(ids);
    }
    if |P.Names(ids)| == |ids| {
      P.CountedIsDistinct(ids);
      forall i, j | 0 <= i < j < |ops| ensures ops[i].resourceId != ops[j].resourceId {
        assert ids[i] != ids[j];
      }
    }
  }

  lemma {:induction false} ListsResourcesIff(ids: seq<string>, plan: P.Plan)
    ensures S.Enumerates(ids, S.ResourcesOf(plan.operations)) <==> ListsResources(ids, plan)
  {
    var all := S.ResourcesOf(plan.operations);
    forall id ensures id in all <==> exists k :: 0 <= k < |plan.operations| && plan.operations[k].resourceId == id {
      if id in all {
        var o :| o in plan.operations && o.resourceId == id;
        var k :| 0 <= k < |plan.operations| && plan.operations[k] == o;
      }
      if k :| 0 <= k < |plan.operations| && plan.operations[k].resourceId == id {
        assert plan.operations[k] in plan.operations;
      }
    }
  }

  lemma {:induction false} FitsIff(s: S.Submission)
    ensures S.Submittable(s) <==>
            AsksToAccept(s) && StepsFit(s.plan) && ListsResources(s.request.body.resourceIds, s.plan)
  {
    ResourcesDifferIff(s.plan.operations);
    ListsResourcesIff(s.request.body.resourceIds, s.plan);
    forall k | 0 <= k < |s.plan.operations| ensures s.plan.operations[k] in s.plan.operations {
    }
  }

  /**
   A plan is accepted exactly when the request asks to accept it and lists its resources, its steps
   fit, and the request is right and unseen. A plan that does not fit is not even logged; one that
   does is evaluated as any plain request.
   */
  lemma {:induction false} PlanAcceptedExactlyWhen(p: ControllerPolicy, l: Ledger, s: S.Submission, now: nat)
    requires l.grants.Keys <= l.decisions.Keys
    ensures
      var (next, answer) := S.AcceptPlan(p, l, s, now);
      var fits := AsksToAccept(s) && StepsFit(s.plan) && ListsResources(s.request.body.resourceIds, s.plan);
      && (answer.Ok? <==> fits && Right(p, s.request, now) && Unseen(l, s.request.body))
      && (!fits ==> answer == Err(Invalid(PlanBinding)) && next == l)
      && (fits ==> (next, answer) == AdmitLogged(p, l, s.request, now))
  {
    FitsIff(s);
    AcceptedExactly(p, l, s.request, now, None);
  }

}
