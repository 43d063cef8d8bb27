/**
 The controller's ledger: one transaction consumes a nonce, takes the next generation and
 records the decision, with the authorization it grants. Over every run it stays gap-free.
 */
module Controllers {
  import opened Common
  import opened Gates

  // ---------------------------------------------------------------- admission of a request

  datatype ControllerPolicy = ControllerPolicy(
    audience: string,
    domain: string,
    allowedActions: set<ActionName>,
    revocationCheckpoint: nat,
    maxCheckpointAge: nat,
    highImpactActions: set<ActionName>,
    maxEvents: nat,
    key: string)

  datatype Field = Profile | BoundedText | Resources | Time | OutcomeField | UnknownRequest | PlanBinding

  datatype ControllerError =
    | Invalid(field: Field)
    | Replay
    | SignatureInvalid
    | StaleGeneration
    | PolicyDenied
    | Storage
    | GateInvalid

  const MAX_LIFETIME := 300

  predicate Control(c: char) {
    c < ' ' || '\U{7F}' <= c <= '\U{9F}'
  }

  predicate ValidText(s: string, maximum: nat) {
    0 < |s| <= maximum && forall c :: c in s ==> !Control(c)
  }

  predicate ValidAction(a: ActionName) {
    a.OtherAction? ==> ValidText(a.text, 128)
  }

  predicate ValidDigest<T>(d: Digest<T>) {
    d.Text? ==> ValidText(d.text, 256)
  }

  predicate ValidTexts(r: Request) {
    && ValidText(r.requestId, 128) && ValidText(r.issuerId, 128) && ValidText(r.audience, 128)
    && ValidText(r.domain, 128) && ValidAction(r.action) && ValidText(r.nonce, 128)
  }

  predicate CheckpointTooOld(p: ControllerPolicy, a: ActionName, now: nat) {
    a in p.highImpactActions && now > p.revocationCheckpoint + p.maxCheckpointAge
  }

  /** Why a request is refused before the ledger is opened, if it is. */
  function RequestFault(p: ControllerPolicy, request: Signed<Request>, now: nat): Option<ControllerError> {
    var r := request.body;
    if r.schemaVersion != "1" || r.signatureProfile != SIGNATURE_PROFILE then Some(Invalid(Profile))
    else if !ValidTexts(r) then Some(Invalid(BoundedText))
    else if !(0 < |r.resourceIds| <= 128) then Some(Invalid(Resources))
    else if (exists id :: id in r.resourceIds && !ValidText(id, 256)) || !ValidDigest(r.payloadDigest)
      || !ValidDigest(r.planDigest)
    then Some(Invalid(BoundedText))
    else if r.audience != p.audience || r.domain != p.domain then Some(PolicyDenied)
    else if now < r.issuedAt || now > r.expiresAt || r.expiresAt - r.issuedAt > MAX_LIFETIME then Some(Invalid(Time))
    else if r.action !in p.allowedActions || CheckpointTooOld(p, r.action, now) then Some(PolicyDenied)
    else if !SignedBy(request, p.key) then Some(SignatureInvalid)
    else None
  }

  // ---------------------------------------------------------------- the ledger

  datatype Why = Authorized | Refused(error: ControllerError) | Reported(text: string)

  datatype DecisionRow = DecisionRow(state: DecisionState, why: Why, generation: nat)

  datatype Event = Event(requestId: string, state: DecisionState, why: Why, generation: nat, at: nat)

  /** What an accepted request authorizes: one operation, under one signed authorization. */
  datatype Binding = Binding(operation: Digest<AdapterOperation>, context: Digest<Signed<Authorization>>)

  datatype Grant = Grant(binding: Binding, generation: nat)

  datatype Ledger = Ledger(
    generation: nat,
    nonces: map<string, string>,
    decisions: map<string, DecisionRow>,
    events: seq<Event>,
    grants: map<string, Grant>)

  const EMPTY := Ledger(0, map[], map[], [], map[])

  datatype Receipt = Receipt(requestId: string, decision: DecisionState, why: Why, generation: nat)

  type Answer = Result<Receipt, ControllerError>

  function Capacity(p: ControllerPolicy): nat {
    if p.maxEvents == 0 then 1 else p.maxEvents
  }

  function Newest<T>(s: seq<T>, n: nat): seq<T> {
    if |s| <= n then s else s[|s| - n..]
  }

  function Log(p: ControllerPolicy, l: Ledger, e: Event): Ledger {
    l.(events := Newest(l.events + [e], Capacity(p)))
  }

  /** The ledger after the transaction that accepts `r`. */
  function Commit(p: ControllerPolicy, l: Ledger, r: Request, now: nat, binding: Option<Binding>): Ledger {
    var next := l.generation + 1;
    Log(p, Ledger(
          next,
          l.nonces[r.nonce := r.requestId],
          l.decisions[r.requestId := DecisionRow(Accepted, Authorized, next)],
          l.events,
          match binding
          case None => l.grants
          case Some(b) => l.grants[r.requestId := Grant(b, next)]),
        Event(r.requestId, Accepted, Authorized, next, now))
  }

  function LedgerFault(l: Ledger, r: Request, binding: Option<Binding>): Option<ControllerError> {
    if r.nonce in l.nonces then Some(Replay)
    else if r.expectedGeneration != l.generation then Some(StaleGeneration)
    else if r.requestId in l.decisions || (binding.Some? && r.requestId in l.grants) then Some(Storage)
    else None
  }

  function Admit(p: ControllerPolicy, l: Ledger, request: Signed<Request>, now: nat, binding: Option<Binding>)
    : (Ledger, Answer)
  {
    match RequestFault(p, request, now)
    case Some(e) => (l, Err(e))
    case None =>
      match LedgerFault(l, request.body, binding)
      case Some(e) => (l, Err(e))
      case None =>
        (Commit(p, l, request.body, now, binding),
         Ok(Receipt(request.body.requestId, Accepted, Authorized, l.generation + 1)))
  }

  /** A plain request; its refusal is logged. */
  function AdmitLogged(p: ControllerPolicy, l: Ledger, request: Signed<Request>, now: nat): (Ledger, Answer) {
    var (next, r) := Admit(p, l, request, now, None);
    match r
    case Ok(_) => (next, r)
    case Err(e) => (Log(p, next, Event(request.body.requestId, Rejected, Refused(e), next.generation, now)), r)
  }

  predicate Reportable(state: DecisionState) {
    state == DeferredDecision || state == PartialDecision || state == FailedDecision
  }

  function ReportOutcome(p: ControllerPolicy, l: Ledger, requestId: string, state: DecisionState, reason: string,
        expected: nat, now: nat)
    : (Ledger, Answer)
  {
    if !ValidText(requestId, 128) || !ValidText(reason, 256) then (l, Err(Invalid(BoundedText)))
    else if !Reportable(state) then (l, Err(Invalid(OutcomeField)))
    else if l.generation != expected then (l, Err(StaleGeneration))
    else if requestId !in l.decisions || l.decisions[requestId].generation != l.generation
    then (l, Err(Invalid(UnknownRequest)))
    else
      (Log(p, l.(decisions := l.decisions[requestId := DecisionRow(state, Reported(reason), l.generation)]),
           Event(requestId, state, Reported(reason), l.generation, now)),
       Ok(Receipt(requestId, state, Reported(reason), l.generation)))
  }

  /**
   A report is three writes, committed one by one: the decision, its event, the pruning of the log.
   This is what is left of it when the process ends after so many.
   */
  function CutReport(p: ControllerPolicy, l: Ledger, requestId: string, state: DecisionState, reason: string,
        expected: nat, now: nat, writes: nat): Ledger
  {
    var (next, r) := ReportOutcome(p, l, requestId, state, reason, expected, now);
    if r.Err? || writes == 0 then l
    else if writes == 1 then l.(decisions := next.decisions)
    else if writes == 2 then next.(events := l.events + [Event(requestId, state, Reported(reason), l.generation, now)])
    else next
  }

  // ---------------------------------------------------------------- gates

  function BindingOf(g: ApplyGate): Binding {
    Binding(Sha(g.operation), Sha(g.authorization))
  }

  function AuthorizationOf(r: Receipt, b: Binding): AuthorizationReceipt {
    AuthorizationReceipt(r.requestId, r.decision, Some(r.generation), b.operation, b.context)
  }

  type Permit = Result<AuthorizationReceipt, ControllerError>

  function AuthorizeBound(p: ControllerPolicy, l: Ledger, request: Signed<Request>, now: nat,
        b: Binding): (Ledger, Permit)
  {
    var (next, r) := Admit(p, l, request, now, Some(b));
    match r
    case Err(e) => (next, Err(e))
    case Ok(receipt) => (next, Ok(AuthorizationOf(receipt, b)))
  }

  function AuthorizeGate(p: ControllerPolicy, l: Ledger, g: ApplyGate, now: nat): (Ledger, Permit) {
    if ApplyGateFault(g, now).Some? then (l, Err(GateInvalid))
    else if !SignedBy(g.authorization, p.key) then (l, Err(SignatureInvalid))
    else AuthorizeBound(p, l, g.request, now, BindingOf(g))
  }

  /** The stored authorization for a request, when it is for exactly this operation and context. */
  function FindGrant(l: Ledger, requestId: string, b: Binding): Permit {
    if requestId !in l.grants || l.grants[requestId].binding != b then Err(GateInvalid)
    else Ok(AuthorizationOf(Receipt(requestId, Accepted, Authorized, l.grants[requestId].generation), b))
  }

  function ResumeGate(p: ControllerPolicy, l: Ledger, g: ApplyGate, now: nat): Permit {
    if ApplyGateFault(g, now).Some? then Err(GateInvalid)
    else if !SignedBy(g.request, p.key) || !SignedBy(g.authorization, p.key) then Err(SignatureInvalid)
    else FindGrant(l, g.request.body.requestId, BindingOf(g))
  }

  // ---------------------------------------------------------------- the execution journal

  datatype Phase = Started | AdapterReported | PhaseVerified | Complete

  datatype Row = Row(phase: Phase, adapter: Option<AdapterReceipt>, lifecycle: Option<LifecycleReceipt>)

  type JournalKey = (string, Digest<AdapterOperation>)

  type Journal = map<JournalKey, Row>

  function Coalesce<T>(newer: Option<T>, stored: Option<T>): Option<T> {
    if newer.Some? then newer else stored
  }

  /** An upsert: the phase is replaced, a receipt only by a newer one. */
  function Upsert(j: Journal, key: JournalKey, phase: Phase, adapter: Option<AdapterReceipt>,
        lifecycle: Option<LifecycleReceipt>)
    : Journal
  {
    j[key :=
      if key in j then Row(phase, Coalesce(adapter, j[key].adapter), Coalesce(lifecycle, j[key].lifecycle))
      else Row(phase, adapter, lifecycle)]
  }

  // ---------------------------------------------------------------- the controller

  class Controller {
    const policy: ControllerPolicy
    var generation: nat
    var nonces: map<string, string>
    var decisions: map<string, DecisionRow>
    var events: seq<Event>
    var grants: map<string, Grant>
    var journal: Journal

    ghost function View(): Ledger
      reads this
    {
      Ledger(generation, nonces, decisions, events, grants)
    }

    constructor (policy: ControllerPolicy)
      ensures this.policy == policy && View() == EMPTY && journal == map[]
    {
      this.policy := policy;
      generation, nonces, decisions, events, grants, journal := 0, map[], map[], [], map[], map[];
    }

    method Prune()
      modifies `events
      ensures events == Newest(old(events), Capacity(policy))
    {
      var keep := if policy.maxEvents > 1 then policy.maxEvents else 1;
      if |events| > keep {
        events := events[|events| - keep..];
      }
    }

    /** Every write of the transaction is undone when one of them fails. */
    method EvaluateAuthorized(request: Signed<Request>, now: nat, binding: Option<Binding>) returns (r: Answer)
      modifies this
      ensures (View(), r) == Admit(policy, old(View()), request, now, binding)
      ensures journal == old(journal)
    {
      var fault := RequestFault(policy, request, now);
      if fault.Some? {
        return Err(fault.value);
      }
      var body := request.body;
      if body.nonce in nonces {
        return Err(Replay);
      }
      if body.expectedGeneration != generation {
        return Err(StaleGeneration);
      }
      var savedNonces, savedGeneration, savedDecisions, savedEvents := nonces, generation, decisions, events;
      var next := generation + 1;
      nonces := nonces[body.nonce := body.requestId];
      generation := next;
      if body.requestId in decisions {
        nonces, generation := savedNonces, savedGeneration;
        return Err(Storage);
      }
      decisions := decisions[body.requestId := DecisionRow(Accepted, Authorized, next)];
      events := events + [Event(body.requestId, Accepted, Authorized, next, now)];
      if binding.Some? {
        if body.requestId in grants {
          nonces, generation, decisions, events := savedNonces, savedGeneration, savedDecisions, savedEvents;
          return Err(Storage);
        }
        grants := grants[body.requestId := Grant(binding.value, next)];
      }
      Prune();
      return Ok(Receipt(body.requestId, Accepted, Authorized, next));
    }

    method Evaluate(request: Signed<Request>, now: nat) returns (r: Answer)
      modifies this
      ensures (View(), r) == AdmitLogged(policy, old(View()), request, now)
      ensures journal == old(journal)
    {
      r := EvaluateAuthorized(request, now, None);
      if r.Err? {
        events := events + [Event(request.body.requestId, Rejected, Refused(r.error), generation, now)];
        Prune();
      }
    }

    /** Records an outcome, for as many writes as the process lives to make; all three are made before it answers. */
    method RecordOutcome(requestId: string, state: DecisionState, reason: string, expected: nat, now: nat, writes: nat)
      returns (r: Answer)
      modifies this
      ensures View() == CutReport(policy, old(View()), requestId, state, reason, expected, now, writes)
      ensures r == ReportOutcome(policy, old(View()), requestId, state, reason, expected, now).1
      ensures journal == old(journal)
    {
      if !ValidText(requestId, 128) || !ValidText(reason, 256) {
        return Err(Invalid(BoundedText));
      }
      if !Reportable(state) {
        return Err(Invalid(OutcomeField));
      }
      if generation != expected {
        return Err(StaleGeneration);
      }
      if requestId !in decisions || decisions[requestId].generation != generation {
        return Err(Invalid(UnknownRequest));
      }
      if writes >= 1 {
        decisions := decisions[requestId := DecisionRow(state, Reported(reason), generation)];
      }
      if writes >= 2 {
        events := events + [Event(requestId, state, Reported(reason), generation, now)];
      }
      if writes >= 3 {
        Prune();
      }
      return Ok(Receipt(requestId, state, Reported(reason), generation));
    }

    method AuthorizeApplyGate(g: ApplyGate, now: nat) returns (r: Permit)
      modifies this
      ensures (View(), r) == AuthorizeGate(policy, old(View()), g, now)
      ensures journal == old(journal)
    {
      if ApplyGateFault(g, now).Some? {
        return Err(GateInvalid);
      }
      if !SignedBy(g.authorization, policy.key) {
        return Err(SignatureInvalid);
      }
      var answer := EvaluateAuthorized(g.request, now, Some(BindingOf(g)));
      if answer.Err? {
        return Err(answer.error);
      }
      return Ok(AuthorizationOf(answer.value, BindingOf(g)));
    }

    method ResumeBound(requestId: string, b: Binding) returns (r: Permit)
      ensures r == FindGrant(View(), requestId, b)
    {
      if requestId !in grants || grants[requestId].binding != b {
        return Err(GateInvalid);
      }
      return Ok(AuthorizationOf(Receipt(requestId, Accepted, Authorized, grants[requestId].generation), b));
    }

    method ResumeAuthorizedApply(g: ApplyGate, now: nat) returns (r: Permit)
      ensures r == ResumeGate(policy, View(), g, now)
    {
      if ApplyGateFault(g, now).Some? {
        return Err(GateInvalid);
      }
      if !SignedBy(g.request, policy.key) || !SignedBy(g.authorization, policy.key) {
        return Err(SignatureInvalid);
      }
      r := ResumeBound(g.request.body.requestId, BindingOf(g));
    }

    method RecordExecutionPhase(key: JournalKey, phase: Phase, adapter: Option<AdapterReceipt>,
          lifecycle: Option<LifecycleReceipt>)
      modifies `journal
      ensures journal == Upsert(old(journal), key, phase, adapter, lifecycle)
    {
      if key in journal {
        var row := journal[key];
        journal := journal[key := Row(phase,
          if adapter.Some? then adapter else row.adapter,
          if lifecycle.Some? then lifecycle else row.lifecycle)];
      } else {
        journal := journal[key := Row(phase, adapter, lifecycle)];
      }
    }
  }

  // ---------------------------------------------------------------- runs of the ledger

  datatype Input =
    | Submit(request: Signed<Request>, now: nat)
    | AuthorizeInput(request: Signed<Request>, now: nat, binding: Binding)
    | ReportInput(requestId: string, state: DecisionState, reason: string, expected: nat, now: nat)

  function Step(p: ControllerPolicy, l: Ledger, input: Input): (Ledger, Answer) {
    match input
    case Submit(request, now) => AdmitLogged(p, l, request, now)
    case AuthorizeInput(request, now, b) => Admit(p, l, request, now, Some(b))
    case ReportInput(id, state, reason, expected, now) => ReportOutcome(p, l, id, state, reason, expected, now)
  }

  function RunLedger(p: ControllerPolicy, l: Ledger, inputs: seq<Input>): Ledger
    decreases |inputs|
  {
    if inputs == [] then l else RunLedger(p, Step(p, l, inputs[0]).0, inputs[1..])
  }

  /** One accepted request, as the ledger must remember it. */
  datatype Acceptance = Acceptance(requestId: string, nonce: string)

  /** The acceptance a step adds to the list of all acceptances so far, if it adds one. */
  function Accepting(l: Ledger, next: Ledger, input: Input): seq<Acceptance> {
    if next.generation == l.generation || input.ReportInput? then []
    else [Acceptance(input.request.body.requestId, input.request.body.nonce)]
  }

  function AcceptedIn(p: ControllerPolicy, l: Ledger, inputs: seq<Input>): seq<Acceptance>
    decreases |inputs|
  {
    if inputs == [] then []
    else
      var next := Step(p, l, inputs[0]).0;
      Accepting(l, next, inputs[0]) + AcceptedIn(p, next, inputs[1..])
  }

  /** Acceptance number `g` holds generation `g + 1` and consumed its nonce. */
  predicate Numbered(l: Ledger, done: seq<Acceptance>, g: nat)
    requires g < |done|
  {
    && done[g].requestId in l.decisions && l.decisions[done[g].requestId].generation == g + 1
    && done[g].nonce in l.nonces && l.nonces[done[g].nonce] == done[g].requestId
  }

  /** A decision is the acceptance its generation numbers; its grant, if any, has that generation. */
  predicate Traced(l: Ledger, done: seq<Acceptance>, id: string)
    requires id in l.decisions
  {
    && 1 <= l.decisions[id].generation <= |done| && done[l.decisions[id].generation - 1].requestId == id
    && (id in l.grants ==> l.grants[id].generation == l.decisions[id].generation)
  }

  predicate Consumed(l: Ledger, done: seq<Acceptance>, nonce: string)
    requires nonce in l.nonces
  {
    var id := l.nonces[nonce];
    id in l.decisions && 1 <= l.decisions[id].generation <= |done|
      && done[l.decisions[id].generation - 1] == Acceptance(id, nonce)
  }

  /**
   The ledger numbers exactly the acceptances in `done`, in order and without gaps: one
   generation, one decision and one nonce each, and grants only at their decision's generation.
   */
  ghost predicate GapFree(l: Ledger, done: seq<Acceptance>) {
    && |done| == l.generation == |l.decisions| == |l.nonces|
    && (forall g {:trigger Numbered(l, done, g)} :: 0 <= g < |done| ==> Numbered(l, done, g))
    && (forall id {:trigger Traced(l, done, id)} :: id in l.decisions ==> Traced(l, done, id))
    && (forall n {:trigger Consumed(l, done, n)} :: n in l.nonces ==> Consumed(l, done, n))
    && l.grants.Keys <= l.decisions.Keys
  }

  lemma {:induction false} CommitCounts(p: ControllerPolicy, l: Ledger, r: Request, now: nat, b: Option<Binding>)
    requires r.requestId !in l.decisions && r.nonce !in l.nonces
    ensures |Commit(p, l, r, now, b).decisions| == |l.decisions| + 1
    ensures |Commit(p, l, r, now, b).nonces| == |l.nonces| + 1
  {
  }

  lemma {:induction false} CommitStaysGapFree(p: ControllerPolicy, l: Ledger, done: seq<Acceptance>, r: Request,
        now: nat, b: Option<Binding>)
    requires GapFree(l, done) && LedgerFault(l, r, b).None?
    ensures GapFree(Commit(p, l, r, now, b), done + [Acceptance(r.requestId, r.nonce)])
  {
    var next := Commit(p, l, r, now, b);
    var more := done + [Acceptance(r.requestId, r.nonce)];
    CommitCounts(p, l, r, now, b);
    forall g | 0 <= g < |more| ensures Numbered(next, more, g) {
      assert g < |done| ==> Numbered(l, done, g);
    }
    forall id | id in next.decisions ensures Traced(next, more, id) {
      assert id != r.requestId ==> Traced(l, done, id);
    }
    forall n | n in next.nonces ensures Consumed(next, more, n) {
      assert n != r.nonce ==> Consumed(l, done, n);
    }
  }

  /** Only generations, nonces, grants and the numbering of decisions matter to being gap-free. */
  lemma {:induction false} SameNumberingStaysGapFree(l: Ledger, next: Ledger, done: seq<Acceptance>)
    requires GapFree(l, done)
    requires next.generation == l.generation && next.nonces == l.nonces && next.grants == l.grants
    requires next.decisions.Keys == l.decisions.Keys
    requires forall id :: id in l.decisions ==> next.decisions[id].generation == l.decisions[id].generation
    ensures GapFree(next, done)
  {
    assert |next.decisions| == |next.decisions.Keys| == |l.decisions.Keys| == |l.decisions|;
    forall g | 0 <= g < |done| ensures Numbered(next, done, g) {
      assert Numbered(l, done, g);
    }
    forall id | id in next.decisions ensures Traced(next, done, id) {
      assert Traced(l, done, id);
    }
    forall n | n in next.nonces ensures Consumed(next, done, n) {
      assert Consumed(l, done, n);
    }
  }

  lemma {:induction false} StepStaysGapFree(p: ControllerPolicy, l: Ledger, done: seq<Acceptance>, i: Input)
    requires GapFree(l, done)
    ensures GapFree(Step(p, l, i).0, done + Accepting(l, Step(p, l, i).0, i))
  {
    var next := Step(p, l, i).0;
    if i.ReportInput? || Step(p, l, i).1.Err? {
      SameNumberingStaysGapFree(l, next, done);
      assert done + [] == done;
    } else {
      CommitStaysGapFree(p, l, done, i.request.body, i.now, if i.Submit? then None else Some(i.binding));
    }
  }

  lemma {:induction false} AcceptedInSplits(p: ControllerPolicy, l: Ledger, done: seq<Acceptance>, inputs: seq<Input>)
    requires inputs != []
    ensures
      var next := Step(p, l, inputs[0]).0;
      done + AcceptedIn(p, l, inputs) == (done + Accepting(l, next, inputs[0])) + AcceptedIn(p, next, inputs[1..])
  {
  }

  lemma {:induction false} RunStaysGapFree(p: ControllerPolicy, l: Ledger, done: seq<Acceptance>, inputs: seq<Input>)
    requires GapFree(l, done)
    ensures GapFree(RunLedger(p, l, inputs), done + AcceptedIn(p, l, inputs))
    decreases |inputs|
  {
    if inputs == [] {
      assert done + AcceptedIn(p, l, inputs) == done;
    } else {
      var next := Step(p, l, inputs[0]).0;
      StepStaysGapFree(p, l, done, inputs[0]);
      AcceptedInSplits(p, l, done, inputs);
      RunStaysGapFree(p, next, done + Accepting(l, next, inputs[0]), inputs[1..]);
    }
  }

  ghost predicate OnlyDecisionAt(l: Ledger, id: string, generation: nat) {
    && id in l.decisions && l.decisions[id].generation == generation
    && forall other :: other in l.decisions && l.decisions[other].generation == generation ==> other == id
  }

  ghost predicate DecidedAt(l: Ledger, generation: nat) {
    exists id :: OnlyDecisionAt(l, id, generation)
  }

  lemma {:induction false} GapFreeDecides(l: Ledger, done: seq<Acceptance>, g: nat)
    requires GapFree(l, done) && g < l.generation
    ensures DecidedAt(l, g + 1)
  {
    var id := done[g].requestId;
    assert Numbered(l, done, g);
    forall other | other in l.decisions && l.decisions[other].generation == g + 1 ensures other == id {
      assert Traced(l, done, other);
    }
    assert OnlyDecisionAt(l, id, g + 1);
  }

  lemma {:induction false} GapFreeIsInjective(l: Ledger, done: seq<Acceptance>, i: nat, j: nat)
    requires GapFree(l, done) && i < j < |done|
    ensures done[i].requestId != done[j].requestId && done[i].nonce != done[j].nonce
  {
    assert Numbered(l, done, i) && Numbered(l, done, j);
  }

  /**
   Every run of the controller numbers its acceptances 1, 2, 3, ... with none missing and none
   shared: as many decisions and nonces as generations, and no request or nonce accepted twice.
   */
  lemma {:induction false} LedgerIsGapFree(p: ControllerPolicy, inputs: seq<Input>)
    ensures
      var l := RunLedger(p, EMPTY, inputs);
      var done := AcceptedIn(p, EMPTY, inputs);
      && GapFree(l, done)
      && (forall i, j :: 0 <= i < j < |done| ==>
          done[i].requestId != done[j].requestId && done[i].nonce != done[j].nonce)
      && (forall g :: 1 <= g <= l.generation ==> DecidedAt(l, g))
  {
    RunStaysGapFree(p, EMPTY, [], inputs);
    var l := RunLedger(p, EMPTY, inputs);
    var done := AcceptedIn(p, EMPTY, inputs);
    assert [] + done == done;
    forall i, j | 0 <= i < j < |done| ensures done[i].requestId != done[j].requestId && done[i].nonce != done[j].nonce {
      GapFreeIsInjective(l, done, i, j);
    }
    forall g | 1 <= g <= l.generation ensures DecidedAt(l, g) {
      GapFreeDecides(l, done, g - 1);
    }
  }

  // ---------------------------------------------------------------- what stays for ever

  /** Later ledgers only add: an accepted request keeps its generation, nonce and grant. */
  predicate Extends(later: Ledger, l: Ledger) {
    && l.generation <= later.generation
    && (forall id :: id in l.decisions ==>
        id in later.decisions && later.decisions[id].generation == l.decisions[id].generation)
    && (forall n :: n in l.nonces ==> n in later.nonces && later.nonces[n] == l.nonces[n])
    && (forall id :: id in l.grants ==> id in later.grants && later.grants[id] == l.grants[id])
  }

  lemma {:induction false} StepExtends(p: ControllerPolicy, l: Ledger, i: Input)
    requires forall id :: id in l.grants ==> id in l.decisions
    ensures Extends(Step(p, l, i).0, l)
  {
  }

  /** Nothing a run does later takes an acceptance back. */
  lemma {:induction false} AcceptanceIsForever(p: ControllerPolicy, l: Ledger, done: seq<Acceptance>,
        inputs: seq<Input>)
    requires GapFree(l, done)
    ensures Extends(RunLedger(p, l, inputs), l)
    decreases |inputs|
  {
    if inputs == [] {
    } else {
      var next := Step(p, l, inputs[0]).0;
      StepExtends(p, l, inputs[0]);
      StepStaysGapFree(p, l, done, inputs[0]);
      AcceptanceIsForever(p, next, done + Accepting(l, next, inputs[0]), inputs[1..]);
    }
  }

  /** A ledger that remembers a request or its nonce refuses it. */
  lemma {:induction false} RememberedIsRefused(p: ControllerPolicy, l: Ledger, i: Input)
    requires !i.ReportInput?
    requires i.request.body.requestId in l.decisions || i.request.body.nonce in l.nonces
    ensures Step(p, l, i).1.Err? && Step(p, l, i).0.(events := l.events) == l
  {
  }

  /** An accepted request is never accepted again, however it is presented and whatever came between. */
  lemma {:induction false} AcceptedOnlyOnce(p: ControllerPolicy, inputs: seq<Input>, first: Input, between: seq<Input>,
        again: Input)
    requires !first.ReportInput? && !again.ReportInput?
    requires first.request.body.requestId == again.request.body.requestId
             || first.request.body.nonce == again.request.body.nonce
    requires Step(p, RunLedger(p, EMPTY, inputs), first).1.Ok?
    ensures
      var l := RunLedger(p, Step(p, RunLedger(p, EMPTY, inputs), first).0, between);
      Step(p, l, again).1.Err? && Step(p, l, again).0.(events := l.events) == l
  {
    var l := RunLedger(p, EMPTY, inputs);
    var next := Step(p, l, first).0;
    var done := AcceptedIn(p, EMPTY, inputs);
    LedgerIsGapFree(p, inputs);
    StepStaysGapFree(p, l, done, first);
    AcceptanceIsForever(p, next, done + Accepting(l, next, first), between);
    assert first.request.body.requestId in next.decisions && first.request.body.nonce in next.nonces;
    RememberedIsRefused(p, RunLedger(p, next, between), again);
  }

  /**
   When a request is accepted, in full: what its sender must have got right, and what the ledger
   must not have seen.
   */
  lemma {:induction false} AcceptedExactlyWhen(p: ControllerPolicy, l: Ledger, i: Input)
    requires !i.ReportInput? && l.grants.Keys <= l.decisions.Keys
    ensures
      var r := i.request.body;
      Step(p, l, i).1.Ok? <==>
        && SignedBy(i.request, p.key) && r.schemaVersion == "1" && r.signatureProfile == SIGNATURE_PROFILE
        && r.audience == p.audience && r.domain == p.domain
        && r.action in p.allowedActions
        && (r.action in p.highImpactActions ==> i.now - p.revocationCheckpoint <= p.maxCheckpointAge)
        && r.issuedAt <= i.now <= r.expiresAt && r.expiresAt - r.issuedAt <= 300
        && ValidTexts(r) && ValidDigest(r.payloadDigest) && ValidDigest(r.planDigest)
        && 0 < |r.resourceIds| <= 128 && (forall id :: id in r.resourceIds ==> ValidText(id, 256))
        && r.expectedGeneration == l.generation && r.nonce !in l.nonces && r.requestId !in l.decisions
  {
  }

  /** A refusal leaves no trace but its event; an outcome report changes no generation, nonce or grant. */
  lemma {:induction false} OnlyAcceptanceMovesTheLedger(p: ControllerPolicy, l: Ledger, i: Input)
    ensures
      var (next, r) := Step(p, l, i);
      && (r.Err? ==> next.(events := l.events) == l)
      && (i.ReportInput? ==>
          next.(events := l.events, decisions := l.decisions) == l && next.decisions.Keys == l.decisions.Keys)
      && (next.generation != l.generation <==> r.Ok? && !i.ReportInput?)
      && (r.Ok? && !i.ReportInput? ==>
            && next.generation == l.generation + 1
            && next.decisions.Keys - l.decisions.Keys == {i.request.body.requestId}
            && next.nonces.Keys - l.nonces.Keys == {i.request.body.nonce})
  {
  }

  // ---------------------------------------------------------------- the event log

  function EventOf(l: Ledger, next: Ledger, r: Answer, i: Input): seq<Event> {
    match r
    case Ok(receipt) => [Event(receipt.requestId, receipt.decision, receipt.why, receipt.generation, i.now)]
    case Err(e) =>
      if i.Submit? then [Event(i.request.body.requestId, Rejected, Refused(e), l.generation, i.now)] else []
  }

  /** Every event a run ever logs, before pruning. */
  function Trail(p: ControllerPolicy, l: Ledger, inputs: seq<Input>): seq<Event>
    decreases |inputs|
  {
    if inputs == [] then []
    else
      var (next, r) := Step(p, l, inputs[0]);
      EventOf(l, next, r, inputs[0]) + Trail(p, next, inputs[1..])
  }

  /** The generations at which a trail records an acceptance. */
  function AcceptedGenerations(trail: seq<Event>): seq<nat> {
    if trail == [] then []
    else (if trail[0].state == Accepted then [trail[0].generation] else []) + AcceptedGenerations(trail[1..])
  }

  lemma {:induction false} PruningTwiceIsPruningOnce<T>(s: seq<T>, e: T, n: nat)
    requires n >= 1
    ensures Newest(Newest(s, n) + [e], n) == Newest(s + [e], n)
  {
  }

  lemma {:induction false} StepLogs(p: ControllerPolicy, l: Ledger, full: seq<Event>, i: Input)
    requires l.events == Newest(full, Capacity(p))
    ensures
      var (next, r) := Step(p, l, i);
      next.events == Newest(full + EventOf(l, next, r, i), Capacity(p))
  {
    var (next, r) := Step(p, l, i);
    var logged := EventOf(l, next, r, i);
    if logged == [] {
      assert full + logged == full;
    } else {
      PruningTwiceIsPruningOnce(full, logged[0], Capacity(p));
    }
  }

  lemma {:induction false} TrailSplits(p: ControllerPolicy, l: Ledger, full: seq<Event>, inputs: seq<Input>)
    requires inputs != []
    ensures
      var (next, r) := Step(p, l, inputs[0]);
      full + Trail(p, l, inputs) == (full + EventOf(l, next, r, inputs[0])) + Trail(p, next, inputs[1..])
  {
  }

  lemma {:induction false} RunLogs(p: ControllerPolicy, l: Ledger, full: seq<Event>, inputs: seq<Input>)
    requires l.events == Newest(full, Capacity(p))
    ensures RunLedger(p, l, inputs).events == Newest(full + Trail(p, l, inputs), Capacity(p))
    decreases |inputs|
  {
    if inputs == [] {
      assert full + Trail(p, l, inputs) == full;
    } else {
      var (next, r) := Step(p, l, inputs[0]);
      StepLogs(p, l, full, inputs[0]);
      TrailSplits(p, l, full, inputs);
      RunLogs(p, next, full + EventOf(l, next, r, inputs[0]), inputs[1..]);
    }
  }

  lemma {:induction false} AcceptedGenerationsOfSum(a: seq<Event>, b: seq<Event>)
    ensures AcceptedGenerations(a + b) == AcceptedGenerations(a) + AcceptedGenerations(b)
  {
    if a == [] {
      assert a + b == b;
    } else {
      var first := if a[0].state == Accepted then [a[0].generation] else [];
      assert (a + b)[0] == a[0] && (a + b)[1..] == a[1..] + b;
      AcceptedGenerationsOfSum(a[1..], b);
      assert AcceptedGenerations(a + b) == first + (AcceptedGenerations(a[1..]) + AcceptedGenerations(b));
    }
  }

  /** A step logs one acceptance, of the next generation, exactly when it takes that generation. */
  lemma {:induction false} StepCounts(p: ControllerPolicy, l: Ledger, i: Input)
    ensures
      var (next, r) := Step(p, l, i);
      var seen := AcceptedGenerations(EventOf(l, next, r, i));
      || (next.generation == l.generation && seen == [])
      || (next.generation == l.generation + 1 && seen == [l.generation + 1])
  {
    var (next, r) := Step(p, l, i);
    var logged := EventOf(l, next, r, i);
    assert logged != [] ==> logged[1..] == [];
  }

  predicate CountsUp(seen: seq<nat>, start: nat, end: nat) {
    start <= end && |seen| == end - start && forall k :: 0 <= k < |seen| ==> seen[k] == start + 1 + k
  }

  lemma {:induction false} TrailCountsUp(p: ControllerPolicy, l: Ledger, inputs: seq<Input>)
    ensures CountsUp(AcceptedGenerations(Trail(p, l, inputs)), l.generation, RunLedger(p, l, inputs).generation)
    decreases |inputs|
  {
    if inputs == [] {
    } else {
      var (next, r) := Step(p, l, inputs[0]);
      StepCounts(p, l, inputs[0]);
      TrailCountsUp(p, next, inputs[1..]);
      AcceptedGenerationsOfSum(EventOf(l, next, r, inputs[0]), Trail(p, next, inputs[1..]));
    }
  }

  /**
   The log that is kept is the newest part of the whole trail, and the trail records exactly one
   acceptance per generation, in order.
   */
  lemma {:induction false} EventsAreTheNewestOfTheTrail(p: ControllerPolicy, inputs: seq<Input>)
    ensures
      var l := RunLedger(p, EMPTY, inputs);
      var trail := Trail(p, EMPTY, inputs);
      && l.events == Newest(trail, Capacity(p))
      && AcceptedGenerations(trail) == seq(l.generation, k requires 0 <= k < l.generation => k + 1)
  {
    RunLogs(p, EMPTY, [], inputs);
    assert [] + Trail(p, EMPTY, inputs) == Trail(p, EMPTY, inputs);
    TrailCountsUp(p, EMPTY, inputs);
  }
}
