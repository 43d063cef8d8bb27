/** Plan submissions: a plan is accepted by the controller as one signed request about all its resources. */
module PlanSubmissions {
  import opened Common
  import opened Gates
  import opened Controllers
  import Sorting
  import P = Planner

  const PLAN_SUBMISSION_SCHEMA := "iicp.management-plan-submission.v1"
  const PLAN_ACCEPT_ACTION := OtherAction("accept_plan")

  datatype Submission = Submission(schemaVersion: string, request: Signed<Request>, plan: P.Plan)

  predicate HeaderBinds(s: Submission) {
    var r := s.request.body;
    && s.schemaVersion == PLAN_SUBMISSION_SCHEMA && r.action == PLAN_ACCEPT_ACTION
    && s.plan.schemaVersion == "1" && s.plan.operations != []
    && s.plan.targetGeneration == s.plan.expectedGeneration + 1
    && r.expectedGeneration == s.plan.expectedGeneration
    && r.planDigest == Sha(OfPlan(s.plan))
    && r.payloadDigest == BundlePayload(s.plan.bundleDigest)
  }

  function ResourcesOf(operations: seq<P.Operation>): set<string> {
    set o | o in operations :: o.resourceId
  }

  /** The elements of a set, in ascending order. */
  predicate Enumerates(ids: seq<string>, s: set<string>) {
    (forall id :: id in ids ==> id in s) && (forall id :: id in s ==> id in ids)
    && forall i, j :: 0 <= i < j < |ids| ==> Before(ids[i], ids[j])
  }

  predicate OperationBinds(o: P.Operation, plan: P.Plan) {
    && o.expectedGeneration == plan.expectedGeneration && o.targetGeneration == plan.targetGeneration
    && o.operationId != "" && o.resourceId != ""
  }

  predicate Submittable(s: Submission) {
    var ids := ResourcesOf(s.plan.operations);
    && HeaderBinds(s)
    && |ids| == |s.plan.operations| && Enumerates(s.request.body.resourceIds, ids)
    && forall o :: o in s.plan.operations ==> OperationBinds(o, s.plan)
  }

  function AcceptPlan(p: ControllerPolicy, l: Ledger, s: Submission, now: nat): (Ledger, Answer) {
    if !Submittable(s) then (l, Err(Invalid(PlanBinding))) else AdmitLogged(p, l, s.request, now)
  }

  method ValidatePlanSubmission(s: Submission) returns (valid: bool)
    ensures valid <==> Submittable(s)
  {
    if !HeaderBinds(s) {
      return false;
    }
    var ids: set<string> := {};
    var ops := s.plan.operations;
    for k := 0 to |ops|
      invariant ids == ResourcesOf(ops[..k])
    {
      assert ops[..k + 1] == ops[..k] + [ops[k]];
      ids := ids + {ops[k].resourceId};
    }
    assert ops[..|ops|] == ops;
    if |ids| != |ops| || !Enumerates(s.request.body.resourceIds, ids) {
      return false;
    }
    for k := 0 to |ops|
      invariant forall j :: 0 <= j < k ==> OperationBinds(ops[j], s.plan)
    {
      if !OperationBinds(ops[k], s.plan) {
        return false;
      }
    }
    return true;
  }

  method AcceptPlanSubmission(controller: Controller, s: Submission, now: nat) returns (r: Answer)
    modifies controller
    ensures (controller.View(), r) == AcceptPlan(controller.policy, old(controller.View()), s, now)
    ensures controller.journal == old(controller.journal)
  {
    var valid := ValidatePlanSubmission(s);
    if !valid {
      return Err(Invalid(PlanBinding));
    }
    r := controller.Evaluate(s.request, now);
  }

  // ---------------------------------------------------------------- from the planner to the ledger

  lemma {:induction false} AscendingAreDistinct(ids: seq<string>)
    requires forall i, j :: 0 <= i < j < |ids| ==> Before(ids[i], ids[j])
    ensures |set id | id in ids| == |ids|
  {
    if ids == [] {
    } else {
      var rest := ids[1..];
      AscendingAreDistinct(rest);
      forall id | id in rest ensures id != ids[0] {
        var k :| 0 <= k < |rest| && rest[k] == id;
        BeforeIsStrict(id);
        assert Before(ids[0], ids[k + 1]);
      }
      assert (set id | id in ids) == (set id | id in rest) + {ids[0]};
    }
  }

  /** A request that names the planner's own plan, its bundle and its resources in plan order. */
  predicate RequestFor(s: Submission) {
    && HeaderBinds(s)
    && |s.request.body.resourceIds| == |s.plan.operations|
    && forall i :: 0 <= i < |s.plan.operations| ==> s.request.body.resourceIds[i] == s.plan.operations[i].resourceId
  }

  lemma {:induction false} ResourcesInOrder(ids: seq<string>, ops: seq<P.Operation>)
    requires |ids| == |ops| && forall i :: 0 <= i < |ops| ==> ids[i] == ops[i].resourceId
    ensures (set id | id in ids) == ResourcesOf(ops)
  {
    forall id ensures id in ids <==> id in ResourcesOf(ops) {
      if id in ids {
        var k :| 0 <= k < |ids| && ids[k] == id;
        assert ops[k] in ops && ops[k].resourceId == id;
      }
      if id in ResourcesOf(ops) {
        var o :| o in ops && o.resourceId == id;
        var k :| 0 <= k < |ops| && ops[k] == o;
        assert ids[k] == id;
      }
    }
  }

  lemma {:induction false} SortedAreNamed(resources: seq<P.Resource>)
    requires P.ResourceFault(resources, {}).None?
    ensures forall r :: r in Sorting.SortBy(P.ByResource, resources) ==> r.resourceId != ""
  {
    P.ResourcesPassIff(resources, {});
    P.SameElements(resources, Sorting.SortBy(P.ByResource, resources));
  }

  lemma {:induction false} PlannedOperationsBind(b: P.Bundle, accepted: P.Accepted, supported: set<string>,
        control: P.Control, plan: P.Plan)
    requires P.PlanFor(b, accepted, supported, control) == Common.Ok(plan)
    ensures forall o :: o in plan.operations ==> OperationBinds(o, plan)
  {
    var sorted := Sorting.SortBy(P.ByResource, b.resources);
    SortedAreNamed(b.resources);
    forall i | 0 <= i < |plan.operations| ensures OperationBinds(plan.operations[i], plan) {
      assert sorted[i] in sorted;
    }
  }

  /** Whatever bundle it is made from, a plan fresh from the planner passes the controller's own check. */
  lemma {:induction false} PlannedIsSubmittable(b: P.Bundle, accepted: P.Accepted, supported: set<string>,
        control: P.Control, s: Submission)
    requires P.PlanFor(b, accepted, supported, control) == Common.Ok(s.plan) && RequestFor(s)
    ensures Submittable(s)
  {
    P.PlanCoversResources(b, accepted, supported, control);
    AscendingAreDistinct(s.request.body.resourceIds);
    ResourcesInOrder(s.request.body.resourceIds, s.plan.operations);
    PlannedOperationsBind(b, accepted, supported, control, s.plan);
  }

  /** Accepting a plan takes the controller from the generation it was planned at to the one it aims at. */
  lemma {:induction false} AcceptanceReachesTarget(p: ControllerPolicy, l: Ledger, s: Submission, now: nat)
    requires AcceptPlan(p, l, s, now).1.Ok?
    ensures l.generation == s.plan.expectedGeneration
    ensures AcceptPlan(p, l, s, now).0.generation == s.plan.targetGeneration
  {
  }

  lemma {:induction false} GenerationNeverFalls(p: ControllerPolicy, l: Ledger, inputs: seq<Input>)
    ensures RunLedger(p, l, inputs).generation >= l.generation
    decreases |inputs|
  {
    if inputs == [] {
    } else {
      OnlyAcceptanceMovesTheLedger(p, l, inputs[0]);
      GenerationNeverFalls(p, Step(p, l, inputs[0]).0, inputs[1..]);
    }
  }

  /** Once a plan has been accepted, no plan made at the same generation ever is, under any request. */
  lemma {:induction false} RivalPlansAreRefused(p: ControllerPolicy, l: Ledger, s: Submission, now: nat,
        between: seq<Input>, rival: Submission, later: nat)
    requires AcceptPlan(p, l, s, now).1.Ok? && rival.plan.expectedGeneration == s.plan.expectedGeneration
    ensures AcceptPlan(p, RunLedger(p, AcceptPlan(p, l, s, now).0, between), rival, later).1.Err?
  {
    var after := RunLedger(p, AcceptPlan(p, l, s, now).0, between);
    AcceptanceReachesTarget(p, l, s, now);
    GenerationNeverFalls(p, AcceptPlan(p, l, s, now).0, between);
    if AcceptPlan(p, after, rival, later).1.Ok? {
      AcceptanceReachesTarget(p, after, rival, later);
    }
  }

  // ---------------------------------------------------------------- from the bundle to the gate

  lemma {:induction false} FoundIsPlanned(operations: seq<P.Operation>, id: string)
    ensures FindPlanned(operations, id).Some? ==> FindPlanned(operations, id).value in operations
  {
    if operations != [] && operations[0].operationId != id {
      FoundIsPlanned(operations[1..], id);
    }
  }

  lemma {:induction false} PlannedAt(b: P.Bundle, accepted: P.Accepted, supported: set<string>, control: P.Control,
        plan: P.Plan, i: nat)
    requires P.PlanFor(b, accepted, supported, control) == Common.Ok(plan) && i < |plan.operations|
    ensures
      var sorted := Sorting.SortBy(P.ByResource, b.resources);
      && i < |sorted| && plan.operations[i].resourceId == sorted[i].resourceId
      && plan.operations[i].afterDigest == Sha(sorted[i].desired)
      && plan.operations[i].targetGeneration == accepted.generation + 1
  {
  }

  /**
   From the bundle to the target: a gate accepted for a plan the planner made writes exactly the
   desired state that the bundle gives for that target, one generation after the plan's.
   */
  lemma {:induction false} GateWritesTheBundle(
    g: ApplyGate, now: nat, b: P.Bundle, accepted: P.Accepted, supported: set<string>, control: P.Control)
    returns (r: P.Resource)
    requires ApplyGateFault(g, now).None? && P.PlanFor(b, accepted, supported, control) == Common.Ok(g.plan)
    ensures r in b.resources && r.resourceId == g.operation.targetId && r.desired == g.operation.desired
    ensures g.operation.expectedGeneration == accepted.generation + 1
  {
    var sorted := Sorting.SortBy(P.ByResource, b.resources);
    FoundIsPlanned(g.plan.operations, g.operation.operationId);
    var planned := FindPlanned(g.plan.operations, g.operation.operationId).value;
    var i :| 0 <= i < |g.plan.operations| && g.plan.operations[i] == planned;
    PlannedAt(b, accepted, supported, control, g.plan, i);
    r := sorted[i];
    P.SameElements(b.resources, sorted);
    assert r in sorted;
  }

}
