/** Rollout manifests: which staged plans of apply gates a run may be created from. */
module RolloutManifest {
  import opened Common
  import opened Gates

  const ROLLOUT_SCHEMA := "iicp.management-rollout.v1"
  const MAX_TARGETS := 10000

  datatype FailurePolicy = StopAndHold | ContinueIndependent

  datatype Target = Target(targetId: string, executorRef: string, batch: nat, required: bool, gate: ApplyGate)

  datatype Manifest = Manifest(
    schemaVersion: string,
    runId: string,
    domain: string,
    audience: string,
    failurePolicy: FailurePolicy,
    createdAt: nat,
    expiresAt: nat,
    targets: seq<Target>,
    authorizesTargetExecution: bool)

  datatype ManifestError =
    | ManifestInvalid | TargetBindingInvalid | TargetGateInvalid | CanaryInvalid | BatchSequenceInvalid

  predicate HeaderOk(m: Manifest, now: nat) {
    && m.schemaVersion == ROLLOUT_SCHEMA && !m.authorizesTargetExecution
    && !Blank(m.runId) && !Blank(m.domain) && !Blank(m.audience)
    && m.createdAt <= now <= m.expiresAt && m.createdAt < m.expiresAt
    && 0 < |m.targets| <= MAX_TARGETS
  }

  predicate TargetBinds(m: Manifest, t: Target) {
    && !Blank(t.targetId) && !Blank(t.executorRef)
    && t.targetId == t.gate.operation.targetId
    && t.gate.authorization.body.domain == t.gate.request.body.domain == m.domain
    && t.gate.authorization.body.audience == t.gate.request.body.audience == m.audience
    && t.gate.request.body.expiresAt <= m.expiresAt
  }

  /** The first thing wrong with a list of targets, given the target and operation ids already seen. */
  function TargetsFault(m: Manifest, ts: seq<Target>, ids: set<string>, operations: set<string>,
        now: nat): Option<ManifestError>
    decreases |ts|
  {
    if ts == [] then None
    else if ts[0].targetId in ids || ts[0].gate.operation.operationId in operations || !TargetBinds(m, ts[0])
    then Some(TargetBindingInvalid)
    else if ApplyGateFault(ts[0].gate, now).Some? then Some(TargetGateInvalid)
    else TargetsFault(m, ts[1..], ids + {ts[0].targetId}, operations + {ts[0].gate.operation.operationId}, now)
  }

  function BatchesOf(ts: seq<Target>): set<nat> {
    set t | t in ts :: t.batch
  }

  /** The targets of one batch, in manifest order. */
  function InBatch(ts: seq<Target>, batch: nat): seq<Target> {
    if ts == [] then [] else (if ts[0].batch == batch then [ts[0]] else []) + InBatch(ts[1..], batch)
  }

  predicate CanaryOk(ts: seq<Target>) {
    |InBatch(ts, 0)| == 1 && InBatch(ts, 0)[0].required
  }

  predicate CountsFromZero(batches: set<nat>) {
    forall b :: 0 <= b < |batches| ==> b in batches
  }

  function ManifestFault(m: Manifest, now: nat): Option<ManifestError> {
    if !HeaderOk(m, now) then Some(ManifestInvalid)
    else if TargetsFault(m, m.targets, {}, {}, now).Some? then TargetsFault(m, m.targets, {}, {}, now)
    else if !CanaryOk(m.targets) then Some(CanaryInvalid)
    else if !CountsFromZero(BatchesOf(m.targets)) then Some(BatchSequenceInvalid)
    else None
  }

  lemma {:induction false} InBatchSplits(ts: seq<Target>, k: nat, batch: nat)
    requires k < |ts|
    ensures InBatch(ts[..k + 1], batch) == InBatch(ts[..k], batch) + if ts[k].batch == batch then [ts[k]] else []
  {
    if k == 0 {
      assert ts[..1] == [ts[0]] && ts[..0] == [];
      assert [ts[0]][1..] == [];
    } else {
      assert ts[..k + 1][0] == ts[0] && ts[..k + 1][1..] == ts[1..][..k];
      assert ts[..k][0] == ts[0] && ts[..k][1..] == ts[1..][..k - 1];
      InBatchSplits(ts[1..], k - 1, batch);
    }
  }

  method ValidateTargets(m: Manifest, now: nat) returns (fault: Option<ManifestError>)
    ensures fault == TargetsFault(m, m.targets, {}, {}, now)
  {
    var ids: set<string>, operations: set<string> := {}, {};
    for k := 0 to |m.targets|
      invariant TargetsFault(m, m.targets, {}, {}, now) == TargetsFault(m, m.targets[k..], ids, operations, now)
    {
      var t := m.targets[k];
      assert m.targets[k..][0] == t && m.targets[k..][1..] == m.targets[k + 1..];
      if t.targetId in ids || t.gate.operation.operationId in operations || !TargetBinds(m, t) {
        return Some(TargetBindingInvalid);
      }
      if ApplyGateFault(t.gate, now).Some? {
        return Some(TargetGateInvalid);
      }
      ids, operations := ids + {t.targetId}, operations + {t.gate.operation.operationId};
    }
    return None;
  }

  /** The batches that occur, and whether batch 0 is one required target. */
  method SurveyBatches(ts: seq<Target>) returns (batches: set<nat>, canaryOk: bool)
    ensures batches == BatchesOf(ts)
    ensures canaryOk <==> CanaryOk(ts)
  {
    batches := {};
    var canaries, required := 0, true;
    for k := 0 to |ts|
      invariant batches == BatchesOf(ts[..k])
      invariant canaries == |InBatch(ts[..k], 0)|
      invariant required <==> forall t :: t in InBatch(ts[..k], 0) ==> t.required
    {
      assert ts[..k + 1] == ts[..k] + [ts[k]];
      InBatchSplits(ts, k, 0);
      batches := batches + {ts[k].batch};
      if ts[k].batch == 0 {
        canaries, required := canaries + 1, required && ts[k].required;
      }
    }
    assert ts[..|ts|] == ts;
    canaryOk := canaries == 1 && required;
  }

  method ValidateManifest(m: Manifest, now: nat) returns (r: Result<Digest<Manifest>, ManifestError>)
    ensures
      match ManifestFault(m, now)
      case Some(e) => r == Err(e)
      case None => r == Ok(Sha(m))
  {
    if !HeaderOk(m, now) {
      return Err(ManifestInvalid);
    }
    var fault := ValidateTargets(m, now);
    if fault.Some? {
      return Err(fault.value);
    }
    var batches, canaryOk := SurveyBatches(m.targets);
    if !canaryOk {
      return Err(CanaryInvalid);
    }
    for expected := 0 to |batches|
      invariant forall b :: 0 <= b < expected ==> b in batches
    {
      if expected !in batches {
        return Err(BatchSequenceInvalid);
      }
    }
    return Ok(Sha(m));
  }

  // ---------------------------------------------------------------- what a valid manifest is

  predicate DistinctTargets(ts: seq<Target>) {
    forall i, j :: 0 <= i < j < |ts| ==>
      ts[i].targetId != ts[j].targetId && ts[i].gate.operation.operationId != ts[j].gate.operation.operationId
  }

  ghost predicate HasBatch(m: Manifest, batch: nat) {
    exists t :: t in m.targets && t.batch == batch
  }

  function LastOf(ts: seq<Target>): (last: nat)
    ensures forall t :: t in ts ==> t.batch <= last
  {
    if ts == [] then 0
    else
      var rest := LastOf(ts[1..]);
      assert forall t :: t in ts ==> t == ts[0] || t in ts[1..];
      if ts[0].batch > rest then ts[0].batch else rest
  }

  /** One required canary alone in batch 0, batches without holes up to the last, and no target or operation twice. */
  ghost predicate WellStaged(m: Manifest) {
    && m.targets != []
    && DistinctTargets(m.targets)
    && (forall b :: 0 <= b <= LastOf(m.targets) ==> HasBatch(m, b))
    && (forall t :: t in m.targets && t.batch == 0 ==> t.required)
    && (forall i, j :: 0 <= i < j < |m.targets| ==> m.targets[i].batch != 0 || m.targets[j].batch != 0)
  }

  lemma {:induction false} DistinctWithOneMore(t: Target, rest: seq<Target>)
    requires DistinctTargets(rest)
    requires forall x :: x in rest ==>
             x.targetId != t.targetId && x.gate.operation.operationId != t.gate.operation.operationId
    ensures DistinctTargets([t] + rest)
  {
    var ts := [t] + rest;
    forall i, j | 0 <= i < j < |ts|
      ensures ts[i].targetId != ts[j].targetId && ts[i].gate.operation.operationId != ts[j].gate.operation.operationId
    {
      assert ts[j] == rest[j - 1] && ts[j] in rest;
      assert i > 0 ==> ts[i] == rest[i - 1];
    }
  }

  lemma {:induction false} NoTargetTwice(m: Manifest, ts: seq<Target>, ids: set<string>, operations: set<string>,
        now: nat)
    requires TargetsFault(m, ts, ids, operations, now).None?
    ensures DistinctTargets(ts)
    ensures forall t :: t in ts ==>
            t.targetId !in ids && t.gate.operation.operationId !in operations && TargetBinds(m, t)
    decreases |ts|
  {
    if ts == [] {
    } else {
      NoTargetTwice(m, ts[1..], ids + {ts[0].targetId}, operations + {ts[0].gate.operation.operationId}, now);
      DistinctWithOneMore(ts[0], ts[1..]);
      assert ts == [ts[0]] + ts[1..];
    }
  }

  lemma {:induction false} CanaryIsThere(ts: seq<Target>, i: nat)
    requires i < |ts| && ts[i].batch == 0
    ensures ts[i] in InBatch(ts, 0)
    decreases |ts|
  {
    if i == 0 {
    } else {
      CanaryIsThere(ts[1..], i - 1);
    }
  }

  lemma {:induction false} CanaryIsAlone(ts: seq<Target>, i: nat, j: nat)
    requires i < j < |ts| && ts[i].batch == 0 && ts[j].batch == 0
    ensures |InBatch(ts, 0)| >= 2
    decreases |ts|
  {
    if i == 0 {
      CanaryIsThere(ts[1..], j - 1);
    } else {
      CanaryIsAlone(ts[1..], i - 1, j - 1);
    }
  }

  function Upto(n: nat): (s: set<nat>)
    ensures forall b :: b in s <==> 0 <= b < n
    ensures |s| == n
  {
    if n == 0 then {} else Upto(n - 1) + {n - 1}
  }

  lemma {:induction false} LastIsReached(ts: seq<Target>)
    requires ts != []
    ensures LastOf(ts) in BatchesOf(ts)
  {
    if |ts| > 1 {
      LastIsReached(ts[1..]);
      var t :| t in ts[1..] && t.batch == LastOf(ts[1..]);
      assert t in ts && ts[0] in ts;
    } else {
      assert ts[0] in ts;
    }
  }

  lemma {:induction false} BatchesHaveNoHoles(m: Manifest)
    requires m.targets != [] && CountsFromZero(BatchesOf(m.targets))
    ensures forall b :: 0 <= b <= LastOf(m.targets) ==> HasBatch(m, b)
  {
    var batches := BatchesOf(m.targets);
    SubsetIsNoLarger(Upto(|batches|), batches);
    LastIsReached(m.targets);
    forall b | 0 <= b <= LastOf(m.targets) ensures HasBatch(m, b) {
      assert b in batches;
    }
  }

  lemma {:induction false} CanaryIsTheOnlyOne(ts: seq<Target>)
    requires CanaryOk(ts)
    ensures forall t :: t in ts && t.batch == 0 ==> t.required
    ensures forall i, j :: 0 <= i < j < |ts| ==> ts[i].batch != 0 || ts[j].batch != 0
  {
    forall i, j | 0 <= i < j < |ts| ensures ts[i].batch != 0 || ts[j].batch != 0 {
      if ts[i].batch == 0 && ts[j].batch == 0 {
        CanaryIsAlone(ts, i, j);
      }
    }
    forall t | t in ts && t.batch == 0 ensures t.required {
      var i :| 0 <= i < |ts| && ts[i] == t;
      CanaryIsThere(ts, i);
    }
  }

  /** A manifest that is accepted is well staged. */
  lemma {:induction false} AcceptedManifestIsWellStaged(m: Manifest, now: nat)
    requires ManifestFault(m, now).None?
    ensures WellStaged(m)
  {
    NoTargetTwice(m, m.targets, {}, {}, now);
    BatchesHaveNoHoles(m);
    CanaryIsTheOnlyOne(m.targets);
  }
}
