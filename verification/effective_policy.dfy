/** The effective decision for a binding: every source policy evaluated on the same facts, then combined. */
module EffectivePolicies {
  import opened Common
  import opened Json
  import opened Policy
  import opened Evaluator
  import opened PolicyEvaluation
  import opened Evidence
  import opened PolicyEvidence
  import opened PolicyRepository
  import opened RoutingEnforcement

  const DEFAULT_LIMITS := Limits(
    MAX_POLICY_RULES, MAX_AST_NODES_PER_RULE, MAX_POLICY_DEPTH, MAX_COLLECTION_VALUES, MAX_REFERENCE_DEPTH,
      MAX_POLICY_FUEL)

  datatype SourceDecision = SourceDecision(policyId: string, revisionId: string, rank: nat, mandatory: bool,
                                           verdict: Verdict)

  datatype EffectiveView = EffectiveView(
    applicationId: string,
    bindingId: string,
    bindingDigest: Digest<Binding>,
    factDigest: Digest<Value>,
    decision: Decision,
    sources: seq<SourceDecision>)

  datatype EffectiveError = BindingUnknown | SourceMissing

  function Decide(s: Source, facts: Value): SourceDecision {
    SourceDecision(s.revision.policyId, s.revision.revisionId, s.ref.rank, s.ref.mandatory,
                   EvaluatePolicy(facts, s.revision.policy, DEFAULT_LIMITS))
  }

  function DecideAll(sources: seq<Source>, facts: Value): seq<SourceDecision> {
    seq(|sources|, i requires 0 <= i < |sources| => Decide(sources[i], facts))
  }

  /** Any deny denies; a mandatory open source holds the rest open; only unanimity allows. */
  function Overall(ds: seq<SourceDecision>): Decision {
    if exists d :: d in ds && d.verdict.decision == Deny then Deny
    else if exists d :: d in ds && d.mandatory && d.verdict.decision == Indeterminate then Indeterminate
    else if ds != [] && forall d :: d in ds ==> d.verdict.decision == Allow then Allow
    else Indeterminate
  }

  function Effective(repo: Repo, bindingId: string, facts: Value): Result<EffectiveView, EffectiveError> {
    if bindingId !in repo.bindings then Err(BindingUnknown)
    else
      var b := repo.bindings[bindingId];
      match SourcesFor(repo, b)
      case None => Err(SourceMissing)
      case Some(sources) =>
        var ds := DecideAll(sources, facts);
        Ok(EffectiveView(b.applicationId, b.bindingId, Sha(b), Sha(facts), Overall(ds), ds))
  }

  method DecideSources(sources: seq<Source>, facts: Value) returns (ds: seq<SourceDecision>)
    ensures ds == DecideAll(sources, facts)
  {
    ds := [];
    for k := 0 to |sources|
      invariant |ds| == k
      invariant forall i :: 0 <= i < k ==> ds[i] == Decide(sources[i], facts)
    {
      ds := ds + [Decide(sources[k], facts)];
    }
  }

  method EffectivePolicy(repository: Repository, bindingId: string, facts: Value)
    returns (r: Result<EffectiveView, EffectiveError>)
    ensures r == Effective(repository.View(), bindingId, facts)
  {
    if bindingId !in repository.bindings {
      return Err(BindingUnknown);
    }
    var b := repository.bindings[bindingId];
    var found := SourcesFor(repository.View(), b);
    if found.None? {
      return Err(SourceMissing);
    }
    var ds := DecideSources(found.value, facts);
    return Ok(EffectiveView(b.applicationId, b.bindingId, Sha(b), Sha(facts), Overall(ds), ds));
  }

  /** What is stored or activated later does not change the effective policy of a stored binding. */
  lemma {:induction false} EffectiveOutlastsGrowth(repo: Repo, requests: seq<Request>, bindingId: string, facts: Value)
    requires Sound(repo) && Effective(repo, bindingId, facts).Ok?
    ensures Effective(Run(repo, requests), bindingId, facts) == Effective(repo, bindingId, facts)
  {
    RunStaysSound(repo, requests);
    SourcesForStable(repo, Run(repo, requests), repo.bindings[bindingId]);
  }

  /** A source that is open, or whose verdict on the facts at hand no missing fact can change. */
  ghost predicate SettledSource(s: Source, now: Value) {
    var prepared := Prepare(s.revision.policy, DEFAULT_LIMITS);
    && prepared.Ok? && ProbeFree(prepared.value)
    && (IdealVerdict(now, prepared.value).decision != Indeterminate ==>
        Firm(now, prepared.value) && !Unsettled(now, prepared.value))
  }

  lemma {:induction false} SourceIsStable(s: Source, now: Value, later: Value)
    requires SettledSource(s, now) && Supplies(now, later)
    requires CollectionsFit(now, MAX_COLLECTION_VALUES) && CollectionsFit(later, MAX_COLLECTION_VALUES)
    ensures Decide(s, now).verdict.decision != Indeterminate ==> Decide(s, later) == Decide(s, now)
  {
    var p := Prepare(s.revision.policy, DEFAULT_LIMITS).value;
    LimitsAreAdequate(now, s.revision.policy, DEFAULT_LIMITS);
    LimitsAreAdequate(later, s.revision.policy, DEFAULT_LIMITS);
    if IdealVerdict(now, p).decision != Indeterminate {
      SettledStands(now, later, p);
    }
  }

  lemma {:induction false} OverallIsStable(sources: seq<Source>, now: Value, later: Value)
    requires forall i :: 0 <= i < |sources| ==>
               Decide(sources[i], now).verdict.decision != Indeterminate ==>
                 Decide(sources[i], later) == Decide(sources[i], now)
    ensures Overall(DecideAll(sources, now)) != Indeterminate ==>
              Overall(DecideAll(sources, later)) == Overall(DecideAll(sources, now))
  {
    var before, after := DecideAll(sources, now), DecideAll(sources, later);
    match Overall(before) {
      case Deny =>
        var d :| d in before && d.verdict.decision == Deny;
        var i :| 0 <= i < |before| && before[i] == d;
        assert after[i] == d && d in after;
      case Allow =>
        forall d | d in after ensures d.verdict.decision == Allow {
          var i :| 0 <= i < |after| && after[i] == d;
          assert before[i] in before;
        }
      case Indeterminate =>
    }
  }

  /**
   An effective allow or deny drawn from settled sources, equality policies among them, is final:
   neither facts that were missing nor anything stored or activated later overturns it.
   */
  lemma {:induction false} EffectiveDecisionIsStable(repo: Repo, requests: seq<Request>, bindingId: string, now: Value,
        later: Value)
    requires Sound(repo) && Effective(repo, bindingId, now).Ok? && Supplies(now, later)
    requires CollectionsFit(now, MAX_COLLECTION_VALUES) && CollectionsFit(later, MAX_COLLECTION_VALUES)
    requires forall s :: s in SourcesFor(repo, repo.bindings[bindingId]).value ==> SettledSource(s, now)
    ensures
      var decision := Effective(repo, bindingId, now).value.decision;
      var after := Effective(Run(repo, requests), bindingId, later);
      after.Ok? && (decision != Indeterminate ==> after.value.decision == decision)
  {
    var sources := SourcesFor(repo, repo.bindings[bindingId]).value;
    forall i | 0 <= i < |sources|
      ensures Decide(sources[i], now).verdict.decision != Indeterminate ==>
              Decide(sources[i], later) == Decide(sources[i], now)
    {
      assert sources[i] in sources;
      SourceIsStable(sources[i], now, later);
    }
    OverallIsStable(sources, now, later);
    EffectiveOutlastsGrowth(repo, requests, bindingId, later);
  }
}
