# A verified model of the management control plane

The repository is a domain-local control plane: a controller that admits signed requests, an apply
protocol that survives crashes, a coordinator for staged rollouts, an evaluator for typed policies,
and a compiler from active policies to routing constraints. This project states the behaviour of
those parts in Dafny and proves what they promise, for every input and over every run.

`dafny verify dfyconfig.toml` checks all of it.

## How the model is built

Each component has a specification on values (functions and datatypes), and, where the original
changes state step by step, a class or a loop whose `ensures` says that it computes exactly that
specification. The properties are lemmas about the specification, so they hold of the classes too.
What a specification decides and does is stated once more apart from it, in the files ending in
`_laws`: from the fields of the documents and of the state alone, mostly as exact conditions.

| file | component |
|---|---|
| `common.dfy`, `json.dfy`, `sorting.dfy` | shared types, JSON values, canonical sorting |
| `policy.dfy`, `references.dfy`, `evaluator.dfy`, `policy_evaluation.dfy`, `policy_laws.dfy` | shape limits, reference resolution, metered evaluation, the whole policy verdict, what comparisons and verdicts mean |
| `evidence.dfy`, `policy_evidence.dfy` | which answers and verdicts outlast the facts that are still missing |
| `routing_policy.dfy`, `routing_projection.dfy`, `projection_soundness.dfy` | routing policies and their meet, the projection accumulator, its agreement with the evaluator |
| `policy_repository.dfy`, `routing_enforcement.dfy`, `effective_policy.dfy`, `repository_laws.dfy`, `routing_laws.dfy`, `effective_laws.dfy` | the immutable store with activations, projections produced from it and verified against it, the combined decision for a binding, when each is made and what it says |
| `planner.dfy`, `planner_laws.dfy`, `plan_submission.dfy` | bundles, plans, receipts, what they say, and a plan's acceptance by the controller |
| `gates.dfy`, `gate_laws.dfy`, `controller.dfy`, `ledger_laws.dfy`, `controller_crashes.dfy` | the documents of one authorized operation, when they authorize it, the controller's ledger and journal table, what it accepts and writes, its runs cut off between writes |
| `adapters.dfy`, `host_laws.dfy`, `file_adapter.dfy`, `file_laws.dfy` | the adapter host and the synthetic adapter, the file-backed adapter with its faults, what takes effect in each |
| `execution.dfy`, `execution_runs.dfy`, `hosted_runs.dfy`, `execution_laws.dfy`, `hosted_laws.dfy`, `recovery.dfy`, `recovery_laws.dfy` | one attempt at an authorized execution, all runs of attempts with crashes, the same with real hosts, what attempts answer in both, reversal and what it answers |
| `rollout_manifest.dfy`, `rollout.dfy`, `rollout_runs.dfy`, `rollout_store.dfy`, `rollout_driver.dfy`, `rollout_crashes.dfy`, `rollout_laws.dfy`, `driver_laws.dfy` | manifests, the run state machine, what runs keep, the store, the commands that drive it, what a cut between two writes spoils, what each operation does |
| `reconciliation.dfy`, `reconciliation_laws.dfy` | drift assessments and reconciliation proposals, when each is made and may act |
| `witnesses.dfy` | inputs on which a property one might expect fails |

Modelling choices that matter when reading the contracts:

- A digest is `Sha(document)`, injective by construction; a digest received from outside may also be
  any other text. A signature names its key and the body it was made over.
- A JSON object is a pair of parallel lists, keys and values. Numbers are integers.
- The controller's tables are maps and sequences. A transaction is all or nothing.
- A crash is a number: how many writes (and host calls) an operation makes before the process ends.
  What the source commits by itself is a write of its own. An operation on a rollout target is two,
  first the target's row and then the run; a report to the controller is three. Creating a run,
  assessing drift and accepting a request are single transactions. Runs contain any mix of
  operations, each cut off after any of its writes.
- In `execution_runs.dfy` the target answers anything at all, so its results hold for every adapter.
  `hosted_runs.dfy` puts the host and its synthetic adapters in, with recoveries and with restarts
  that lose the host's memory, and shows each hosted run to be one of those runs.
- What an unrecognized identity level asks of a node is up to the external client. A candidate
  carries the unrecognized levels the client would find it to meet, and results hold for any of them.
- Each fault a call of the file-backed adapter can meet is an input of that call, another writer
  changing the file included.

Where the code and its documentation differ, the code is followed. Statements that look right but
are false of the code appear as exact conditions, each with an input that fails:

| condition | failing input |
|---|---|
| decided answers and verdicts survive later facts: `DecidedAnswerStandsIff`, `VerdictStandsIff` | `ComparisonIsNotStable` |
| the intersection admits what both sides admit: `IntersectionIsExactIff`, `DispatchIsConjunctionIff` | `UnrecognizedLevelWidens` |
| no reference is left in a resolved policy: `ResolvedIsRefFreeIff` | `BareStringRuleLeavesReference` |
| an explicit deny decides: `ExplicitDenyWinsIff` | `MatchingDenyIsIgnored` |
| a run state means what it says: `StepStaysSoundIff` | `AcceptanceIsOfAnotherOutcome` |
| a version pins its outcome: `VersionPinsOutcomeIff`, `AcceptanceIsSafeIff` | `AcceptanceIsOfAnotherOutcome` |
| a live run has something to run: `LiveRunIsRunnableIff`, `StuckForEverIff` | `RolloutIsStuck` |
| a report is in the log: `LogIsCompleteIff` | `ReportIsNotLogged` |
| a pause outlasts a receipt: `PauseOutlastsReceiptIff` | `PauseIsLifted` |
| a resumed run has something to run: `ResumeIsIdleIff` | `ResumeIsIdle` |
| marking keeps batch order: `MarkingStaysInOrderIff` | `SecondIsMarkedFirst` |
| a rollback that errs changes nothing: `FailedRollbackMovesGenerationIff` | `FailedRollbackMovesGeneration` |
| a retried apply can be undone: `RetryAfterUnknownSpoilsRollback` | `RollbackKeepsTheNewConfig` |

## Model

| member | source | states |
|---|---|---|
| Policy.ValidateValueShape | src/lib.rs:502-538 | The running node count and depth decide exactly whether a value is within the shape limits, and count its nodes |
| Policy.ValidateContextCollections | src/lib.rs:540-564 | The walk over the context reports a limit exactly when some collection in it is too large |
| References.ResolveValue | src/lib.rs:566-605 | The resolver with its mutable stack computes the specified result and leaves the stack as it found it, on success and on failure |
| References.ResolutionIsInlining | src/lib.rs:566-605 | Resolution from an empty stack succeeds exactly when plain inlining with the depth budget does, with the same result |
| References.AcceptedExactlyWhenChainsBounded | src/lib.rs:566-605 | A policy is accepted exactly when every chain of references from its entry is defined and no longer than the limit |
| References.RefusalHasItsChain | src/lib.rs:580-590 | A refused policy has a chain from its entry that ends in what the refusal reports: Invalid for a name already open or not defined, Limit for one too deep |
| References.AcceptedMeansAcyclic | src/lib.rs:580-590 | No name repeats on any chain of an accepted policy |
| References.ResolvedSizeBound | src/lib.rs:566-605 | The resolved policy has at most size(entry) times (largest rule) to the power of the reference depth nodes |
| References.ResolvedIsRefFreeIff | src/lib.rs:572-604 | A resolved policy is free of references exactly when no reference stands over a reference that resolves to a bare string |
| References.ResolvedIsRefFree | src/lib.rs:572-604 | It is free of references whenever no rule body is a bare string |
| References.BareStringRuleLeavesReference | src/lib.rs:572-604 | Without that condition a reference can remain |
| Evaluator.Evaluate | src/lib.rs:837-858 | The evaluator with its mutable fuel computes the specified verdict and uses the specified fuel |
| Evaluator.EvaluateAny | src/lib.rs:689-710 | `any` returns Stale, Invalid and Limit at once and otherwise keeps the best verdict |
| Evaluator.EvaluateAll | src/lib.rs:671-687 | `all` visits its items in order, charging each to the same fuel |
| Evaluator.MeteredIsMeaning | src/lib.rs:671-858 | With fuel for its nodes and depth for its shape, a probe-free expression evaluates to its limit-free meaning and consumes at most its node count |
| Evidence.DecidedAnswerStandsIff | src/lib.rs:671-858 | For every expression, a True or False survives every supply of facts that were absent or null exactly when it is not exposed: no failing comparison, and none but `eq` over a missing fact, stands before the item that decides the `any` around it |
| Evidence.DecidedMeaningIsStable | src/lib.rs:671-732 | For `all`/`any`/`eq` expressions a True or False therefore always survives, and an open answer never becomes a failure |
| PolicyEvaluation.PreparePolicy | src/lib.rs:607-645 | The prepared policy, or the limit or error, is the specified one |
| PolicyEvaluation.LimitsAreAdequate | src/lib.rs:607-665 | For a prepared policy under profile-compliant limits the verdict is that of an evaluator without limits, and never reports one |
| PolicyLaws.LimitsAreBounded | src/lib.rs:71-86 | The bounds within which a profile may set its limits |
| PolicyLaws.WithinExactlyWhen | src/lib.rs:502-538 | A value is within the shape limits exactly when nothing in it stands too deep and no array in it is too long |
| PolicyLaws.CollectionsFitExactlyWhen | src/lib.rs:540-564 | The facts fit exactly when no array anywhere in them is too long |
| PolicyEvidence.VerdictStandsIff | src/lib.rs:891-940 | An allow or deny, from queries, an authority requirement or an adapter, survives every supply of missing facts exactly when no deciding query is exposed and no missing authority flag denied it; counterexamples stay within the same context limits |
| PolicyEvidence.DecisionIsStable | src/lib.rs:891-940 | Supplying missing facts never overturns an allow or a deny of an equality policy |
| PolicyEvidence.ComparisonIsNotStable | src/lib.rs:689-741 | A failing input: with a comparison under `any`, a later fact turns True into Invalid |
| PolicyEvaluation.ExplicitDenyWinsIff | src/lib.rs:901-929 | A matching deny decides exactly when the policy does not require an adapter |
| PolicyLaws.PreparedExactlyWhen | src/lib.rs:607-645 | A policy without rules is prepared to itself; one with rules to its entry resolved under them; and exactly which of the two kinds of refusal any other gets |
| PolicyLaws.NamedRuleDecides | src/lib.rs:566-645 | A name stands for its own rule: an entry that refers to a reference-free rule is decided as that rule alone would be |
| PolicyLaws.LteMeans | src/lib.rs:734-741 | `lte` is True exactly for a number up to the bound; a larger one is Stale where the name mentions evidence_age and False elsewhere; anything but two numbers is Invalid |
| PolicyLaws.LteIsMonotone | src/lib.rs:734-741 | A smaller fact and a larger bound keep an `lte` True |
| PolicyLaws.ContainsMeans | src/lib.rs:754-762 | `contains` is True exactly for an array that lists the value, Limit beyond 1024 items, Invalid for no array |
| PolicyLaws.ContainsIsMonotone | src/lib.rs:754-762 | An array that grows, within the limit, keeps a `contains` True |
| PolicyLaws.InMeans | src/lib.rs:743-752 | `in` is True exactly for a value, neither array nor object, that the bound lists |
| PolicyLaws.EqMeans | src/lib.rs:712-732 | `eq` is True exactly for the bound itself and False for any other stated value |
| PolicyLaws.MissingFactIsUnknown | src/lib.rs:712-724 | A comparison is open exactly when its fact is absent or null |
| PolicyLaws.AllMeans | src/lib.rs:671-687 | `all` is True exactly when every item is, False exactly when all decide and one is False; otherwise it answers as the first item that does not decide |
| PolicyLaws.AnyMeans | src/lib.rs:689-710 | `any` is False exactly when every item is, Unknown exactly when all are False or Unknown and one is Unknown; otherwise it answers as the first other item |
| PolicyLaws.FirstFieldDecides | src/lib.rs:812-858 | An expression with several operators means what the first of them in the fixed order means alone; one with none is Invalid |
| PolicyLaws.ProbesTestTheLimits | src/lib.rs:774-810 | Each probe reports the limit exactly when what it is told lies beyond it |
| PolicyLaws.BoundDecides | src/lib.rs:734-741 | A bound on a fact, decided: allowed up to the bound; beyond it denied, as stale evidence where the name is about its age; open without the fact; invalid for a fact that is no number |
| PolicyLaws.ListingDecides | src/lib.rs:754-762 | A required listing, decided: allowed when the fact lists the value and denied when it does not |
| PolicyLaws.QueryDecides | src/lib.rs:931-954 | A plain query is decided by its answer: True allows; False and Stale deny, each with its reason; Unknown, Invalid and Limit leave it open, each with its reason |
| PolicyLaws.VerdictExactlyWhen | src/lib.rs:860-954 | Of any prepared policy: an adapter it defers to decides first, then a missing authority denies, then a deny query that holds, each reason given exactly then; otherwise the answer of window, sides or query is judged |
| PolicyLaws.RefusedInputs | src/lib.rs:647-665 | What is refused before evaluation, and with which reason |
| RoutingPolicies.IntersectionAdmits | src/routing_enforcement.rs:580-635 | The combined policy never turns away what both sides admit (with a manifest once either demands an identity); where the demanded identity levels agree it admits nothing else |
| RoutingPolicies.IntersectionIsExactIff | src/routing_enforcement.rs:533-635 | It admits exactly those, over all candidates, exactly when the sides share no region or their levels agree: all recognized, or all the same |
| RoutingPolicies.IntersectionIsMeet | src/routing_enforcement.rs:580-635 | It admits exactly what both admit when the levels agree and an identity demand already entails a manifest demand |
| RoutingPolicies.UnrecognizedLevelWidens | src/routing_enforcement.rs:533-540 | A failing input: an unrecognized level displaces a demand for a known operator, and a node that is none is admitted |
| RoutingPolicies.DispatchIsConjunctionIff | src/routing_enforcement.rs:161-221 | For requests with and without a policy: dispatch reaches exactly the candidates that configuration, projection and request all admit, exactly when the request is refused or all levels demanded agree |
| RoutingProjection.Accumulator.ProjectExpression | src/routing_enforcement.rs:418-444 | Projecting onto the mutable accumulator computes the specified accumulator or error |
| RoutingProjection.Accumulator.ProjectEq | src/routing_enforcement.rs:446-486 | An `eq` comparison updates exactly the constraint it names |
| RoutingProjection.Accumulator.ProjectIn | src/routing_enforcement.rs:488-507 | An `in` comparison restricts regions to the listed ones, case folded |
| RoutingProjection.Accumulator.ApplyRegions | src/routing_enforcement.rs:518-531 | Regions intersect, and an empty intersection sets the deny flag |
| RoutingProjection.ProjectionAbsorbsAtoms | src/routing_enforcement.rs:418-507 | Projection succeeds exactly on expressions made of supported comparisons, and absorbs them in order |
| RoutingProjection.ProjectionPreservesMeaning | src/routing_enforcement.rs:85-121 | A candidate passes the new accumulator exactly when it passed the old one and satisfies every comparison |
| RoutingProjection.ProjectionIgnoresOrderAndNesting | src/routing_enforcement.rs:418-557 | Equal comparisons in any order and nesting give the same accumulator |
| ProjectionSoundness.ProjectionAgreesWithEvaluator | src/routing_enforcement.rs:418-557 | The evaluator says True of exactly the candidates the router admits whose region and identity are spelled in the facts as the policy spells them; on canonical policies without identity comparisons the two agree on every candidate with a lower-case region |
| PolicyRepository.ValidateMembers | src/policy_lifecycle.rs:310-330 | The walk over a set's members finds the specified first fault |
| PolicyRepository.MembersPassIff | src/policy_lifecycle.rs:310-330 | Members pass exactly when all are named and no two share an identity or an order |
| PolicyRepository.Repository.AddRevision | src/policy_lifecycle.rs:389-408 | Storing is idempotent on equal content and refuses different content under the same identity |
| PolicyRepository.Repository.AddBinding | src/policy_lifecycle.rs:433-465 | A binding is stored only when everything it names is stored |
| PolicyRepository.Repository.PolicyDigestsForBinding | src/policy_lifecycle.rs:534-567 | The digests collected for a binding are the specified ones |
| PolicyRepository.Repository.ActivateBinding | src/policy_lifecycle.rs:467-509 | Activation checks generation, validity and every digest, then takes the next generation |
| PolicyRepository.RunStaysSound | src/policy_lifecycle.rs:389-509 | Over every run nothing stored changes and every standing activation recomputes to the digests it was activated with, at a generation of its own |
| PolicyRepository.ActivationsStayDerivable | src/policy_lifecycle.rs:389-509 | So from the empty store on every standing activation can be recomputed |
| PolicyRepository.ActivationKeptOrLater | src/policy_lifecycle.rs:467-509 | An activation stays untouched or is replaced at a later generation |
| RepositoryLaws.RevisionStoredExactlyWhen | src/policy_lifecycle.rs:292-408 | A revision is stored exactly when versioned, named, valid for some time, understood, and no other has its identity; the same again changes nothing |
| RepositoryLaws.SetStoredExactlyWhen | src/policy_lifecycle.rs:310-432 | A set likewise, of named members that differ in identity and order, all of them stored |
| RepositoryLaws.BindingStoredExactlyWhen | src/policy_lifecycle.rs:332-465 | A binding likewise, of stored policies and sets that each have a place of their own |
| RepositoryLaws.RevisionRefusedAs | src/policy_lifecycle.rs:292-408 | Which error a revision that is not stored gets |
| RepositoryLaws.SetRefusedAs | src/policy_lifecycle.rs:310-432 | Which error a set gets; of its members the first that is unnamed or clashes with one before is reported |
| RepositoryLaws.BindingRefusedAs | src/policy_lifecycle.rs:332-465 | Which error a binding gets |
| RepositoryLaws.DigestsFoundExactlyWhen | src/policy_lifecycle.rs:534-567 | The digests of a binding are found exactly when all it reaches can be activated; each revision reached is listed under its name, and nothing else is |
| RepositoryLaws.ActivatedExactlyWhen | src/policy_lifecycle.rs:467-509 | An activation is taken exactly when named, for the next generation, of the binding as stored and in force, with those digests; it replaces the binding's activation and takes the generation |
| RepositoryLaws.ActivationRefusedAs | src/policy_lifecycle.rs:467-509 | Which error an activation that is not taken gets |
| RepositoryLaws.DigestsRefusedAs | src/policy_lifecycle.rs:534-550 | The digests of a binding are refused for its first own reference that is not stored or cannot be activated |
| RoutingEnforcement.ProjectActiveRoutingPolicy | src/routing_enforcement.rs:236-331 | The loop over active sources produces the specified projection or error |
| RoutingEnforcement.VerifiedIsReproduced | src/routing_enforcement.rs:333-371 | A projection verifies exactly when it is in its window and the repository would produce that very projection |
| RoutingEnforcement.ProjectionVerifiesExactlyWhile | src/routing_enforcement.rs:236-371 | After any further stores and activations a produced projection verifies exactly while in its window and its binding has not been activated again |
| RoutingEnforcement.DispatchSatisfiesActivePolicies | src/routing_enforcement.rs:161-221 | Every candidate dispatched to, for a request with or without a policy, satisfies every comparison of every policy active for the binding; identity comparisons too where the levels demanded agree |
| RoutingLaws.ProducedExactlyWhen | src/routing_enforcement.rs:236-416 | A projection is produced exactly when its window is proper and at most 300 seconds, the candidate evidence is current, resolved and well named, binding and activation cover the window, and there are policies, all in force over it and all understood |
| RoutingLaws.EvidenceUsedExactlyWhen | src/routing_enforcement.rs:373-416 | Candidate evidence is used exactly when current, from a valid source, resolved, and naming different candidates; when it is reported stale and when unresolved |
| RoutingLaws.ProjectionRefusedAs | src/routing_enforcement.rs:236-331 | A projection is refused for its window, then its evidence, then its binding and activation, then its policies, each with its own error |
| RoutingLaws.SourcesRefusedAs | src/routing_enforcement.rs:283-300 | Of several policies the first that cannot be enforced is reported: as expired when not in force, otherwise as unsupported or empty |
| RoutingLaws.VerificationRefusedAs | src/routing_enforcement.rs:333-371 | Verification refuses for the version, then the time, then as production would, then as a mismatch |
| RoutingLaws.EqualityAsks | src/routing_enforcement.rs:446-486 | What an `eq` on each fact the router knows asks of a candidate, and for which values |
| RoutingLaws.IdentityAsks | src/routing_enforcement.rs:533-557 | The three identity levels the router knows, from weakest to strongest; any other text is not understood |
| RoutingLaws.MembershipAsks | src/routing_enforcement.rs:488-516 | An `in` is understood only of 1 to 64 regions, and asks for exactly those, trimmed and in lower case |
| RoutingLaws.ProjectionSays | src/routing_enforcement.rs:274-331 | A projection denies everything exactly when no candidate is eligible or none could satisfy all policies; where some could, its policy admits exactly those that do |
| RoutingLaws.ProjectionNames | src/routing_enforcement.rs:290-331 | It names binding, activation, revisions and evidence, each at its digest, for exactly the window asked for |
| EffectivePolicies.EffectivePolicy | src/policy_lifecycle.rs:637-704 | The loop over a binding's sources produces the specified decision, source by source and overall |
| EffectivePolicies.EffectiveOutlastsGrowth | src/policy_lifecycle.rs:593-704 | No later store or activation changes the effective policy of a stored binding |
| EffectivePolicies.EffectiveDecisionIsStable | src/policy_lifecycle.rs:637-704 | An effective allow or deny drawn from settled sources, equality policies among them, survives missing facts being supplied and everything stored later |
| EffectiveLaws.EffectiveMeans | src/policy_lifecycle.rs:637-704 | The effective decision is Deny exactly when some source policy evaluates to Deny, Allow exactly when there is a source and all allow, open otherwise; each source is listed with its own verdict |
| EffectiveLaws.EffectiveFailsExactlyWhen | src/policy_lifecycle.rs:593-648 | The view is refused exactly for an unknown binding, or one that names something not stored |
| EffectiveLaws.SourcesAreTheNamed | src/policy_lifecycle.rs:593-626 | The sources of a binding are exactly the stored revisions it names, directly or through a set at the place that set has, one for each naming |
| EffectiveLaws.SourcesAreInOrder | src/policy_lifecycle.rs:627-633 | They are listed by falling rank, and within a rank by order, policy and revision |
| EffectiveLaws.NamingMoreNeverLoosens | src/policy_lifecycle.rs:637-675 | A binding that names more keeps every denial, and never allows what a nonempty binding did not |
| Planner.ValidateBundle | src/lib.rs:281-320 | The loops over resources and extensions find the specified first fault |
| Planner.PlanWithControl | src/lib.rs:345-404 | The planning loop produces the specified plan or error |
| Planner.PlanForgetsOrder | src/lib.rs:345-404 | Any permutation of resources and extensions gives the identical plan |
| Planner.PlanCoversResources | src/lib.rs:368-398 | Operations are strictly ascending by resource and cover each resource once, at its desired digest |
| Planner.OperationIdReadsBack | src/lib.rs:384-386 | The number in an operation id can be read back |
| Planner.PlannedIdsAreDistinct | src/lib.rs:368-398 | No two operations of a plan have the same id |
| Planner.MatchObservations | src/lib.rs:441-464 | The loop over observations decides the specified match |
| Planner.ReceiptIsBijection | src/lib.rs:441-484 | In a verified receipt each operation has exactly one observation |
| Planner.ConvergedReceiptIsComplete | src/lib.rs:423-484 | A verified Converged receipt observed every after-digest at the target generation |
| PlannerLaws.PlannedExactlyWhen | src/lib.rs:281-362 | A bundle is planned exactly when it is admissible, of the accepted generation and not cancelled; what cancellation and staleness are reported of |
| PlannerLaws.BundleRefusedAs | src/lib.rs:281-320 | A bundle is refused for its version, its names, its size, then its first resource that is unnamed, repeated or holds a secret, each with its own error |
| PlannerLaws.ExtensionRefusedAs | src/lib.rs:308-318 | And then for the first extension that must be understood and is not, which is named |
| PlannerLaws.SecretFoundIff | src/lib.rs:268-279 | A secret is found exactly when some object, however deep, has a field named like one |
| PlannerLaws.PlanSays | src/lib.rs:368-404 | Each step starts from the accepted digest of its resource, creating it exactly when there is none, ends at the digest the bundle desires, one generation on, under its own idempotency key |
| PlannerLaws.PlanDigestsTheBundle | src/lib.rs:358-404 | The digest a plan carries is of the bundle itself, with its resources in the order of the steps |
| PlannerLaws.DigestedInOrder | src/lib.rs:358-367 | In the digested bundle resources ascend by id and extensions by class name and id |
| PlannerLaws.OperationIdsAre | src/lib.rs:384-386 | An operation id is `op-` and its number, padded with zeros to four digits |
| PlannerLaws.ReceiptVerifiedExactlyWhen | src/lib.rs:423-494 | A receipt is verified exactly when it answers this plan to this audience, observes different planned resources truly, as many as there are steps, and sums them up |
| PlanSubmissions.ValidatePlanSubmission | src/controller.rs:867-900 | The check accepts exactly the submittable plans |
| PlanSubmissions.AcceptPlanSubmission | src/controller.rs:691-699 | A submission that fails the check leaves no event; one that passes is evaluated as a plain request |
| PlanSubmissions.PlannedIsSubmittable | src/controller.rs:867-900 | Every plan fresh from the planner, with a request naming it and its resources in order, passes the controller's check |
| PlanSubmissions.AcceptanceReachesTarget | src/controller.rs:691-699 | Acceptance moves the controller from the plan's expected to its target generation |
| PlanSubmissions.RivalPlansAreRefused | src/controller.rs:691-699 | Once a plan is accepted no plan made at the same generation ever is |
| PlanSubmissions.GateWritesTheBundle | src/apply_gate.rs:88-167 | A gate accepted for the planner's plan writes exactly the desired state its bundle gives for that target |
| Gates.AuthorizationPinsTheGate | src/apply_gate.rs:88-167 | Two accepted gates with the same authorization carry the same operation, plan, payload and generations |
| GateLaws.GateAcceptedExactlyWhen | src/apply_gate.rs:88-167 | A gate is accepted exactly when request, plan, operation, evidence and authorization are about one operation, the authorization proposes Allow inside a satisfied boundary in a mode that may act and holds now, and the evidence is filled in; which of the three errors is reported when |
| GateLaws.ResumedExactlyWhen | src/controller.rs:608-649 | An execution is let through exactly when that holds now, both signatures are the controller's, and the ledger granted this operation under this authorization |
| GateLaws.EveryCallWasAllowed | src/execution.rs:70-156 | Over every run, each host call was made by an execution let through in this sense at that moment |
| GateLaws.EveryChangeWasAllowed | src/execution.rs:70-156 | Over every hosted run, with restarts and recoveries, so was each change of each target |
| GateLaws.RecoveryAcceptedExactlyWhen | src/recovery.rs:75-153 | A recovery gate is accepted exactly when the original gate held when issued, the documents name this undoing of a converged execution from where it ended to what its plan found, and the authorization allows it now; which error is reported when |
| GateLaws.RecoveryResumedExactlyWhen | src/controller.rs:676-715 | A recovery is let through exactly when that holds, signed and granted |
| Controllers.Controller.EvaluateAuthorized | src/controller.rs:756-858 | The transaction computes the specified ledger; a write that fails undoes the earlier ones |
| Controllers.Controller.Evaluate | src/controller.rs:535-545 | A refused plain request is logged and changes nothing else |
| Controllers.Controller.RecordOutcome | src/controller.rs:461-508 | An outcome rewrites only the newest decision's state and reason, then logs its event, then prunes; cut off after any of the three, just those before it are made |
| Controllers.Controller.AuthorizeApplyGate | src/controller.rs:568-607 | A gate is authorized only when valid, signed and admitted, and is bound to its operation and authorization |
| Controllers.Controller.ResumeAuthorizedApply | src/controller.rs:608-649 | Resuming answers with the stored generation exactly for the stored operation and authorization |
| Controllers.Controller.RecordExecutionPhase | src/controller.rs:405-425 | The upsert replaces the phase and keeps receipts it is not given |
| Controllers.Controller.Prune | src/controller.rs:454-460 | Pruning keeps the newest events, at least one |
| Controllers.LedgerIsGapFree | src/controller.rs:804-858 | Over every run acceptances are numbered 1, 2, 3, ... without gap; decisions and nonces both number the generation; each generation has exactly one decision |
| Controllers.AcceptedExactlyWhen | src/controller.rs:756-858 | A request is accepted exactly when signed, addressed, bounded, fresh, allowed, of the current generation, and with nonce and id never seen |
| Controllers.AcceptanceIsForever | src/controller.rs:461-508 | Later steps keep every decision's generation, every nonce and every grant |
| Controllers.AcceptedOnlyOnce | src/controller.rs:804-858 | A request, or any other with its id or nonce, is refused for ever after it was accepted |
| Controllers.OnlyAcceptanceMovesTheLedger | src/controller.rs:461-545 | Refusals change only the event log; outcome reports change no generation, nonce or grant; an acceptance adds exactly one of each |
| Controllers.EventsAreTheNewestOfTheTrail | src/controller.rs:438-460 | Without cuts the kept log is the newest part of the full trail, which records exactly one acceptance per generation, in order |
| LedgerLaws.FirstFailureIsReported | src/controller.rs:756-803 | A request passes exactly when profile, texts, resources, references, address, time, action and signature are right; the first that is not is the one reported |
| LedgerLaws.AcceptedExactly | src/controller.rs:804-858 | A right request is accepted exactly when its nonce and id were never seen and it expects the ledger's generation; one generation, nonce, decision, event and grant are written, nothing else, and nothing at all on refusal |
| LedgerLaws.RefusedAs | src/controller.rs:804-850 | A replay, an old generation and a known id are reported in that order, of right requests only |
| LedgerLaws.RefusalIsLogged | src/controller.rs:438-460 | The refusal of a plain request leaves its event in the log and nothing else |
| LedgerLaws.ReportedExactlyWhen | src/controller.rs:461-485 | An outcome is taken exactly for the newest decision, at the expected generation, when it is deferred, partial or failed and in plain words; the first of these that fails is reported |
| LedgerLaws.ReportWrites | src/controller.rs:486-508 | It rewrites that decision's state and reason and is logged; nothing else changes |
| LedgerLaws.JournalWriteIs | src/controller.rs:405-425 | A journal write sets the phase, replaces each receipt it is given, keeps each it is not, and touches no other row |
| LedgerLaws.AuthorizedExactlyWhen | src/controller.rs:568-607 | A gate is authorized exactly when it holds now, is signed, and its request is right and unseen; what is granted is this operation under this authorization |
| LedgerLaws.RecoveryAuthorizedExactlyWhen | src/controller.rs:650-676 | The same of a recovery gate |
| LedgerLaws.PlanAcceptedExactlyWhen | src/controller.rs:691-699 | A plan is accepted exactly when its request asks to accept just it and lists its resources in order, its steps fit, and the request is right and unseen |
| ControllerCrashes.CutRunIsARun | src/controller.rs:461-508 | A run cut off after any writes leaves generations, nonces, decisions and grants as the whole run of the inputs it began, so what is proved of those holds under crashes |
| ControllerCrashes.LogIsCompleteIff | src/controller.rs:486-501 | Under crashes the log is the newest part of a trail, and that trail is the whole run's exactly when no report ended between its decision and its event; each that did is one event short |
| Adapters.SyntheticAdapter.Apply | src/adapters.rs:407-459 | Apply changes state, generation and history as specified, for every simulated outcome |
| Adapters.SyntheticAdapter.Rollback | src/adapters.rs:460-493 | Rollback restores the state recorded before the related apply |
| Adapters.AdapterHost.Execute | src/adapters.rs:276-325 | The host answers completed operations from memory and otherwise dispatches to one adapter, leaving the others alone |
| Adapters.AdapterHost.VerifyAuthorized | src/adapters.rs:326-337 | Verification reads the adapter and never the host's memory |
| Adapters.RunStaysClocked | src/adapters.rs:407-493 | Over every run the generation numbers the states, each change was made at the generation its operation expected, and every recorded receipt is true |
| Adapters.StateIsFunctionOfGeneration | src/adapters.rs:407-493 | Seeing the same generation again means seeing the same state |
| Adapters.EffectAtMostOnce | src/adapters.rs:407-493 | No operation ever changes the state twice, even after an unknown outcome |
| Adapters.SpentOperationIsInert | src/adapters.rs:407-493 | Once an operation has changed the state, executing it again moves neither generation nor state, from any state reached |
| Adapters.HostTicksOnce | src/adapters.rs:276-325 | One host execution moves one adapter by at most one generation |
| HostLaws.ApplyTakesEffect | src/adapters.rs:407-459 | A plain apply that host and target can take puts the desired state in place one generation later, leaves every other target alone, is receipted truly, remembered, and confirmed by an independent read |
| HostLaws.SimulatedFailures | src/adapters.rs:424-458 | The four simulated failures, by what the desired state asks for: what the target holds afterwards and what is reported |
| HostLaws.StaleApplyIsRefused | src/adapters.rs:407-423 | An apply of another state than its digest, already seen, or at another generation changes no target and says which |
| HostLaws.NotOpenIsAnswered | src/adapters.rs:276-305 | Malformed, completed, cancelled, unknown or unsupported operations change nothing and are answered in that order |
| HostLaws.ConvergedMeansHeld | src/adapters.rs:276-325 | A new apply is receipted Converged exactly when it is open, fresh and plain, and then its target holds the desired state |
| HostLaws.RollbackTakesEffect | src/adapters.rs:460-493 | A fresh rollback puts back what the target held before the related apply, one generation later still; receipt, memory and an independent read say so |
| HostLaws.StaleRollbackIsRefused | src/adapters.rs:460-480 | Any other rollback changes no target and says why |
| HostLaws.ApplyThenRollback | src/adapters.rs:407-493 | An apply followed by its rollback restores the target's state, two generations later |
| HostLaws.VerifyReadsTheTarget | src/adapters.rs:326-337 | An independent read reports generation and digest as they are, Converged exactly when the digest is the desired one, and fails exactly without a target |
| HostLaws.OtherActionsAreInert | src/adapters.rs:305-312 | Every action but apply and rollback leaves all targets alone; what reads and dry runs report |
| FileAdapter.RuntimeConfigAdapter.Apply | src/adapters.rs:625-720 | Apply computes the specified file, memory, state file and outcome under every fault |
| FileAdapter.RuntimeConfigAdapter.Rollback | src/adapters.rs:721-761 | Rollback likewise, with the generation moved before the read-back |
| FileAdapter.FailedApplyLeavesNoTrace | src/adapters.rs:625-720 | An apply that errs leaves memory and state file alone, and the file too except for an unknown outcome or a failed restore |
| FileAdapter.FreshReceiptIsTrue | src/adapters.rs:681-720 | A fresh receipt carries the digest of the file as read at return; Converged adds exactly one generation and one history entry with the prior bytes, persisted |
| FileAdapter.RollbackPutsBytesBack | src/adapters.rs:721-761 | A successful rollback into which no other writer intrudes puts back the bytes the apply replaced |
| FileAdapter.FailedRollbackMovesGenerationIff | src/adapters.rs:738-752 | A rollback that errs moves the generation in memory exactly when the read-back after the restore fails |
| FileAdapter.HistoryStaysTrue | src/adapters.rs:549-593 | Over runs with faults, foreign edits and restarts, what is remembered was persisted and is true, and every persisted entry, prior bytes included, stays unchanged |
| FileAdapter.RetryAfterUnknownSpoilsRollback | src/adapters.rs:670-676 | After an unknown outcome a retry is accepted at the same generation, and its rollback restores the original bytes only if they already were the desired ones |
| FileLaws.ApplyInstallsIff | src/adapters.rs:657-719 | An attempted apply is receipted Converged exactly when the file is replaced, reads back as desired and the state persists; then file, memory and state file hold it one generation later, with the bytes it replaced |
| FileLaws.FailuresLeave | src/adapters.rs:657-718 | What each failure of an apply leaves in the file and reports |
| FileLaws.UnattemptedIsAnswered | src/adapters.rs:625-652 | Any other apply changes nothing: it is invalid, a replay, stale, or finds no configuration to replace |
| FileLaws.RollbackRestoresIff | src/adapters.rs:742-761 | A rollback succeeds exactly when the restore does, a document is read back and the state persists; then the file holds the replaced bytes, or what another writer left |
| FileLaws.FailedRollbackLeaves | src/adapters.rs:743-759 | What each failure of a rollback leaves and reports |
| FileLaws.OtherRollbacksAreAnswered | src/adapters.rs:721-742 | Any other rollback changes nothing and says why |
| FileLaws.SecretKeptIff | src/adapters.rs:595-604 | A configuration is refused for a secret exactly when some object in it, however deep, has a field named like one |
| Execution.ExecuteAuthorized | src/execution.rs:70-188 | One attempt, cut short after any number of journal writes and host calls, leaves journal, host and answer as its script says |
| Execution.PersistVerifiedAndComplete | src/execution.rs:253-281 | Both writes are made in order, or as many as the process lives to make |
| Execution.VerdictMeans | src/execution.rs:190-251 | Converged, Deferred and Failed each exactly characterized by what the apply reported and the read found, and the retry disposition with them |
| ExecutionRuns.ScriptIsLegal | src/execution.rs:84-188 | Whatever phase an attempt finds, it only makes moves that keep the row truthful |
| ExecutionRuns.ExecutedAtMostOnce | src/execution.rs:145-167 | Over every run with crashes, and targets that answer anything, the host is called at most once per request and operation, only for granted ones, and never more often than generations were accepted |
| ExecutionRuns.CallNeedsAuthority | src/execution.rs:79-156 | A host call is only made for a gate valid at that moment, signed by the controller's key, and granted for this operation under this authorization |
| ExecutionRuns.PhasesOnlyAdvance | src/execution.rs:84-188 | No journalled phase goes back and no stored receipt changes |
| ExecutionRuns.ToldIsStored | src/execution.rs:253-301 | A receipt that is returned is stored in a complete row |
| ExecutionRuns.ReceiptsAgree | src/execution.rs:84-110 | Any two receipts returned for one request and operation are the same, and the second costs no host call |
| ExecutionRuns.UninterruptedAttemptEnds | src/execution.rs:70-188 | From every reachable state an authorized attempt that is not cut short returns a receipt |
| ExecutionRuns.ConvergedWasVerified | src/execution.rs:190-251 | A stored Converged receipt had its apply reported converged and its desired digest read back |
| ExecutionLaws.RestartObserves | src/execution.rs:107-143 | In every reachable world, an attempt that finds its apply started and not reported makes no host call; it tells and stores that the effect was observed exactly when the desired state is read back, a mismatch for any other read, an unavailable target when the read fails |
| ExecutionLaws.ReportedIsConcluded | src/execution.rs:144-158 | An attempt that finds its apply reported makes no host call, and its receipt explains that report by what is read now |
| ExecutionLaws.FirstAttemptExplains | src/execution.rs:159-251 | A first attempt that is not cut short calls the host once; each reason, state and retry advice is given exactly for its reports and reads, both of which the receipt carries |
| ExecutionLaws.FirstAttemptCutShort | src/execution.rs:159-182 | Cut short, it has journalled its start before the call and a report before anything else, and tells nothing |
| ExecutionLaws.RefusedAttemptDoesNothing | src/execution.rs:70-83 | An attempt that is not let through changes nothing and is told why |
| ExecutionLaws.StoredIsRepeated | src/execution.rs:84-106 | In every reachable world, an attempt whose receipt is stored is told it, without a host call |
| ExecutionLaws.RowsWithoutReceipts | src/execution.rs:84-152 | In a journal no run leaves: a finished row without receipt is attempted afresh, a reported one without report is an error |
| HostedRuns.HostedRunIsARun | src/execution.rs:70-188 | Every run with real hosts, recoveries, restarts and cancellations is one of those runs |
| HostedRuns.RecoveringIsRecover | src/recovery.rs:155-230 | A recovery in such a run does to the host what the recovery procedure does |
| HostedRuns.EveryEffectWasAccepted | src/adapters.rs:276-325 | Summed over all targets, across restarts that lose all memory: changes are no more than host calls by applies and recoveries together, and no more than the grants, which are no more than the accepted generations; applies call the host at most once per generation |
| HostedRuns.RecoveryRestores | src/recovery.rs:155-230 | Over every hosted run, if the original operation was granted, a recovery that changes its target puts back the state at the generation the original was planned from, and takes back one change exactly when its receipt says the original reached the next generation |
| HostedLaws.RestartTellsTheState | src/execution.rs:107-143 | Over every hosted run: after a restart the receipt says that the effect was observed exactly when the target holds the desired state, and no target is touched |
| HostedLaws.FirstAttemptConvergesIff | src/execution.rs:159-251 | Over every hosted run, a first uncut attempt at an apply ends converged exactly when its target is registered, current, not cancelled and not told to fail; and then the target holds the desired state |
| HostedLaws.RememberedIsJournalled | src/adapters.rs:276-325 | Over such runs, what host or target remember of a gate's operation has a journal row |
| Recovery.ExecuteRecovery | src/recovery.rs:155-230 | Recovery checks its gate, the stored grant and the strategy, then executes once and reads back |
| Recovery.AuthorizeRecoveryGate | src/controller.rs:650-676 | A recovery is admitted like any request and bound to its operation and authorization |
| Recovery.RollbackRestoresExactly | src/adapters.rs:460-493 | After an apply and any further calls, a rollback bound to the apply's receipt takes effect exactly when nothing has moved the target since, and then restores the state the apply found |
| Recovery.GatedRollbackRestores | src/recovery.rs:75-153 | Under the gate's bindings and with the genuine receipt the same holds, and the read-back confirms it exactly when the plan's before-digest was right |
| Recovery.RecoveryVerdictMeans | src/recovery.rs:185-216 | Each recovery outcome and next action exactly characterized by what was rolled back and read back |
| Recovery.ReversedMeansBeforeWasReadBack | src/recovery.rs:182-197 | Reversed is only reported when the target holds what the original plan found before it |
| RecoveryLaws.ReversalConcludes | src/recovery.rs:182-230 | A recovery that is let through executes once and reads the target; each outcome and next action is given exactly for what was reported and read |
| RecoveryLaws.RecoveryTakesEffect | src/recovery.rs:182-230 | When the host can take its rollback, the target holds again what it held before the original apply; reported reversed exactly when that is what the original plan found |
| RecoveryLaws.RefusedReversalFails | src/recovery.rs:182-230 | When host or target refuse it, every target is left alone and failure is reported |
| RecoveryLaws.OtherStrategiesAreRefused | src/recovery.rs:164-181 | Compensation and safing touch nothing and ask for an adapter that has them |
| RecoveryLaws.RefusedRecoveryDoesNothing | src/recovery.rs:155-163 | A recovery that is not let through touches nothing and is told why |
| RolloutManifest.ValidateManifest | src/rollout.rs:117-164 | The loops find the specified fault, or the manifest's digest is returned |
| RolloutManifest.AcceptedManifestIsWellStaged | src/rollout.rs:117-164 | An accepted manifest has one required canary alone in batch 0, batches without holes, and no target or operation twice |
| RolloutLaws.ManifestAcceptedExactlyWhen | src/rollout.rs:117-164 | A manifest is accepted exactly when named, current and bounded, its targets different, bound to it and with gates that hold, with one required canary alone in batch 0 and no holes after; the first of these that fails is reported |
| RolloutLaws.TargetRefusedAs | src/rollout.rs:130-151 | Of the targets the first at fault is reported: as not bound to the manifest or repeated, or else for its gate |
| RolloutLaws.NewRunIsPending | src/rollout.rs:244-281 | A run starts pending at batch 0, version 0, each target pending in its own batch |
| RolloutStores.RolloutStore.Create | src/rollout.rs:244-281 | Creation is idempotent on the same manifest and refuses another under the same run id |
| RolloutStores.RolloutStore.PauseRun | src/rollout.rs:353-356 | Only a running run is paused, with a new version |
| RolloutStores.RolloutStore.ResumeRun | src/rollout.rs:358-361 | Only a paused run is resumed, with a new version |
| RolloutStores.RolloutStore.Runnable | src/rollout.rs:377-403 | The loop selects exactly the unfinished targets of the current batch, in manifest order |
| RolloutStores.RolloutStore.Mark | src/rollout.rs:405-412 | Marking starts an unfinished target and then a pending run, without a new version; cut off after either write, just those before it are made |
| RolloutStores.RolloutStore.Record | src/rollout.rs:414-448 | A bound receipt settles a receptive target and then the run is decided anew; cut off between, only the row is settled |
| RolloutStores.RolloutStore.RecordError | src/rollout.rs:450-460 | A failed execution defers its target and then the run is decided anew in any case; cut off between, only the row is deferred |
| RolloutStores.RolloutStore.RecalculateRun | src/rollout.rs:462-514 | Nothing changes while the batch has work; otherwise state, batch and version become the verdict's |
| RolloutStores.RolloutStore.Retry | src/rollout.rs:516-543 | Only a deferred target is retried, and then the run is running again at a new version; cut off between, only the row is |
| RolloutStores.RolloutStore.Accept | src/rollout.rs:545-565 | A signed acceptance that fits run, version and state sets the flag and nothing else |
| RolloutLaws.EndedBatchDecides | src/rollout.rs:470-514 | When a batch has ended the next runs exactly when there is one and nothing holds; the run converged exactly when all targets have and no batch is left; it pauses exactly when something holds before the last batch or in an only one; it ends in part otherwise; always at a new version |
| RolloutLaws.BusyBatchWaits | src/rollout.rs:462-470 | While a target of the batch is pending or running nothing is decided |
| RolloutLaws.MarkStarts | src/rollout.rs:405-412 | Marking takes exactly pending and running targets, row first and then the run, at the same version |
| RolloutLaws.ReceiptSettles | src/rollout.rs:414-448 | A receipt is taken exactly by the unsettled target it is of, settles it as its state and decision say, and then the batch is decided anew |
| RolloutLaws.ReceiptRefusedAs | src/rollout.rs:421-446 | What any other receipt is refused as |
| RolloutLaws.ErrorDefers | src/rollout.rs:450-460 | A failed execution defers its target unless that has settled; the batch is decided anew in any case |
| RolloutLaws.RetryReopens | src/rollout.rs:516-543 | Exactly a deferred target is retried: its row is running, then the run at a new version |
| RolloutLaws.AcceptedExactlyWhen | src/rollout.rs:175-211 | A partial outcome is accepted exactly once, by a signed acceptance of just this run at just this version |
| RolloutLaws.PauseAndResume | src/rollout.rs:353-375 | Exactly a running run pauses and exactly a paused one resumes |
| RolloutLaws.RunnableExactly | src/rollout.rs:377-403 | What may run are exactly the pending and running targets of the current batch, in manifest order; of a paused, converged or failed run nothing can be asked |
| Rollout.RunStaysSound | src/rollout.rs:353-565 | Every operation in every order, none cut off, keeps rows, batch and run state consistent |
| Rollout.RunStaysDurable | src/rollout.rs:353-565 | Cut off between any two writes, every row stays right under its batch; a converged run is all converged and a partially converged one at the last batch |
| RolloutCrashes.StepStaysSoundIff | src/rollout.rs:405-543 | The run state goes on meaning what it says exactly when a step is not cut off where its second write would have corrected it, three cases given by their guards |
| RolloutRuns.LowerBatchesConverged | src/rollout.rs:462-514 | Below the current batch every required target has converged, and every target has under stop-and-hold, wherever operations are cut off |
| RolloutRuns.TargetStatesAreExplained | src/rollout.rs:414-460 | In every reachable run a settled target holds its own operation's receipt saying so, and a deferred one was deferred by its execution or could not be executed |
| RolloutRuns.VerdictsAreSound | src/rollout.rs:470-512 | Converged means all converged; PartiallyConverged means the last, non-canary batch is current and the canary converged; when nothing was cut off that batch is done and something did not converge; failed runs and held targets do not exist |
| RolloutRuns.FinalTargetStays | src/rollout.rs:405-460 | A converged, failed or rejected target is never touched again |
| RolloutRuns.ConvergedIsAbsorbing | src/rollout.rs:353-565 | A converged run keeps its state, targets and receipts for ever |
| RolloutRuns.VersionPinsOutcome | src/rollout.rs:405-460 | From a quiet partially converged run on, the same version means the same target states and receipts unless an operation was cut off after changing one |
| RolloutRuns.VersionPinsOutcomeIff | src/rollout.rs:405-543 | Over every run, cut off anywhere: at each point with the first version the outcome is the first one, exactly when no retry, receipt or error was cut off after changing its target while that version stood |
| RolloutRuns.AcceptancePinsOutcome | src/rollout.rs:175-211 | An acceptance signed for a version then succeeds only on the very outcome the signer saw, and changes none of it |
| RolloutCrashes.AcceptanceIsSafeIff | src/rollout.rs:545-565 | Whatever is cut off where, an acceptance is only ever taken on the outcome that was signed exactly when every target of that outcome is final |
| RolloutRuns.AcceptedOnce | src/rollout.rs:545-565 | At most one acceptance ever succeeds for a run |
| RolloutRuns.PauseOutlastsReceiptIff | src/rollout.rs:497-512 | A paused run stays paused after a receipt exactly when its batch has more to do or a failure holds it before the last batch |
| RolloutRuns.ResumeIsIdleIff | src/rollout.rs:358-402 | A resumed run has nothing to run exactly when its batch was already finished |
| RolloutDriver.RunBatchCommand | src/bin/iicp-management.rs:1599-1644 | The batch loop marks, executes and records each runnable target as specified, a missing executor as an error, stops at an error or a pause, and makes as many of its writes as its process lives for |
| RolloutDriver.RetryTargetCommand | src/bin/iicp-management.rs:1645-1674 | A retry prepares, executes and records one deferred target, for as many of its four writes as its process lives; without a configured executor it stops after preparing |
| DriverLaws.DrivingWrites | src/bin/iicp-management.rs:1606-1638 | Driving a target, write by write: started, its run running, its own answer written, the batch decided anew; a missing executor or no answer defers it |
| DriverLaws.MisfitStops | src/bin/iicp-management.rs:1625-1636 | A receipt of another operation stops the command with its target started and nothing else written |
| DriverLaws.BatchDrivesInOrder | src/bin/iicp-management.rs:1606-1638 | A batch command drives what may run, in order, until one stops it or pauses the run |
| DriverLaws.RetryWrites | src/bin/iicp-management.rs:1645-1674 | A retry, write by write; without an executor it stops with its target running again |
| RolloutDriver.MarkingStaysInOrderIff | src/rollout.rs:405-412 | Marking keeps later batches untouched exactly when the target is not ahead of the current batch |
| RolloutDriver.CanaryGoesFirst | src/bin/iicp-management.rs:1606-1638 | Under any mix of commands, each cut off at any write, and any answers or missing executors, a target starts only after every required target of every earlier batch has converged |
| RolloutDriver.BatchCommandEndsTheBatch | src/bin/iicp-management.rs:1606-1638 | One whole batch command on a run with something to run, whatever was cut off before, ends in a verdict or at the next batch, which has something to run |
| RolloutDriver.DriverTerminates | src/bin/iicp-management.rs:1606-1638 | At most one batch command per batch brings a fresh run to Paused, PartiallyConverged or Converged |
| RolloutDriver.DriverRecovers | src/bin/iicp-management.rs:1606-1638 | The same from every state reached by commands cut off anywhere, as long as the batch has a target left |
| RolloutCrashes.LiveRunIsRunnableIff | src/bin/iicp-management.rs:1599-1644 | Driven by batch commands and pauses, each cut off anywhere, a live run has a runnable target exactly when no process recorded the last receipt of a batch and ended before the verdict |
| RolloutCrashes.StuckForEverIff | src/bin/iicp-management.rs:1599-1674 | A live run with nothing to run is never moved by any command again exactly when it has no deferred target |
| RolloutCrashes.RetryDecides | src/bin/iicp-management.rs:1645-1674 | Retrying a deferred target, even in vain, reaches the verdict that was lost |
| Reconciliation.AssessInspection | src/reconciliation.rs:86-184 | The loop over targets produces the specified assessments or error |
| Reconciliation.DriftIsEvidenced | src/reconciliation.rs:108-158 | Drift is only reported against a proved expectation and complete evidence; in sync means both digest and generation agree |
| Reconciliation.ReconciliationStore.AssessRun | src/rollout.rs:567-608 | A terminal run's assessments are all appended, or none when one collides |
| Reconciliation.ReconciliationStore.CreateProposal | src/rollout.rs:632-673 | A proposal is made only from the newest assessment, for a class that permits it |
| Reconciliation.ReconciliationStore.RecordReceipt | src/rollout.rs:722-744 | A receipt is recorded only under a passing gate, for the gate's own operation |
| Reconciliation.LatestIsNewest | src/rollout.rs:675-685 | The assessment used is about the target, and none about it was observed later |
| Reconciliation.GatePassesOnlyOnNewest | src/rollout.rs:687-720 | A gate passes only on the newest assessment, which was drifted, unexpired and of the generation the operation expects |
| Reconciliation.ReconciliationRestoresExpectation | src/rollout.rs:632-720 | In every reachable store a passing gate's operation writes exactly what the newest assessment expected, from the generation it observed |
| Reconciliation.ExpectationStandsIff | src/reconciliation.rs:108-158 | What an assessment expected stays the run's own expectation over every further run exactly when the target was final |
| Reconciliation.SupersededNeverPasses | src/rollout.rs:675-720 | Once a later-observed assessment has arrived, in whatever order, the proposal never passes again |
| Reconciliation.OneReceiptPerProposal | src/rollout.rs:722-744 | A proposal gets at most one receipt, for another operation than the one it repairs, and keeps it |
| ReconciliationLaws.AssessedExactlyWhen | src/reconciliation.rs:86-184 | A run is assessed exactly on usable evidence about its own manifest; each target gets one assessment, Drifted exactly when complete evidence differs from what was proved, and open for exactly the reasons given |
| ReconciliationLaws.StoredExactlyWhen | src/rollout.rs:586-606 | Assessments are stored together exactly when no id stands for two different ones, and then add exactly those the table lacks |
| ReconciliationLaws.DriftStoredExactlyWhen | src/rollout.rs:567-608 | Drift is stored exactly for a run that has ended, on evidence that can be assessed |
| ReconciliationLaws.ProposedExactlyWhen | src/rollout.rs:632-673 | A proposal is stored exactly when its class may be repaired and the newest assessment of a target of the run found a current drift; it repeats that assessment and nothing else changes |
| ReconciliationLaws.ActsExactlyWhen | src/rollout.rs:687-720 | It may act exactly while it stands on the newest assessment, through a gate that holds and does just what it says |
| ReconciliationLaws.RecordedExactlyWhen | src/rollout.rs:722-744 | A receipt is recorded exactly for the gate's own new operation, once |
| ReconciliationLaws.DriftRefusedAs | src/rollout.rs:567-608 | Which error drift that is not stored gets |
| ReconciliationLaws.ProposalRefusedAs | src/rollout.rs:632-673 | Which error a proposal that is not stored gets |
| ReconciliationLaws.ActionRefusedAs | src/rollout.rs:687-720 | Why a proposal may not act |
| Witnesses.SampleIsValid | src/rollout.rs:117-164 | There is a manifest of two stages that passes all checks, so the rollouts of the next inputs can be reached |
| Witnesses.PauseIsLifted | src/rollout.rs:497-512 | Canary marked, run paused, converged receipt recorded: the run is running and the next target runnable |
| Witnesses.ResumeIsIdle | src/rollout.rs:358-402 | Canary failed, run resumed: it is running with nothing to run |
| Witnesses.SecondIsMarkedFirst | src/rollout.rs:405-412 | In a new run the second batch's target is marked while the canary is pending |
| Witnesses.RolloutIsStuck | src/rollout.rs:442-446 | The first batch command ends between the canary's receipt and the verdict: running, nothing runnable, the second target pending, and no command ever moves it |
| Witnesses.AcceptanceIsOfAnotherOutcome | src/rollout.rs:531-537 | A signer is shown a quiet run, a retry ends after its first write, and the acceptance is taken of a busy run |
| Witnesses.ReportIsNotLogged | src/controller.rs:486-499 | From the empty ledger: an accepted request is reported failed and the log does not say so |
| Witnesses.MatchingDenyIsIgnored | src/lib.rs:901-929 | A policy whose deny query holds, and which allows because it defers to an adapter |
| Witnesses.FailedRollbackMovesGeneration | src/adapters.rs:738-752 | From a fresh adapter: apply, then a rollback that finds no file; memory is a generation ahead of the state file |
| Witnesses.RollbackKeepsTheNewConfig | src/adapters.rs:670-676 | From a fresh adapter: unknown outcome, retry, rollback; the new configuration is still there |

## Left out

- Cryptography and encoding: SHA-256 (section 6.2 of FIPS 180-4), canonical JSON (section 3.2 of RFC 8785), Ed25519 (section 5.1.7 of RFC 8032) and base64 (section 4 of RFC 4648) are symbolic; malformed encodings are therefore not distinguished from wrong signatures.
- SQLite: write-ahead logging, busy timeouts, file modes and I/O failures of single statements; a statement fails only where a key constraint makes it fail.
- Processes racing on one journal or rollout database: callers are serial, with crashes.
- IPC, sockets, command-line parsing, printing and shell completion.
- The external client crate: runtime-configuration validation is a parameter, policies start resolved, and admission of a candidate is given a small explicit meaning, with unrecognized identity levels as a parameter of the candidate.
- Wall-clock time: `now` is an input of each call.
- The pruning of the log after an acceptance counts as part of its transaction; cut off before it, the log would be longer until the next pruning.
- Byte-size limits of policies and results; text lengths are counted in characters, not UTF-8 bytes.
- Floating-point numbers in policies: numbers are integers.
- Fixed-width overflow: generations, versions and times are natural numbers, so saturation of `generation + 1`, of the assessment clock skew and of `set order * 10000 + member order` is not modelled.
- The order in which a JSON map lists its keys is the order given; duplicate keys are not excluded where the code does not look.
- Adapters behind the host are synthetic ones; the file-backed adapter is modelled on its own, and no read of its file fails except by the file being missing or no document.
- Recovery keeps no journal in the code, so at-most-once through the journal is stated for apply executions only; recoveries are counted as host calls, and the adapter's own version clock bounds their effects.
- RolloutCrashes.LiveRunIsRunnableIff: stated for batch and pause commands; a resume after a failed batch (RolloutRuns.ResumeIsIdleIff) and a retry in an earlier batch that is cut off also leave a live run with nothing to run.
- HostedRuns.EveryEffectWasAccepted: a target that starts afresh after a restart is counted from its restart.
- PolicyEvidence.VerdictStandsIff: for a stale or an open verdict, and for a deny query left open under an evidence window, whether some later facts change it is a question of satisfiability and has no such condition.
- `authorize_adapter_operation`, a direct authorization without gate or journal.
- Reports and views that read one value: controller snapshots, adapter inspections as the host produces them, drift listings, plan previews, inventories, briefs, and the reason codes listed beside an effective decision.
- Field validators whose claims follow from one branch: bootstrap, diagnostics, profile, runtime observation, resolution, templates, trial and sandbox.
- Timestamps that are stored and never read back: creation and update times of runs, consumption times of nonces, update times of journal rows.
- Python tooling under scripts/ and tools/.
