# Verification of the reconciliation engine and its services

This project models a two-sided transaction reconciliation service and proves what its users rely on. The
model has two halves.

**The engine** (`reconciliation/domain`) is modelled stage by stage, as the source runs it: reviewer
reservations and trusted references (`References`, and record by record `RecordOutcomes`), bounded blocking-pass candidate generation (`Blocking`,
`KeyOrder`, `Enumeration`, `Propagation`, `CandidateGeneration`), fixed-point scoring (`Scoring`), connected
components and optional-unmatched assignment through a padded cost matrix (`Components`, `ComponentSolver`,
`Assignment`), a counterfactual re-solve per selected edge with its acceptance gates (`Gating`), one outcome per
record (`Engine`) and read-only diagnostics under a shared edge budget (`Diagnostics`). Loops and working
dictionaries of the source are methods with invariants. Every method is proved against a declarative meaning: matchings and
their optimum (`Matchings`), reachability (`Reachability`), the naive all-pairs filter, the fate of a record.
`Acceptance`, `Conservative`, `Explanations` and `Reconciliation` then prove the results that span stages, and `ResultShape`
says what a result that passed its checks looks like.

**The services** are state machines. Each locked transaction is one step, each unlocked read followed by an
update is two, and the theorems quantify over every sequence of steps: run publication and scope freshness
(`Publication`, with the store class in `RunService`), reviewer decisions (`Resolutions`, `DecisionService`,
`RunInputs`), leased jobs and their quota (`Jobs`, `JobService`) and dataset activation (`Activation`).
`RunEffects` and `DecisionEffects` say what each transaction does in the fields of its rows.

Main results:

- For every well-formed snapshot, policy and minimal solver the engine answers exactly when the reviewer's
  relationships face the right way and the solver is the policy's. None of the many self-checks in the stages
  can fail, and every input ends in exactly one pair or one unpaired outcome.
- The padded matrix computes a maximum-utility partial matching, component by component without loss; an edge
  whose counterfactual gap is positive lies in every optimum, and with a minimum gap of at least one no
  tie-breaking of the solver can change the result.
- Bounded search is conservative end to end: it reports only pairs that the unbounded search reports, with the
  same scores and gaps, and it decides every record it does not report as computation-limited exactly as the
  unbounded search does.
- The frozen inputs decide the result: neither the order of the records nor, with a positive minimum gap, the
  solver has a part in it.
- Explanations are truthful about the records themselves, not only about the edges a bounded search retained.
- A run is published at most once, with the result on its frozen inputs, and only by the last tokened attempt to
  start it; a clean scope's current run matches the present state of the book, and any activation, policy or
  decision change leaves every run frozen before it out of date.
- Active claims are exactly the endpoints of active reserving decisions; run inputs built from them are accepted
  by the engine exactly when no pair is rejected twice.
- Job tokens are fenced, retries are bounded, the active-job counter is the number of open items.
- Dataset revisions form one chain whose memberships are folds of the activated rows.

Modelling choices. Identities stand for texts or UUIDs numbered in their sort order. Digests, state hashes,
component ids and partition ids are represented by what they cover. Scores and quantities are exact rationals, and
rounding to basis points is explicit. The solver is any function from cost matrices to selections; theorems
about results assume that it returns a minimum-cost row-perfect selection, and such a solver is proved to exist.
Collections the source sorts before storing are sets, maps or unsorted sequences wherever their order decides nothing.

Findings where the code differs from what one might expect:

- The algorithm document (`docs/04-reconciliation-algorithm.md:110`) rounds the total score once, while the code
  rounds each feature. The model follows the code; the two differ by at most two basis points
  (`Scoring.SeparateVersusSingleRounding`).
- A publication attempt without a token is not fenced: `Publication.UntokenedAttemptIsNotFenced` exhibits one that
  publishes although a tokened attempt has started the run since, and `Publication.PublishesIffLastStarter` gives
  the exact condition.
- The service commits two active rejections of one pair, and the engine's constructor then refuses the inputs of
  every run that observes both records (`RunInputs.DuplicateRejectionsCommit`). `RunInputs.InputsAreValidIff`
  proves that this is the only way such inputs can be refused.
- Publication compares six values, of which two decide: `Publication.TwoGenerationsDecideFreshness`.

## Model

| member | source | states |
|---|---|---|
| References.PreprocessReferences | reconciliation/domain/references.py:133-292 | Wrongly oriented relationships are refused; otherwise every record of either side has exactly the outcome its declarative fate names, inputs split into paired, ended and remaining, and the reported conflicts are exactly the references several still open records carry, with all of them |
| References.ExcludeCancelled | reconciliation/domain/references.py:153-167 | Exactly the cancelled records end, with the cancelled reason; all others stay available |
| References.ApplyManualLinks | reconciliation/domain/references.py:169-194 | A link whose two ends are available becomes a manual pair; one available end needs attention and names its partner; nothing else changes |
| References.ReserveSingles | reconciliation/domain/references.py:196-217 | Exactly the named available records are reserved, with the given reason |
| References.ReferenceIndex | reconciliation/domain/references.py:356-369 | Each key holds exactly the available records that carry it as their trusted reference |
| References.ResolveConflicts | reconciliation/domain/references.py:237-264 | Every carrier of a repeated reference ends as a duplicate, related to all carriers on both sides, and exactly the repeated references are listed, whatever the order of keys |
| References.EstablishPairs | reconciliation/domain/references.py:266-281 | Exactly the unprohibited one-to-one references become authoritative pairs |
| References.FateHolds | reconciliation/domain/references.py:146-292 | After all phases a record's place is the one its fate, defined without any phase, names |
| References.FatesPartition | reconciliation/domain/references.py:57-131 | One fate per record makes pairs, outcomes and remaining records a partition of each side's inputs |
| RecordOutcomes.CancelledOutcome | reconciliation/domain/references.py:153-167 | A record ends as excluded exactly when its own state is cancelled |
| RecordOutcomes.LinkOutcome | reconciliation/domain/references.py:169-194 | A record that is not cancelled is paired by a manual link exactly with a linked record that is not cancelled either, and needs attention exactly when the linked one is missing or cancelled |
| RecordOutcomes.ReservedOutcome | reconciliation/domain/references.py:196-217 | A record ends as accepted or reserved exactly when a reviewer named it so, no link holds it and it is not cancelled; acceptance comes first |
| RecordOutcomes.DuplicateOutcome | reconciliation/domain/references.py:237-264 | A record ends as a duplicate exactly when it is open and several open records of a side carry its trusted reference, which is the reference under the one contract and the alias under the other; it then names all of them |
| RecordOutcomes.ReferenceOutcome | reconciliation/domain/references.py:266-281 | Two records are paired by reference exactly when they are the only open carriers of one trusted reference and no reviewer rejected the two |
| RecordOutcomes.RemainingOutcome | reconciliation/domain/references.py:283-292 | What goes on to matching is exactly the open records whose trusted reference, if any, is neither repeated nor makes a pair |
| RecordOutcomes.PlacedOnce | reconciliation/domain/references.py:57-131 | Every input record is in a pair, ended or waiting, in exactly one of the three, and nothing else is |
| RecordOutcomes.IndexHolds | reconciliation/domain/references.py:356-369 | An index holds under each reference exactly the records with that field value under the contract |
| RecordOutcomes.ConflictsReported | reconciliation/domain/references.py:237-264 | The reported conflicts are exactly the repeated references, with the open carriers of either side |
| RecordOutcomes.OrientationMeans | reconciliation/domain/references.py:295-309 | Decisions face the right way exactly when no relationship starts at a right record or ends at a left one |
| RecordOutcomes.ProhibitionsMean | reconciliation/domain/references.py:219-228 | Matching is prohibited exactly between the two records of a rejected relationship when both are in the run |
| Blocking.GroupRecords | reconciliation/domain/candidates.py:238-273 | Groups are exactly the records with a common key of the pass, each once, by time and then identity |
| Blocking.GroupedMeans | reconciliation/domain/candidates.py:238-273 | Two records share a group exactly when both have every field the pass requires, its window included, with equal instrument, side, currency and alias where required |
| Blocking.GroupOrder | reconciliation/domain/candidates.py:261-270 | Inside a group, time comes first and identity breaks ties; without a window identity alone decides |
| Blocking.AdmitsMeans | reconciliation/domain/candidates.py:147-205 | A pass lets two records meet exactly when they agree on every field it requires and, with a window, their times are at most the window apart |
| Blocking.OrderIsUnique | reconciliation/domain/candidates.py:261-270 | Time and identity leave one order of a group only, so the order of the inputs has no part in it |
| Blocking.WindowIsInWindow | reconciliation/domain/candidates.py:172-182 | Bisection over a time-ordered group selects exactly the records inside the window, each once |
| KeyOrder.KeyTextDecides | reconciliation/domain/candidates.py:285-286 | Different keys have different JSON texts, escapes included, so the text order of keys is total |
| KeyOrder.SortedKeysAre | reconciliation/domain/candidates.py:151-151 | Keys are visited once each, in ascending order of their JSON text |
| KeyOrder.KeyTextIs | reconciliation/domain/candidates.py:285-286 | A key's text lists its instrument, side, currency and alias in this order, between brackets and commas |
| KeyOrder.EscapesAre | reconciliation/domain/candidates.py:285-286 | Quotes and backslashes follow a backslash, five control characters have their letter, the others four hexadecimal digits, and everything else stands for itself |
| KeyOrder.OrderIsAlphabetical | reconciliation/domain/candidates.py:151-151 | Texts are ordered by the first character in which they differ, a prefix first |
| Enumeration.EnumeratePartition | reconciliation/domain/candidates.py:171-205 | Caps and degree counters hold; without a limit every permitted pair in a window is retained and their number is the count; with one such a pair was refused at its cap; nothing else is added |
| Enumeration.RefusalStays | reconciliation/domain/candidates.py:187-200 | A pair refused at a cap is never retained later, because no cap is exceeded |
| Propagation.PropagateIncomplete | reconciliation/domain/candidates.py:299-321 | Incomplete partitions become exactly those linked to a tripped one by a chain of shared records |
| Propagation.ClosureSeparates | reconciliation/domain/candidates.py:299-321 | After propagation no incomplete partition shares a record with a complete one |
| CandidateGeneration.GenerateCandidates | reconciliation/domain/candidates.py:126-235 | Degree and run caps hold, every reason is justified by a pass that admits the pair, complete partitions are covered and counted, a limit names a pair really refused at a cap, limited records are the closure of tripped partitions; the generation is a function of the records, rejections, passes and caps; with distinct pass versions it cannot fail |
| CandidateGeneration.GroupedTogetherLimitedTogether | reconciliation/domain/candidates.py:206-235 | Two records a pass groups together are both limited or both not |
| CandidateGeneration.EdgeEndsLimitedTogether | reconciliation/domain/candidates.py:206-235 | The endpoints of a retained edge are both limited or both not |
| CandidateGeneration.UnlimitedIsNaive | reconciliation/domain/candidates.py:147-205 | Every retained reason is one the naive all-pairs filter keeps, and next to an unlimited record nothing the filter keeps is missing |
| CandidateGeneration.ReasonsMean | reconciliation/domain/candidates.py:126-235 | In record fields: a retained reason names a pass whose required fields are present and equal on both records and whose window holds them, and the pair is not prohibited; next to an unlimited record the converse holds too |
| Reconciliation.RoomyCapsNeverTrip | reconciliation/domain/candidates.py:187-200 | When the naive pairs fit the generation caps, no record is limited |
| Reconciliation.RoomyRunIsUnbounded | reconciliation/domain/assignment.py:174-210 | When besides the above-floor graph fits the component caps, no cap of the run trips at all |
| Reconciliation.CompleteIffNothingRefused | reconciliation/domain/candidates.py:218-235 | A generation is complete exactly when it retained every pair the naive filter keeps |
| Scoring.RoundsToNearestEven | reconciliation/domain/scoring.py:231-236 | Rounding gives the one integer nearest to the value, the even one on a tie |
| Scoring.ScoreCandidate | reconciliation/domain/scoring.py:75-125 | Scoring a pair yields the evidence defined feature by feature, with its contradictions and coverage failures |
| Scoring.EvidenceMeansTheFields | reconciliation/domain/scoring.py:128-295 | In record fields and policy numbers: each feature compares its own field under its own band, the least number at least the absolute band and the relative band times either value; its factor is one at equal values, falls linearly to zero at the band, and is rounded half-even on both scales; contradictions, coverage and the sum likewise |
| Scoring.EvidenceIsInRange | reconciliation/domain/scoring.py:111-125 | Similarities, contributions and weights stay within their scales, and a missing value contributes nothing |
| Scoring.Contradictions | reconciliation/domain/scoring.py:247-273 | Exactly the hard contradictions that hold between the two records |
| Scoring.CoverageFailures | reconciliation/domain/scoring.py:275-295 | Exactly the coverage requirements the two records miss |
| Scoring.ScoreIsValidAndClose | reconciliation/domain/scoring.py:111-125 | No evidence check can fail, the score is within its scale, and four roundings move it at most two basis points off the exact value |
| Scoring.SeparateVersusSingleRounding | reconciliation/domain/scoring.py:155-235 | Rounding each feature stays within two basis points of rounding the total once |
| Scoring.ContributionNonIncreasing | reconciliation/domain/scoring.py:225-235 | For a fixed band a larger difference never contributes more |
| Scoring.ScoreSymmetric | reconciliation/domain/scoring.py:75-125 | Swapping the two records changes neither score nor contradictions nor coverage |
| Components.ConnectedComponents | reconciliation/domain/assignment.py:249-282 | The search terminates and its components are the reachability classes: edges share one exactly when a chain of touching edges joins them |
| ComponentSolver.MinimalSolverExists | reconciliation/domain/assignment.py:23-29 | The solver contract, a minimum-cost row-perfect selection for every matrix, can be met |
| ComponentSolver.AcceptedIffRowPerfect | reconciliation/domain/assignment.py:338-348 | The selection checks pass exactly for one column per row without repetition and in range, in any order |
| ComponentSolver.RefusedSelections | reconciliation/domain/assignment.py:338-348 | A wrong count is reported first, then repeated or missing rows and columns, then a column out of range |
| ComponentSolver.ForbiddenNeverPaid | reconciliation/domain/assignment.py:294-335 | A minimum-cost selection never pays the forbidden cost |
| ComponentSolver.MinimalPicksOptimum | reconciliation/domain/assignment.py:294-335 | The real columns of a minimum-cost selection form a matching of maximum utility, and its cost is minus that utility |
| ComponentSolver.OptimumIsMinimal | reconciliation/domain/assignment.py:294-335 | Conversely every maximum-utility matching is the pick of some minimum-cost selection |
| ComponentSolver.CostMatrix | reconciliation/domain/assignment.py:295-309 | The loop builds the padded matrix: what a score lacks to the floor, 10001 for every row and one more for what is not permitted, and free dummy columns |
| ComponentSolver.SolveComponent | reconciliation/domain/assignment.py:285-335 | The selection is the solver's pick, and with a minimal solver no error branch is taken |
| ComponentSolver.SolvedComponentIsOptimal | reconciliation/domain/assignment.py:285-335 | With a minimal solver the selection is a maximum-utility matching of the allowed edges, one-to-one, with the utilities and scores of its candidates |
| Matchings.PositiveGapIffInEveryOptimum | reconciliation/domain/gating.py:131-177 | An edge's gap is positive exactly when every maximum-utility matching uses it |
| Matchings.GapBounds | reconciliation/domain/gating.py:155-160 | A gap lies between zero and the edge's own utility |
| Matchings.GapIsLocal | reconciliation/domain/gating.py:131-160 | The gap inside a component is the gap over the whole graph |
| Matchings.OptimalJoins | reconciliation/domain/assignment.py:168-246 | Optimal on a closed part and on the rest is optimal on the whole |
| Assignment.SolveAssignment | reconciliation/domain/assignment.py:150-246 | Version and coverage errors as checked; otherwise components partition the above-floor edges by reachability, each solved or limited as its caps say, and with a minimal solver no other check fails |
| Assignment.LimitsAre | reconciliation/domain/assignment.py:186-210 | A component is solved exactly when none of its records or edges was cut short, its endpoints are within the node cap and its edges within the edge cap; otherwise the first of these three that fails is its reason, and nothing is selected |
| ResultShape.AssignedShape | reconciliation/domain/assignment.py:66-108 | Every component has members on both sides without repetition, selects one-to-one between them with utilities adding up to its optimum, and selects nothing when limited |
| ResultShape.AssignmentMeans | reconciliation/domain/assignment.py:111-147 | The selection of an assignment is that of its components, one-to-one over all of them; its limited records are those it was given and the members of limited components |
| Assignment.ClassIsInside | reconciliation/domain/assignment.py:168-185 | A component's edges are recovered exactly from its endpoints |
| Assignment.ComponentsApart | reconciliation/domain/assignment.py:111-147 | Selections of different components never share an endpoint |
| Gating.GateReasons | reconciliation/domain/gating.py:208-225 | Exactly the gates that fail withhold a proposal |
| Gating.NoReasonIffPasses | reconciliation/domain/gating.py:161-177 | A proposal is accepted exactly when every gate passes |
| Gating.CounterfactualIsBest | reconciliation/domain/gating.py:136-160 | The counterfactual objective is the optimum of the component without the edge |
| Gating.GateAssignment | reconciliation/domain/gating.py:73-206 | Every selected edge gets its proposal with counterfactual, gap and reasons; whatever the assignment, an answer means that every component is the present graph between its endpoints and that they split the above-floor candidates; on assignments of a minimal solver no check fails |
| ResultShape.GatedMeans | reconciliation/domain/gating.py:33-71 | The proposals are those of the components, the accepted ones exactly the accepted among them, and no record is in two accepted ones |
| ResultShape.ProposalsMean | reconciliation/domain/reconciliation.py:622-690 | A proposal is accepted exactly when nothing withholds it, its gap is what its component loses without it, and it lies between the component's endpoints |
| Acceptance.AllCompleteIsGlobalOptimum | reconciliation/domain/assignment.py:168-246 | When every component is complete, the union of selections is one-to-one and of maximum utility over the whole above-floor graph |
| Acceptance.ProposalGap | reconciliation/domain/gating.py:131-177 | A proposal's gap is the gap over the whole graph and lies between zero and the edge's utility |
| Acceptance.AcceptedIsDecisive | reconciliation/domain/gating.py:131-177 | Every accepted proposal is decisive on the whole graph, with the decisive score, counterfactual and gap, for every minimum gap |
| Acceptance.AcceptedIffDecisive | reconciliation/domain/gating.py:131-177 | With a minimum gap of at least one, accepted and decisive coincide and the edge is in every optimum |
| Acceptance.AcceptanceIsSolverIndependent | reconciliation/domain/gating.py:131-177 | Two minimal solvers accept the same proposals, however they break ties |
| Acceptance.LimitedIffStarved | reconciliation/domain/assignment.py:174-246 | The limited records are those the generation left incomplete and those with an edge in a component that may not be searched |
| Conservative.BoundedAcceptanceIsConservative | reconciliation/domain/assignment.py:174-210 | A proposal accepted under any caps is accepted unchanged when no cap trips, for every minimum gap, zero included |
| Conservative.UnlimitedAcceptanceIsComplete | reconciliation/domain/assignment.py:174-210 | For an unlimited record the bounded run accepts whatever the unbounded one accepts |
| Conservative.AcceptanceIsDetermined | reconciliation/domain/gating.py:131-177 | With one solver the candidates decide what is accepted, for every minimum gap |
| Engine.ScoreCandidates | reconciliation/domain/scoring.py:41-72 | Every retained edge is scored once, on the records it names |
| Engine.Prepare | reconciliation/domain/engine.py:47-57 | Reservation, generation and scoring succeed for correctly oriented decisions and distinct pass versions |
| Engine.Allocate | reconciliation/domain/engine.py:58-69 | Assignment and gating fail only on a solver version mismatch, given a minimal solver |
| Engine.Conclude | reconciliation/domain/engine.py:71-124 | Pairs are the earlier pairs followed by the accepted ones; every remaining unpaired record gets its explanation |
| Engine.ReconcilePrimary | reconciliation/domain/engine.py:37-137 | With a minimal solver and distinct pass versions the engine answers exactly for oriented decisions and the policy's solver |
| Engine.SideOutcome | reconciliation/domain/engine.py:98-124 | Each input of a side ends in exactly one pair or one unpaired outcome |
| Engine.WeightedAreAccepted | reconciliation/domain/reconciliation.py:814-921 | Weighted pairs are exactly the accepted proposals of the components |
| Engine.RunIsPrimaryValid | reconciliation/domain/reconciliation.py:814-921 | No check of the result constructor can fail on a run of the stages |
| ResultShape.ResultMeans | reconciliation/domain/reconciliation.py:814-921 | The result constructor accepts exactly the results in which every input is paired or ended but not both, nobody is paired twice, only weighted pairs carry a score and a gap, and the weighted pairs are the accepted proposals |
| ResultShape.DiagnosticsMean | reconciliation/domain/reconciliation.py:843-915 | It accepts exactly the diagnostics that name inputs, carry a candidate where their kind needs one, allocate it only to pairs of the result, and never repeat |
| Explanations.RetainedIffAdmissible | reconciliation/domain/candidates.py:147-205 | Around an unlimited record the retained edges are exactly its admissible counterparts |
| Explanations.ExplanationIsTruthful | reconciliation/domain/engine.py:195-266 | Each automatic reason holds exactly when its meaning does: limited search, nobody admitted, all prohibited or contradictory, all at or below the floor, or ambiguity |
| Explanations.LimitedExplanation | reconciliation/domain/engine.py:195-224 | A computation-limited record names exactly the counterparts of the edges retained for it and of those a reviewer rejected |
| Explanations.AutomaticMeansOpen | reconciliation/domain/engine.py:98-124 | Automatic reasons are given only to records no earlier phase decided |
| Diagnostics.Report | reconciliation/domain/diagnostics.py:88-116 | Exactly the edges that pass the record-level gates are reported, each once, with the candidate's current pair |
| Diagnostics.DiagnoseOne | reconciliation/domain/diagnostics.py:64-125 | Reported candidates qualify; without a warning every qualifying counterpart is reported; a warning says exactly that the search was cut short or had no budget; what it used is what it retained |
| Diagnostics.Diagnose | reconciliation/domain/diagnostics.py:26-127 | Every accepted eligible record was searched within what its predecessors left of the run edge cap and has such an account; no diagnostic repeats, and all retained edges together stay within the cap |
| Diagnostics.Reconcile | reconciliation/domain/engine.py:37-144 | The complete reconciliation answers exactly under the same condition, its diagnostics pass their checks and change nothing else in the result |
| Reconciliation.PreprocessingIsDetermined | reconciliation/domain/references.py:133-292 | Two preprocessings of the same inputs agree on everything but the order of their lists |
| Reconciliation.GenerationsAgree | reconciliation/domain/candidates.py:126-235 | Bounded and unlimited generation give the same scored evidence next to unlimited records, and limited records only meet limited ones |
| Reconciliation.GenerationIsDetermined | reconciliation/domain/candidates.py:126-235 | Two runs on one snapshot, decisions and policy generate the same edges, partitions and limited records |
| Reconciliation.BoundedRunIsConservative | reconciliation/domain/engine.py:37-144 | Every pair of a bounded reconciliation is in the unbounded one with the same origin, score and gap |
| Reconciliation.UnlimitedRecordsAreDecidedAlike | reconciliation/domain/engine.py:37-144 | A record not reported as limited has the same pair or explanation as in the unbounded reconciliation |
| Reconciliation.ReconciliationIsSolverIndependent | reconciliation/domain/engine.py:37-144 | With a minimum gap of at least one, two minimal solvers give the same evidence, limited records, pairs and explanations |
| Reconciliation.FrozenInputsDecideResult | reconciliation/domain/engine.py:37-144 | With one solver, snapshot, decisions and policy decide evidence, limited records, pairs and explanations, for every minimum gap, zero included |
| Publication.PublishedAtMostOnce | reconciliation/services.py:339-464 | In every interleaving a run is published at most once, is completed exactly when published, and holds the result on its frozen inputs |
| Publication.CompletedIsAbsorbing | reconciliation/models.py:147-182 | Completed rows never change again and no run is lost or re-frozen, whatever happens next |
| Publication.PublishesIffLastStarter | reconciliation/services.py:257-292 | A computed attempt can publish exactly when the run is running and the attempt is untokened or the last to have started it |
| Publication.FailsOnlyLastStarter | reconciliation/services.py:282-292 | A tokened attempt marks a run failed exactly when it is running and that attempt started it last |
| Publication.UntokenedAttemptIsNotFenced | reconciliation/services.py:253-278 | A reachable run in which an untokened attempt can publish although another has started the run since |
| Publication.CleanMeansPresent | books/scopes.py:148-210 | A scope is clean exactly when its current run is of its own generation, and then that run matches present revisions, policy, decisions and resolution generation |
| Publication.TwoGenerationsDecideFreshness | reconciliation/services.py:412-423 | Once scope and data generation agree, revisions, policy and resolution generation agree too |
| Publication.CurrentNeverGoesBack | reconciliation/services.py:424-464 | A scope's current run changes only to one published while up to date, and its scope generation never decreases |
| Publication.StalePublicationTouchesNoScope | reconciliation/services.py:424-464 | In every interleaving, a step that leaves a run stale leaves every scope as it was, and the run was no longer up to date |
| RunEffects.ChangesOutdateRuns | books/scopes.py:129-210 | In every interleaving, after an activation, a new policy or a decision change no run frozen before is up to date any more, whatever its scope |
| RunEffects.ChangesReachTheNextRun | reconciliation/services.py:109-242 | The next run of a scope freezes the new policy, decisions or head revision |
| RunEffects.CreateRunMeans | reconciliation/services.py:109-242 | The manifest of a new run names the present heads, last policy, decisions and generations, and is frozen only once |
| RunEffects.ContextMeans | reconciliation/workbench.py:122-192 | With heads on both sides the scope exists afterwards; a first policy raises this scope only |
| RunEffects.PublishMeans | reconciliation/services.py:339-464 | A running run is completed by the token it carries, or by none, with the result on its manifest; it becomes current and cleans its scope exactly when its manifest names what is present |
| RunEffects.StepMeans | reconciliation/services.py:245-292 | Every event of the interleavings is one of these transactions, or one move of an attempt: refused at its first read, starting its run, computing on what the run froze, publishing, or failing and updating after it |
| RunEffects.RowsFitTheirLifecycle | reconciliation/models.py:147-182 | In every interleaving a run has a result, a completion time and a freshness exactly when completed, a failure exactly when failed, and a token only while it runs |
| RunService.RunStore.CreateRunManifest | reconciliation/services.py:109-242 | A missing head or policy gives nothing; an unchanged manifest gives the existing run; otherwise a frozen run of the present state |
| RunService.RunStore.ClaimRun | reconciliation/services.py:257-278 | A tokened attempt takes any run without a result, an untokened one only a frozen or failed run, and never a completed one; nothing else changes |
| RunService.RunStore.PublishRun | reconciliation/services.py:339-464 | Publication is refused for runs not running, fenced tokens and foreign results; otherwise the row completes, and its scope becomes clean only if it is up to date |
| RunService.RunStore.FailRun | reconciliation/services.py:282-291 | The failure update reaches only a running run with this token |
| RunService.RunStore.ActivateDataset | books/scopes.py:194-210 | The revision becomes the dataset's head, the book's generation advances, and exactly the scopes over that dataset are dirtied |
| RunService.RunStore.CreatePolicyRevision | books/scopes.py:129-180 | A stale generation conflicts, an existing digest changes nothing; otherwise the policy becomes the last one, which the next runs freeze, and every scope is dirtied |
| RunService.RunStore.EnsureRunContext | reconciliation/workbench.py:122-192 | The default scope exists afterwards and a first policy dirties that scope alone |
| RunService.RunStore.CommitDecisions | resolutions/services.py:150-155 | The resolution generation advances and every scope is dirtied |
| Resolutions.ClaimsAreExactlyAuthority | resolutions/services.py:108-156 | In every reachable book the claims are exactly the endpoints of current, reserving, unrevoked, unsuperseded revisions, each claimed once, and no claim insert can be refused |
| DecisionEffects.ClaimsAreHoldings | resolutions/services.py:108-156 | In every reachable book a claim is there exactly when its revision is its decision's last, neither revoked nor superseded, and links or accepts that endpoint |
| DecisionEffects.ReviewsIs | resolutions/services.py:475-502 | Evidence resolves exactly when every endpoint has a reviewed observation of its own and no reviewed observation shows anything else |
| DecisionEffects.EstablishMeans | resolutions/services.py:74-156 | Stale generation, missing or misplaced endpoints or evidence, and contested endpoints are refused in this order; otherwise the decision, its first revision and one claim for each held endpoint are added and nothing else changes |
| DecisionEffects.ChangeMeans | resolutions/services.py:189-336 | The refusals in their order, and for each action the rows it adds, the claims it moves, drops or passes on, and what it supersedes |
| Resolutions.SupersedingFrees | resolutions/services.py:276-336 | After superseding the target and every conflicting revision, no endpoint of the replacement is claimed |
| Resolutions.RevisionsFormAChain | resolutions/services.py:587-666 | A decision's revisions are numbered 1 to n without gap or repetition, each naming the one before, ending at the current one |
| Resolutions.ChangesBumpByOne | resolutions/services.py:150-155 | Decision state changes only together with a one-step bump of the resolution generation |
| Resolutions.PreviewedReplacementCommitsIffUnchanged | resolutions/services.py:158-187 | A replacement built from a preview of separate unlocked reads commits exactly when the generation is still the previewed one, if its reviewed observations resolve |
| RunInputs.BuildDecisionInputs | reconciliation/services.py:519-545 | The loop yields each active revision's contribution: link, one-sided reservation, accepted record or rejection |
| RunInputs.InputsAreValidIff | reconciliation/domain/reconciliation.py:286-307 | Inputs built for a run pass the constructor's checks exactly when no pair of observed records is rejected twice |
| RunInputs.InputsAreOriented | reconciliation/domain/references.py:295-309 | Inputs built by the service are never refused for facing the wrong way |
| RunInputs.DuplicateRejectionsCommit | resolutions/services.py:504-512 | The service commits a second active rejection of a pair, and the next run's inputs are refused |
| DecisionService.DecisionStore.ClaimConflicts | resolutions/services.py:533-584 | The loop finds exactly the other decisions' revisions that claim an endpoint |
| DecisionService.DecisionStore.InsertClaims | resolutions/services.py:131-149 | Row by row, an insert is refused exactly when an endpoint is already claimed, and then nothing stays inserted |
| DecisionService.DecisionStore.CommitInitial | resolutions/services.py:74-156 | The response is the one its checks name in order, only a commit changes the book, and the claim invariant is kept |
| DecisionService.DecisionStore.PreviewReplacement | resolutions/services.py:158-187 | A preview exists exactly for an active current target and a resolvable authority, and lists its conflicts |
| DecisionService.DecisionStore.CommitChange | resolutions/services.py:189-336 | Reaffirmation moves claims, revocation drops them, replacement passes them on; every refusal leaves the book unchanged |
| Jobs.CounterIsOpenWork | workspaces/quotas.py:39-68 | In every interleaving the active-job counter is the number of ready or leased items, within the limit, and at least one while a token is live, so that in an active workspace a live completion can always release |
| Jobs.OneLiveToken | jobs/services.py:95-114 | An item has at most one live token, and its holder's attempt count is the stored one |
| Jobs.FencedCompletionChangesNothing | jobs/services.py:159-223 | Completing with a superseded token leaves items, quota and retries as they were |
| Jobs.OverIsAbsorbing | jobs/services.py:56-59 | Succeeded and failed items never change again |
| Jobs.RetriesAreBounded | reconciliation/domain/jobs.py:112-131 | At most one failure fewer than the maximum returns an item to the queue, and the k-th failed attempt waits the k-th number of the series that starts at the base delay and doubles |
| Jobs.FailureMeans | jobs/services.py:185-223 | A transient failure below the maximum always returns the item to the queue, after the base delay doubled for each earlier attempt; a permanent or last one always ends it and gives its job back; a superseded token changes only its attempt |
| Jobs.LeasesAreShaped | jobs/services.py:95-114 | In every interleaving an item has a lease and a token exactly while it is leased |
| JobService.JobStore.ReserveJob | workspaces/quotas.py:39-50 | A job is reserved exactly in an active workspace in which every resource then stays within its limit |
| JobService.JobStore.ReleaseJob | workspaces/quotas.py:52-68 | A release is refused exactly for an inactive workspace or a counter at zero |
| JobService.JobStore.EnqueueWork | jobs/services.py:62-92 | A target's existing item is reused without reserving; a refused reservation creates nothing |
| JobService.JobStore.Candidates | jobs/services.py:117-137 | The batch holds the claimable items of the kind that became available earliest, and passes over none |
| JobService.JobStore.ClaimBatch | jobs/services.py:117-137 | Every candidate is leased with its own new token and one more attempt |
| JobService.JobStore.MarkSucceeded | jobs/services.py:159-182 | Success is recorded exactly for the live token of an active workspace; a superseded token only marks its attempt, and a refused release undoes everything |
| JobService.JobStore.MarkFailed | jobs/services.py:185-223 | A live failure retries or gives up as the policy decides, and is refused exactly when it gives up and cannot release |
| JobService.JobStore.ClaimAndExecute | jobs/services.py:226-300 | With any transactions of others between its items, a worker cycle either resolves every claim it made or ends at a live claim whose release is refused; all of it is one sequence of events, so every theorem about runs covers it |
| Activation.RevisionsFormOneChain | ingestion/activation.py:84-292 | Revisions form one parent chain ending at the head; each membership is the fold of the activated snapshots and deltas, with the hash of exactly that membership |
| Activation.RepeatedStateIsJustified | ingestion/activation.py:167-186 | Adjacent revisions never hold the same state, and a return to an older one carries a nonblank reason |
| Activation.FoldAt | ingestion/activation.py:117-165 | The last row that names a key decides it: present with that row's observation unless it retracts |
| Activation.FoldElsewhere | ingestion/activation.py:103-116 | Keys no row names keep what the base held |
| Activation.AnswerIs | ingestion/activation.py:70-312 | In the reason, the rows and the revisions alone: which attempts are refused and with what answer; what membership the rows propose; and that the head's own state is no change, an older state without a reason a replay, and anything else the new head |
| Activation.SnapshotHoldsItsRows | ingestion/activation.py:99-279 | A revision created from a full snapshot has exactly the keys of its rows |
| Activation.ResolveRows | ingestion/activation.py:99-165 | Evidence is refused exactly when some row is unsound; otherwise the working map agrees with the fold |
| Activation.BindObservations | ingestion/activation.py:227-279 | Every key that waits is bound to the observation made for it, so the stored membership is the whole fold |
| Activation.DatasetStore.Activate | ingestion/activation.py:70-292 | The response is the one its checks name in order, only a created revision moves the head, and the chain invariant is kept |
| Activation.StripOfBlank | ingestion/activation.py:304-312 | A reason is blank exactly when it consists of spaces |

## Left out

- SciPy's assignment algorithm: only the contract "minimum-cost row-perfect selection" is used, on every matrix with at least as many columns as rows.
- Digests, the JSON they cover and truncated hash ids: represented by their content, so collisions cannot occur.
- Decimal precision: quantities and similarities are exact rationals; the decimal context's rounding of quotients is not modelled.
- Canonical order of result tuples: pairs keep the order in which they are made and candidates are a map keyed by edge, so the checks for duplicate candidates cannot be stated; reference keys are visited in an arbitrary order, and every result holds for all orders.
- Reconciliation.BoundedRunIsConservative: compares with a run in which no cap trips, because raising one cap alone can use up another earlier.
- Explanations.LimitedExplanation: names the edges the bounded search retained; which of the admissible ones those are depends on the order of enumeration.
- Field comparison, explanation texts, progress counters, versions copied into the result, health labels, cases, exports and pagination.
- Wall-clock and lease times are parameters of the steps; executor work, database errors and crashes appear as steps that fail or never happen.
- Publication.PublishesIffLastStarter: persisting result rows, decision health and cases is part of the one publication step; a failure inside it is a failing step.
- Publication.CleanMeansPresent: dataset revisions, policies and decision sets are opaque keys here; their own machines are modelled apart.
- DecisionService.DecisionStore.PreviewReplacement: reads one state; previews whose reads see different states are covered by Resolutions.PreviewedReplacementCommitsIffUnchanged.
- Reasons, actors and evidence digests of decisions.
- Resolutions.ClaimsAreExactlyAuthority: one book; other books have their own claims table rows.
- Workspace cleanup items, book deletion and creation of work outside the quota; the crash between reserving a job and creating its item.
- JobService.JobStore.ClaimAndExecute: the variant for one item by id (its claim is JobStore.ClaimOne) and the execution records returned to the caller are not part of it; items are never deleted here, so an attempt that has vanished cannot occur; skip-locked concurrency appears as the interleaving of claim steps.
- Activation.DatasetStore.Activate: workspace lifecycle checks and the insert of missing logical identities, which stand here for their source keys; the key a row resolves and the source key of the observation stored for it are one key here, while the source takes the latter from the row's canonical record; the closing call that dirties scopes is RunService.RunStore.ActivateDataset.
- RunService.RunStore.CreateRunManifest: the work item enqueued with a new run and the engine and schema versions of the manifest.
- Scoring.ScoreCandidate: the raw values, differences, bands and rule texts copied into the evidence.
