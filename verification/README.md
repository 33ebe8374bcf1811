# Decision engine verification

A Dafny model of the incident decision engine and of the rule store behind it, with proofs about all inputs, all
rule packs and all runs. `dafny verify dfyconfig.toml` checks everything.

The model has four parts.

- **Decision pipeline.** `Engine` is the JsonLogic-style evaluator with its operators, missing paths and the
  `ValueError` outcome; `EngineLaws` and `Operators` say what its operators satisfy and what each gives on plain
  operands. `Policy` splits the active rules into matched and rejected; `Matching` says which ones match. `Resolver` is
  the conflict resolver, first as declarative functions and then as the loops of the source, each loop proved equal to
  its function; `Contests` says who decides a contested field. `Pipeline` adds the compliance pass, SLA matrix, risk
  score and execution plan; `Pipeline.Run` is the whole decision, `Pipeline.RunPipeline` its imperative form.
  `Outcomes`, `Suppression`, `Ordering`, `Reordering`, `Merging` and `Snapshot` prove what decisions mean and when they
  stay the same; `Witnesses` holds packs and incidents at which they do not.
- **Transpilers.** `Transpilers` holds the three small compilers into the tree language (prefix stripping, VAST
  `when` blocks, SLA condition lists) with their meaning preservation; `Authoring` says what each operator name and
  formula compiles to; `RulePacks` are the loaders that use them.
- **Rule-pack lifecycle.** `Store` gives each repository operation as a function on the dictionary's slots in insertion
  order; `Lifecycle` each use case as a step; `Repository` the mutable repository and the use cases, proved equal to
  those steps. `Effects` and `RuleEdits` say when a step succeeds and what it leaves, field by field.
  `LifecycleTheorems`, `Vetting` and `Lineage` are about every run from the empty store; `LifecycleWitnesses` holds
  runs that end where one would not expect.
- **Policy cache, limiter, escalation.** `Cache` is one replica's cache as a value and as classes; `CacheTheorems`
  proves availability and agreement with the store; `Staleness` bounds the age of what many replicas serve through one
  Redis; `Redis` is the two-SET pointer swap under any interleaving. `RateLimit` and `Escalation` are the fixed-window
  limiter (the 429 reply of section 4 of RFC 6585) and the escalation sweep.

## Where the code does not do what is said of it

The model follows the code. Each of these is proved with its exact condition and, unless it always happens, at an
input where it does.

- Stripping `incident.` preserves a `var` node's meaning exactly when it reads none of the paths empty, `incident` and
  `incident.` and, in list form, which the rewrite does not reach, no path under `incident.`
  (`Transpilers.StripVarNodeExact`; `Transpilers.UnstrippableDiffers` builds the payload that tells them apart).
- The order of the rule list leaks into a field exactly through a tie between writers of one family order and weight:
  two suppressors of top weight with no non-suppressible writer; or, among the writers left after the suppressor pass,
  the first ones when all agree under `==` but differ as written (1 and true); or, when they neither agree nor all
  share one conflict group, two different most severe priorities of equal rank, which then are unknown ones, two
  shortest durations spelled differently, or two different values of the heaviest writers of another field that is not
  all booleans (`OrderTheorems.OrderLeaksExactly`; `Witnesses.ListOrderDecides` is a pack and a permutation).
- The order also leaks through the compliance pass, exactly when the satisfied compliance rules that could come last
  for a field disagree about it (`ReorderingTheorems.ComplianceOrderLeaksExactly`;
  `Witnesses.ListOrderDecidesCompliance`), and into a mitigation, exactly when the rules that could come first for it
  would bring it to different values: two different truthy ones, a truthy one other than `true` and a falsy one, or two
  different falsy ones when no rule gives a boolean (`ReorderingTheorems.MitigationOrderLeaksExactly`;
  `Witnesses.ListOrderDecidesMitigation`). Without any of these ties it does not reach the decision
  (`ReorderingTheorems.TieFreeRunIgnoresOrder`).
- A suppressor reaches a shielded `slaResolutionMinutes` through the SLA matrix, exactly when the entries the two runs
  fill in leave different minutes (`SuppressionTheorems.SuppressorsCannotReach`;
  `Witnesses.SuppressorReachesThroughMatrix`), and a shielded priority through floors and bumps, exactly when those of
  all matched rules take the settled priority to another level than those of the ordinary ones
  (`SuppressionTheorems.SuppressorsCannotReachPriority`; `Witnesses.BumpReachesPriority`).
- The SLA matrix overwrites a rule's own `slaResolutionMinutes` when no rule sets `targetSLA`
  (`OutcomeTheorems.MatrixFillsIn`; `Witnesses.MatrixOverwritesARule`).
- The update use case passes on any field of a draft, although the HTTP route sends only name, region and tenant
  (app/interfaces/api/rule_pack_router.py:95-99). An update keeps what every step should keep exactly when it leaves
  name, version, id and parent alone, the lock version does not come out lower, and no second version of the name
  becomes active (`LifecycleTheorems.UpdateIsGoodExactly`); renaming, which the route allows, leaves a draft that cannot
  be activated (`LifecycleWitnesses.RenamedDraftCannotBeActivated`). A second call with the lock version that an
  update passed is turned away exactly when the update did not set the lock back by one (`Store.LostUpdateExactly`;
  `LifecycleWitnesses.SettingTheLockLosesAnUpdate`). Of the use cases that publish no event, seeding apart, exactly
  an update that sets the status to active changes the active pack (`CacheTheorems.QuietKeepsActive`;
  `LifecycleWitnesses.UpdateActivatesQuietly`).
- A rollback can make an unvalidated pack active, even a draft without rules
  (`VettingTheorems.RollbackCanActivateADraft`); a step keeps every live pack validated exactly when the rules it makes
  active, or an update makes live, are valid (`VettingTheorems.VettedExactly`).
- Rolling back to a deleted parent leaves a pack active that the hot path's loader does not find
  (`CacheTheorems.RollbackVisibility`; `LifecycleWitnesses.RollbackToADeletedParent`).
- The rollback lock is checked on the version being left, whose lock version moves only if it was active, so an
  identical second rollback is refused exactly then (`LineageTheorems.RollbackGuard`;
  `LifecycleWitnesses.RollbackRepeats`).
- `RuleCache.refresh` does not raise once a pack has been loaded; it returns the last known good one and stamps it
  fresh, against its module's docstring (app/infrastructure/cache/rule_cache.py:25-28, 147-156;
  `CacheTheorems.NeverRaisesAgain`, `CacheTheorems.FailedRefreshKeepsValue`).
- Waiting exactly `Retry-After` seconds can be one second too short (`RateLimit.RetryAfterPlusOne`;
  `RateLimit.WaitingAsToldCanFail`).

## Model

| member | source | states |
|---|---|---|
| Engine.DefaultRegistry | app/engine/evaluator_factory.py:13-37 | after the registration loop every symbol finds its own operator and no other symbol finds any |
| Engine.ResolvePath | app/engine/evaluators/composite.py:11-21 | the loop over dotted segments reads what the walk along the path reads, missing steps giving null |
| EngineLaws.PathWalksItsNames | app/engine/evaluators/composite.py:11-21 | splitting a joined path gives its names back, so a dotted path reads exactly the nested value |
| EngineLaws.ComparisonsPartition | app/engine/evaluators/numeric.py:8-36 | the four comparisons are converses and complements of each other on comparable operands, and all false on missing or ill-typed ones |
| EngineLaws.MirrorOperators | app/engine/evaluators/membership.py:4-36 | `contains` is `in` with its operands swapped, and `!=` negates `==`, for all operands that evaluate |
| OperatorTheorems.ComparesInts | app/engine/evaluators/numeric.py:8-36 | on operands that evaluate to integers `>`, `<`, `>=` and `<=` answer as the integers compare |
| OperatorTheorems.ComparesReals | app/engine/evaluators/numeric.py:8-36 | likewise for floats |
| OperatorTheorems.ComparesMixed | app/engine/evaluators/numeric.py:8-36 | an integer and a float compare as numbers, in either place |
| OperatorTheorems.ComparesStrings | app/engine/evaluators/numeric.py:8-36 | texts compare by their first differing character, a proper prefix being the smaller |
| OperatorTheorems.ComparesPrefixes | app/engine/evaluators/numeric.py:8-36 | lists with the same elements until one runs out compare by length |
| OperatorTheorems.ComparesLists | app/engine/evaluators/numeric.py:8-36 | lists compare as their first differing elements do |
| OperatorTheorems.ComparesNothing | app/engine/evaluators/numeric.py:8-17 | a missing operand, operands of different kinds and dictionaries compare false with all four |
| OperatorTheorems.EqualityIs | app/engine/evaluators/boolean.py:4-23 | `==` holds of numbers of one value, equal texts, and lists and dictionaries with the same contents, never across kinds; `!=` otherwise |
| OperatorTheorems.TruthIs | app/engine/evaluators/composite.py:24-35 | null, false, zero and whatever is empty count as false, all else as true |
| OperatorTheorems.MembershipIs | app/engine/evaluators/membership.py:4-36 | `in` finds the same element in a list, a substring in a text, a key in a dictionary; `contains` is its mirror |
| OperatorTheorems.MultipliesInts | app/engine/evaluators/arithmetic.py:4-19 | `*` on integers is their product, an integer |
| OperatorTheorems.MultipliesFloats | app/engine/evaluators/arithmetic.py:4-19 | on floats the product, a float |
| OperatorTheorems.MultipliesMixed | app/engine/evaluators/arithmetic.py:4-19 | on an integer and a float, in either place, the product as a float |
| OperatorTheorems.MultipliesOthers | app/engine/evaluators/arithmetic.py:4-19 | a missing factor gives null, a text or list times an integer that many copies, and two non-numbers raise |
| OperatorTheorems.VariablesRead | app/engine/evaluators/composite.py:11-21 | a variable of one name reads that key or null; one name more reads on in what was read before, null unless that is a dictionary that has it |
| EngineLaws.AndDecidedBy | app/engine/evaluators/composite.py:24-28 | `and` is decided by its first operand that is not true, whose error it passes on; later operands do not matter |
| EngineLaws.AndOfAll | app/engine/evaluators/composite.py:24-28 | with no operand that decides, `and` is true |
| EngineLaws.OrDecidedBy | app/engine/evaluators/composite.py:31-35 | `or` is decided by its first operand that is not false, whose error it passes on |
| EngineLaws.OrOfNone | app/engine/evaluators/composite.py:31-35 | with no operand that decides, `or` is false |
| Transpilers.StripMeaning | app/infrastructure/repositories/historical_pattern_rule_pack_loader.py:90-100 | a stripped tree evaluates on the data as the original does on the data extended with `incident` bound to itself, errors included |
| Transpilers.StripVarExact | app/infrastructure/repositories/historical_pattern_rule_pack_loader.py:90-100 | for a `var` node the rewrite keeps the meaning on all data if and only if the path is not one of the three ambiguous ones |
| Transpilers.StripVarNodeExact | app/infrastructure/repositories/historical_pattern_rule_pack_loader.py:90-100 | the same for a `var` node with any argument: list form, null and the rest |
| Transpilers.StripSpecificity | app/domain/value_objects/rule_condition.py:23-34 | stripping never changes the specificity that breaks ties |
| Transpilers.StripCondition | app/infrastructure/repositories/csr_sla_rule_pack_loader.py:79-88 | the condition of a loaded rule is satisfied, or fails, as its source condition, with the same specificity |
| Transpilers.VastCompiles | app/infrastructure/repositories/vast_rule_pack_loader.py:62-77 | a `when` block compiles if and only if it has an `all` or `any` list with only supported operators |
| Transpilers.VastMeaning | app/infrastructure/repositories/vast_rule_pack_loader.py:62-77 | the compiled tree is the left-to-right conjunction, for `any` the disjunction, of the source conditions on any literals, failures included, and counts one leaf each |
| Transpilers.VastPlainMeaning | app/infrastructure/repositories/vast_rule_pack_loader.py:62-77 | with literals that are no dictionaries the tree is satisfied exactly when all, or any, of the conditions hold |
| Transpilers.SlaMeaning | app/infrastructure/repositories/sla_rule_pack_loader.py:46-70 | the compiled tree is the left-to-right AND or OR of the source conditions, formulas and their failures included, and counts one leaf each |
| Transpilers.ConnectiveUnique | app/infrastructure/repositories/sla_rule_pack_loader.py:65-70 | the left-to-right reading used to state those meanings has exactly one result |
| AuthoringTheorems.VastCompilesTo | app/infrastructure/repositories/vast_rule_pack_loader.py:62-77 | a single condition compiles to the operator its name stands for, applied to its field and literal |
| AuthoringTheorems.SlaCompilesTo | app/infrastructure/repositories/sla_rule_pack_loader.py:35-70 | likewise for the telecom SLA names |
| AuthoringTheorems.FormulaCompilesTo | app/infrastructure/repositories/sla_rule_pack_loader.py:54-60 | "<field> * <decimal>" compiles to the product of the field and the number the decimal's digits make |
| AuthoringTheorems.TheFormula | app/infrastructure/repositories/sla_rule_pack_loader.py:54-60 | "slaResponseMinutes * 0.8" names slaResponseMinutes and 0.8 |
| Policy.Evaluate | app/domain/services/policy_engine.py:15-33 | the loop returns the matched rules and rejected traces in evaluation order, or raises if some condition raises |
| Policy.MatchedOrRejected | app/domain/services/policy_engine.py:15-33 | each active rule outside compliance is matched or rejected, never both; vetoed rules never match |
| MatchingTheorems.PolicyFailsExactly | app/domain/services/policy_engine.py:15-33 | the pass raises if and only if some contesting rule's exceptions raise, or its conditions do and no exception vetoes |
| MatchingTheorems.MatchedExactly | app/domain/services/policy_engine.py:15-33 | a rule matches if and only if it is in the pack, enabled, ACTIVE and not COMPLIANCE, nothing raises, its exceptions are absent or do not evaluate to true, and its conditions do |
| MatchingTheorems.RejectedExactly | app/domain/services/policy_engine.py:24-31 | every other such rule that does not raise is traced as rejected, as vetoed if and only if its exceptions evaluate to true |
| MatchingTheorems.ComplianceHitsExactly | app/domain/services/compliance_applier.py:11-18 | the compliance rules that apply are the enabled ACTIVE ones whose conditions evaluate to true, exceptions unasked; the pass raises if and only if conditions of one raise |
| MatchingTheorems.EvaluationOrder | app/domain/entities/rule_pack.py:61-65 | rules are evaluated, match and apply by rising family order and within one by falling weight |
| MatchingTheorems.DataReads | app/domain/entities/incident.py:28-34 | trees read the payload by its own names and the enriched context below `context` |
| Rules.SortProperties | app/domain/entities/rule_pack.py:61-65 | evaluation order is a sorted permutation of the rules by family order and falling weight |
| Rules.SortStable | app/domain/entities/rule_pack.py:61-65 | rules with one sort key keep their order in the pack |
| Resolver.ApplySuppression | app/domain/services/conflict_resolver.py:60-78 | the suppressor pass leaves the declared survivors and appends one entry per loser |
| Resolver.ResolveConflictGroup | app/domain/services/conflict_resolver.py:80-90 | the weight, specificity, code cascade picks the first rule no other beats and logs all others once |
| Resolver.ApplyPriorityPostprocessing | app/domain/services/conflict_resolver.py:103-119 | the scan for floors and bumps gives the declared final priority or raises |
| Resolver.MergeMitigations | app/domain/services/conflict_resolver.py:121-129 | the nested loops give the declared mitigation of every key, whatever order keys are visited in |
| Resolver.ResolveMatched | app/domain/services/conflict_resolver.py:18-58 | the whole imperative resolver computes the declared actions, mitigations and, per field, log |
| OutcomeTheorems.PriorityIsMostSevere | app/domain/services/conflict_resolver.py:92-95 | a contested priority becomes the most severe value, of equals the earliest |
| OutcomeTheorems.TargetIsShortest | app/domain/services/conflict_resolver.py:92-97 | a contested SLA target becomes the shortest duration; it raises if and only if one cannot be parsed |
| OutcomeTheorems.FreeFieldMerges | app/domain/services/conflict_resolver.py:98-101 | all-boolean writers are or-ed; otherwise the heaviest writer wins, of equals the earliest |
| ContestTheorems.DurationIs | app/domain/services/conflict_resolver.py:132-135 | a number with a unit is that many minutes, sixty times as many if the unit has "hour" in it |
| ContestTheorems.HoursAgainstMinutes | app/domain/services/conflict_resolver.py:92-97 | of "m hours" and "n minutes" the hours are decided on if and only if 60m is less than n, or equal and written first |
| ContestTheorems.AgreementStays | app/domain/services/conflict_resolver.py:37-46 | writers that agree leave the first one's value |
| ContestTheorems.GroupDecides | app/domain/services/conflict_resolver.py:80-90 | in a contested group the heaviest decides, of those the one with most leaves, of those the one with the smallest code; it raises exactly when leaves have to be counted that cannot be |
| ContestTheorems.SuppressorDecides | app/domain/services/conflict_resolver.py:60-78 | without a non-suppressible writer the heaviest suppressor decides, the first of equals |
| ContestTheorems.WeightDecides | app/domain/services/conflict_resolver.py:98-101 | a free field without group or all-boolean values goes to the heaviest writer, the first of equals |
| ContestTheorems.HighestPriorityDecides | app/domain/services/conflict_resolver.py:92-95 | of known priorities the highest of Low, Medium, High, Critical is decided on |
| OutcomeTheorems.AdjustingFailsExactly | app/domain/services/conflict_resolver.py:103-119 | floors and bumps raise if and only if there is something to adjust and the start or every floor is no known severity |
| OutcomeTheorems.AdjustingRaises | app/domain/services/conflict_resolver.py:103-119 | the priority ends at the highest floor or its start, plus one level per bump, at most Critical; never lower than it was or than any floor |
| ContestTheorems.AdjustedPriority | app/domain/services/conflict_resolver.py:103-119 | a known priority ends at the highest known floor if that is above it, then one level up per true bump, at most at Critical |
| OutcomeTheorems.NothingToAdjust | app/domain/services/conflict_resolver.py:103-119 | without floors and bumps, or without a priority and floors, the actions are unchanged |
| OutcomeTheorems.MitigationMeans | app/domain/services/conflict_resolver.py:121-129 | a mitigation keeps a truthy first value, otherwise or-s in later booleans; all-boolean writers give their disjunction |
| OutcomeTheorems.LastComplianceWins | app/domain/services/compliance_applier.py:11-18 | after compliance each field has the value of the last satisfied compliance rule writing it, or its old one |
| OutcomeTheorems.MatrixFillsIn | app/application/orchestrator.py:41-45 | the matrix leaves a set targetSLA and all other fields alone, and keeps a rule's resolution minutes exactly in the stated cases |
| ContestTheorems.MatrixFills | app/application/orchestrator.py:41-45 | the entry of the tier in capitals and the priority's severity is filled in: its resolution minutes, and its response minutes as a text that reads back as that many minutes |
| OutcomeTheorems.PlanMeans | app/domain/services/execution_plan_builder.py:18-41 | steps are numbered 1, 2, 3 and so on; a field gets a direct step if and only if it is truthy and no sequence took it, and only one |
| OutcomeTheorems.SequencedStepsAre | app/domain/services/execution_plan_builder.py:23-34 | each sequenced rule, in match order, has two consecutive steps, the second falling back on the first |
| OutcomeTheorems.HintsBecomeSteps | app/domain/services/execution_plan_builder.py:23-34 | a hint gives its `tryFirst`, then its `fallbackTo` after its `fallbackAfterMinutes` |
| OutcomeTheorems.PlanFailsExactly | app/domain/services/execution_plan_builder.py:23-36 | the plan raises if and only if a matched rule's hint lacks one of its actions or gives one that cannot be put in a set |
| SuppressionTheorems.EveryWriterAccounted | app/domain/services/conflict_resolver.py:28-54 | the writers of a field are, as a multiset, its survivors plus those logged for it |
| SuppressionTheorems.LogIsLogged | app/domain/services/conflict_resolver.py:60-90 | a field's log has exactly one entry per logged writer, naming the writer and the field |
| SuppressionTheorems.ReasonsAreWarranted | app/domain/services/conflict_resolver.py:60-90 | an entry says overridden only of a suppressor under a shield, suppressed only by the suppressor that survives, and outdone only by the surviving winner of the group |
| SuppressionTheorems.ValueIsSurvivors | app/domain/services/conflict_resolver.py:28-54 | the resolved value is the value some survivor wrote |
| SuppressionTheorems.MissingExactly | app/domain/services/conflict_resolver.py:29-33 | a written field is absent if and only if all its writers are suppressors and one is also non-suppressible |
| SuppressionTheorems.ShieldHolds | app/domain/services/conflict_resolver.py:65-74 | with a non-suppressible writer no suppressor survives, each is logged, and nobody is suppressed by one |
| SuppressionTheorems.GroupWinnerBest | app/domain/services/conflict_resolver.py:80-90 | a contested conflict group leaves one survivor, beaten by no candidate |
| SuppressionTheorems.SuppressorsCannotReach | app/application/orchestrator.py:35-45 | deleting every suppressor rule leaves the decision's value of a shielded field unchanged; for slaResolutionMinutes if and only if the matrix entries filled in leave the same minutes |
| SuppressionTheorems.SuppressorsCannotReachPriority | app/domain/services/conflict_resolver.py:103-119 | deleting every suppressor leaves a shielded priority unchanged if and only if the floors and bumps left take the settled value to the same level |
| SuppressionTheorems.InertSuppressorsKeepPriority | app/domain/services/conflict_resolver.py:103-119 | in particular, suppressors without floors and bumps leave it unchanged |
| Witnesses.SuppressorReachesThroughMatrix | app/application/orchestrator.py:41-45 | a suppressor that sets targetSLA keeps a shielded 7 minutes that the matrix otherwise turns into 60 |
| Witnesses.MatrixOverwritesARule | app/application/orchestrator.py:41-45 | a rule writes 7 resolution minutes and the decision says 60 |
| Witnesses.BumpReachesPriority | app/domain/services/conflict_resolver.py:103-119 | a suppressor's bump lifts a shielded Low to Medium |
| OrderTheorems.TieFreeFieldIgnoresOrder | app/domain/services/conflict_resolver.py:28-101 | a field without ties resolves alike under every permutation of the pack |
| OrderTheorems.OrderLeaksExactly | app/domain/services/conflict_resolver.py:28-101 | a field resolves alike under all permutations if and only if it has no tie: among top suppressors, among first writers equal but written differently, among most severe unknown priorities, among shortest durations, or among heaviest writers of another field |
| OrderTheorems.TieFreePackIgnoresOrder | app/domain/services/conflict_resolver.py:18-58 | permuting a tie-free pack changes neither the resolved actions nor the multiset of suppressed entries nor the risk score |
| ReorderingTheorems.ComplianceOrderLeaksExactly | app/domain/services/compliance_applier.py:11-18 | every permutation of the pack leaves a field with one value after the compliance pass if and only if the satisfied compliance rules that could come last for it agree |
| ReorderingTheorems.MitigationOrderLeaksExactly | app/domain/services/conflict_resolver.py:121-129 | every permutation of the pack gives a mitigation one value if and only if all rules that could come first for it bring it to the same one |
| ReorderingTheorems.TieFreeRunIgnoresOrder | app/application/orchestrator.py:35-76 | with compliance rules and mitigations tie-free too, neither whether the run raises nor the final actions, mitigations, priority, risk score and band change |
| Witnesses.ListOrderDecides | app/domain/services/conflict_resolver.py:100-101 | two rules of equal weight name different teams, and the one listed first decides |
| Witnesses.ListOrderDecidesMitigation | app/domain/services/conflict_resolver.py:121-129 | two rules give a mitigation different texts, and the one listed first decides |
| Witnesses.ListOrderDecidesCompliance | app/domain/services/compliance_applier.py:14-17 | two compliance rules write one field, and the one listed last decides |
| Merging.MergeIsConservative | app/application/orchestrator.py:35-76 | adding an independent pack keeps the other pack's actions, mitigations, priority, risk, plan, suppressions and traces; the merge raises if and only if one of the two does |
| RulePacks.LoadHistoricalPatternRules | app/infrastructure/repositories/historical_pattern_rule_pack_loader.py:103-138 | the loop gives one routing rule per document, in order |
| RulePacks.LoadCsrSlaRules | app/infrastructure/repositories/csr_sla_rule_pack_loader.py:91-125 | the loop gives one routing rule per document, in order |
| RulePacks.HisRuleDecides | app/infrastructure/repositories/historical_pattern_rule_pack_loader.py:103-138 | a loaded rule matches if and only if its document is enabled and the document's condition is true of the incident, and it writes the document's seven outcomes under their fields |
| RulePacks.CsrRuleDecides | app/infrastructure/repositories/csr_sla_rule_pack_loader.py:91-125 | likewise for a CSR-SLA document and its six outcomes |
| RulePacks.HisIndependent | app/infrastructure/repositories/historical_pattern_rule_pack_loader.py:38-58 | a loaded historical-pattern pack is independent of any pack with other codes and fields |
| RulePacks.CsrIndependent | app/infrastructure/repositories/csr_sla_rule_pack_loader.py:25-62 | a loaded CSR-SLA pack is independent of any pack with other codes and fields |
| RulePacks.LoadedPacksAreConservative | app/infrastructure/repositories/composite_rule_repository.py:23-27 | concatenating both packs after a base pack changes none of the base pack's actions, mitigations, priority, risk, plan, constraints, suppressions and traces |
| RulePacks.CompositeRuleRepository.GetActive | app/infrastructure/repositories/composite_rule_repository.py:23-30 | the pack served has exactly the rules of the groups the repository was built from, group after group |
| Pipeline.ApplyCompliance | app/domain/services/compliance_applier.py:11-18 | the loop overwrites the actions in evaluation order and records one constraint per satisfied rule, or raises |
| Pipeline.Score | app/domain/services/risk_scorer.py:10-21 | the accumulator is the sum over unsuppressed rules cut to 0..120, with the first band that holds it |
| ContestTheorems.ScoreBands | app/domain/services/risk_scorer.py:5-21 | a decision's score is 0 to 120, with LOW up to 30, MEDIUM up to 50, HIGH up to 75 and CRITICAL above |
| ContestTheorems.ScoreCounts | app/domain/services/risk_scorer.py:10-17 | the score is the sum over the matched rules that no reported suppression names, cut to 0..120 |
| ContestTheorems.ContributionsAdd | app/domain/services/risk_scorer.py:11-16 | one rule more adds its contribution, or nothing if its code is suppressed or it has none |
| Pipeline.BuildPlan | app/domain/services/execution_plan_builder.py:18-41 | the two loops build the declared plan, or raise if a sequencing hint is incomplete |
| Pipeline.RunPipeline | app/application/orchestrator.py:35-76 | the imperative pipeline computes the declared decision, error cases included, and per field the same suppressions |
| ContestTheorems.DecisionShows | app/application/orchestrator.py:46-76 | a decision reports the priority of its final actions, a trace of each matched rule and a constraint for each compliance rule that applied, in evaluation order |
| Snapshots.RuleRoundTrip | app/application/use_cases/rule_pack_lifecycle.py:273-301 | a rule written as JSON and read back loses its id and a falsy exceptions tree, and nothing else |
| Snapshots.SnapshotRoundTrip | app/infrastructure/cache/rule_snapshot.py:15-47 | a pack read back from its snapshot loses rule ids, falsy exceptions, deletion time and lock version only |
| Snapshots.ServedFromSnapshotDecidesTheSame | app/infrastructure/cache/rule_snapshot.py:15-47 | a pack served from its snapshot gives the same decision on every incident |
| Validation.Validate | app/application/use_cases/validate_rule_pack.py:16-49 | reports exactly the problems the rules have |
| Validation.ValidMeansNoProblem | app/application/use_cases/validate_rule_pack.py:16-49 | rules are valid if and only if they have no problem |
| Validation.ValidExactly | app/application/use_cases/validate_rule_pack.py:16-49 | rules are valid if and only if there are some, all conditions can be counted, and each declared conflict is with a known rule and not left to weights within one group |
| Store.NoLostUpdate | app/infrastructure/repositories/in_memory_rule_pack_repository.py:67-127 | of two calls on one pack with the same expected lock version the second fails, whatever happens in between, as long as no update sets a lock version below what it is |
| Store.LocksOnlyRise | app/infrastructure/repositories/in_memory_rule_pack_repository.py:67-127 | no sequence of repository calls drops a pack, and none whose updates set no lower lock version lowers one |
| Store.LostUpdateExactly | app/infrastructure/repositories/in_memory_rule_pack_repository.py:80-89 | a call that follows an update and passes the same lock version is turned away if and only if the update did not set the lock version to one below |
| Repository.InMemoryRulePackRepository.SavePack | app/infrastructure/repositories/in_memory_rule_pack_repository.py:27-33 | stamps a missing id and creation time and assigns the slot of its key |
| Repository.InMemoryRulePackRepository.GetById | app/infrastructure/repositories/in_memory_rule_pack_repository.py:38-42 | returns the first pack with the id |
| Repository.InMemoryRulePackRepository.ActivePack | app/infrastructure/repositories/in_memory_rule_pack_repository.py:44-48 | returns the first active pack of the name and region |
| Repository.InMemoryRulePackRepository.Change | app/infrastructure/repositories/in_memory_rule_pack_repository.py:67-109 | an id-based change happens behind the lock, bumps the lock by one and touches no other pack; a failure changes nothing |
| Repository.InMemoryRulePackRepository.ActivateVersion | app/infrastructure/repositories/in_memory_rule_pack_repository.py:111-127 | the loop steps every active version of the name down and the target up, or fails and changes nothing |
| Repository.UseCases.CreateRulePack | app/application/use_cases/rule_pack_lifecycle.py:63-80 | performs the creation step: next version, latest version as parent |
| Repository.UseCases.ImportRulePack | app/application/use_cases/rule_pack_lifecycle.py:248-270 | performs the import step, rejecting an existing version and leaving the store alone on failure |
| Repository.UseCases.UpdateRulePackMetadata | app/application/use_cases/rule_pack_lifecycle.py:92-107 | performs the update step on drafts only, whichever fields are set |
| Repository.UseCases.SoftDeleteRulePack | app/application/use_cases/rule_pack_lifecycle.py:126-142 | performs the deletion step, refusing the active pack, and publishes its event only on success |
| Repository.UseCases.PublishRulePack | app/application/use_cases/rule_pack_lifecycle.py:159-174 | performs the publication step, only for drafts the validator accepts |
| Repository.UseCases.ActivateRulePack | app/application/use_cases/rule_pack_lifecycle.py:194-213 | performs the activation step and publishes its event only on success |
| Repository.UseCases.RollbackRulePack | app/application/use_cases/rollback_rule_pack.py:33-68 | performs the rollback step with the lock checked on the version left |
| Repository.UseCases.CreateRule | app/application/use_cases/manage_rules.py:58-77 | performs the rule-creation step and returns the rule with the document's fields, defaults elsewhere, under its new id |
| Repository.UseCases.UpdateRule | app/application/use_cases/manage_rules.py:111-130 | performs the rule-update step and returns the rule with the fields the change mentions, all others and the id as they were |
| Repository.UseCases.DeleteRule | app/application/use_cases/manage_rules.py:143-156 | performs the rule-deletion step and returns the rule as it was but disabled |
| Repository.UseCases.FindRule | app/application/use_cases/manage_rules.py:45-50 | the nested search finds the first carrier in name and version order within the page |
| Repository.UseCases.SeedActivePolicy | app/application/use_cases/seed_active_policy.py:37-56 | does nothing if a pack is active; otherwise saves the fixture if its version is new and activates it |
| RuleEdits.RuleReads | app/application/use_cases/rule_pack_lifecycle.py:286-301 | a rule read from JSON has each field from its key, or the field's default without it |
| RuleEdits.MergedReads | app/application/use_cases/manage_rules.py:119-124 | merging a change into a rule's JSON and reading it back sets the fields the change mentions and keeps all others |
| RuleEdits.CreatedRule | app/application/use_cases/manage_rules.py:58-77 | a creation appends to a draft one rule with a new code and the new id, and changes no other rule or pack |
| RuleEdits.UpdatedRule | app/application/use_cases/manage_rules.py:111-130 | an update sets in a draft's rule the fields its document mentions and keeps its other fields, its id, every other rule and every other pack |
| RuleEdits.DeletedRule | app/application/use_cases/manage_rules.py:143-156 | a deletion only disables the first rule with the id, in a draft |
| EffectTheorems.Publishes | app/application/use_cases/rule_pack_lifecycle.py:159-174 | succeeds if and only if the pack is a draft with valid rules; then it is published, its lock up by one, and nothing else changes |
| EffectTheorems.Deletes | app/application/use_cases/rule_pack_lifecycle.py:126-142 | succeeds if and only if the pack is not active and the lock fits; then it is archived with the time |
| EffectTheorems.Activates | app/application/use_cases/rule_pack_lifecycle.py:194-213 | succeeds if and only if the pack is published or deprecated and the lock fits; then it is active and every other active version of its name deprecated |
| EffectTheorems.RollsBackTo | app/application/use_cases/rollback_rule_pack.py:33-68 | succeeds if and only if the lock fits the version left and its parent is stored; then the parent is active and every other active version of the name deprecated |
| EffectTheorems.Imports | app/application/use_cases/rule_pack_lifecycle.py:248-265 | succeeds if and only if the document can be read and the version asked for is not stored; then one draft is added with what the document says, the version asked for or the next one, and the highest version as parent |
| EffectTheorems.DocumentReads | app/application/use_cases/rule_pack_lifecycle.py:248-263 | name, version, region, tenant and rules are read under their own keys |
| Lifecycle.ListAllIsSorted | app/infrastructure/repositories/in_memory_rule_pack_repository.py:53-65 | the listing has every pack once, by name and version, stably |
| EffectTheorems.ListingOrder | app/infrastructure/repositories/in_memory_rule_pack_repository.py:53-65 | of two packs the one listed first has the smaller name, or the same name and the smaller version |
| LifecycleTheorems.ExportImports | app/application/use_cases/rule_pack_lifecycle.py:216-270 | an exported pack imports into a store without that version as a draft of its name, region, version and rules, changing nothing else, and decides every incident alike |
| LifecycleTheorems.NewVersionFollows | app/application/use_cases/rule_pack_lifecycle.py:67-74 | a creation only adds a draft, whose version is one above the highest of its name, its parent, or 1 for a new name |
| LifecycleTheorems.ImportIsGood | app/application/use_cases/rule_pack_lifecycle.py:235-270 | an import never overwrites: it only adds one draft, under a key no pack has |
| LifecycleTheorems.StepIsGood | app/application/use_cases/rule_pack_lifecycle.py:53-270 | a use case, successful or not, keeps the store invariant, freezes what left Draft and keeps every name with an active pack, if and only if it is no update that sets what it may not |
| LifecycleTheorems.UpdateIsGoodExactly | app/infrastructure/repositories/in_memory_rule_pack_repository.py:80-89 | an update of any fields keeps all that if and only if it leaves name, version, id and parent alone, does not lower the lock version and makes no second version active |
| LifecycleWitnesses.SettingTheLockLosesAnUpdate | app/infrastructure/repositories/in_memory_rule_pack_repository.py:80-89 | two updates of one draft that both pass lock version 1 succeed, because the first sets the lock back |
| LifecycleWitnesses.UpdateActivatesQuietly | app/infrastructure/repositories/in_memory_rule_pack_repository.py:85-87 | an update makes a draft without rules active and publishes nothing |
| LifecycleWitnesses.RenamedDraftCannotBeActivated | app/infrastructure/repositories/in_memory_rule_pack_repository.py:85-87 | a draft that is renamed and published can no longer be activated |
| LifecycleTheorems.ExactlyOneActive | app/infrastructure/repositories/in_memory_rule_pack_repository.py:111-127 | in every run whose updates set only what they may, a name has at most one active pack, and once it has one it always has one |
| LifecycleTheorems.FrozenOnceOut | app/application/use_cases/manage_rules.py:58-156 | in every such run a pack that left Draft keeps rules, name, region and parent and never returns to Draft |
| VettingTheorems.VettedExactly | app/application/use_cases/rollback_rule_pack.py:38-55 | a step keeps all live packs validated if and only if the rules it makes active, or an update makes live, are valid |
| VettingTheorems.ActiveRulesAreValid | app/application/use_cases/validate_rule_pack.py:16-49 | in every run without seeding whose rollbacks go to live parents and whose updates make nothing live, the active pack's rules are valid |
| VettingTheorems.RollbackCanActivateADraft | app/application/use_cases/rollback_rule_pack.py:55 | two creations and a rollback make a draft without rules active |
| LineageTheorems.LineageIsWellFounded | app/application/use_cases/rule_pack_lifecycle.py:67-74 | in every store such runs reach a parent chain descends strictly, stays in its name, ends at a root and has fewer steps than the name has versions |
| LineageTheorems.RollbackReachesRoot | app/application/use_cases/rollback_rule_pack.py:33-68 | rolling back repeatedly along the chain always succeeds and leaves its root active |
| LineageTheorems.RollbackGuard | app/application/use_cases/rollback_rule_pack.py:43-53 | an identical second rollback is refused if and only if the version left was active |
| LifecycleWitnesses.RollbackRepeats | app/application/use_cases/rollback_rule_pack.py:43-55 | after two creations the same rollback under the same lock version succeeds twice |
| LifecycleWitnesses.RollbackToADeletedParent | app/infrastructure/repositories/postgres_rule_repository.py:44-62 | two releases, a deletion and a rollback: a version is active and the loader finds nothing |
| Cache.RuleCache.Get | app/infrastructure/cache/rule_cache.py:161-174 | a get serves a fresh L1, else a readable Redis snapshot, which also becomes the last known good, else the source, else the last known good, and stamps L1 with the time before the load |
| Cache.RuleCache.Refresh | app/infrastructure/cache/rule_cache.py:176-182 | a refresh never reads Redis and installs the source's pack or the last known good |
| Cache.RuleCache.OnEvent | app/infrastructure/cache/rule_cache.py:97-112 | an event refreshes with a bound loader, invalidates without one, and ignores other entity types |
| Cache.RuleCache.LoadFromSource | app/infrastructure/cache/rule_cache.py:139-159 | a failed load falls back on the last known good, writes nothing to Redis, and raises only if there is none |
| Cache.InMemoryCacheRefreshNotifier.Publish | app/infrastructure/cache/in_memory_cache_refresh_notifier.py:14-16 | every subscribed cache handles the event exactly once; the Redis writes are returned in order |
| CacheTheorems.NeverRaisesAgain | app/infrastructure/cache/rule_cache.py:116-182 | after one successful load no later get or refresh raises in any run, and a warm L1 is the last known good pack |
| CacheTheorems.GetRaisesExactly | app/infrastructure/cache/rule_cache.py:139-174 | a get raises if and only if L1 is cold or too old, Redis has nothing readable, the source fails and nothing was ever loaded |
| CacheTheorems.EventsReact | app/infrastructure/cache/rule_cache.py:97-112 | an event of a rule or rule pack reloads, or empties L1 without a loader; of anything else it does nothing |
| CacheTheorems.WritesAreReadable | app/infrastructure/cache/rule_cache.py:116-137 | what one replica writes another reads back, but for what a snapshot does not carry |
| CacheTheorems.FailedRefreshKeepsValue | app/infrastructure/cache/rule_cache.py:147-182 | a failed refresh keeps a warm L1's value and returns it |
| CacheTheorems.QuietKeepsActive | app/application/use_cases/rule_pack_lifecycle.py:133-208 | a use case other than seeding that publishes no event leaves the active pack exactly as it was if and only if it is no update that sets a draft active |
| CacheTheorems.CacheAgreesWithStore | app/infrastructure/cache/rule_cache.py:97-182 | in every run without such updates a warm L1 equals what the loader would bring back from the store now |
| CacheTheorems.WarmCacheIsTheActivePack | app/infrastructure/cache/rule_cache.py:97-182 | from the empty store through any startup, as long as no use case makes a deleted pack active and no update makes a draft active or deleted, a warm L1 is the store's active pack whenever one exists |
| CacheTheorems.DeletedExactly | app/infrastructure/repositories/in_memory_rule_pack_repository.py:100-127 | a step keeps deletion times on archived packs only if and only if it makes no deleted pack active and is no update that leaves one on a pack that is not archived |
| CacheTheorems.SanctionedRevivesNothing | app/application/use_cases/rollback_rule_pack.py:55 | activations, rollbacks to live parents and updates that set no deletion time make no deleted pack active |
| CacheTheorems.SeedVisibility | app/application/use_cases/seed_active_policy.py:37-56 | after a seeding that takes effect the loader finds a pack if and only if the activated version has no region and no deletion time |
| CacheTheorems.RollbackVisibility | app/infrastructure/repositories/postgres_rule_repository.py:44-62 | after a rollback the loader finds the active pack if and only if the parent was not deleted |
| StalenessTheorems.SamplesAreGenuine | app/infrastructure/cache/rule_cache.py:139-182 | over every run of many replicas everything in Redis, an L1 or a last known good was read from the source by an earlier call at the time noted |
| StalenessTheorems.ServedValuesAreRecent | app/infrastructure/cache/rule_cache.py:139-182 | over every such run a call read the served value from the source less than the Redis TTL plus the L1 TTL before, or within the L1 TTL if loaded directly, unless it stems from the last known good |
| StalenessTheorems.WithoutRedisWithinTtl | app/core/cache.py:26-52 | without Redis a call read the served value at most one L1 TTL before, unless it stems from the last known good |
| StalenessTheorems.DegradedNeverReachesRedis | app/infrastructure/cache/rule_cache.py:139-159 | over every run what Redis holds was written by a call that had just read it from the source, with the TTL from then |
| StalenessTheorems.RedisIsServed | app/infrastructure/cache/rule_cache.py:161-174 | while Redis is readable and unexpired no get raises, and a replica whose L1 is cold or too old serves and keeps what Redis holds |
| Redis.KeysApart | app/infrastructure/cache/redis_cache_backend.py:59-63 | pointer and snapshot keys never collide, whatever the cache keys |
| Redis.ReadsAreWholeWrites | app/infrastructure/cache/redis_cache_backend.py:65-101 | under any interleaving a returned snapshot is the whole payload of one write whose token was the pointer at the reader's first GET and whose second SET happened |
| Redis.ReadsAreRecent | app/infrastructure/cache/redis_cache_backend.py:65-101 | under any interleaving the first SET of the write whose snapshot is returned happened less than the TTL before |
| Redis.HalfWriteIsInvisible | app/infrastructure/cache/redis_cache_backend.py:86-101 | a write that stops after its first SET changes what no reader of any cache key gets |
| Redis.WriteThenRead | app/infrastructure/cache/redis_cache_backend.py:65-92 | a complete write is read back until its TTL has passed, and not after |
| Redis.WriteIsItsSteps | app/infrastructure/cache/redis_cache_backend.py:86-101 | a write that nothing interrupts, failing SETs included, leaves what its steps in the interleaved runs leave |
| Redis.ReadIsItsSteps | app/infrastructure/cache/redis_cache_backend.py:65-84 | a read that nothing interrupts returns what its two steps in the interleaved runs return |
| Redis.RedisCacheBackend.WriteActive | app/infrastructure/cache/redis_cache_backend.py:86-101 | the snapshot is set before the pointer, and a failing SET ends the write |
| Redis.RedisCacheBackend.ReadActive | app/infrastructure/cache/redis_cache_backend.py:65-84 | follows the pointer to its snapshot; any failure or absence is a miss |
| RateLimit.RateLimitMiddleware.Dispatch | app/interfaces/api/middleware/rate_limit.py:33-53 | counts only the client's own bucket, and rejects with Retry-After exactly above the limit |
| RateLimit.ClientsApart | app/interfaces/api/middleware/rate_limit.py:29-31 | two clients share a bucket if and only if they are the same, or one is called "unknown" and the other has no address |
| RateLimit.TwiceTheLimit | app/interfaces/api/middleware/rate_limit.py:38-53 | any closed interval of 60 seconds lets at most twice the limit through |
| RateLimit.TwiceTheLimitIsReached | app/interfaces/api/middleware/rate_limit.py:38-53 | for every limit some interval lets exactly twice the limit through |
| RateLimit.OneWindow | app/interfaces/api/middleware/rate_limit.py:38-46 | one window lets through the limit, or everything if that is less |
| RateLimit.RetryAfterPlusOne | app/interfaces/api/middleware/rate_limit.py:46-52 | one second more than Retry-After always suffices; Retry-After alone if and only if the time left was whole or at most a second |
| RateLimit.WaitingAsToldCanFail | app/interfaces/api/middleware/rate_limit.py:46-52 | a client that waits exactly as told is rejected again |
| Escalation.EscalationSweep.Run | app/jobs/escalation_sweep.py:14-39 | opens the last listed level that is due, or nothing |
| Escalation.NextIsLastRipe | app/jobs/escalation_sweep.py:22-39 | the level to open is the last listed one whose timeout in minutes has passed since the decision and whose name no event has |
| Escalation.DrainIsBackwards | app/jobs/escalation_sweep.py:22-39 | repeated sweeps at one time open the due names from the last listed to the first |
| Escalation.DrainOpensEachOnce | app/jobs/escalation_sweep.py:22-39 | they open exactly the due names, each once, and then nothing |
| Escalation.NeverOpensTwice | app/jobs/escalation_sweep.py:22-39 | over any run at any times no level name opens twice |

## Left out

- Transpilers.StripMeaning: trees that read an ambiguous path, or hold a literal the rewrite changes in an evaluated position, are excluded; the exact condition is stated for `var` nodes, not for whole trees
- Transpilers.StripCondition: excludes the same trees
- Resolver.ResolveMatched: the order of log entries across different fields, because dictionary iteration order is not modelled
- ReorderingTheorems.TieFreeRunIgnoresOrder: the execution plan, traces and constraints, which list rules in match order
- RulePacks.LoadedPacksAreConservative: the VAST and telecom SLA packs, which contribute to the risk score and write shared fields and so are not conservative
- Lifecycle.ListAllIsSorted: the status and region filters, paging and hiding of archived packs in list_all
- RuleEdits.CreatedRule: stores whose keys an update has broken, where the save adds a second copy
- RuleEdits.UpdatedRule: the same stores
- RuleEdits.DeletedRule: the same stores
- CacheTheorems.CacheAgreesWithStore: runs in which an update, which publishes nothing, sets the status of a draft to active; the HTTP route sends no status
- Repository.UseCases.UpdateRulePackMetadata: fields that no pack has, which the source ignores, and values of another type than the field's
- CacheTheorems.WarmCacheIsTheActivePack: Redis, several processes and seeding after startup
- StalenessTheorems.ServedValuesAreRecent: calls are instantaneous, so the duration of a load is not counted, and Redis is one cell; Redis.ReadsAreRecent bounds the age of what its two keys return under any interleaving
- Objects shared inside and outside the store: packs are values, so an edit of a returned object is not an edit of the store, and a renamed pack saved under a second key is a copy
- One Rule object listed twice in a pack: rules are told apart by position
- Floating-point rounding and NaN: numbers are exact; instants in the store are integers
- Exotic literals accepted by Python's float() and int(), and letter case beyond ASCII
- Variable paths that are neither strings nor null: they read null here, while the source splits their text
- JSON fields of an unexpected type: reading them fails as a malformed document
- Missing keys in the documents of the rule-pack loaders: documents are records
- JSON text itself: a payload is the value that would be written
- Explanation strings, confidence score, holiday calendar, audit entries, metrics and log messages
- PostgreSQL repositories, apart from the filter of the hot path's loader, and the pub/sub transport between processes
- Bulk operations, pagination, SLA breach sweep, shadow promotion and the other rule-pack loaders are not part of this model
