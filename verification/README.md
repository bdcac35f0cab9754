# Verified model of the Fluxion workflow engine

Fluxion runs workflows: graphs of jobs, each job a WebAssembly component. This project
models the engine around the components and proves what it guarantees.

* **Graphs.** `Graph.dfy` defines dependency graphs, reachability and topological orders.
  `Workflow.dfy` holds workflow definitions, validation and the depth-first cycle check;
  `Dag.dfy` holds Kahn's sort and the graph the scheduler runs on. The two cycle checks are
  proved exact and to agree.
* **Expansion.** `Expand.dfy` is the two-pass foreach expansion. `ExpandGraph.dfy` proves it
  a graph transformation that keeps ordering and schedulability, `ExpandJobs.dfy` what its jobs
  are, how they are named and in which order they stand.
* **Scheduling.** `Scheduler.dfy` is one run as a state machine; the environment decides
  which job in flight finishes next, and what a component does with an input is a function
  nothing is known about. `Settling.dfy`, `Skipping.dfy` and `Ending.dfy` prove what
  every run keeps; `Moves.dfy` takes an event apart into single launches and skips;
  `Inputs.dfy` says what every job is run on; `Discipline.dfy` and `Repeats.dfy` when jobs start
  once, `Guards.dfy` what a guard can see,
  `Refinement.dfy` that runs agree with a sequential evaluator, `Races.dfy` exactly when guards
  leave nothing to chance, `Retry.dfy` and `Replay.dfy` what a retry runs and when it ends like a
  fresh run; `Witness.dfy` holds literal workflows on which expectations fail. `Executor.dfy` is
  the program itself, a class with mutable tables, loops and a queue over the run database,
  proved to move exactly as the machine does. `States.dfy`, `When.dfy` and `FanIn.dfy` are
  statuses and their stored form, guards, and the assembly of fan-in inputs.
* **Protocols around it.** `Store.dfy`, `Schedules.dfy` and `Daemon.dfy` hold the run
  database, competing schedule daemons and one daemon pass; `Dispatch.dfy` sending
  components to workers by content hash; `Cache.dfy` the three component caches and
  `Sharing.dfy` runs that share them; `LoadBalance.dfy` weighted round-robin and failover;
  `OciRef.dfy` component references.

Theorems about runs start from a `Config` with `ValidConfig`: that is what `Prepare` is proved
to produce for every schedulable workflow, and `Witness.dfy` exhibits several outright. The
start-once condition `Plain` allows guards and reused jobs; `Discipline.SpreadIsPlain` and
`Execution.FreshFromWorkflow` give conditions for it that can be read off a workflow file.

In every imperative part the mutating method is proved against a specification function
(`Deliver`, `Expand`, `ClaimSchedule`, `CasPut`, `RunWithKey`, ...), and the theorems are
proved about that function.

Things the proofs brought to light, each stated as a lemma:

* A static foreach job's own `input_from` is dropped (`StaticForeachDropsItsInputFrom`).
* Jobs can start twice, and exactly when (`AtMostOnceExactly`): a dependency is listed twice
  and comes last, or everything between a guarded job and one of its dependencies can be
  skipped at one blow (`ListedTwiceStartsTwice`, `ShortcutStartsTwice`).
* A guard can make the outcome depend on the order of events if it asks about a job that runs
  beside the guarded one, neither up- nor downstream of it and not waiting for everything it
  waits for (`GuardsCanRace`), and, unless it asks about skips, only then
  (`GuardsAgreeExactly`). A guard about a downstream job is decided the same way in every run,
  and one that asks for 'FAILED' never lets its job run (`FailuresAreNeverSeen`).
* A retry runs a job whose dependencies are all reused without asking its guard
  (`RetryRunsWhatItsGuardForbids`), and a fan-in job that is run again misses the outputs of the
  children that are reused (`RetryForgetsAChild`, `ArrayKeptExactly`); exactly where neither
  matters a retry ends like a fresh run (`ReplayAgreesExactly`, `RetryEndsLikeAFreshRun`).
* When a child of a foreach job has the name of a job that is not itself a static foreach job,
  one of the two definitions is lost, the earlier one in the file (`ClashKeepsTheLater`,
  `ClashLosesAChild`); otherwise expansion is faithful (`ExpandsFaithfullyExactly`).
* `fail_fast` is looked up under a parent that expansion has removed, so nothing is ever
  cancelled (`FailureNeverCancels`, `NothingIsCancelled`).
* A schedule can fire twice for one occurrence if a workflow outlives the next occurrence
  (`LateUpdateIsExactlyTheDanger`, `SlowWorkflowFiresTwice`).
* A caller-supplied digest is trusted as a cache key; the caches are transparent exactly as
  long as no key is shared by different components (`TransparentExactly`), and runs side by
  side change nothing about that (`TransparentTogetherExactly`).
* The two reference parsers differ on references with both tag and digest (`ParsersAgree`).
* The weighted strategy panics when the only workers are discovered ones (`ResolveWorkers`).
* The weighted strategy uses an index among the configured workers on the list of healthy ones.
  Each URL is therefore tried in proportion to the weights of the configured workers at its
  places in that list, counted around (`FirstsAreShares`), which is its own weight only if the
  two sums happen to agree (`ProportionalExactly`, `WeightsShiftWhenAWorkerIsDown`).
* The merge of fan-in outputs is shallow, although it is documented as deep
  (crates/fluxion-core/src/workflow.rs:181; `MergeIsShallow`). The code is followed, and
  `ShallowIsDeepExactly` says when the two agree.

`dafny verify dfyconfig.toml` checks the whole project.

## Model

| member | source | states |
|---|---|---|
| Workflows.Dfs | crates/fluxion-core/src/workflow.rs:413-445 | the recursive three-colour search terminates although `visited` is shared; a hit means a real cycle, a miss leaves a finished set closed under dependencies in which nothing lies on a cycle |
| Workflows.HasCycle | crates/fluxion-core/src/workflow.rs:413-445 | true if and only if `depends_on` has a cycle, unknown dependencies included |
| Workflows.ValidateJob | crates/fluxion-core/src/workflow.rs:474-513 | reports exactly the defects of one job |
| Workflows.Validate | crates/fluxion-core/src/workflow.rs:474-513 | an error is in the report if and only if the workflow has that defect, whatever the job order |
| Workflows.NoDefectExactly | crates/fluxion-core/src/workflow.rs:474-513 | the report is empty if and only if every dependency is a job, there is no cycle, every `input_from` names a job with a foreach path, and only fed jobs have a reduce mode |
| Dags.KahnSort | crates/fluxion-core/src/dag.rs:87-124 | succeeds exactly on graphs with known dependencies and no cycle; the order is then a permutation of the jobs with every dependency first; the in-degree map has type nat, so it never underflows |
| Dags.Retire | crates/fluxion-core/src/dag.rs:107-118 | one turn of the worklist keeps: queued are exactly the jobs whose counter is zero, each once, and every counter equals the unmet dependencies counted with repetition |
| Dags.SortEnds | crates/fluxion-core/src/dag.rs:120-123 | when the queue is empty, comparing lengths decides between a topological order and a cycle or unknown dependency |
| Dags.LeftoversCycle | crates/fluxion-core/src/dag.rs:120-123 | jobs never sorted contain a cycle |
| Dags.Build | crates/fluxion-core/src/dag.rs:16-40 | succeeds exactly on known, acyclic graphs; waiter lists then hold one entry per listed dependency |
| Dags.ValidateThenBuild | crates/fluxion-core/src/workflow.rs:474-513 | validation reports neither an unknown dependency nor a cycle if and only if building the graph succeeds |
| Dags.RestsOnARoot | crates/fluxion-core/src/dag.rs:43-49 | every job is a root or transitively waits for one, so launching the roots reaches everything |
| Expansion.ChildIdInjective | crates/fluxion-core/src/expand.rs:38-143 | no two foreach children share a name, even when job ids contain dots and digits |
| Expansion.FirstPass | crates/fluxion-core/src/expand.rs:38-92 | the loop that inserts children computes `FanOut`, and stops at the first array that cannot be extracted; what the children are is stated by ChildrenGetTheirElements and NothingElseAppears |
| Expansion.SecondPass | crates/fluxion-core/src/expand.rs:94-143 | the loop that rewrites `depends_on` in place computes `RewriteTo`, and stops at the first bad `input_from` |
| Expansion.RewriteJob | crates/fluxion-core/src/expand.rs:94-129 | one job's list: parents replaced by their children, then the missing fan-in edges added |
| Expansion.ExpandForeach | crates/fluxion-core/src/expand.rs:38-143 | the two imperative passes compute `Expand`, errors included; what that is field by field, name by name and in which order, the rows of ExpansionGraph and ExpansionJobs state |
| Expansion.FanWellFormed | crates/fluxion-core/src/expand.rs:38-92 | for every workflow, clashing names included: the key order stays an enumeration, children are named after their parent, and no parent key of the result has `fail_fast` |
| Expansion.ExpandFacts | crates/fluxion-core/src/expand.rs:94-143 | every job of the result is a rewritten job of the first pass; expansion fails only for a source without children |
| ExpansionGraph.UpstreamExact | crates/fluxion-core/src/expand.rs:94-129 | in a blown-up graph one copy is upstream of another exactly if a non-empty path through jobs with copies joins their originals |
| ExpansionGraph.BlowUpAcyclic | crates/fluxion-core/src/expand.rs:94-129 | a blown-up graph has no unknown dependency, and its cycles are exactly the original cycles through jobs with copies |
| ExpansionGraph.ExpansionBlowsUp | crates/fluxion-core/src/expand.rs:38-143 | expansion is such a blow-up of `depends_on` together with `input_from` |
| ExpansionGraph.ExpansionSchedulable | crates/fluxion-core/src/expand.rs:38-143 | expansion succeeds and keeps known dependencies; the result is acyclic exactly if no cycle runs through jobs that all have a child, so always if the original is acyclic |
| ExpansionGraph.ExpansionOrdering | crates/fluxion-core/src/expand.rs:94-129 | a copy waits for another exactly if the originals are so ordered; with non-empty arrays this is plain reachability |
| ExpansionGraph.ExpansionKeepsDistinct | crates/fluxion-core/src/expand.rs:94-129 | duplicate-free dependency lists stay duplicate-free |
| ExpansionGraph.ExpansionKeepsUnguarded | crates/fluxion-core/src/expand.rs:55-92 | expansion gives no job a guard |
| ExpansionGraph.ChildrenGetTheirElements | crates/fluxion-core/src/expand.rs:51-88 | the i-th child has its parent's component, executor and worker, the i-th array element as input, no guard, path, source or reduce mode and no `fail_fast`; the parent's entry lists the children in this order |
| ExpansionGraph.ArrayOfForeach | crates/fluxion-core/src/expand.rs:45-60 | the array is what the path selects in the overriding input, or else in the job's own |
| ExpansionGraph.OthersStay | crates/fluxion-core/src/expand.rs:94-143 | every job that is not a static foreach job stays, equal to its original in every field but `depends_on` |
| ExpansionJobs.NothingElseAppears | crates/fluxion-core/src/expand.rs:38-143 | for every workflow, clashing names included: each job of the result is a job of the file unchanged but for its dependencies, or its parent run on one element |
| ExpansionJobs.ExpansionKeepsOrder | crates/fluxion-core/src/expand.rs:38-92 | the jobs of the result stand in the order of the file, children where their parent stood |
| ExpansionJobs.ExpansionKeepsCounts | crates/fluxion-core/src/expand.rs:94-129 | a copy lists a copy of b as often as its original lists b, and once if the original only takes its input from b |
| ExpansionJobs.DependenciesKeepTheirOrder | crates/fluxion-core/src/expand.rs:94-129 | a copy's list is the list of its original with each job replaced by its copies in order; a source that was not listed is appended |
| ExpansionJobs.ExpandErrorsSay | crates/fluxion-core/src/expand.rs:38-129 | an error names the first array of the file that cannot be extracted or, all of them extracted, a job whose source is no static foreach job |
| ExpansionJobs.DecimalReads | crates/fluxion-core/src/expand.rs:62-66 | the number in a child's name is decimal: read as one it is the index, and it has no leading zero |
| ExpansionGraph.ExpandSucceedsExactly | crates/fluxion-core/src/expand.rs:38-143 | a validated workflow in which no child clashes with a job that keeps its name can be expanded if and only if all arrays can be extracted and every `input_from` names a static foreach job |
| ExpansionGraph.StaticForeachDropsItsInputFrom | crates/fluxion-core/src/expand.rs:55-92 | concrete input: a static foreach fed from another is accepted, but no child of the one waits for a child of the other |
| ExpansionGraph.ClashLosesAChild | crates/fluxion-core/src/expand.rs:62-91 | concrete input: a child named like a later plain job is accepted and overwritten, so nobody runs its element |
| ExpansionGraph.ExpandsFaithfullyExactly | crates/fluxion-core/src/expand.rs:38-143 | for every workflow with extractable arrays and static sources: expansion is the blow-up of its graph if and only if no child takes the name of a job that is not itself a static foreach job |
| ExpansionGraph.ClashKeepsTheLater | crates/fluxion-core/src/expand.rs:38-92 | of two clashing definitions the later one in the file runs, with its component and input |
| ExpansionGraph.NestedNamesExpand | crates/fluxion-core/src/expand.rs:38-92 | concrete input: a child named like another static foreach job is no clash |
| ExpansionGraph.NoForeachNoChange | crates/fluxion-core/src/expand.rs:38-143 | without static foreach jobs expansion is the identity |
| States.DecodeSerialize | crates/fluxion-core/src/store.rs:134-163 | decoding a stored status gives it back with durations cut to whole milliseconds (modulo 2^64) and running or ready turned into pending |
| States.PersistedTwice | crates/fluxion-core/src/store.rs:588-601 | storing a second time loses nothing more |
| States.RowsSay | crates/fluxion-core/src/store.rs:588-601 | the label, duration and reason every status is stored under |
| States.OddRows | crates/fluxion-core/src/store.rs:134-163 | rows nobody writes: an unknown label counts as pending, a missing duration as none, a missing reason as empty |
| States.PersistedKeeps | crates/fluxion-core/src/store.rs:134-163 | storing keeps a status's kind and reason and, as long as it fits, its duration up to less than a millisecond |
| Whens.GuardMeaning | crates/fluxion-host/src/scheduler.rs:1236-1261 | a well-written guard compares the status of exactly the named job, dots in the id included |
| Whens.GuardFalseExactly | crates/fluxion-host/src/scheduler.rs:1236-1261 | a guard is false if and only if it reads `job.status == …` with another status or `job.status != …` with this one; every malformed guard is true |
| Whens.TrimQuotesExact | crates/fluxion-host/src/scheduler.rs:1241 | all quotes at both ends of the right-hand side are stripped and nothing else |
| FanIns.FaninReadsItsChildren | crates/fluxion-host/src/scheduler.rs:741-753 | a default or json_array fan-in job reads an array with, at index k, what the k-th child wrote, null if nothing or no JSON |
| FanIns.ArrayAndCustomInput | crates/fluxion-host/src/scheduler.rs:741-776 | without any assumption on the JSON writer: the array mode writes the children's values, a custom reducer is the named component run on that very text, and if the text cannot be written there is no fan-in input |
| FanIns.CustomReducerReadsTheArray | crates/fluxion-host/src/scheduler.rs:764-776 | the named component is run on a text that parses to the array of the children's values |
| FanIns.ConcatInput | crates/fluxion-host/src/scheduler.rs:754 | with concat the fan-in input is the children's bytes one after the other: the k-th child's begin where those of the earlier ones end, and the lengths add up |
| FanIns.MergeInput | crates/fluxion-host/src/scheduler.rs:755-763 | with json_merge the fan-in input is an object: its keys are those of the children's objects, each with the value of the last child that has it |
| FanIns.NoFanin | crates/fluxion-host/src/scheduler.rs:730-740 | a job that is not fed from a foreach job with children has no fan-in input |
| FanIns.ConcatInChildOrder | crates/fluxion-host/src/scheduler.rs:754 | the k-th child's bytes stand between those of earlier and later children; ConcatInput ties this to what the job reads |
| FanIns.LastWriterWins | crates/fluxion-host/src/scheduler.rs:755-763 | the merge is shallow and per key the child with the highest index wins; MergeInput ties this to what the job reads |
| FanIns.MergedKeyHasWriter | crates/fluxion-host/src/scheduler.rs:755-763 | every merged key comes from the last child that has it |
| FanIns.ShallowIsDeepExactly | crates/fluxion-core/src/workflow.rs:181-182 | the merge equals the documented deep merge if and only if, for every key, the last child that has it covers what a deep merge of the earlier ones would keep |
| FanIns.MergeIsShallow | crates/fluxion-host/src/scheduler.rs:755-763 | concrete input on which the two differ |
| FanIns.FaninInputLocal | crates/fluxion-host/src/scheduler.rs:730-778 | a fan-in input depends on nothing but the outputs of the source's children |
| Scheduler.CascadeInto | crates/fluxion-host/src/scheduler.rs:594-664 | every job put on the cascade queue has left the pending set, so the breadth-first skip cascade ends |
| Settling.FailureNeverCancels | crates/fluxion-host/src/scheduler.rs:481-518 | a failure cancels nothing; it only ends the loop unless the job is a foreach child |
| Settling.DeliverSettles | crates/fluxion-host/src/scheduler.rs:424-691 | every event keeps: rows mirror statuses, `in_flight` counts the outstanding events, every running job has one, nothing is cancelled, and while no job failed every pending job waits for an unfinished one |
| Settling.StartSettled | crates/fluxion-host/src/scheduler.rs:342-419 | the same holds before the first event, reused jobs included |
| Settling.CascadeSettles | crates/fluxion-host/src/scheduler.rs:592-664 | the skip cascade leaves no pending job behind that waits for nothing |
| Skipping.CascadeDecides | crates/fluxion-host/src/scheduler.rs:592-664 | a cascade touches only pending jobs whose dependencies are done; it skips them, and runs one only if it has a guard |
| Skipping.ReleaseDecides | crates/fluxion-host/src/scheduler.rs:538-688 | when a job's dependencies are done it runs exactly if its guard holds, or, without a guard, if no dependency was skipped; otherwise it is skipped and stays so through the cascade |
| Settling.NoJobIsStuck | crates/fluxion-host/src/scheduler.rs:312-719 | for every workflow, with guards and repeated dependencies, and every event order: a run that ends without failure leaves every job succeeded or skipped |
| Settling.NothingIsCancelled | crates/fluxion-host/src/scheduler.rs:481-578 | no reachable state holds a cancelled or ready job |
| Settling.StoreRefinesMemory | crates/fluxion-host/src/scheduler.rs:430-431 | at every event boundary the rows read back are the statuses of exactly the non-pending jobs, up to what storing loses |
| Inputs.JobsRunOnTheirInput | crates/fluxion-host/src/scheduler.rs:373-394 | in every state of every run, guards and reused jobs included: a job that is not fed, or waits for nothing, is under way on the input the file gives it, and on no bytes if it gives none |
| Inputs.OutcomesAreOfTheirInput | crates/fluxion-host/src/scheduler.rs:1008-1014 | and its output, or the reason of its failure, is what its component makes of that input |
| Inputs.FedJobsRunOnTheirFanIn | crates/fluxion-host/src/scheduler.rs:673-688 | where nothing is harmful, a job that waits for others is under way on its fan-in input, computed from the outputs as they are now, and on the file's input where there is none |
| Inputs.OutcomesAreOfTheirFanIn | crates/fluxion-host/src/scheduler.rs:673-688 | and it ends with what its component makes of that; the outputs it read never change afterwards |
| Endings.DeliverCost | crates/fluxion-host/src/scheduler.rs:424-691 | every event strictly lowers the potential of the state (weights of the jobs under way and of those pending) |
| Endings.EveryRunEnds | crates/fluxion-host/src/scheduler.rs:424-691 | for every workflow there is a bound on the number of events of any of its runs |
| Moves.ReleaseAllTrace | crates/fluxion-host/src/scheduler.rs:524-691 | releasing dependents, cascades included, is a series of single launches and skips of ready jobs; each list entry is looked at once at most, and a cascade reaches only pending jobs below one skipped by the same event |
| Moves.TraceWaits | crates/fluxion-host/src/scheduler.rs:524-691 | an event changes no job that does not wait for the job that succeeded |
| Discipline.StartDiscipline | crates/fluxion-host/src/scheduler.rs:373-537 | guards and reused jobs included, when nothing is harmful: `in_flight` is the number of running jobs, no job starts twice, a started job has only finished dependencies, and without a guard only succeeded ones |
| Discipline.TraceOrderly | crates/fluxion-host/src/scheduler.rs:524-691 | after a success every look makes a first decision about a pending job or skips a skipped job again |
| Discipline.SpreadIsPlain | crates/fluxion-host/src/scheduler.rs:525-536 | a condition on the file: guarded jobs list distinct jobs none of which waits for another, and elsewhere a repeated dependency has another one waiting for it |
| Discipline.UnguardedHarm | crates/fluxion-host/src/scheduler.rs:525-536 | without a guard, harmful means exactly: listed twice, and nothing else listed waits for it |
| Discipline.TerminalForever | crates/fluxion-host/src/scheduler.rs:424-691 | a succeeded, failed or skipped job keeps its status for the rest of the run |
| Discipline.DownstreamOfFailureStaysPending | crates/fluxion-host/src/scheduler.rs:460-537 | everything transitively downstream of a failed job is pending in every later state |
| Discipline.SameJobSameFlight | crates/fluxion-host/src/scheduler.rs:424-432 | no job ever has two outstanding events |
| Repeats.AtMostOnceExactly | crates/fluxion-host/src/scheduler.rs:524-691 | for every workflow and set of reused jobs: no job starts twice, whatever guards say, components do and events and waiter lists are ordered, if and only if no pair of a job and its dependency is harmful |
| Repeats.RiggedStartsTwice | crates/fluxion-host/src/scheduler.rs:524-691 | the failing family: with guards that skip what lies between, hold the dependency back, look at its dependent last, and it starts twice |
| Repeats.ShortcutIsHarmful | crates/fluxion-host/src/scheduler.rs:585-688 | the guarded shortcut, for any workflow around it: guarded y and x wait for d, y waits for x, nothing else either lists waits for d |
| Witnesses.ListedTwiceStartsTwice | crates/fluxion-host/src/scheduler.rs:525-536 | concrete input: {d, y waits for d twice} is a valid configuration with a harmful pair, and some run of it starts y twice |
| Witnesses.ShortcutStartsTwice | crates/fluxion-host/src/scheduler.rs:585-688 | concrete input: {d, x waits for d, y waits for d and x}, x guarded by what never holds, y by what always does; some run starts y twice |
| Guards.ReadyShown | crates/fluxion-host/src/scheduler.rs:1252-1261 | what the statuses of all jobs can read when a job is decided: never a failure; nothing yet for the job itself and all downstream; an end for all upstream |
| Guards.NamedJobIsLocal | crates/fluxion-host/src/scheduler.rs:1236-1261 | a guard depends on nothing but the jobs upstream of its own if the job it names is up- or downstream, reused, unknown or the job itself, or cannot have run by then and is not asked about skips |
| Guards.ImpossibleTextIsLocal | crates/fluxion-host/src/scheduler.rs:1252-1261 | so does a guard that compares with a text its job cannot show by then, such as FAILED |
| Guards.DecisionPoint | crates/fluxion-host/src/scheduler.rs:538-688 | every job that was pending and no longer is was decided at one moment in between, when it was ready and no job had failed, and nothing upstream has changed since |
| Guards.FailuresAreNeverSeen | crates/fluxion-host/src/scheduler.rs:538-688 | a guard `== 'FAILED'` never lets its job run, a guard `!= 'FAILED'` always does, whatever job is named, unless the guard is not asked |
| Refinement.EvaluateFixpoint | crates/fluxion-host/src/scheduler.rs:424-719 | for every configuration: the sequential evaluator, whose guards see the upstream and the reused jobs only, gives each job the verdict its dependencies' verdicts call for |
| Refinement.OutputsAreSequential | crates/fluxion-host/src/scheduler.rs:424-719 | at any moment of any run, fresh or retried, every recorded output and every skip is the evaluator's |
| Refinement.DecisionRight | crates/fluxion-host/src/scheduler.rs:538-688 | when a job is ready, run or skip is decided as the evaluator decides, and the input is the evaluator's |
| Guards.GuardsAreObeyed | crates/fluxion-host/src/scheduler.rs:373-688 | a decided job whose own guard looks upstream only is skipped if and only if its guard is false, whatever other guards look at; a job that waits for nothing or for reused jobs only always runs |
| Refinement.RunRefinesEvaluation | crates/fluxion-host/src/scheduler.rs:312-719 | a finished run reports success exactly if the evaluator meets no failing job, and has then skipped the same jobs and holds the same outputs |
| Refinement.EvaluationOrderFree | crates/fluxion-core/src/dag.rs:87-124 | the evaluator's verdicts do not depend on which topological order the sort produced, whatever the guards |
| Refinement.RunsAgree | crates/fluxion-host/src/scheduler.rs:312-719 | two finished runs of one workflow that reuse the same jobs agree on success, skips and outputs, whatever the event and hash-map orders |
| Races.GuardsAgreeExactly | crates/fluxion-host/src/scheduler.rs:524-691 | over all workflows of one shape whose guards name the same jobs and do not ask about skips, finished runs agree on success, skips and outputs if and only if no guard names a job beside its own that need not wait for all its own job waits for; the same for guards of every kind where none is borderline |
| Races.GuardsCanRace | crates/fluxion-host/src/scheduler.rs:524-691 | the failing family: hold back the named job and the guarded one is skipped; hold back what only the guarded one waits for and it runs; both runs report success |
| Witnesses.RaceIsRacing | crates/fluxion-host/src/scheduler.rs:312-350 | concrete input: two jobs side by side, and one that waits for the first and asks about the second |
| Witnesses.RetryRunsWhatItsGuardForbids | crates/fluxion-host/src/scheduler.rs:395-419 | concrete input: a retry launches a job whose guard is false, its only dependency being reused |
| Retries.RunsAreBounded | crates/fluxion-host/src/scheduler.rs:424-691 | after n events n jobs have run to an end, the results list exactly the ended jobs with the right kind and, skips aside, once; reused, ended and running jobs never exceed the jobs there are |
| Retries.ResultsTell | crates/fluxion-host/src/scheduler.rs:436-473 | a result says ran, reused, broke or skipped exactly if its job has succeeded in this run, was reused, has failed, or was skipped |
| Retries.CountsTheSucceeded | crates/fluxion-host/src/scheduler.rs:693-718 | in every state, failures included, the counted results are as many as the succeeded jobs |
| Retries.DownstreamInclusive | crates/fluxion-host/src/scheduler.rs:1219-1231 | the breadth-first search returns exactly the start job and what transitively depends on it, unknown start ids included |
| Retries.PlanRetry | crates/fluxion-host/src/scheduler.rs:255-266 | reused are exactly the jobs that had succeeded and do not lie downstream of `from`, with their stored durations |
| Retries.RetryClosed | crates/fluxion-host/src/scheduler.rs:246-298 | the reused set is closed under dependencies if and only if no reused job had a skipped dependency, even when the previous run was interrupted |
| Retries.AttemptPlain | crates/fluxion-host/src/scheduler.rs:246-298 | without guards every retry in a chain of any length is closed and meets the start-once condition |
| Retries.RetryIsExact | crates/fluxion-host/src/scheduler.rs:246-298 | a retry of any run, guards included, starts only jobs downstream of `from` or not previously succeeded, each at most once; if it succeeds these are exactly the jobs it started or skipped |
| Retries.RetrySucceedsCompletely | crates/fluxion-host/src/scheduler.rs:693-718 | a successful run has a result for every job, and succeeded plus skipped jobs make up the total; without guards one result each and `succeeded == total` |
| Replays.ReplayAgreesExactly | crates/fluxion-host/src/scheduler.rs:342-419 | a closed retry of a fresh run with the same components decides and computes what the fresh run does for every job it runs again if no such job misses an input or escapes a false guard; and only then, when results depend on the whole input |
| Replays.ArrayKeptExactly | crates/fluxion-host/src/scheduler.rs:741-753 | a default or json_array fan-in job that is run again gets its fresh input if and only if every reused child had written null or no JSON |
| Replays.RetryReplays | crates/fluxion-host/src/scheduler.rs:246-298 | every closed retry of any state of a fresh run, interrupted or not, is of the kind these theorems are about |
| Replays.RetryEndsLikeAFreshRun | crates/fluxion-host/src/scheduler.rs:312-719 | then a finished retry succeeds, skips what the successful fresh run skips, and holds its outputs but for those of reused jobs |
| Witnesses.RetryForgetsAChild | crates/fluxion-host/src/scheduler.rs:350-406 | concrete input: a reused foreach child and a fan-in job that is run again and does not get what the child wrote |
| Execution.PreparedIsValid | crates/fluxion-host/src/scheduler.rs:323-350 | expansion and the graph give the scheduler all it relies on, even when a child takes another job's name |
| Execution.Prepare | crates/fluxion-host/src/scheduler.rs:323-338 | a run is refused exactly if expansion fails, the expanded graph is not schedulable, or a remote job has no worker; the error says which, the job named being the first such one in the order |
| Execution.Executor.Set | crates/fluxion-host/src/scheduler.rs:430-431 | status and stored row change together, and no row of another run |
| Execution.Executor.SeedReused | crates/fluxion-host/src/scheduler.rs:353-368 | exactly the reused jobs become succeeded, each with a result |
| Execution.Executor.StartRoots | crates/fluxion-host/src/scheduler.rs:373-394 | every root that is not reused is launched once, with its own input (which JobsRunOnTheirInput spells out) |
| Execution.Executor.StartUnblocked | crates/fluxion-host/src/scheduler.rs:396-419 | every other job whose dependencies are all reused is launched once |
| Execution.Executor.Begin | crates/fluxion-host/src/scheduler.rs:342-419 | the start loops reach the machine's start state |
| Execution.Executor.CascadeOne | crates/fluxion-host/src/scheduler.rs:596-662 | one downstream job: left alone unless pending and ready, launched if its guard holds, else skipped |
| Execution.Executor.CascadeSkips | crates/fluxion-host/src/scheduler.rs:589-664 | the queue loop ends and is the machine's cascade |
| Execution.Executor.ReleaseJob | crates/fluxion-host/src/scheduler.rs:525-688 | one dependent: not ready, cancelled, skipped with cascade, or launched, as the machine decides |
| Execution.Executor.ReleaseDependents | crates/fluxion-host/src/scheduler.rs:524-691 | the dependents loop is the machine's release, in list order |
| Execution.Executor.OnSuccess | crates/fluxion-host/src/scheduler.rs:424-459 | the success arm |
| Execution.Executor.RecordFailure | crates/fluxion-host/src/scheduler.rs:460-473 | the failure arm up to the parent look-up |
| Execution.Executor.AfterFailed | crates/fluxion-host/src/scheduler.rs:481-518 | the parent look-up with its cancel loop and early exits, whichever map entry is found first |
| Execution.Executor.OnEvent | crates/fluxion-host/src/scheduler.rs:424-691 | the loop body is one machine event |
| Execution.Executor.Run | crates/fluxion-host/src/scheduler.rs:342-691 | for every workflow and event order the loop terminates and the database holds what memory holds after every event; success means every job succeeded or was skipped; with local guards and nothing harmful the run computes the sequential evaluation |
| Execution.Execute | crates/fluxion-host/src/scheduler.rs:312-719 | refuses exactly the unacceptable workflows, with the right error and the store untouched; otherwise reports the end of a complete run, stored under its own id and nowhere else: its results, its success, how many succeeded, how many jobs there are; and every job that is not fed has ended as its component ends on the job's own input |
| Execution.JobsRunAsWritten | crates/fluxion-host/src/scheduler.rs:373-394 | from the file to the component: a job that is neither expanded nor fed is run on the input the file gives it, the i-th child of a foreach job on the i-th element of its array |
| Execution.FreshFromWorkflow | crates/fluxion-host/src/scheduler.rs:312-350 | conditions readable off the workflow file, guards allowed, under which preparation succeeds and fresh runs start jobs once; if guards name upstream jobs that expansion keeps, such runs compute the sequential evaluation |
| Execution.ReportIsSequential | crates/fluxion-host/src/scheduler.rs:693-718 | the reported success is the evaluator's, and then the reported successes are the jobs the evaluator does not skip |
| Execution.Retry | crates/fluxion-host/src/scheduler.rs:246-298 | succeeds exactly if the previous run is known, the graph as written is schedulable and the workflow is accepted, and says what is wrong otherwise; the new run is recorded with its workflow path, and nothing is recorded if the previous run is unknown or the graph unschedulable; reuses exactly the stored successes not downstream of `from`, with their durations; leaves all other runs alone |
| Execution.RunWorkflow | crates/fluxion-host/src/scheduler.rs:207-244 | a fresh run is recorded with its workflow path before it is checked, reuses nothing, and is stored under its own id |
| Execution.RetryCommand | crates/fluxion-cli/src/main.rs:330-339 | the workflow of a retry is found through the path stored with the run, and the retry is stored with the same path, so retries can be chained; reading the retry back gives the statuses it ended with |
| Execution.RetryPlansOnTheGraphItRuns | crates/fluxion-host/src/scheduler.rs:255-258 | without foreach the planned graph is the executed graph, so the retry theorems apply to that method |
| Execution.HasFlight | crates/fluxion-host/src/scheduler.rs:424-425 | while `in_flight` is positive there is a task to wait for |
| Stores.RunStore.UpsertJob | crates/fluxion-core/src/store.rs:99-111 | changes one row of one run and nothing else |
| Stores.RunStore.LoadRun | crates/fluxion-core/src/store.rs:124-164 | fails for an unknown run; otherwise exactly that run's rows, decoded |
| Stores.RunStore.DueSchedules | crates/fluxion-core/src/store.rs:371-391 | exactly the due entries, each once, earliest first |
| Stores.RunStore.ClaimSchedule | crates/fluxion-core/src/store.rs:407-413 | compare-and-set of one row |
| Stores.RunStore.UpdateScheduleNext | crates/fluxion-core/src/store.rs:394-400 | unconditional write of one row |
| Daemons.FireOne | crates/fluxion-cli/src/main.rs:1120-1171 | one entry of the pass is a run of claim-protocol steps; the row changes exactly if the claim is won |
| Daemons.FireDueSchedules | crates/fluxion-cli/src/main.rs:1102-1172 | an undisturbed pass is a protocol run that claims exactly the due schedules with a next occurrence, each once; those have that occurrence as `next_run_at` and, if their workflow loads, a `last_run_at` not before the pass; all others are as they were |
| Schedules.ClaimedAtMostOnce | crates/fluxion-cli/src/main.rs:1102-1172 | any number of daemons, any interleaving, restarts included, updates timely: no (schedule, next_run_at) value is claimed twice and `next_run_at` never goes back |
| Schedules.WinningClaimAdvances | crates/fluxion-core/src/store.rs:407-413 | a won claim strictly advances `next_run_at` |
| Schedules.LateUpdateIsExactlyTheDanger | crates/fluxion-core/src/store.rs:394-400 | an update leads to a system that can fire a value twice if and only if another daemon has claimed the schedule meanwhile |
| Schedules.SlowWorkflowFiresTwice | crates/fluxion-cli/src/main.rs:1150-1170 | concrete input: two daemons, a schedule every 100 seconds, a workflow that outlives the next occurrence |
| Dispatching.Worker.HandleCasPut | crates/fluxion-worker/src/lib.rs:353-390 | a body is accepted if and only if its digest is the name, letter case aside; then it is stored under that name, and otherwise nothing changes |
| Dispatching.LowerFolds | crates/fluxion-worker/src/lib.rs:353-390 | letter case aside means: only A to Z change, into their small forms |
| Dispatching.Announce | crates/fluxion-host/src/remote.rs:54-106 | probe and upload, any message lost: the store gains the component under its digest exactly if it was not found and the upload arrived, and the request goes by hash exactly if the client knows that the worker has the bytes |
| Dispatching.EveryClientCanBeServed | crates/fluxion-host/src/remote.rs:45-350 | from every reachable state every client that starts can still get its answer, by hash, with its component in the store |
| Dispatching.ProbeStaysGood | crates/fluxion-worker/src/lib.rs:345-351 | after a positive probe, whatever happens in between, running by hash runs exactly the bytes probed for |
| Dispatching.Worker.HandleRun | crates/fluxion-worker/src/lib.rs:212-332 | stored bytes, else inline bytes, else an error, else no bytes if the request names nothing; then execution on the request's input |
| Dispatching.Worker.HandleSubmit | crates/fluxion-worker/src/lib.rs:102-137 | the entry is visible as running before the task starts |
| Dispatching.Worker.FinishTask | crates/fluxion-worker/src/lib.rs:158-198 | the store is consulted when the task runs, and the entry becomes its result |
| Dispatching.RequestRunsBytes | crates/fluxion-worker/src/lib.rs:158-198 | with a collision-free hash, what stands under a component's name is that component |
| Dispatching.AnswersAreExact | crates/fluxion-host/src/remote.rs:45-350 | any interleaving of clients, uploads, losses and tasks: whatever answer a client gets is what executing its own bytes on its own input gives, and every stored file hashes to its name |
| Dispatching.EntriesAreFinal | crates/fluxion-worker/src/lib.rs:102-154 | a job entry leaves `running` at most once |
| Dispatching.RunRemote | crates/fluxion-host/src/remote.rs:45-178 | probe, upload and run against a worker, any message lost: the reply is exactly the result of the caller's bytes on its input if the worker's answer gets through, and otherwise none; the store stays honest and only grows |
| Dispatching.RunRemoteAsync | crates/fluxion-host/src/remote.rs:184-350 | submit and poll until terminal or out of patience: the reply is exactly the result of the caller's bytes on its input if the job was accepted and ends in time, and otherwise none; an answer is what the job entry says; all other entries are untouched |
| Caches.RunRight | crates/fluxion-host/src/lib.rs:217-267 | one run: everything cached stays filed under a key it was used with, and if no key is shared the run gets a fresh compile and link of its bytes |
| Caches.TransparentExactly | crates/fluxion-host/src/lib.rs:183-267 | after every history of runs, evictions, corruption and deletions every run gets what a fresh compile and link would give, if and only if no key is shared by different components of which one would run |
| Caches.CachesAreTransparent | crates/fluxion-host/src/lib.rs:149-267 | in particular whenever keys are hashes of the bytes |
| Caches.CapacityKept | crates/fluxion-host/src/lib.rs:68-69 | both memory caches stay within capacity, whatever the keys |
| Caches.SixtyFourEntries | crates/fluxion-host/src/lib.rs:68-69 | that capacity is 64: never more entries, and with fewer a run drops none |
| Caches.ColdRun | crates/fluxion-host/src/lib.rs:217-267 | a run that finds nothing usable succeeds exactly if its bytes compile, the artifact can be written and the component links, and leaves the artifact on disk |
| Caches.UsedKeysComeFirst | crates/fluxion-host/src/lib.rs:371-377 | after a run its key is the most recently used one in both memory caches |
| Caches.WarmRun | crates/fluxion-host/src/lib.rs:217-267 | once a run has succeeded, the same key runs the same component without compiler, linker or disk |
| Caches.RestartedRun | crates/fluxion-host/src/cache.rs:89-121 | an artifact outlives the process: after a run that compiled, a new process without a compiler runs the same component, if it links |
| Caches.CorruptFilesGo | crates/fluxion-host/src/cache.rs:98-106 | a corrupt file does not survive the run that finds it |
| Caches.DigestKeys | crates/fluxion-host/src/cache.rs:19-27 | a digest is used as it is, without `sha256:` in front |
| Caches.LocalFilesAreHonest | crates/fluxion-host/src/lib.rs:149-177 | path keys and keys derived from pulled bytes are the hash of the bytes |
| Caches.SharedKeyServesTheWrongComponent | crates/fluxion-host/src/lib.rs:183-267 | the failing family: two components under one key, the second run executes the first |
| Sharing.AloneIsRunWithKey | crates/fluxion-host/src/lib.rs:217-267 | the single accesses of one undisturbed run are the run of module Caches |
| Sharing.AccessSane | crates/fluxion-host/src/lib.rs:217-267 | every single locked access, whatever other runs did since the one before, keeps all entries under a key they were used with |
| Sharing.TransparentTogetherExactly | crates/fluxion-host/src/lib.rs:183-267 | however the accesses of any number of runs interleave, with files corrupted and deleted in between, every ended run got what a fresh compile and link would give, under exactly the condition of TransparentExactly |
| Caches.PutKeeps | crates/fluxion-host/src/lib.rs:68-69 | inserting into a full LRU cache drops only old entries and finds the new one |
| Caches.PutEvictsOldest | crates/fluxion-host/src/lib.rs:68-69 | an insertion drops nothing below capacity, and otherwise only the least recently used entry |
| Caches.TouchTransparent | crates/fluxion-host/src/lib.rs:371-377 | a hit moves the entry to the front and changes nothing that can be found |
| Caches.FluxionHost.FetchComponent | crates/fluxion-host/src/lib.rs:217-245 | the lookup order and the cache updates, a rejected artifact deleted |
| Caches.FluxionHost.FetchLinked | crates/fluxion-host/src/lib.rs:248-267 | L0 lookup and fill |
| Caches.FluxionHost.PrepareWithKey | crates/fluxion-host/src/lib.rs:183-267 | both phases under one key |
| Caches.FluxionHost.PrepareFromOci | crates/fluxion-host/src/lib.rs:149-177 | registry runs are transparent for any pulled bytes |
| LoadBalancing.OwnerOf | crates/fluxion-host/src/scheduler.rs:862-871 | in 32-bit arithmetic the index stays in range; while the weights fit in 32 bits it owns the slot, so the trailing fallback is dead |
| LoadBalancing.PickWeighted | crates/fluxion-host/src/scheduler.rs:857-871 | the counter advances once, the pick is in range and, while the weights fit in 32 bits, owns its slot; panics exactly without configured workers |
| LoadBalancing.PicksAddUp | crates/fluxion-host/src/scheduler.rs:857-871 | every counter value picks exactly one worker |
| LoadBalancing.ExactlyProportional | crates/fluxion-host/src/scheduler.rs:857-871 | k turns of consecutive counter values that cross no multiple of 2^32 pick each worker exactly k times its weight |
| LoadBalancing.ProportionalAcrossWrap | crates/fluxion-host/src/scheduler.rs:857-871 | windows that do cross a wrap are proportional too if and only if the total weight divides 2^32 or one worker carries it all |
| LoadBalancing.RotationIsPermutation | crates/fluxion-host/src/scheduler.rs:852 | the candidate list is the healthy workers turned around so that the chosen one stands first, each exactly once |
| LoadBalancing.ResolveWorkers | crates/fluxion-host/src/scheduler.rs:830-853 | pinned worker alone, none, or the healthy workers turned around; who comes first under each strategy, and how the shared counter moves; panics exactly for the weighted strategy with discovered workers only |
| LoadBalancing.FirstsAreShares | crates/fluxion-host/src/scheduler.rs:830-871 | for every list of healthy workers, k full turns try a URL first exactly k times the sum of the configured weights whose index, counted around that list, stands at it |
| LoadBalancing.ProportionalExactly | crates/fluxion-host/src/scheduler.rs:830-871 | so a URL gets exactly its weight if and only if that sum is its weight |
| LoadBalancing.EachUrlGetsItsWeight | crates/fluxion-host/src/scheduler.rs:830-871 | in particular while the healthy workers are the configured ones |
| LoadBalancing.PlainWorkersShareEqually | crates/fluxion-core/src/workflow.rs:69-75 | workers in the plain form share equally |
| LoadBalancing.WeightsShiftWhenAWorkerIsDown | crates/fluxion-host/src/scheduler.rs:845-852 | concrete input: of weights 1, 1 and 2 the first worker is down; in every number of turns the second is tried first three times out of four |
| LoadBalancing.RunWithFailover | crates/fluxion-host/src/scheduler.rs:900-943 | workers are asked in order, each once, up to the first that is not unreachable, whose answer is returned; panics exactly on an empty list |
| LoadBalancing.DispatchRemote | crates/fluxion-host/src/scheduler.rs:900-943 | check, resolution and failover in one: a remote job is never dispatched to an empty list, the only panic left is the weighted strategy's without configured workers; the result is the answer of the first candidate that is not unreachable, delivered if it is an output and a rejection naming those asked if not, and a rejection naming all if none can be reached |
| OciRefs.ParseWellFormed | crates/fluxion-core/src/registry.rs:32-68 | what a parse can produce |
| OciRefs.PrintAfterParse | crates/fluxion-core/src/registry.rs:71-82 | printing any accepted reference's parse gives the text back |
| OciRefs.ParseAfterPrint | crates/fluxion-core/src/registry.rs:32-82 | a record survives print-then-parse if and only if it is well-formed |
| OciRefs.ParsersAgree | crates/fluxion-host/src/oci.rs:427-443 | both parsers understand an accepted reference the same way if and only if it does not carry both tag and digest |
| OciRefs.LatestIsFetched | crates/fluxion-host/src/oci.rs:427-443 | without tag or digest `latest` is fetched |

## Left out

- RunRefinesEvaluation: assumes that guards are local and that nothing is harmful; GuardsAgreeExactly and AtMostOnceExactly show that neither can be dropped.
- GuardsAgreeExactly: leaves open guards that compare with 'SKIPPED' or 'UNKNOWN' the status of a job that waits for everything the guarded job waits for and could be skipped by the very event that makes the guarded job ready (`Borderline`). Whether it is skipped before or after the guard is asked depends on the order of waiter lists and on how many steps the cascade takes to reach it.
- ReplayAgreesExactly: assumes that the reused set is closed (RetryClosed says exactly when it is) and that the components behave as before.
- RetryIsExact: speaks of the graph that is run; `retry_inner` plans on the unexpanded graph, and the two agree without foreach (RetryPlansOnTheGraphItRuns). A retry of a workflow with foreach gets only what `Retry` states.
- RunsAreBounded: a job skipped by a cascade may be skipped, and reported, once more by the dependents loop; the results are therefore only said to list a skipped job at least once.
- ExpansionSchedulable: assumes that no child takes the name of a job that keeps its own (ExpandsFaithfullyExactly shows that this is needed) and that all `input_from` sources are static foreach jobs; for other workflows only what `FanWellFormed` and `PreparedIsValid` state is proved. The nesting-depth limit concerns dynamic expansion only.
- ClaimedAtMostOnce: assumes timely updates; LateUpdateIsExactlyTheDanger shows that each untimely update is dangerous. A snapshot may omit due entries and order them freely, which covers more than the code does. Schedules added or removed while daemons run are not modelled.
- FireDueSchedules: describes a pass without competitors; competition is the subject of the step machine.
- PickWeighted: weights that add up to 2^32 or more wrap around, as in a release build; a debug build panics there. Nothing is said about who is picked then.
- TransparentTogetherExactly: a disk file that is read while another run writes it counts as corrupt.
- AnswersAreExact: assumes a hash without collisions (letter case aside) and atomic file writes; base64 and JSON decoding errors and transport authentication are not modelled.
- Executing components: WASI contexts, permissions, the epoch ticker, memory, time and output limits; a job's outcome is an arbitrary function of its id and input bytes. Job fields the model does not have are not described; of those it has, ChildrenGetTheirElements, OthersStay and NothingElseAppears say what expansion makes of them.
- The `max_parallel` semaphore (a limit of zero would let no job finish) and tasks that panic without sending an event.
- The load balancer's effect on outcomes: where a job runs is not part of its outcome.
- HTTP, TLS, DNS, SRV look-ups, SQL and file I/O, and failures of the store in the middle of a run; only the resulting atomic changes are modelled. A run's `success` column is not.
- JSONPath evaluation, JSON text and cron expressions, which are parameters.
- SHA-256 itself, which is an abstract injective function.
- `expand_foreach_dynamic`, `insert_nodes` and `remove_node`, which the scheduler never calls.
- `pick_least_conn` and health checks (their answer is a parameter), metrics, tracing, printing, timestamps.
- Durations are natural numbers of nanoseconds; the store's 64-bit milliseconds are modelled, SQLite's signed range is not.
- Text and bytes are both sequences of characters.
- Pruning of old runs, the worker table, registry rows, the web UI, the REST API, the MCP server, watch mode and the command line: easy members only.
