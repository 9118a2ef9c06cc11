# Automation engine and Matter coordination: a verified model

HomeMagic compiles an automation document (an action tree with variables,
conditions, retries, failure policies and parallel or race groups) to a graph
plan, interprets that plan on two hosts, and surrounds the interpretation with
protocols that survive crashes and interleavings. This project models those
parts in Dafny and proves what they promise.

| file | contents |
|---|---|
| `Domain.dfy`, `Wrappers.dfy` | documents, plans, readings, traces |
| `Numerals.dfy`, `Evaluator.dfy`, `Observations.dfy`, `ConditionMeaning.dfy` | expressions, conditions, compile-time checks, type soundness, values read from JSON, what conditions mean |
| `Reduction.dfy` | last-command-wins reduction |
| `Lowering.dfy`, `PlanShape.dfy`, `PlanFences.dfy`, `Compiler.dfy`, `Acceptance.dfy` | lowering to nodes, shape of plans, the compiler object, which documents it accepts |
| `Structured.dfy`, `Authored.dfy`, `PlanMachine.dfy`, `CompilerCorrectness.dfy`, `PlanInvariant.dfy`, `Arrivals.dfy` | meaning of the reduced and of the authored tree, node-level machine, agreement of the two, invariants, how often nodes are entered |
| `Simulator.dfy`, `HostAgreement.dfy`, `VirtualTime.dfy` | the recursive simulator, when it agrees with the runtime, its virtual clock |
| `Retries.dfy`, `Durations.dfy`, `Intervals.dfy`, `DurableRuntime.dfy` | retries, stability intervals and what was seen of them, the durable runtime |
| `CommandStore.dfy`, `CommandProtocol.dfy`, `CommandCauses.dfy` | command creation and lifecycle, desired slots, interleaved workers, what brings a command into each state |
| `IdempotencyKeys.dfy`, `RunCommands.dfy` | the keys of a run's commands, one dispatch per attempt |
| `Scheduler.dfy`, `Events.dfy` | admission of work, materialisation of events |
| `Subscription.dfy`, `Projection.dfy` | subscription recovery, folding of reports |

How the pieces fit: a document that compiles is lowered from its normalized
tree; running the plan on the node-level machine is proved to be the
interpretation of the tree as its author wrote it, in which a command that a
later one of its uninterrupted run overwrites is not executed
(`PlanRunsAsTree`, `NormalizedMeansAuthored`). The durable runtime is proved
to make, with every commit, no step or one step of that machine
(`DurableRun.Valid`, `Refines`), so a durable run means the tree as well
(`DurableRunMeansTree`). The simulator is related to the same machine: with
its stop markers kept it would be the machine (`KeptMarkersRunAsMachine`), and
`HostsAgreeIffNoBranchEchoes` says when the markers it drops make a difference.
What the conditions on the way mean is said in `ConditionMeaning.dfy`, and what
a stability condition of a durable run stands for in `StableOverTheRun`.
Commands that a run requests are created under injective keys
(`KeyTextInjective`, `AttemptIsNew`); the command service makes one command of
a key (`CreateAnswers`) and hands it to the dispatcher at most once
(`DispatcherCalledAtMostOnce`), so each run, node, target and attempt is
dispatched at most once (`AttemptIsDispatchedAtMostOnce`); every state a
command gets to has one move as its cause (`StateHasCause`).

What a run reads from outside (observations, local clocks, matured intervals,
command outcomes) is a sequence of readings that is consumed in order. Time is
an integer number of milliseconds. Repository contracts that are assumed: a
step commit is atomic and checks the run revision
(`crates/homemagic-storage/src/automation_repository.rs:991-1034`,
`crates/homemagic-storage/src/automation_repository.rs:1214-1240`); a command
transition checks the version
(`crates/homemagic-storage/src/command_repository.rs:431-471`); inserts are
idempotent by stable identity; derived identities are injective.

Places where the code does not do what one might expect are kept, each with a
lemma that names an input and one that says exactly when it happens:
`CarryingOnInABranchDiverges` and `HostsAgreeIffNoBranchEchoes`;
`HostsAgreeIffGuardHolds`; `ReductionInvisibleIffDisplacersAbsolute`;
`IntegralPercentIsMistyped` and `ObservedComparisonMismatchesIffMisfit`;
`RestoredRunEscapesCapacity` and `PassKeepsLimitsIff`;
`MatureIntervalOutlivesFailure` and `PendingSightingIsKeptIff`;
`CancelledOwnerBlocksSlot` and `ReplaceableIffOwnerCancellableOrDispatched`.

## Model

| member | source | states |
|---|---|---|
| Evaluator.DotAt | crates/homemagic-application/src/automation_compiler.rs:1157-1180 | the split position of a decimal text is its first dot |
| Evaluator.ValuesTotallyOrdered | crates/homemagic-application/src/automation_evaluator.rs:171-205 | comparable values are totally ordered: the order flips, is transitive and respects equality, for every value type |
| Evaluator.NegationExchangesAllAndAny | crates/homemagic-application/src/automation_evaluator.rs:104-149 | short-circuiting All and Any are exchanged by negation, errors included |
| Evaluator.ExchangedWindowsDivideDay | crates/homemagic-application/src/automation_evaluator.rs:151-169 | windows across midnight complement the windows with exchanged ends |
| Evaluator.UncompiledConditionHasFinding | crates/homemagic-application/src/automation_compiler.rs:622-713 | a condition that is not compiled always leaves a finding |
| Evaluator.CanonicalDecimalIsNumber | crates/homemagic-application/src/automation_compiler.rs:1157-1180 | every canonical decimal can be compared as a number |
| Evaluator.ExpressionSound | crates/homemagic-application/src/automation_compiler.rs:738-789 | a checked expression yields a value of its compiled type or a missing value, a missing variable only while a declared one has no value |
| Evaluator.ConditionSound | crates/homemagic-application/src/automation_evaluator.rs:104-205 | on typed input a checked condition never ends in a type mismatch or invalid time window, and not in a missing variable while every declared one has a value |
| Observations.MismatchesIffTypesDiffer | crates/homemagic-application/src/automation_evaluator.rs:171-206 | a checked comparison ends in a type mismatch exactly when both operands have values and these differ in type |
| Observations.TypedReadingIffNothingMisfits | crates/homemagic-application/src/automation_runtime.rs:1420-1431 | the observations that type soundness needs are typed exactly when no observed field has JSON of another type than its compiled one |
| Observations.ObservedComparisonMismatchesIffMisfit | crates/homemagic-application/src/automation_runtime.rs:1420-1431 | a checked comparison of an observed field fails with a mismatch exactly when the JSON of the field has a value of another type and the other operand has a value |
| Observations.DecimalFieldMismatchesIffNotFractional | crates/homemagic-application/src/automation_compiler.rs:907-912 | for a field typed as decimal this is any JSON with a value but a number that is no signed 64-bit integer |
| Observations.IntegralPercentIsMistyped | crates/homemagic-application/src/automation_runtime.rs:1424-1427 | every integral percentage fails a comparison with a percentage that compiles without findings |
| ConditionMeaning.OperatorsMean | crates/homemagic-application/src/automation_evaluator.rs:171-206 | on two values of one type every operator holds exactly as the order of that type says: numbers, instants and durations by size, decimals as numbers, false before true, texts by first difference or proper prefix |
| ConditionMeaning.ListsMean | crates/homemagic-application/src/automation_evaluator.rs:119-136 | All holds exactly if every member holds, Any exactly if some member does and all before it fail; the first member that decides or errs gives the result |
| ConditionMeaning.NegationAndIntervalMean | crates/homemagic-application/src/automation_evaluator.rs:136-149 | negation exchanges the answers and keeps errors; an interval holds exactly if its condition holds and it is mature |
| ConditionMeaning.WindowMeans | crates/homemagic-application/src/automation_evaluator.rs:151-169 | a window holds exactly for less than its length after its start, across midnight too |
| ConditionMeaning.DecimalReads | crates/homemagic-application/src/automation_evaluator.rs:179-190 | decimal text is its whole part plus its fraction, negative behind a minus sign |
| ConditionMeaning.ExponentReads | crates/homemagic-application/src/automation_evaluator.rs:179-190 | an exponent multiplies by its power of ten, or divides by it behind a minus sign |
| ConditionMeaning.ObservedFieldMeans | crates/homemagic-application/src/automation_runtime.rs:1420-1431 | an observed field equals a literal exactly if the JSON observed at the first target says that very value |
| Reduction.ReduceActions | crates/homemagic-application/src/automation_compiler.rs:1182-1209 | the buffering loop computes the last-command-wins reduction |
| Reduction.Flush | crates/homemagic-application/src/automation_compiler.rs:1185-1198 | flushing a run keeps exactly the last command per target, in order |
| Reduction.ReduceIdempotent | crates/homemagic-application/src/automation_compiler.rs:1182-1268 | reducing twice, through all nesting, changes nothing more |
| Reduction.NormalizeAbsorbsReduce | crates/homemagic-application/src/automation_compiler.rs:325-363 | reducing at every level while compiling equals one normalization of the whole tree |
| Reduction.NormalizeReduced | crates/homemagic-application/src/automation_compiler.rs:325-363 | normalizing after reducing is normalizing |
| Reduction.NormalizedIsReduced | crates/homemagic-application/src/automation_compiler.rs:325-363 | a normalized tree is already reduced, at every nesting level |
| Reduction.ReduceKeepsBarriers | crates/homemagic-application/src/automation_compiler.rs:1199-1208 | every action that is no command is kept, in order, reduced inside |
| Reduction.ReducedRunsHaveDistinctTargets | crates/homemagic-application/src/automation_compiler.rs:1185-1198 | commands of one uninterrupted run name distinct targets afterwards |
| Reduction.ReducePreservesDeviceState | crates/homemagic-application/src/automation_compiler.rs:1182-1209 | with absolute displacing payloads every run ends in the same device state, for any overlapping resolution of targets and any disturbance between runs |
| Reduction.ReductionInvisibleIffDisplacersAbsolute | crates/homemagic-application/src/automation_compiler.rs:1187-1197 | reduction is invisible for every resolution exactly when each displaced command is displaced by an absolute payload |
| Lowering.ListExtends | crates/homemagic-application/src/automation_compiler.rs:325-363 | lowering only appends; a missing entry has a finding; without findings exactly the counted nodes are added |
| Lowering.ActionExtends | crates/homemagic-application/src/automation_compiler.rs:366-591 | the same for every kind of action: None implies a finding |
| Lowering.PolicyExtends | crates/homemagic-application/src/automation_compiler.rs:593-620 | the same for failure policies |
| Lowering.BranchesExtend | crates/homemagic-application/src/automation_compiler.rs:534-591 | the same for group branches, which all get an entry |
| PlanShape.ListFits | crates/homemagic-application/src/automation_compiler.rs:325-363 | a lowered list is a region: edges present and descending, leaving only to its continuation |
| PlanShape.ActionFits | crates/homemagic-application/src/automation_compiler.rs:366-532 | the same for every action |
| PlanShape.GroupRegionFits | crates/homemagic-application/src/automation_compiler.rs:534-591 | the interior of a group lies between join and group and leaves only through the join |
| PlanShape.ActionReaches | crates/homemagic-application/src/automation_compiler.rs:366-591 | entering a piece makes all its nodes and its continuation reachable |
| PlanFences.ListEntryOnTop | crates/homemagic-application/src/automation_compiler.rs:325-363 | a lowered list is entered at its last node, or at what follows when it has none |
| PlanFences.ActionSealed | crates/homemagic-application/src/automation_compiler.rs:366-591 | no node leads into a group that lies below it |
| PlanFences.BranchesSealed | crates/homemagic-application/src/automation_compiler.rs:534-591 | the branches of a group are stacked intervals that lead only down inside themselves or to the join |
| Compiler.Compile | crates/homemagic-application/src/automation_compiler.rs:78-175 | a plan is returned exactly without findings, within the node budget, with the completing node first |
| Compiler.CompileDocument | crates/homemagic-application/src/automation_compiler.rs:78-175 | the imperative compiler returns what the specification says |
| Acceptance.CompilesIff | crates/homemagic-application/src/automation_compiler.rs:78-175 | a plan is made exactly of acceptable documents: every action, condition and expression that is not overwritten, at every depth, satisfies its stated rule |
| Acceptance.ActionAcceptedIff | crates/homemagic-application/src/automation_compiler.rs:366-620 | an action has no finding exactly if its target, payload, retries, timers, types, widths, depth and everything inside it are accepted |
| Acceptance.ConditionAcceptedIff | crates/homemagic-application/src/automation_compiler.rs:622-736 | a condition has no finding exactly if its operands have one type, that type has the order the operator needs, lists are not empty, windows and timers are valid, and it is not too deep |
| Compiler.PlanCompiler.PushNode | crates/homemagic-application/src/automation_compiler.rs:1064-1072 | a pushed node gets the next position as its id |
| Compiler.PlanCompiler.CompileActions | crates/homemagic-application/src/automation_compiler.rs:325-363 | the backward loop lowers the normalized actions |
| Compiler.PlanCompiler.CompileAction | crates/homemagic-application/src/automation_compiler.rs:366-532 | each action is lowered as its normalized form |
| Compiler.PlanCompiler.CompileGroup | crates/homemagic-application/src/automation_compiler.rs:534-591 | groups push their join first and themselves last |
| Compiler.PlanCompiler.CompileFailure | crates/homemagic-application/src/automation_compiler.rs:593-620 | failure policies compile to where they lead |
| Compiler.PlanCompiler.CompileCondition | crates/homemagic-application/src/automation_compiler.rs:622-713 | a condition is resolved exactly when its check compiles, with the same findings |
| Compiler.PlanCompiler.CompileConditionList | crates/homemagic-application/src/automation_compiler.rs:715-736 | every member of a condition list is checked |
| Compiler.PlanCompiler.CompileExpression | crates/homemagic-application/src/automation_compiler.rs:738-789 | an expression is resolved with its type, or has a finding |
| Structured.ExecuteAddsOnce | crates/homemagic-application/src/automation_runtime.rs:236-405 | interpreting a tree enters each action at most once and makes each attempt at most once |
| Authored.NormalizedMeansAuthored | crates/homemagic-application/src/automation_compiler.rs:325-620 | the tree that is lowered means the tree that was written, without the commands that a later one of their run overwrites |
| Authored.NormalIffNothingOverwritten | crates/homemagic-application/src/automation_compiler.rs:1182-1268 | a tree is lowered as it was written exactly if no uninterrupted run of commands, at any depth, names a target twice |
| Authored.GroupsMean | crates/homemagic-application/src/automation_runtime.rs:455-514 | branches run one after the other; a race is won by the first that is not stopped and fails without one, a parallel group is done once all are done or stopped, anything else ends the group |
| PlanMachine.ListRuns | crates/homemagic-application/src/automation_runtime.rs:236-405 | from the entry of a lowered list the machine gets where the interpretation of the list ends, within its cost |
| PlanMachine.ActionRuns | crates/homemagic-application/src/automation_runtime.rs:236-405 | the same for each action |
| PlanMachine.CommandRuns | crates/homemagic-application/src/automation_runtime.rs:764-1067 | the same for a command with retries and failure policy |
| PlanMachine.IfRuns | crates/homemagic-application/src/automation_runtime.rs:291-329 | the same for a conditional, of which one side runs |
| PlanMachine.BranchesRun | crates/homemagic-application/src/automation_runtime.rs:412-514 | parallel absorbs stopped branches, race ends at the first unstopped one and fails without one |
| PlanMachine.JoinResumes | crates/homemagic-application/src/automation_runtime.rs:455-514 | what the join of a group does after each kind of branch |
| CompilerCorrectness.PlanRunsAsTree | crates/homemagic-application/src/automation_compiler.rs:325-620 | for every compiling document and every reading stream the run reads, traces, writes and ends as the interpretation of the authored tree, within a fixed number of steps |
| CompilerCorrectness.NothingRunsTwice | crates/homemagic-application/src/automation_runtime.rs:455-514 | at every moment the trace holds no node twice and no attempt of a command twice |
| CompilerCorrectness.NeverInvalidPlan | crates/homemagic-application/src/automation_runtime.rs:236-242 | no run of a compiled plan meets a missing node, edge or join |
| CompilerCorrectness.CompiledPlanFits | crates/homemagic-application/src/automation_compiler.rs:78-117 | returned plans have Complete only at zero, present and descending edges and enclosed groups |
| CompilerCorrectness.EveryNodeReachable | crates/homemagic-application/src/automation_compiler.rs:325-620 | every node of a returned plan is reachable from its entry |
| CompilerCorrectness.PlanSize | crates/homemagic-application/src/automation_compiler.rs:1064-1072 | the number of nodes is one more than the authored tree needs without its overwritten commands |
| PlanInvariant.StepKeepsInvariant | crates/homemagic-application/src/automation_runtime.rs:412-514 | every step keeps: node present, frames nested as intervals around it, attempt at the current command |
| PlanInvariant.RunKeepsInvariant | crates/homemagic-application/src/automation_runtime.rs:167-405 | the invariant holds at every moment of every run |
| PlanInvariant.RunKeepsTypes | crates/homemagic-application/src/automation_compiler.rs:249-263 | variables keep their declared types in every run, and evaluation fails at worst with a missing value; when all variables have initial values none is ever missing |
| Arrivals.StepAdvances | crates/homemagic-application/src/automation_runtime.rs:412-514 | every step leaves its visit behind for good and opens no new one, also where a join goes back up to the next branch |
| Arrivals.NodeArrivals | crates/homemagic-application/src/automation_runtime.rs:455-514 | every node but the join of a group is entered at most once, and such a join at most once per branch |
| Arrivals.TotalArrivals | crates/homemagic-application/src/automation_runtime.rs:455-514 | all entries of nodes together are at most the nodes of the plan and the branches of its groups |
| Arrivals.RunsAreShort | crates/homemagic-application/src/automation_runtime.rs:236-405 | a run has stopped after as many steps as the plan has nodes, branches and retries |
| Simulator.StepInterpreter.ExecuteFrom | crates/homemagic-application/src/automation_simulator.rs:506-682 | the loop with recursive branches computes the recursive interpretation that drops markers |
| Simulator.StepInterpreter.ExecuteBranches | crates/homemagic-application/src/automation_simulator.rs:652-677 | branches of parallel and race groups are executed in order |
| Simulator.StepInterpreter.ApplyFailure | crates/homemagic-application/src/automation_simulator.rs:684-701 | resuming after a failure drops the stop marker |
| Simulator.StepInterpreter.Command | crates/homemagic-application/src/automation_simulator.rs:547-592 | the attempt loop makes the structured attempts |
| Simulator.SimulationRuns | crates/homemagic-application/src/automation_simulator.rs:506-682 | from any node of any compiled plan the machine arrives where the simulation that keeps its stop markers does |
| HostAgreement.KeptMarkersRunAsMachine | crates/homemagic-application/src/automation_simulator.rs:506-701 | with stop markers kept the simulation of a plan is its run |
| HostAgreement.HostsAgreeIffNoBranchEchoes | crates/homemagic-application/src/automation_simulator.rs:684-701 | for every compiled plan and all readings: if no branch that carried on or fell back gets through to its join, both hosts enter the same nodes and end with the same state; if the run completes, only then |
| HostAgreement.HostsAgreeWithoutResumption | crates/homemagic-application/src/automation_simulator.rs:506-701 | on plans whose branches never carry on or fall back the hosts agree whatever they read |
| HostAgreement.DroppingCompares | crates/homemagic-application/src/automation_simulator.rs:692-699 | from any node: dropping markers changes nothing while no resumed branch gets through; otherwise the simulation is abandoned or enters a node twice before or right behind the region |
| HostAgreement.DroppedMarker | crates/homemagic-application/src/automation_simulator.rs:692-699 | without its marker a branch ends as with it, or got through and continues from the join |
| HostAgreement.HostsAgreeIffGuardHolds | crates/homemagic-application/src/automation_simulator.rs:453-463 | only the simulator evaluates the run guard: where the runs agree, the hosts agree exactly if the guard is decided and holds |
| HostAgreement.MarkerMattersIffThrough | crates/homemagic-application/src/automation_simulator.rs:692-699 | for the rest of any branch that does not itself resume up to the join, dropping the marker changes the simulation exactly when that rest gets through |
| HostAgreement.CarryingOnCompiles | crates/homemagic-application/src/automation_compiler.rs:534-591 | the document of the counterexample compiles to the stated six nodes |
| HostAgreement.CarryingOnInABranchDiverges | crates/homemagic-application/src/automation_simulator.rs:692-699 | a failed command that carries on inside a branch makes the simulator finish twice, so the hosts differ |
| VirtualTime.VirtualPorts.AdvanceTo | crates/homemagic-application/src/automation_simulator.rs:317-324 | advancing applies exactly the changes through the instant and never turns the clock back |
| VirtualTime.VirtualPorts.StateDuration | crates/homemagic-application/src/automation_simulator.rs:810-834 | looking only at change moments decides whether the condition holds at every instant through the end of the interval, pending changes included |
| VirtualTime.VirtualPorts.WaitUntil | crates/homemagic-application/src/automation_simulator.rs:594-634 | a wait is satisfied exactly if its condition holds at some instant through the deadline, at the first such moment; otherwise the clock stands at the deadline |
| VirtualTime.OnlyFromNow | crates/homemagic-application/src/automation_simulator.rs:317-331 | with no change pending, as after every advance, these are exactly the instants from now through the deadline |
| Retries.PlanRetry | crates/homemagic-application/src/automation_runtime.rs:1168-1211 | a retry is planned exactly if attempts remain, something is unconfirmed and every unconfirmed failure is retryable; it names those targets and the latest failure plus backoff |
| Retries.RetryWaits | crates/homemagic-application/src/automation_runtime.rs:1174-1210 | a retry starts exactly one back-off after the latest failure, so no sooner after any of them, names exactly the unconfirmed targets, and is planned exactly if attempts are left and every unconfirmed failure may be repeated |
| Retries.LatestFailure | crates/homemagic-application/src/automation_runtime.rs:1192-1199 | the latest failure is the maximum over the unconfirmed commands |
| Retries.CommandedIffNotYetConfirmed | crates/homemagic-application/src/automation_runtime.rs:808-1067 | each attempt commands exactly the targets not confirmed before, in order |
| Retries.ConfirmedIsNotCommandedAgain | crates/homemagic-application/src/automation_runtime.rs:808-1067 | a confirmed target is never commanded again |
| Retries.SucceedsIffEveryTargetConfirmed | crates/homemagic-application/src/automation_runtime.rs:949-953 | a command node succeeds exactly when every target has a confirmed command |
| Durations.EvaluateDurably | crates/homemagic-application/src/automation_runtime.rs:1342-1417 | an evaluation that stops asks to begin an interval of this node or to ripen a known one whose timer is ready |
| Durations.DurableAnswerIsPlain | crates/homemagic-application/src/automation_runtime.rs:1342-1417 | durable evaluation answers as plain evaluation with exactly the matured intervals |
| Durations.Ripened | crates/homemagic-application/src/automation_runtime.rs:598-611 | maturing changes the phase of one interval only |
| Durations.InvalidIffSeenFalse | crates/homemagic-application/src/automation_runtime.rs:1356-1359 | an evaluation reports exactly the intervals that it gets to and whose condition it finds false |
| Durations.RequestedConditionHolds | crates/homemagic-application/src/automation_runtime.rs:1356-1416 | an interval begins or ripens only while its condition holds |
| Intervals.AdjustedIsUnbroken | crates/homemagic-application/src/automation_runtime.rs:553-628 | after a request was met every interval that is left has held at each committed sighting since it began, and a mature one was seen to hold when its time was over |
| Intervals.AdjustedInterrupts | crates/homemagic-application/src/automation_runtime.rs:553-628 | exactly the intervals seen to be false are gone, and the timers of those that were growing are cancelled |
| DurableRuntime.StableOverTheRun | crates/homemagic-application/src/automation_runtime.rs:520-628 | in every durable run a stability condition holds only if an interval of its length began, matured while its condition held, and no committed step since it began saw the condition fail |
| DurableRuntime.PendingSightingIsKeptIff | crates/homemagic-application/src/automation_runtime.rs:583-586 | while a growing interval is waited for, a step commits what it saw exactly if the timer of some growing interval is reset |
| DurableRuntime.MatureIntervalOutlivesFailure | crates/homemagic-application/src/automation_runtime.rs:583-586 | the input for which it does not: a mature interval seen to fail while another one grows stays mature and counts again later |
| DurableRuntime.AttemptIsNew | crates/homemagic-application/src/automation_runtime.rs:848-858 | the attempt under way was never made before in the run |
| DurableRuntime.DurableRunMeansTree | crates/homemagic-application/src/automation_runtime.rs:167-405 | however it is stepped and crashed, a run is bounded, repeats nothing and ends as the authored tree on the committed readings |
| DurableRuntime.OutcomeRepeatsIffRetried | crates/homemagic-application/src/automation_runtime.rs:922-1000 | several command results count as one repeatable failure exactly when a retry is planned |
| DurableRuntime.AdjustedFits | crates/homemagic-application/src/automation_runtime.rs:565-628 | meeting a request keeps intervals at their node and timers with their owners |
| DurableRuntime.StayingTimersFit | crates/homemagic-application/src/automation_runtime.rs:520-628 | starting, resetting and maturing intervals keeps timer ownership |
| DurableRuntime.LeavingConditionEndsAll | crates/homemagic-application/src/automation_runtime.rs:691-760 | leaving a branch or wait ends every live timer of the run |
| DurableRuntime.DurableRun.Step | crates/homemagic-application/src/automation_runtime.rs:167-405 | every step keeps timer ownership, retry bookkeeping and the refinement, and moves the machine exactly when its commit succeeds and the current node has what it waits for; finished or inactive runs stay untouched |
| DurableRuntime.DurableRun.Commit | crates/homemagic-application/src/automation_runtime.rs:1147-1166 | run, timers and trace change together or not at all |
| DurableRuntime.DurableRun.StepDelay | crates/homemagic-application/src/automation_runtime.rs:1069-1145 | a delay is entered by a timer at now plus its duration and left exactly by consuming that timer once ready |
| DurableRuntime.DurableRun.StepWait | crates/homemagic-application/src/automation_runtime.rs:634-762 | a wait is left exactly if its condition holds or its timeout was ready and is consumed; otherwise it leaves its sighting exactly as stated, with the intervals that failed gone and their timers cancelled |
| DurableRuntime.DurableRun.StepBranch | crates/homemagic-application/src/automation_runtime.rs:291-329 | a branch takes the machine's side and ends its intervals; before that it leaves its sighting exactly if the request is met |
| DurableRuntime.DurableRun.Prepare | crates/homemagic-application/src/automation_runtime.rs:520-628 | a resolved condition has the plain value; otherwise exactly the requested interval is begun or matured and exactly the failed ones are reset with their timers, and nothing changes unless this is committed |
| DurableRuntime.DurableRun.StepJoin | crates/homemagic-application/src/automation_runtime.rs:455-514 | the persisted continuation stack follows the machine |
| DurableRuntime.DurableRun.EnterGroup | crates/homemagic-application/src/automation_runtime.rs:412-453 | entering a group pushes the machine's frame |
| DurableRuntime.DurableRun.RequestAll | crates/homemagic-application/src/automation_runtime.rs:841-886 | one request per due target under its key, for that target with the payload of the node and the deadline of the run, also when the worker crashes before its commit |
| DurableRuntime.DurableRun.StepCommand | crates/homemagic-application/src/automation_runtime.rs:764-806 | a command step dispatches, waits, backs off or settles as its phase says |
| DurableRuntime.DurableRun.CheckpointResult | crates/homemagic-application/src/automation_runtime.rs:922-1013 | an attempt with open commands awaits them; one that is over moves the machine exactly once |
| DurableRuntime.DurableRun.BackOff | crates/homemagic-application/src/automation_runtime.rs:964-988 | a planned retry keeps exactly the unconfirmed targets and waits on a timer at the planned instant |
| DurableRuntime.DurableRun.Settle | crates/homemagic-application/src/automation_runtime.rs:922-1000 | a node is left onward exactly when everything is confirmed, otherwise by its policy, and its rounds are recorded |
| DurableRuntime.DurableRun.ResumeBackoff | crates/homemagic-application/src/automation_runtime.rs:1015-1067 | the next attempt starts only from a ready timer and on the same targets |
| DurableRuntime.DurableRun.MarkReady | crates/homemagic-application/src/automation_scheduler.rs:299-308 | a pending timer becomes ready only once it is due |
| DurableRuntime.DurableRun.Withdraw | crates/homemagic-application/src/automation_scheduler.rs:383-448 | a withdrawn run has no live timer |
| IdempotencyKeys.KeyTextInjective | crates/homemagic-application/src/automation_runtime.rs:848-858 | different runs, nodes, targets or attempts have different key texts |
| RunCommands.AttemptIsDispatchedAtMostOnce | crates/homemagic-application/src/automation_runtime.rs:808-887 | for every interleaving and crash, two dispatcher calls for a run, node, target and attempt are the same call exactly when all four are the same |
| RunCommands.RepeatedRequestIsAnswered | crates/homemagic-application/src/command_service.rs:219-234 | a request that a run repeats is never a conflict: it is answered with the command of its key as soon as there is one |
| RunCommands.CommandsAreCreated | crates/homemagic-application/src/command_service.rs:202-218 | every command carries the key and request it was created with |
| CommandStore.CreateAnswers | crates/homemagic-storage/src/command_repository.rs:306-365 | creation finds the command of a known key exactly if its request is equal, reports a conflict exactly if not, and otherwise makes the only command of the key |
| CommandStore.StateShowsDispatch | crates/homemagic-storage/src/command_repository.rs:473-510 | from a contiguous audit trail the state tells whether the command was ever dispatched; a timed-out one does not, but the state before it does |
| CommandStore.DispatchedOnce | crates/homemagic-storage/src/command_repository.rs:473-510 | an audit trail contains at most one dispatch |
| CommandStore.TransitionKeeps | crates/homemagic-application/src/command_service.rs:624-641 | a compare-and-set transition keeps audits, slots and supersessions consistent |
| CommandStore.RecordKeeps | crates/homemagic-storage/src/matter_repository.rs:1886-1926 | recording a dispatch marks slot and command together |
| CommandStore.ReplaceKeeps | crates/homemagic-storage/src/matter_repository.rs:1781-1884 | replacing a slot keeps revisions increasing and cancels the waiting owner in the same write |
| CommandStore.ReplaceableIffOwnerCancellableOrDispatched | crates/homemagic-application/src/matter_commands.rs:152-178 | a slot can be taken over exactly when its owner was dispatched or can still be cancelled |
| CommandProtocol.MoveKeepsInvariant | crates/homemagic-application/src/command_service.rs:306-738 | every await of every worker keeps the protocol invariant |
| CommandProtocol.WinKeeps | crates/homemagic-application/src/command_service.rs:490-539 | the worker whose write dispatched a command is the only one that has won it |
| CommandProtocol.DispatcherCalledAtMostOnce | crates/homemagic-application/src/command_service.rs:541-563 | for every interleaving and crash the dispatcher gets a command at most once, after its durable dispatch, never when cancelled, superseded or a dry run |
| CommandProtocol.RunKeepsKeys | crates/homemagic-application/src/command_service.rs:219-234 | at every moment commands and idempotency keys correspond one to one |
| CommandProtocol.NoKeyIsDispatchedTwice | crates/homemagic-application/src/command_service.rs:219-234 | for every interleaving and crash no two dispatcher calls are for one idempotency key |
| CommandProtocol.SoloCommandEnds | crates/homemagic-application/src/command_service.rs:490-592 | a worker left alone with an allowed command takes a free slot, dispatches exactly once, and the command ends confirmed, failed, timed out or acknowledged exactly as the dispatcher and the observation say |
| CommandProtocol.SoloCommandIsDecided | crates/homemagic-application/src/command_service.rs:440-489 | a new command is rejected exactly if denied, timed out exactly if late, validated exactly if allowed, without a call of the dispatcher |
| CommandProtocol.SoloRecoveryEnds | crates/homemagic-application/src/command_service.rs:732-736 | recovery of a dispatched command settles it as the observation says and never calls the dispatcher |
| CommandProtocol.SoloRecoveryDecides | crates/homemagic-application/src/command_service.rs:650-731 | recovery of a command that was not dispatched decides it anew |
| CommandProtocol.SoloUnlockNeedsApproval | crates/homemagic-application/src/matter_commands.rs:264-360 | an unlock that owns its slot is dispatched by its approval exactly if that is bound to the revision of the slot |
| CommandCauses.ChangeHasCause | crates/homemagic-application/src/command_service.rs:306-738 | whatever a move does to a command, it is one of the moves that may bring it to its new state, by a worker that holds the command as it is stored |
| CommandCauses.StateHasCause | crates/homemagic-application/src/command_service.rs:565-622 | in every run a command is confirmed only by a worker that saw it confirmed, rejected only by a denial, failed only by the dispatcher or an observation, timed out only when late, cancelled only by withdrawal or replacement |
| CommandCauses.EntryHasCause | crates/homemagic-application/src/command_service.rs:624-641 | the same for every entry of every audit trail, each made at the moment when the trail had that length |
| CommandCauses.CallWasAllowed | crates/homemagic-application/src/command_service.rs:541-563 | every call of the dispatcher follows an allowing decision and a dispatch by a worker whose command owned its slot; an unlock of a slot only through an approval |
| CommandCauses.EndsAreFinal | crates/homemagic-application/src/command_service.rs:624-641 | a command that was rejected, confirmed, failed, timed out or cancelled is never changed again |
| CommandProtocol.AuditsAreContiguous | crates/homemagic-application/src/command_service.rs:624-641 | audit trails are contiguous chains ending in the durable state |
| CommandProtocol.DesiredStateProtocol | crates/homemagic-application/src/matter_commands.rs:114-262 | revisions strictly increase, one registered command waits at most, superseded and dispatched exclude each other |
| CommandProtocol.BlockedSlotNeverChanges | crates/homemagic-application/src/matter_commands.rs:149-177 | over any further moves a slot whose owner ended before its dispatch never changes again |
| CommandProtocol.CancelledOwnerBlocksSlot | crates/homemagic-application/src/matter_commands.rs:165-167 | in every reachable state, when an actor cancels the waiting owner of a slot no later move gives the slot to another command |
| CommandProtocol.MoveGrows | crates/homemagic-application/src/command_service.rs:306-738 | envelopes, audits, registrations and supersessions are never undone |
| Scheduler.Scheduler.ProcessRecovery | crates/homemagic-application/src/automation_scheduler.rs:279-381 | one pass gives each occurrence the one fate of its rules, starts, defers and restores exactly as many as its inputs say, leaves it missed exactly if its window is over, accepted, waiting or suppressed otherwise, and leaves exactly the stated runs alive |
| Scheduler.Scheduler.CancelForRestart | crates/homemagic-application/src/automation_scheduler.rs:383-448 | every living run of the version is withdrawn and no other |
| Scheduler.Scheduler.CreateRun | crates/homemagic-application/src/automation_scheduler.rs:450-501 | a run is created once per occurrence |
| Scheduler.Scheduler.CountActive | crates/homemagic-application/src/automation_scheduler.rs:290-297 | active counts are the numbers of living runs per version |
| Scheduler.AdmissionIsExact | crates/homemagic-application/src/automation_scheduler.rs:310-380 | numbers of started, waiting and restored occurrences of a version as functions of run mode, living runs, due and lost occurrences |
| Scheduler.PassKeepsLimitsIff | crates/homemagic-application/src/automation_scheduler.rs:372-378 | a version ends within its limit exactly if living, startable and lost runs fit it together; after a restart exactly if nothing lost follows the last due occurrence, whose run is then the only one |
| Scheduler.RestoredRunEscapesCapacity | crates/homemagic-application/src/automation_scheduler.rs:372-378 | a restored run is not counted: a single-run version can end with two living runs |
| Events.CrashFreeCreates | crates/homemagic-application/src/automation_events.rs:136-184 | a crash-free pass creates one occurrence per event and triggered automation, suppressed exactly when self-caused |
| Events.PrefixCreates | crates/homemagic-application/src/automation_events.rs:136-184 | the pass over a prefix creates exactly the part for that prefix |
| Events.TriggersAreAbout | crates/homemagic-application/src/automation_events.rs:206-262 | which events a trigger matches: changes of the watched field, the named event or the listed command states, coming from one of its targets; a schedule matches none |
| Events.SuppressedIffSelfCaused | crates/homemagic-application/src/automation_events.rs:190-204 | an event of its own version is suppressed unless all are allowed, one of another version of the same automation exactly by the correlation policy, any other never |
| Events.EventProcessor.CreateOccurrence | crates/homemagic-storage/src/automation_repository.rs:869-893 | creation by stable identity leaves an existing occurrence as it is |
| Events.EventProcessor.MaterializeEvent | crates/homemagic-application/src/automation_events.rs:136-184 | an uninterrupted materialization leaves no occurrence of the event missing |
| Events.EventProcessor.Process | crates/homemagic-application/src/automation_events.rs:88-134 | a retention gap is reported exactly when events behind the checkpoint are gone and a later event is kept; nothing is skipped |
| Events.BehindCheckpointExactlyOnce | crates/homemagic-application/src/automation_events.rs:88-184 | behind the checkpoint the occurrences are exactly those of one crash-free pass, whatever pages and crashes |
| Subscription.RetryDelayBounded | crates/homemagic-application/src/matter_subscription.rs:485-499 | saturating back-off lies between base and maximum and doubles until it is capped |
| Subscription.DelaysDouble | crates/homemagic-application/src/matter_subscription.rs:485-499 | without jitter the first delay is the base and each further one twice the one before, until it is capped |
| Subscription.SubscriptionRecovery.NextAction | crates/homemagic-application/src/matter_subscription.rs:386-429 | a wait lies strictly in the future exactly unless a spent gap budget stalls the machine, and within a cycle always; a back-off is waited out to its instant, and a sleepy node gets its pause between gap reads |
| Subscription.SubscriptionRecovery.RecordOutcome | crates/homemagic-application/src/matter_subscription.rs:436-472 | only outcomes of the pending action are accepted, each spends its budget; a failed subscribe backs off by exactly the delay of its attempt, where that can be represented |
| Subscription.SubscriptionRecovery.FromStored | crates/homemagic-application/src/matter_subscription.rs:315-366 | restoring takes captured budgets, counters and phase from what was stored |
| Subscription.Restart | crates/homemagic-application/src/matter_subscription.rs:315-382 | restarting from a saved checkpoint loses no spent budget, saves the same again and goes on in the stated phase; a back-off goes on to the same instant |
| Subscription.Drive | crates/homemagic-application/src/matter_subscription.rs:386-472 | an obeying driver reaches completion or repair within the budgets, over any restarts |
| Projection.ConfirmedMeansReported | crates/homemagic-application/src/matter_projection.rs:631-663 | confirmed always means reported equals desired, confirmed by a report that the very revision caused |
| Projection.StepsFailOnlyBehind | crates/homemagic-application/src/matter_projection.rs:604-678 | reports and staleness marks never fail; a desired state fails exactly out of range or behind a confirmed revision |
| Projection.VersionAdvancesIffSerialLater | crates/homemagic-application/src/matter_projection.rs:530-540 | a different data version is accepted exactly if later in the serial order of section 3.2 of RFC 1982; an equal one exactly with an equal value |
| Projection.StepFollows | crates/homemagic-application/src/matter_projection.rs:467-528 | accepted reports strictly increase in sequence and advance in version |
| Projection.AcceptedIff | crates/homemagic-application/src/matter_projection.rs:467-528 | a report is accepted exactly if its path and kind fit, it is not from the future, its sequence is newer, and its version is later or equal with the same value |
| Projection.ReportedIsLastAccepted | crates/homemagic-application/src/matter_projection.rs:467-528 | in every history the reported value, version, sequence and times are those of the last accepted report |
| Projection.ReportedIffAccepted | crates/homemagic-application/src/matter_projection.rs:467-528 | there is a reported value exactly if some report was accepted |
| Projection.ReportedValueSays | crates/homemagic-application/src/matter_projection.rs:540-596 | a lock is reported locked exactly if the last accepted report carries 3, unlocked exactly for 2, a switch exactly as the flag it carries |
| Projection.StepOutcome | crates/homemagic-application/src/matter_projection.rs:598-678 | freshness and convergence after an accepted report, a loss and a new desired state, and what each leaves as it was |
| Projection.SequencesNeverFall | crates/homemagic-application/src/matter_projection.rs:467-528 | the accepted sequence never falls in any history |
| Projection.RedeliveryChangesNothing | crates/homemagic-application/src/matter_projection.rs:467-528 | an accepted report delivered again at any later point changes nothing |

## Left out

- HostAgreement.HostsAgreeIffNoBranchEchoes: the converse is for runs that complete; one that is stopped behind the group can end like its simulation although a resumed branch got through, for instance when that branch was the only one of its group.
- Simulator.SimFrom: a wait reads one outcome instead of polling virtual time; the virtual clock and its wait loop are modelled in `VirtualTime.dfy`, there for conditions without nested stability intervals and without time windows.
- Simulator.StepInterpreter.Command: an attempt for which no reading is left ends as exhausted; the code confirms it when its outcome queue is empty (`crates/homemagic-application/src/automation_simulator.rs:340-349`), as if the queue went on with confirmations.
- Simulator.StepInterpreter.ExecuteFrom: the step, trace and duration budget of a simulation (`crates/homemagic-application/src/automation_simulator.rs:722-736`) is not modelled; that of a durable run is.
- Evaluator.DecimalValue: decimals are compared as exact reals, not as the 64-bit floating-point numbers of the code, so rounding of long texts is not modelled; nor are a leading plus sign and the names of infinities, which neither the compiler nor JSON produces.
- Evaluator.EvaluateWindow: timezone conversion and clock parsing are a table of accepted names and texts; local time is part of a reading.
- Lowering.LowerAction: reduction segments, safety profiles and provenance of nodes are not modelled; target resolution, staleness and risk classification are an abstract table in `Registry`.
- Compiler.Findings: findings are counted, not described; name, provenance, trigger and schedule checks and 32-bit saturation of node ids are left out.
- PlanMachine.Step: the maximum parallel width of a group is not used by either host and is not in the plan model.
- DurableRuntime.DurableRun.Step: the recovery page of live timers is taken to contain the timer of the run; trace details and correlation ids are left out.
- DurableRuntime.DurableRun.Settle: the commands of a multi-target attempt are one outcome for the plan machine; which error stopped a retry is not part of it.
- CommandProtocol.RegisterStep: a command's projection is fixed when it is created; a projection that appears between registration and dispatch is not modelled. The services are a state machine over their awaits rather than objects, because the claims are about interleavings.
- CommandProtocol.Judge: policy, capacity and target validation are one verdict; retention of finished commands is left out.
- Scheduler.Scheduler.ProcessRecovery: the recovery page is taken to contain all living runs; cron enumeration, catch-up requests and missed schedules outside the page are left out. Timers of withdrawn runs are handled in `DurableRun.Withdraw`.
- Events.EventProcessor.Process: the set of active versions is fixed, cursors are consecutive, and a worker that loses the race for the checkpoint is one that is interrupted.
- Subscription.SubscriptionRecovery: the status projection and the service that performs the actions are left out; the hash behind the jitter is an arbitrary function.
- Projection.Normalize: the common observation values derived from a report are left out; 64-bit overflow of sequences and revisions is not modelled.
- Storage, transport, authentication, Matter fabric workflows and the draft and approval lifecycle are not part of this model.
