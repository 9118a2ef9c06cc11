/**
 * The durable runtime: one persisted run that is advanced by atomic commits,
 * with timers, stability intervals and multi-target command attempts. Every
 * commit either leaves the plan machine where it was or is one of its steps.
 */
module DurableRuntime {
  import opened Wrappers
  import opened Domain
  import opened Evaluator
  import opened Observations
  import opened Structured
  import opened PlanMachine
  import opened Compiler
  import opened CompilerCorrectness
  import opened Retries
  import opened Durations
  import opened Intervals

  datatype Lifecycle = Unstarted | Active | Sleeping | Succeeded | Abandoned | Withdrawn
  {
    predicate Over() {
      Succeeded? || Abandoned? || Withdrawn?
    }
  }

  /** The key under which a command of a run is requested. */
  datatype CommandKey = CommandKey(node: NodeId, index: nat, attempt: nat)

  datatype AttemptPhase = Dispatching | AwaitingOutcome | Backoff(readyAt: int)

  datatype CommandAttempt =
    CommandAttempt(node: NodeId, attempt: nat, indices: seq<nat>, commands: seq<CommandKey>, phase: AttemptPhase)

  /** The persisted aggregate of one run. */
  datatype Run = Run(
    lifecycle: Lifecycle,
    revision: nat,
    node: Option<NodeId>,
    variables: Variables,
    frames: seq<Frame>,
    attempt: Option<CommandAttempt>,
    durations: seq<ConditionDuration>)
  {
    /** The copy a step edits before it commits. */
    function Checkpoint(): Run {
      this.(revision := revision + 1)
    }

    function Goes(next: Option<NodeId>): Run {
      this.(lifecycle := Active, node := next)
    }

    /** Forgets the stability intervals of the node that is left. */
    function Forgets(left: NodeId): Run {
      this.(durations := Elsewhere(durations, left))
    }

    function Fails(policy: PlanPolicy, following: Option<NodeId>): Run {
      match policy
      case CarryOn => Goes(following)
      case FallBackTo(entry) => Goes(entry.OrElse(following))
      case StopTheBranch =>
        if frames == [] then this.(lifecycle := Abandoned, node := None)
        else Goes(Some(Top(frames).join)).(frames := Pop(frames) + [Top(frames).(failed := true)])
      case StopTheRun => this.(lifecycle := Abandoned, node := None)
    }
  }

  function Elsewhere(durations: seq<ConditionDuration>, node: NodeId): (others: seq<ConditionDuration>)
    ensures (forall k :: 0 <= k < |durations| ==> durations[k].node == node) ==> others == []
  {
    if durations == [] then []
    else (if durations[0].node == node then [] else [durations[0]]) + Elsewhere(durations[1..], node)
  }

  /**
   * What one step finds outside the run. `commits` is false when the worker
   * crashes or loses the race before its commit.
   */
  datatype Facts = Facts(
    active: bool,
    now: int,
    observed: Observed,
    local: map<string, nat>,
    commands: map<CommandKey, CommandRecord>,
    commits: bool)

  datatype Progress = NoWork | Advanced | Asleep | Concluded | Refused

  // ----- what every commit keeps ---------------------------------------------------------

  predicate Sleepable(node: Node) {
    node.DelayNode? || node.WaitNode? || node.BranchNode? || node.CommandNode?
  }

  function KeysOf(node: NodeId, attempt: nat, indices: seq<nat>): (keys: seq<CommandKey>)
    ensures |keys| == |indices|
    ensures forall k :: 0 <= k < |keys| ==> keys[k] == CommandKey(node, indices[k], attempt)
  {
    seq(|indices|, k requires 0 <= k < |indices| => CommandKey(node, indices[k], attempt))
  }

  function Keys(attempt: CommandAttempt): seq<CommandKey> {
    KeysOf(attempt.node, attempt.attempt, attempt.indices)
  }

  ghost predicate RunFits(nodes: seq<Node>, run: Run) {
    && (run.lifecycle.Sleeping? ==>
          && run.node.Some? && run.node.value < |nodes| && Sleepable(nodes[run.node.value])
          && (nodes[run.node.value].CommandNode? ==> run.attempt.Some? && !run.attempt.value.phase.Dispatching?))
    && (run.attempt.Some? && !run.lifecycle.Withdrawn? ==>
          && run.node == Some(run.attempt.value.node)
          && run.attempt.value.node < |nodes| && nodes[run.attempt.value.node].CommandNode?
          && run.lifecycle == (if run.attempt.value.phase.Dispatching? then Active else Sleeping)
          && (run.attempt.value.phase.AwaitingOutcome? ==> run.attempt.value.commands == Keys(run.attempt.value)))
    && (run.durations != [] && !run.lifecycle.Withdrawn? ==>
          && run.lifecycle.Sleeping? && run.node.Some? && run.node.value < |nodes|
          && Conditional(nodes[run.node.value])
          && forall k :: 0 <= k < |run.durations| ==> run.node == Some(run.durations[k].node))
  }

  predicate Grows(run: Run, id: TimerId) {
    exists duration :: duration in run.durations && duration.phase.Growing? && duration.Timer() == id
  }

  /** The current node of the run has use for a live timer of this identity. */
  predicate Uses(nodes: seq<Node>, run: Run, id: TimerId) {
    && run.lifecycle.Sleeping? && run.node == Some(id.node) && id.node < |nodes|
    && match id.kind
       case DelayTimer => nodes[id.node].DelayNode?
       case WaitTimeout => nodes[id.node].WaitNode?
       case CommandRetry => run.attempt.Some? && run.attempt.value.phase == Backoff(id.readyAt)
       case Stability => Grows(run, id)
  }

  predicate LiveIn(timers: Timers, id: TimerId) {
    id in timers && timers[id].Live()
  }

  ghost predicate OneLive(timers: Timers, node: NodeId, kind: TimerKind) {
    exists id :: LiveIn(timers, id) && id.node == node && id.kind == kind
      && forall other :: LiveIn(timers, other) && other.kind == kind ==> other == id
  }

  /** Who owns the timers of a run, and which timers a sleeping run has. */
  ghost predicate TimersFit(nodes: seq<Node>, run: Run, timers: Timers) {
    && (forall id :: LiveIn(timers, id) ==> Uses(nodes, run, id))
    && (run.lifecycle.Sleeping? && run.node.Some? && run.node.value < |nodes| ==>
          match nodes[run.node.value]
          case DelayNode(_, _) => OneLive(timers, run.node.value, DelayTimer)
          case WaitNode(_, _, _, _) => OneLive(timers, run.node.value, WaitTimeout)
          case CommandNode(_, _, _, _, _) =>
            run.attempt.Some? && run.attempt.value.phase.Backoff? ==> OneLive(timers, run.node.value, CommandRetry)
          case _ => true)
  }

  function AttemptNumber(run: Run): nat {
    match run.attempt
    case None => 0
    case Some(attempt) => if attempt.phase.Backoff? then attempt.attempt + 1 else attempt.attempt
  }

  /** The machine configuration that a persisted run stands for. */
  ghost predicate Abstracts(run: Run, config: Config) {
    && config.state.inputs == []
    && (!run.lifecycle.Withdrawn? ==>
          && config.node == run.node && config.frames == run.frames
          && config.attempt == AttemptNumber(run) && config.state.variables == run.variables
          && config.status == (match run.lifecycle
                               case Succeeded => Completed
                               case Abandoned => RunFailed
                               case _ => Running))
  }

  /** The attempts made so far at the current command node. */
  ghost predicate RoundsFit(nodes: seq<Node>, run: Run, rounds: seq<Round>) {
    if run.lifecycle.Withdrawn? then true
    else if run.attempt.None? then rounds == []
    else
      var attempt := run.attempt.value;
      && attempt.node < |nodes| && nodes[attempt.node].CommandNode?
      && var node := nodes[attempt.node];
         && RoundChain(rounds, |node.targets|)
         && attempt.indices == Due(rounds, |node.targets|)
         && |rounds| == AttemptNumber(run) <= node.retry.maximumRetries
  }

  /** A command node that was left: its attempts and whether the run went on to `next`. */
  datatype Settled = Settled(node: NodeId, rounds: seq<Round>, confirmed: bool)

  ghost predicate SettledFits(nodes: seq<Node>, settled: Settled) {
    && settled.node < |nodes| && nodes[settled.node].CommandNode?
    && var node := nodes[settled.node];
       && RoundChain(settled.rounds, |node.targets|)
       && 0 < |settled.rounds| <= node.retry.maximumRetries + 1
       && (settled.confirmed <==> EveryTargetConfirmed(settled.rounds, |node.targets|))
  }

  /** The machine reaches `config` in `steps` steps and has then read exactly `readings`. */
  ghost predicate Reaches(registry: Registry, plan: Plan, readings: seq<Reading>, steps: nat, config: Config) {
    Iterate(registry, plan.nodes, Start(plan, readings), steps) == config && config.state.inputs == []
  }

  function Fed(config: Config, more: seq<Reading>): Config {
    config.(state := config.state.(inputs := config.state.inputs + more))
  }

  lemma ConsumeReadsAhead(state: RunState, event: Event, more: seq<Reading>)
    requires !state.Starved()
    ensures var longer := state.(inputs := state.inputs + more);
            && !longer.Starved() && longer.Read() == state.Read()
            && longer.Consume(event) == state.Consume(event).(inputs := state.Consume(event).inputs + more)
  {
    assert (state.inputs + more)[1..] == state.inputs[1..] + more;
  }

  lemma FailureReadsAhead(config: Config, policy: PlanPolicy, following: Option<NodeId>, after: RunState,
                          more: seq<Reading>)
    ensures ApplyFailure(Fed(config, more), policy, following, after.(inputs := after.inputs + more))
            == Fed(ApplyFailure(config, policy, following, after), more)
  {
  }

  lemma CommandReadsAhead(config: Config, id: NodeId, node: Node, more: seq<Reading>)
    requires node.CommandNode? && !StepCommand(config, id, node).status.Waiting?
    ensures StepCommand(Fed(config, more), id, node) == Fed(StepCommand(config, id, node), more)
  {
    var event := Attempted(id, node.targets, node.payload, config.attempt, config.state.Read().outcome);
    ConsumeReadsAhead(config.state, event, more);
    FailureReadsAhead(config, node.onFailure, node.next, config.state.Consume(event), more);
  }

  lemma DecisionReadsAhead(registry: Registry, nodes: seq<Node>, config: Config, more: seq<Reading>)
    requires config.status.Running? && config.node.Some? && config.node.value < |nodes|
    requires var node := nodes[config.node.value]; node.WaitNode? || node.BranchNode? || node.SetVariableNode?
    requires !Step(registry, nodes, config).status.Waiting?
    ensures Step(registry, nodes, Fed(config, more)) == Fed(Step(registry, nodes, config), more)
  {
    var id, state := config.node.value, config.state;
    match nodes[id]
    case WaitNode(_, _, onTimeout, next) =>
      ConsumeReadsAhead(state, Waited(id, true), more);
      ConsumeReadsAhead(state, Waited(id, false), more);
      FailureReadsAhead(config, onTimeout, next, state.Consume(Waited(id, false)), more);
    case BranchNode(_, _, _, _) =>
      ConsumeReadsAhead(state, Branched(id, true), more);
      ConsumeReadsAhead(state, Branched(id, false), more);
    case SetVariableNode(name, expression, _) =>
      ConsumeReadsAhead(state, Finished(id), more);
      if EvaluateExpression(expression, state.variables, state.Read()).Ok? {
        var value := EvaluateExpression(expression, state.variables, state.Read()).value;
        ConsumeReadsAhead(state, Assigned(id, name, value), more);
      }
  }

  lemma StepReadsAhead(registry: Registry, nodes: seq<Node>, config: Config, more: seq<Reading>)
    requires !Step(registry, nodes, config).status.Waiting?
    ensures Step(registry, nodes, Fed(config, more)) == Fed(Step(registry, nodes, config), more)
  {
    if config.status.Running? && config.node.Some? && config.node.value < |nodes| {
      match nodes[config.node.value]
      case CommandNode(_, _, _, _, _) =>
        CommandReadsAhead(config, config.node.value, nodes[config.node.value], more);
      case WaitNode(_, _, _, _) => DecisionReadsAhead(registry, nodes, config, more);
      case BranchNode(_, _, _, _) => DecisionReadsAhead(registry, nodes, config, more);
      case SetVariableNode(_, _, _) => DecisionReadsAhead(registry, nodes, config, more);
      case _ =>
    }
  }

  /** Readings that have not been looked at change nothing. */
  lemma {:induction false} IterateReadsAhead(registry: Registry, nodes: seq<Node>, config: Config, steps: nat,
                                             more: seq<Reading>)
    requires Iterate(registry, nodes, config, steps).status.Running?
    ensures Iterate(registry, nodes, Fed(config, more), steps) == Fed(Iterate(registry, nodes, config, steps), more)
    decreases steps
  {
    if steps > 0 {
      var after := Step(registry, nodes, config);
      if !after.status.Running? {
        StoppedStays(registry, nodes, after, steps - 1);
      }
      StepReadsAhead(registry, nodes, config, more);
      IterateReadsAhead(registry, nodes, after, steps - 1, more);
    }
  }

  lemma ReachesFurther(registry: Registry, plan: Plan, readings: seq<Reading>, steps: nat, config: Config,
                       more: seq<Reading>)
    requires Reaches(registry, plan, readings, steps, config) && config.status.Running?
    requires Step(registry, plan.nodes, Fed(config, more)).state.inputs == []
    ensures Reaches(registry, plan, readings + more, steps + 1, Step(registry, plan.nodes, Fed(config, more)))
  {
    IterateReadsAhead(registry, plan.nodes, Start(plan, readings), steps, more);
    assert Fed(Start(plan, readings), more) == Start(plan, readings + more);
    IterateAdds(registry, plan.nodes, Start(plan, readings + more), steps, 1);
    assert Iterate(registry, plan.nodes, Fed(config, more), 1) == Step(registry, plan.nodes, Fed(config, more));
  }

  // ----- requested commands -------------------------------------------------------------

  ghost predicate Logged(log: seq<Event>, key: CommandKey) {
    exists k :: 0 <= k < |log| && log[k].Attempted? && Key(log[k]) == (key.node, key.attempt)
  }

  /** A requested command belongs to the attempt under way or to one that has been logged. */
  ghost predicate Accounted(nodes: seq<Node>, config: Config, key: CommandKey) {
    && key.node < |nodes| && nodes[key.node].CommandNode? && key.index < |nodes[key.node].targets|
    && (Logged(config.state.log, key) || (config.node == Some(key.node) && config.attempt == key.attempt))
  }

  /** What the runtime asks the command service for on behalf of one target. */
  function RequestTo(target: Target, payload: Payload, deadline: int): CommandRequest {
    CommandRequest(target.device, target.endpoint, payload, deadline, None, false)
  }

  /** The request under a key is determined by the plan and the deadline of the run. */
  predicate Asks(nodes: seq<Node>, deadline: int, key: CommandKey, request: CommandRequest) {
    && key.node < |nodes| && nodes[key.node].CommandNode? && key.index < |nodes[key.node].targets|
    && request == RequestTo(nodes[key.node].targets[key.index], nodes[key.node].payload, deadline)
  }

  lemma StepKeepsAccounts(registry: Registry, nodes: seq<Node>, config: Config, key: CommandKey)
    requires Accounted(nodes, config, key) && config.status.Running?
    requires !Step(registry, nodes, config).status.Waiting?
    ensures Accounted(nodes, Step(registry, nodes, config), key)
  {
    var log, after := config.state.log, Step(registry, nodes, config).state.log;
    StepExtendsLog(registry, nodes, config);
    if Logged(log, key) {
      var k :| 0 <= k < |log| && log[k].Attempted? && Key(log[k]) == (key.node, key.attempt);
      assert after[k] == log[k];
    } else {
      assert after[|log|].Attempted? && Key(after[|log|]) == (key.node, key.attempt);
    }
  }

  lemma AllAccountsKept(registry: Registry, nodes: seq<Node>, config: Config, more: seq<Reading>, keys: set<CommandKey>)
    requires config.status.Running? && !Step(registry, nodes, Fed(config, more)).status.Waiting?
    requires forall key :: key in keys ==> Accounted(nodes, config, key)
    ensures forall key :: key in keys ==> Accounted(nodes, Step(registry, nodes, Fed(config, more)), key)
  {
    forall key | key in keys
      ensures Accounted(nodes, Step(registry, nodes, Fed(config, more)), key)
    {
      StepKeepsAccounts(registry, nodes, Fed(config, more), key);
    }
  }

  /**
   * The attempt under way was never made before, so no two attempts of a run
   * request commands under the same key.
   */
  lemma AttemptIsNew(registry: Registry, document: Document, readings: seq<Reading>, steps: nat, config: Config,
                     key: CommandKey)
    requires Compile(registry, document).Ok?
    requires Reaches(registry, Compile(registry, document).value, readings, steps, config) && config.status.Running?
    requires var nodes := Compile(registry, document).value.nodes;
             key.node < |nodes| && nodes[key.node].CommandNode?
    requires config.node == Some(key.node) && config.attempt == key.attempt
    ensures !Logged(config.state.log, key)
  {
    var plan := Compile(registry, document).value;
    var reading := Reading(map[], map[], {}, CommandOutcome(CommandState.Confirmed, None));
    var after := Step(registry, plan.nodes, Fed(config, [reading]));
    ReachesFurther(registry, plan, readings, steps, config, [reading]);
    NothingRunsTwice(registry, document, readings + [reading], steps + 1);
    var log, last := after.state.log, |config.state.log|;
    assert Key(log[last]) == (key.node, key.attempt);
    assert forall k :: 0 <= k < last ==> log[k] == config.state.log[k] && Key(log[k]) != Key(log[last]);
  }

  // ----- commits and timers ----------------------------------------------------------------

  /** A commit that ends every live timer leaves a run that needs none. */
  ghost predicate EndsAll(timers: Timers, change: TimerChange) {
    change.created.None? && forall id :: LiveIn(timers, id) ==> id in change.cancelled || change.consumed == Some(id)
  }

  lemma EndedTimersFit(nodes: seq<Node>, next: Run, timers: Timers, change: TimerChange)
    requires EndsAll(timers, change) && RunFits(nodes, next)
    requires next.lifecycle.Sleeping? ==> next.attempt.Some? && next.attempt.value.phase.AwaitingOutcome?
    ensures TimersFit(nodes, next, Applied(timers, change))
  {
    assert forall id :: !LiveIn(Applied(timers, change), id);
  }

  /** Without live timers before, the created one is the only one. */
  lemma CreatedTimerFits(nodes: seq<Node>, next: Run, timers: Timers, id: TimerId)
    requires forall other :: !LiveIn(timers, other)
    requires Permitted(timers, TimerChange(Some(id), {}, None))
    requires Uses(nodes, next, id) && RunFits(nodes, next) && id.kind != Stability
    ensures TimersFit(nodes, next, Applied(timers, TimerChange(Some(id), {}, None)))
    ensures LiveIn(Applied(timers, TimerChange(Some(id), {}, None)), id)
  {
    var after := Applied(timers, TimerChange(Some(id), {}, None));
    assert id in timers ==> LiveIn(timers, id);
    forall other
      ensures LiveIn(after, other) <==> other == id
    {
      assert LiveIn(after, other) && other != id ==> LiveIn(timers, other);
    }
    assert LiveIn(after, id);
    assert OneLive(after, id.node, id.kind);
  }

  /** A run at a delay has the timer of that delay and no other. */
  lemma DelayOwnsOneTimer(nodes: seq<Node>, run: Run, timers: Timers)
    requires RunFits(nodes, run) && TimersFit(nodes, run, timers) && run.lifecycle.Sleeping?
    requires nodes[run.node.value].DelayNode?
    ensures OneLive(timers, run.node.value, DelayTimer)
    ensures forall id :: LiveIn(timers, id) ==> id.kind == DelayTimer
  {
    forall id | LiveIn(timers, id)
      ensures id.kind == DelayTimer
    {
      assert Uses(nodes, run, id);
    }
  }

  lemma TheLiveTimer(timers: Timers, node: NodeId, kind: TimerKind, id: TimerId)
    requires OneLive(timers, node, kind) && LiveIn(timers, id) && id.kind == kind
    ensures forall other :: LiveIn(timers, other) && other.kind == kind ==> other == id
  {
  }

  lemma AwakeOwnsNoTimer(nodes: seq<Node>, run: Run, timers: Timers)
    requires TimersFit(nodes, run, timers) && !run.lifecycle.Sleeping?
    ensures forall id :: !LiveIn(timers, id)
  {
    forall id
      ensures !LiveIn(timers, id)
    {
      assert LiveIn(timers, id) ==> Uses(nodes, run, id);
    }
  }

  // ----- stability intervals ----------------------------------------------------------------

  /** At a branch or a wait every live timer times a growing interval, apart from the timeout of the wait. */
  lemma ConditionalTimers(nodes: seq<Node>, run: Run, timers: Timers, id: TimerId)
    requires RunFits(nodes, run) && TimersFit(nodes, run, timers)
    requires run.node.Some? && run.node.value < |nodes| && Conditional(nodes[run.node.value])
    requires LiveIn(timers, id)
    ensures if id.kind.WaitTimeout? then nodes[run.node.value].WaitNode?
            else id.kind.Stability? && Grows(run, id) && id in GrowingTimers(run.durations, run.node.value)
  {
    assert Uses(nodes, run, id);
  }

  /** A run that stays at its condition: every growing interval goes on, or its timer ends. */
  lemma StayingTimersFit(nodes: seq<Node>, run: Run, timers: Timers, next: Run, change: TimerChange)
    requires RunFits(nodes, run) && TimersFit(nodes, run, timers) && RunFits(nodes, next) && Permitted(timers, change)
    requires run.node.Some? && run.node.value < |nodes| && Conditional(nodes[run.node.value])
    requires nodes[run.node.value].WaitNode? ==> run.lifecycle.Sleeping?
    requires next.lifecycle.Sleeping? && next.node == run.node
    requires change.created.Some? ==>
               change.created.value.kind.Stability? && change.created.value.node == run.node.value
                                      && Grows(next, change.created.value)
    requires change.consumed.Some? ==> change.consumed.value.kind.Stability?
    requires forall id :: id in change.cancelled ==> id.kind.Stability?
    requires forall duration :: duration in run.durations && duration.phase.Growing? ==>
               duration in next.durations || duration.Timer() in change.cancelled
               || change.consumed == Some(duration.Timer())
    ensures TimersFit(nodes, next, Applied(timers, change))
  {
    var after := Applied(timers, change);
    forall id | LiveIn(after, id)
      ensures Uses(nodes, next, id)
    {
      if change.created != Some(id) {
        assert LiveIn(timers, id);
        ConditionalTimers(nodes, run, timers, id);
      }
    }
    if nodes[run.node.value].WaitNode? {
      var id :| LiveIn(timers, id) && id.node == run.node.value && id.kind == WaitTimeout
        && forall other :: LiveIn(timers, other) && other.kind == WaitTimeout ==> other == id;
      assert LiveIn(after, id);
      assert forall other :: LiveIn(after, other) && other.kind == WaitTimeout ==> LiveIn(timers, other);
      assert OneLive(after, run.node.value, WaitTimeout);
    }
  }

  /** Leaving a branch or a wait ends its growing intervals and the timeout of the wait. */
  lemma LeavingConditionEndsAll(nodes: seq<Node>, run: Run, timers: Timers, next: Run, change: TimerChange)
    requires RunFits(nodes, run) && TimersFit(nodes, run, timers) && RunFits(nodes, next)
    requires run.node.Some? && run.node.value < |nodes| && Conditional(nodes[run.node.value])
    requires !next.lifecycle.Sleeping? && change.created.None?
    requires GrowingTimers(run.durations, run.node.value) <= change.cancelled
    requires nodes[run.node.value].WaitNode? ==>
               forall id :: LiveIn(timers, id) && id.kind.WaitTimeout? ==>
                 id in change.cancelled || change.consumed == Some(id)
    ensures TimersFit(nodes, next, Applied(timers, change))
  {
    forall id | LiveIn(timers, id)
      ensures id in change.cancelled || change.consumed == Some(id)
    {
      ConditionalTimers(nodes, run, timers, id);
    }
    EndedTimersFit(nodes, next, timers, change);
  }

  /** What the plan machine reads where the run looks at `facts`. */
  function ReadingOf(facts: Facts, run: Run): Reading {
    Reading(SnapshotOf(facts.observed), facts.local, MatureKeys(run.durations),
            CommandOutcome(CommandState.Confirmed, None))
  }

  predicate TimeoutFired(before: Timers, after: Timers, node: NodeId) {
    exists id :: id in before && before[id].Ready? && id.node == node && id.kind == WaitTimeout
      && id in after && after[id].Consumed?
  }

  // ----- command attempts --------------------------------------------------------------------

  /** One outcome for the commands of an attempt: repeatable exactly when a retry was planned. */
  function OutcomeOf(attempt: nat, indices: seq<nat>, records: seq<CommandRecord>, retry: RetryPolicy): CommandOutcome {
    if AllConfirmed(records) then CommandOutcome(CommandState.Confirmed, None)
    else if RetryDecision(attempt, indices, records, retry).Some? then
      CommandOutcome(CommandState.Failed, FirstFailure(records))
    else CommandOutcome(CommandState.Failed, None)
  }

  function FirstFailure(records: seq<CommandRecord>): Option<ErrorCode> {
    if records == [] then None
    else if Confirms(records[0]) then FirstFailure(records[1..])
    else records[0].failure
  }

  lemma {:induction false} FirstFailureRepeats(records: seq<CommandRecord>, retry: RetryPolicy)
    requires AllRepeatable(records, retry) && !AllConfirmed(records)
    ensures FirstFailure(records).Some? && FirstFailure(records).value in retry.retryable
  {
    if Confirms(records[0]) {
      assert forall k :: 0 <= k < |records| - 1 ==> records[1..][k] == records[k + 1];
      FirstFailureRepeats(records[1..], retry);
    }
  }

  lemma OutcomeRepeatsIffRetried(attempt: nat, indices: seq<nat>, records: seq<CommandRecord>, retry: RetryPolicy)
    ensures var outcome := OutcomeOf(attempt, indices, records, retry);
            && (outcome.state == CommandState.Confirmed <==> AllConfirmed(records))
            && (!AllConfirmed(records) ==>
                  (MayRetry(retry, attempt, outcome) <==> RetryDecision(attempt, indices, records, retry).Some?))
  {
    if RetryDecision(attempt, indices, records, retry).Some? && !AllConfirmed(records) {
      FirstFailureRepeats(records, retry);
    }
  }

  function OutcomeReading(outcome: CommandOutcome): Reading {
    Reading(map[], map[], {}, outcome)
  }

  /** The run after its command node was left, with everything confirmed or by the failure policy. */
  function AfterCommand(run: Run, node: Node, confirmed: bool): Run
    requires node.CommandNode?
  {
    var next := run.Checkpoint().(attempt := None);
    if confirmed then next.Goes(node.next) else next.Fails(node.onFailure, node.next)
  }

  lemma LeavingCommandIsStep(registry: Registry, nodes: seq<Node>, run: Run, config: Config, id: NodeId,
                             outcome: CommandOutcome)
    requires Abstracts(run, config) && config.status.Running? && !run.lifecycle.Withdrawn?
    requires run.node == Some(id) && id < |nodes| && nodes[id].CommandNode?
    requires outcome.state == CommandState.Confirmed || !MayRetry(nodes[id].retry, AttemptNumber(run), outcome)
    ensures var after := Step(registry, nodes, Fed(config, [OutcomeReading(outcome)]));
            && after.status != Status.Waiting
            && Abstracts(AfterCommand(run, nodes[id], outcome.state == CommandState.Confirmed), after)
  {
  }

  /** A repeatable outcome makes the machine count the attempt while the run backs off. */
  lemma BackingOffIsStep(registry: Registry, nodes: seq<Node>, run: Run, config: Config, id: NodeId,
                         outcome: CommandOutcome, next: Run)
    requires Abstracts(run, config) && config.status.Running? && !run.lifecycle.Withdrawn?
    requires run.node == Some(id) && id < |nodes| && nodes[id].CommandNode?
    requires outcome.state != CommandState.Confirmed && MayRetry(nodes[id].retry, AttemptNumber(run), outcome)
    requires next.lifecycle.Sleeping? && next.node == run.node && next.frames == run.frames
             && next.variables == run.variables && AttemptNumber(next) == AttemptNumber(run) + 1
    ensures var after := Step(registry, nodes, Fed(config, [OutcomeReading(outcome)]));
            after.status != Status.Waiting && Abstracts(next, after)
  {
  }

  /** A run that backs off after a round is well formed, with the unconfirmed targets due. */
  lemma BackOffFits(nodes: seq<Node>, run: Run, next: Run, id: NodeId, rounds: seq<Round>, round: Round)
    requires RunFits(nodes, run) && !run.lifecycle.Withdrawn? && run.node == Some(id)
    requires id < |nodes| && nodes[id].CommandNode?
    requires RoundChain(rounds, |nodes[id].targets|) && |rounds| < nodes[id].retry.maximumRetries
    requires round.indices == Due(rounds, |nodes[id].targets|) && |round.indices| == |round.records|
    requires next.lifecycle.Sleeping? && next.node == run.node && next.durations == run.durations && next.attempt.Some?
    requires var attempt := next.attempt.value;
             attempt.node == id && attempt.attempt == |rounds| && attempt.phase.Backoff?
             && attempt.indices == Unconfirmed(round.indices, round.records)
    ensures RunFits(nodes, next) && RoundsFit(nodes, next, rounds + [round])
  {
    ChainExtends(rounds, round, |nodes[id].targets|);
  }

  lemma AfterCommandFits(nodes: seq<Node>, run: Run, id: NodeId, confirmed: bool)
    requires RunFits(nodes, run) && !run.lifecycle.Withdrawn?
    requires run.node == Some(id) && id < |nodes| && nodes[id].CommandNode?
    ensures var next := AfterCommand(run, nodes[id], confirmed);
            RunFits(nodes, next) && RoundsFit(nodes, next, []) && !next.lifecycle.Sleeping?
  {
  }

  lemma SettledIsFit(nodes: seq<Node>, id: NodeId, rounds: seq<Round>, round: Round)
    requires id < |nodes| && nodes[id].CommandNode?
    requires RoundChain(rounds, |nodes[id].targets|) && |rounds| <= nodes[id].retry.maximumRetries
    requires round.indices == Due(rounds, |nodes[id].targets|) && |round.indices| == |round.records|
    ensures SettledFits(nodes, Settled(id, rounds + [round], AllConfirmed(round.records)))
  {
    ChainExtends(rounds, round, |nodes[id].targets|);
    SucceedsIffEveryTargetConfirmed(rounds + [round], |nodes[id].targets|);
  }

  /** A run in backoff has the timer of that backoff and no other. */
  lemma BackoffOwnsOneTimer(nodes: seq<Node>, run: Run, timers: Timers, id: TimerId)
    requires RunFits(nodes, run) && TimersFit(nodes, run, timers)
    requires run.attempt.Some? && LiveIn(timers, id)
    ensures var attempt := run.attempt.value;
            attempt.phase.Backoff? && id == TimerId(attempt.node, CommandRetry, attempt.phase.readyAt)
  {
    assert Uses(nodes, run, id);
  }

  /** Requests one command after the other; `made` are the requests before the first error, and at it. */
  method Gather(facts: Facts, keys: seq<CommandKey>, indices: seq<nat>, targets: seq<Target>, payload: Payload,
                deadline: int)
    returns (records: Option<seq<CommandRecord>>, made: map<CommandKey, CommandRequest>)
    requires |keys| == |indices|
    ensures records.Some? <==> Known(facts, keys) && InBounds(indices, targets)
    ensures records.Some? ==> records.value == RecordsOf(facts, keys) && forall k :: 0 <= k < |keys| ==> keys[k] in made
    ensures forall key :: key in made ==>
              exists k :: 0 <= k < |keys| && keys[k] == key
                  && MadeFor(indices[k], targets, payload, deadline, made[key])
  {
    var found: seq<CommandRecord> := [];
    made := map[];
    var i := 0;
    while i < |keys|
      invariant i == |found| <= |keys|
      invariant forall k :: 0 <= k < i ==>
                  && indices[k] < |targets| && keys[k] in made
                  && keys[k] in facts.commands && found[k] == facts.commands[keys[k]]
      invariant forall key :: key in made ==>
                  exists k :: 0 <= k < |keys| && keys[k] == key
                      && MadeFor(indices[k], targets, payload, deadline, made[key])
    {
      if indices[i] >= |targets| {
        return None, made;
      }
      made := made[keys[i] := RequestTo(targets[indices[i]], payload, deadline)];
      if keys[i] !in facts.commands {
        return None, made;
      }
      found := found + [facts.commands[keys[i]]];
      i := i + 1;
    }
    return Some(found), made;
  }

  predicate MadeFor(index: nat, targets: seq<Target>, payload: Payload, deadline: int, request: CommandRequest) {
    index < |targets| && request == RequestTo(targets[index], payload, deadline)
  }

  /** Requests of the attempt under way belong to it, and ask for what the plan says. */
  lemma RequestsAccounted(nodes: seq<Node>, config: Config, id: NodeId, indices: seq<nat>, deadline: int,
                          made: map<CommandKey, CommandRequest>)
    requires id < |nodes| && nodes[id].CommandNode? && config.node == Some(id)
    requires var keys := KeysOf(id, config.attempt, indices);
             forall key :: key in made ==>
               exists k :: 0 <= k < |keys| && keys[k] == key
                 && MadeFor(indices[k], nodes[id].targets, nodes[id].payload, deadline, made[key])
    ensures forall key :: key in made ==> Accounted(nodes, config, key) && Asks(nodes, deadline, key, made[key])
  {
  }

  // ----- when a step moves the machine ----------------------------------------------------

  predicate ReadyTimer(timers: Timers, node: NodeId, kind: TimerKind) {
    exists id :: id in timers && timers[id].Ready? && id.node == node && id.kind == kind
  }

  predicate IntervalsLive(run: Run, timers: Timers, node: NodeId) {
    forall id :: id in GrowingTimers(run.durations, node) ==> id in timers && timers[id].Live()
  }

  /** Evaluation with the timers of the growing intervals, all of which must be there. */
  function Evaluates(registry: Registry, condition: ResolvedCondition, node: NodeId, run: Run, timers: Timers,
                     facts: Facts): (evaluated: Evaluated)
    ensures evaluated.answer.Needs? ==> RequestIsFor(run, node, evaluated.answer.request)
  {
    if !(GrowingTimers(run.durations, node) <= timers.Keys) then Evaluated(TimerLost, {})
    else
      EvaluateDurably(registry, condition, run.variables, ReadingOf(facts, run), WorldOf(node, run, timers, facts), {})
  }

  /** The evaluation sees the timers of the intervals that grow at its node. */
  function WorldOf(node: NodeId, run: Run, timers: Timers, facts: Facts): World {
    World(facts.now, node, run.durations,
          map timer | timer in GrowingTimers(run.durations, node) && timer in timers :: timers[timer])
  }

  /** What a committed evaluation leaves in the history of the run. */
  function Seen(node: NodeId, run: Run, timers: Timers, facts: Facts, met: Option<Request>): Sighting {
    Sighting(run.variables, ReadingOf(facts, run), WorldOf(node, run, timers, facts), met)
  }

  /** An interval is begun for the node; one that ripens is growing, and the timer is its own. */
  predicate RequestIsFor(run: Run, node: NodeId, request: Request) {
    match request
    case Begin(duration) => duration.node == node && duration.phase.Growing?
    case StillGrowing => true
    case Ripen(key, timer) =>
      var found := Find(run.durations, key);
      found.Some? && found.value.phase.Growing? && found.value.Timer() == timer
  }

  /** The request leads to a commit: it changes something, and the change is permitted. */
  predicate Adjusts(run: Run, timers: Timers, node: NodeId, evaluated: Evaluated) {
    && evaluated.answer.Needs?
    && !(evaluated.answer.request.StillGrowing? && ResetTimers(run.durations, node, evaluated.invalid) == {})
    && Adjusted(run.durations, evaluated.answer.request, evaluated.invalid).Some?
    && Permitted(timers, AdjustChange(run.durations, node, evaluated.answer.request, evaluated.invalid))
  }

  /** Meeting a request keeps the intervals at their node and the timers with their owners. */
  lemma AdjustedFits(nodes: seq<Node>, run: Run, timers: Timers, id: NodeId, request: Request,
                     invalid: set<DurationKey>)
    requires RunFits(nodes, run) && TimersFit(nodes, run, timers) && !run.lifecycle.Withdrawn?
    requires run.node == Some(id) && id < |nodes| && Conditional(nodes[id])
    requires nodes[id].WaitNode? ==> run.lifecycle.Sleeping?
    requires RequestIsFor(run, id, request) && Adjusted(run.durations, request, invalid).Some?
    ensures var next := run.Checkpoint().(lifecycle := Sleeping,
                                          durations := Adjusted(run.durations, request, invalid).value);
            var change := AdjustChange(run.durations, id, request, invalid);
            RunFits(nodes, next) && (Permitted(timers, change) ==> TimersFit(nodes, next, Applied(timers, change)))
  {
    var durations := Adjusted(run.durations, request, invalid).value;
    var change := AdjustChange(run.durations, id, request, invalid);
    var next := run.Checkpoint().(lifecycle := Sleeping, durations := durations);
    if request.Begin? {
      assert request.duration in durations;
    } else if request.Ripen? && request.key !in invalid {
      KeptIsFound(run.durations, invalid, request.key);
    }
    ResetsCover(run.durations, id, invalid);
    assert forall k :: 0 <= k < |durations| ==> durations[k] in durations;
    if Permitted(timers, change) {
      StayingTimersFit(nodes, run, timers, next, change);
    }
  }

  lemma EvaluatedIsPlain(registry: Registry, condition: ResolvedCondition, node: NodeId, run: Run, timers: Timers,
                         facts: Facts)
    ensures SameAnswer(Evaluates(registry, condition, node, run, timers, facts).answer,
                       EvaluateCondition(registry, condition, run.variables, ReadingOf(facts, run)))
  {
    if GrowingTimers(run.durations, node) <= timers.Keys {
      DurableAnswerIsPlain(registry, condition, run.variables, ReadingOf(facts, run),
                           WorldOf(node, run, timers, facts), {});
    }
  }

  function ConditionAnswer(registry: Registry, condition: ResolvedCondition, node: NodeId, run: Run, timers: Timers,
                           facts: Facts): Answer
  {
    Evaluates(registry, condition, node, run, timers, facts).answer
  }

  function AttemptIndices(run: Run, node: Node): seq<nat>
    requires node.CommandNode?
  {
    if run.attempt.None? then Everyone(|node.targets|) else run.attempt.value.indices
  }

  predicate InBounds(indices: seq<nat>, targets: seq<Target>) {
    forall k :: 0 <= k < |indices| ==> indices[k] < |targets|
  }

  predicate Known(facts: Facts, keys: seq<CommandKey>) {
    forall k :: 0 <= k < |keys| ==> keys[k] in facts.commands
  }

  function RecordsOf(facts: Facts, keys: seq<CommandKey>): seq<CommandRecord>
    requires Known(facts, keys)
  {
    seq(|keys|, k requires 0 <= k < |keys| => facts.commands[keys[k]])
  }

  /** The command node has an attempt under way whose commands are all over, and the commit that follows is possible. */
  predicate AttemptEnds(id: NodeId, node: Node, run: Run, timers: Timers, facts: Facts)
    requires node.CommandNode?
  {
    var indices, keys := AttemptIndices(run, node), KeysOf(id, AttemptNumber(run), AttemptIndices(run, node));
    && (run.attempt.Some? ==> !run.attempt.value.phase.Backoff?)
    && (run.attempt.None? || run.attempt.value.phase.Dispatching? ==> indices != [] && InBounds(indices, node.targets))
    && Known(facts, keys) && AllTerminal(RecordsOf(facts, keys))
    && RetryPossible(id, AttemptNumber(run), indices, RecordsOf(facts, keys), node.retry, timers)
  }

  /** Any retry that is planned can create its timer. */
  predicate RetryPossible(id: NodeId, attempt: nat, indices: seq<nat>, records: seq<CommandRecord>, retry: RetryPolicy,
                          timers: Timers)
  {
    match RetryDecision(attempt, indices, records, retry)
    case None => true
    case Some(plan) => Permitted(timers, TimerChange(Some(TimerId(id, CommandRetry, plan.readyAt)), {}, None))
  }

  /** What the current node needs before the run can leave it or make its next attempt. */
  predicate NodeMoves(registry: Registry, id: NodeId, node: Node, run: Run, timers: Timers, facts: Facts) {
    match node
    case Complete | JoinNode(_) => true
    case GroupNode(_, branches, join) => branches != [] && join.Some?
    case SetVariableNode(_, expression, _) => EvaluateExpression(expression, run.variables, ReadingOf(facts, run)).Ok?
    case DelayNode(_, _) => run.lifecycle.Sleeping? && ReadyTimer(timers, id, DelayTimer)
    case BranchNode(condition, _, _, _) =>
      ConditionAnswer(registry, condition, id, run, timers, facts).Holds? && IntervalsLive(run, timers, id)
    case WaitNode(condition, _, _, _) =>
      var answer := ConditionAnswer(registry, condition, id, run, timers, facts);
      && run.lifecycle.Sleeping? && answer.Holds? && IntervalsLive(run, timers, id)
      && (answer.holds || ReadyTimer(timers, id, WaitTimeout))
    case CommandNode(_, _, _, _, _) => AttemptEnds(id, node, run, timers, facts)
  }

  /**
   * Whether the sighting of a step survives it: a request must lead to a
   * commit, and a wait that goes on must commit its resets, if it has any.
   */
  predicate KeepsSighting(node: Node, id: NodeId, run: Run, timers: Timers, evaluated: Evaluated, facts: Facts) {
    match evaluated.answer
    case Needs(_) => facts.commits && Adjusts(run, timers, id, evaluated)
    case Holds(holds) =>
      && node.WaitNode? && !holds && !ReadyTimer(timers, id, WaitTimeout)
      && (ResetNeeded(run, id, evaluated.invalid) ==>
            facts.commits
            && Permitted(timers, TimerChange(None, ResetTimers(run.durations, id, evaluated.invalid), None)))
    case _ => false
  }

  /** Some interval of the run was seen to fail. */
  predicate ResetNeeded(run: Run, node: NodeId, invalid: set<DurationKey>) {
    ResetTimers(run.durations, node, invalid) != {} || Keep(run.durations, invalid) != run.durations
  }

  /** While a growing interval is waited for, a sighting survives exactly if some growing interval was seen to fail. */
  lemma PendingSightingIsKeptIff(node: NodeId, run: Run, timers: Timers, evaluated: Evaluated)
    requires evaluated.answer == Needs(StillGrowing) && IntervalsLive(run, timers, node)
    ensures Adjusts(run, timers, node, evaluated)
            <==> exists duration :: duration in run.durations && duration.node == node && duration.phase.Growing?
                                    && Resets(run.durations, evaluated.invalid, duration.Timer())
  {
    var reset := ResetTimers(run.durations, node, evaluated.invalid);
    if duration :| duration in run.durations && duration.node == node && duration.phase.Growing?
                   && Resets(run.durations, evaluated.invalid, duration.Timer()) {
      assert duration.Timer() in reset;
    }
    if reset != {} {
      var id :| id in reset;
      assert id in GrowingTimers(run.durations, node);
    }
  }

  /**
   * A step that sees a mature interval fail while another one still grows
   * commits nothing. The interval stays mature, and counts again as soon as
   * its condition holds again, however short that is.
   */
  lemma MatureIntervalOutlivesFailure(registry: Registry, id: NodeId, run: Run, timers: Timers, facts: Facts,
                                      later: Facts, first: ConditionDuration, second: ConditionDuration)
    requires first.key.0.Compare? && second.key.0.Compare? && first.readyAt != second.readyAt
    requires first.node == second.node == id && first.phase.Mature? && second.phase.Growing?
    requires run.durations == [first, second]
    requires second.Timer() in timers && timers[second.Timer()].Pending?
    requires EvaluateCondition(registry, first.key.0, run.variables, ReadingOf(facts, run)) == Ok(false)
    requires EvaluateCondition(registry, second.key.0, run.variables, ReadingOf(facts, run)) == Ok(true)
    requires EvaluateCondition(registry, first.key.0, run.variables, ReadingOf(later, run)) == Ok(true)
    ensures var condition := Any([StateDuration(first.key.0, first.key.1), StateDuration(second.key.0, second.key.1)]);
            var evaluated := Evaluates(registry, condition, id, run, timers, facts);
            && evaluated == Evaluated(Needs(StillGrowing), {first.key})
            && !Adjusts(run, timers, id, evaluated)
            && ConditionAnswer(registry, condition, id, run, timers, later) == Holds(true)
  {
    var one, other := StateDuration(first.key.0, first.key.1), StateDuration(second.key.0, second.key.1);
    var reading, world := ReadingOf(facts, run), WorldOf(id, run, timers, facts);
    EitherEvaluates(registry, one, other, run.variables, reading, world);
    EitherEvaluates(registry, one, other, run.variables, ReadingOf(later, run), WorldOf(id, run, timers, later));
    assert GrowingTimers(run.durations, id) == {second.Timer()};
    assert first.key != second.key;
    assert Find(run.durations, first.key) == Some(first);
    assert Find(run.durations[1..], second.key) == Some(second);
    assert EvaluateDurably(registry, one, run.variables, reading, world, {}) == Evaluated(Holds(false), {first.key});
    assert ResetTimers(run.durations, id, {first.key}) == {};
  }

  /** A wait whose condition does not hold is left by its policy. */
  lemma TimingOutIsStep(registry: Registry, nodes: seq<Node>, run: Run, config: Config, id: NodeId, reading: Reading)
    requires RunFits(nodes, run) && Abstracts(run, config) && !run.lifecycle.Over() && !run.lifecycle.Unstarted?
    requires run.node == Some(id) && id < |nodes| && nodes[id].WaitNode?
    requires EvaluateCondition(registry, nodes[id].condition, run.variables, reading) == Ok(false)
    ensures var next := run.Checkpoint().Forgets(id).Fails(nodes[id].onTimeout, nodes[id].next);
            var after := PlanMachine.Step(registry, nodes, Fed(config, [reading]));
            && next.durations == [] && RunFits(nodes, next) && RoundsFit(nodes, next, [])
            && after.status != Status.Waiting && Abstracts(next, after)
  {
  }

  /** A wait that goes on without the intervals that were seen to fail. */
  lemma StayingFits(registry: Registry, nodes: seq<Node>, run: Run, timers: Timers, seen: Sighting, id: NodeId,
                    invalid: set<DurationKey>)
    requires RunFits(nodes, run) && TimersFit(nodes, run, timers)
    requires run.node == Some(id) && id < |nodes| && nodes[id].WaitNode? && run.lifecycle.Sleeping?
    requires seen.world.node == id && Reports(registry, nodes, seen, invalid)
    ensures var next := run.Checkpoint().(durations := Keep(run.durations, invalid));
            var change := TimerChange(None, ResetTimers(run.durations, id, invalid), None);
            && RunFits(nodes, next)
            && (Permitted(timers, change) ==>
                  && TimersFit(nodes, next, Applied(timers, change))
                  && Interrupts(registry, nodes, seen, run.durations, next.durations, Applied(timers, change)))
  {
    var kept := Keep(run.durations, invalid);
    var next := run.Checkpoint().(durations := kept);
    var change := TimerChange(None, ResetTimers(run.durations, id, invalid), None);
    ResetsCover(run.durations, id, invalid);
    assert forall k :: 0 <= k < |kept| ==> kept[k] in kept;
    if Permitted(timers, change) {
      StayingTimersFit(nodes, run, timers, next, change);
      KeptInterrupts(registry, nodes, seen, run.durations, invalid, timers, change);
    }
  }

  lemma UnchangedIsApplied(timers: Timers)
    ensures Permitted(timers, UNCHANGED) && Applied(timers, UNCHANGED) == timers
  {
  }

  // ----- the persisted run ------------------------------------------------------------------

  datatype Preparation =
    | Resolved(holds: bool, invalid: set<DurationKey>)
    | Deferred(progress: Progress)

  class DurableRun {
    const registry: Registry
    const plan: Plan
    const budget: Budget
    const createdAt: int
    var run: Run
    var timers: Timers
    var traces: nat
    ghost var config: Config
    ghost var readings: seq<Reading>
    ghost var steps: nat
    ghost var rounds: seq<Round>
    ghost var settled: seq<Settled>
    ghost var requested: map<CommandKey, CommandRequest>
    ghost var sightings: seq<Sighting>

    /** The run stands for a configuration that the plan machine reaches on what the run has read. */
    ghost predicate Valid()
      reads this
    {
      && RunFits(plan.nodes, run)
      && TimersFit(plan.nodes, run, timers)
      && Abstracts(run, config)
      && Reaches(registry, plan, readings, steps, config)
      && RoundsFit(plan.nodes, run, rounds)
      && (forall k :: 0 <= k < |settled| ==> SettledFits(plan.nodes, settled[k]))
      && (forall key :: key in requested ==>
            Accounted(plan.nodes, config, key) && Asks(plan.nodes, Deadline(), key, requested[key]))
      && Unbroken(registry, plan.nodes, sightings, run.durations)
    }

    /** Commands of the run must be confirmed before its own time is over. */
    function Deadline(): int {
      createdAt + budget.maximumRunDurationMs
    }

    /** The run is under way and its current node is `id`. */
    ghost predicate At(id: NodeId)
      reads this
    {
      Valid() && !run.lifecycle.Over() && !run.lifecycle.Unstarted? && run.node == Some(id) && id < |plan.nodes|
    }

    /** The number of machine steps grows exactly if the worker commits and the condition holds. */
    twostate predicate MovesIff(facts: Facts, condition: bool)
      reads this
    {
      steps == old(steps) + if facts.commits && condition then 1 else 0
    }

    /** A step of the run is no step or one step of the plan machine. */
    twostate predicate Refines()
      reads this
    {
      || (config == old(config) && readings == old(readings))
      || (exists more ::
            && config == PlanMachine.Step(registry, plan.nodes, Fed(old(config), more))
            && readings == old(readings) + more)
    }

    constructor (registry: Registry, plan: Plan, budget: Budget, createdAt: int)
      ensures Valid()
      ensures this.registry == registry && this.plan == plan && this.budget == budget && this.createdAt == createdAt
      ensures run.lifecycle.Unstarted? && timers == map[] && config == Start(plan, []) && readings == []
      ensures settled == [] && requested == map[] && sightings == []
    {
      this.registry, this.plan, this.budget, this.createdAt := registry, plan, budget, createdAt;
      this.run := Run(Unstarted, 0, Some(plan.entry), InitialVariables(plan.variables), [], None, []);
      this.timers, this.traces := map[], 0;
      this.config, this.readings, this.steps := Start(plan, []), [], 0;
      this.rounds, this.settled, this.requested, this.sightings := [], [], map[], [];
    }

    /** One atomic write: the revised run, its timer changes and one trace step, or nothing. */
    method Commit(next: Run, change: TimerChange, commits: bool) returns (done: bool)
      requires next.revision == run.revision + 1
      modifies this`run, this`timers, this`traces
      ensures done <==> commits && Permitted(old(timers), change)
      ensures if done then run == next && timers == Applied(old(timers), change) && traces == old(traces) + 1
              else run == old(run) && timers == old(timers) && traces == old(traces)
    {
      done := commits && Permitted(timers, change);
      if done {
        run, timers, traces := next, Applied(timers, change), traces + 1;
      }
    }

    /** A commit that the plan machine does not see. */
    method CommitInPlace(next: Run, change: TimerChange, commits: bool, ghost seen: seq<Sighting>)
      returns (done: bool)
      requires Valid()
      requires next.revision == run.revision + 1 && RunFits(plan.nodes, next)
      requires Abstracts(next, config) && RoundsFit(plan.nodes, next, rounds)
      requires Permitted(timers, change) ==> TimersFit(plan.nodes, next, Applied(timers, change))
      requires Unbroken(registry, plan.nodes, sightings + seen, next.durations)
      modifies this`run, this`timers, this`traces, this`sightings
      ensures Valid() && (done <==> commits && Permitted(old(timers), change))
      ensures done ==> run == next && timers == Applied(old(timers), change) && sightings == old(sightings) + seen
      ensures !done ==> run == old(run) && timers == old(timers) && sightings == old(sightings)
    {
      done := Commit(next, change, commits);
      if done {
        sightings := sightings + seen;
      }
    }

    /** A commit in place that neither looks at a condition nor touches an interval. */
    method CommitUnseeing(next: Run, change: TimerChange, commits: bool) returns (done: bool)
      requires Valid()
      requires next.revision == run.revision + 1 && RunFits(plan.nodes, next) && next.durations == run.durations
      requires Abstracts(next, config) && RoundsFit(plan.nodes, next, rounds)
      requires Permitted(timers, change) ==> TimersFit(plan.nodes, next, Applied(timers, change))
      modifies this`run, this`timers, this`traces, this`sightings
      ensures Valid() && (done <==> commits && Permitted(old(timers), change)) && sightings == old(sightings)
      ensures done ==> run == next && timers == Applied(old(timers), change)
      ensures !done ==> run == old(run) && timers == old(timers)
    {
      assert sightings + [] == sightings;
      done := CommitInPlace(next, change, commits, []);
    }

    /** A commit that is one step of the plan machine, which reads `more`. */
    method CommitStep(next: Run, change: TimerChange, commits: bool, ghost more: seq<Reading>, ghost after: seq<Round>,
                      ghost left: seq<Settled>) returns (done: bool)
      requires Valid() && config.status.Running?
      requires next.revision == run.revision + 1 && RunFits(plan.nodes, next)
      requires PlanMachine.Step(registry, plan.nodes, Fed(config, more)).status != Status.Waiting
      requires Abstracts(next, PlanMachine.Step(registry, plan.nodes, Fed(config, more)))
      requires RoundsFit(plan.nodes, next, after)
      requires forall k :: 0 <= k < |left| ==> SettledFits(plan.nodes, left[k])
      requires next.durations == run.durations || next.durations == []
      requires Permitted(timers, change) ==> TimersFit(plan.nodes, next, Applied(timers, change))
      modifies this
      ensures Valid() && Refines() && requested == old(requested) && sightings == old(sightings)
      ensures done <==> commits && Permitted(old(timers), change)
      ensures steps == old(steps) + if done then 1 else 0
      ensures done ==>
                && run == next && timers == Applied(old(timers), change) && Permitted(old(timers), change)
                && config == PlanMachine.Step(registry, plan.nodes, Fed(old(config), more))
                && readings == old(readings) + more
                && settled == old(settled) + left
      ensures !done ==> run == old(run) && timers == old(timers) && config == old(config) && settled == old(settled)
    {
      ghost var moved := PlanMachine.Step(registry, plan.nodes, Fed(config, more));
      done := Commit(next, change, commits);
      if done {
        ReachesFurther(registry, plan, readings, steps, config, more);
        AllAccountsKept(registry, plan.nodes, config, more, requested.Keys);
        config, readings, steps := moved, readings + more, steps + 1;
        rounds, settled := after, settled + left;
      }
    }

    // ----- nodes without conditions --------------------------------------------------------

    method StepDelay(facts: Facts, id: NodeId) returns (progress: Progress)
      requires At(id) && plan.nodes[id].DelayNode?
      modifies this
      ensures Valid() && Refines() && requested == old(requested) && sightings == old(sightings)
      ensures MovesIff(facts, old(run).lifecycle.Sleeping? && ReadyTimer(old(timers), id, DelayTimer))
      ensures var timer := TimerId(id, DelayTimer, facts.now + plan.nodes[id].durationMs);
              && old(run).lifecycle.Active? && facts.commits
              && Permitted(old(timers), TimerChange(Some(timer), {}, None)) ==>
                run.lifecycle.Sleeping? && LiveIn(timers, timer)
      ensures config != old(config) ==>
                exists timer :: timer in old(timers) && old(timers)[timer].Ready? && timer.node == id
                  && timer.kind == DelayTimer && timer in timers && timers[timer].Consumed?
    {
      if run.lifecycle.Active? {
        progress := StartDelay(facts, id);
        return;
      }
      DelayOwnsOneTimer(plan.nodes, run, timers);
      var timer :| timer in timers && timers[timer].Live() && timer.node == id && timer.kind == DelayTimer;
      if !timers[timer].Ready? {
        return Asleep;
      }
      TheLiveTimer(timers, id, DelayTimer, timer);
      progress := EndDelay(facts, id, timer);
    }

    method StartDelay(facts: Facts, id: NodeId) returns (progress: Progress)
      requires At(id) && plan.nodes[id].DelayNode? && run.lifecycle.Active?
      modifies this`run, this`timers, this`traces, this`sightings
      ensures Valid() && sightings == old(sightings)
      ensures var timer := TimerId(id, DelayTimer, facts.now + plan.nodes[id].durationMs);
              facts.commits && Permitted(old(timers), TimerChange(Some(timer), {}, None)) ==>
                run.lifecycle.Sleeping? && LiveIn(timers, timer)
    {
      var timer := TimerId(id, DelayTimer, facts.now + plan.nodes[id].durationMs);
      var next := run.Checkpoint().(lifecycle := Sleeping);
      AwakeOwnsNoTimer(plan.nodes, run, timers);
      if Permitted(timers, TimerChange(Some(timer), {}, None)) {
        CreatedTimerFits(plan.nodes, next, timers, timer);
      }
      var done := CommitUnseeing(next, TimerChange(Some(timer), {}, None), facts.commits);
      return if done then Asleep else Refused;
    }

    method EndDelay(facts: Facts, id: NodeId, timer: TimerId) returns (progress: Progress)
      requires At(id) && plan.nodes[id].DelayNode? && run.lifecycle.Sleeping?
      requires timer in timers && timers[timer].Ready? && timer.node == id && timer.kind == DelayTimer
      requires forall other :: LiveIn(timers, other) ==> other == timer
      modifies this
      ensures Valid() && Refines() && requested == old(requested) && sightings == old(sightings)
      ensures MovesIff(facts, true)
      ensures config != old(config) ==> timer in timers && timers[timer].Consumed?
    {
      var next := run.Checkpoint().Goes(plan.nodes[id].next);
      var change := TimerChange(None, {}, Some(timer));
      EndedTimersFit(plan.nodes, next, timers, change);
      var done := CommitStep(next, change, facts.commits, [], [], []);
      return if done then Advanced else Refused;
    }

    method StepAssignment(facts: Facts, id: NodeId) returns (progress: Progress)
      requires At(id) && plan.nodes[id].SetVariableNode?
      modifies this
      ensures Valid() && Refines() && requested == old(requested) && sightings == old(sightings)
      ensures MovesIff(facts, EvaluateExpression(plan.nodes[id].expression, old(run).variables,
                                                 ReadingOf(facts, old(run))).Ok?)
    {
      var node := plan.nodes[id];
      var reading := ReadingOf(facts, run);
      match EvaluateExpression(node.expression, run.variables, reading)
      case Err(_) => return Refused;
      case Ok(value) =>
        var next := run.Checkpoint().(variables := run.variables[node.name := value], node := node.next);
        AwakeOwnsNoTimer(plan.nodes, run, timers);
        EndedTimersFit(plan.nodes, next, timers, UNCHANGED);
        var done := CommitStep(next, UNCHANGED, facts.commits, [reading], [], []);
        return if done then Advanced else Refused;
    }

    method StepComplete(facts: Facts, id: NodeId) returns (progress: Progress)
      requires At(id) && plan.nodes[id].Complete?
      modifies this
      ensures Valid() && Refines() && requested == old(requested) && sightings == old(sightings)
      ensures MovesIff(facts, true)
      ensures progress.Concluded? ==> run.lifecycle.Succeeded? && forall timer :: !LiveIn(timers, timer)
    {
      var next := run.Checkpoint().(lifecycle := Succeeded, node := None);
      AwakeOwnsNoTimer(plan.nodes, run, timers);
      EndedTimersFit(plan.nodes, next, timers, UNCHANGED);
      var done := CommitStep(next, UNCHANGED, facts.commits, [], [], []);
      if done {
        AwakeOwnsNoTimer(plan.nodes, run, timers);
      }
      return if done then Concluded else Refused;
    }

    method EnterGroup(facts: Facts, id: NodeId) returns (progress: Progress)
      requires At(id) && plan.nodes[id].GroupNode?
      modifies this
      ensures Valid() && Refines() && requested == old(requested) && sightings == old(sightings)
      ensures MovesIff(facts, plan.nodes[id].branches != [] && plan.nodes[id].join.Some?)
    {
      var node := plan.nodes[id];
      if node.branches == [] || node.join.None? {
        return Refused;
      }
      var frame := Frame(id, node.kind, node.join.value, node.branches[1..], false);
      var next := run.Checkpoint().(node := Some(node.branches[0]), frames := run.frames + [frame]);
      AwakeOwnsNoTimer(plan.nodes, run, timers);
      EndedTimersFit(plan.nodes, next, timers, UNCHANGED);
      var done := CommitStep(next, UNCHANGED, facts.commits, [], [], []);
      return if done then Advanced else Refused;
    }

    method StepJoin(facts: Facts, id: NodeId) returns (progress: Progress)
      requires At(id) && plan.nodes[id].JoinNode?
      modifies this
      ensures Valid() && Refines() && requested == old(requested) && sightings == old(sightings)
      ensures MovesIff(facts, true)
    {
      var following, next, outcome := plan.nodes[id].next, run.Checkpoint(), Advanced;
      if run.frames != [] && Top(run.frames).join == id {
        var top, outer := Top(run.frames), Pop(run.frames);
        var success := !top.failed;
        if top.kind.Race? && success {
          next := next.(frames := outer, node := following);
        } else if top.remaining != [] {
          next := next.(frames := outer + [top.(remaining := top.remaining[1..], failed := false)],
                        node := Some(top.remaining[0]));
        } else if top.kind.Race? && !success {
          next, outcome := next.(frames := outer, lifecycle := Abandoned, node := None), Concluded;
        } else {
          next := next.(frames := outer, node := following);
        }
      } else {
        next := next.(node := following);
      }
      AwakeOwnsNoTimer(plan.nodes, run, timers);
      EndedTimersFit(plan.nodes, next, timers, UNCHANGED);
      var done := CommitStep(next, UNCHANGED, facts.commits, [], [], []);
      return if done then outcome else Refused;
    }

    // ----- nodes with conditions -----------------------------------------------------------

    /**
     * The step leaves one more committed sighting, exactly if `kept`: the
     * intervals it saw to fail are gone and their timers are cancelled.
     */
    twostate predicate Watches(facts: Facts, id: NodeId, new met: Option<Request>, kept: bool)
      reads this
    {
      if kept then
        var seen := Seen(id, old(run), old(timers), facts, met);
        && sightings == old(sightings) + [seen]
        && Interrupts(registry, plan.nodes, seen, old(run).durations, run.durations, timers)
      else sightings == old(sightings)
    }

    /** Commits what the request asks for, together with the resets. */
    method Adjust(facts: Facts, id: NodeId, request: Request, invalid: set<DurationKey>) returns (done: bool)
      requires At(id) && Conditional(plan.nodes[id])
      requires plan.nodes[id].WaitNode? ==> run.lifecycle.Sleeping?
      requires Evaluates(registry, plan.nodes[id].condition, id, run, timers, facts)
               == Evaluated(Needs(request), invalid)
      modifies this`run, this`timers, this`traces, this`sightings
      ensures Valid()
      ensures var durations, change := Adjusted(old(run).durations, request, invalid),
                                       AdjustChange(old(run).durations, id, request, invalid);
              && (done <==> facts.commits && durations.Some? && Permitted(old(timers), change))
              && (done ==> run.lifecycle.Sleeping? && run.durations == durations.value
                           && timers == Applied(old(timers), change))
      ensures !done ==> run == old(run) && timers == old(timers)
      ensures Watches(facts, id, Some(request), done)
    {
      var durations := Adjusted(run.durations, request, invalid);
      var change := AdjustChange(run.durations, id, request, invalid);
      if durations.None? {
        return false;
      }
      AdjustedFits(plan.nodes, run, timers, id, request, invalid);
      ghost var seen := Seen(id, run, timers, facts, Some(request));
      SightingReports(registry, plan.nodes, seen);
      AdjustedIsUnbroken(registry, plan.nodes, sightings, seen, run.durations, request, invalid);
      if Permitted(timers, change) {
        AdjustedInterrupts(registry, plan.nodes, seen, run.durations, request, invalid, timers);
      }
      done := CommitInPlace(run.Checkpoint().(lifecycle := Sleeping, durations := durations.value), change,
                            facts.commits, [seen]);
    }

    /**
     * Evaluates the condition of the current node. When an interval has to be
     * started, reset or matured first, that is committed and the run sleeps on.
     */
    method Prepare(facts: Facts, id: NodeId) returns (prepared: Preparation)
      requires At(id) && Conditional(plan.nodes[id])
      requires plan.nodes[id].WaitNode? ==> run.lifecycle.Sleeping?
      modifies this`run, this`timers, this`traces, this`sightings
      ensures Valid()
      ensures var evaluated := Evaluates(registry, plan.nodes[id].condition, id, old(run), old(timers), facts);
              && (prepared.Resolved? <==> evaluated.answer.Holds?)
              && (prepared.Resolved? ==> evaluated == Evaluated(Holds(prepared.holds), prepared.invalid))
              && var adjusts := facts.commits && Adjusts(old(run), old(timers), id, evaluated);
                 && (adjusts ==>
                       && run.lifecycle.Sleeping?
                       && Some(run.durations) == Adjusted(old(run).durations, evaluated.answer.request,
                                                          evaluated.invalid)
                       && timers == Applied(old(timers), AdjustChange(old(run).durations, id, evaluated.answer.request,
                                                                      evaluated.invalid))
                       && Watches(facts, id, Some(evaluated.answer.request), true))
                 && (!adjusts ==> run == old(run) && timers == old(timers) && sightings == old(sightings))
      ensures prepared.Resolved? ==>
                EvaluateCondition(registry, plan.nodes[id].condition, run.variables, ReadingOf(facts, run))
                == Ok(prepared.holds)
    {
      var condition := plan.nodes[id].condition;
      var evaluated := Evaluates(registry, condition, id, run, timers, facts);
      EvaluatedIsPlain(registry, condition, id, run, timers, facts);
      match evaluated.answer
      case Holds(holds) => return Resolved(holds, evaluated.invalid);
      case Needs(request) =>
        if request.StillGrowing? && ResetTimers(run.durations, id, evaluated.invalid) == {} {
          return Deferred(Asleep);
        }
        var done := Adjust(facts, id, request, evaluated.invalid);
        return Deferred(if done then Asleep else Refused);
      case _ => return Deferred(Refused);
    }

    method StepBranch(facts: Facts, id: NodeId) returns (progress: Progress)
      requires At(id) && plan.nodes[id].BranchNode?
      modifies this
      ensures Valid() && Refines() && requested == old(requested)
      ensures MovesIff(facts, NodeMoves(registry, id, plan.nodes[id], old(run), old(timers), facts))
      ensures steps > old(steps) ==> run.durations == [] && forall timer :: !LiveIn(timers, timer)
      ensures var evaluated := Evaluates(registry, plan.nodes[id].condition, id, old(run), old(timers), facts);
              Watches(facts, id, evaluated.Request(),
                      KeepsSighting(plan.nodes[id], id, old(run), old(timers), evaluated, facts))
    {
      var node := plan.nodes[id];
      var prepared := Prepare(facts, id);
      if prepared.Deferred? {
        return prepared.progress;
      }
      progress := TakeSide(facts, id, prepared.holds);
    }

    /** Leaves a branch or a wait, together with its intervals and all live timers. */
    method LeaveCondition(facts: Facts, id: NodeId, next: Run, change: TimerChange) returns (done: bool)
      requires At(id) && Conditional(plan.nodes[id])
      requires next.revision == run.revision + 1 && RunFits(plan.nodes, next) && RoundsFit(plan.nodes, next, [])
      requires next.durations == [] && !next.lifecycle.Sleeping? && change.created.None?
      requires PlanMachine.Step(registry, plan.nodes, Fed(config, [ReadingOf(facts, run)])).status != Status.Waiting
      requires Abstracts(next, PlanMachine.Step(registry, plan.nodes, Fed(config, [ReadingOf(facts, run)])))
      requires GrowingTimers(run.durations, id) <= change.cancelled
      requires plan.nodes[id].WaitNode? ==>
                 forall timer :: LiveIn(timers, timer) && timer.kind.WaitTimeout? ==>
                   timer in change.cancelled || change.consumed == Some(timer)
      modifies this
      ensures Valid() && Refines() && requested == old(requested) && sightings == old(sightings)
      ensures done <==> facts.commits && Permitted(old(timers), change)
      ensures steps == old(steps) + if done then 1 else 0
      ensures if done then
                run == next && timers == Applied(old(timers), change) && forall timer :: !LiveIn(timers, timer)
              else run == old(run) && timers == old(timers) && config == old(config)
    {
      LeavingConditionEndsAll(plan.nodes, run, timers, next, change);
      done := CommitStep(next, change, facts.commits, [ReadingOf(facts, run)], [], []);
      if done {
        AwakeOwnsNoTimer(plan.nodes, run, timers);
      }
    }

    method TakeSide(facts: Facts, id: NodeId, holds: bool) returns (progress: Progress)
      requires At(id) && plan.nodes[id].BranchNode?
      requires EvaluateCondition(registry, plan.nodes[id].condition, run.variables, ReadingOf(facts, run)) == Ok(holds)
      modifies this
      ensures Valid() && Refines() && requested == old(requested)
      ensures MovesIff(facts, IntervalsLive(old(run), old(timers), id))
      ensures sightings == old(sightings)
      ensures steps > old(steps) ==> run.durations == [] && forall timer :: !LiveIn(timers, timer)
    {
      var node := plan.nodes[id];
      var target := (if holds then node.thenNode else node.elseNode).OrElse(node.join);
      var next := run.Checkpoint().Goes(target).Forgets(id);
      var change := TimerChange(None, GrowingTimers(run.durations, id), None);
      var done := LeaveCondition(facts, id, next, change);
      return if done then Advanced else Refused;
    }

    method StartWait(facts: Facts, id: NodeId) returns (progress: Progress)
      requires At(id) && plan.nodes[id].WaitNode? && run.lifecycle.Active?
      modifies this`run, this`timers, this`traces, this`sightings
      ensures Valid() && sightings == old(sightings)
      ensures var timer := TimerId(id, WaitTimeout, facts.now + plan.nodes[id].timeoutMs);
              facts.commits && Permitted(old(timers), TimerChange(Some(timer), {}, None)) ==>
                run.lifecycle.Sleeping? && LiveIn(timers, timer)
    {
      var timer := TimerId(id, WaitTimeout, facts.now + plan.nodes[id].timeoutMs);
      var next := run.Checkpoint().(lifecycle := Sleeping);
      AwakeOwnsNoTimer(plan.nodes, run, timers);
      if Permitted(timers, TimerChange(Some(timer), {}, None)) {
        CreatedTimerFits(plan.nodes, next, timers, timer);
      }
      var done := CommitUnseeing(next, TimerChange(Some(timer), {}, None), facts.commits);
      return if done then Asleep else Refused;
    }

    /** A wait ends when its condition holds, or else once its timeout is ready. */
    method StepWait(facts: Facts, id: NodeId) returns (progress: Progress)
      requires At(id) && plan.nodes[id].WaitNode?
      modifies this
      ensures Valid() && Refines() && requested == old(requested)
      ensures MovesIff(facts, NodeMoves(registry, id, plan.nodes[id], old(run), old(timers), facts))
      ensures steps > old(steps) ==> run.durations == [] && forall timer :: !LiveIn(timers, timer)
      ensures config != old(config) ==>
                var holds := EvaluateCondition(registry, plan.nodes[id].condition, old(run).variables,
                                               ReadingOf(facts, old(run)));
                holds == Ok(true) || (holds == Ok(false) && TimeoutFired(old(timers), timers, id))
      ensures var evaluated := Evaluates(registry, plan.nodes[id].condition, id, old(run), old(timers), facts);
              Watches(facts, id, evaluated.Request(),
                      && old(run).lifecycle.Sleeping?
                      && KeepsSighting(plan.nodes[id], id, old(run), old(timers), evaluated, facts))
    {
      if run.lifecycle.Active? {
        progress := StartWait(facts, id);
        return;
      }
      var prepared := Prepare(facts, id);
      progress := if prepared.Deferred? then prepared.progress else Asleep;
      if prepared.Resolved? {
        progress := WaitOn(facts, id, prepared.holds, prepared.invalid);
      }
    }

    /** What follows from the condition of a wait: it ends, runs out of time, or goes on. */
    method WaitOn(facts: Facts, id: NodeId, holds: bool, invalid: set<DurationKey>) returns (progress: Progress)
      requires At(id) && plan.nodes[id].WaitNode? && run.lifecycle.Sleeping?
      requires Evaluates(registry, plan.nodes[id].condition, id, run, timers, facts)
               == Evaluated(Holds(holds), invalid)
      requires EvaluateCondition(registry, plan.nodes[id].condition, run.variables, ReadingOf(facts, run)) == Ok(holds)
      modifies this
      ensures Valid() && Refines() && requested == old(requested)
      ensures MovesIff(facts, IntervalsLive(old(run), old(timers), id)
                              && (holds || ReadyTimer(old(timers), id, WaitTimeout)))
      ensures steps > old(steps) ==> run.durations == [] && forall timer :: !LiveIn(timers, timer)
      ensures config != old(config) ==> holds || TimeoutFired(old(timers), timers, id)
      ensures Watches(facts, id, None, KeepsSighting(plan.nodes[id], id, old(run), old(timers),
                                                     Evaluated(Holds(holds), invalid), facts))
    {
      var timer :| timer in timers && timers[timer].Live() && timer.node == id && timer.kind == WaitTimeout;
      if holds {
        progress := Satisfy(facts, id, timer);
      } else if timers[timer].Ready? {
        progress := TimeOut(facts, id, timer);
      } else {
        progress := StayWaiting(facts, id, invalid);
      }
    }

    method Satisfy(facts: Facts, id: NodeId, timer: TimerId) returns (progress: Progress)
      requires At(id) && plan.nodes[id].WaitNode? && OneLive(timers, id, WaitTimeout)
      requires LiveIn(timers, timer) && timer.kind == WaitTimeout
      requires EvaluateCondition(registry, plan.nodes[id].condition, run.variables, ReadingOf(facts, run)) == Ok(true)
      modifies this
      ensures Valid() && Refines() && requested == old(requested)
      ensures MovesIff(facts, IntervalsLive(old(run), old(timers), id))
      ensures sightings == old(sightings)
      ensures steps > old(steps) ==> run.durations == [] && forall timer :: !LiveIn(timers, timer)
    {
      TheLiveTimer(timers, id, WaitTimeout, timer);
      var next := run.Checkpoint().Goes(plan.nodes[id].next).Forgets(id);
      var change := TimerChange(None, GrowingTimers(run.durations, id) + {timer}, None);
      var done := LeaveCondition(facts, id, next, change);
      return if done then Advanced else Refused;
    }

    method TimeOut(facts: Facts, id: NodeId, timer: TimerId) returns (progress: Progress)
      requires At(id) && plan.nodes[id].WaitNode? && OneLive(timers, id, WaitTimeout)
      requires timer in timers && timers[timer].Ready? && timer.kind == WaitTimeout && timer.node == id
      requires EvaluateCondition(registry, plan.nodes[id].condition, run.variables, ReadingOf(facts, run)) == Ok(false)
      modifies this
      ensures Valid() && Refines() && requested == old(requested)
      ensures MovesIff(facts, IntervalsLive(old(run), old(timers), id))
      ensures sightings == old(sightings)
      ensures steps > old(steps) ==> run.durations == [] && forall timer :: !LiveIn(timers, timer)
      ensures config != old(config) ==> TimeoutFired(old(timers), timers, id)
    {
      var node := plan.nodes[id];
      TheLiveTimer(timers, id, WaitTimeout, timer);
      var next := run.Checkpoint().Forgets(id).Fails(node.onTimeout, node.next);
      var change := TimerChange(None, GrowingTimers(run.durations, id), Some(timer));
      TimingOutIsStep(registry, plan.nodes, run, config, id, ReadingOf(facts, run));
      var done := LeaveCondition(facts, id, next, change);
      return if !done then Refused else if run.lifecycle.Abandoned? then Concluded else Advanced;
    }

    /** The condition does not hold and there is still time: only the intervals that failed are reset. */
    method StayWaiting(facts: Facts, id: NodeId, invalid: set<DurationKey>) returns (progress: Progress)
      requires At(id) && plan.nodes[id].WaitNode? && run.lifecycle.Sleeping?
      requires Evaluates(registry, plan.nodes[id].condition, id, run, timers, facts)
               == Evaluated(Holds(false), invalid)
      modifies this`run, this`timers, this`traces, this`sightings
      ensures Valid()
      ensures var reset := TimerChange(None, ResetTimers(old(run).durations, id, invalid), None);
              var kept := ResetNeeded(old(run), id, invalid) ==> facts.commits && Permitted(old(timers), reset);
              && (kept ==> run.durations == Keep(old(run).durations, invalid))
              && (!kept ==> run == old(run) && timers == old(timers))
              && Watches(facts, id, None, kept)
    {
      var reset, kept := ResetTimers(run.durations, id, invalid), Keep(run.durations, invalid);
      var next, change := run.Checkpoint().(durations := kept), TimerChange(None, reset, None);
      ghost var seen := Seen(id, run, timers, facts, None);
      SightingReports(registry, plan.nodes, seen);
      KeptIsUnbroken(registry, plan.nodes, sightings, seen, run.durations, invalid);
      StayingFits(registry, plan.nodes, run, timers, seen, id, invalid);
      if !ResetNeeded(run, id, invalid) {
        UnchangedIsApplied(timers);
        sightings := sightings + [seen];
        return Asleep;
      }
      var done := CommitInPlace(next, change, facts.commits, [seen]);
      return if done then Asleep else Refused;
    }

    // ----- commands ------------------------------------------------------------------------

    /** The attempt at the current command node and what it is about to command. */
    ghost predicate Attempting(id: NodeId, attempt: nat, indices: seq<nat>)
      reads this
    {
      && At(id) && plan.nodes[id].CommandNode?
      && attempt == AttemptNumber(run) == |rounds| && indices == Due(rounds, |plan.nodes[id].targets|)
      && (run.attempt.Some? ==> !run.attempt.value.phase.Backoff?)
      && RoundChain(rounds, |plan.nodes[id].targets|) && attempt <= plan.nodes[id].retry.maximumRetries
    }

    /** Requests one command per target; an error of the command service abandons the step. */
    method RequestAll(facts: Facts, id: NodeId, attempt: nat, indices: seq<nat>)
      returns (records: Option<seq<CommandRecord>>)
      requires Attempting(id, attempt, indices)
      modifies this`requested
      ensures Attempting(id, attempt, indices)
      ensures forall key :: key in old(requested) ==> key in requested && requested[key] == old(requested)[key]
      ensures var keys := KeysOf(id, attempt, indices);
              && (records.Some? <==> Known(facts, keys) && InBounds(indices, plan.nodes[id].targets))
              && (records.Some? ==>
                    records.value == RecordsOf(facts, keys) && forall k :: 0 <= k < |keys| ==> keys[k] in requested)
      ensures records.Some? ==>
                forall k :: 0 <= k < |indices| ==>
                  var target := plan.nodes[id].targets[indices[k]];
                  var request := requested[CommandKey(id, indices[k], attempt)];
                  && request.device == target.device && request.endpoint == target.endpoint
                  && request.payload == plan.nodes[id].payload && request.expected.None? && !request.dryRun
                  && request.deadline - createdAt == budget.maximumRunDurationMs
    {
      var made;
      var node := plan.nodes[id];
      records, made := Gather(facts, KeysOf(id, attempt, indices), indices, node.targets, node.payload, Deadline());
      RequestsAccounted(plan.nodes, config, id, indices, Deadline(), made);
      requested := requested + made;
    }

    method DispatchAttempt(facts: Facts, id: NodeId) returns (progress: Progress)
      requires At(id) && plan.nodes[id].CommandNode? && run.lifecycle.Active?
      modifies this
      ensures Valid() && Refines() && sightings == old(sightings)
      ensures MovesIff(facts, AttemptEnds(id, plan.nodes[id], old(run), old(timers), facts))
    {
      var attempt, indices := 0, Everyone(|plan.nodes[id].targets|);
      if run.attempt.Some? {
        attempt, indices := run.attempt.value.attempt, run.attempt.value.indices;
      }
      if indices == [] {
        return Refused;
      }
      AwakeOwnsNoTimer(plan.nodes, run, timers);
      var records := RequestAll(facts, id, attempt, indices);
      if records.None? {
        return Refused;
      }
      progress := CheckpointResult(facts, id, attempt, indices, records.value);
    }

    /** Commits what the commands of the attempt have come to. */
    method CheckpointResult(facts: Facts, id: NodeId, attempt: nat, indices: seq<nat>, records: seq<CommandRecord>)
      returns (progress: Progress)
      requires Attempting(id, attempt, indices) && |records| == |indices|
      requires forall timer :: !LiveIn(timers, timer)
      modifies this
      ensures Valid() && Refines() && requested == old(requested) && sightings == old(sightings)
      ensures MovesIff(facts, AllTerminal(records)
                              && RetryPossible(id, attempt, indices, records, plan.nodes[id].retry, old(timers)))
      ensures facts.commits && !AllTerminal(records) ==>
                run.attempt == Some(CommandAttempt(id, attempt, indices, KeysOf(id, attempt, indices), AwaitingOutcome))
    {
      var node := plan.nodes[id];
      if !AllConfirmed(records) && !AllTerminal(records) {
        var next := run.Checkpoint().(lifecycle := Sleeping,
                                      attempt := Some(CommandAttempt(id, attempt, indices, KeysOf(id, attempt, indices),
                                                                     AwaitingOutcome)));
        EndedTimersFit(plan.nodes, next, timers, UNCHANGED);
        var done := CommitUnseeing(next, UNCHANGED, facts.commits);
        return if done then Asleep else Refused;
      }
      var retry := PlanRetry(attempt, indices, records, node.retry);
      if !AllConfirmed(records) && retry.Some? {
        progress := BackOff(facts, id, attempt, indices, records, retry.value);
      } else {
        progress := Settle(facts, id, attempt, indices, records);
      }
    }

    method BackOff(facts: Facts, id: NodeId, attempt: nat, indices: seq<nat>, records: seq<CommandRecord>,
                   retry: RetryPlan) returns (progress: Progress)
      requires Attempting(id, attempt, indices) && |records| == |indices|
      requires forall timer :: !LiveIn(timers, timer)
      requires !AllConfirmed(records)
      requires RetryDecision(attempt, indices, records, plan.nodes[id].retry) == Some(retry)
      modifies this
      ensures Valid() && Refines() && requested == old(requested) && sightings == old(sightings)
      ensures MovesIff(facts, RetryPossible(id, attempt, indices, records, plan.nodes[id].retry, old(timers)))
      ensures steps > old(steps) ==>
                && run.attempt == Some(CommandAttempt(id, attempt, Unconfirmed(indices, records),
                                                      KeysOf(id, attempt, Unconfirmed(indices, records)),
                                                      Backoff(retry.readyAt)))
                && LiveIn(timers, TimerId(id, CommandRetry, retry.readyAt))
    {
      var node := plan.nodes[id];
      var timer := TimerId(id, CommandRetry, retry.readyAt);
      var next := run.Checkpoint().(lifecycle := Sleeping,
                                    attempt := Some(CommandAttempt(id, attempt, retry.indices,
                                                                   KeysOf(id, attempt, retry.indices),
                                                                   Backoff(retry.readyAt))));
      ghost var round := Round(indices, records);
      ghost var outcome := OutcomeOf(attempt, indices, records, node.retry);
      BackOffFits(plan.nodes, run, next, id, rounds, round);
      OutcomeRepeatsIffRetried(attempt, indices, records, node.retry);
      BackingOffIsStep(registry, plan.nodes, run, config, id, outcome, next);
      if Permitted(timers, TimerChange(Some(timer), {}, None)) {
        CreatedTimerFits(plan.nodes, next, timers, timer);
      }
      var done := CommitStep(next, TimerChange(Some(timer), {}, None), facts.commits, [OutcomeReading(outcome)],
                             rounds + [round], []);
      return if done then Asleep else Refused;
    }

    /** Leaves the command node: onward when everything is confirmed, by its failure policy otherwise. */
    method Settle(facts: Facts, id: NodeId, attempt: nat, indices: seq<nat>, records: seq<CommandRecord>)
      returns (progress: Progress)
      requires Attempting(id, attempt, indices) && |records| == |indices|
      requires forall timer :: !LiveIn(timers, timer)
      requires AllConfirmed(records) || RetryDecision(attempt, indices, records, plan.nodes[id].retry).None?
      modifies this
      ensures Valid() && Refines() && requested == old(requested) && sightings == old(sightings)
      ensures MovesIff(facts, true)
      ensures config != old(config) ==>
                && settled == old(settled)
                              + [Settled(id, old(rounds) + [Round(indices, records)], AllConfirmed(records))]
                && run == AfterCommand(old(run), plan.nodes[id], AllConfirmed(records))
    {
      var node := plan.nodes[id];
      var next := AfterCommand(run, node, AllConfirmed(records));
      ghost var round := Round(indices, records);
      ghost var outcome := OutcomeOf(attempt, indices, records, node.retry);
      SettledIsFit(plan.nodes, id, rounds, round);
      OutcomeRepeatsIffRetried(attempt, indices, records, node.retry);
      AfterCommandFits(plan.nodes, run, id, AllConfirmed(records));
      LeavingCommandIsStep(registry, plan.nodes, run, config, id, outcome);
      EndedTimersFit(plan.nodes, next, timers, UNCHANGED);
      var done := CommitStep(next, UNCHANGED, facts.commits, [OutcomeReading(outcome)], [],
                             [Settled(id, rounds + [round], AllConfirmed(records))]);
      return if !done then Refused else if run.lifecycle.Abandoned? then Concluded else Advanced;
    }

    /** A ready backoff timer starts the next attempt, on the targets that are still unconfirmed. */
    method ResumeBackoff(facts: Facts, id: NodeId) returns (progress: Progress)
      requires At(id) && run.attempt.Some? && run.attempt.value.phase.Backoff?
      modifies this`run, this`timers, this`traces, this`sightings
      ensures Valid() && sightings == old(sightings)
      ensures facts.commits && ReadyTimer(old(timers), id, CommandRetry) ==> run != old(run)
      ensures run != old(run) ==>
                var was := old(run).attempt.value;
                var timer := TimerId(id, CommandRetry, was.phase.readyAt);
                && timer in old(timers) && old(timers)[timer].Ready?
                && run.attempt == Some(CommandAttempt(id, was.attempt + 1, was.indices, [], Dispatching))
    {
      var attempt := run.attempt.value;
      var timer := TimerId(id, CommandRetry, attempt.phase.readyAt);
      if timer !in timers {
        return Refused;
      }
      if !timers[timer].Ready? {
        return Asleep;
      }
      var next := run.Checkpoint().(lifecycle := Active,
                                    attempt := Some(CommandAttempt(id, attempt.attempt + 1, attempt.indices, [],
                                                                   Dispatching)));
      forall other | LiveIn(timers, other)
        ensures other == timer
      {
        BackoffOwnsOneTimer(plan.nodes, run, timers, other);
      }
      EndedTimersFit(plan.nodes, next, timers, TimerChange(None, {}, Some(timer)));
      var done := CommitUnseeing(next, TimerChange(None, {}, Some(timer)), facts.commits);
      return if done then Advanced else Refused;
    }

    method StepCommand(facts: Facts, id: NodeId) returns (progress: Progress)
      requires At(id) && plan.nodes[id].CommandNode?
      modifies this
      ensures Valid() && Refines() && sightings == old(sightings)
      ensures MovesIff(facts, AttemptEnds(id, plan.nodes[id], old(run), old(timers), facts))
    {
      if run.attempt.None? || run.attempt.value.phase.Dispatching? {
        progress := DispatchAttempt(facts, id);
        return;
      }
      var attempt := run.attempt.value;
      if attempt.phase.Backoff? {
        progress := ResumeBackoff(facts, id);
        return;
      }
      if !Known(facts, attempt.commands) {
        return Refused;
      }
      var records := RecordsOf(facts, attempt.commands);
      if !AllTerminal(records) {
        return Asleep;
      }
      forall timer
        ensures !LiveIn(timers, timer)
      {
        if LiveIn(timers, timer) {
          BackoffOwnsOneTimer(plan.nodes, run, timers, timer);
        }
      }
      progress := CheckpointResult(facts, id, attempt.attempt, attempt.indices, records);
    }

    // ----- the whole step ---------------------------------------------------------------------

    /** The run is under way, and what its current node waits for is there. */
    ghost predicate Enabled(facts: Facts)
      reads this
    {
      && facts.active && traces < budget.maximumTraceSteps && facts.now - createdAt <= budget.maximumRunDurationMs
      && !run.lifecycle.Over() && !run.lifecycle.Unstarted? && run.node.Some? && run.node.value < |plan.nodes|
      && NodeMoves(registry, run.node.value, plan.nodes[run.node.value], run, timers, facts)
    }

    /**
     * At most one commit of an unfinished run whose version is active and
     * whose budget lasts. The machine moves exactly when it is enabled.
     */
    method Step(facts: Facts) returns (progress: Progress)
      requires Valid()
      modifies this
      ensures Valid() && Refines() && MovesIff(facts, old(Enabled(facts)))
      ensures || sightings == old(sightings)
              || (old(run).node.Some? && exists met :: Watches(facts, old(run).node.value, met, true))
      ensures old(run).lifecycle.Over() || !facts.active ==>
                progress == NoWork && run == old(run) && timers == old(timers)
    {
      if run.lifecycle.Over() || !facts.active {
        return NoWork;
      }
      if traces >= budget.maximumTraceSteps || facts.now - createdAt > budget.maximumRunDurationMs {
        return Refused;
      }
      if run.lifecycle.Unstarted? {
        AwakeOwnsNoTimer(plan.nodes, run, timers);
        EndedTimersFit(plan.nodes, run.Checkpoint().(lifecycle := Active), timers, UNCHANGED);
        var done := CommitUnseeing(run.Checkpoint().(lifecycle := Active), UNCHANGED, facts.commits);
        return if done then Advanced else Refused;
      }
      if run.node.None? || run.node.value >= |plan.nodes| {
        return Refused;
      }
      progress := StepNode(facts, run.node.value);
    }

    method StepNode(facts: Facts, id: NodeId) returns (progress: Progress)
      requires At(id)
      modifies this
      ensures Valid() && Refines()
      ensures MovesIff(facts, NodeMoves(registry, id, plan.nodes[id], old(run), old(timers), facts))
      ensures sightings == old(sightings) || exists met :: Watches(facts, id, met, true)
    {
      match plan.nodes[id]
      case Complete => progress := StepComplete(facts, id);
      case DelayNode(_, _) => progress := StepDelay(facts, id);
      case SetVariableNode(_, _, _) => progress := StepAssignment(facts, id);
      case BranchNode(_, _, _, _) => progress := StepBranch(facts, id);
      case JoinNode(_) => progress := StepJoin(facts, id);
      case CommandNode(_, _, _, _, _) => progress := StepCommand(facts, id);
      case WaitNode(_, _, _, _) => progress := StepWait(facts, id);
      case GroupNode(_, _, _) => progress := EnterGroup(facts, id);
    }

    /** The scheduler marks a due timer ready. */
    method MarkReady(id: TimerId, now: int)
      requires Valid() && id in timers
      modifies this`timers
      ensures Valid()
      ensures timers == if old(timers)[id].Pending? && id.readyAt <= now then old(timers)[id := Ready] else old(timers)
    {
      if timers[id].Pending? && id.readyAt <= now {
        ReadyTimersFit(plan.nodes, run, timers, id);
        timers := timers[id := Ready];
      }
    }

    /** Restart mode withdraws an unfinished run together with its live timers. */
    method Withdraw(commits: bool) returns (done: bool)
      requires Valid() && !run.lifecycle.Over()
      modifies this
      ensures Valid() && config == old(config) && readings == old(readings) && sightings == old(sightings)
      ensures done ==> run.lifecycle.Withdrawn? && forall id :: !LiveIn(timers, id)
    {
      var live := set id | id in timers && timers[id].Live();
      var change := TimerChange(None, live, None);
      var next := run.Checkpoint().(lifecycle := Withdrawn);
      done := Commit(next, change, commits);
      assert done ==> forall id :: !LiveIn(timers, id);
    }
  }

  lemma ReadyTimersFit(nodes: seq<Node>, run: Run, timers: Timers, id: TimerId)
    requires TimersFit(nodes, run, timers) && LiveIn(timers, id)
    ensures TimersFit(nodes, run, timers[id := Ready])
  {
    var after := timers[id := Ready];
    assert forall other :: LiveIn(after, other) <==> LiveIn(timers, other);
    forall node, kind | OneLive(timers, node, kind)
      ensures OneLive(after, node, kind)
    {
      var one :| LiveIn(timers, one) && one.node == node && one.kind == kind
        && forall other :: LiveIn(timers, other) && other.kind == kind ==> other == one;
      assert LiveIn(after, one);
    }
  }

  // ----- what a durable run means ---------------------------------------------------------------

  /**
   * However it was stepped, crashed and stepped again, a run of a compiled
   * plan makes fewer moves than its bound while it is under way, repeats
   * nothing, and ends as the interpretation of the authored tree on exactly
   * the readings it committed.
   */
  lemma DurableRunMeansTree(run: DurableRun, document: Document)
    requires run.Valid() && Compile(run.registry, document) == Ok(run.plan)
    ensures NothingTwice(run.config.state.log)
    ensures if run.config.status.Running? then run.steps < StepBound(document)
            else EndsAs(run.config, Reference(run.registry, document, run.readings))
  {
    var plan, bound := run.plan, StepBound(document);
    var start := Start(plan, run.readings);
    NothingRunsTwice(run.registry, document, run.readings, run.steps);
    if run.config.status.Running? {
      if run.steps >= bound {
        PlanRunsAsTree(run.registry, document, run.readings, run.steps);
      }
    } else {
      IterateAdds(run.registry, plan.nodes, start, run.steps, bound);
      StoppedStays(run.registry, plan.nodes, run.config, bound);
      PlanRunsAsTree(run.registry, document, run.readings, run.steps + bound);
    }
  }

  /** Where a durable run takes a stability condition to hold, it was stable over the committed steps of the run. */
  lemma StableOverTheRun(run: DurableRun, facts: Facts, key: DurationKey)
    requires run.Valid()
    requires EvaluateCondition(run.registry, StateDuration(key.0, key.1), run.run.variables,
                               ReadingOf(facts, run.run)) == Ok(true)
    ensures EvaluateCondition(run.registry, key.0, run.run.variables, ReadingOf(facts, run.run)) == Ok(true)
    ensures Stable(run.registry, run.plan.nodes, run.sightings, key)
  {
    HoldsOnlyMature(run.registry, key, run.run.variables, ReadingOf(facts, run.run));
    MatureKeyIsStable(run.registry, run.plan.nodes, run.sightings, run.run.durations, key);
  }
}
