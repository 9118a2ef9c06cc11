/**
 * Node-level semantics of a plan: the current node, a stack of group
 * continuations and the attempt counter of the current command. Every step is
 * one transition; the structured interpretation of the tree that was lowered
 * says where any number of steps leads.
 */
module PlanMachine {
  import opened Wrappers
  import opened Domain
  import opened Evaluator
  import opened Lowering
  import opened Structured

  datatype Fault = InvalidPlan | Evaluation(error: EvaluationError)

  /** `Waiting` means that the next step needs a reading that is not there yet. */
  datatype Status = Running | Waiting | Completed | RunFailed | Faulted(fault: Fault)

  /** Continuation of one group: branches not started yet, and whether the current one stopped. */
  datatype Frame = Frame(group: NodeId, kind: GroupKind, join: NodeId, remaining: seq<NodeId>, failed: bool)

  datatype Config = Config(status: Status, node: Option<NodeId>, frames: seq<Frame>, attempt: nat, state: RunState)
  {
    /** Leaves the current node, which had no attempt under way. */
    function MoveTo(next: Option<NodeId>, after: RunState): Config {
      Config(Running, next, frames, 0, after)
    }

    function Fail(after: RunState): Config {
      Config(RunFailed, None, frames, 0, after)
    }
  }

  function Top(frames: seq<Frame>): Frame
    requires frames != []
  {
    frames[|frames| - 1]
  }

  function Pop(frames: seq<Frame>): seq<Frame>
    requires frames != []
  {
    frames[..|frames| - 1]
  }

  function ApplyFailure(config: Config, policy: PlanPolicy, following: Option<NodeId>, after: RunState): Config {
    match policy
    case CarryOn => config.MoveTo(following, after)
    case FallBackTo(entry) => config.MoveTo(entry.OrElse(following), after)
    case StopTheBranch =>
      if config.frames == [] then config.Fail(after)
      else
        var top := Top(config.frames);
        Config(Running, Some(top.join), Pop(config.frames) + [top.(failed := true)], 0, after)
    case StopTheRun => config.Fail(after)
  }

  function EnterGroup(config: Config, id: NodeId, kind: GroupKind, branches: seq<NodeId>, join: Option<NodeId>)
    : Config
  {
    if branches == [] || join.None? then config.(status := Faulted(InvalidPlan))
    else
      Config(Running, Some(branches[0]), config.frames + [Frame(id, kind, join.value, branches[1..], false)], 0,
             config.state.Trace(GroupStarted(id, |branches|)))
  }

  /** A join closes or resumes the innermost group when it is that group's join. */
  function StepJoin(config: Config, id: NodeId, following: Option<NodeId>): Config {
    if config.frames == [] || Top(config.frames).join != id then config.(node := following)
    else
      var top := Top(config.frames);
      if top.kind.Race? && !top.failed then config.(node := following, frames := Pop(config.frames))
      else if top.remaining != [] then
        config.(node := Some(top.remaining[0]),
                frames := Pop(config.frames) + [top.(remaining := top.remaining[1..], failed := false)])
      else if top.kind.Race? then config.(status := RunFailed, node := None, frames := Pop(config.frames))
      else config.(node := following, frames := Pop(config.frames))
  }

  function StepCommand(config: Config, id: NodeId, node: Node): Config
    requires node.CommandNode?
  {
    if config.state.Starved() then config.(status := Waiting)
    else
      var outcome := config.state.Read().outcome;
      var after := config.state.Consume(Attempted(id, node.targets, node.payload, config.attempt, outcome));
      if outcome.state == CommandState.Confirmed then config.MoveTo(node.next, after)
      else if MayRetry(node.retry, config.attempt, outcome) then
        config.(attempt := config.attempt + 1, state := after)
      else ApplyFailure(config, node.onFailure, node.next, after)
  }

  function Step(registry: Registry, plan: seq<Node>, config: Config): Config {
    if !config.status.Running? then config
    else if config.node.None? || config.node.value >= |plan| then config.(status := Faulted(InvalidPlan))
    else
      var id, state := config.node.value, config.state;
      match plan[id]
      case Complete => Config(Completed, None, config.frames, 0, state.Trace(Finished(id)))
      case DelayNode(durationMs, next) => config.MoveTo(next, state.Trace(Delayed(id, durationMs)))
      case JoinNode(next) => StepJoin(config, id, next)
      case GroupNode(kind, branches, join) => EnterGroup(config, id, kind, branches, join)
      case CommandNode(_, _, _, _, _) => StepCommand(config, id, plan[id])
      case WaitNode(condition, _, onTimeout, next) =>
        if state.Starved() then config.(status := Waiting)
        else
          (match EvaluateCondition(registry, condition, state.variables, state.Read())
           case Err(error) => config.(status := Faulted(Evaluation(error)))
           case Ok(satisfied) =>
             var after := state.Consume(Waited(id, satisfied));
             if satisfied then config.MoveTo(next, after) else ApplyFailure(config, onTimeout, next, after))
      case BranchNode(condition, thenNode, elseNode, join) =>
        if state.Starved() then config.(status := Waiting)
        else
          (match EvaluateCondition(registry, condition, state.variables, state.Read())
           case Err(error) => config.(status := Faulted(Evaluation(error)))
           case Ok(selected) =>
             config.MoveTo((if selected then thenNode else elseNode).OrElse(join),
                           state.Consume(Branched(id, selected))))
      case SetVariableNode(name, expression, next) =>
        if state.Starved() then config.(status := Waiting)
        else
          (match EvaluateExpression(expression, state.variables, state.Read())
           case Err(error) => config.(status := Faulted(Evaluation(error)))
           case Ok(value) =>
             var after := state.Consume(Assigned(id, name, value));
             config.MoveTo(next, after.(variables := after.variables[name := value])))
  }

  function Iterate(registry: Registry, plan: seq<Node>, config: Config, steps: nat): Config
    decreases steps
  {
    if steps == 0 then config else Iterate(registry, plan, Step(registry, plan, config), steps - 1)
  }

  lemma {:induction false} IterateAdds(registry: Registry, plan: seq<Node>, config: Config, first: nat, second: nat)
    ensures Iterate(registry, plan, config, first + second)
            == Iterate(registry, plan, Iterate(registry, plan, config, first), second)
    decreases first
  {
    if first > 0 {
      IterateAdds(registry, plan, Step(registry, plan, config), first - 1, second);
    }
  }

  lemma {:induction false} StoppedStays(registry: Registry, plan: seq<Node>, config: Config, steps: nat)
    requires !config.status.Running?
    ensures Iterate(registry, plan, config, steps) == config
  {
    if steps > 0 {
      StoppedStays(registry, plan, config, steps - 1);
    }
  }

  // ----- what a lowered piece does ---------------------------------------------------

  /** Steps that a piece may take at most. */
  function Cost(actions: seq<Action>): nat
    decreases actions
  {
    if actions == [] then 0 else CostAction(actions[0]) + Cost(actions[1..])
  }

  function CostAction(action: Action): nat
    decreases action
  {
    match action
    case Command(_, _, retry, onFailure) => retry.maximumRetries + 1 + CostPolicy(onFailure)
    case Delay(_) => 1
    case Wait(_, _, onTimeout) => 1 + CostPolicy(onTimeout)
    case SetVariable(_, _) => 1
    case Sequence(actions) => Cost(actions)
    case If(_, thenActions, elseActions) => 2 + Cost(thenActions) + Cost(elseActions)
    case Group(_, branches, _) => 1 + CostBranches(branches)
  }

  function CostPolicy(policy: FailurePolicy): nat
    decreases policy
  {
    match policy
    case Fallback(actions) => Cost(actions)
    case _ => 0
  }

  function CostBranches(branches: seq<Branch>): nat
    decreases branches
  {
    if branches == [] then 0 else Cost(branches[0].actions) + 1 + CostBranches(branches[1..])
  }

  /** The machine at the start of a piece, inside the groups `frames`. */
  predicate Enters(config: Config, entry: Option<NodeId>, frames: seq<Frame>, state: RunState) {
    config == Config(Running, entry, frames, 0, state)
  }

  /** The machine after a piece that ended as `execution` says and leads to `next`. */
  predicate Leaves(config: Config, next: NodeId, frames: seq<Frame>, execution: Execution) {
    && config.state == execution.state
    && match execution.flow
       case Done => config == Config(Running, Some(next), frames, 0, execution.state)
       case BranchStopped =>
         if frames == [] then config.status == RunFailed && config.node.None?
         else
           var top := Top(frames);
           config == Config(Running, Some(top.join), Pop(frames) + [top.(failed := true)], 0, execution.state)
       case RunStopped => config.status == RunFailed && config.node.None?
       case Starving => config.status == Waiting
       case Broken(error) => config.status == Faulted(Evaluation(error))
  }

  /** Joins of the surrounding groups lie below the piece. */
  predicate FramesBelow(frames: seq<Frame>, base: nat) {
    forall i :: 0 <= i < |frames| ==> frames[i].join < base
  }

  /** A lowered list is its rest with the first action on top. */
  lemma ListSplits(context: Context, actions: seq<Action>, nodes: seq<Node>, next: NodeId, depth: nat)
    requires actions != [] && LowerList(context, actions, nodes, Some(next), depth).findings == 0
    ensures var rest := LowerList(context, actions[1..], nodes, Some(next), depth);
            var first := LowerAction(context, actions[0], rest.nodes, rest.entry, depth);
            && rest.findings == 0 && rest.entry.Some? && |rest.nodes| == |nodes| + Count(actions[1..])
            && first.findings == 0 && nodes <= rest.nodes <= first.nodes
            && LowerList(context, actions, nodes, Some(next), depth) == first
  {
    EachExtends(context, actions[1..], nodes, Some(next), depth);
    var rest := LowerEach(context, actions[1..], nodes, Some(next), depth);
    assert LowerList(context, actions[1..], nodes, Some(next), depth) == rest;
    ActionExtends(context, actions[0], rest.nodes, rest.entry, depth);
  }

  lemma ExecuteSplits(registry: Registry, actions: seq<Action>, base: nat, state: RunState)
    requires actions != []
    ensures var first := ExecuteAction(registry, actions[0], base + Count(actions[1..]), state);
            Execute(registry, actions, base, state)
            == if first.flow.Done? then Execute(registry, actions[1..], base, first.state) else first
  {
  }

  lemma {:induction false} ListRuns(context: Context, actions: seq<Action>, nodes: seq<Node>, next: NodeId,
                                    depth: nat, plan: seq<Node>, config: Config) returns (steps: nat)
    requires LowerList(context, actions, nodes, Some(next), depth).findings == 0
    requires LowerList(context, actions, nodes, Some(next), depth).nodes <= plan
    requires FramesBelow(config.frames, |nodes|)
    requires Enters(config, LowerList(context, actions, nodes, Some(next), depth).entry, config.frames, config.state)
    ensures steps <= Cost(actions)
    ensures Leaves(Iterate(context.registry, plan, config, steps), next, config.frames,
                   Execute(context.registry, actions, |nodes|, config.state))
    decreases actions, 1
  {
    if actions == [] {
      steps := 0;
    } else {
      ListSplits(context, actions, nodes, next, depth);
      var rest := LowerList(context, actions[1..], nodes, Some(next), depth);
      var first := ActionRuns(context, actions[0], rest.nodes, rest.entry.value, depth, plan, config);
      steps := RestRuns(context, actions, nodes, next, depth, plan, config, first);
    }
  }

  /** The rest of a list after its first action has taken `first` steps. */
  lemma {:induction false} RestRuns(context: Context, actions: seq<Action>, nodes: seq<Node>, next: NodeId, depth: nat,
                                    plan: seq<Node>, config: Config, first: nat) returns (steps: nat)
    requires actions != [] && LowerList(context, actions, nodes, Some(next), depth).findings == 0
    requires LowerList(context, actions, nodes, Some(next), depth).nodes <= plan
    requires FramesBelow(config.frames, |nodes|) && first <= CostAction(actions[0])
    requires var rest := LowerList(context, actions[1..], nodes, Some(next), depth);
             rest.entry.Some? && Leaves(Iterate(context.registry, plan, config, first), rest.entry.value, config.frames,
                                        ExecuteAction(context.registry, actions[0], |rest.nodes|, config.state))
    ensures steps <= Cost(actions)
    ensures Leaves(Iterate(context.registry, plan, config, steps), next, config.frames,
                   Execute(context.registry, actions, |nodes|, config.state))
    decreases actions, 0
  {
    ListSplits(context, actions, nodes, next, depth);
    ExecuteSplits(context.registry, actions, |nodes|, config.state);
    var rest := LowerList(context, actions[1..], nodes, Some(next), depth);
    var middle := Iterate(context.registry, plan, config, first);
    var whole := Execute(context.registry, actions, |nodes|, config.state);
    if ExecuteAction(context.registry, actions[0], |rest.nodes|, config.state).flow.Done? {
      var second := ListRuns(context, actions[1..], nodes, next, depth, plan, middle);
      IterateAdds(context.registry, plan, config, first, second);
      steps := first + second;
      assert Iterate(context.registry, plan, config, steps) == Iterate(context.registry, plan, middle, second);
      assert whole == Execute(context.registry, actions[1..], |nodes|, middle.state);
    } else {
      steps := first;
      LeavesAnywhere(middle, rest.entry.value, next, config.frames, whole);
    }
  }

  /** A piece that did not get done does not go on to what follows it. */
  lemma LeavesAnywhere(config: Config, next: NodeId, other: NodeId, frames: seq<Frame>, execution: Execution)
    requires Leaves(config, next, frames, execution) && !execution.flow.Done?
    ensures Leaves(config, other, frames, execution)
  {
  }

  lemma {:induction false} ActionRuns(context: Context, action: Action, nodes: seq<Node>, next: NodeId,
                                      depth: nat, plan: seq<Node>, config: Config) returns (steps: nat)
    requires LowerAction(context, action, nodes, Some(next), depth).findings == 0
    requires LowerAction(context, action, nodes, Some(next), depth).nodes <= plan
    requires FramesBelow(config.frames, |nodes|)
    requires Enters(config, LowerAction(context, action, nodes, Some(next), depth).entry, config.frames, config.state)
    ensures steps <= CostAction(action)
    ensures Leaves(Iterate(context.registry, plan, config, steps), next, config.frames,
                   ExecuteAction(context.registry, action, |nodes|, config.state))
    decreases action, 1
  {
    match action
    case Command(_, _, _, _) => steps := CommandRuns(context, action, nodes, next, depth, plan, config);
    case Wait(_, _, _) => steps := WaitRuns(context, action, nodes, next, depth, plan, config);
    case Sequence(actions) => steps := ListRuns(context, actions, nodes, next, depth + 1, plan, config);
    case If(_, _, _) => steps := IfRuns(context, action, nodes, next, depth, plan, config);
    case Group(_, _, _) => steps := GroupRuns(context, action, nodes, next, depth, plan, config);
    case Delay(_) =>
      steps := 1;
      assert plan[|nodes|] == LowerAction(context, action, nodes, Some(next), depth).nodes[|nodes|];
    case SetVariable(_, _) =>
      steps := 1;
      assert plan[|nodes|] == LowerAction(context, action, nodes, Some(next), depth).nodes[|nodes|];
  }

  /** `reached` is where the remaining attempts of a command node lead from `config`. */
  predicate EndsAttempts(node: Node, id: NodeId, config: Config, reached: Config)
    requires node.CommandNode?
  {
    var (ended, after) := Attempts(node.targets, node.payload, node.retry, id, config.attempt, config.state);
    AttemptsEndInAttempt(node.targets, node.payload, node.retry, id, config.attempt, config.state);
    if !ended then reached.status == Waiting && reached.state == after
    else if LastOutcome(after.log).state == CommandState.Confirmed then reached == config.MoveTo(node.next, after)
    else reached == ApplyFailure(config, node.onFailure, node.next, after)
  }

  /** Repeated attempts end as the structured attempts do. */
  lemma {:induction false} AttemptsRun(registry: Registry, plan: seq<Node>, id: NodeId, config: Config)
    returns (steps: nat)
    requires id < |plan| && plan[id].CommandNode? && config.status.Running? && config.node == Some(id)
    ensures config.attempt <= plan[id].retry.maximumRetries ==>
              steps <= plan[id].retry.maximumRetries - config.attempt + 1
    ensures EndsAttempts(plan[id], id, config, Iterate(registry, plan, config, steps))
    decreases if config.attempt < plan[id].retry.maximumRetries
              then plan[id].retry.maximumRetries - config.attempt else 0
  {
    var node := plan[id];
    var after := Step(registry, plan, config);
    if !config.state.Starved() && config.state.Read().outcome.state != CommandState.Confirmed
       && MayRetry(node.retry, config.attempt, config.state.Read().outcome) {
      var rest := AttemptsRun(registry, plan, id, after);
      steps := 1 + rest;
    } else {
      steps := 1;
    }
  }

  lemma {:induction false} PolicyRuns(context: Context, policy: FailurePolicy, nodes: seq<Node>, next: NodeId,
                                      depth: nat, plan: seq<Node>, config: Config, after: RunState)
    returns (steps: nat)
    requires LowerPolicy(context, policy, nodes, Some(next), depth).findings == 0
    requires LowerPolicy(context, policy, nodes, Some(next), depth).nodes <= plan
    requires FramesBelow(config.frames, |nodes|)
    ensures steps <= CostPolicy(policy)
    ensures var lowered := LowerPolicy(context, policy, nodes, Some(next), depth);
            Leaves(Iterate(context.registry, plan, ApplyFailure(config, lowered.policy, Some(next), after), steps),
                   next, config.frames, ExecutePolicy(context.registry, policy, |nodes|, after))
    decreases policy, 0
  {
    if policy.Fallback? {
      ListExtends(context, policy.actions, nodes, Some(next), depth);
      var entry := LowerList(context, policy.actions, nodes, Some(next), depth).entry;
      steps := ListRuns(context, policy.actions, nodes, next, depth, plan, config.MoveTo(entry, after));
    } else {
      steps := 0;
    }
  }

  lemma {:induction false} CommandRuns(context: Context, action: Action, nodes: seq<Node>, next: NodeId,
                                       depth: nat, plan: seq<Node>, config: Config) returns (steps: nat)
    requires action.Command?
    requires LowerAction(context, action, nodes, Some(next), depth).findings == 0
    requires LowerAction(context, action, nodes, Some(next), depth).nodes <= plan
    requires FramesBelow(config.frames, |nodes|)
    requires Enters(config, LowerAction(context, action, nodes, Some(next), depth).entry, config.frames, config.state)
    ensures steps <= CostAction(action)
    ensures Leaves(Iterate(context.registry, plan, config, steps), next, config.frames,
                   ExecuteAction(context.registry, action, |nodes|, config.state))
    decreases action, 0
  {
    ActionExtends(context, action, nodes, Some(next), depth);
    var lowered := LowerAction(context, action, nodes, Some(next), depth);
    var failure := LowerPolicy(context, action.onFailure, nodes, Some(next), depth + 1);
    var id := lowered.entry.value;
    var targets := Resolve(context.registry, action.target);
    assert plan[id] == lowered.nodes[id]
           == CommandNode(targets, action.payload, action.retry, failure.policy, Some(next));
    steps := AttemptsRun(context.registry, plan, id, config);
    var (ended, after) := Attempts(targets, action.payload, action.retry, id, 0, config.state);
    AttemptsEndInAttempt(targets, action.payload, action.retry, id, 0, config.state);
    if ended && LastOutcome(after.log).state != CommandState.Confirmed {
      var rest := PolicyRuns(context, action.onFailure, nodes, next, depth + 1, plan, config, after);
      IterateAdds(context.registry, plan, config, steps, rest);
      steps := steps + rest;
    }
  }

  lemma {:induction false} WaitRuns(context: Context, action: Action, nodes: seq<Node>, next: NodeId,
                                    depth: nat, plan: seq<Node>, config: Config) returns (steps: nat)
    requires action.Wait?
    requires LowerAction(context, action, nodes, Some(next), depth).findings == 0
    requires LowerAction(context, action, nodes, Some(next), depth).nodes <= plan
    requires FramesBelow(config.frames, |nodes|)
    requires Enters(config, LowerAction(context, action, nodes, Some(next), depth).entry, config.frames, config.state)
    ensures steps <= CostAction(action)
    ensures Leaves(Iterate(context.registry, plan, config, steps), next, config.frames,
                   ExecuteAction(context.registry, action, |nodes|, config.state))
    decreases action, 0
  {
    ActionExtends(context, action, nodes, Some(next), depth);
    var lowered := LowerAction(context, action, nodes, Some(next), depth);
    var id := lowered.entry.value;
    assert plan[id] == lowered.nodes[id];
    steps := 1;
    if !config.state.Starved() && Decide(context.registry, action.condition, config.state) == Ok(false) {
      var after := config.state.Consume(Waited(id, false));
      var rest := PolicyRuns(context, action.onTimeout, nodes, next, depth + 1, plan, config, after);
      IterateAdds(context.registry, plan, config, 1, rest);
      steps := 1 + rest;
    }
  }

  /** What lies where in a plan that contains a lowered conditional. */
  lemma IfSplits(context: Context, action: Action, nodes: seq<Node>, next: NodeId, depth: nat, plan: seq<Node>)
    requires action.If?
    requires LowerAction(context, action, nodes, Some(next), depth).findings == 0
    requires LowerAction(context, action, nodes, Some(next), depth).nodes <= plan
    ensures var join, withJoin := |nodes|, nodes + [JoinNode(Some(next))];
            var thenPart := LowerList(context, action.thenActions, withJoin, Some(join), depth + 1);
            var elsePart := LowerList(context, action.elseActions, thenPart.nodes, Some(join), depth + 1);
            var entry := LowerAction(context, action, nodes, Some(next), depth).entry;
            && thenPart.findings == 0 && elsePart.findings == 0 && thenPart.nodes <= elsePart.nodes <= plan
            && |thenPart.nodes| == join + 1 + Count(action.thenActions)
            && |elsePart.nodes| == |nodes| + CountAction(action) - 1
            && thenPart.entry.Some? && elsePart.entry.Some?
            && join < |plan| && plan[join] == JoinNode(Some(next))
            && entry == Some(|elsePart.nodes|) && |elsePart.nodes| < |plan|
            && plan[|elsePart.nodes|]
               == BranchNode(ResolveCondition(context.registry, action.condition), thenPart.entry, elsePart.entry,
                             Some(join))
  {
    ActionExtends(context, action, nodes, Some(next), depth);
    var join, withJoin := |nodes|, nodes + [JoinNode(Some(next))];
    var lowered := LowerAction(context, action, nodes, Some(next), depth);
    var thenPart := LowerList(context, action.thenActions, withJoin, Some(join), depth + 1);
    ListExtends(context, action.thenActions, withJoin, Some(join), depth + 1);
    ListExtends(context, action.elseActions, thenPart.nodes, Some(join), depth + 1);
    var id := lowered.entry.value;
    assert plan[id] == lowered.nodes[id] && plan[join] == withJoin[join];
  }

  lemma {:induction false} IfRuns(context: Context, action: Action, nodes: seq<Node>, next: NodeId,
                                  depth: nat, plan: seq<Node>, config: Config) returns (steps: nat)
    requires action.If?
    requires LowerAction(context, action, nodes, Some(next), depth).findings == 0
    requires LowerAction(context, action, nodes, Some(next), depth).nodes <= plan
    requires FramesBelow(config.frames, |nodes|)
    requires Enters(config, LowerAction(context, action, nodes, Some(next), depth).entry, config.frames, config.state)
    ensures steps <= CostAction(action)
    ensures Leaves(Iterate(context.registry, plan, config, steps), next, config.frames,
                   ExecuteAction(context.registry, action, |nodes|, config.state))
    decreases action, 0
  {
    IfSplits(context, action, nodes, next, depth, plan);
    var registry, join, withJoin := context.registry, |nodes|, nodes + [JoinNode(Some(next))];
    var thenPart := LowerList(context, action.thenActions, withJoin, Some(join), depth + 1);
    steps := 1;
    if !config.state.Starved() && Decide(registry, action.condition, config.state).Ok? {
      var chosen := Step(registry, plan, config);
      var rest: nat;
      if Decide(registry, action.condition, config.state).value {
        rest := SideRuns(context, action.thenActions, withJoin, join, next, depth + 1, plan, chosen);
      } else {
        rest := SideRuns(context, action.elseActions, thenPart.nodes, join, next, depth + 1, plan, chosen);
      }
      IterateAdds(registry, plan, config, 1, rest);
      steps := 1 + rest;
    }
  }

  /** One side of a conditional, together with the step at its join. */
  lemma {:induction false} SideRuns(context: Context, actions: seq<Action>, nodes: seq<Node>, join: NodeId,
                                    next: NodeId, depth: nat, plan: seq<Node>, config: Config) returns (steps: nat)
    requires LowerList(context, actions, nodes, Some(join), depth).findings == 0
    requires LowerList(context, actions, nodes, Some(join), depth).nodes <= plan
    requires join < |nodes| && join < |plan| && plan[join] == JoinNode(Some(next)) && FramesBelow(config.frames, join)
    requires Enters(config, LowerList(context, actions, nodes, Some(join), depth).entry, config.frames, config.state)
    ensures steps <= Cost(actions) + 1
    ensures Leaves(Iterate(context.registry, plan, config, steps), next, config.frames,
                   Execute(context.registry, actions, |nodes|, config.state))
    decreases actions, 2
  {
    var first := ListRuns(context, actions, nodes, join, depth, plan, config);
    var last := PassesJoin(context.registry, plan, join, next, config.frames,
                           Execute(context.registry, actions, |nodes|, config.state),
                           Iterate(context.registry, plan, config, first));
    IterateAdds(context.registry, plan, config, first, last);
    steps := first + last;
  }

  /** The join of a conditional is passed without touching the surrounding groups. */
  lemma PassesJoin(registry: Registry, plan: seq<Node>, join: NodeId, next: NodeId, frames: seq<Frame>,
                   execution: Execution, config: Config) returns (steps: nat)
    requires join < |plan| && plan[join] == JoinNode(Some(next)) && FramesBelow(frames, join)
    requires Leaves(config, join, frames, execution)
    ensures steps <= 1
    ensures Leaves(Iterate(registry, plan, config, steps), next, frames, execution)
  {
    steps := if execution.flow.Done? then 1 else 0;
  }

  lemma {:induction false} GroupRuns(context: Context, action: Action, nodes: seq<Node>, next: NodeId,
                                     depth: nat, plan: seq<Node>, config: Config) returns (steps: nat)
    requires action.Group?
    requires LowerAction(context, action, nodes, Some(next), depth).findings == 0
    requires LowerAction(context, action, nodes, Some(next), depth).nodes <= plan
    requires FramesBelow(config.frames, |nodes|)
    requires Enters(config, LowerAction(context, action, nodes, Some(next), depth).entry, config.frames, config.state)
    ensures steps <= CostAction(action)
    ensures Leaves(Iterate(context.registry, plan, config, steps), next, config.frames,
                   ExecuteAction(context.registry, action, |nodes|, config.state))
    decreases action, 0
  {
    ActionExtends(context, action, nodes, Some(next), depth);
    var join, withJoin := |nodes|, nodes + [JoinNode(Some(next))];
    var lowered := LowerAction(context, action, nodes, Some(next), depth);
    BranchesExtend(context, action.branches, withJoin, join, depth + 1);
    var each := LowerBranches(context, action.branches, withJoin, join, depth + 1);
    var id := lowered.entry.value;
    assert plan[id] == lowered.nodes[id] && plan[join] == withJoin[join];
    var started := Step(context.registry, plan, config);
    assert Pop(started.frames) == config.frames;
    var rest := BranchesRun(context, action.branches, withJoin, join, next, depth + 1, plan, config.frames, started);
    steps := 1 + rest;
  }

  /** The machine at the start of the first of `branches`, the others still to come. */
  lemma {:induction false} BranchesRun(context: Context, branches: seq<Branch>, nodes: seq<Node>, join: NodeId,
                                       next: NodeId, depth: nat, plan: seq<Node>, frames: seq<Frame>, config: Config)
    returns (steps: nat)
    requires LowerBranches(context, branches, nodes, join, depth).findings == 0
    requires LowerBranches(context, branches, nodes, join, depth).nodes <= plan
    requires join < |nodes| <= |plan| && plan[join] == JoinNode(Some(next))
    requires FramesBelow(frames, join)
    requires branches != []
    requires |LowerBranches(context, branches, nodes, join, depth).entries| == |branches|
    requires var entries := LowerBranches(context, branches, nodes, join, depth).entries;
             && config.frames != [] && Pop(config.frames) == frames
             && Top(config.frames).join == join && !Top(config.frames).failed
             && Top(config.frames).remaining == entries[1..]
             && Enters(config, Some(entries[0]), config.frames, config.state)
    ensures steps <= CostBranches(branches)
    ensures Leaves(Iterate(context.registry, plan, config, steps), next, frames,
                   ExecuteBranches(context.registry, Top(config.frames).kind, branches, |nodes|, config.state))
    decreases branches, 0
  {
    var registry, kind := context.registry, Top(config.frames).kind;
    BranchesSplit(context, branches, nodes, join, depth);
    var first := LowerList(context, branches[0].actions, nodes, Some(join), depth);
    steps := BranchRuns(context, branches[0].actions, nodes, join, next, depth, plan, frames, config);
    var execution := Execute(registry, branches[0].actions, |nodes|, config.state);
    var resumed := Iterate(registry, plan, config, steps);
    if branches[1..] != [] && resumed.status.Running? && !(kind.Race? && execution.flow.Done?) {
      var more := BranchesRun(context, branches[1..], first.nodes, join, next, depth, plan, frames, resumed);
      IterateAdds(registry, plan, config, steps, more);
      steps := steps + more;
    }
  }

  lemma BranchesSplit(context: Context, branches: seq<Branch>, nodes: seq<Node>, join: NodeId, depth: nat)
    requires branches != []
    requires LowerBranches(context, branches, nodes, join, depth).findings == 0
    ensures var all := LowerBranches(context, branches, nodes, join, depth);
            var first := LowerList(context, branches[0].actions, nodes, Some(join), depth);
            var rest := LowerBranches(context, branches[1..], first.nodes, join, depth);
            && first.findings == 0 && rest.findings == 0
            && nodes <= first.nodes <= rest.nodes && rest.nodes == all.nodes
            && |first.nodes| == |nodes| + Count(branches[0].actions)
            && |rest.entries| == |branches| - 1
            && first.entry.Some? && all.entries == [first.entry.value] + rest.entries
  {
    ListExtends(context, branches[0].actions, nodes, Some(join), depth);
    var first := LowerList(context, branches[0].actions, nodes, Some(join), depth);
    BranchesExtend(context, branches[1..], first.nodes, join, depth);
  }

  /** One branch followed by the step at the group's join. */
  lemma {:induction false} BranchRuns(context: Context, actions: seq<Action>, nodes: seq<Node>, join: NodeId,
                                      next: NodeId, depth: nat, plan: seq<Node>, outer: seq<Frame>, config: Config)
    returns (steps: nat)
    requires LowerList(context, actions, nodes, Some(join), depth).findings == 0
    requires LowerList(context, actions, nodes, Some(join), depth).nodes <= plan
    requires join < |nodes| <= |plan| && plan[join] == JoinNode(Some(next)) && FramesBelow(outer, join)
    requires config.frames != [] && Pop(config.frames) == outer
    requires Top(config.frames).join == join && !Top(config.frames).failed
    requires Enters(config, LowerList(context, actions, nodes, Some(join), depth).entry, config.frames, config.state)
    ensures steps <= Cost(actions) + 1
    ensures var execution := Execute(context.registry, actions, |nodes|, config.state);
            var resumed := Iterate(context.registry, plan, config, steps);
            if execution.flow.Done? || execution.flow.BranchStopped? then
              Resumes(resumed, Top(config.frames), next, outer, execution)
            else Leaves(resumed, next, outer, execution)
    decreases actions, 2
  {
    forall i | 0 <= i < |config.frames|
      ensures config.frames[i].join < |nodes|
    {
      assert i == |config.frames| - 1 || config.frames[i] == outer[i];
    }
    steps := ListRuns(context, actions, nodes, join, depth, plan, config);
    var execution := Execute(context.registry, actions, |nodes|, config.state);
    if execution.flow.Done? || execution.flow.BranchStopped? {
      var arrived := Iterate(context.registry, plan, config, steps);
      JoinResumes(context.registry, plan, join, next, outer, config.frames, execution, arrived);
      assert Iterate(context.registry, plan, arrived, 1) == Step(context.registry, plan, arrived);
      IterateAdds(context.registry, plan, config, steps, 1);
      steps := steps + 1;
    }
  }

  /** Where a group stands after its join has been stepped. */
  predicate Resumes(resumed: Config, top: Frame, next: NodeId, outer: seq<Frame>, execution: Execution) {
    if top.kind.Race? && execution.flow.Done? then Enters(resumed, Some(next), outer, execution.state)
    else if top.remaining != [] then
      && resumed.frames != [] && Pop(resumed.frames) == outer
      && Top(resumed.frames) == top.(remaining := top.remaining[1..])
      && Enters(resumed, Some(top.remaining[0]), resumed.frames, execution.state)
    else if top.kind.Race? then resumed.status == RunFailed && resumed.node.None? && resumed.state == execution.state
    else Enters(resumed, Some(next), outer, execution.state)
  }

  /** What a group's join does after a branch that completed or stopped. */
  lemma JoinResumes(registry: Registry, plan: seq<Node>, join: NodeId, next: NodeId, outer: seq<Frame>,
                    frames: seq<Frame>, execution: Execution, config: Config)
    requires join < |plan| && plan[join] == JoinNode(Some(next))
    requires frames != [] && Pop(frames) == outer && Top(frames).join == join && !Top(frames).failed
    requires execution.flow.Done? || execution.flow.BranchStopped?
    requires Leaves(config, join, frames, execution)
    ensures Resumes(Step(registry, plan, config), Top(frames), next, outer, execution)
  {
    assert config.frames != [] && Pop(config.frames) == outer;
  }
}
