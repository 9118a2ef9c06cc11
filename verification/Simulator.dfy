/**
 * The side-effect-free simulator: a recursive interpreter of plan nodes that
 * runs a group branch up to the group's join. Were the marker of that join
 * kept by branches that go on after a failure, the simulation would be the
 * run of the plan machine.
 */
module Simulator {
  import opened Wrappers
  import opened Domain
  import opened Evaluator
  import opened Lowering
  import opened PlanShape
  import opened Structured
  import opened PlanMachine
  import opened PlanInvariant

  /** The last three ends are the errors that abandon a simulation. */
  datatype SimFlow = Through | StoppedRun | StoppedBranch | Exhausted | Failing(error: EvaluationError) | MissingNode

  /** `echoed` tells that, with markers kept, a resumed branch got through to its join. */
  datatype Simulated = Simulated(flow: SimFlow, state: RunState, echoed: bool)
  {
    predicate Abandoned() {
      !flow.Through? && !flow.StoppedBranch?
    }

    /** What came after `before`. */
    function After(before: Simulated): Simulated {
      this.(echoed := echoed || before.echoed)
    }
  }

  function Ended(flow: SimFlow, state: RunState): Simulated {
    Simulated(flow, state, false)
  }

  /**
   * What becomes of the stop marker of a branch that goes on after a failure.
   * The simulator drops it; with the marker kept the simulation is the run of
   * the plan machine, to which the simulator is compared.
   */
  datatype Markers = Kept | Dropped

  predicate Below(target: Option<NodeId>, id: NodeId) {
    target.Some? ==> target.value < id
  }

  predicate PolicyBelow(policy: PlanPolicy, id: NodeId) {
    policy.FallBackTo? ==> Below(policy.entry, id)
  }

  predicate LeadsDown(node: Node, id: NodeId) {
    match node
    case Complete => true
    case CommandNode(_, _, _, onFailure, next) => Below(next, id) && PolicyBelow(onFailure, id)
    case DelayNode(_, next) => Below(next, id)
    case WaitNode(_, _, onTimeout, next) => Below(next, id) && PolicyBelow(onTimeout, id)
    case SetVariableNode(_, _, next) => Below(next, id)
    case BranchNode(_, thenNode, elseNode, join) => Below(thenNode, id) && Below(elseNode, id) && Below(join, id)
    case GroupNode(_, branches, join) => Below(join, id) && forall i :: 0 <= i < |branches| ==> branches[i] < id
    case JoinNode(next) => Below(next, id)
  }

  /** Every edge leads to an earlier node. */
  predicate Descending(nodes: seq<Node>) {
    forall id :: 0 <= id < |nodes| ==> LeadsDown(nodes[id], id)
  }

  /** Interprets from `id` until the plan completes, something stops, or `stop` comes next. */
  function SimFrom(registry: Registry, nodes: seq<Node>, markers: Markers, id: NodeId, stop: Option<NodeId>,
                   state: RunState)
    : (simulated: Simulated)
    requires Descending(nodes)
    ensures markers.Dropped? ==> !simulated.echoed
    decreases id, 2
  {
    if stop == Some(id) then Ended(Through, state)
    else if id >= |nodes| then Ended(MissingNode, state)
    else
      match nodes[id]
      case Complete => Ended(Through, state.Trace(Finished(id)))
      case DelayNode(durationMs, next) =>
        SimNext(registry, nodes, markers, id, next, stop, state.Trace(Delayed(id, durationMs)))
      case JoinNode(next) => SimNext(registry, nodes, markers, id, next, stop, state)
      case CommandNode(targets, payload, retry, onFailure, next) =>
        var (ended, after) := Attempts(targets, payload, retry, id, 0, state);
        AttemptsEndInAttempt(targets, payload, retry, id, 0, state);
        if !ended then Ended(Exhausted, after)
        else if LastOutcome(after.log).state == CommandState.Confirmed
        then SimNext(registry, nodes, markers, id, next, stop, after)
        else SimFailure(registry, nodes, markers, id, onFailure, next, stop, after)
      case WaitNode(condition, _, onTimeout, next) =>
        if state.Starved() then Ended(Exhausted, state)
        else
          (match EvaluateCondition(registry, condition, state.variables, state.Read())
           case Err(error) => Ended(Failing(error), state)
           case Ok(satisfied) =>
             var after := state.Consume(Waited(id, satisfied));
             if satisfied then SimNext(registry, nodes, markers, id, next, stop, after)
             else SimFailure(registry, nodes, markers, id, onTimeout, next, stop, after))
      case SetVariableNode(name, expression, next) =>
        if state.Starved() then Ended(Exhausted, state)
        else
          (match EvaluateExpression(expression, state.variables, state.Read())
           case Err(error) => Ended(Failing(error), state)
           case Ok(value) =>
             var after := state.Consume(Assigned(id, name, value));
             SimNext(registry, nodes, markers, id, next, stop, after.(variables := after.variables[name := value])))
      case BranchNode(condition, thenNode, elseNode, join) =>
        if state.Starved() then Ended(Exhausted, state)
        else
          (match EvaluateCondition(registry, condition, state.variables, state.Read())
           case Err(error) => Ended(Failing(error), state)
           case Ok(selected) =>
             SimNext(registry, nodes, markers, id, (if selected then thenNode else elseNode).OrElse(join), stop,
                     state.Consume(Branched(id, selected))))
      case GroupNode(kind, branches, join) =>
        var after := SimBranches(registry, nodes, markers, id, kind, branches, join,
                                 state.Trace(GroupStarted(id, |branches|)));
        if after.flow.Through? then SimNext(registry, nodes, markers, id, join, stop, after.state).After(after)
        else after
  }

  function SimNext(registry: Registry, nodes: seq<Node>, markers: Markers, from: NodeId, next: Option<NodeId>,
                   stop: Option<NodeId>, state: RunState): (simulated: Simulated)
    requires Descending(nodes) && from < |nodes|
    requires Below(next, from)
    ensures markers.Dropped? ==> !simulated.echoed
    decreases from, 0
  {
    if next.None? then Ended(Through, state) else SimFrom(registry, nodes, markers, next.value, stop, state)
  }

  /** Resuming after a failure forgets where the surrounding branch ends, unless markers are kept. */
  function SimFailure(registry: Registry, nodes: seq<Node>, markers: Markers, from: NodeId, policy: PlanPolicy,
                      next: Option<NodeId>, stop: Option<NodeId>, state: RunState): (simulated: Simulated)
    requires Descending(nodes) && from < |nodes|
    requires Below(next, from)
    requires PolicyBelow(policy, from)
    ensures markers.Dropped? ==> !simulated.echoed
    decreases from, 1
  {
    match policy
    case StopTheRun => Ended(StoppedRun, state)
    case StopTheBranch => Ended(StoppedBranch, state)
    case CarryOn => SimResumed(registry, nodes, markers, from, next, stop, state)
    case FallBackTo(entry) => SimResumed(registry, nodes, markers, from, entry.OrElse(next), stop, state)
  }

  function SimResumed(registry: Registry, nodes: seq<Node>, markers: Markers, from: NodeId, next: Option<NodeId>,
                      stop: Option<NodeId>, state: RunState): (simulated: Simulated)
    requires Descending(nodes) && from < |nodes|
    requires Below(next, from)
    ensures markers.Dropped? ==> !simulated.echoed
    decreases from, 1, 0
  {
    match markers
    case Dropped => SimNext(registry, nodes, Dropped, from, next, None, state)
    case Kept =>
      var resumed := SimNext(registry, nodes, Kept, from, next, stop, state);
      resumed.(echoed := resumed.echoed || (stop.Some? && resumed.flow.Through?))
  }

  function SimBranches(registry: Registry, nodes: seq<Node>, markers: Markers, from: NodeId, kind: GroupKind,
                       branches: seq<NodeId>, join: Option<NodeId>, state: RunState): (simulated: Simulated)
    requires Descending(nodes) && from < |nodes|
    requires forall i :: 0 <= i < |branches| ==> branches[i] < from
    ensures markers.Dropped? ==> !simulated.echoed
    ensures !simulated.flow.StoppedBranch?
    decreases from, 0, |branches|
  {
    if branches == [] then Ended(if kind.Race? then StoppedRun else Through, state)
    else
      var first := SimFrom(registry, nodes, markers, branches[0], join, state);
      if first.flow.Through? && kind.Race? then first
      else if first.flow.Through? || first.flow.StoppedBranch? then
        SimBranches(registry, nodes, markers, from, kind, branches[1..], join, first.state).After(first)
      else first
  }

  // ----- the interpreter object -----------------------------------------------------

  /** Interpreter state of one simulation: a virtual run that is updated in place. */
  class StepInterpreter {
    const registry: Registry
    const nodes: seq<Node>
    var state: RunState

    constructor (registry: Registry, plan: Plan, inputs: seq<Reading>)
      ensures this.registry == registry && nodes == plan.nodes
      ensures state == RunState(InitialVariables(plan.variables), inputs, [])
    {
      this.registry := registry;
      this.nodes := plan.nodes;
      this.state := RunState(InitialVariables(plan.variables), inputs, []);
    }

    /** Node after node, with a recursive call for each branch of a group. */
    method ExecuteFrom(start: NodeId, stop: Option<NodeId>) returns (flow: SimFlow)
      requires Descending(nodes)
      modifies this
      ensures Ended(flow, state) == SimFrom(registry, nodes, Dropped, start, stop, old(state))
      decreases start, 0, 2
    {
      ghost var begun := state;
      var current: Option<NodeId> := Some(start);
      while current.Some?
        invariant current.Some? ==> current.value <= start
        invariant SimFrom(registry, nodes, Dropped, start, stop, begun)
                  == if current.None? then Ended(Through, state)
                     else SimFrom(registry, nodes, Dropped, current.value, stop, state)
        decreases if current.Some? then current.value + 1 else 0
      {
        var id := current.value;
        if stop == current {
          return Through;
        }
        if id >= |nodes| {
          return MissingNode;
        }
        var node := nodes[id];
        assert LeadsDown(node, id);
        match node
        case Complete =>
          state := state.Trace(Finished(id));
          return Through;
        case DelayNode(durationMs, next) =>
          state := state.Trace(Delayed(id, durationMs));
          current := next;
        case JoinNode(next) =>
          current := next;
        case CommandNode(_, _, _, onFailure, next) =>
          var ended, confirmed := Command(id);
          if !ended {
            return Exhausted;
          }
          if !confirmed {
            flow := ApplyFailure(id, onFailure, next, stop);
            return;
          }
          current := next;
        case WaitNode(condition, _, onTimeout, next) =>
          if state.Starved() {
            return Exhausted;
          }
          var result := EvaluateCondition(registry, condition, state.variables, state.Read());
          if result.Err? {
            return Failing(result.error);
          }
          state := state.Consume(Waited(id, result.value));
          if !result.value {
            flow := ApplyFailure(id, onTimeout, next, stop);
            return;
          }
          current := next;
        case SetVariableNode(name, expression, next) =>
          if state.Starved() {
            return Exhausted;
          }
          var result := EvaluateExpression(expression, state.variables, state.Read());
          if result.Err? {
            return Failing(result.error);
          }
          state := state.Consume(Assigned(id, name, result.value));
          state := state.(variables := state.variables[name := result.value]);
          current := next;
        case BranchNode(condition, thenNode, elseNode, join) =>
          if state.Starved() {
            return Exhausted;
          }
          var result := EvaluateCondition(registry, condition, state.variables, state.Read());
          if result.Err? {
            return Failing(result.error);
          }
          state := state.Consume(Branched(id, result.value));
          current := (if result.value then thenNode else elseNode).OrElse(join);
        case GroupNode(kind, branches, join) =>
          state := state.Trace(GroupStarted(id, |branches|));
          flow := ExecuteBranches(id, kind, branches, join);
          if !flow.Through? {
            return;
          }
          current := join;
      }
      return Through;
    }

    /** Attempts of one command node. */
    method Command(id: NodeId) returns (ended: bool, confirmed: bool)
      requires id < |nodes| && nodes[id].CommandNode?
      modifies this
      ensures var node, before := nodes[id], old(state);
              && (ended, state) == Attempts(node.targets, node.payload, node.retry, id, 0, before)
              && (ended ==> state.log != [] && state.log[|state.log| - 1].Attempted?
                            && confirmed == (LastOutcome(state.log).state == CommandState.Confirmed))
    {
      var node := nodes[id];
      var attempt := 0;
      ghost var before := state;
      while true
        invariant attempt <= node.retry.maximumRetries
        invariant Attempts(node.targets, node.payload, node.retry, id, 0, before)
                  == Attempts(node.targets, node.payload, node.retry, id, attempt, state)
        decreases node.retry.maximumRetries - attempt
      {
        if state.Starved() {
          return false, false;
        }
        var outcome := state.Read().outcome;
        state := state.Consume(Attempted(id, node.targets, node.payload, attempt, outcome));
        if outcome.state == CommandState.Confirmed {
          return true, true;
        }
        if !MayRetry(node.retry, attempt, outcome) {
          return true, false;
        }
        attempt := attempt + 1;
      }
    }

    method ExecuteBranches(from: NodeId, kind: GroupKind, branches: seq<NodeId>, join: Option<NodeId>)
      returns (flow: SimFlow)
      requires Descending(nodes) && from < |nodes|
      requires forall i :: 0 <= i < |branches| ==> branches[i] < from
      modifies this
      ensures Ended(flow, state) == SimBranches(registry, nodes, Dropped, from, kind, branches, join, old(state))
      decreases from, 0, 0
    {
      ghost var begun := state;
      var i := 0;
      while i < |branches|
        invariant i <= |branches|
        invariant SimBranches(registry, nodes, Dropped, from, kind, branches, join, begun)
                  == SimBranches(registry, nodes, Dropped, from, kind, branches[i..], join, state)
      {
        flow := ExecuteFrom(branches[i], join);
        assert branches[i..][1..] == branches[i + 1..];
        if (flow.Through? && kind.Race?) || (!flow.Through? && !flow.StoppedBranch?) {
          return;
        }
        i := i + 1;
      }
      return if kind.Race? then StoppedRun else Through;
    }

    method ApplyFailure(from: NodeId, policy: PlanPolicy, next: Option<NodeId>, ghost stop: Option<NodeId>)
      returns (flow: SimFlow)
      requires Descending(nodes) && from < |nodes|
      requires Below(next, from)
      requires PolicyBelow(policy, from)
      modifies this
      ensures Ended(flow, state) == SimFailure(registry, nodes, Dropped, from, policy, next, stop, old(state))
      decreases from, 0, 1
    {
      match policy
      case StopTheRun => return StoppedRun;
      case StopTheBranch => return StoppedBranch;
      case CarryOn =>
        flow := Resume(from, next, stop);
      case FallBackTo(entry) =>
        flow := Resume(from, entry.OrElse(next), stop);
    }

    /** Goes on without marker; `stop` is where the branch would have ended. */
    method Resume(from: NodeId, next: Option<NodeId>, ghost stop: Option<NodeId>) returns (flow: SimFlow)
      requires Descending(nodes) && from < |nodes|
      requires Below(next, from)
      modifies this
      ensures Ended(flow, state) == SimResumed(registry, nodes, Dropped, from, next, stop, old(state))
      decreases from, 0, 0
    {
      if next.None? {
        return Through;
      }
      flow := ExecuteFrom(next.value, None);
    }
  }

  // ----- agreement with the plan machine -----------------------------------------------

  lemma EdgesLeadDown(node: Node, id: NodeId)
    requires forall target: NodeId :: HasEdge(node, target) ==> target < id
    ensures LeadsDown(node, id)
  {
    match node
    case CommandNode(_, _, _, onFailure, next) => PolicyEdgesBelow(node, onFailure, next, id);
    case WaitNode(_, _, onTimeout, next) => PolicyEdgesBelow(node, onTimeout, next, id);
    case BranchNode(_, thenNode, elseNode, join) =>
      assert thenNode.Some? ==> HasEdge(node, thenNode.value);
      assert elseNode.Some? ==> HasEdge(node, elseNode.value);
      assert join.Some? ==> HasEdge(node, join.value);
    case GroupNode(_, branches, join) =>
      assert join.Some? ==> HasEdge(node, join.value);
      assert forall i :: 0 <= i < |branches| ==> HasEdge(node, branches[i]);
    case Complete =>
    case DelayNode(_, next) => assert next.Some? ==> HasEdge(node, next.value);
    case SetVariableNode(_, _, next) => assert next.Some? ==> HasEdge(node, next.value);
    case JoinNode(next) => assert next.Some? ==> HasEdge(node, next.value);
  }

  lemma PolicyEdgesBelow(node: Node, policy: PlanPolicy, next: Option<NodeId>, id: NodeId)
    requires forall target: NodeId :: HasEdge(node, target) ==> target < id
    requires forall target: NodeId :: next == Some(target) || PolicyLeadsTo(policy, target) ==> HasEdge(node, target)
    ensures Below(next, id) && PolicyBelow(policy, id)
  {
    assert next.Some? ==> HasEdge(node, next.value);
    if policy.FallBackTo? && policy.entry.Some? {
      assert PolicyLeadsTo(policy, policy.entry.value);
    }
  }

  lemma WellFormedDescends(context: Context, nodes: seq<Node>)
    requires WellFormed(context, nodes)
    ensures Descending(nodes)
  {
    forall id | 0 <= id < |nodes|
      ensures LeadsDown(nodes[id], id)
    {
      if id > 0 {
        assert NodeFits(context, nodes, id, 1, 0);
        EdgesLeadDown(nodes[id], id);
      }
    }
  }

  /** The stop marker of a branch is the join of the innermost group. */
  function Marker(frames: seq<Frame>): Option<NodeId> {
    if frames == [] then None else Some(Top(frames).join)
  }

  /** The machine stands where the simulation of a branch, or of the run, ended. */
  predicate Arrives(config: Config, frames: seq<Frame>, simulated: Simulated) {
    && config.state == simulated.state
    && match simulated.flow
       case Through =>
         if frames == [] then config.status == Completed
         else config == Config(Running, Some(Top(frames).join), frames, 0, simulated.state)
       case StoppedBranch =>
         if frames == [] then config.status == RunFailed
         else
           var top := Top(frames);
           config == Config(Running, Some(top.join), Pop(frames) + [top.(failed := true)], 0, simulated.state)
       case StoppedRun => config.status == RunFailed
       case Exhausted => config.status == Waiting
       case Failing(error) => config.status == Faulted(Evaluation(error))
       case MissingNode => false
  }

  /** A run that moved down to `reached`, followed by the rest of it. */
  lemma {:induction false} RunsOn(registry: Registry, context: Context, nodes: seq<Node>, config: Config, first: nat,
                                  reached: Config) returns (steps: nat)
    requires WellFormed(context, nodes) && Descending(nodes)
    requires config.node.Some? && reached == Iterate(registry, nodes, config, first)
    requires Invariant(nodes, reached) && reached.status.Running? && reached.attempt == 0
    requires reached.frames == config.frames && reached.node.value < config.node.value
    ensures Arrives(Iterate(registry, nodes, config, steps), config.frames,
                    SimFrom(registry, nodes, Kept, reached.node.value, Marker(config.frames), reached.state))
    decreases config.node.value, 0
  {
    var rest := SimulationRuns(registry, context, nodes, reached);
    IterateAdds(registry, nodes, config, first, rest);
    steps := first + rest;
  }

  /** From any node the machine arrives where the simulation that keeps its markers does. */
  lemma {:induction false} SimulationRuns(registry: Registry, context: Context, nodes: seq<Node>, config: Config)
    returns (steps: nat)
    requires WellFormed(context, nodes) && Descending(nodes)
    requires Invariant(nodes, config) && config.status.Running? && config.attempt == 0
    ensures Arrives(Iterate(registry, nodes, config, steps), config.frames,
                    SimFrom(registry, nodes, Kept, config.node.value, Marker(config.frames), config.state))
    decreases config.node.value, 2
  {
    var id, frames := config.node.value, config.frames;
    if Marker(frames) == Some(id) {
      steps := 0;
    } else if id == 0 {
      InnerNodesArePositive(context, nodes, config);
      steps := 1;
      assert Iterate(registry, nodes, config, 1) == Step(registry, nodes, config);
    } else {
      assert NodeFits(context, nodes, id, 1, 0);
      assert LeadsDown(nodes[id], id);
      match nodes[id]
      case CommandNode(_, _, _, _, _) => steps := CommandSimulates(registry, context, nodes, config);
      case GroupNode(_, _, _) => steps := GroupSimulates(registry, context, nodes, config);
      case WaitNode(_, _, _, _) => steps := WaitSimulates(registry, context, nodes, config);
      case Complete => assert false;
      case _ => steps := SimpleNodeSimulates(registry, context, nodes, config);
    }
  }

  lemma {:induction false} SimpleNodeSimulates(registry: Registry, context: Context, nodes: seq<Node>, config: Config)
    returns (steps: nat)
    requires WellFormed(context, nodes) && Descending(nodes)
    requires Invariant(nodes, config) && config.status.Running? && config.attempt == 0
    requires var node := nodes[config.node.value];
             node.DelayNode? || node.JoinNode? || node.SetVariableNode? || node.BranchNode?
    requires Marker(config.frames) != config.node
    ensures Arrives(Iterate(registry, nodes, config, steps), config.frames,
                    SimFrom(registry, nodes, Kept, config.node.value, Marker(config.frames), config.state))
    decreases config.node.value, 1, 1
  {
    var id, after := config.node.value, Step(registry, nodes, config);
    assert id > 0 ==> NodeFits(context, nodes, id, 1, 0);
    assert LeadsDown(nodes[id], id);
    steps := 1;
    assert Iterate(registry, nodes, config, 1) == after;
    if after.status.Running? {
      StepKeepsInvariant(registry, context, nodes, config);
      steps := RunsOn(registry, context, nodes, config, 1, after);
    }
  }

  lemma InnerNodesArePositive(context: Context, nodes: seq<Node>, config: Config)
    requires WellFormed(context, nodes) && Invariant(nodes, config) && config.status.Running?
    ensures config.frames != [] ==> 0 < config.node.value
  {
    if config.frames != [] {
      assert NodeFits(context, nodes, Top(config.frames).group, 1, 0);
    }
  }

  /** A resumption that keeps its marker goes on as from any node. */
  lemma KeptResumes(registry: Registry, nodes: seq<Node>, from: NodeId, policy: PlanPolicy, next: NodeId,
                    stop: Option<NodeId>, state: RunState)
    requires Descending(nodes) && from < |nodes| && next < from && PolicyBelow(policy, from)
    requires policy.CarryOn? || policy.FallBackTo?
    ensures var resumed := if policy.CarryOn? then Some(next) else policy.entry.OrElse(Some(next));
            var simulated := SimFailure(registry, nodes, Kept, from, policy, Some(next), stop, state);
            && simulated.flow == SimFrom(registry, nodes, Kept, resumed.value, stop, state).flow
            && simulated.state == SimFrom(registry, nodes, Kept, resumed.value, stop, state).state
  {
    var resumed := if policy.CarryOn? then Some(next) else policy.entry.OrElse(Some(next));
    assert SimFailure(registry, nodes, Kept, from, policy, Some(next), stop, state)
           == SimResumed(registry, nodes, Kept, from, resumed, stop, state);
    assert SimNext(registry, nodes, Kept, from, resumed, stop, state)
           == SimFrom(registry, nodes, Kept, resumed.value, stop, state);
  }

  /** A failure handled by `policy` after `first` steps. */
  lemma {:induction false} FailureSimulates(registry: Registry, context: Context, nodes: seq<Node>, config: Config,
                                            policy: PlanPolicy, next: NodeId, first: nat, after: RunState)
    returns (steps: nat)
    requires WellFormed(context, nodes) && Descending(nodes)
    requires Invariant(nodes, config) && config.status.Running?
    requires HasEdge(nodes[config.node.value], next)
    requires policy.FallBackTo? ==> policy.entry.Some? && HasEdge(nodes[config.node.value], policy.entry.value)
    requires config.frames != [] ==> Top(config.frames).join < config.node.value
    requires next < config.node.value && PolicyBelow(policy, config.node.value)
    requires Iterate(registry, nodes, config, first) == ApplyFailure(config, policy, Some(next), after)
    ensures Arrives(Iterate(registry, nodes, config, steps), config.frames,
                    SimFailure(registry, nodes, Kept, config.node.value, policy, Some(next), Marker(config.frames),
                               after))
    decreases config.node.value, 1, 0
  {
    var reached := ApplyFailure(config, policy, Some(next), after);
    steps := first;
    if policy.CarryOn? || policy.FallBackTo? {
      FailureKeepsInvariant(context, nodes, config, policy, next, after);
      KeptResumes(registry, nodes, config.node.value, policy, next, Marker(config.frames), after);
      steps := RunsOn(registry, context, nodes, config, first, reached);
    }
  }

  lemma {:induction false} CommandSimulates(registry: Registry, context: Context, nodes: seq<Node>, config: Config)
    returns (steps: nat)
    requires WellFormed(context, nodes) && Descending(nodes)
    requires Invariant(nodes, config) && config.status.Running? && config.attempt == 0
    requires nodes[config.node.value].CommandNode? && Marker(config.frames) != config.node
    ensures Arrives(Iterate(registry, nodes, config, steps), config.frames,
                    SimFrom(registry, nodes, Kept, config.node.value, Marker(config.frames), config.state))
    decreases config.node.value, 1, 1
  {
    var id, node := config.node.value, nodes[config.node.value];
    assert NodeFits(context, nodes, id, 1, 0) && LeadsDown(node, id);
    steps := AttemptsRun(registry, nodes, id, config);
    var (ended, after) := Attempts(node.targets, node.payload, node.retry, id, 0, config.state);
    AttemptsEndInAttempt(node.targets, node.payload, node.retry, id, 0, config.state);
    if ended {
      if LastOutcome(after.log).state == CommandState.Confirmed {
        MoveKeepsInvariant(context, nodes, config, node.next.value, after);
        steps := RunsOn(registry, context, nodes, config, steps, config.MoveTo(node.next, after));
      } else {
        steps := FailureSimulates(registry, context, nodes, config, node.onFailure, node.next.value, steps, after);
      }
    }
  }

  lemma {:induction false} WaitSimulates(registry: Registry, context: Context, nodes: seq<Node>, config: Config)
    returns (steps: nat)
    requires WellFormed(context, nodes) && Descending(nodes)
    requires Invariant(nodes, config) && config.status.Running? && config.attempt == 0
    requires nodes[config.node.value].WaitNode? && Marker(config.frames) != config.node
    ensures Arrives(Iterate(registry, nodes, config, steps), config.frames,
                    SimFrom(registry, nodes, Kept, config.node.value, Marker(config.frames), config.state))
    decreases config.node.value, 1, 1
  {
    var id, node := config.node.value, nodes[config.node.value];
    assert NodeFits(context, nodes, id, 1, 0) && LeadsDown(node, id);
    var reached := Step(registry, nodes, config);
    assert Iterate(registry, nodes, config, 1) == reached;
    steps := 1;
    if !config.state.Starved() {
      var result := EvaluateCondition(registry, node.condition, config.state.variables, config.state.Read());
      if result == Ok(true) {
        StepKeepsInvariant(registry, context, nodes, config);
        steps := RunsOn(registry, context, nodes, config, 1, reached);
      } else if result == Ok(false) {
        var after := config.state.Consume(Waited(id, false));
        steps := FailureSimulates(registry, context, nodes, config, node.onTimeout, node.next.value, 1, after);
      }
    }
  }

  lemma {:induction false} GroupSimulates(registry: Registry, context: Context, nodes: seq<Node>, config: Config)
    returns (steps: nat)
    requires WellFormed(context, nodes) && Descending(nodes)
    requires Invariant(nodes, config) && config.status.Running? && config.attempt == 0
    requires nodes[config.node.value].GroupNode? && Marker(config.frames) != config.node
    ensures Arrives(Iterate(registry, nodes, config, steps), config.frames,
                    SimFrom(registry, nodes, Kept, config.node.value, Marker(config.frames), config.state))
    decreases config.node.value, 1, 1
  {
    GroupUnfolds(registry, nodes, config.node.value, Marker(config.frames), config.state);
    var simulated;
    steps, simulated := InsideGroup(registry, context, nodes, config);
    if simulated.flow.Through? {
      steps := AfterGroup(registry, context, nodes, config, steps, simulated.state);
    }
  }

  /** All branches of a group, up to what its join decides. */
  lemma {:induction false} InsideGroup(registry: Registry, context: Context, nodes: seq<Node>, config: Config)
    returns (steps: nat, simulated: Simulated)
    requires WellFormed(context, nodes) && Descending(nodes)
    requires Invariant(nodes, config) && config.status.Running? && config.attempt == 0
    requires nodes[config.node.value].GroupNode? && LeadsDown(nodes[config.node.value], config.node.value)
    ensures var id, node := config.node.value, nodes[config.node.value];
            && simulated == SimBranches(registry, nodes, Kept, id, node.kind, node.branches, node.join,
                                        config.state.Trace(GroupStarted(id, |node.branches|)))
            && node.join.Some?
            && GroupArrives(nodes, Iterate(registry, nodes, config, steps), node.join.value, config.frames, simulated)
    decreases config.node.value, 1, 0
  {
    var id, node := config.node.value, nodes[config.node.value];
    var entered := EntersGroup(registry, context, nodes, config);
    simulated := SimBranches(registry, nodes, Kept, id, node.kind, node.branches, node.join, entered.state);
    var inner := BranchesSimulate(registry, context, nodes, id, entered);
    IterateAdds(registry, nodes, config, 1, inner);
    steps := 1 + inner;
  }

  /** The step into a group, at its first branch. */
  lemma EntersGroup(registry: Registry, context: Context, nodes: seq<Node>, config: Config) returns (entered: Config)
    requires WellFormed(context, nodes) && Invariant(nodes, config) && config.status.Running?
    requires nodes[config.node.value].GroupNode?
    ensures entered == Iterate(registry, nodes, config, 1) && Invariant(nodes, entered)
    ensures entered.status.Running? && entered.attempt == 0
    ensures var node := nodes[config.node.value];
            && node.join.Some? && entered.frames != [] && Pop(entered.frames) == config.frames
            && entered.state == config.state.Trace(GroupStarted(config.node.value, |node.branches|))
            && var top := Top(entered.frames);
               && top.group == config.node.value && !top.failed && top.kind == node.kind && Some(top.join) == node.join
               && [entered.node.value] + top.remaining == node.branches
  {
    var node := nodes[config.node.value];
    assert NodeFits(context, nodes, config.node.value, 1, 0);
    entered := Step(registry, nodes, config);
    assert Iterate(registry, nodes, config, 1) == entered;
    StepKeepsInvariant(registry, context, nodes, config);
    assert [node.branches[0]] + node.branches[1..] == node.branches;
  }

  lemma GroupUnfolds(registry: Registry, nodes: seq<Node>, id: NodeId, stop: Option<NodeId>, state: RunState)
    requires Descending(nodes) && id < |nodes| && nodes[id].GroupNode? && stop != Some(id)
    ensures var node := nodes[id];
            && LeadsDown(node, id)
            && var after := SimBranches(registry, nodes, Kept, id, node.kind, node.branches, node.join,
                                        state.Trace(GroupStarted(id, |node.branches|)));
               SimFrom(registry, nodes, Kept, id, stop, state)
               == if after.flow.Through? then
                    SimNext(registry, nodes, Kept, id, node.join, stop, after.state).After(after)
                  else after
  {
    assert LeadsDown(nodes[id], id);
  }

  /** A group that got through is left by its join, and the run goes on behind it. */
  lemma {:induction false} AfterGroup(registry: Registry, context: Context, nodes: seq<Node>, config: Config,
                                      first: nat, state: RunState) returns (steps: nat)
    requires WellFormed(context, nodes) && Descending(nodes)
    requires Invariant(nodes, config) && config.status.Running?
    requires nodes[config.node.value].GroupNode? && Marker(config.frames) != config.node
    requires var join := nodes[config.node.value].join;
             && join.Some? && join.value < |nodes| && nodes[join.value].JoinNode?
             && Iterate(registry, nodes, config, first)
                == Config(Running, nodes[join.value].next, config.frames, 0, state)
    ensures Below(nodes[config.node.value].join, config.node.value)
    ensures Arrives(Iterate(registry, nodes, config, steps), config.frames,
                    SimNext(registry, nodes, Kept, config.node.value, nodes[config.node.value].join,
                            Marker(config.frames), state))
    decreases config.node.value, 1, 0
  {
    var join, stop := nodes[config.node.value].join.value, Marker(config.frames);
    assert NodeFits(context, nodes, config.node.value, 1, 0) && LeadsDown(nodes[config.node.value], config.node.value);
    StopsAtOuterJoin(context, nodes, config, state);
    assert LeadsDown(nodes[join], join);
    assert SimFrom(registry, nodes, Kept, join, stop, state)
           == SimNext(registry, nodes, Kept, join, nodes[join].next, stop, state);
    steps := RunsOn(registry, context, nodes, config, first, Iterate(registry, nodes, config, first));
  }

  /** The join of a group inside another is not the join of the other, and leads on inside it. */
  lemma StopsAtOuterJoin(context: Context, nodes: seq<Node>, config: Config, after: RunState)
    requires WellFormed(context, nodes) && Invariant(nodes, config) && config.status.Running?
    requires nodes[config.node.value].GroupNode? && Marker(config.frames) != config.node
    ensures var join := nodes[config.node.value].join;
            && join.Some? && Marker(config.frames) != join
            && join.value < |nodes| && nodes[join.value].JoinNode?
            && Invariant(nodes, config.MoveTo(nodes[join.value].next, after))
  {
    assert NodeFits(context, nodes, config.node.value, 1, 0);
    var join := nodes[config.node.value].join.value;
    assert NodeFits(context, nodes, join, 1, 0);
    assert HasEdge(nodes[join], nodes[join].next.value) && HasEdge(nodes[config.node.value], join);
    if config.frames != [] {
      assert NodeFits(context, nodes, Top(config.frames).group, 1, 0);
    }
    EdgeStaysInside(context, nodes, config.frames, join, nodes[join].next.value);
  }

  /** Where the machine stands once a group has ended as the simulation of its branches did. */
  predicate GroupArrives(nodes: seq<Node>, config: Config, join: NodeId, outer: seq<Frame>, simulated: Simulated) {
    && config.state == simulated.state
    && match simulated.flow
       case Through =>
         && join < |nodes| && nodes[join].JoinNode?
         && config == Config(Running, nodes[join].next, outer, 0, simulated.state)
       case StoppedBranch => false
       case StoppedRun => config.status == RunFailed
       case Exhausted => config.status == Waiting
       case Failing(error) => config.status == Faulted(Evaluation(error))
       case MissingNode => false
  }

  /** The branch at which the machine stands and those still to come. */
  lemma {:induction false} BranchesSimulate(registry: Registry, context: Context, nodes: seq<Node>, group: NodeId,
                                            config: Config) returns (steps: nat)
    requires WellFormed(context, nodes) && Descending(nodes)
    requires Invariant(nodes, config) && config.status.Running? && config.attempt == 0
    requires config.frames != [] && Top(config.frames).group == group && !Top(config.frames).failed
    ensures var top := Top(config.frames);
            var branches := [config.node.value] + top.remaining;
            && group < |nodes| && (forall i :: 0 <= i < |branches| ==> branches[i] < group)
            && GroupArrives(nodes, Iterate(registry, nodes, config, steps), top.join, Pop(config.frames),
                            SimBranches(registry, nodes, Kept, group, top.kind, branches, Some(top.join), config.state))
    decreases group, 0, |Top(config.frames).remaining|
  {
    var top := Top(config.frames);
    var branches := [config.node.value] + top.remaining;
    assert NodeFits(context, nodes, group, 1, 0);
    var first := SimFrom(registry, nodes, Kept, branches[0], Some(top.join), config.state);
    assert branches[1..] == top.remaining;
    steps := BranchSimulates(registry, context, nodes, config);
    var resumed := Iterate(registry, nodes, config, steps);
    if !((first.flow.Through? || first.flow.StoppedBranch?) && GoesOn(top, first)) {
      GroupEnds(registry, nodes, group, config.frames, branches, config.state, resumed);
    } else {
      var more := BranchesSimulate(registry, context, nodes, group, resumed);
      assert [top.remaining[0]] + top.remaining[1..] == top.remaining;
      GroupGoesOn(registry, nodes, group, top, branches, config.state);
      IterateAdds(registry, nodes, config, steps, more);
      steps := steps + more;
    }
  }

  /** After a branch that does not end the group the others decide. */
  lemma GroupGoesOn(registry: Registry, nodes: seq<Node>, group: NodeId, top: Frame, branches: seq<NodeId>,
                    state: RunState)
    requires Descending(nodes) && group < |nodes| && branches != []
    requires forall i :: 0 <= i < |branches| ==> branches[i] < group
    requires branches[1..] == top.remaining
    requires var first := SimFrom(registry, nodes, Kept, branches[0], Some(top.join), state);
             (first.flow.Through? || first.flow.StoppedBranch?) && GoesOn(top, first)
    ensures forall i :: 0 <= i < |top.remaining| ==> top.remaining[i] < group
    ensures var first := SimFrom(registry, nodes, Kept, branches[0], Some(top.join), state);
            var all := SimBranches(registry, nodes, Kept, group, top.kind, branches, Some(top.join), state);
            var rest := SimBranches(registry, nodes, Kept, group, top.kind, top.remaining, Some(top.join), first.state);
            all.flow == rest.flow && all.state == rest.state
  {
    assert forall i :: 0 <= i < |top.remaining| ==> top.remaining[i] == branches[i + 1];
  }

  /** The group is over after this branch: it ended the run, won the race or was the last. */
  lemma GroupEnds(registry: Registry, nodes: seq<Node>, group: NodeId, frames: seq<Frame>, branches: seq<NodeId>,
                  state: RunState, resumed: Config)
    requires Descending(nodes) && group < |nodes| && branches != []
    requires forall i :: 0 <= i < |branches| ==> branches[i] < group
    requires frames != [] && Top(frames).join < |nodes| && nodes[Top(frames).join].JoinNode?
    requires branches[1..] == Top(frames).remaining
    requires var first := SimFrom(registry, nodes, Kept, branches[0], Some(Top(frames).join), state);
             if first.flow.Through? || first.flow.StoppedBranch? then
               !GoesOn(Top(frames), first) && ResumesAs(nodes, resumed, Top(frames), Pop(frames), first)
             else Arrives(resumed, frames, first)
    ensures GroupArrives(nodes, resumed, Top(frames).join, Pop(frames),
                         SimBranches(registry, nodes, Kept, group, Top(frames).kind, branches, Some(Top(frames).join),
                                     state))
  {
    var first := SimFrom(registry, nodes, Kept, branches[0], Some(Top(frames).join), state);
    assert branches[1..] == [] ==>
      SimBranches(registry, nodes, Kept, group, Top(frames).kind, branches[1..], Some(Top(frames).join), first.state)
      == Ended(if Top(frames).kind.Race? then StoppedRun else Through, first.state);
  }

  /** One branch and, unless it ended the run, the step at the group's join. */
  lemma {:induction false} BranchSimulates(registry: Registry, context: Context, nodes: seq<Node>, config: Config)
    returns (steps: nat)
    requires WellFormed(context, nodes) && Descending(nodes)
    requires Invariant(nodes, config) && config.status.Running? && config.attempt == 0
    requires config.frames != [] && !Top(config.frames).failed
    requires nodes[Top(config.frames).join].JoinNode?
    ensures var top, outer := Top(config.frames), Pop(config.frames);
            var first := SimFrom(registry, nodes, Kept, config.node.value, Some(top.join), config.state);
            var resumed := Iterate(registry, nodes, config, steps);
            if first.flow.Through? || first.flow.StoppedBranch? then
              ResumesAs(nodes, resumed, top, outer, first) && Invariant(nodes, resumed)
            else Arrives(resumed, config.frames, first)
    decreases config.node.value, 3
  {
    var first := SimFrom(registry, nodes, Kept, config.node.value, Some(Top(config.frames).join), config.state);
    steps := SimulationRuns(registry, context, nodes, config);
    if first.flow.Through? || first.flow.StoppedBranch? {
      var arrived := Iterate(registry, nodes, config, steps);
      assert Iterate(registry, nodes, arrived, 1) == Step(registry, nodes, arrived);
      IterateAdds(registry, nodes, config, steps, 1);
      JoinAfterBranch(registry, nodes, config.frames, arrived, first);
      ResumedKeepsInvariant(registry, context, nodes, config, arrived);
      steps := steps + 1;
    }
  }

  /** Where the step at a group's join leads after a branch. */
  predicate ResumesAs(nodes: seq<Node>, resumed: Config, top: Frame, outer: seq<Frame>, simulated: Simulated)
    requires top.join < |nodes| && nodes[top.join].JoinNode?
  {
    if GoesOn(top, simulated) then
      resumed == Config(Running, Some(top.remaining[0]), outer + [top.(remaining := top.remaining[1..])], 0,
                        simulated.state)
      && Pop(resumed.frames) == outer
    else if top.kind.Race? && simulated.flow.StoppedBranch? then
      resumed.status == RunFailed && resumed.state == simulated.state
    else resumed == Config(Running, nodes[top.join].next, outer, 0, simulated.state)
  }

  /** Another branch of the group follows. */
  predicate GoesOn(top: Frame, simulated: Simulated) {
    top.remaining != [] && !(top.kind.Race? && simulated.flow.Through?)
  }

  /** What the step at a group's join does after a branch. */
  lemma JoinAfterBranch(registry: Registry, nodes: seq<Node>, frames: seq<Frame>, arrived: Config, simulated: Simulated)
    requires frames != [] && Top(frames).join < |nodes| && nodes[Top(frames).join].JoinNode? && !Top(frames).failed
    requires simulated.flow.Through? || simulated.flow.StoppedBranch?
    requires Arrives(arrived, frames, simulated)
    ensures ResumesAs(nodes, Step(registry, nodes, arrived), Top(frames), Pop(frames), simulated)
  {
    assert Pop(arrived.frames) == Pop(frames);
  }

  /** After a branch the machine is back at the join, inside the same groups. */
  lemma ResumedKeepsInvariant(registry: Registry, context: Context, nodes: seq<Node>, config: Config, arrived: Config)
    requires WellFormed(context, nodes) && Invariant(nodes, config) && config.status.Running?
    requires config.frames != [] && arrived.status.Running? && arrived.attempt == 0
    requires arrived.node == Some(Top(config.frames).join)
    requires || arrived.frames == config.frames
             || arrived.frames == Pop(config.frames) + [Top(config.frames).(failed := true)]
    ensures Invariant(nodes, Step(registry, nodes, arrived))
  {
    assert forall i :: 0 <= i < |arrived.frames| - 1 ==> arrived.frames[i] == config.frames[i];
    StepKeepsInvariant(registry, context, nodes, arrived);
  }
}
