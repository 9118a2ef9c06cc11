/**
 * What every step of a compiled plan keeps: the current node exists, group
 * frames nest as intervals of node numbers around it, an attempt belongs to
 * the current command, and variables keep their declared types.
 */
module PlanInvariant {
  import opened Wrappers
  import opened Domain
  import opened Evaluator
  import opened Lowering
  import opened PlanShape
  import opened PlanMachine
  import opened Compiler
  import opened CompilerCorrectness

  ghost predicate WellFormed(context: Context, nodes: seq<Node>) {
    nodes != [] && nodes[0] == Complete && RegionFits(context, nodes, 1, |nodes|, 0)
  }

  /** The frame belongs to a group of the plan and to that group's join. */
  ghost predicate FrameFits(nodes: seq<Node>, frame: Frame) {
    && frame.join < frame.group < |nodes|
    && nodes[frame.group].GroupNode?
    && nodes[frame.group].join == Some(frame.join)
    && nodes[frame.group].kind == frame.kind
    && forall i :: 0 <= i < |frame.remaining| ==> frame.join <= frame.remaining[i] < frame.group
  }

  ghost predicate FramesNest(nodes: seq<Node>, frames: seq<Frame>) {
    && (forall i :: 0 <= i < |frames| ==> FrameFits(nodes, frames[i]))
    && forall i, j :: 0 <= i < j < |frames| ==>
         frames[i].join < frames[j].join && frames[j].group < frames[i].group
  }

  ghost predicate Invariant(nodes: seq<Node>, config: Config) {
    config.status.Running? ==>
      && config.node.Some? && config.node.value < |nodes|
      && FramesNest(nodes, config.frames)
      && (config.frames != [] ==> Top(config.frames).join <= config.node.value < Top(config.frames).group)
      && (config.attempt > 0 ==>
            nodes[config.node.value].CommandNode?
            && config.attempt <= nodes[config.node.value].retry.maximumRetries)
  }

  /** An edge from inside the innermost group stays inside it. */
  lemma EdgeStaysInside(context: Context, nodes: seq<Node>, frames: seq<Frame>, from: NodeId, to: NodeId)
    requires WellFormed(context, nodes) && FramesNest(nodes, frames)
    requires from < |nodes| && HasEdge(nodes[from], to)
    requires frames != [] ==> Top(frames).join < from < Top(frames).group
    ensures to < from
    ensures frames != [] ==> Top(frames).join <= to < Top(frames).group
  {
    assert NodeFits(context, nodes, from, 1, 0);
    if frames != [] {
      assert NodeFits(context, nodes, Top(frames).group, 1, 0);
    }
  }

  /** Only the join itself sits at the lower end of a frame, and a join of another kind is impossible there. */
  lemma AboveJoin(context: Context, nodes: seq<Node>, config: Config)
    requires WellFormed(context, nodes) && Invariant(nodes, config) && config.status.Running?
    requires config.frames != [] && !nodes[config.node.value].JoinNode?
    ensures Top(config.frames).join < config.node.value
  {
    assert NodeFits(context, nodes, Top(config.frames).group, 1, 0);
  }

  lemma MoveKeepsInvariant(context: Context, nodes: seq<Node>, config: Config, to: NodeId, after: RunState)
    requires WellFormed(context, nodes) && Invariant(nodes, config) && config.status.Running?
    requires HasEdge(nodes[config.node.value], to)
    requires config.frames != [] ==> Top(config.frames).join < config.node.value
    ensures Invariant(nodes, config.MoveTo(Some(to), after))
  {
    EdgeStaysInside(context, nodes, config.frames, config.node.value, to);
  }

  lemma FailureKeepsInvariant(context: Context, nodes: seq<Node>, config: Config, policy: PlanPolicy, next: NodeId,
                              after: RunState)
    requires WellFormed(context, nodes) && Invariant(nodes, config) && config.status.Running?
    requires HasEdge(nodes[config.node.value], next)
    requires policy.FallBackTo? ==> policy.entry.Some? && HasEdge(nodes[config.node.value], policy.entry.value)
    requires config.frames != [] ==> Top(config.frames).join < config.node.value
    ensures Invariant(nodes, ApplyFailure(config, policy, Some(next), after))
  {
    match policy
    case CarryOn => MoveKeepsInvariant(context, nodes, config, next, after);
    case FallBackTo(entry) => MoveKeepsInvariant(context, nodes, config, entry.value, after);
    case StopTheBranch =>
      if config.frames != [] {
        var stopped := Pop(config.frames) + [Top(config.frames).(failed := true)];
        assert forall i :: 0 <= i < |stopped| - 1 ==> stopped[i] == config.frames[i];
      }
    case StopTheRun =>
  }

  lemma EnterKeepsInvariant(context: Context, nodes: seq<Node>, config: Config)
    requires WellFormed(context, nodes) && Invariant(nodes, config) && config.status.Running?
    requires nodes[config.node.value].GroupNode?
    requires config.frames != [] ==> Top(config.frames).join < config.node.value
    ensures var node := nodes[config.node.value];
            Invariant(nodes, EnterGroup(config, config.node.value, node.kind, node.branches, node.join))
  {
    var id, node := config.node.value, nodes[config.node.value];
    assert NodeFits(context, nodes, id, 1, 0);
    var entered := EnterGroup(config, id, node.kind, node.branches, node.join);
    assert forall i :: 0 <= i < |config.frames| ==> entered.frames[i] == config.frames[i];
    if config.frames != [] {
      assert NodeFits(context, nodes, Top(config.frames).group, 1, 0);
      EdgeStaysInside(context, nodes, config.frames, id, node.join.value);
    }
  }

  lemma JoinKeepsInvariant(context: Context, nodes: seq<Node>, config: Config, next: NodeId)
    requires WellFormed(context, nodes) && Invariant(nodes, config) && config.status.Running?
    requires nodes[config.node.value] == JoinNode(Some(next))
    ensures Invariant(nodes, StepJoin(config, config.node.value, Some(next)))
  {
    var id, frames := config.node.value, config.frames;
    assert HasEdge(nodes[id], next);
    if frames == [] || Top(frames).join != id {
      EdgeStaysInside(context, nodes, frames, id, next);
    } else {
      LeavingKeepsInvariant(context, nodes, config, next);
      if Top(frames).remaining != [] {
        ResumingKeepsInvariant(nodes, config);
      }
    }
  }

  lemma LeavingKeepsInvariant(context: Context, nodes: seq<Node>, config: Config, next: NodeId)
    requires WellFormed(context, nodes) && Invariant(nodes, config) && config.status.Running?
    requires nodes[config.node.value] == JoinNode(Some(next))
    requires config.frames != [] && Top(config.frames).join == config.node.value
    ensures Invariant(nodes, config.(node := Some(next), frames := Pop(config.frames)))
  {
    var id, frames, top, outer := config.node.value, config.frames, Top(config.frames), Pop(config.frames);
    assert HasEdge(nodes[id], next);
    assert forall i :: 0 <= i < |outer| ==> outer[i] == frames[i];
    if outer != [] {
      assert Top(outer).join < top.join && top.group < Top(outer).group;
    }
    EdgeStaysInside(context, nodes, outer, id, next);
  }

  lemma ResumingKeepsInvariant(nodes: seq<Node>, config: Config)
    requires Invariant(nodes, config) && config.status.Running? && config.attempt == 0
    requires config.frames != [] && Top(config.frames).remaining != []
    ensures var top := Top(config.frames);
            Invariant(nodes, config.(node := Some(top.remaining[0]),
                                     frames := Pop(config.frames)
                                               + [top.(remaining := top.remaining[1..], failed := false)]))
  {
    var top := Top(config.frames);
    var resumed := Pop(config.frames) + [top.(remaining := top.remaining[1..], failed := false)];
    assert forall i :: 0 <= i < |resumed| - 1 ==> resumed[i] == config.frames[i];
    assert forall i :: 0 <= i < |top.remaining| - 1 ==> top.remaining[1..][i] == top.remaining[i + 1];
  }

  /** Every step keeps the invariant and never reports an invalid plan. */
  lemma StepKeepsInvariant(registry: Registry, context: Context, nodes: seq<Node>, config: Config)
    requires WellFormed(context, nodes) && Invariant(nodes, config)
    ensures Invariant(nodes, Step(registry, nodes, config))
    ensures config.status.Running? ==> Step(registry, nodes, config).status != Faulted(InvalidPlan)
  {
    if config.status.Running? && config.node.value > 0 {
      var id := config.node.value;
      assert NodeFits(context, nodes, id, 1, 0);
      if config.frames != [] && !nodes[id].JoinNode? {
        AboveJoin(context, nodes, config);
      }
      match nodes[id]
      case JoinNode(next) => JoinKeepsInvariant(context, nodes, config, next.value);
      case GroupNode(_, _, _) => EnterKeepsInvariant(context, nodes, config);
      case CommandNode(_, _, _, onFailure, next) => CommandKeepsInvariant(context, nodes, config);
      case DelayNode(durationMs, next) =>
        MoveKeepsInvariant(context, nodes, config, next.value, config.state.Trace(Delayed(id, durationMs)));
      case _ => DecisionKeepsInvariant(registry, context, nodes, config);
    }
  }

  lemma CommandKeepsInvariant(context: Context, nodes: seq<Node>, config: Config)
    requires WellFormed(context, nodes) && Invariant(nodes, config) && config.status.Running?
    requires nodes[config.node.value].CommandNode? && EdgesPresent(nodes[config.node.value])
    requires config.frames != [] ==> Top(config.frames).join < config.node.value
    ensures Invariant(nodes, StepCommand(config, config.node.value, nodes[config.node.value]))
    ensures StepCommand(config, config.node.value, nodes[config.node.value]).status != Faulted(InvalidPlan)
  {
    var id, node := config.node.value, nodes[config.node.value];
    if !config.state.Starved() {
      var after := config.state.Consume(Attempted(id, node.targets, node.payload, config.attempt,
                                                  config.state.Read().outcome));
      MoveKeepsInvariant(context, nodes, config, node.next.value, after);
      FailureKeepsInvariant(context, nodes, config, node.onFailure, node.next.value, after);
    }
  }

  lemma DecisionKeepsInvariant(registry: Registry, context: Context, nodes: seq<Node>, config: Config)
    requires WellFormed(context, nodes) && Invariant(nodes, config) && config.status.Running?
    requires var node := nodes[config.node.value]; node.WaitNode? || node.BranchNode? || node.SetVariableNode?
    requires EdgesPresent(nodes[config.node.value])
    requires config.frames != [] ==> Top(config.frames).join < config.node.value
    ensures Invariant(nodes, Step(registry, nodes, config))
    ensures Step(registry, nodes, config).status != Faulted(InvalidPlan)
  {
    var id, node, after := config.node.value, nodes[config.node.value], Step(registry, nodes, config);
    if !config.state.Starved() && after.status.Running? {
      match node
      case WaitNode(_, _, onTimeout, next) =>
        MoveKeepsInvariant(context, nodes, config, next.value, after.state);
        FailureKeepsInvariant(context, nodes, config, onTimeout, next.value, after.state);
      case BranchNode(_, thenNode, elseNode, _) =>
        MoveKeepsInvariant(context, nodes, config, thenNode.value, after.state);
        MoveKeepsInvariant(context, nodes, config, elseNode.value, after.state);
      case SetVariableNode(_, _, next) => MoveKeepsInvariant(context, nodes, config, next.value, after.state);
    }
  }

  /** The invariant holds at every moment of every run of a compiled plan. */
  lemma {:induction false} RunKeepsInvariant(registry: Registry, document: Document, inputs: seq<Reading>, steps: nat)
    requires Compile(registry, document).Ok?
    ensures var plan := Compile(registry, document).value;
            Invariant(plan.nodes, Iterate(registry, plan.nodes, Start(plan, inputs), steps))
    decreases steps
  {
    var plan := Compile(registry, document).value;
    CompiledPlanFits(registry, document);
    if steps > 0 {
      RunKeepsInvariant(registry, document, inputs, steps - 1);
      IterateAdds(registry, plan.nodes, Start(plan, inputs), steps - 1, 1);
      var before := Iterate(registry, plan.nodes, Start(plan, inputs), steps - 1);
      assert Iterate(registry, plan.nodes, before, 1) == Step(registry, plan.nodes, before);
      StepKeepsInvariant(registry, ContextOf(registry, document), plan.nodes, before);
    }
  }

  // ----- type soundness over whole runs -------------------------------------------------

  ghost predicate TypedInputs(registry: Registry, inputs: seq<Reading>) {
    forall i :: 0 <= i < |inputs| ==> TypedReading(registry, inputs[i])
  }

  /** Typed variables and readings; no fault but a missing value, and no missing variable when all are `initialized`. */
  ghost predicate TypedRun(context: Context, config: Config, initialized: bool) {
    && TypedVariables(context.definitions, config.state.variables)
    && TypedInputs(context.registry, config.state.inputs)
    && (initialized ==> context.definitions.Keys <= config.state.variables.Keys)
    && match config.status
       case Faulted(Evaluation(error)) => error == MissingObservation || (error == MissingVariable && !initialized)
       case _ => true
  }

  lemma StepKeepsTypes(context: Context, nodes: seq<Node>, config: Config, initialized: bool)
    requires WellFormed(context, nodes) && WellResolved(context.registry) && TypedRun(context, config, initialized)
    ensures TypedRun(context, Step(context.registry, nodes, config), initialized)
  {
    if config.status.Running? && config.node.Some? && 0 < config.node.value < |nodes| {
      assert NodeFits(context, nodes, config.node.value, 1, 0);
      if !config.state.Starved() {
        assert TypedReading(context.registry, config.state.Read());
      }
    }
  }

  lemma InitialVariablesTyped(document: Document)
    requires StructureFindings(document) == 0
    ensures TypedVariables(document.variables, InitialVariables(document.variables))
  {
    var variables := InitialVariables(document.variables);
    forall name | name in variables
      ensures TypedValue(variables[name], document.variables[name].valueType)
    {
      assert name !in MalformedInitials(document.variables) && name !in MistypedInitials(document.variables);
      if variables[name].Decimal? {
        CanonicalDecimalIsNumber(variables[name].digits);
      }
    }
  }

  /** Every declared variable has an initial value. */
  predicate Initialized(document: Document) {
    forall name :: name in document.variables ==> document.variables[name].initial.Some?
  }

  /**
   * Every variable keeps its declared type at every moment of every run, and
   * no evaluation fails with a type or time-window error. When all variables
   * have initial values, each has a value at every moment and no evaluation
   * fails with a missing variable.
   */
  lemma {:induction false} RunKeepsTypes(registry: Registry, document: Document, inputs: seq<Reading>, steps: nat)
    requires Compile(registry, document).Ok? && WellResolved(registry) && TypedInputs(registry, inputs)
    ensures var plan := Compile(registry, document).value;
            TypedRun(ContextOf(registry, document), Iterate(registry, plan.nodes, Start(plan, inputs), steps),
                     Initialized(document))
    decreases steps
  {
    var plan := Compile(registry, document).value;
    CompiledPlanFits(registry, document);
    if steps == 0 {
      InitialVariablesTyped(document);
    } else {
      RunKeepsTypes(registry, document, inputs, steps - 1);
      IterateAdds(registry, plan.nodes, Start(plan, inputs), steps - 1, 1);
      var before := Iterate(registry, plan.nodes, Start(plan, inputs), steps - 1);
      assert Iterate(registry, plan.nodes, before, 1) == Step(registry, plan.nodes, before);
      StepKeepsTypes(ContextOf(registry, document), plan.nodes, before, Initialized(document));
    }
  }
}
