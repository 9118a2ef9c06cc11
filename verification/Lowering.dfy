/**
 * Lowering of a normalized action tree to plan nodes. A list is lowered from
 * its end, so every node is appended after the nodes it leads to.
 */
module Lowering {
  import opened Wrappers
  import opened Domain
  import opened Evaluator

  const MAX_RETRIES: nat := 16

  /** What stays fixed during one compilation. */
  datatype Context = Context(registry: Registry, definitions: map<string, VariableDefinition>, budget: Budget)

  /** Nodes so far, findings added by this piece, and where to enter it. */
  datatype Lowered = Lowered(nodes: seq<Node>, findings: nat, entry: Option<NodeId>)

  datatype LoweredPolicy = LoweredPolicy(nodes: seq<Node>, findings: nat, policy: PlanPolicy)

  datatype LoweredBranches = LoweredBranches(nodes: seq<Node>, findings: nat, entries: seq<NodeId>)

  function Pushed(nodes: seq<Node>, node: Node, findings: nat): Lowered {
    Lowered(nodes + [node], findings, Some(|nodes|))
  }

  function CommandFindings(context: Context, target: TargetReference, payload: Payload, retry: RetryPolicy): nat {
    Finding(payload.Schema() != target.capability)
    + Finding(!payload.InRange())
    + Finding(retry.maximumRetries > MAX_RETRIES)
    + Finding(retry.backoffMs > MAX_TIMER_MILLIS)
    + Finding(target !in context.registry.resolved)
    + Finding(target in context.registry.resolved && payload.GoTo? && target in context.registry.unsafePositions)
  }

  function WidthFindings(context: Context, branches: nat, maximumParallel: nat): nat {
    Finding(branches == 0)
    + Finding(|| branches > context.budget.maximumParallelWidth
              || maximumParallel == 0
              || maximumParallel > branches
              || maximumParallel > context.budget.maximumParallelWidth)
  }

  function LowerList(context: Context, actions: seq<Action>, nodes: seq<Node>, next: Option<NodeId>, depth: nat)
    : Lowered
    decreases actions, 1
  {
    if depth > context.budget.maximumNestingDepth then Lowered(nodes, 1, next)
    else LowerEach(context, actions, nodes, next, depth)
  }

  function LowerEach(context: Context, actions: seq<Action>, nodes: seq<Node>, next: Option<NodeId>, depth: nat)
    : Lowered
    decreases actions, 0
  {
    if actions == [] then Lowered(nodes, 0, next)
    else
      var rest := LowerEach(context, actions[1..], nodes, next, depth);
      var first := LowerAction(context, actions[0], rest.nodes, rest.entry, depth);
      Lowered(first.nodes, rest.findings + first.findings, first.entry)
  }

  function LowerAction(context: Context, action: Action, nodes: seq<Node>, next: Option<NodeId>, depth: nat)
    : Lowered
    decreases action
  {
    match action
    case Command(target, payload, retry, onFailure) =>
      var failure := LowerPolicy(context, onFailure, nodes, next, depth + 1);
      var findings := CommandFindings(context, target, payload, retry) + failure.findings;
      if target in context.registry.resolved then
        Pushed(failure.nodes,
               CommandNode(context.registry.resolved[target], payload, retry, failure.policy, next), findings)
      else Lowered(failure.nodes, findings, None)
    case Delay(durationMs) => Pushed(nodes, DelayNode(durationMs, next), Finding(!ValidTimer(durationMs)))
    case Wait(condition, timeoutMs, onTimeout) =>
      var check := CheckIn(context, condition, depth + 1);
      var failure := LowerPolicy(context, onTimeout, nodes, next, depth + 1);
      var findings := Finding(!ValidTimer(timeoutMs)) + check.findings + failure.findings;
      if check.compiled then
        Pushed(failure.nodes,
               WaitNode(ResolveCondition(context.registry, condition), timeoutMs, failure.policy, next), findings)
      else Lowered(failure.nodes, findings, None)
    case SetVariable(name, expression) =>
      var check := CheckExpression(context.registry, context.definitions, expression);
      if name !in context.definitions then Lowered(nodes, check.findings + 1, None)
      else if check.valueType.None? then Lowered(nodes, check.findings, None)
      else
        Pushed(nodes, SetVariableNode(name, ResolveExpression(context.registry, expression), next),
               check.findings + Finding(context.definitions[name].valueType != check.valueType.value))
    case Sequence(actions) => LowerList(context, actions, nodes, next, depth + 1)
    case If(condition, thenActions, elseActions) =>
      var join := |nodes|;
      var thenPart := LowerList(context, thenActions, nodes + [JoinNode(next)], Some(join), depth + 1);
      var elsePart := LowerList(context, elseActions, thenPart.nodes, Some(join), depth + 1);
      var check := CheckIn(context, condition, depth + 1);
      var findings :=
        Finding(condition.Constant?) + thenPart.findings + elsePart.findings + check.findings;
      if check.compiled then
        Pushed(elsePart.nodes,
               BranchNode(ResolveCondition(context.registry, condition), thenPart.entry, elsePart.entry, Some(join)),
               findings)
      else Lowered(elsePart.nodes, findings, None)
    case Group(kind, branches, maximumParallel) =>
      var join := |nodes|;
      var each := LowerBranches(context, branches, nodes + [JoinNode(next)], join, depth + 1);
      Pushed(each.nodes, GroupNode(kind, each.entries, Some(join)),
             WidthFindings(context, |branches|, maximumParallel) + each.findings)
  }

  function LowerPolicy(context: Context, policy: FailurePolicy, nodes: seq<Node>, next: Option<NodeId>, depth: nat)
    : LoweredPolicy
    decreases policy
  {
    match policy
    case StopRun => LoweredPolicy(nodes, 0, StopTheRun)
    case StopBranch => LoweredPolicy(nodes, 0, StopTheBranch)
    case Continue => LoweredPolicy(nodes, 0, CarryOn)
    case Fallback(actions) =>
      var lowered := LowerList(context, actions, nodes, next, depth);
      LoweredPolicy(lowered.nodes, Finding(actions == []) + lowered.findings, FallBackTo(lowered.entry))
  }

  /** Every branch leads to the group's join. */
  function LowerBranches(context: Context, branches: seq<Branch>, nodes: seq<Node>, join: NodeId, depth: nat)
    : LoweredBranches
    decreases branches
  {
    if branches == [] then LoweredBranches(nodes, 0, [])
    else
      var first := LowerList(context, branches[0].actions, nodes, Some(join), depth);
      var rest := LowerBranches(context, branches[1..], first.nodes, join, depth);
      LoweredBranches(rest.nodes,
                      Finding(branches[0].actions == []) + first.findings + rest.findings,
                      (if first.entry.Some? then [first.entry.value] else []) + rest.entries)
  }

  function CheckIn(context: Context, condition: AuthoredCondition, depth: nat): Check {
    CheckCondition(context.registry, context.definitions, condition, depth, context.budget.maximumNestingDepth)
  }

  // ----- how many nodes a piece of the tree needs -------------------------------

  function Count(actions: seq<Action>): nat
    decreases actions
  {
    if actions == [] then 0 else CountAction(actions[0]) + Count(actions[1..])
  }

  function CountAction(action: Action): (count: nat)
    ensures !action.Sequence? ==> count > 0
    decreases action
  {
    match action
    case Command(_, _, _, onFailure) => CountPolicy(onFailure) + 1
    case Delay(_) => 1
    case Wait(_, _, onTimeout) => CountPolicy(onTimeout) + 1
    case SetVariable(_, _) => 1
    case Sequence(actions) => Count(actions)
    case If(_, thenActions, elseActions) => 1 + Count(thenActions) + Count(elseActions) + 1
    case Group(_, branches, _) => 1 + CountBranches(branches) + 1
  }

  function CountPolicy(policy: FailurePolicy): nat
    decreases policy
  {
    match policy
    case Fallback(actions) => Count(actions)
    case _ => 0
  }

  function CountBranches(branches: seq<Branch>): nat
    decreases branches
  {
    if branches == [] then 0 else Count(branches[0].actions) + CountBranches(branches[1..])
  }

  // ----- findings, prefixes and entries -----------------------------------------------

  /**
   * What holds of every piece: nothing already lowered changes, a missing
   * entry has a finding, and without findings the piece takes exactly its
   * count of nodes and can be entered.
   */
  predicate Extends(nodes: seq<Node>, after: seq<Node>, count: nat, findings: nat) {
    nodes <= after && (findings == 0 ==> |after| == |nodes| + count)
  }

  lemma {:induction false} ListExtends(context: Context, actions: seq<Action>, nodes: seq<Node>,
                                       next: Option<NodeId>, depth: nat)
    requires next.Some?
    ensures var lowered := LowerList(context, actions, nodes, next, depth);
            && Extends(nodes, lowered.nodes, Count(actions), lowered.findings)
            && (lowered.entry.None? ==> lowered.findings > 0)
    decreases actions, 1
  {
    if depth <= context.budget.maximumNestingDepth {
      EachExtends(context, actions, nodes, next, depth);
    }
  }

  lemma {:induction false} EachExtends(context: Context, actions: seq<Action>, nodes: seq<Node>,
                                       next: Option<NodeId>, depth: nat)
    ensures var lowered := LowerEach(context, actions, nodes, next, depth);
            && Extends(nodes, lowered.nodes, Count(actions), lowered.findings)
            && (next.Some? && lowered.entry.None? ==> lowered.findings > 0)
    decreases actions, 0
  {
    if actions != [] {
      EachExtends(context, actions[1..], nodes, next, depth);
      var rest := LowerEach(context, actions[1..], nodes, next, depth);
      ActionExtends(context, actions[0], rest.nodes, rest.entry, depth);
    }
  }

  lemma {:induction false} ActionExtends(context: Context, action: Action, nodes: seq<Node>,
                                         next: Option<NodeId>, depth: nat)
    ensures var lowered := LowerAction(context, action, nodes, next, depth);
            && Extends(nodes, lowered.nodes, CountAction(action), lowered.findings)
            && (next.Some? && lowered.entry.None? ==> lowered.findings > 0)
    decreases action
  {
    match action
    case Command(_, _, _, onFailure) => PolicyExtends(context, onFailure, nodes, next, depth + 1);
    case Delay(_) =>
    case Wait(condition, _, onTimeout) =>
      PolicyExtends(context, onTimeout, nodes, next, depth + 1);
      UncompiledConditionHasFinding(context.registry, context.definitions, condition, depth + 1,
                                    context.budget.maximumNestingDepth);
    case SetVariable(_, _) =>
    case Sequence(actions) =>
      if depth + 1 <= context.budget.maximumNestingDepth {
        EachExtends(context, actions, nodes, next, depth + 1);
      }
    case If(condition, thenActions, elseActions) =>
      var join := Some(|nodes|);
      ListExtends(context, thenActions, nodes + [JoinNode(next)], join, depth + 1);
      var thenPart := LowerList(context, thenActions, nodes + [JoinNode(next)], join, depth + 1);
      ListExtends(context, elseActions, thenPart.nodes, join, depth + 1);
      UncompiledConditionHasFinding(context.registry, context.definitions, condition, depth + 1,
                                    context.budget.maximumNestingDepth);
    case Group(_, branches, _) =>
      BranchesExtend(context, branches, nodes + [JoinNode(next)], |nodes|, depth + 1);
  }

  lemma {:induction false} PolicyExtends(context: Context, policy: FailurePolicy, nodes: seq<Node>,
                                         next: Option<NodeId>, depth: nat)
    ensures var lowered := LowerPolicy(context, policy, nodes, next, depth);
            && Extends(nodes, lowered.nodes, CountPolicy(policy), lowered.findings)
            && (next.Some? && lowered.policy == FallBackTo(None) ==> lowered.findings > 0)
    decreases policy
  {
    if policy.Fallback? && depth <= context.budget.maximumNestingDepth {
      EachExtends(context, policy.actions, nodes, next, depth);
    }
  }

  lemma {:induction false} BranchesExtend(context: Context, branches: seq<Branch>, nodes: seq<Node>, join: NodeId,
                                          depth: nat)
    ensures var lowered := LowerBranches(context, branches, nodes, join, depth);
            && Extends(nodes, lowered.nodes, CountBranches(branches), lowered.findings)
            && (lowered.findings == 0 ==> |lowered.entries| == |branches|)
    decreases branches
  {
    if branches != [] {
      ListExtends(context, branches[0].actions, nodes, Some(join), depth);
      var first := LowerList(context, branches[0].actions, nodes, Some(join), depth);
      BranchesExtend(context, branches[1..], first.nodes, join, depth);
    }
  }
}
