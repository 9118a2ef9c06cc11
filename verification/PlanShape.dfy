/**
 * Shape of lowered plans: all edges are present and descend, a group's
 * interior leaves only through its join, and every node can be reached.
 */
module PlanShape {
  import opened Wrappers
  import opened Domain
  import opened Evaluator
  import opened Lowering

  predicate PolicyLeadsTo(policy: PlanPolicy, target: NodeId) {
    policy == FallBackTo(Some(target))
  }

  predicate HasEdge(node: Node, target: NodeId) {
    match node
    case Complete => false
    case CommandNode(_, _, _, onFailure, next) => next == Some(target) || PolicyLeadsTo(onFailure, target)
    case DelayNode(_, next) => next == Some(target)
    case WaitNode(_, _, onTimeout, next) => next == Some(target) || PolicyLeadsTo(onTimeout, target)
    case SetVariableNode(_, _, next) => next == Some(target)
    case BranchNode(_, thenNode, elseNode, join) => Some(target) in {thenNode, elseNode, join}
    case GroupNode(_, branches, join) => join == Some(target) || target in branches
    case JoinNode(next) => next == Some(target)
  }

  /** No edge of the node is missing. */
  predicate EdgesPresent(node: Node) {
    match node
    case Complete => true
    case CommandNode(_, _, _, onFailure, next) => next.Some? && onFailure != FallBackTo(None)
    case DelayNode(_, next) => next.Some?
    case WaitNode(_, _, onTimeout, next) => next.Some? && onTimeout != FallBackTo(None)
    case SetVariableNode(_, _, next) => next.Some?
    case BranchNode(_, thenNode, elseNode, join) => thenNode.Some? && elseNode.Some? && join.Some?
    case GroupNode(_, branches, join) => branches != [] && join.Some?
    case JoinNode(next) => next.Some?
  }

  /** The nodes strictly between join and group lead nowhere but down to the join. */
  ghost predicate Enclosed(nodes: seq<Node>, join: NodeId, group: NodeId) {
    && (forall id: NodeId, target: NodeId ::
          join < id < group && id < |nodes| && HasEdge(nodes[id], target) ==> join <= target < id)
    && (forall id: NodeId :: join < id < group && id < |nodes| && nodes[id].GroupNode? ==> nodes[id].join != Some(join))
  }

  ghost predicate GroupFits(nodes: seq<Node>, id: NodeId, lowest: NodeId)
    requires id < |nodes| && nodes[id].GroupNode? && nodes[id].join.Some?
  {
    var join := nodes[id].join.value;
    && lowest <= join < id
    && nodes[join].JoinNode?
    && (forall i :: 0 <= i < |nodes[id].branches| ==> join <= nodes[id].branches[i] < id)
    && Enclosed(nodes, join, id)
  }

  /** Whatever the node evaluates is well typed on every typed input. */
  ghost predicate SoundNode(context: Context, node: Node) {
    WellResolved(context.registry) ==>
      match node
      case WaitNode(condition, _, _, _) => SoundCondition(context, condition)
      case BranchNode(condition, _, _, _) => SoundCondition(context, condition)
      case SetVariableNode(name, expression, _) => SoundAssignment(context, name, expression)
      case _ => true
  }

  ghost predicate SoundCondition(context: Context, condition: ResolvedCondition) {
    forall variables, reading ::
      TypedVariables(context.definitions, variables) && TypedReading(context.registry, reading) ==>
        MissingAtWorst(context.definitions, variables,
                       EvaluateCondition(context.registry, condition, variables, reading))
  }

  ghost predicate SoundAssignment(context: Context, name: string, expression: ResolvedExpression) {
    && name in context.definitions
    && forall variables, reading ::
         TypedVariables(context.definitions, variables) && TypedReading(context.registry, reading) ==>
           YieldsAtWorst(context.definitions, variables, context.definitions[name].valueType,
                         EvaluateExpression(expression, variables, reading))
  }

  lemma CheckedConditionIsSound(context: Context, condition: AuthoredCondition, depth: nat)
    requires WellResolved(context.registry) && CheckIn(context, condition, depth).findings == 0
    ensures SoundCondition(context, ResolveCondition(context.registry, condition))
  {
    forall variables, reading | TypedVariables(context.definitions, variables)
                                && TypedReading(context.registry, reading)
      ensures MissingAtWorst(context.definitions, variables,
                             EvaluateCondition(context.registry, ResolveCondition(context.registry, condition),
                                               variables, reading))
    {
      ConditionSound(context.registry, context.definitions, condition, depth, context.budget.maximumNestingDepth,
                     variables, reading);
    }
  }

  lemma CheckedAssignmentIsSound(context: Context, name: string, expression: AuthoredExpression)
    requires WellResolved(context.registry) && name in context.definitions
    requires CheckExpression(context.registry, context.definitions, expression)
             == TypeCheck(Some(context.definitions[name].valueType), 0)
    ensures SoundAssignment(context, name, ResolveExpression(context.registry, expression))
  {
    forall variables, reading | TypedVariables(context.definitions, variables)
                                && TypedReading(context.registry, reading)
      ensures YieldsAtWorst(context.definitions, variables, context.definitions[name].valueType,
                            EvaluateExpression(ResolveExpression(context.registry, expression), variables, reading))
    {
      ExpressionSound(context.registry, context.definitions, expression, variables, reading);
    }
  }

  /** A node of a region that starts at `lowest` and leaves only to `exit`. */
  ghost predicate NodeFits(context: Context, nodes: seq<Node>, id: NodeId, lowest: NodeId, exit: NodeId)
    requires id < |nodes|
  {
    && !nodes[id].Complete?
    && EdgesPresent(nodes[id])
    && SoundNode(context, nodes[id])
    && (forall target: NodeId :: HasEdge(nodes[id], target) ==> target == exit || lowest <= target < id)
    && (nodes[id].GroupNode? ==> GroupFits(nodes, id, lowest))
  }

  ghost predicate RegionFits(context: Context, nodes: seq<Node>, lowest: NodeId, highest: NodeId, exit: NodeId)
    requires highest <= |nodes|
  {
    forall id :: lowest <= id < highest ==> NodeFits(context, nodes, id, lowest, exit)
  }

  predicate EntryFits(entry: Option<NodeId>, lowest: NodeId, highest: NodeId, exit: NodeId) {
    entry.Some? && (entry.value == exit || lowest <= entry.value < highest)
  }

  // ----- regions compose ---------------------------------------------------------------

  lemma NodeFitsGrows(context: Context, nodes: seq<Node>, more: seq<Node>, id: NodeId, lowest: NodeId, exit: NodeId)
    requires id < |nodes| && nodes <= more && NodeFits(context, nodes, id, lowest, exit)
    ensures NodeFits(context, more, id, lowest, exit)
  {
    assert more[id] == nodes[id];
    if nodes[id].GroupNode? {
      var join := nodes[id].join.value;
      forall k: NodeId, target: NodeId | join < k < id && HasEdge(more[k], target)
        ensures join <= target < k
      {
        assert HasEdge(nodes[k], target);
      }
      assert Enclosed(more, join, id);
    }
  }

  lemma RegionFitsGrows(context: Context, nodes: seq<Node>, more: seq<Node>, lowest: NodeId, highest: NodeId,
                        exit: NodeId)
    requires highest <= |nodes| && nodes <= more && RegionFits(context, nodes, lowest, highest, exit)
    ensures RegionFits(context, more, lowest, highest, exit)
  {
    forall id | lowest <= id < highest
      ensures NodeFits(context, more, id, lowest, exit)
    {
      NodeFitsGrows(context, nodes, more, id, lowest, exit);
    }
  }

  /** A region that leaves into the one below it joins it. */
  lemma RegionsJoin(context: Context, nodes: seq<Node>, lowest: NodeId, middle: NodeId, highest: NodeId, inner: NodeId,
                    exit: NodeId)
    requires lowest <= middle <= highest <= |nodes|
    requires RegionFits(context, nodes, lowest, middle, exit) && RegionFits(context, nodes, middle, highest, inner)
    requires inner == exit || lowest <= inner < middle
    ensures RegionFits(context, nodes, lowest, highest, exit)
  {
    forall id | lowest <= id < highest
      ensures NodeFits(context, nodes, id, lowest, exit)
    {
      if id < middle {
        assert NodeFits(context, nodes, id, lowest, exit);
      } else {
        assert NodeFits(context, nodes, id, middle, inner);
      }
    }
  }

  // ----- lowering produces fitting regions ------------------------------------------------

  lemma {:induction false} ListFits(context: Context, actions: seq<Action>, nodes: seq<Node>, next: NodeId, depth: nat)
    requires LowerList(context, actions, nodes, Some(next), depth).findings == 0
    ensures var lowered := LowerList(context, actions, nodes, Some(next), depth);
            && nodes <= lowered.nodes
            && RegionFits(context, lowered.nodes, |nodes|, |lowered.nodes|, next)
            && EntryFits(lowered.entry, |nodes|, |lowered.nodes|, next)
    decreases actions, 1
  {
    EachFits(context, actions, nodes, next, depth);
  }

  lemma {:induction false} EachFits(context: Context, actions: seq<Action>, nodes: seq<Node>, next: NodeId, depth: nat)
    requires LowerEach(context, actions, nodes, Some(next), depth).findings == 0
    ensures var lowered := LowerEach(context, actions, nodes, Some(next), depth);
            && nodes <= lowered.nodes
            && RegionFits(context, lowered.nodes, |nodes|, |lowered.nodes|, next)
            && EntryFits(lowered.entry, |nodes|, |lowered.nodes|, next)
    decreases actions, 0
  {
    if actions != [] {
      EachFits(context, actions[1..], nodes, next, depth);
      var rest := LowerEach(context, actions[1..], nodes, Some(next), depth);
      ActionFits(context, actions[0], rest.nodes, rest.entry.value, depth);
      var first := LowerAction(context, actions[0], rest.nodes, rest.entry, depth);
      RegionFitsGrows(context, rest.nodes, first.nodes, |nodes|, |rest.nodes|, next);
      RegionsJoin(context, first.nodes, |nodes|, |rest.nodes|, |first.nodes|, rest.entry.value, next);
    }
  }

  lemma {:induction false} ActionFits(context: Context, action: Action, nodes: seq<Node>, next: NodeId, depth: nat)
    requires LowerAction(context, action, nodes, Some(next), depth).findings == 0
    ensures var lowered := LowerAction(context, action, nodes, Some(next), depth);
            && nodes <= lowered.nodes
            && RegionFits(context, lowered.nodes, |nodes|, |lowered.nodes|, next)
            && EntryFits(lowered.entry, |nodes|, |lowered.nodes|, next)
    decreases action
  {
    var lowered := LowerAction(context, action, nodes, Some(next), depth);
    ActionExtends(context, action, nodes, Some(next), depth);
    match action
    case Command(_, _, _, onFailure) =>
      PolicyFits(context, onFailure, nodes, next, depth + 1);
      var failure := LowerPolicy(context, onFailure, nodes, Some(next), depth + 1);
      RegionFitsGrows(context, failure.nodes, lowered.nodes, |nodes|, |failure.nodes|, next);
    case Delay(_) =>
    case Wait(condition, _, onTimeout) =>
      if WellResolved(context.registry) {
        CheckedConditionIsSound(context, condition, depth + 1);
      }
      PolicyFits(context, onTimeout, nodes, next, depth + 1);
      var failure := LowerPolicy(context, onTimeout, nodes, Some(next), depth + 1);
      RegionFitsGrows(context, failure.nodes, lowered.nodes, |nodes|, |failure.nodes|, next);
    case SetVariable(name, expression) =>
      if WellResolved(context.registry) {
        CheckedAssignmentIsSound(context, name, expression);
      }
    case Sequence(actions) => ListFits(context, actions, nodes, next, depth + 1);
    case If(_, _, _) => IfFits(context, action, nodes, next, depth);
    case Group(_, _, _) => GroupRegionFits(context, action, nodes, next, depth);
  }

  lemma {:induction false} PolicyFits(context: Context, policy: FailurePolicy, nodes: seq<Node>, next: NodeId,
                                      depth: nat)
    requires LowerPolicy(context, policy, nodes, Some(next), depth).findings == 0
    ensures var lowered := LowerPolicy(context, policy, nodes, Some(next), depth);
            && nodes <= lowered.nodes
            && RegionFits(context, lowered.nodes, |nodes|, |lowered.nodes|, next)
            && (lowered.policy.FallBackTo? ==> EntryFits(lowered.policy.entry, |nodes|, |lowered.nodes|, next))
    decreases policy
  {
    if policy.Fallback? {
      ListFits(context, policy.actions, nodes, next, depth);
    }
  }

  lemma JoinFits(context: Context, nodes: seq<Node>, next: NodeId)
    ensures RegionFits(context, nodes + [JoinNode(Some(next))], |nodes|, |nodes| + 1, next)
  {
  }

  lemma {:induction false} IfFits(context: Context, action: Action, nodes: seq<Node>, next: NodeId, depth: nat)
    requires action.If?
    requires LowerAction(context, action, nodes, Some(next), depth).findings == 0
    ensures var lowered := LowerAction(context, action, nodes, Some(next), depth);
            && nodes <= lowered.nodes
            && RegionFits(context, lowered.nodes, |nodes|, |lowered.nodes|, next)
            && EntryFits(lowered.entry, |nodes|, |lowered.nodes|, next)
    decreases action, 0
  {
    var join := |nodes|;
    var withJoin := nodes + [JoinNode(Some(next))];
    JoinFits(context, nodes, next);
    ListFits(context, action.thenActions, withJoin, join, depth + 1);
    var thenPart := LowerList(context, action.thenActions, withJoin, Some(join), depth + 1);
    ListFits(context, action.elseActions, thenPart.nodes, join, depth + 1);
    var elsePart := LowerList(context, action.elseActions, thenPart.nodes, Some(join), depth + 1);
    RegionFitsGrows(context, withJoin, elsePart.nodes, join, join + 1, next);
    RegionFitsGrows(context, thenPart.nodes, elsePart.nodes, join + 1, |thenPart.nodes|, join);
    RegionsJoin(context, elsePart.nodes, join, join + 1, |thenPart.nodes|, join, next);
    RegionsJoin(context, elsePart.nodes, join, |thenPart.nodes|, |elsePart.nodes|, join, next);
    ActionExtends(context, action, nodes, Some(next), depth);
    var lowered := LowerAction(context, action, nodes, Some(next), depth);
    RegionFitsGrows(context, elsePart.nodes, lowered.nodes, join, |elsePart.nodes|, next);
    if WellResolved(context.registry) {
      CheckedConditionIsSound(context, action.condition, depth + 1);
    }
  }

  lemma {:induction false} BranchesFit(context: Context, branches: seq<Branch>, nodes: seq<Node>, join: NodeId,
                                       depth: nat)
    requires LowerBranches(context, branches, nodes, join, depth).findings == 0
    ensures var lowered := LowerBranches(context, branches, nodes, join, depth);
            && nodes <= lowered.nodes
            && RegionFits(context, lowered.nodes, |nodes|, |lowered.nodes|, join)
            && |lowered.entries| == |branches|
            && forall i :: 0 <= i < |branches| ==>
                 EntryFits(Some(lowered.entries[i]), |nodes|, |lowered.nodes|, join)
    decreases branches
  {
    if branches != [] {
      ListFits(context, branches[0].actions, nodes, join, depth);
      var first := LowerList(context, branches[0].actions, nodes, Some(join), depth);
      BranchesFit(context, branches[1..], first.nodes, join, depth);
      var rest := LowerBranches(context, branches[1..], first.nodes, join, depth);
      RegionFitsGrows(context, first.nodes, rest.nodes, |nodes|, |first.nodes|, join);
      RegionsJoin(context, rest.nodes, |nodes|, |first.nodes|, |rest.nodes|, join, join);
      var lowered := LowerBranches(context, branches, nodes, join, depth);
      assert lowered.entries == [first.entry.value] + rest.entries;
    }
  }

  lemma {:induction false} GroupRegionFits(context: Context, action: Action, nodes: seq<Node>, next: NodeId,
                                           depth: nat)
    requires action.Group?
    requires LowerAction(context, action, nodes, Some(next), depth).findings == 0
    ensures var lowered := LowerAction(context, action, nodes, Some(next), depth);
            && nodes <= lowered.nodes
            && RegionFits(context, lowered.nodes, |nodes|, |lowered.nodes|, next)
            && EntryFits(lowered.entry, |nodes|, |lowered.nodes|, next)
    decreases action, 0
  {
    var join := |nodes|;
    var withJoin := nodes + [JoinNode(Some(next))];
    JoinFits(context, nodes, next);
    BranchesFit(context, action.branches, withJoin, join, depth + 1);
    var each := LowerBranches(context, action.branches, withJoin, join, depth + 1);
    var lowered := LowerAction(context, action, nodes, Some(next), depth);
    RegionFitsGrows(context, withJoin, lowered.nodes, join, join + 1, next);
    RegionFitsGrows(context, each.nodes, lowered.nodes, join + 1, |each.nodes|, join);
    RegionsJoin(context, lowered.nodes, join, join + 1, |each.nodes|, join, next);
    var group := |each.nodes|;
    forall id: NodeId, target: NodeId | join < id < group && HasEdge(lowered.nodes[id], target)
      ensures join <= target < id
    {
      assert NodeFits(context, lowered.nodes, id, join + 1, join);
    }
    forall id: NodeId | join < id < group && lowered.nodes[id].GroupNode?
      ensures lowered.nodes[id].join != Some(join)
    {
      assert NodeFits(context, lowered.nodes, id, join + 1, join);
    }
    assert Enclosed(lowered.nodes, join, group);
    assert NodeFits(context, lowered.nodes, group, join, next);
  }

  // ----- reachability -----------------------------------------------------------------------

  /** The set contains whatever its members lead to. */
  ghost predicate Closed(plan: seq<Node>, members: set<NodeId>) {
    forall id: NodeId, target: NodeId :: id in members && id < |plan| && HasEdge(plan[id], target) ==> target in members
  }

  ghost predicate Covers(members: set<NodeId>, lowest: NodeId, highest: NodeId) {
    forall id :: lowest <= id < highest ==> id in members
  }

  lemma {:induction false} ListReaches(context: Context, actions: seq<Action>, nodes: seq<Node>, next: NodeId,
                                       depth: nat, plan: seq<Node>, members: set<NodeId>)
    requires LowerList(context, actions, nodes, Some(next), depth).findings == 0
    requires LowerList(context, actions, nodes, Some(next), depth).nodes <= plan && Closed(plan, members)
    requires LowerList(context, actions, nodes, Some(next), depth).entry.Some?
    requires LowerList(context, actions, nodes, Some(next), depth).entry.value in members
    ensures next in members
    ensures Covers(members, |nodes|, |LowerList(context, actions, nodes, Some(next), depth).nodes|)
    decreases actions, 1
  {
    if actions != [] {
      EachExtends(context, actions[1..], nodes, Some(next), depth);
      var rest := LowerEach(context, actions[1..], nodes, Some(next), depth);
      ActionExtends(context, actions[0], rest.nodes, rest.entry, depth);
      ActionReaches(context, actions[0], rest.nodes, rest.entry.value, depth, plan, members);
      assert LowerList(context, actions[1..], nodes, Some(next), depth) == rest;
      ListReaches(context, actions[1..], nodes, next, depth, plan, members);
    }
  }

  /** Entering a piece makes all of its nodes and its exit reachable. */
  lemma {:induction false} ActionReaches(context: Context, action: Action, nodes: seq<Node>, next: NodeId,
                                         depth: nat, plan: seq<Node>, members: set<NodeId>)
    requires LowerAction(context, action, nodes, Some(next), depth).findings == 0
    requires LowerAction(context, action, nodes, Some(next), depth).nodes <= plan && Closed(plan, members)
    requires LowerAction(context, action, nodes, Some(next), depth).entry.Some?
    requires LowerAction(context, action, nodes, Some(next), depth).entry.value in members
    ensures next in members
    ensures Covers(members, |nodes|, |LowerAction(context, action, nodes, Some(next), depth).nodes|)
    decreases action
  {
    var lowered := LowerAction(context, action, nodes, Some(next), depth);
    var id := lowered.entry.value;
    match action
    case Command(_, _, _, onFailure) =>
      assert HasEdge(plan[id], next);
      PolicyReaches(context, onFailure, nodes, next, depth + 1, plan, members, id);
    case Delay(_) => assert HasEdge(plan[id], next);
    case Wait(_, _, onTimeout) =>
      assert HasEdge(plan[id], next);
      PolicyReaches(context, onTimeout, nodes, next, depth + 1, plan, members, id);
    case SetVariable(_, _) => assert HasEdge(plan[id], next);
    case Sequence(actions) => ListReaches(context, actions, nodes, next, depth + 1, plan, members);
    case If(_, thenActions, elseActions) =>
      var join := |nodes|;
      var withJoin := nodes + [JoinNode(Some(next))];
      ListExtends(context, thenActions, withJoin, Some(join), depth + 1);
      var thenPart := LowerList(context, thenActions, withJoin, Some(join), depth + 1);
      ListExtends(context, elseActions, thenPart.nodes, Some(join), depth + 1);
      var elsePart := LowerList(context, elseActions, thenPart.nodes, Some(join), depth + 1);
      assert HasEdge(plan[id], thenPart.entry.value) && HasEdge(plan[id], elsePart.entry.value);
      ListReaches(context, thenActions, withJoin, join, depth + 1, plan, members);
      ListReaches(context, elseActions, thenPart.nodes, join, depth + 1, plan, members);
      assert plan[join] == withJoin[join] && HasEdge(plan[join], next);
    case Group(_, branches, _) =>
      var join := |nodes|;
      var withJoin := nodes + [JoinNode(Some(next))];
      BranchesExtend(context, branches, withJoin, join, depth + 1);
      var each := LowerBranches(context, branches, withJoin, join, depth + 1);
      assert HasEdge(plan[id], join);
      forall i | 0 <= i < |each.entries|
        ensures each.entries[i] in members
      {
        assert HasEdge(plan[id], each.entries[i]);
      }
      BranchesReach(context, branches, withJoin, join, depth + 1, plan, members);
      assert plan[join] == withJoin[join] && HasEdge(plan[join], next);
  }

  lemma {:induction false} PolicyReaches(context: Context, policy: FailurePolicy, nodes: seq<Node>, next: NodeId,
                                         depth: nat, plan: seq<Node>, members: set<NodeId>, owner: NodeId)
    requires LowerPolicy(context, policy, nodes, Some(next), depth).findings == 0
    requires LowerPolicy(context, policy, nodes, Some(next), depth).nodes <= plan && Closed(plan, members)
    requires owner in members && owner < |plan|
    requires forall target: NodeId ::
               PolicyLeadsTo(LowerPolicy(context, policy, nodes, Some(next), depth).policy, target) ==>
                 HasEdge(plan[owner], target)
    ensures Covers(members, |nodes|, |LowerPolicy(context, policy, nodes, Some(next), depth).nodes|)
    decreases policy
  {
    if policy.Fallback? {
      ListExtends(context, policy.actions, nodes, Some(next), depth);
      var entry := LowerList(context, policy.actions, nodes, Some(next), depth).entry.value;
      assert PolicyLeadsTo(LowerPolicy(context, policy, nodes, Some(next), depth).policy, entry);
      ListReaches(context, policy.actions, nodes, next, depth, plan, members);
    }
  }

  lemma {:induction false} BranchesReach(context: Context, branches: seq<Branch>, nodes: seq<Node>, join: NodeId,
                                         depth: nat, plan: seq<Node>, members: set<NodeId>)
    requires LowerBranches(context, branches, nodes, join, depth).findings == 0
    requires LowerBranches(context, branches, nodes, join, depth).nodes <= plan && Closed(plan, members)
    requires forall i :: 0 <= i < |LowerBranches(context, branches, nodes, join, depth).entries| ==>
               LowerBranches(context, branches, nodes, join, depth).entries[i] in members
    ensures Covers(members, |nodes|, |LowerBranches(context, branches, nodes, join, depth).nodes|)
    decreases branches
  {
    if branches != [] {
      ListExtends(context, branches[0].actions, nodes, Some(join), depth);
      var first := LowerList(context, branches[0].actions, nodes, Some(join), depth);
      BranchesExtend(context, branches[1..], first.nodes, join, depth);
      var rest := LowerBranches(context, branches[1..], first.nodes, join, depth);
      var lowered := LowerBranches(context, branches, nodes, join, depth);
      assert lowered.entries[0] == first.entry.value && lowered.entries[1..] == rest.entries;
      ListReaches(context, branches[0].actions, nodes, join, depth, plan, members);
      BranchesReach(context, branches[1..], first.nodes, join, depth, plan, members);
    }
  }
}
