/**
 * Finer shape of lowered plans: the branches of a group are stacked intervals
 * that lead only down or to the join, and nothing above a group leads into it.
 */
module PlanFences {
  import opened Wrappers
  import opened Domain
  import opened Lowering
  import opened PlanShape

  // ----- a piece is entered at its last node --------------------------------------------

  predicate EntryOnTop(entry: Option<NodeId>, before: nat, after: nat, next: NodeId) {
    entry == Some(if after > before then after - 1 else next)
  }

  lemma {:induction false} ListEntryOnTop(context: Context, actions: seq<Action>, nodes: seq<Node>, next: NodeId,
                                          depth: nat)
    requires LowerList(context, actions, nodes, Some(next), depth).findings == 0
    ensures var lowered := LowerList(context, actions, nodes, Some(next), depth);
            EntryOnTop(lowered.entry, |nodes|, |lowered.nodes|, next)
    decreases actions, 1
  {
    if actions != [] {
      var rest := LowerEach(context, actions[1..], nodes, Some(next), depth);
      assert LowerList(context, actions[1..], nodes, Some(next), depth) == rest;
      ListEntryOnTop(context, actions[1..], nodes, next, depth);
      EachExtends(context, actions[1..], nodes, Some(next), depth);
      ActionExtends(context, actions[0], rest.nodes, rest.entry, depth);
      ActionEntryOnTop(context, actions[0], rest.nodes, rest.entry.value, depth);
    }
  }

  lemma {:induction false} ActionEntryOnTop(context: Context, action: Action, nodes: seq<Node>, next: NodeId,
                                            depth: nat)
    requires LowerAction(context, action, nodes, Some(next), depth).findings == 0
    ensures var lowered := LowerAction(context, action, nodes, Some(next), depth);
            EntryOnTop(lowered.entry, |nodes|, |lowered.nodes|, next)
    decreases action
  {
    ActionExtends(context, action, nodes, Some(next), depth);
    if action.Sequence? {
      ListEntryOnTop(context, action.actions, nodes, next, depth + 1);
    }
  }

  // ----- fences between branches -----------------------------------------------------------

  /** The branch from `entry` down to above `floor` leads only down inside it, or to the join. */
  ghost predicate Fence(nodes: seq<Node>, floor: nat, entry: NodeId, join: NodeId) {
    entry != join ==>
      && floor < entry < |nodes|
      && forall id: NodeId, target: NodeId ::
           floor < id <= entry && HasEdge(nodes[id], target) ==> target == join || floor < target < id
  }

  /** The branches lie one above the other; an empty one is entered at the join and takes no nodes. */
  ghost predicate Fences(nodes: seq<Node>, floor: nat, entries: seq<NodeId>, join: NodeId)
    decreases entries
  {
    entries == []
    || (Fence(nodes, floor, entries[0], join) && Fences(nodes, Above(floor, entries[0], join), entries[1..], join))
  }

  function Above(floor: nat, entry: NodeId, join: NodeId): nat {
    if entry == join then floor else entry
  }

  /** Top of the branches so far. */
  function High(floor: nat, entries: seq<NodeId>, join: NodeId): nat
    decreases entries
  {
    if entries == [] then floor else High(Above(floor, entries[0], join), entries[1..], join)
  }

  lemma {:induction false} HighOfOneMore(floor: nat, entries: seq<NodeId>, entry: NodeId, join: NodeId)
    ensures High(floor, entries + [entry], join) == Above(High(floor, entries, join), entry, join)
    decreases entries
  {
    if entries == [] {
      assert [entry][1..] == [];
      assert entries + [entry] == [entry];
      assert High(Above(floor, entry, join), [], join) == Above(floor, entry, join);
    } else {
      assert (entries + [entry])[1..] == entries[1..] + [entry];
      HighOfOneMore(Above(floor, entries[0], join), entries[1..], entry, join);
    }
  }

  lemma {:induction false} FenceOfBranch(nodes: seq<Node>, floor: nat, entries: seq<NodeId>, join: NodeId, index: nat)
    requires Fences(nodes, floor, entries, join) && index < |entries|
    ensures Fence(nodes, High(floor, entries[..index], join), entries[index], join)
    ensures High(floor, entries[..index + 1], join) == Above(High(floor, entries[..index], join), entries[index], join)
    ensures floor <= High(floor, entries[..index], join) <= High(floor, entries[..index + 1], join)
    decreases index
  {
    assert entries[..index + 1] == entries[..index] + [entries[index]];
    HighOfOneMore(floor, entries[..index], entries[index], join);
    if index > 0 {
      FenceOfBranch(nodes, Above(floor, entries[0], join), entries[1..], join, index - 1);
      assert entries[..index][1..] == entries[1..][..index - 1];
    }
  }

  // ----- nothing leads into a group from above ------------------------------------------------

  /** The node is neither the join of a group of the plan nor between join and group. */
  ghost predicate Outside(nodes: seq<Node>, target: NodeId) {
    forall group: NodeId :: group < |nodes| && nodes[group].GroupNode? && nodes[group].join.Some? ==>
      !(nodes[group].join.value <= target < group)
  }

  ghost predicate SealedNode(nodes: seq<Node>, id: NodeId)
    requires id < |nodes|
  {
    && (forall target: NodeId :: HasEdge(nodes[id], target) ==> Outside(nodes[..id], target))
    && (nodes[id].GroupNode? && nodes[id].join.Some? ==>
          Fences(nodes, nodes[id].join.value, nodes[id].branches, nodes[id].join.value))
  }

  ghost predicate Sealed(nodes: seq<Node>, lowest: NodeId, highest: NodeId)
    requires highest <= |nodes|
  {
    forall id: NodeId :: lowest <= id < highest ==> SealedNode(nodes, id)
  }

  lemma {:induction false} FencesGrow(nodes: seq<Node>, more: seq<Node>, floor: nat, entries: seq<NodeId>, join: NodeId)
    requires nodes <= more && Fences(nodes, floor, entries, join)
    ensures Fences(more, floor, entries, join)
    decreases entries
  {
    if entries != [] {
      forall id: NodeId, target: NodeId | entries[0] != join && floor < id <= entries[0] && HasEdge(more[id], target)
        ensures target == join || floor < target < id
      {
        assert HasEdge(nodes[id], target);
      }
      FencesGrow(nodes, more, Above(floor, entries[0], join), entries[1..], join);
    }
  }

  lemma SealedGrows(nodes: seq<Node>, more: seq<Node>, lowest: NodeId, highest: NodeId)
    requires nodes <= more && highest <= |nodes| && Sealed(nodes, lowest, highest)
    ensures Sealed(more, lowest, highest)
  {
    forall id: NodeId | lowest <= id < highest
      ensures SealedNode(more, id)
    {
      assert SealedNode(nodes, id) && more[..id] == nodes[..id];
      if nodes[id].GroupNode? && nodes[id].join.Some? {
        FencesGrow(nodes, more, nodes[id].join.value, nodes[id].branches, nodes[id].join.value);
      }
    }
  }

  /** Groups of a region that was added later lie above everything that was there. */
  lemma OutsideStays(context: Context, nodes: seq<Node>, more: seq<Node>, exit: NodeId, target: NodeId)
    requires nodes <= more && RegionFits(context, more, |nodes|, |more|, exit)
    requires target < |nodes| && Outside(nodes, target)
    ensures Outside(more, target)
  {
    forall group: NodeId | group < |more| && more[group].GroupNode? && more[group].join.Some?
      ensures !(more[group].join.value <= target < group)
    {
      if group < |nodes| {
        assert nodes[group] == more[group];
      } else {
        assert NodeFits(context, more, group, |nodes|, exit);
      }
    }
  }

  lemma PushSealed(nodes: seq<Node>, node: Node, lowest: NodeId)
    requires lowest <= |nodes| && Sealed(nodes, lowest, |nodes|)
    requires forall target: NodeId :: HasEdge(node, target) ==> Outside(nodes, target)
    requires node.GroupNode? && node.join.Some? ==>
               Fences(nodes + [node], node.join.value, node.branches, node.join.value)
    ensures Sealed(nodes + [node], lowest, |nodes| + 1)
    ensures Outside(nodes + [node], |nodes|)
  {
    var more := nodes + [node];
    SealedGrows(nodes, more, lowest, |nodes|);
    assert more[..|nodes|] == nodes;
    assert SealedNode(more, |nodes|);
  }

  /** What holds of every lowered piece. */
  ghost predicate SealedPiece(nodes: seq<Node>, after: seq<Node>, entry: Option<NodeId>) {
    && Sealed(after, |nodes|, |after|)
    && entry.Some? && entry.value < |after| && Outside(after, entry.value)
  }

  lemma {:induction false} ListSealed(context: Context, actions: seq<Action>, nodes: seq<Node>, next: NodeId,
                                      depth: nat)
    requires LowerList(context, actions, nodes, Some(next), depth).findings == 0
    requires next < |nodes| && Outside(nodes, next)
    ensures var lowered := LowerList(context, actions, nodes, Some(next), depth);
            SealedPiece(nodes, lowered.nodes, lowered.entry)
    decreases actions, 1
  {
    if actions != [] {
      var rest := LowerEach(context, actions[1..], nodes, Some(next), depth);
      assert LowerList(context, actions[1..], nodes, Some(next), depth) == rest;
      ListSealed(context, actions[1..], nodes, next, depth);
      EachExtends(context, actions[1..], nodes, Some(next), depth);
      ActionExtends(context, actions[0], rest.nodes, rest.entry, depth);
      ActionSealed(context, actions[0], rest.nodes, rest.entry.value, depth);
      var first := LowerAction(context, actions[0], rest.nodes, rest.entry, depth);
      SealedGrows(rest.nodes, first.nodes, |nodes|, |rest.nodes|);
    }
  }

  lemma {:induction false} ActionSealed(context: Context, action: Action, nodes: seq<Node>, next: NodeId, depth: nat)
    requires LowerAction(context, action, nodes, Some(next), depth).findings == 0
    requires next < |nodes| && Outside(nodes, next)
    ensures var lowered := LowerAction(context, action, nodes, Some(next), depth);
            SealedPiece(nodes, lowered.nodes, lowered.entry)
    decreases action
  {
    var lowered := LowerAction(context, action, nodes, Some(next), depth);
    ActionExtends(context, action, nodes, Some(next), depth);
    match action
    case Command(_, _, _, onFailure) =>
      var failure := LowerPolicy(context, onFailure, nodes, Some(next), depth + 1);
      PolicySealed(context, onFailure, nodes, next, depth + 1);
      PushSealed(failure.nodes, lowered.nodes[|failure.nodes|], |nodes|);
    case Wait(_, _, onTimeout) =>
      var failure := LowerPolicy(context, onTimeout, nodes, Some(next), depth + 1);
      PolicySealed(context, onTimeout, nodes, next, depth + 1);
      PushSealed(failure.nodes, lowered.nodes[|failure.nodes|], |nodes|);
    case Delay(_) => PushSealed(nodes, lowered.nodes[|nodes|], |nodes|);
    case SetVariable(_, _) => PushSealed(nodes, lowered.nodes[|nodes|], |nodes|);
    case Sequence(actions) => ListSealed(context, actions, nodes, next, depth + 1);
    case If(_, _, _) => IfSealed(context, action, nodes, next, depth);
    case Group(_, _, _) => GroupSealed(context, action, nodes, next, depth);
  }

  /** The piece of a policy; `next` stays outside of its groups, and so does the entry of a fallback. */
  lemma {:induction false} PolicySealed(context: Context, policy: FailurePolicy, nodes: seq<Node>, next: NodeId,
                                        depth: nat)
    requires LowerPolicy(context, policy, nodes, Some(next), depth).findings == 0
    requires next < |nodes| && Outside(nodes, next)
    ensures var lowered := LowerPolicy(context, policy, nodes, Some(next), depth);
            && nodes <= lowered.nodes
            && Sealed(lowered.nodes, |nodes|, |lowered.nodes|)
            && Outside(lowered.nodes, next)
            && forall target: NodeId :: PolicyLeadsTo(lowered.policy, target) ==> Outside(lowered.nodes, target)
    decreases policy
  {
    PolicyFits(context, policy, nodes, next, depth);
    OutsideStays(context, nodes, LowerPolicy(context, policy, nodes, Some(next), depth).nodes, next, next);
    if policy.Fallback? {
      ListSealed(context, policy.actions, nodes, next, depth);
    }
  }

  lemma {:induction false} IfSealed(context: Context, action: Action, nodes: seq<Node>, next: NodeId, depth: nat)
    requires action.If?
    requires LowerAction(context, action, nodes, Some(next), depth).findings == 0
    requires next < |nodes| && Outside(nodes, next)
    ensures var lowered := LowerAction(context, action, nodes, Some(next), depth);
            SealedPiece(nodes, lowered.nodes, lowered.entry)
    decreases action, 0
  {
    var join, withJoin := |nodes|, nodes + [JoinNode(Some(next))];
    PushSealed(nodes, JoinNode(Some(next)), |nodes|);
    var thenPart := LowerList(context, action.thenActions, withJoin, Some(join), depth + 1);
    var elsePart := LowerList(context, action.elseActions, thenPart.nodes, Some(join), depth + 1);
    ListFits(context, action.thenActions, withJoin, join, depth + 1);
    ListFits(context, action.elseActions, thenPart.nodes, join, depth + 1);
    ListSealed(context, action.thenActions, withJoin, join, depth + 1);
    OutsideStays(context, withJoin, thenPart.nodes, join, join);
    ListSealed(context, action.elseActions, thenPart.nodes, join, depth + 1);
    OutsideStays(context, thenPart.nodes, elsePart.nodes, join, thenPart.entry.value);
    OutsideStays(context, thenPart.nodes, elsePart.nodes, join, join);
    SealedGrows(withJoin, elsePart.nodes, |nodes|, |withJoin|);
    SealedGrows(thenPart.nodes, elsePart.nodes, |withJoin|, |thenPart.nodes|);
    var lowered := LowerAction(context, action, nodes, Some(next), depth);
    ActionExtends(context, action, nodes, Some(next), depth);
    PushSealed(elsePart.nodes, lowered.nodes[|elsePart.nodes|], |nodes|);
  }

  lemma {:induction false} GroupSealed(context: Context, action: Action, nodes: seq<Node>, next: NodeId, depth: nat)
    requires action.Group?
    requires LowerAction(context, action, nodes, Some(next), depth).findings == 0
    requires next < |nodes| && Outside(nodes, next)
    ensures var lowered := LowerAction(context, action, nodes, Some(next), depth);
            SealedPiece(nodes, lowered.nodes, lowered.entry)
    decreases action, 0
  {
    var join, withJoin := |nodes|, nodes + [JoinNode(Some(next))];
    PushSealed(nodes, JoinNode(Some(next)), |nodes|);
    var each := LowerBranches(context, action.branches, withJoin, join, depth + 1);
    BranchesSealed(context, action.branches, withJoin, join, depth + 1);
    SealedGrows(withJoin, each.nodes, |nodes|, |withJoin|);
    GroupPushed(each.nodes, action.kind, each.entries, join, |nodes|);
  }

  lemma GroupPushed(nodes: seq<Node>, kind: GroupKind, entries: seq<NodeId>, join: NodeId, lowest: NodeId)
    requires lowest <= |nodes| && Sealed(nodes, lowest, |nodes|) && Outside(nodes, join)
    requires forall i :: 0 <= i < |entries| ==> Outside(nodes, entries[i])
    requires Fences(nodes, join, entries, join)
    ensures var group := GroupNode(kind, entries, Some(join));
            Sealed(nodes + [group], lowest, |nodes| + 1) && Outside(nodes + [group], |nodes|)
  {
    var group := GroupNode(kind, entries, Some(join));
    FencesGrow(nodes, nodes + [group], join, entries, join);
    PushSealed(nodes, group, lowest);
  }

  lemma {:induction false} BranchesSealed(context: Context, branches: seq<Branch>, nodes: seq<Node>, join: NodeId,
                                          depth: nat)
    requires LowerBranches(context, branches, nodes, join, depth).findings == 0
    requires join < |nodes| && Outside(nodes, join)
    ensures var lowered := LowerBranches(context, branches, nodes, join, depth);
            && nodes <= lowered.nodes
            && Sealed(lowered.nodes, |nodes|, |lowered.nodes|)
            && Outside(lowered.nodes, join)
            && (forall i :: 0 <= i < |lowered.entries| ==> Outside(lowered.nodes, lowered.entries[i]))
            && Fences(lowered.nodes, |nodes| - 1, lowered.entries, join)
    decreases branches
  {
    if branches != [] {
      var lowered := LowerBranches(context, branches, nodes, join, depth);
      var first := LowerList(context, branches[0].actions, nodes, Some(join), depth);
      var rest := LowerBranches(context, branches[1..], first.nodes, join, depth);
      ListFits(context, branches[0].actions, nodes, join, depth);
      ListSealed(context, branches[0].actions, nodes, join, depth);
      OutsideStays(context, nodes, first.nodes, join, join);
      BranchesSealed(context, branches[1..], first.nodes, join, depth);
      BranchesFit(context, branches[1..], first.nodes, join, depth);
      OutsideStays(context, first.nodes, rest.nodes, join, first.entry.value);
      SealedGrows(first.nodes, rest.nodes, |nodes|, |first.nodes|);
      ListEntryOnTop(context, branches[0].actions, nodes, join, depth);
      RegionIsFenced(context, nodes, first.nodes, first.entry.value, join);
      FencesGrow(first.nodes, rest.nodes, |nodes| - 1, [first.entry.value], join);
      assert lowered.entries == [first.entry.value] + rest.entries;
    }
  }

  /** A branch that was lowered on top of the nodes before it has its fence. */
  lemma RegionIsFenced(context: Context, nodes: seq<Node>, more: seq<Node>, entry: NodeId, join: NodeId)
    requires join < |nodes| && nodes <= more && RegionFits(context, more, |nodes|, |more|, join)
    requires EntryOnTop(Some(entry), |nodes|, |more|, join)
    ensures Fences(more, |nodes| - 1, [entry], join)
    ensures Above(|nodes| - 1, entry, join) == |more| - 1
  {
    if entry != join {
      forall id: NodeId, target: NodeId | |nodes| - 1 < id <= entry && HasEdge(more[id], target)
        ensures target == join || |nodes| - 1 < target < id
      {
        assert NodeFits(context, more, id, |nodes|, join);
      }
    }
    assert [entry][1..] == [];
  }
}
