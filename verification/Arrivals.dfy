/**
 * How often the nodes of a compiled plan are entered: every node but the join
 * of a group at most once, such a join at most once per branch. Each step
 * leaves behind a visit that can never come again.
 */
module Arrivals {
  import opened Wrappers
  import opened Domain
  import opened Evaluator
  import opened Lowering
  import opened PlanShape
  import opened PlanFences
  import opened Reduction
  import opened Structured
  import opened PlanMachine
  import opened Compiler
  import opened CompilerCorrectness
  import opened PlanInvariant

  /** An attempt at a node, or a branch of a group that reached the join. */
  datatype Visit = AtNode(node: NodeId, attempt: nat) | AtJoin(group: NodeId, branch: int)
  {
    function Place(): NodeId {
      match this
      case AtNode(node, _) => node
      case AtJoin(group, _) => group
    }
  }

  // ----- the branch a frame is in ----------------------------------------------------------

  function BranchesAt(nodes: seq<Node>, id: NodeId): seq<NodeId> {
    if id < |nodes| && nodes[id].GroupNode? then nodes[id].branches else []
  }

  /** Position of the current branch among those of the group. */
  function Index(nodes: seq<Node>, frame: Frame): int {
    |BranchesAt(nodes, frame.group)| - |frame.remaining| - 1
  }

  /** The current branch lies above the floor and up to the cap. */
  function Floor(nodes: seq<Node>, frame: Frame): nat {
    var branches, index := BranchesAt(nodes, frame.group), Index(nodes, frame);
    if 0 <= index < |branches| then High(frame.join, branches[..index], frame.join) else frame.join
  }

  function Cap(nodes: seq<Node>, frame: Frame): nat {
    var branches, index := BranchesAt(nodes, frame.group), Index(nodes, frame);
    if 0 <= index < |branches| then High(frame.join, branches[..index + 1], frame.join) else frame.join
  }

  /** What remains are the last branches of the group. */
  predicate Stacks(nodes: seq<Node>, frame: Frame) {
    var branches := BranchesAt(nodes, frame.group);
    |frame.remaining| < |branches| && branches[|branches| - |frame.remaining|..] == frame.remaining
  }

  /**
   * The node is in the current branch of the innermost group or at its join,
   * the group in that of the next, and so on.
   */
  ghost predicate Stacked(nodes: seq<Node>, frames: seq<Frame>, id: NodeId) {
    frames == []
    || (var top := Top(frames);
        && Stacks(nodes, top)
        && (id == top.join || Floor(nodes, top) < id <= Cap(nodes, top))
        && Stacked(nodes, Pop(frames), top.group))
  }

  /** Every group around the node has its frame. */
  ghost predicate Covered(nodes: seq<Node>, frames: seq<Frame>, id: NodeId) {
    forall group: NodeId :: group < |nodes| && nodes[group].GroupNode? && nodes[group].join.Some?
                            && nodes[group].join.value <= id < group ==>
      HasFrame(frames, group)
  }

  ghost predicate HasFrame(frames: seq<Frame>, group: NodeId) {
    exists k :: 0 <= k < |frames| && frames[k].group == group
  }

  ghost predicate Fits(context: Context, nodes: seq<Node>) {
    WellFormed(context, nodes) && Sealed(nodes, 1, |nodes|)
  }

  ghost predicate Placed(nodes: seq<Node>, config: Config) {
    && Invariant(nodes, config)
    && (config.status.Running? ==>
          && Stacked(nodes, config.frames, config.node.value)
          && Covered(nodes, config.frames, config.node.value))
  }

  // ----- what is still ahead -----------------------------------------------------------------

  predicate AtTopJoin(config: Config) {
    config.frames != [] && config.node == Some(Top(config.frames).join)
  }

  function VisitOf(nodes: seq<Node>, config: Config): Visit
    requires config.node.Some?
  {
    if AtTopJoin(config) then AtJoin(Top(config.frames).group, Index(nodes, Top(config.frames)))
    else AtNode(config.node.value, config.attempt)
  }

  /**
   * Visits still possible below `limit` in the current branch, in the branches
   * to come, at their join, and in the same way behind the join of each group.
   */
  ghost predicate AheadIn(nodes: seq<Node>, frames: seq<Frame>, limit: NodeId, visit: Visit) {
    if frames == [] then visit.Place() < limit
    else
      var top := Top(frames);
      || Floor(nodes, top) < visit.Place() < limit
      || Cap(nodes, top) < visit.Place() < top.group
      || (visit.AtJoin? && visit.group == top.group && visit.branch >= Index(nodes, top))
      || AheadIn(nodes, Pop(frames), top.join, visit)
  }

  predicate Here(config: Config, visit: Visit)
    requires config.node.Some?
  {
    && !AtTopJoin(config)
    && visit.Place() == config.node.value
    && (visit.AtNode? ==> visit.attempt >= config.attempt)
  }

  ghost predicate Ahead(nodes: seq<Node>, config: Config, visit: Visit)
    requires config.node.Some?
  {
    Here(config, visit) || AheadIn(nodes, config.frames, config.node.value, visit)
  }

  lemma OwnVisitIsAhead(nodes: seq<Node>, config: Config)
    requires Placed(nodes, config) && config.status.Running?
    ensures Ahead(nodes, config, VisitOf(nodes, config))
  {
  }

  lemma AheadGrows(nodes: seq<Node>, frames: seq<Frame>, limit: NodeId, more: NodeId, visit: Visit)
    requires limit <= more && AheadIn(nodes, frames, limit, visit)
    ensures AheadIn(nodes, frames, more, visit)
  {
  }

  lemma {:induction false} HighBelow(floor: nat, entries: seq<NodeId>, join: NodeId, bound: nat)
    requires floor < bound && forall i :: 0 <= i < |entries| ==> entries[i] < bound
    ensures High(floor, entries, join) < bound
    decreases entries
  {
    if entries != [] {
      HighBelow(Above(floor, entries[0], join), entries[1..], join, bound);
    }
  }

  /** The interval of the current branch, and where its nodes lead. */
  lemma BranchInterval(context: Context, nodes: seq<Node>, frame: Frame)
    requires Fits(context, nodes) && FrameFits(nodes, frame) && Stacks(nodes, frame)
    ensures frame.join <= Floor(nodes, frame) <= Cap(nodes, frame) < frame.group
    ensures forall id: NodeId, target: NodeId ::
              Floor(nodes, frame) < id <= Cap(nodes, frame) && HasEdge(nodes[id], target) ==>
                target == frame.join || Floor(nodes, frame) < target < id
  {
    var branches, index := BranchesAt(nodes, frame.group), Index(nodes, frame);
    assert NodeFits(context, nodes, frame.group, 1, 0) && SealedNode(nodes, frame.group);
    FenceOfBranch(nodes, frame.join, branches, frame.join, index);
    HighBelow(frame.join, branches[..index + 1], frame.join, frame.group);
  }

  /** Nothing at or above the limit, in the current branch, is ahead. */
  lemma {:induction false} NotAhead(context: Context, nodes: seq<Node>, frames: seq<Frame>, limit: NodeId, visit: Visit,
                                    id: NodeId)
    requires Fits(context, nodes) && FramesNest(nodes, frames) && Stacked(nodes, frames, id)
    requires limit <= visit.Place()
    requires frames != [] ==> Top(frames).join <= limit && visit.Place() <= Cap(nodes, Top(frames))
    ensures !AheadIn(nodes, frames, limit, visit)
    decreases |frames|
  {
    if frames != [] {
      var top, outer := Top(frames), Pop(frames);
      BranchInterval(context, nodes, top);
      if outer != [] {
        BranchInterval(context, nodes, Top(outer));
        assert Top(outer) == frames[|frames| - 2];
      }
      NotAhead(context, nodes, outer, top.join, visit, top.group);
    }
  }

  /** A step leaves its visit behind and opens no new ones. */
  ghost predicate Advances(nodes: seq<Node>, config: Config, after: Config)
    requires config.node.Some? && after.node.Some?
  {
    && (forall visit :: Ahead(nodes, after, visit) ==> Ahead(nodes, config, visit))
    && !Ahead(nodes, after, VisitOf(nodes, config))
  }

  // ----- the steps ------------------------------------------------------------------------------

  /** An edge leads into no group from above. */
  lemma EdgeLeadsOutside(context: Context, nodes: seq<Node>, from: NodeId, to: NodeId)
    requires Fits(context, nodes) && from < |nodes| && HasEdge(nodes[from], to)
    ensures forall group: NodeId :: group < from && nodes[group].GroupNode? && nodes[group].join.Some? ==>
              !(nodes[group].join.value <= to < group)
  {
    assert SealedNode(nodes, from);
    forall group: NodeId | group < from && nodes[group].GroupNode? && nodes[group].join.Some?
      ensures !(nodes[group].join.value <= to < group)
    {
      assert nodes[..from][group] == nodes[group];
    }
  }

  lemma EdgeStaysCovered(context: Context, nodes: seq<Node>, frames: seq<Frame>, from: NodeId, to: NodeId)
    requires Fits(context, nodes) && Covered(nodes, frames, from)
    requires from < |nodes| && !nodes[from].GroupNode? && HasEdge(nodes[from], to)
    ensures Covered(nodes, frames, to)
  {
    assert NodeFits(context, nodes, from, 1, 0);
    EdgeLeadsOutside(context, nodes, from, to);
  }

  /** An edge from inside the current branch stays in it or leads to the join. */
  lemma EdgeStaysStacked(context: Context, nodes: seq<Node>, frames: seq<Frame>, from: NodeId, to: NodeId)
    requires Fits(context, nodes) && FramesNest(nodes, frames) && Stacked(nodes, frames, from)
    requires from < |nodes| && HasEdge(nodes[from], to)
    requires frames != [] ==> from != Top(frames).join
    ensures Stacked(nodes, frames, to) && to < from
    ensures frames != [] ==> to == Top(frames).join || Floor(nodes, Top(frames)) < to
  {
    assert NodeFits(context, nodes, from, 1, 0);
    if frames != [] {
      BranchInterval(context, nodes, Top(frames));
    }
  }

  lemma MoveAdvances(context: Context, nodes: seq<Node>, config: Config, to: NodeId, after: RunState)
    requires Fits(context, nodes) && Placed(nodes, config) && config.status.Running?
    requires HasEdge(nodes[config.node.value], to) && !nodes[config.node.value].GroupNode? && !AtTopJoin(config)
    ensures Placed(nodes, config.MoveTo(Some(to), after)) && Advances(nodes, config, config.MoveTo(Some(to), after))
  {
    var id, frames, moved := config.node.value, config.frames, config.MoveTo(Some(to), after);
    EdgeStaysCovered(context, nodes, frames, id, to);
    EdgeStaysStacked(context, nodes, frames, id, to);
    MoveKeepsInvariant(context, nodes, config, to, after);
    if frames != [] {
      BranchInterval(context, nodes, Top(frames));
    }
    NotAhead(context, nodes, frames, to, VisitOf(nodes, config), id);
    forall visit | Ahead(nodes, moved, visit)
      ensures Ahead(nodes, config, visit)
    {
      if AheadIn(nodes, frames, to, visit) {
        AheadGrows(nodes, frames, to, id, visit);
      }
    }
  }

  lemma RetryAdvances(context: Context, nodes: seq<Node>, config: Config, after: RunState)
    requires Fits(context, nodes) && Placed(nodes, config) && config.status.Running?
    requires nodes[config.node.value].CommandNode?
    requires config.attempt < nodes[config.node.value].retry.maximumRetries
    ensures var retried := config.(attempt := config.attempt + 1, state := after);
            Placed(nodes, retried) && Advances(nodes, config, retried)
  {
    var id, frames := config.node.value, config.frames;
    if frames != [] {
      assert NodeFits(context, nodes, Top(frames).group, 1, 0);
      BranchInterval(context, nodes, Top(frames));
    }
    NotAhead(context, nodes, frames, id, VisitOf(nodes, config), id);
  }

  function Stopped(config: Config, after: RunState): Config
    requires config.frames != []
  {
    var top := Top(config.frames);
    Config(Running, Some(top.join), Pop(config.frames) + [top.(failed := true)], 0, after)
  }

  lemma StopAdvances(context: Context, nodes: seq<Node>, config: Config, after: RunState)
    requires Fits(context, nodes) && Placed(nodes, config) && config.status.Running?
    requires config.frames != [] && !AtTopJoin(config)
    ensures Placed(nodes, Stopped(config, after)) && Advances(nodes, config, Stopped(config, after))
  {
    var frames, stopped := config.frames, Stopped(config, after);
    assert Pop(stopped.frames) == Pop(frames) && Top(stopped.frames) == Top(frames).(failed := true);
    assert forall i :: 0 <= i < |frames| - 1 ==> stopped.frames[i] == frames[i];
    assert FrameFits(nodes, Top(frames));
    StopStaysCovered(context, nodes, config, after);
    StopLooksAhead(context, nodes, config, after);
  }

  lemma StopLooksAhead(context: Context, nodes: seq<Node>, config: Config, after: RunState)
    requires Fits(context, nodes) && Placed(nodes, config) && config.status.Running?
    requires config.frames != [] && !AtTopJoin(config)
    ensures Advances(nodes, config, Stopped(config, after))
  {
    var id, frames, stopped := config.node.value, config.frames, Stopped(config, after);
    var top := Top(frames);
    assert Pop(stopped.frames) == Pop(frames) && Top(stopped.frames) == top.(failed := true);
    BranchInterval(context, nodes, top);
    NotAhead(context, nodes, frames, top.join, VisitOf(nodes, config), id);
    forall visit
      ensures Ahead(nodes, stopped, visit) ==> Ahead(nodes, config, visit) && visit != VisitOf(nodes, config)
    {
      assert AheadIn(nodes, stopped.frames, top.join, visit) <==> AheadIn(nodes, frames, top.join, visit);
      if AheadIn(nodes, frames, top.join, visit) {
        AheadGrows(nodes, frames, top.join, id, visit);
      }
    }
  }

  lemma StopStaysCovered(context: Context, nodes: seq<Node>, config: Config, after: RunState)
    requires Fits(context, nodes) && Placed(nodes, config) && config.status.Running?
    requires config.frames != [] && !AtTopJoin(config)
    ensures Covered(nodes, Stopped(config, after).frames, Top(config.frames).join)
  {
    var id, frames, stopped := config.node.value, config.frames, Stopped(config, after).frames;
    var top := Top(frames);
    assert NodeFits(context, nodes, top.group, 1, 0);
    forall group: NodeId | group < |nodes| && nodes[group].GroupNode? && nodes[group].join.Some?
                           && nodes[group].join.value <= top.join < group
      ensures HasFrame(stopped, group)
    {
      if group <= id {
        assert HasEdge(nodes[group], nodes[group].join.value);
        assert false;
      }
      var k :| 0 <= k < |frames| && frames[k].group == group;
      assert stopped[k].group == group;
    }
  }

  lemma EnterAdvances(context: Context, nodes: seq<Node>, config: Config)
    requires Fits(context, nodes) && Placed(nodes, config) && config.status.Running?
    requires nodes[config.node.value].GroupNode? && !AtTopJoin(config)
    ensures var node := nodes[config.node.value];
            var entered := EnterGroup(config, config.node.value, node.kind, node.branches, node.join);
            entered.node.Some? && Placed(nodes, entered) && Advances(nodes, config, entered)
  {
    EnterKeepsInvariant(context, nodes, config);
    EnteredStacked(context, nodes, config);
    EnteredCovered(context, nodes, config);
    EnterLooksAhead(context, nodes, config);
  }

  lemma EnterLooksAhead(context: Context, nodes: seq<Node>, config: Config)
    requires Fits(context, nodes) && Placed(nodes, config) && config.status.Running?
    requires nodes[config.node.value].GroupNode? && !AtTopJoin(config)
    ensures var node := nodes[config.node.value];
            var entered := EnterGroup(config, config.node.value, node.kind, node.branches, node.join);
            entered.node.Some? && Advances(nodes, config, entered)
  {
    var id, node, frames := config.node.value, nodes[config.node.value], config.frames;
    EnteredFrame(context, nodes, id);
    EnteredStacked(context, nodes, config);
    var entered := EnterGroup(config, id, node.kind, node.branches, node.join);
    var top := Top(entered.frames);
    assert Pop(entered.frames) == frames;
    BranchInterval(context, nodes, top);
    NotAhead(context, nodes, frames, top.join, VisitOf(nodes, config), id);
    forall visit
      ensures Ahead(nodes, entered, visit) ==> Ahead(nodes, config, visit) && visit != VisitOf(nodes, config)
    {
      NewFrameAhead(nodes, config, entered, visit);
    }
  }

  /** What lies ahead inside a group lies ahead of the group. */
  lemma NewFrameAhead(nodes: seq<Node>, config: Config, entered: Config, visit: Visit)
    requires config.node.Some? && entered.node.Some? && entered.frames != [] && !AtTopJoin(config)
    requires Pop(entered.frames) == config.frames && Top(entered.frames).group == config.node.value
    requires var top := Top(entered.frames);
             && Floor(nodes, top) == top.join
             && top.join <= entered.node.value < config.node.value && top.join <= Cap(nodes, top) < config.node.value
             && (entered.node.value == top.join || entered.node.value == Cap(nodes, top))
             && (config.frames != [] ==> Floor(nodes, Top(config.frames)) < top.join)
             && !AheadIn(nodes, config.frames, top.join, VisitOf(nodes, config))
    ensures Ahead(nodes, entered, visit) ==> Ahead(nodes, config, visit) && visit != VisitOf(nodes, config)
  {
    var top := Top(entered.frames);
    if AheadIn(nodes, config.frames, top.join, visit) {
      AheadGrows(nodes, config.frames, top.join, config.node.value, visit);
    }
  }

  /** The first branch lies directly above the join. */
  lemma FirstBranch(context: Context, nodes: seq<Node>, frame: Frame)
    requires Fits(context, nodes) && FrameFits(nodes, frame) && Stacks(nodes, frame) && Index(nodes, frame) == 0
    ensures var entry := BranchesAt(nodes, frame.group)[0];
            && Floor(nodes, frame) == frame.join
            && (entry == frame.join || Floor(nodes, frame) < entry == Cap(nodes, frame))
  {
    var branches := BranchesAt(nodes, frame.group);
    assert SealedNode(nodes, frame.group);
    assert branches[..0] == [] && branches[..1] == [branches[0]] && [branches[0]][1..] == [];
    FenceOfBranch(nodes, frame.join, branches, frame.join, 0);
  }

  /** The join of a group that is entered lies in the current branch. */
  lemma EnteredJoinStacked(context: Context, nodes: seq<Node>, config: Config)
    requires Fits(context, nodes) && Placed(nodes, config) && config.status.Running?
    requires nodes[config.node.value].GroupNode? && !AtTopJoin(config)
    ensures var join := nodes[config.node.value].join;
            && join.Some? && Stacked(nodes, config.frames, join.value)
            && (config.frames != [] ==>
                  Top(config.frames).join <= Floor(nodes, Top(config.frames)) < join.value)
  {
    var id, node, frames := config.node.value, nodes[config.node.value], config.frames;
    assert NodeFits(context, nodes, id, 1, 0);
    assert HasEdge(node, node.join.value);
    EdgeStaysStacked(context, nodes, frames, id, node.join.value);
    if frames != [] {
      BranchInterval(context, nodes, Top(frames));
      assert NodeFits(context, nodes, Top(frames).group, 1, 0);
    }
  }

  lemma EnteredStacked(context: Context, nodes: seq<Node>, config: Config)
    requires Fits(context, nodes) && Placed(nodes, config) && config.status.Running?
    requires nodes[config.node.value].GroupNode? && !AtTopJoin(config)
    ensures var node := nodes[config.node.value];
            var entered := EnterGroup(config, config.node.value, node.kind, node.branches, node.join);
            && entered.node.Some? && entered.frames != [] && Stacked(nodes, entered.frames, entered.node.value)
            && Floor(nodes, Top(entered.frames)) == Top(entered.frames).join
            && (entered.node.value == Top(entered.frames).join || entered.node.value == Cap(nodes, Top(entered.frames)))
            && (config.frames != [] ==>
                  Top(config.frames).join <= Floor(nodes, Top(config.frames)) < Top(entered.frames).join)
  {
    var id, node := config.node.value, nodes[config.node.value];
    EnteredFrame(context, nodes, id);
    EnteredJoinStacked(context, nodes, config);
    var top := Frame(id, node.kind, node.join.value, node.branches[1..], false);
    FirstBranch(context, nodes, top);
    var entered := EnterGroup(config, id, node.kind, node.branches, node.join);
    assert Pop(entered.frames) == config.frames && Top(entered.frames) == top;
  }

  /** The frame with which a group is entered. */
  lemma EnteredFrame(context: Context, nodes: seq<Node>, id: NodeId)
    requires Fits(context, nodes) && id < |nodes| && nodes[id].GroupNode?
    ensures nodes[id].join.Some? && nodes[id].branches != []
    ensures var frame := Frame(id, nodes[id].kind, nodes[id].join.value, nodes[id].branches[1..], false);
            FrameFits(nodes, frame) && Stacks(nodes, frame) && Index(nodes, frame) == 0
  {
    assert NodeFits(context, nodes, id, 1, 0);
    assert forall i :: 0 <= i < |nodes[id].branches| - 1 ==> nodes[id].branches[1..][i] == nodes[id].branches[i + 1];
  }

  lemma EnteredCovered(context: Context, nodes: seq<Node>, config: Config)
    requires Fits(context, nodes) && Placed(nodes, config) && config.status.Running?
    requires nodes[config.node.value].GroupNode? && !AtTopJoin(config)
    ensures var node := nodes[config.node.value];
            var entered := EnterGroup(config, config.node.value, node.kind, node.branches, node.join);
            entered.node.Some? && Covered(nodes, entered.frames, entered.node.value)
  {
    var id, node := config.node.value, nodes[config.node.value];
    assert NodeFits(context, nodes, id, 1, 0) && SealedNode(nodes, id);
    var entered := EnterGroup(config, id, node.kind, node.branches, node.join);
    assert HasEdge(node, node.branches[0]);
    EdgeLeadsOutside(context, nodes, id, node.branches[0]);
    forall group: NodeId | group < |nodes| && nodes[group].GroupNode? && nodes[group].join.Some?
                           && nodes[group].join.value <= node.branches[0] < group
      ensures HasFrame(entered.frames, group)
    {
      if group == id {
        assert entered.frames[|config.frames|].group == group;
      } else {
        var k :| 0 <= k < |config.frames| && config.frames[k].group == group;
        assert entered.frames[k].group == group;
      }
    }
  }

  /** The join of the innermost group lies in the current branch of the next one. */
  lemma JoinStacked(context: Context, nodes: seq<Node>, frames: seq<Frame>)
    requires Fits(context, nodes) && FramesNest(nodes, frames) && frames != []
    requires Stacked(nodes, frames, Top(frames).join)
    ensures Stacked(nodes, Pop(frames), Top(frames).join)
    ensures var outer := Pop(frames);
            && (forall i :: 0 <= i < |outer| ==> outer[i] == frames[i])
            && FramesNest(nodes, outer)
            && (outer != [] ==> Top(outer).join < Top(frames).join && Top(frames).group <= Cap(nodes, Top(outer)))
  {
    var top, outer := Top(frames), Pop(frames);
    assert forall i :: 0 <= i < |outer| ==> outer[i] == frames[i];
    assert HasEdge(nodes[top.group], top.join);
    if outer != [] {
      assert Top(outer) == frames[|frames| - 2];
    }
    EdgeStaysStacked(context, nodes, outer, top.group, top.join);
  }

  lemma LeaveAdvances(context: Context, nodes: seq<Node>, config: Config, next: NodeId)
    requires Fits(context, nodes) && Placed(nodes, config) && config.status.Running?
    requires AtTopJoin(config) && nodes[config.node.value] == JoinNode(Some(next))
    ensures var left := config.(node := Some(next), frames := Pop(config.frames));
            Placed(nodes, left) && Advances(nodes, config, left)
  {
    var id, frames, outer, top := config.node.value, config.frames, Pop(config.frames), Top(config.frames);
    var left := config.(node := Some(next), frames := outer);
    assert HasEdge(nodes[id], next);
    JoinStacked(context, nodes, frames);
    EdgeStaysStacked(context, nodes, outer, id, next);
    LeftCovered(context, nodes, config, next);
    if outer != [] {
      BranchInterval(context, nodes, Top(outer));
    }
    NotAhead(context, nodes, outer, next, VisitOf(nodes, config), next);
    forall visit | Ahead(nodes, left, visit)
      ensures Ahead(nodes, config, visit)
    {
      if AheadIn(nodes, outer, next, visit) {
        AheadGrows(nodes, outer, next, id, visit);
      }
    }
  }

  lemma LeftCovered(context: Context, nodes: seq<Node>, config: Config, next: NodeId)
    requires Fits(context, nodes) && Placed(nodes, config) && config.status.Running?
    requires AtTopJoin(config) && nodes[config.node.value] == JoinNode(Some(next))
    ensures Covered(nodes, Pop(config.frames), next)
  {
    var id, frames, outer := config.node.value, config.frames, Pop(config.frames);
    assert HasEdge(nodes[id], next);
    assert NodeFits(context, nodes, id, 1, 0);
    EdgeStaysCovered(context, nodes, frames, id, next);
    forall group: NodeId | group < |nodes| && nodes[group].GroupNode? && nodes[group].join.Some?
                           && nodes[group].join.value <= next < group
      ensures HasFrame(outer, group)
    {
      var k :| 0 <= k < |frames| && frames[k].group == group;
      assert outer[k].group == group;
    }
  }

  lemma ResumeAdvances(context: Context, nodes: seq<Node>, config: Config)
    requires Fits(context, nodes) && Placed(nodes, config) && config.status.Running? && config.attempt == 0
    requires AtTopJoin(config) && Top(config.frames).remaining != []
    requires Invariant(nodes, Resumed(config))
    ensures Placed(nodes, Resumed(config)) && Advances(nodes, config, Resumed(config))
  {
    ResumedStacked(context, nodes, config);
    ResumedCovered(context, nodes, config);
    ResumeLooksAhead(context, nodes, config);
  }

  lemma ResumeLooksAhead(context: Context, nodes: seq<Node>, config: Config)
    requires Fits(context, nodes) && Placed(nodes, config) && config.status.Running?
    requires AtTopJoin(config) && Top(config.frames).remaining != []
    requires Invariant(nodes, Resumed(config))
    ensures Advances(nodes, config, Resumed(config))
  {
    var outer, top, resumed := Pop(config.frames), Top(config.frames), Resumed(config);
    ResumedStacked(context, nodes, config);
    JoinStacked(context, nodes, config.frames);
    BranchInterval(context, nodes, top);
    NotAhead(context, nodes, outer, top.join, VisitOf(nodes, config), top.group);
    forall visit
      ensures Ahead(nodes, resumed, visit) ==> Ahead(nodes, config, visit) && visit != VisitOf(nodes, config)
    {
      NextBranchAhead(nodes, config, resumed, visit);
    }
  }

  /** The next branch lies on top of the current one. */
  lemma ResumedStacked(context: Context, nodes: seq<Node>, config: Config)
    requires Fits(context, nodes) && Placed(nodes, config) && config.status.Running?
    requires AtTopJoin(config) && Top(config.frames).remaining != []
    requires Invariant(nodes, Resumed(config))
    ensures var resumed, top := Resumed(config), Top(config.frames);
            var next := Top(resumed.frames);
            && Pop(resumed.frames) == Pop(config.frames)
            && Stacked(nodes, resumed.frames, resumed.node.value)
            && Index(nodes, next) == Index(nodes, top) + 1
            && Floor(nodes, next) == Cap(nodes, top) <= Cap(nodes, next) < top.group
            && (resumed.node.value == top.join || Cap(nodes, top) < resumed.node.value == Cap(nodes, next))
  {
    var top, resumed := Top(config.frames), Resumed(config);
    var branches, index := BranchesAt(nodes, top.group), Index(nodes, top);
    assert Pop(resumed.frames) == Pop(config.frames);
    assert top.remaining[0] == branches[index + 1] && SealedNode(nodes, top.group);
    FenceOfBranch(nodes, top.join, branches, top.join, index + 1);
    assert Floor(nodes, Top(resumed.frames)) == Cap(nodes, top);
    BranchInterval(context, nodes, Top(resumed.frames));
  }

  /** What lies ahead in the next branch lay ahead before. */
  lemma NextBranchAhead(nodes: seq<Node>, config: Config, resumed: Config, visit: Visit)
    requires config.node.Some? && resumed.node.Some? && AtTopJoin(config) && resumed.frames != []
    requires Pop(resumed.frames) == Pop(config.frames)
    requires var top, next := Top(config.frames), Top(resumed.frames);
             && next.group == top.group && next.join == top.join && Index(nodes, next) == Index(nodes, top) + 1
             && top.join <= Floor(nodes, next) == Cap(nodes, top) <= Cap(nodes, next) < top.group
             && (resumed.node.value == top.join || Cap(nodes, top) < resumed.node.value == Cap(nodes, next))
             && !AheadIn(nodes, Pop(config.frames), top.join, VisitOf(nodes, config))
    ensures Ahead(nodes, resumed, visit) ==> Ahead(nodes, config, visit) && visit != VisitOf(nodes, config)
  {
  }

  function Resumed(config: Config): Config
    requires config.frames != [] && Top(config.frames).remaining != []
  {
    var top := Top(config.frames);
    config.(node := Some(top.remaining[0]),
            frames := Pop(config.frames) + [top.(remaining := top.remaining[1..], failed := false)])
  }

  lemma ResumedCovered(context: Context, nodes: seq<Node>, config: Config)
    requires Fits(context, nodes) && Placed(nodes, config) && config.status.Running?
    requires AtTopJoin(config) && Top(config.frames).remaining != []
    ensures Covered(nodes, Resumed(config).frames, Resumed(config).node.value)
  {
    var frames, resumed, top := config.frames, Resumed(config), Top(config.frames);
    var entry := resumed.node.value;
    var branches := BranchesAt(nodes, top.group);
    assert NodeFits(context, nodes, top.group, 1, 0) && SealedNode(nodes, top.group);
    assert entry == branches[Index(nodes, top) + 1];
    assert HasEdge(nodes[top.group], entry) && HasEdge(nodes[top.group], top.join);
    EdgeLeadsOutside(context, nodes, top.group, entry);
    forall group: NodeId | group < |nodes| && nodes[group].GroupNode? && nodes[group].join.Some?
                           && nodes[group].join.value <= entry < group
      ensures HasFrame(resumed.frames, group)
    {
      if group == top.group {
        assert resumed.frames[|frames| - 1].group == group;
      } else {
        assert NodeFits(context, nodes, group, 1, 0);
        var k :| 0 <= k < |frames| && frames[k].group == group;
        assert resumed.frames[k].group == group;
      }
    }
  }

  lemma FailureAdvances(context: Context, nodes: seq<Node>, config: Config, policy: PlanPolicy, next: NodeId,
                        after: RunState)
    requires Fits(context, nodes) && Placed(nodes, config) && config.status.Running?
    requires HasEdge(nodes[config.node.value], next) && !nodes[config.node.value].GroupNode? && !AtTopJoin(config)
    requires policy.FallBackTo? ==> policy.entry.Some? && HasEdge(nodes[config.node.value], policy.entry.value)
    ensures var failed := ApplyFailure(config, policy, Some(next), after);
            failed.status.Running? ==>
              failed.node.Some? && Placed(nodes, failed) && Advances(nodes, config, failed)
  {
    match policy
    case CarryOn => MoveAdvances(context, nodes, config, next, after);
    case FallBackTo(entry) => MoveAdvances(context, nodes, config, entry.value, after);
    case StopTheBranch =>
      if config.frames != [] {
        StopAdvances(context, nodes, config, after);
      }
    case StopTheRun =>
  }

  lemma CommandAdvances(context: Context, nodes: seq<Node>, config: Config)
    requires Fits(context, nodes) && Placed(nodes, config) && config.status.Running?
    requires nodes[config.node.value].CommandNode? && EdgesPresent(nodes[config.node.value]) && !AtTopJoin(config)
    ensures var after := StepCommand(config, config.node.value, nodes[config.node.value]);
            after.status.Running? ==> after.node.Some? && Placed(nodes, after) && Advances(nodes, config, after)
  {
    var id, node := config.node.value, nodes[config.node.value];
    if !config.state.Starved() {
      var outcome := config.state.Read().outcome;
      var after := config.state.Consume(Attempted(id, node.targets, node.payload, config.attempt, outcome));
      if outcome.state == CommandState.Confirmed {
        MoveAdvances(context, nodes, config, node.next.value, after);
      } else if MayRetry(node.retry, config.attempt, outcome) {
        RetryAdvances(context, nodes, config, after);
      } else {
        FailureAdvances(context, nodes, config, node.onFailure, node.next.value, after);
      }
    }
  }

  lemma WaitAdvances(registry: Registry, context: Context, nodes: seq<Node>, config: Config)
    requires Fits(context, nodes) && Placed(nodes, config) && config.status.Running?
    requires nodes[config.node.value].WaitNode? && EdgesPresent(nodes[config.node.value]) && !AtTopJoin(config)
    ensures var after := Step(registry, nodes, config);
            after.status.Running? ==> after.node.Some? && Placed(nodes, after) && Advances(nodes, config, after)
  {
    var id, node, state := config.node.value, nodes[config.node.value], config.state;
    if !state.Starved() {
      var result := EvaluateCondition(registry, node.condition, state.variables, state.Read());
      if result == Ok(true) {
        MoveAdvances(context, nodes, config, node.next.value, state.Consume(Waited(id, true)));
      } else if result == Ok(false) {
        FailureAdvances(context, nodes, config, node.onTimeout, node.next.value, state.Consume(Waited(id, false)));
      }
    }
  }

  lemma DecisionAdvances(registry: Registry, context: Context, nodes: seq<Node>, config: Config)
    requires Fits(context, nodes) && Placed(nodes, config) && config.status.Running?
    requires nodes[config.node.value].BranchNode? || nodes[config.node.value].SetVariableNode?
    requires EdgesPresent(nodes[config.node.value]) && !AtTopJoin(config)
    ensures var after := Step(registry, nodes, config);
            after.status.Running? ==> after.node.Some? && Placed(nodes, after) && Advances(nodes, config, after)
  {
    var after, node := Step(registry, nodes, config), nodes[config.node.value];
    if after.status.Running? {
      assert after == config.MoveTo(after.node, after.state) && after.node.Some?;
      assert HasEdge(node, after.node.value);
      MoveAdvances(context, nodes, config, after.node.value, after.state);
    }
  }

  lemma JoinAdvances(context: Context, nodes: seq<Node>, config: Config, next: NodeId)
    requires Fits(context, nodes) && Placed(nodes, config) && config.status.Running?
    requires nodes[config.node.value] == JoinNode(Some(next))
    ensures var after := StepJoin(config, config.node.value, Some(next));
            after.status.Running? ==> after.node.Some? && Placed(nodes, after) && Advances(nodes, config, after)
  {
    var after := StepJoin(config, config.node.value, Some(next));
    assert HasEdge(nodes[config.node.value], next);
    JoinKeepsInvariant(context, nodes, config, next);
    if !AtTopJoin(config) {
      MoveAdvances(context, nodes, config, next, config.state);
    } else {
      LeaveAdvances(context, nodes, config, next);
      if Top(config.frames).remaining != [] && after == Resumed(config) {
        ResumeAdvances(context, nodes, config);
      }
    }
  }

  /** Every step of a run leaves its visit behind for good. */
  lemma StepAdvances(registry: Registry, context: Context, nodes: seq<Node>, config: Config)
    requires Fits(context, nodes) && Placed(nodes, config) && config.status.Running?
    requires Step(registry, nodes, config).status.Running?
    ensures var after := Step(registry, nodes, config);
            after.node.Some? && Placed(nodes, after) && Advances(nodes, config, after)
  {
    var id := config.node.value;
    assert id > 0 ==> NodeFits(context, nodes, id, 1, 0);
    if config.frames != [] {
      assert NodeFits(context, nodes, Top(config.frames).group, 1, 0);
    }
    match nodes[id]
    case JoinNode(next) => JoinAdvances(context, nodes, config, next.value);
    case GroupNode(_, _, _) => EnterAdvances(context, nodes, config);
    case CommandNode(_, _, _, _, _) => CommandAdvances(context, nodes, config);
    case DelayNode(durationMs, next) =>
      MoveAdvances(context, nodes, config, next.value, config.state.Trace(Delayed(id, durationMs)));
    case Complete =>
    case WaitNode(_, _, _, _) => WaitAdvances(registry, context, nodes, config);
    case _ => DecisionAdvances(registry, context, nodes, config);
  }

  // ----- whole runs --------------------------------------------------------------------------

  lemma CompiledPlanPlaces(registry: Registry, document: Document, inputs: seq<Reading>)
    requires Compile(registry, document).Ok?
    ensures var plan := Compile(registry, document).value;
            Fits(ContextOf(registry, document), plan.nodes) && Placed(plan.nodes, Start(plan, inputs))
  {
    var plan := Compile(registry, document).value;
    CompiledPlanFits(registry, document);
    EntryInPlan(registry, document);
    ListSealed(ContextOf(registry, document), Normalize(document.actions), [Complete], 0, 1);
  }

  /** A run that is still going after some steps was going before. */
  lemma WasRunning(registry: Registry, nodes: seq<Node>, config: Config, steps: nat)
    requires Iterate(registry, nodes, config, steps).status.Running?
    ensures config.status.Running?
    ensures steps > 0 ==> Step(registry, nodes, config).status.Running?
  {
    if !config.status.Running? {
      StoppedStays(registry, nodes, config, steps);
    } else if steps > 0 && !Step(registry, nodes, config).status.Running? {
      StoppedStays(registry, nodes, Step(registry, nodes, config), steps - 1);
    }
  }

  /** What is ahead after a step was ahead before it, and is not what the step left behind. */
  lemma AheadBefore(registry: Registry, context: Context, nodes: seq<Node>, config: Config, visit: Visit)
    requires Fits(context, nodes) && Placed(nodes, config) && config.status.Running?
    requires var after := Step(registry, nodes, config);
             after.status.Running? && after.node.Some? && Ahead(nodes, after, visit)
    ensures config.node.Some? && Ahead(nodes, config, visit) && visit != VisitOf(nodes, config)
  {
    StepAdvances(registry, context, nodes, config);
  }

  lemma StepStaysPlaced(registry: Registry, context: Context, nodes: seq<Node>, config: Config)
    requires Fits(context, nodes) && Placed(nodes, config) && config.status.Running?
    requires Step(registry, nodes, config).status.Running?
    ensures Placed(nodes, Step(registry, nodes, config)) && Step(registry, nodes, config).node.Some?
  {
    StepAdvances(registry, context, nodes, config);
  }

  lemma {:induction false} RunStaysPlaced(registry: Registry, context: Context, nodes: seq<Node>, config: Config,
                                          steps: nat)
    requires Fits(context, nodes) && Placed(nodes, config)
    requires Iterate(registry, nodes, config, steps).status.Running?
    ensures Placed(nodes, Iterate(registry, nodes, config, steps))
    decreases steps
  {
    if steps > 0 {
      var after := FirstStepStaysPlaced(registry, context, nodes, config, steps);
      RunStaysPlaced(registry, context, nodes, after, steps - 1);
    }
  }

  lemma FirstStepStaysPlaced(registry: Registry, context: Context, nodes: seq<Node>, config: Config, steps: nat)
    returns (after: Config)
    requires Fits(context, nodes) && Placed(nodes, config) && steps > 0
    requires Iterate(registry, nodes, config, steps).status.Running?
    ensures Placed(nodes, after)
    ensures Iterate(registry, nodes, config, steps) == Iterate(registry, nodes, after, steps - 1)
  {
    WasRunning(registry, nodes, config, steps);
    after := Step(registry, nodes, config);
    assert Iterate(registry, nodes, config, steps) == Iterate(registry, nodes, after, steps - 1);
    StepStaysPlaced(registry, context, nodes, config);
  }

  /** The node is the join of a group. */
  ghost predicate JoinsGroup(nodes: seq<Node>, node: NodeId) {
    exists group: NodeId :: IsJoinOf(nodes, group, node)
  }

  predicate IsJoinOf(nodes: seq<Node>, group: NodeId, node: NodeId) {
    group < |nodes| && nodes[group].GroupNode? && nodes[group].join == Some(node)
  }

  /** At the join of a group a run is inside that group. */
  lemma AtJoinInsideGroup(context: Context, nodes: seq<Node>, config: Config, group: NodeId)
    requires Fits(context, nodes) && Placed(nodes, config) && config.status.Running?
    requires IsJoinOf(nodes, group, config.node.value)
    ensures config.frames != [] && Top(config.frames).group == group && AtTopJoin(config)
  {
    assert NodeFits(context, nodes, group, 1, 0);
    assert HasFrame(config.frames, group);
  }

  /** Run and document under which arrivals are counted. */
  function At(registry: Registry, plan: Plan, inputs: seq<Reading>, time: nat): Config {
    Iterate(registry, plan.nodes, Start(plan, inputs), time)
  }

  predicate Arrives(registry: Registry, plan: Plan, inputs: seq<Reading>, time: nat) {
    At(registry, plan, inputs, time).status.Running? && At(registry, plan, inputs, time).attempt == 0
  }

  /** Moments before `steps` at which the run enters the node. */
  function Arrivals(registry: Registry, plan: Plan, inputs: seq<Reading>, node: NodeId, steps: nat): set<nat> {
    set time: nat | time < steps && Arrives(registry, plan, inputs, time)
                    && At(registry, plan, inputs, time).node == Some(node)
  }

  /** Moments before `steps` at which the run enters any node. */
  function AllArrivals(registry: Registry, plan: Plan, inputs: seq<Reading>, steps: nat): set<nat> {
    set time: nat | time < steps && Arrives(registry, plan, inputs, time)
  }

  /** A moment of a run that is still going is placed, and so were those before it. */
  lemma MomentPlaced(registry: Registry, document: Document, inputs: seq<Reading>, time: nat, later: nat)
    requires Compile(registry, document).Ok? && time <= later
    requires At(registry, Compile(registry, document).value, inputs, later).status.Running?
    ensures var plan := Compile(registry, document).value;
            var config := At(registry, plan, inputs, time);
            && config.status.Running? && config.node.Some? && Placed(plan.nodes, config)
            && Fits(ContextOf(registry, document), plan.nodes)
            && (time < later ==> At(registry, plan, inputs, time + 1) == Step(registry, plan.nodes, config))
  {
    var plan := Compile(registry, document).value;
    var start := Start(plan, inputs);
    CompiledPlanPlaces(registry, document, inputs);
    IterateAdds(registry, plan.nodes, start, time, later - time);
    WasRunning(registry, plan.nodes, At(registry, plan, inputs, time), later - time);
    RunStaysPlaced(registry, ContextOf(registry, document), plan.nodes, start, time);
    IterateAdds(registry, plan.nodes, start, time, 1);
    var config := At(registry, plan, inputs, time);
    assert Iterate(registry, plan.nodes, config, 1) == Step(registry, plan.nodes, config);
  }

  /** What is ahead at some moment was ahead at every moment before, and was never visited before. */
  lemma {:induction false} AheadAllAlong(registry: Registry, document: Document, inputs: seq<Reading>, first: nat,
                                         second: nat, visit: Visit)
    requires Compile(registry, document).Ok? && first <= second
    requires var plan := Compile(registry, document).value;
             var later := At(registry, plan, inputs, second);
             later.status.Running? && later.node.Some? && Ahead(plan.nodes, later, visit)
    ensures var plan := Compile(registry, document).value;
            var earlier := At(registry, plan, inputs, first);
            && earlier.node.Some? && Ahead(plan.nodes, earlier, visit)
            && (first < second ==> visit != VisitOf(plan.nodes, earlier))
    decreases second - first
  {
    if first < second {
      AheadAllAlong(registry, document, inputs, first + 1, second, visit);
      AheadOneMoment(registry, document, inputs, first, second, visit);
    }
  }

  lemma AheadOneMoment(registry: Registry, document: Document, inputs: seq<Reading>, time: nat, later: nat,
                       visit: Visit)
    requires Compile(registry, document).Ok? && time < later
    requires At(registry, Compile(registry, document).value, inputs, later).status.Running?
    requires var plan := Compile(registry, document).value;
             var next := At(registry, plan, inputs, time + 1);
             next.node.Some? && Ahead(plan.nodes, next, visit)
    ensures var plan := Compile(registry, document).value;
            var config := At(registry, plan, inputs, time);
            config.node.Some? && Ahead(plan.nodes, config, visit) && visit != VisitOf(plan.nodes, config)
  {
    var plan := Compile(registry, document).value;
    MomentPlaced(registry, document, inputs, time, later);
    MomentPlaced(registry, document, inputs, time + 1, later);
    AheadBefore(registry, ContextOf(registry, document), plan.nodes, At(registry, plan, inputs, time), visit);
  }

  /** Different moments of a run have different visits. */
  lemma VisitsDiffer(registry: Registry, document: Document, inputs: seq<Reading>, first: nat, second: nat)
    requires Compile(registry, document).Ok? && first < second
    requires At(registry, Compile(registry, document).value, inputs, second).status.Running?
    ensures var plan := Compile(registry, document).value;
            var earlier, later := At(registry, plan, inputs, first), At(registry, plan, inputs, second);
            && earlier.status.Running? && earlier.node.Some? && later.node.Some?
            && VisitOf(plan.nodes, earlier) != VisitOf(plan.nodes, later)
  {
    var plan := Compile(registry, document).value;
    var later := At(registry, plan, inputs, second);
    MomentPlaced(registry, document, inputs, first, second);
    MomentPlaced(registry, document, inputs, second, second);
    OwnVisitIsAhead(plan.nodes, later);
    AheadAllAlong(registry, document, inputs, first, second, VisitOf(plan.nodes, later));
  }

  /** Where the visit of a moment can be. */
  ghost predicate VisitFits(nodes: seq<Node>, visit: Visit) {
    match visit
    case AtNode(node, attempt) => node < |nodes| && attempt <= RetriesAt(nodes, node)
    case AtJoin(group, branch) => group < |nodes| && 0 <= branch < |BranchesAt(nodes, group)|
  }

  function RetriesAt(nodes: seq<Node>, id: NodeId): nat {
    if id < |nodes| && nodes[id].CommandNode? then nodes[id].retry.maximumRetries else 0
  }

  lemma VisitOfRunFits(registry: Registry, document: Document, inputs: seq<Reading>, time: nat)
    requires Compile(registry, document).Ok?
    requires At(registry, Compile(registry, document).value, inputs, time).status.Running?
    ensures var plan := Compile(registry, document).value;
            var config := At(registry, plan, inputs, time);
            && config.node.Some? && Placed(plan.nodes, config)
            && VisitFits(plan.nodes, VisitOf(plan.nodes, config))
            && (VisitOf(plan.nodes, config).AtNode? ==> VisitOf(plan.nodes, config).attempt == config.attempt)
  {
    var plan := Compile(registry, document).value;
    MomentPlaced(registry, document, inputs, time, time);
    var config := At(registry, plan, inputs, time);
    if AtTopJoin(config) {
      assert Stacks(plan.nodes, Top(config.frames));
    }
  }

  // ----- counting ---------------------------------------------------------------------------

  function VisitAt(registry: Registry, plan: Plan, inputs: seq<Reading>, time: nat): Visit {
    var config := At(registry, plan, inputs, time);
    if config.node.Some? then VisitOf(plan.nodes, config) else AtNode(0, 0)
  }

  /** Moments of a run are at most as many as the visits they can have. */
  lemma {:induction false} CountedByVisits(registry: Registry, document: Document, inputs: seq<Reading>,
                                           times: set<nat>, visits: set<Visit>)
    requires Compile(registry, document).Ok?
    requires var plan := Compile(registry, document).value;
             forall time :: time in times ==>
               At(registry, plan, inputs, time).status.Running? && VisitAt(registry, plan, inputs, time) in visits
    ensures |times| <= |visits|
    decreases times
  {
    if times != {} {
      var plan := Compile(registry, document).value;
      var time :| time in times;
      var visit := VisitAt(registry, plan, inputs, time);
      forall other | other in times - {time}
        ensures VisitAt(registry, plan, inputs, other) in visits - {visit}
      {
        if other < time {
          VisitsDiffer(registry, document, inputs, other, time);
        } else {
          VisitsDiffer(registry, document, inputs, time, other);
        }
      }
      CountedByVisits(registry, document, inputs, times - {time}, visits - {visit});
    }
  }

  function JoinVisits(group: NodeId, branches: nat): (visits: set<Visit>)
    ensures |visits| <= branches
    ensures forall branch :: 0 <= branch < branches ==> AtJoin(group, branch) in visits
  {
    if branches == 0 then {} else JoinVisits(group, branches - 1) + {AtJoin(group, branches - 1)}
  }

  function NodeVisits(node: NodeId, retries: nat): (visits: set<Visit>)
    ensures |visits| <= 1 + retries
    ensures forall attempt :: 0 <= attempt <= retries ==> AtNode(node, attempt) in visits
  {
    if retries == 0 then {AtNode(node, 0)} else NodeVisits(node, retries - 1) + {AtNode(node, retries)}
  }

  /** Number of branches of all groups. */
  function BranchEntries(nodes: seq<Node>): nat {
    if nodes == [] then 0
    else BranchEntries(nodes[..|nodes| - 1]) + |BranchesAt(nodes, |nodes| - 1)|
  }

  /** Number of retries that all commands allow. */
  function RetryBudget(nodes: seq<Node>): nat {
    if nodes == [] then 0
    else RetryBudget(nodes[..|nodes| - 1]) + RetriesAt(nodes, |nodes| - 1)
  }

  /** All visits of a plan, with the retries of commands or without. */
  function PossibleVisits(nodes: seq<Node>, retried: bool): (visits: set<Visit>)
    ensures |visits| <= |nodes| + BranchEntries(nodes) + if retried then RetryBudget(nodes) else 0
  {
    if nodes == [] then {}
    else
      var last := |nodes| - 1;
      PossibleVisits(nodes[..last], retried) + NodeVisits(last, if retried then RetriesAt(nodes, last) else 0)
      + JoinVisits(last, |BranchesAt(nodes, last)|)
  }

  lemma {:induction false} FittingVisitIsPossible(nodes: seq<Node>, retried: bool, visit: Visit)
    requires VisitFits(nodes, visit) && (visit.AtNode? && !retried ==> visit.attempt == 0)
    ensures visit in PossibleVisits(nodes, retried)
    decreases |nodes|
  {
    if visit.Place() < |nodes| - 1 {
      FittingVisitIsPossible(nodes[..|nodes| - 1], retried, visit);
    }
  }

  /**
   * In every run of a compiled plan each node that is no group's join is
   * entered at most once, and the join of a group at most once per branch.
   */
  lemma NodeArrivals(registry: Registry, document: Document, inputs: seq<Reading>, node: NodeId, steps: nat)
    requires Compile(registry, document).Ok?
    ensures var plan := Compile(registry, document).value;
            var arrivals := |Arrivals(registry, plan, inputs, node, steps)|;
            && (!JoinsGroup(plan.nodes, node) ==> arrivals <= 1)
            && (forall group: NodeId :: IsJoinOf(plan.nodes, group, node) ==> arrivals <= |plan.nodes[group].branches|)
  {
    var plan := Compile(registry, document).value;
    if !JoinsGroup(plan.nodes, node) {
      OrdinaryArrivals(registry, document, inputs, node, steps);
    }
    forall group: NodeId | IsJoinOf(plan.nodes, group, node)
      ensures |Arrivals(registry, plan, inputs, node, steps)| <= |plan.nodes[group].branches|
    {
      JoinArrivals(registry, document, inputs, group, node, steps);
    }
  }

  lemma TopJoinJoinsGroup(nodes: seq<Node>, config: Config)
    requires Placed(nodes, config) && config.status.Running?
    ensures AtTopJoin(config) ==> JoinsGroup(nodes, config.node.value)
  {
    assert AtTopJoin(config) ==> IsJoinOf(nodes, Top(config.frames).group, config.node.value);
  }

  lemma OrdinaryArrivals(registry: Registry, document: Document, inputs: seq<Reading>, node: NodeId, steps: nat)
    requires Compile(registry, document).Ok? && !JoinsGroup(Compile(registry, document).value.nodes, node)
    ensures |Arrivals(registry, Compile(registry, document).value, inputs, node, steps)| <= 1
  {
    var plan := Compile(registry, document).value;
    var times := Arrivals(registry, plan, inputs, node, steps);
    forall time | time in times
      ensures VisitAt(registry, plan, inputs, time) in {AtNode(node, 0)}
    {
      VisitOfRunFits(registry, document, inputs, time);
      TopJoinJoinsGroup(plan.nodes, At(registry, plan, inputs, time));
    }
    CountedByVisits(registry, document, inputs, times, {AtNode(node, 0)});
  }

  lemma JoinArrivals(registry: Registry, document: Document, inputs: seq<Reading>, group: NodeId, node: NodeId,
                     steps: nat)
    requires Compile(registry, document).Ok? && IsJoinOf(Compile(registry, document).value.nodes, group, node)
    ensures var plan := Compile(registry, document).value;
            |Arrivals(registry, plan, inputs, node, steps)| <= |plan.nodes[group].branches|
  {
    var plan := Compile(registry, document).value;
    var times, visits := Arrivals(registry, plan, inputs, node, steps), JoinVisits(group, |plan.nodes[group].branches|);
    CompiledPlanPlaces(registry, document, inputs);
    forall time | time in times
      ensures VisitAt(registry, plan, inputs, time) in visits
    {
      VisitOfRunFits(registry, document, inputs, time);
      AtJoinInsideGroup(ContextOf(registry, document), plan.nodes, At(registry, plan, inputs, time), group);
    }
    CountedByVisits(registry, document, inputs, times, visits);
  }

  /** All entries of nodes together are bounded by the nodes of the plan and the branches of its groups. */
  lemma TotalArrivals(registry: Registry, document: Document, inputs: seq<Reading>, steps: nat)
    requires Compile(registry, document).Ok?
    ensures var plan := Compile(registry, document).value;
            |AllArrivals(registry, plan, inputs, steps)| <= |plan.nodes| + BranchEntries(plan.nodes)
  {
    var plan := Compile(registry, document).value;
    var times, visits := AllArrivals(registry, plan, inputs, steps), PossibleVisits(plan.nodes, false);
    forall time | time in times
      ensures VisitAt(registry, plan, inputs, time) in visits
    {
      VisitOfRunFits(registry, document, inputs, time);
      FittingVisitIsPossible(plan.nodes, false, VisitAt(registry, plan, inputs, time));
    }
    CountedByVisits(registry, document, inputs, times, visits);
  }

  function Before(steps: nat): (times: set<nat>)
    ensures |times| == steps
    ensures forall time: nat :: time in times <==> time < steps
  {
    if steps == 0 then {} else Before(steps - 1) + {steps - 1}
  }

  /** Every run has stopped after as many steps as the plan has nodes, branches and retries together. */
  lemma RunsAreShort(registry: Registry, document: Document, inputs: seq<Reading>, steps: nat)
    requires Compile(registry, document).Ok?
    requires var nodes := Compile(registry, document).value.nodes;
             steps >= |nodes| + BranchEntries(nodes) + RetryBudget(nodes)
    ensures !At(registry, Compile(registry, document).value, inputs, steps).status.Running?
  {
    var plan := Compile(registry, document).value;
    if At(registry, plan, inputs, steps).status.Running? {
      var times, visits := Before(steps + 1), PossibleVisits(plan.nodes, true);
      forall time | time in times
        ensures At(registry, plan, inputs, time).status.Running? && VisitAt(registry, plan, inputs, time) in visits
      {
        if time < steps {
          VisitsDiffer(registry, document, inputs, time, steps);
        }
        VisitOfRunFits(registry, document, inputs, time);
        FittingVisitIsPossible(plan.nodes, true, VisitAt(registry, plan, inputs, time));
      }
      CountedByVisits(registry, document, inputs, times, visits);
    }
  }
}
