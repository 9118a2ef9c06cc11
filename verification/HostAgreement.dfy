/**
 * The simulator compared with the plan machine. A simulation that keeps its
 * markers is the run of the machine, so the hosts differ only through dropped
 * markers: as long as no resumed branch gets through to its join they agree,
 * and a completed run agrees with its simulation only then.
 */
module HostAgreement {
  import opened Wrappers
  import opened Domain
  import opened Evaluator
  import opened Reduction
  import opened Lowering
  import opened PlanShape
  import opened Structured
  import opened PlanMachine
  import opened Compiler
  import opened CompilerCorrectness
  import opened PlanInvariant
  import opened Simulator

  // ----- one node of a simulation ----------------------------------------------------------

  /** What a simulation does at a node. */
  datatype Move =
    | Halts(flow: SimFlow)
    | Onward(next: Option<NodeId>)
    | Fails(policy: PlanPolicy, next: Option<NodeId>)
    | Opens(kind: GroupKind, branches: seq<NodeId>, join: Option<NodeId>)
  {
    predicate LeadsBelow(id: NodeId) {
      match this
      case Halts(_) => true
      case Onward(next) => Below(next, id)
      case Fails(policy, next) => Below(next, id) && PolicyBelow(policy, id)
      case Opens(_, branches, join) => Below(join, id) && forall i :: 0 <= i < |branches| ==> branches[i] < id
    }
  }

  function MoveFrom(registry: Registry, nodes: seq<Node>, id: NodeId, state: RunState): (moved: (Move, RunState))
    requires Descending(nodes) && id < |nodes|
    ensures moved.0.LeadsBelow(id)
  {
    assert LeadsDown(nodes[id], id);
    match nodes[id]
    case Complete => (Halts(Through), state.Trace(Finished(id)))
    case DelayNode(durationMs, next) => (Onward(next), state.Trace(Delayed(id, durationMs)))
    case JoinNode(next) => (Onward(next), state)
    case CommandNode(targets, payload, retry, onFailure, next) =>
      var (ended, after) := Attempts(targets, payload, retry, id, 0, state);
      AttemptsEndInAttempt(targets, payload, retry, id, 0, state);
      if !ended then (Halts(Exhausted), after)
      else if LastOutcome(after.log).state == CommandState.Confirmed then (Onward(next), after)
      else (Fails(onFailure, next), after)
    case WaitNode(condition, _, onTimeout, next) =>
      if state.Starved() then (Halts(Exhausted), state)
      else
        (match EvaluateCondition(registry, condition, state.variables, state.Read())
         case Err(error) => (Halts(Failing(error)), state)
         case Ok(satisfied) =>
           (if satisfied then Onward(next) else Fails(onTimeout, next), state.Consume(Waited(id, satisfied))))
    case SetVariableNode(name, expression, next) =>
      if state.Starved() then (Halts(Exhausted), state)
      else
        (match EvaluateExpression(expression, state.variables, state.Read())
         case Err(error) => (Halts(Failing(error)), state)
         case Ok(value) =>
           var after := state.Consume(Assigned(id, name, value));
           (Onward(next), after.(variables := after.variables[name := value])))
    case BranchNode(condition, thenNode, elseNode, join) =>
      if state.Starved() then (Halts(Exhausted), state)
      else
        (match EvaluateCondition(registry, condition, state.variables, state.Read())
         case Err(error) => (Halts(Failing(error)), state)
         case Ok(selected) =>
           (Onward((if selected then thenNode else elseNode).OrElse(join)), state.Consume(Branched(id, selected))))
    case GroupNode(kind, branches, join) => (Opens(kind, branches, join), state.Trace(GroupStarted(id, |branches|)))
  }

  /** The rest of a simulation after its move at `id`. */
  function Continued(registry: Registry, nodes: seq<Node>, markers: Markers, id: NodeId, stop: Option<NodeId>,
                     move: Move, after: RunState): Simulated
    requires Descending(nodes) && id < |nodes| && move.LeadsBelow(id)
  {
    match move
    case Halts(flow) => Ended(flow, after)
    case Onward(next) => SimNext(registry, nodes, markers, id, next, stop, after)
    case Fails(policy, next) => SimFailure(registry, nodes, markers, id, policy, next, stop, after)
    case Opens(kind, branches, join) =>
      var inside := SimBranches(registry, nodes, markers, id, kind, branches, join, after);
      if inside.flow.Through? then SimNext(registry, nodes, markers, id, join, stop, inside.state).After(inside)
      else inside
  }

  lemma SimUnfolds(registry: Registry, nodes: seq<Node>, markers: Markers, id: NodeId, stop: Option<NodeId>,
                   state: RunState)
    requires Descending(nodes) && id < |nodes| && stop != Some(id)
    ensures var (move, after) := MoveFrom(registry, nodes, id, state);
            SimFrom(registry, nodes, markers, id, stop, state)
            == Continued(registry, nodes, markers, id, stop, move, after)
  {
    assert LeadsDown(nodes[id], id);
  }

  /** Where a failure is resumed, if it is. */
  function ResumedAt(policy: PlanPolicy, next: Option<NodeId>): Option<NodeId> {
    match policy
    case CarryOn => next
    case FallBackTo(entry) => entry.OrElse(next)
    case _ => None
  }

  lemma FailureUnfolds(registry: Registry, nodes: seq<Node>, markers: Markers, id: NodeId, stop: Option<NodeId>,
                       policy: PlanPolicy, next: Option<NodeId>, after: RunState)
    requires Descending(nodes) && id < |nodes| && Below(next, id) && PolicyBelow(policy, id) && next.Some?
    ensures var resumed := ResumedAt(policy, next);
            var simulated := SimFailure(registry, nodes, markers, id, policy, next, stop, after);
            match policy
            case StopTheRun => simulated == Ended(StoppedRun, after)
            case StopTheBranch => simulated == Ended(StoppedBranch, after)
            case _ =>
              && resumed.Some? && resumed.value < id
              && match markers
                 case Dropped => simulated == SimFrom(registry, nodes, Dropped, resumed.value, None, after)
                 case Kept =>
                   var rest := SimFrom(registry, nodes, Kept, resumed.value, stop, after);
                   simulated == rest.(echoed := rest.echoed || (stop.Some? && rest.flow.Through?))
  {
    var resumed := ResumedAt(policy, next);
    if resumed.Some? {
      assert SimFailure(registry, nodes, markers, id, policy, next, stop, after)
             == SimResumed(registry, nodes, markers, id, resumed, stop, after);
      assert SimNext(registry, nodes, Dropped, id, resumed, None, after)
             == SimFrom(registry, nodes, Dropped, resumed.value, None, after);
      assert SimNext(registry, nodes, Kept, id, resumed, stop, after)
             == SimFrom(registry, nodes, Kept, resumed.value, stop, after);
    }
  }

  // ----- what a simulation leaves in the trace -----------------------------------------------

  /** All edges are there, so nothing but the completing node ends a simulation without a marker. */
  predicate AllPresent(nodes: seq<Node>) {
    forall id :: 0 <= id < |nodes| ==> EdgesPresent(nodes[id])
  }

  lemma WellFormedIsComplete(context: Context, nodes: seq<Node>)
    requires WellFormed(context, nodes)
    ensures AllPresent(nodes)
  {
    forall id | 0 <= id < |nodes|
      ensures EdgesPresent(nodes[id])
    {
      assert id > 0 ==> NodeFits(context, nodes, id, 1, 0);
    }
  }

  /** With all edges present every move that goes on has somewhere to go. */
  predicate GoesSomewhere(move: Move) {
    match move
    case Halts(_) => true
    case Onward(next) => next.Some?
    case Fails(_, next) => next.Some?
    case Opens(_, _, join) => join.Some?
  }

  lemma {:induction false} AttemptsLogFirst(targets: seq<Target>, payload: Payload, retry: RetryPolicy, own: NodeId,
                                            state: RunState)
    ensures var (ended, after) := Attempts(targets, payload, retry, own, 0, state);
            && state.log <= after.log
            && (ended ==> |state.log| < |after.log| && Key(after.log[|state.log|]) == (own, 0))
  {
    AttemptsAreDistinct(targets, payload, retry, own, 0, state);
    if !state.Starved() {
      var outcome := state.Read().outcome;
      var after := state.Consume(Attempted(own, targets, payload, 0, outcome));
      AttemptsEndInAttempt(targets, payload, retry, own, 1, after);
    }
  }

  /** A move extends the trace, and one past a node other than a join begins with that node. */
  lemma MoveLogs(registry: Registry, nodes: seq<Node>, id: NodeId, state: RunState)
    requires Descending(nodes) && AllPresent(nodes) && id < |nodes|
    ensures var (move, after) := MoveFrom(registry, nodes, id, state);
            && GoesSomewhere(move) && state.log <= after.log
            && (move.Halts? ==> !move.flow.StoppedBranch?)
            && ((move.Halts? && move.flow.Through?) || (!move.Halts? && !nodes[id].JoinNode?) ==>
                  |state.log| < |after.log| && Key(after.log[|state.log|]) == (id, 0))
  {
    assert EdgesPresent(nodes[id]);
    match nodes[id]
    case CommandNode(targets, payload, retry, _, _) => AttemptsLogFirst(targets, payload, retry, id, state);
    case _ =>
  }

  /** A simulation extends the trace, and gets through without marker only past the completing node. */
  lemma {:induction false} SimExtends(registry: Registry, nodes: seq<Node>, id: NodeId, stop: Option<NodeId>,
                                      state: RunState)
    requires Descending(nodes) && AllPresent(nodes)
    ensures var simulated := SimFrom(registry, nodes, Dropped, id, stop, state);
            && state.log <= simulated.state.log
            && (stop.None? && simulated.flow.Through? ==> |state.log| < |simulated.state.log|)
    decreases id, 2
  {
    if stop != Some(id) && id < |nodes| {
      SimUnfolds(registry, nodes, Dropped, id, stop, state);
      MoveLogs(registry, nodes, id, state);
      var (move, after) := MoveFrom(registry, nodes, id, state);
      match move
      case Halts(_) =>
      case Onward(next) => SimExtends(registry, nodes, next.value, stop, after);
      case Fails(policy, next) =>
        FailureUnfolds(registry, nodes, Dropped, id, stop, policy, next, after);
        if ResumedAt(policy, next).Some? {
          SimExtends(registry, nodes, ResumedAt(policy, next).value, None, after);
        }
      case Opens(kind, branches, join) =>
        BranchesExtendTrace(registry, nodes, id, kind, branches, join, after);
        var inside := SimBranches(registry, nodes, Dropped, id, kind, branches, join, after);
        SimExtends(registry, nodes, join.value, stop, inside.state);
    }
  }

  lemma {:induction false} BranchesExtendTrace(registry: Registry, nodes: seq<Node>, from: NodeId, kind: GroupKind,
                                               branches: seq<NodeId>, join: Option<NodeId>, state: RunState)
    requires Descending(nodes) && AllPresent(nodes) && from < |nodes|
    requires forall i :: 0 <= i < |branches| ==> branches[i] < from
    ensures state.log <= SimBranches(registry, nodes, Dropped, from, kind, branches, join, state).state.log
    decreases from, 0, |branches|
  {
    if branches != [] {
      SimExtends(registry, nodes, branches[0], join, state);
      var first := SimFrom(registry, nodes, Dropped, branches[0], join, state);
      BranchesExtendTrace(registry, nodes, from, kind, branches[1..], join, first.state);
    }
  }

  /** The node behind a chain of joins. */
  function First(nodes: seq<Node>, id: NodeId): NodeId
    requires Descending(nodes)
    decreases id
  {
    if id < |nodes| && nodes[id].JoinNode? && nodes[id].next.Some? then
      assert LeadsDown(nodes[id], id);
      First(nodes, nodes[id].next.value)
    else id
  }

  ghost predicate Logged(log: seq<Event>, id: NodeId) {
    exists i :: 0 <= i < |log| && Key(log[i]) == (id, 0)
  }

  ghost predicate LoggedSince(before: seq<Event>, after: seq<Event>, id: NodeId) {
    before <= after && exists i :: |before| <= i < |after| && Key(after[i]) == (id, 0)
  }

  /** A simulation is abandoned, enters the first node from where it starts, or reaches its marker before that. */
  lemma {:induction false} LogsFirst(registry: Registry, nodes: seq<Node>, id: NodeId, stop: Option<NodeId>,
                                     state: RunState)
    requires Descending(nodes) && AllPresent(nodes)
    ensures var simulated := SimFrom(registry, nodes, Dropped, id, stop, state);
            || simulated.Abandoned()
            || (stop.Some? && simulated == Ended(Through, state) && First(nodes, id) == First(nodes, stop.value))
            || LoggedSince(state.log, simulated.state.log, First(nodes, id))
    decreases id
  {
    if stop != Some(id) && id < |nodes| {
      SimUnfolds(registry, nodes, Dropped, id, stop, state);
      MoveLogs(registry, nodes, id, state);
      if nodes[id].JoinNode? {
        LogsFirst(registry, nodes, nodes[id].next.value, stop, state);
      } else {
        EntersNode(registry, nodes, id, stop, state);
      }
    }
  }

  /** What a simulation logs first. */
  lemma EntersNode(registry: Registry, nodes: seq<Node>, id: NodeId, stop: Option<NodeId>, state: RunState)
    requires Descending(nodes) && AllPresent(nodes) && id < |nodes| && stop != Some(id) && !nodes[id].JoinNode?
    ensures var simulated := SimFrom(registry, nodes, Dropped, id, stop, state);
            simulated.Abandoned() || LoggedSince(state.log, simulated.state.log, id)
  {
    SimUnfolds(registry, nodes, Dropped, id, stop, state);
    MoveLogs(registry, nodes, id, state);
    var (move, after) := MoveFrom(registry, nodes, id, state);
    var simulated := SimFrom(registry, nodes, Dropped, id, stop, state);
    if !simulated.Abandoned() {
      ContinuedExtends(registry, nodes, id, stop, move, after);
      assert Key(simulated.state.log[|state.log|]) == (id, 0);
    }
  }

  lemma ContinuedExtends(registry: Registry, nodes: seq<Node>, id: NodeId, stop: Option<NodeId>, move: Move,
                         after: RunState)
    requires Descending(nodes) && AllPresent(nodes) && id < |nodes| && move.LeadsBelow(id) && GoesSomewhere(move)
    ensures after.log <= Continued(registry, nodes, Dropped, id, stop, move, after).state.log
  {
    match move
    case Halts(_) =>
    case Onward(next) => SimExtends(registry, nodes, next.value, stop, after);
    case Fails(policy, next) =>
      FailureUnfolds(registry, nodes, Dropped, id, stop, policy, next, after);
      if ResumedAt(policy, next).Some? {
        SimExtends(registry, nodes, ResumedAt(policy, next).value, None, after);
      }
    case Opens(kind, branches, join) =>
      BranchesExtendTrace(registry, nodes, id, kind, branches, join, after);
      SimExtends(registry, nodes, join.value, stop,
                 SimBranches(registry, nodes, Dropped, id, kind, branches, join, after).state);
  }

  // ----- regions of a plan -----------------------------------------------------------------

  function JoinOf(nodes: seq<Node>, group: Option<NodeId>): Option<NodeId>
    requires group.Some? ==> group.value < |nodes| && nodes[group.value].GroupNode?
  {
    if group.None? then None else nodes[group.value].join
  }

  /** `id` lies in the plan and, when a group is given, at its join or between join and group. */
  predicate InRegion(nodes: seq<Node>, group: Option<NodeId>, id: NodeId) {
    && id < |nodes|
    && (group.Some? ==>
          && group.value < |nodes| && nodes[group.value].GroupNode? && nodes[group.value].join.Some?
          && nodes[group.value].join.value <= id < group.value)
  }

  lemma EdgeStaysInRegion(context: Context, nodes: seq<Node>, group: Option<NodeId>, id: NodeId, to: NodeId)
    requires WellFormed(context, nodes) && InRegion(nodes, group, id) && JoinOf(nodes, group) != Some(id)
    requires HasEdge(nodes[id], to)
    ensures to < id && InRegion(nodes, group, to)
  {
    assert NodeFits(context, nodes, id, 1, 0);
    if group.Some? {
      assert NodeFits(context, nodes, group.value, 1, 0);
    }
  }

  /** Every way on from a node leads to nodes of the same region, and into a group to the group's own region. */
  predicate StaysInRegion(nodes: seq<Node>, group: Option<NodeId>, id: NodeId, move: Move) {
    match move
    case Halts(_) => true
    case Onward(next) => next.Some? && InRegion(nodes, group, next.value)
    case Fails(policy, next) =>
      && next.Some?
      && (ResumedAt(policy, next).Some? ==> InRegion(nodes, group, ResumedAt(policy, next).value))
    case Opens(kind, branches, join) =>
      && id < |nodes| && nodes[id].GroupNode? && nodes[id].join == join
      && join.Some? && InRegion(nodes, group, join.value)
      && (forall i :: 0 <= i < |branches| ==> InRegion(nodes, Some(id), branches[i]))
  }

  lemma MoveStaysInRegion(registry: Registry, context: Context, nodes: seq<Node>, group: Option<NodeId>, id: NodeId,
                          state: RunState)
    requires WellFormed(context, nodes) && Descending(nodes)
    requires InRegion(nodes, group, id) && JoinOf(nodes, group) != Some(id)
    ensures StaysInRegion(nodes, group, id, MoveFrom(registry, nodes, id, state).0)
  {
    if id > 0 {
      assert NodeFits(context, nodes, id, 1, 0);
      forall to: NodeId | HasEdge(nodes[id], to)
        ensures InRegion(nodes, group, to)
      {
        EdgeStaysInRegion(context, nodes, group, id, to);
      }
      match nodes[id]
      case CommandNode(_, _, _, onFailure, next) =>
        assert HasEdge(nodes[id], next.value);
        assert ResumedAt(onFailure, next).Some? ==> HasEdge(nodes[id], ResumedAt(onFailure, next).value);
      case WaitNode(_, _, onTimeout, next) =>
        assert HasEdge(nodes[id], next.value);
        assert ResumedAt(onTimeout, next).Some? ==> HasEdge(nodes[id], ResumedAt(onTimeout, next).value);
      case BranchNode(_, thenNode, elseNode, _) =>
        assert HasEdge(nodes[id], thenNode.value) && HasEdge(nodes[id], elseNode.value);
      case GroupNode(_, _, join) => assert HasEdge(nodes[id], join.value);
      case DelayNode(_, next) => assert HasEdge(nodes[id], next.value);
      case SetVariableNode(_, _, next) => assert HasEdge(nodes[id], next.value);
      case JoinNode(next) => assert HasEdge(nodes[id], next.value);
      case Complete =>
    }
  }

  // ----- what a dropped marker changes ----------------------------------------------------------

  /**
   * Without its marker a branch of the simulator ends as with it, or got
   * through and continues from the join.
   */
  lemma {:induction false} DroppedMarker(registry: Registry, context: Context, nodes: seq<Node>, group: NodeId,
                                         id: NodeId, state: RunState)
    requires WellFormed(context, nodes) && Descending(nodes) && InRegion(nodes, Some(group), id)
    ensures var join := nodes[group].join;
            var marked := SimFrom(registry, nodes, Dropped, id, join, state);
            var unmarked := SimFrom(registry, nodes, Dropped, id, None, state);
            || unmarked == marked
            || (marked.flow.Through? && unmarked == SimFrom(registry, nodes, Dropped, join.value, None, marked.state))
    decreases id
  {
    var join := nodes[group].join;
    if Some(id) != join {
      SimUnfolds(registry, nodes, Dropped, id, join, state);
      SimUnfolds(registry, nodes, Dropped, id, None, state);
      MoveStaysInRegion(registry, context, nodes, Some(group), id, state);
      var (move, after) := MoveFrom(registry, nodes, id, state);
      match move
      case Halts(_) =>
      case Onward(next) => DroppedMarker(registry, context, nodes, group, next.value, after);
      case Fails(policy, next) =>
        FailureUnfolds(registry, nodes, Dropped, id, join, policy, next, after);
        FailureUnfolds(registry, nodes, Dropped, id, None, policy, next, after);
      case Opens(kind, branches, inner) =>
        var inside := SimBranches(registry, nodes, Dropped, id, kind, branches, inner, after);
        DroppedMarker(registry, context, nodes, group, inner.value, inside.state);
    }
  }

  ghost predicate Twice(log: seq<Event>) {
    exists i, j :: 0 <= i < j < |log| && Key(log[i]) == Key(log[j])
  }

  /** The simulation is abandoned, has repeated itself, or will when it goes on behind the join at `stop`. */
  ghost predicate Spoiled(nodes: seq<Node>, simulated: Simulated, stop: Option<NodeId>)
    requires Descending(nodes)
  {
    || simulated.Abandoned()
    || Twice(simulated.state.log)
    || (stop.Some? && Logged(simulated.state.log, First(nodes, stop.value)))
  }

  lemma TwiceStays(before: seq<Event>, after: seq<Event>)
    requires Twice(before) && before <= after
    ensures Twice(after)
  {
    var i, j :| 0 <= i < j < |before| && Key(before[i]) == Key(before[j]);
    assert Key(after[i]) == Key(after[j]);
  }

  lemma LoggedStays(before: seq<Event>, after: seq<Event>, id: NodeId)
    requires Logged(before, id) && before <= after
    ensures Logged(after, id)
  {
    var i :| 0 <= i < |before| && Key(before[i]) == (id, 0);
    assert Key(after[i]) == (id, 0);
  }

  lemma LoggedAgain(before: seq<Event>, after: seq<Event>, id: NodeId)
    requires Logged(before, id) && LoggedSince(before, after, id)
    ensures Twice(after)
  {
    var i :| 0 <= i < |before| && Key(before[i]) == (id, 0);
    var j :| |before| <= j < |after| && Key(after[j]) == (id, 0);
    assert Key(after[i]) == Key(after[j]);
  }

  /** A spoiled branch or group spoils what follows its join. */
  lemma SpoilsOn(registry: Registry, nodes: seq<Node>, join: NodeId, stop: Option<NodeId>, simulated: Simulated)
    requires Descending(nodes) && AllPresent(nodes)
    requires simulated.flow.Through? && Spoiled(nodes, simulated, Some(join))
    ensures Spoiled(nodes, SimFrom(registry, nodes, Dropped, join, stop, simulated.state), stop)
  {
    var rest := SimFrom(registry, nodes, Dropped, join, stop, simulated.state);
    SimExtends(registry, nodes, join, stop, simulated.state);
    LogsFirst(registry, nodes, join, stop, simulated.state);
    if Twice(simulated.state.log) {
      TwiceStays(simulated.state.log, rest.state.log);
    } else if LoggedSince(simulated.state.log, rest.state.log, First(nodes, join)) {
      LoggedAgain(simulated.state.log, rest.state.log, First(nodes, join));
    }
  }

  /** How a simulation with dropped markers compares with the one that keeps them. */
  ghost predicate Compares(registry: Registry, nodes: seq<Node>, group: Option<NodeId>, id: NodeId, state: RunState)
    requires Descending(nodes) && InRegion(nodes, group, id)
  {
    var stop := JoinOf(nodes, group);
    var kept := SimFrom(registry, nodes, Kept, id, stop, state);
    var dropped := SimFrom(registry, nodes, Dropped, id, stop, state);
    if kept.echoed then Spoiled(nodes, dropped, stop)
    else
      && dropped == kept
      && (kept.flow.Through? && group.Some? ==>
            SimFrom(registry, nodes, Dropped, id, None, state)
            == SimFrom(registry, nodes, Dropped, stop.value, None, kept.state))
  }

  /**
   * While no resumed branch gets through to its join, dropping markers changes
   * nothing, and a branch without marker that gets through goes on behind the
   * join. Otherwise the simulation is abandoned, or enters some node twice
   * before or right after it leaves the region.
   */
  lemma {:induction false} DroppingCompares(registry: Registry, context: Context, nodes: seq<Node>,
                                            group: Option<NodeId>, id: NodeId, state: RunState)
    requires WellFormed(context, nodes) && Descending(nodes) && InRegion(nodes, group, id)
    ensures Compares(registry, nodes, group, id, state)
    decreases id, 2
  {
    var stop := JoinOf(nodes, group);
    if stop != Some(id) {
      SimUnfolds(registry, nodes, Kept, id, stop, state);
      SimUnfolds(registry, nodes, Dropped, id, stop, state);
      SimUnfolds(registry, nodes, Dropped, id, None, state);
      MoveStaysInRegion(registry, context, nodes, group, id, state);
      var (move, after) := MoveFrom(registry, nodes, id, state);
      match move
      case Halts(_) =>
        if group.Some? {
          assert NodeFits(context, nodes, group.value, 1, 0) && NodeFits(context, nodes, id, 1, 0);
        }
      case Onward(next) => DroppingCompares(registry, context, nodes, group, next.value, after);
      case Fails(policy, next) => ResumptionCompares(registry, context, nodes, group, id, policy, next, after, state);
      case Opens(kind, branches, join) =>
        GroupCompares(registry, context, nodes, group, id, kind, branches, join, after, state);
    }
  }

  lemma {:induction false} ResumptionCompares(registry: Registry, context: Context, nodes: seq<Node>,
                                              group: Option<NodeId>, id: NodeId, policy: PlanPolicy,
                                              next: Option<NodeId>, after: RunState, state: RunState)
    requires WellFormed(context, nodes) && Descending(nodes) && InRegion(nodes, group, id)
    requires JoinOf(nodes, group) != Some(id)
    requires MoveFrom(registry, nodes, id, state) == (Fails(policy, next), after)
    ensures Compares(registry, nodes, group, id, state)
    decreases id, 1
  {
    var stop, resumed := JoinOf(nodes, group), ResumedAt(policy, next);
    SimUnfolds(registry, nodes, Kept, id, stop, state);
    SimUnfolds(registry, nodes, Dropped, id, stop, state);
    SimUnfolds(registry, nodes, Dropped, id, None, state);
    MoveStaysInRegion(registry, context, nodes, group, id, state);
    FailureUnfolds(registry, nodes, Kept, id, stop, policy, next, after);
    FailureUnfolds(registry, nodes, Dropped, id, stop, policy, next, after);
    FailureUnfolds(registry, nodes, Dropped, id, None, policy, next, after);
    if resumed.Some? && !policy.StopTheRun? && !policy.StopTheBranch? {
      DroppingCompares(registry, context, nodes, group, resumed.value, after);
      if group.Some? {
        UnmarkedCompares(registry, context, nodes, group.value, resumed.value, after);
      }
    }
  }

  /** A resumption inside a group, which the simulator runs without marker. */
  lemma UnmarkedCompares(registry: Registry, context: Context, nodes: seq<Node>, group: NodeId, id: NodeId,
                         state: RunState)
    requires WellFormed(context, nodes) && Descending(nodes) && InRegion(nodes, Some(group), id)
    requires Compares(registry, nodes, Some(group), id, state)
    ensures var join := nodes[group].join;
            var kept := SimFrom(registry, nodes, Kept, id, join, state);
            var unmarked := SimFrom(registry, nodes, Dropped, id, None, state);
            if kept.echoed || kept.flow.Through? then Spoiled(nodes, unmarked, join) else unmarked == kept
  {
    var join := nodes[group].join;
    var kept := SimFrom(registry, nodes, Kept, id, join, state);
    var marked := SimFrom(registry, nodes, Dropped, id, join, state);
    var unmarked := SimFrom(registry, nodes, Dropped, id, None, state);
    WellFormedIsComplete(context, nodes);
    DroppedMarker(registry, context, nodes, group, id, state);
    if kept.echoed {
      if unmarked != marked {
        SpoilsOn(registry, nodes, join.value, None, marked);
      }
    } else if kept.flow.Through? {
      LogsFirst(registry, nodes, join.value, None, kept.state);
    }
  }

  lemma {:induction false} GroupCompares(registry: Registry, context: Context, nodes: seq<Node>, group: Option<NodeId>,
                                         id: NodeId, kind: GroupKind, branches: seq<NodeId>, join: Option<NodeId>,
                                         after: RunState, state: RunState)
    requires WellFormed(context, nodes) && Descending(nodes) && InRegion(nodes, group, id)
    requires JoinOf(nodes, group) != Some(id)
    requires MoveFrom(registry, nodes, id, state) == (Opens(kind, branches, join), after)
    ensures Compares(registry, nodes, group, id, state)
    decreases id, 1
  {
    var stop := JoinOf(nodes, group);
    SimUnfolds(registry, nodes, Kept, id, stop, state);
    SimUnfolds(registry, nodes, Dropped, id, stop, state);
    SimUnfolds(registry, nodes, Dropped, id, None, state);
    MoveStaysInRegion(registry, context, nodes, group, id, state);
    BranchesCompare(registry, context, nodes, id, kind, branches, after);
    var kept := SimBranches(registry, nodes, Kept, id, kind, branches, join, after);
    var dropped := SimBranches(registry, nodes, Dropped, id, kind, branches, join, after);
    if kept.echoed {
      if dropped.flow.Through? {
        WellFormedIsComplete(context, nodes);
        SpoilsOn(registry, nodes, join.value, stop, dropped);
      }
    } else if kept.flow.Through? {
      DroppingCompares(registry, context, nodes, group, join.value, kept.state);
    }
  }

  lemma {:induction false} BranchesCompare(registry: Registry, context: Context, nodes: seq<Node>, group: NodeId,
                                           kind: GroupKind, branches: seq<NodeId>, state: RunState)
    requires WellFormed(context, nodes) && Descending(nodes)
    requires group < |nodes| && nodes[group].GroupNode?
    requires forall i :: 0 <= i < |branches| ==> InRegion(nodes, Some(group), branches[i])
    ensures forall i :: 0 <= i < |branches| ==> branches[i] < group
    ensures var join := nodes[group].join;
            var kept := SimBranches(registry, nodes, Kept, group, kind, branches, join, state);
            var dropped := SimBranches(registry, nodes, Dropped, group, kind, branches, join, state);
            if kept.echoed then Spoiled(nodes, dropped, join) else dropped == kept
    decreases group, 0, |branches|
  {
    if branches != [] {
      var join := nodes[group].join;
      var kept := SimFrom(registry, nodes, Kept, branches[0], join, state);
      var dropped := SimFrom(registry, nodes, Dropped, branches[0], join, state);
      DroppingCompares(registry, context, nodes, Some(group), branches[0], state);
      if kept.echoed {
        if !dropped.Abandoned() {
          BranchesStaySpoiled(registry, context, nodes, group, kind, branches[1..], dropped);
        }
      } else {
        BranchesCompare(registry, context, nodes, group, kind, branches[1..], kept.state);
      }
    }
  }

  lemma BranchesStaySpoiled(registry: Registry, context: Context, nodes: seq<Node>, group: NodeId, kind: GroupKind,
                            branches: seq<NodeId>, first: Simulated)
    requires WellFormed(context, nodes) && Descending(nodes)
    requires group < |nodes| && nodes[group].GroupNode?
    requires forall i :: 0 <= i < |branches| ==> branches[i] < group
    requires Spoiled(nodes, first, nodes[group].join) && !first.Abandoned()
    ensures var rest := SimBranches(registry, nodes, Dropped, group, kind, branches, nodes[group].join, first.state);
            Spoiled(nodes, rest, nodes[group].join)
  {
    var join := nodes[group].join;
    var rest := SimBranches(registry, nodes, Dropped, group, kind, branches, join, first.state);
    WellFormedIsComplete(context, nodes);
    BranchesExtendTrace(registry, nodes, group, kind, branches, join, first.state);
    if Twice(first.state.log) {
      TwiceStays(first.state.log, rest.state.log);
    } else {
      LoggedStays(first.state.log, rest.state.log, First(nodes, join.value));
    }
  }

  /**
   * Inside a branch that does not resume up to its join, dropping the marker
   * changes the simulation exactly when the branch gets through: then it runs
   * on into what follows the group.
   */
  lemma MarkerMattersIffThrough(registry: Registry, context: Context, nodes: seq<Node>, group: NodeId, id: NodeId,
                                state: RunState)
    requires WellFormed(context, nodes) && Descending(nodes) && InRegion(nodes, Some(group), id)
    requires !SimFrom(registry, nodes, Kept, id, nodes[group].join, state).echoed
    ensures var marked := SimFrom(registry, nodes, Dropped, id, nodes[group].join, state);
            SimFrom(registry, nodes, Dropped, id, None, state) == marked <==> !marked.flow.Through?
  {
    var join := nodes[group].join.value;
    DroppingCompares(registry, context, nodes, Some(group), id, state);
    DroppedMarker(registry, context, nodes, group, id, state);
    var marked := SimFrom(registry, nodes, Dropped, id, Some(join), state);
    if marked.flow.Through? {
      WellFormedIsComplete(context, nodes);
      SimExtends(registry, nodes, join, None, marked.state);
    }
  }

  // ----- the hosts agree ------------------------------------------------------------------

  /** A run of the plan machine and a simulation ended alike. */
  predicate HostsAgree(config: Config, simulated: Simulated) {
    && config.state == simulated.state
    && match simulated.flow
       case Through => config.status == Completed
       case StoppedRun | StoppedBranch => config.status == RunFailed
       case Exhausted => config.status == Waiting
       case Failing(error) => config.status == Faulted(Evaluation(error))
       case MissingNode => false
  }

  /** The simulation of a whole run; `Dropped` is the simulator. */
  function Simulation(registry: Registry, plan: Plan, markers: Markers, inputs: seq<Reading>): Simulated
    requires Descending(plan.nodes)
  {
    SimFrom(registry, plan.nodes, markers, plan.entry, None, Start(plan, inputs).state)
  }

  lemma CompiledDescends(registry: Registry, document: Document)
    requires Compile(registry, document).Ok?
    ensures Descending(Compile(registry, document).value.nodes)
  {
    CompiledPlanFits(registry, document);
    WellFormedDescends(ContextOf(registry, document), Compile(registry, document).value.nodes);
  }

  /** On every compiled plan the simulation that keeps its markers is the run of the machine. */
  lemma KeptMarkersRunAsMachine(registry: Registry, document: Document, inputs: seq<Reading>, steps: nat)
    requires Compile(registry, document).Ok? && steps >= StepBound(document)
    ensures var plan := Compile(registry, document).value;
            && Descending(plan.nodes)
            && HostsAgree(Iterate(registry, plan.nodes, Start(plan, inputs), steps),
                          Simulation(registry, plan, Kept, inputs))
  {
    var plan := Compile(registry, document).value;
    var nodes, start := plan.nodes, Start(plan, inputs);
    CompiledPlanFits(registry, document);
    CompiledDescends(registry, document);
    var reached := SimulationRuns(registry, ContextOf(registry, document), nodes, start);
    var arrived := Iterate(registry, nodes, start, reached);
    PlanRunsAsTree(registry, document, inputs, steps);
    var stopped := Iterate(registry, nodes, start, steps);
    if steps <= reached {
      IterateAdds(registry, nodes, start, steps, reached - steps);
      StoppedStays(registry, nodes, stopped, reached - steps);
    } else {
      IterateAdds(registry, nodes, start, reached, steps - reached);
      StoppedStays(registry, nodes, arrived, steps - reached);
    }
  }

  /** On these readings some branch that went on after a failure got through to the join of its group. */
  predicate SomeBranchEchoes(registry: Registry, plan: Plan, inputs: seq<Reading>)
    requires Descending(plan.nodes)
  {
    Simulation(registry, plan, Kept, inputs).echoed
  }

  /**
   * On every compiled plan and all readings: when no resumed branch gets
   * through to its join, both hosts enter the same nodes in the same order,
   * make the same attempts, write the same variables and end alike. When the
   * run completes, they do so only then.
   */
  lemma HostsAgreeIffNoBranchEchoes(registry: Registry, document: Document, inputs: seq<Reading>, steps: nat)
    requires Compile(registry, document).Ok? && steps >= StepBound(document)
    ensures var plan := Compile(registry, document).value;
            && Descending(plan.nodes)
            && var run := Iterate(registry, plan.nodes, Start(plan, inputs), steps);
               var agree := HostsAgree(run, Simulation(registry, plan, Dropped, inputs));
               && (!SomeBranchEchoes(registry, plan, inputs) ==> agree)
               && (run.status == Completed ==> (agree <==> !SomeBranchEchoes(registry, plan, inputs)))
  {
    var plan := Compile(registry, document).value;
    CompiledPlanFits(registry, document);
    CompiledDescends(registry, document);
    EntryInPlan(registry, document);
    KeptMarkersRunAsMachine(registry, document, inputs, steps);
    DroppingCompares(registry, ContextOf(registry, document), plan.nodes, None, plan.entry, Start(plan, inputs).state);
    NothingRunsTwice(registry, document, inputs, steps);
  }

  // ----- plans on which the hosts always agree ----------------------------------------------

  /** The node goes on after a failure instead of stopping. */
  predicate ResumesAfterFailure(node: Node) {
    match node
    case CommandNode(_, _, _, onFailure, _) => onFailure.CarryOn? || onFailure.FallBackTo?
    case WaitNode(_, _, onTimeout, _) => onTimeout.CarryOn? || onTimeout.FallBackTo?
    case _ => false
  }

  /** No node inside a group carries on or falls back. */
  ghost predicate BranchesNeverResume(nodes: seq<Node>) {
    forall id: NodeId, group: NodeId :: InRegion(nodes, Some(group), id) && nodes[group].join != Some(id) ==>
      !ResumesAfterFailure(nodes[id])
  }

  lemma {:induction false} NothingEchoes(registry: Registry, context: Context, nodes: seq<Node>, group: Option<NodeId>,
                                         id: NodeId, state: RunState)
    requires WellFormed(context, nodes) && Descending(nodes) && BranchesNeverResume(nodes)
    requires InRegion(nodes, group, id)
    ensures !SimFrom(registry, nodes, Kept, id, JoinOf(nodes, group), state).echoed
    decreases id, 1
  {
    var stop := JoinOf(nodes, group);
    if stop != Some(id) {
      SimUnfolds(registry, nodes, Kept, id, stop, state);
      MoveStaysInRegion(registry, context, nodes, group, id, state);
      var (move, after) := MoveFrom(registry, nodes, id, state);
      match move
      case Halts(_) =>
      case Onward(next) => NothingEchoes(registry, context, nodes, group, next.value, after);
      case Fails(policy, next) =>
        FailureUnfolds(registry, nodes, Kept, id, stop, policy, next, after);
        if (policy.CarryOn? || policy.FallBackTo?) && group.None? {
          NothingEchoes(registry, context, nodes, group, ResumedAt(policy, next).value, after);
        }
      case Opens(kind, branches, join) =>
        NoBranchEchoes(registry, context, nodes, id, kind, branches, after);
        var inside := SimBranches(registry, nodes, Kept, id, kind, branches, join, after);
        NothingEchoes(registry, context, nodes, group, join.value, inside.state);
    }
  }

  lemma {:induction false} NoBranchEchoes(registry: Registry, context: Context, nodes: seq<Node>, group: NodeId,
                                          kind: GroupKind, branches: seq<NodeId>, state: RunState)
    requires WellFormed(context, nodes) && Descending(nodes) && BranchesNeverResume(nodes)
    requires group < |nodes| && nodes[group].GroupNode?
    requires forall i :: 0 <= i < |branches| ==> InRegion(nodes, Some(group), branches[i])
    ensures forall i :: 0 <= i < |branches| ==> branches[i] < group
    ensures !SimBranches(registry, nodes, Kept, group, kind, branches, nodes[group].join, state).echoed
    decreases group, 0, |branches|
  {
    if branches != [] {
      NothingEchoes(registry, context, nodes, Some(group), branches[0], state);
      var first := SimFrom(registry, nodes, Kept, branches[0], nodes[group].join, state);
      NoBranchEchoes(registry, context, nodes, group, kind, branches[1..], first.state);
    }
  }

  /** Plans without resumption inside groups run alike on both hosts, whatever they read. */
  lemma HostsAgreeWithoutResumption(registry: Registry, document: Document, inputs: seq<Reading>, steps: nat)
    requires Compile(registry, document).Ok? && steps >= StepBound(document)
    requires BranchesNeverResume(Compile(registry, document).value.nodes)
    ensures var plan := Compile(registry, document).value;
            && Descending(plan.nodes)
            && HostsAgree(Iterate(registry, plan.nodes, Start(plan, inputs), steps),
                          Simulation(registry, plan, Dropped, inputs))
  {
    var plan := Compile(registry, document).value;
    CompiledPlanFits(registry, document);
    CompiledDescends(registry, document);
    EntryInPlan(registry, document);
    NothingEchoes(registry, ContextOf(registry, document), plan.nodes, None, plan.entry, Start(plan, inputs).state);
    HostsAgreeIffNoBranchEchoes(registry, document, inputs, steps);
  }

  /** How a whole simulation ends; the guard of the run is decided before its first node. */
  datatype Verdict = Suppressed | Undecided(error: EvaluationError) | Unread | Ran(simulated: Simulated)

  function Simulate(registry: Registry, plan: Plan, inputs: seq<Reading>): Verdict
    requires Descending(plan.nodes)
  {
    if plan.guard.None? then Ran(Simulation(registry, plan, Dropped, inputs))
    else if inputs == [] then Unread
    else
      match EvaluateCondition(registry, plan.guard.value, InitialVariables(plan.variables), inputs[0])
      case Err(error) => Undecided(error)
      case Ok(false) => Suppressed
      case Ok(true) => Ran(Simulation(registry, plan, Dropped, inputs[1..]))
  }

  /**
   * Only the simulator looks at the guard of the run: where the runs
   * themselves agree, the hosts agree exactly if the guard was decided and
   * holds; a guard that fails or cannot be evaluated makes them differ.
   */
  lemma HostsAgreeIffGuardHolds(registry: Registry, document: Document, reading: Reading, rest: seq<Reading>)
    requires Compile(registry, document).Ok? && Compile(registry, document).value.guard.Some?
    requires Descending(Compile(registry, document).value.nodes)
    requires !SomeBranchEchoes(registry, Compile(registry, document).value, rest)
    ensures var plan := Compile(registry, document).value;
            var verdict := Simulate(registry, plan, [reading] + rest);
            EvaluateCondition(registry, plan.guard.value, InitialVariables(plan.variables), reading) == Ok(true) <==>
              && verdict.Ran?
              && HostsAgree(Iterate(registry, plan.nodes, Start(plan, rest), StepBound(document)), verdict.simulated)
  {
    HostsAgreeIffNoBranchEchoes(registry, document, rest, StepBound(document));
    assert ([reading] + rest)[1..] == rest;
  }

  // ----- a concrete difference ------------------------------------------------------------------

  /** A parallel group whose first branch carries on after a failed command, then one more delay. */
  function CarryingOn(target: TargetReference): Document {
    var command := Command(target, Toggle, RetryPolicy(0, 0, {}), Continue);
    Document(map[], None,
             [Group(Parallel, [Branch([command]), Branch([Delay(1)])], 2), Delay(2)],
             Single, Budget(16, 4, 4, 1, 64, 60_000))
  }

  function CarryingOnNodes(registry: Registry, target: TargetReference): seq<Node>
    requires target in registry.resolved
  {
    [Complete, DelayNode(2, Some(0)), JoinNode(Some(1)),
     CommandNode(registry.resolved[target], Toggle, RetryPolicy(0, 0, {}), CarryOn, Some(2)),
     DelayNode(1, Some(2)), GroupNode(Parallel, [3, 4], Some(2))]
  }

  lemma CarryingOnCompiles(registry: Registry, target: TargetReference)
    requires target in registry.resolved && target.capability == "on_off.v1"
    ensures Compile(registry, CarryingOn(target)) == Ok(Plan(CarryingOnNodes(registry, target), 5, map[], None))
  {
    var document := CarryingOn(target);
    var context := ContextOf(registry, document);
    var group, delay := document.actions[0], document.actions[1];
    var command := group.branches[0].actions[0];
    assert group.branches[0].actions[1..] == [] && group.branches[1].actions[1..] == [];
    assert group.branches[1..] == [Branch([Delay(1)])] && group.branches[1..][1..] == [];
    assert document.actions[1..] == [delay] && document.actions[1..][1..] == [];
    assert [command][1..] == [] && NormalizeAction(command) == command && Normalize([]) == [];
    assert !Displaced([command]);
    assert Normalize([command]) == [command];
    assert Normalize([Delay(1)]) == [Delay(1)];
    assert NormalizeBranches(group.branches[1..]) == group.branches[1..];
    assert NormalizeBranches(group.branches) == group.branches;
    assert Normalize([delay]) == [delay];
    assert Normalize(document.actions) == document.actions;
    var withDelay := [Complete, DelayNode(2, Some(0))];
    var withJoin := withDelay + [JoinNode(Some(1))];
    var withCommand := withJoin + [CarryingOnNodes(registry, target)[3]];
    var withBranches := withCommand + [DelayNode(1, Some(2))];
    assert LowerEach(context, [delay], [Complete], Some(0), 1) == Lowered(withDelay, 0, Some(1));
    assert LowerAction(context, command, withJoin, Some(2), 2) == Lowered(withCommand, 0, Some(3));
    assert LowerEach(context, [], withJoin, Some(2), 2) == Lowered(withJoin, 0, Some(2));
    assert LowerList(context, [command], withJoin, Some(2), 2) == Lowered(withCommand, 0, Some(3));
    assert LowerList(context, [Delay(1)], withCommand, Some(2), 2) == Lowered(withBranches, 0, Some(4));
    assert LowerBranches(context, group.branches[1..], withCommand, 2, 2) == LoweredBranches(withBranches, 0, [4]);
    assert LowerBranches(context, group.branches, withJoin, 2, 2) == LoweredBranches(withBranches, 0, [3, 4]);
    assert withBranches + [GroupNode(Parallel, [3, 4], Some(2))] == CarryingOnNodes(registry, target);
    assert LowerAction(context, group, withDelay, Some(1), 1) == Lowered(CarryingOnNodes(registry, target), 0, Some(5));
    assert LowerEach(context, document.actions, [Complete], Some(0), 1)
           == Lowered(CarryingOnNodes(registry, target), 0, Some(5));
    assert LoweredDocument(registry, document) == Lowered(CarryingOnNodes(registry, target), 0, Some(5));
    assert MalformedInitials(map[]) == {} && MistypedInitials(map[]) == {};
  }

  /** What the simulator does with it when the command fails. */
  lemma CarryingOnSimulates(registry: Registry, target: TargetReference, reading: Reading)
    requires target in registry.resolved
    requires reading.outcome == CommandOutcome(CommandState.Failed, None)
    ensures var nodes := CarryingOnNodes(registry, target);
            var simulated := SimFrom(registry, nodes, Dropped, 5, None, RunState(map[], [reading], []));
            && simulated.flow.Through? && |simulated.state.log| == 7
            && simulated.state.log[3] == Finished(0) && simulated.state.log[6] == Finished(0)
  {
    var nodes := CarryingOnNodes(registry, target);
    var start := RunState(map[], [reading], []);
    var entered := start.Trace(GroupStarted(5, 2));
    var failed := entered.Consume(Attempted(3, nodes[3].targets, Toggle, 0, reading.outcome));
    var resumed := failed.Trace(Delayed(1, 2)).Trace(Finished(0));
    var second := resumed.Trace(Delayed(4, 1));
    var last := second.Trace(Delayed(1, 2)).Trace(Finished(0));
    assert SimFrom(registry, nodes, Dropped, 1, None, failed) == Ended(Through, resumed);
    assert SimFrom(registry, nodes, Dropped, 2, None, failed) == Ended(Through, resumed);
    assert SimFrom(registry, nodes, Dropped, 3, Some(2), entered) == Ended(Through, resumed);
    assert SimFrom(registry, nodes, Dropped, 4, Some(2), resumed) == Ended(Through, second);
    assert [3, 4][1..] == [4] && [4][1..] == [];
    assert SimBranches(registry, nodes, Dropped, 5, Parallel, [4], Some(2), resumed) == Ended(Through, second);
    assert SimBranches(registry, nodes, Dropped, 5, Parallel, [3, 4], Some(2), entered) == Ended(Through, second);
    assert SimFrom(registry, nodes, Dropped, 1, None, second) == Ended(Through, last);
    assert SimFrom(registry, nodes, Dropped, 2, None, second) == Ended(Through, last);
    assert SimFrom(registry, nodes, Dropped, 5, None, start) == Ended(Through, last);
  }

  /**
   * A branch that carries on after a failed command makes the simulator run
   * the rest of the plan, completing node included, before the next branch
   * and once more after it; the plan machine does not.
   */
  lemma CarryingOnInABranchDiverges(registry: Registry, target: TargetReference, reading: Reading)
    requires target in registry.resolved && target.capability == "on_off.v1"
    requires reading.outcome == CommandOutcome(CommandState.Failed, None)
    ensures Compile(registry, CarryingOn(target)).Ok?
    ensures var plan := Compile(registry, CarryingOn(target)).value;
            && Descending(plan.nodes)
            && !HostsAgree(Iterate(registry, plan.nodes, Start(plan, [reading]), StepBound(CarryingOn(target))),
                           Simulation(registry, plan, Dropped, [reading]))
  {
    CarryingOnCompiles(registry, target);
    CarryingOnSimulates(registry, target, reading);
    var document := CarryingOn(target);
    var plan := Compile(registry, document).value;
    var simulated := SimFrom(registry, plan.nodes, Dropped, 5, None, RunState(map[], [reading], []));
    assert InitialVariables(map[]) == map[];
    NothingRunsTwice(registry, document, [reading], StepBound(document));
    assert Key(simulated.state.log[3]) == Key(simulated.state.log[6]);
    assert !HostsAgree(Iterate(registry, plan.nodes, Start(plan, [reading]), StepBound(document)), simulated);
  }
}
