/**
 * What an author's action tree means: a direct interpretation of the tree as
 * it was written, in which a list drops a command when a later command of the
 * same run names the same target, and everything else is executed as it
 * stands. The normalized tree is a means to the same end.
 */
module Authored {
  import opened Wrappers
  import opened Domain
  import opened Evaluator
  import opened Reduction
  import opened Lowering
  import opened Structured

  // ----- numbers of the actions that are kept -----------------------------------------------

  function Kept(actions: seq<Action>): nat
    decreases actions, 0
  {
    if actions == [] then 0
    else if Displaced(actions) then Kept(actions[1..])
    else KeptAction(actions[0]) + Kept(actions[1..])
  }

  function KeptAction(action: Action): nat
    decreases action, 1
  {
    match action
    case Command(_, _, _, onFailure) => KeptPolicy(onFailure) + 1
    case Delay(_) => 1
    case Wait(_, _, onTimeout) => KeptPolicy(onTimeout) + 1
    case SetVariable(_, _) => 1
    case Sequence(actions) => Kept(actions)
    case If(_, thenActions, elseActions) => 1 + Kept(thenActions) + Kept(elseActions) + 1
    case Group(_, branches, _) => 1 + KeptBranches(branches) + 1
  }

  function KeptPolicy(policy: FailurePolicy): nat
    decreases policy, 0
  {
    match policy
    case Fallback(actions) => Kept(actions)
    case _ => 0
  }

  function KeptBranches(branches: seq<Branch>): nat
    decreases branches, 0
  {
    if branches == [] then 0 else Kept(branches[0].actions) + KeptBranches(branches[1..])
  }

  // ----- the interpretation -------------------------------------------------------------------

  function Interpret(registry: Registry, actions: seq<Action>, base: nat, state: RunState): Execution
    decreases actions, 0
  {
    if actions == [] then Execution(Done, state)
    else if Displaced(actions) then Interpret(registry, actions[1..], base, state)
    else
      var first := InterpretAction(registry, actions[0], base + Kept(actions[1..]), state);
      if first.flow.Done? then Interpret(registry, actions[1..], base, first.state) else first
  }

  /** An action is numbered after everything inside it. */
  function Own(action: Action, base: nat): nat
    requires !action.Sequence?
  {
    base + KeptAction(action) - 1
  }

  function InterpretAction(registry: Registry, action: Action, base: nat, state: RunState): Execution
    decreases action, 1
  {
    match action
    case Command(target, payload, retry, onFailure) =>
      var (ended, after) := Attempts(Resolve(registry, target), payload, retry, Own(action, base), 0, state);
      AttemptsEndInAttempt(Resolve(registry, target), payload, retry, Own(action, base), 0, state);
      if !ended then Execution(Starving, after)
      else if LastOutcome(after.log).state == Confirmed then Execution(Done, after)
      else InterpretPolicy(registry, onFailure, base, after)
    case Delay(durationMs) => Execution(Done, state.Trace(Delayed(Own(action, base), durationMs)))
    case Wait(condition, _, onTimeout) =>
      if state.Starved() then Execution(Starving, state)
      else
        (match Decide(registry, condition, state)
         case Err(error) => Execution(Broken(error), state)
         case Ok(satisfied) =>
           var after := state.Consume(Waited(Own(action, base), satisfied));
           if satisfied then Execution(Done, after) else InterpretPolicy(registry, onTimeout, base, after))
    case SetVariable(name, expression) =>
      if state.Starved() then Execution(Starving, state)
      else
        (match EvaluateExpression(ResolveExpression(registry, expression), state.variables, state.Read())
         case Err(error) => Execution(Broken(error), state)
         case Ok(value) =>
           var after := state.Consume(Assigned(Own(action, base), name, value));
           Execution(Done, after.(variables := after.variables[name := value])))
    case Sequence(actions) => Interpret(registry, actions, base, state)
    case If(condition, thenActions, elseActions) =>
      if state.Starved() then Execution(Starving, state)
      else
        (match Decide(registry, condition, state)
         case Err(error) => Execution(Broken(error), state)
         case Ok(selected) =>
           var after := state.Consume(Branched(Own(action, base), selected));
           if selected then Interpret(registry, thenActions, base + 1, after)
           else Interpret(registry, elseActions, base + 1 + Kept(thenActions), after))
    case Group(kind, branches, _) =>
      InterpretBranches(registry, kind, branches, base + 1,
                        state.Trace(GroupStarted(Own(action, base), |branches|)))
  }

  function InterpretPolicy(registry: Registry, policy: FailurePolicy, base: nat, state: RunState): Execution
    decreases policy, 0
  {
    match policy
    case StopRun => Execution(RunStopped, state)
    case StopBranch => Execution(BranchStopped, state)
    case Continue => Execution(Done, state)
    case Fallback(actions) => Interpret(registry, actions, base, state)
  }

  function InterpretBranches(registry: Registry, kind: GroupKind, branches: seq<Branch>, base: nat, state: RunState)
    : Execution
    decreases branches, 0
  {
    if branches == [] then Execution(if kind.Race? then RunStopped else Done, state)
    else
      var first := Interpret(registry, branches[0].actions, base, state);
      if first.flow.Done? && kind.Race? then first
      else if first.flow.Done? || first.flow.BranchStopped? then
        InterpretBranches(registry, kind, branches[1..], base + Kept(branches[0].actions), first.state)
      else first
  }

  // ----- what groups do -------------------------------------------------------------------------

  /** What the branches do one after the other, each where the one before it left off. */
  function BranchRuns(registry: Registry, branches: seq<Branch>, base: nat, state: RunState): (runs: seq<Execution>)
    ensures |runs| == |branches|
    decreases |branches|
  {
    if branches == [] then []
    else
      var first := Interpret(registry, branches[0].actions, base, state);
      [first] + BranchRuns(registry, branches[1..], base + Kept(branches[0].actions), first.state)
  }

  lemma {:induction false} EachRunFollows(registry: Registry, branches: seq<Branch>, base: nat, state: RunState, i: nat)
    requires i < |branches|
    ensures var runs := BranchRuns(registry, branches, base, state);
            runs[i] == Interpret(registry, branches[i].actions, base + KeptBranches(branches[..i]),
                                 if i == 0 then state else runs[i - 1].state)
    decreases i
  {
    if i > 0 {
      var first := Interpret(registry, branches[0].actions, base, state);
      EachRunFollows(registry, branches[1..], base + Kept(branches[0].actions), first.state, i - 1);
      assert branches[..i][0] == branches[0] && branches[..i][1..] == branches[1..][..i - 1];
    }
  }

  /** A race goes on behind a branch that was stopped, a parallel group also behind one that is done. */
  predicate GoesOnBehind(kind: GroupKind, flow: Flow) {
    flow.BranchStopped? || (kind.Parallel? && flow.Done?)
  }

  /**
   * A race is won by its first branch that is not stopped, and fails without
   * one; a parallel group is done once all its branches are done or stopped.
   * Whatever else ends a branch ends the group.
   */
  predicate GroupEnds(kind: GroupKind, runs: seq<Execution>, state: RunState, i: nat, group: Execution) {
    && i <= |runs| && (forall j :: 0 <= j < i ==> GoesOnBehind(kind, runs[j].flow))
    && (i < |runs| ==> group == runs[i] && !GoesOnBehind(kind, group.flow))
    && (i == |runs| ==>
          && (kind.Race? ==> group.flow == RunStopped) && (kind.Parallel? ==> group.flow == Done)
          && group.state == if i == 0 then state else runs[i - 1].state)
  }

  lemma GroupEndsLater(kind: GroupKind, first: Execution, rest: seq<Execution>, state: RunState, i: nat,
                       group: Execution)
    requires GroupEnds(kind, rest, first.state, i, group) && GoesOnBehind(kind, first.flow)
    ensures GroupEnds(kind, [first] + rest, state, i + 1, group)
  {
    var runs := [first] + rest;
    assert forall j :: 0 < j < |runs| ==> runs[j] == rest[j - 1];
  }

  lemma {:induction false} GroupsMean(registry: Registry, kind: GroupKind, branches: seq<Branch>, base: nat,
                                      state: RunState) returns (i: nat)
    ensures GroupEnds(kind, BranchRuns(registry, branches, base, state), state, i,
                      InterpretBranches(registry, kind, branches, base, state))
    decreases branches
  {
    if branches == [] {
      return 0;
    }
    var first := Interpret(registry, branches[0].actions, base, state);
    if !GoesOnBehind(kind, first.flow) {
      return 0;
    }
    var later := base + Kept(branches[0].actions);
    var rest := GroupsMean(registry, kind, branches[1..], later, first.state);
    GroupEndsLater(kind, first, BranchRuns(registry, branches[1..], later, first.state), state, rest,
                   InterpretBranches(registry, kind, branches[1..], later, first.state));
    return rest + 1;
  }

  // ----- normalizing first means the same -------------------------------------------------------

  lemma {:induction false} KeptIsCounted(actions: seq<Action>)
    ensures Count(Normalize(actions)) == Kept(actions)
    decreases actions, 0
  {
    if actions != [] {
      KeptIsCounted(actions[1..]);
      if !Displaced(actions) {
        KeptActionIsCounted(actions[0]);
        assert Normalize(actions)[1..] == Normalize(actions[1..]);
      }
    }
  }

  lemma {:induction false} KeptActionIsCounted(action: Action)
    ensures CountAction(NormalizeAction(action)) == KeptAction(action)
    decreases action, 1
  {
    match action
    case Command(_, _, _, onFailure) => KeptPolicyIsCounted(onFailure);
    case Wait(_, _, onTimeout) => KeptPolicyIsCounted(onTimeout);
    case Sequence(actions) => KeptIsCounted(actions);
    case If(_, thenActions, elseActions) =>
      KeptIsCounted(thenActions);
      KeptIsCounted(elseActions);
    case Group(_, branches, _) => KeptBranchesAreCounted(branches);
    case _ =>
  }

  lemma {:induction false} KeptPolicyIsCounted(policy: FailurePolicy)
    ensures CountPolicy(NormalizePolicy(policy)) == KeptPolicy(policy)
    decreases policy, 0
  {
    if policy.Fallback? {
      KeptIsCounted(policy.actions);
    }
  }

  lemma {:induction false} KeptBranchesAreCounted(branches: seq<Branch>)
    ensures CountBranches(NormalizeBranches(branches)) == KeptBranches(branches)
    decreases branches, 0
  {
    if branches != [] {
      KeptIsCounted(branches[0].actions);
      KeptBranchesAreCounted(branches[1..]);
      assert NormalizeBranches(branches)[1..] == NormalizeBranches(branches[1..]);
    }
  }

  /** Executing the normalized tree is interpreting the authored one. */
  lemma {:induction false} NormalizedMeansAuthored(registry: Registry, actions: seq<Action>, base: nat, state: RunState)
    ensures Execute(registry, Normalize(actions), base, state) == Interpret(registry, actions, base, state)
    decreases actions, 0
  {
    if actions != [] {
      if Displaced(actions) {
        NormalizedMeansAuthored(registry, actions[1..], base, state);
      } else {
        KeptIsCounted(actions[1..]);
        assert Normalize(actions)[0] == NormalizeAction(actions[0]);
        assert Normalize(actions)[1..] == Normalize(actions[1..]);
        ActionMeansAuthored(registry, actions[0], base + Kept(actions[1..]), state);
        var first := InterpretAction(registry, actions[0], base + Kept(actions[1..]), state);
        NormalizedMeansAuthored(registry, actions[1..], base, first.state);
      }
    }
  }

  lemma {:induction false} ActionMeansAuthored(registry: Registry, action: Action, base: nat, state: RunState)
    ensures ExecuteAction(registry, NormalizeAction(action), base, state)
            == InterpretAction(registry, action, base, state)
    decreases action, 1
  {
    KeptActionIsCounted(action);
    match action
    case Command(target, payload, retry, onFailure) =>
      var after := Attempts(Resolve(registry, target), payload, retry, Own(action, base), 0, state).1;
      PolicyMeansAuthored(registry, onFailure, base, after);
    case Wait(_, _, onTimeout) =>
      if !state.Starved() {
        PolicyMeansAuthored(registry, onTimeout, base, state.Consume(Waited(Own(action, base), false)));
      }
    case Sequence(actions) => NormalizedMeansAuthored(registry, actions, base, state);
    case If(_, thenActions, elseActions) =>
      if !state.Starved() {
        KeptIsCounted(thenActions);
        NormalizedMeansAuthored(registry, thenActions, base + 1, state.Consume(Branched(Own(action, base), true)));
        NormalizedMeansAuthored(registry, elseActions, base + 1 + Kept(thenActions),
                                state.Consume(Branched(Own(action, base), false)));
      }
    case Group(kind, branches, _) =>
      BranchesMeanAuthored(registry, kind, branches, base + 1,
                           state.Trace(GroupStarted(Own(action, base), |branches|)));
    case Delay(_) =>
    case SetVariable(_, _) =>
  }

  lemma {:induction false} PolicyMeansAuthored(registry: Registry, policy: FailurePolicy, base: nat, state: RunState)
    ensures ExecutePolicy(registry, NormalizePolicy(policy), base, state)
            == InterpretPolicy(registry, policy, base, state)
    decreases policy, 0
  {
    if policy.Fallback? {
      NormalizedMeansAuthored(registry, policy.actions, base, state);
    }
  }

  lemma {:induction false} BranchesMeanAuthored(registry: Registry, kind: GroupKind, branches: seq<Branch>, base: nat,
                                                state: RunState)
    ensures ExecuteBranches(registry, kind, NormalizeBranches(branches), base, state)
            == InterpretBranches(registry, kind, branches, base, state)
    decreases branches, 0
  {
    if branches != [] {
      KeptIsCounted(branches[0].actions);
      assert NormalizeBranches(branches)[1..] == NormalizeBranches(branches[1..]);
      NormalizedMeansAuthored(registry, branches[0].actions, base, state);
      var first := Interpret(registry, branches[0].actions, base, state);
      BranchesMeanAuthored(registry, kind, branches[1..], base + Kept(branches[0].actions), first.state);
    }
  }

  // ----- trees that stay as they are --------------------------------------------------------------

  /** No command of the tree is overwritten within its run, at any depth and in no fallback. */
  predicate NothingOverwritten(actions: seq<Action>)
    decreases actions, 0
  {
    actions == []
    || (!Displaced(actions) && NothingOverwrittenIn(actions[0]) && NothingOverwritten(actions[1..]))
  }

  predicate NothingOverwrittenIn(action: Action)
    decreases action, 1
  {
    match action
    case Command(_, _, _, onFailure) => onFailure.Fallback? ==> NothingOverwritten(onFailure.actions)
    case Wait(_, _, onTimeout) => onTimeout.Fallback? ==> NothingOverwritten(onTimeout.actions)
    case Sequence(actions) => NothingOverwritten(actions)
    case If(_, thenActions, elseActions) => NothingOverwritten(thenActions) && NothingOverwritten(elseActions)
    case Group(_, branches, _) => forall i :: 0 <= i < |branches| ==> NothingOverwritten(branches[i].actions)
    case _ => true
  }

  /** A tree is its own normal form exactly if nothing in it is overwritten. */
  lemma {:induction false} NormalIffNothingOverwritten(actions: seq<Action>)
    ensures Normalize(actions) == actions <==> NothingOverwritten(actions)
    ensures |Normalize(actions)| <= |actions|
    decreases actions, 0
  {
    if actions != [] {
      NormalIffNothingOverwritten(actions[1..]);
      if !Displaced(actions) {
        ActionNormalIffNothingOverwritten(actions[0]);
        assert actions == [actions[0]] + actions[1..];
        assert Normalize(actions)[0] == NormalizeAction(actions[0]);
        assert Normalize(actions)[1..] == Normalize(actions[1..]);
      }
    }
  }

  lemma {:induction false} ActionNormalIffNothingOverwritten(action: Action)
    ensures NormalizeAction(action) == action <==> NothingOverwrittenIn(action)
    decreases action, 1
  {
    match action
    case Command(_, _, _, onFailure) =>
      if onFailure.Fallback? {
        NormalIffNothingOverwritten(onFailure.actions);
      }
    case Wait(_, _, onTimeout) =>
      if onTimeout.Fallback? {
        NormalIffNothingOverwritten(onTimeout.actions);
      }
    case Sequence(actions) => NormalIffNothingOverwritten(actions);
    case If(_, thenActions, elseActions) =>
      NormalIffNothingOverwritten(thenActions);
      NormalIffNothingOverwritten(elseActions);
    case Group(_, branches, _) => BranchesNormalIffNothingOverwritten(branches);
    case _ =>
  }

  lemma {:induction false} BranchesNormalIffNothingOverwritten(branches: seq<Branch>)
    ensures NormalizeBranches(branches) == branches
            <==> forall i :: 0 <= i < |branches| ==> NothingOverwritten(branches[i].actions)
    decreases branches, 0
  {
    if branches != [] {
      NormalIffNothingOverwritten(branches[0].actions);
      BranchesNormalIffNothingOverwritten(branches[1..]);
      var normal := NormalizeBranches(branches);
      assert branches == [branches[0]] + branches[1..];
      assert normal == [Branch(Normalize(branches[0].actions))] + NormalizeBranches(branches[1..]);
      assert forall i :: 0 <= i < |branches| - 1 ==> branches[1..][i] == branches[i + 1];
      assert branches[0] == Branch(branches[0].actions);
    }
  }
}
