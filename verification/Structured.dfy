/**
 * Reference semantics: a direct interpretation of the normalized action tree.
 * It knows nothing of nodes or continuations; `base` only numbers the actions
 * so that traces can be compared with those of a plan.
 */
module Structured {
  import opened Wrappers
  import opened Domain
  import opened Evaluator
  import opened Lowering

  /** How a piece of the tree ends. */
  datatype Flow =
    | Done
    | BranchStopped
    | RunStopped
    | Starving
    | Broken(error: EvaluationError)

  datatype Execution = Execution(flow: Flow, state: RunState)

  predicate MayRetry(retry: RetryPolicy, attempt: nat, outcome: CommandOutcome) {
    attempt < retry.maximumRetries && outcome.error.Some? && outcome.error.value in retry.retryable
  }

  /** Attempts until one is confirmed or may not be repeated. */
  function Attempts(targets: seq<Target>, payload: Payload, retry: RetryPolicy, own: NodeId, attempt: nat,
                    state: RunState): (bool, RunState)
    decreases if attempt < retry.maximumRetries then retry.maximumRetries - attempt else 0
  {
    if state.Starved() then (false, state)
    else
      var outcome := state.Read().outcome;
      var after := state.Consume(Attempted(own, targets, payload, attempt, outcome));
      if outcome.state == Confirmed || !MayRetry(retry, attempt, outcome) then (true, after)
      else Attempts(targets, payload, retry, own, attempt + 1, after)
  }

  function LastOutcome(log: seq<Event>): CommandOutcome
    requires log != [] && log[|log| - 1].Attempted?
  {
    log[|log| - 1].outcome
  }

  lemma {:induction false} AttemptsEndInAttempt(targets: seq<Target>, payload: Payload, retry: RetryPolicy,
                                                own: NodeId, attempt: nat, state: RunState)
    ensures var (ended, after) := Attempts(targets, payload, retry, own, attempt, state);
            && state.log <= after.log
            && (ended ==> after.log != [] && after.log[|after.log| - 1].Attempted?)
    decreases if attempt < retry.maximumRetries then retry.maximumRetries - attempt else 0
  {
    if !state.Starved() {
      var outcome := state.Read().outcome;
      var after := state.Consume(Attempted(own, targets, payload, attempt, outcome));
      if outcome.state != Confirmed && MayRetry(retry, attempt, outcome) {
        AttemptsEndInAttempt(targets, payload, retry, own, attempt + 1, after);
      }
    }
  }

  function Execute(registry: Registry, actions: seq<Action>, base: nat, state: RunState): Execution
    decreases actions, 0
  {
    if actions == [] then Execution(Done, state)
    else
      var first := ExecuteAction(registry, actions[0], base + Count(actions[1..]), state);
      if first.flow.Done? then Execute(registry, actions[1..], base, first.state) else first
  }

  function ExecuteAction(registry: Registry, action: Action, base: nat, state: RunState): Execution
    decreases action, 1
  {
    var own := base + CountAction(action) - 1;
    match action
    case Command(target, payload, retry, onFailure) =>
      var (ended, after) := Attempts(Resolve(registry, target), payload, retry, own, 0, state);
      AttemptsEndInAttempt(Resolve(registry, target), payload, retry, own, 0, state);
      if !ended then Execution(Starving, after)
      else if LastOutcome(after.log).state == Confirmed then Execution(Done, after)
      else ExecutePolicy(registry, onFailure, base, after)
    case Delay(durationMs) => Execution(Done, state.Trace(Delayed(own, durationMs)))
    case Wait(condition, _, onTimeout) =>
      if state.Starved() then Execution(Starving, state)
      else
        (match Decide(registry, condition, state)
         case Err(error) => Execution(Broken(error), state)
         case Ok(satisfied) =>
           var after := state.Consume(Waited(own, satisfied));
           if satisfied then Execution(Done, after) else ExecutePolicy(registry, onTimeout, base, after))
    case SetVariable(name, expression) =>
      if state.Starved() then Execution(Starving, state)
      else
        (match EvaluateExpression(ResolveExpression(registry, expression), state.variables, state.Read())
         case Err(error) => Execution(Broken(error), state)
         case Ok(value) =>
           var after := state.Consume(Assigned(own, name, value));
           Execution(Done, after.(variables := after.variables[name := value])))
    case Sequence(actions) => Execute(registry, actions, base, state)
    case If(condition, thenActions, elseActions) =>
      if state.Starved() then Execution(Starving, state)
      else
        (match Decide(registry, condition, state)
         case Err(error) => Execution(Broken(error), state)
         case Ok(selected) =>
           var after := state.Consume(Branched(own, selected));
           if selected then Execute(registry, thenActions, base + 1, after)
           else Execute(registry, elseActions, base + 1 + Count(thenActions), after))
    case Group(kind, branches, _) =>
      ExecuteBranches(registry, kind, branches, base + 1, state.Trace(GroupStarted(own, |branches|)))
  }

  function Decide(registry: Registry, condition: AuthoredCondition, state: RunState): Result<bool, EvaluationError>
    requires !state.Starved()
  {
    EvaluateCondition(registry, ResolveCondition(registry, condition), state.variables, state.Read())
  }

  function ExecutePolicy(registry: Registry, policy: FailurePolicy, base: nat, state: RunState): Execution
    decreases policy, 0
  {
    match policy
    case StopRun => Execution(RunStopped, state)
    case StopBranch => Execution(BranchStopped, state)
    case Continue => Execution(Done, state)
    case Fallback(actions) => Execute(registry, actions, base, state)
  }

  /**
   * Branches run one after the other. A parallel group absorbs a stopped
   * branch; a race ends at the first branch that did not stop and stops the
   * run when every branch did.
   */
  function ExecuteBranches(registry: Registry, kind: GroupKind, branches: seq<Branch>, base: nat, state: RunState)
    : Execution
    decreases branches, 0
  {
    if branches == [] then Execution(if kind.Race? then RunStopped else Done, state)
    else
      var first := Execute(registry, branches[0].actions, base, state);
      if first.flow.Done? && kind.Race? then first
      else if first.flow.Done? || first.flow.BranchStopped? then
        ExecuteBranches(registry, kind, branches[1..], base + Count(branches[0].actions), first.state)
      else first
  }

  // ----- every action is entered at most once -------------------------------------

  /** Key under which an event may appear at most once in a run. */
  function Key(event: Event): (NodeId, nat) {
    match event
    case Attempted(node, _, _, attempt, _) => (node, attempt)
    case Delayed(node, _) => (node, 0)
    case Waited(node, _) => (node, 0)
    case Assigned(node, _, _) => (node, 0)
    case Branched(node, _) => (node, 0)
    case GroupStarted(node, _) => (node, 0)
    case Finished(node) => (node, 0)
  }

  /** `after` continues `before` with events of actions numbered below `high`, none twice. */
  ghost predicate Adds(before: seq<Event>, after: seq<Event>, low: nat, high: nat) {
    && before <= after
    && (forall i :: |before| <= i < |after| ==> low <= Key(after[i]).0 < high)
    && (forall i, j :: |before| <= i < j < |after| ==> Key(after[i]) != Key(after[j]))
  }

  lemma {:induction false} AttemptsAreDistinct(targets: seq<Target>, payload: Payload, retry: RetryPolicy,
                                               own: NodeId, attempt: nat, state: RunState)
    ensures var after := Attempts(targets, payload, retry, own, attempt, state).1;
            && Adds(state.log, after.log, own, own + 1)
            && (forall i :: |state.log| <= i < |after.log| ==>
                  Key(after.log[i]) == (own, attempt + (i - |state.log|)))
    decreases if attempt < retry.maximumRetries then retry.maximumRetries - attempt else 0
  {
    if !state.Starved() {
      var outcome := state.Read().outcome;
      var after := state.Consume(Attempted(own, targets, payload, attempt, outcome));
      if outcome.state != Confirmed && MayRetry(retry, attempt, outcome) {
        AttemptsAreDistinct(targets, payload, retry, own, attempt + 1, after);
      }
    }
  }

  lemma {:induction false} ExecuteAddsOnce(registry: Registry, actions: seq<Action>, base: nat, state: RunState)
    ensures Adds(state.log, Execute(registry, actions, base, state).state.log, base, base + Count(actions))
    decreases actions, 0
  {
    if actions != [] {
      var middle := base + Count(actions[1..]);
      ActionAddsOnce(registry, actions[0], middle, state);
      var first := ExecuteAction(registry, actions[0], middle, state);
      if first.flow.Done? {
        ExecuteAddsOnce(registry, actions[1..], base, first.state);
        var rest := Execute(registry, actions[1..], base, first.state);
        AddsChain(state.log, first.state.log, rest.state.log, base, middle, base + Count(actions));
      }
    }
  }

  /** Two additions over disjoint numbers make one. */
  lemma AddsChain(first: seq<Event>, second: seq<Event>, third: seq<Event>, low: nat, middle: nat, high: nat)
    requires low <= middle <= high
    requires || (Adds(first, second, middle, high) && Adds(second, third, low, middle))
             || (Adds(first, second, low, middle) && Adds(second, third, middle, high))
    ensures Adds(first, third, low, high)
  {
    assert forall i :: |first| <= i < |second| ==> third[i] == second[i];
  }

  lemma {:induction false} ActionAddsOnce(registry: Registry, action: Action, base: nat, state: RunState)
    ensures Adds(state.log, ExecuteAction(registry, action, base, state).state.log, base, base + CountAction(action))
    decreases action, 1
  {
    match action
    case Command(_, _, _, _) => CommandAddsOnce(registry, action, base, state);
    case Wait(_, _, _) => WaitAddsOnce(registry, action, base, state);
    case Sequence(actions) => ExecuteAddsOnce(registry, actions, base, state);
    case If(_, _, _) => IfAddsOnce(registry, action, base, state);
    case Group(kind, branches, _) =>
      var own := base + CountAction(action) - 1;
      var after := state.Trace(GroupStarted(own, |branches|));
      BranchesAddOnce(registry, kind, branches, base + 1, after);
      AddsChain(state.log, after.log, ExecuteBranches(registry, kind, branches, base + 1, after).state.log, base, own,
                own + 1);
    case Delay(_) =>
    case SetVariable(_, _) =>
  }

  lemma {:induction false} CommandAddsOnce(registry: Registry, action: Action, base: nat, state: RunState)
    requires action.Command?
    ensures Adds(state.log, ExecuteAction(registry, action, base, state).state.log, base, base + CountAction(action))
    decreases action, 0
  {
    var own := base + CountAction(action) - 1;
    var targets := Resolve(registry, action.target);
    AttemptsAreDistinct(targets, action.payload, action.retry, own, 0, state);
    var after := Attempts(targets, action.payload, action.retry, own, 0, state).1;
    PolicyAddsOnce(registry, action.onFailure, base, after);
    AddsChain(state.log, after.log, ExecutePolicy(registry, action.onFailure, base, after).state.log, base, own,
              own + 1);
  }

  lemma {:induction false} WaitAddsOnce(registry: Registry, action: Action, base: nat, state: RunState)
    requires action.Wait?
    ensures Adds(state.log, ExecuteAction(registry, action, base, state).state.log, base, base + CountAction(action))
    decreases action, 0
  {
    var own := base + CountAction(action) - 1;
    if !state.Starved() && Decide(registry, action.condition, state) == Ok(false) {
      var after := state.Consume(Waited(own, false));
      PolicyAddsOnce(registry, action.onTimeout, base, after);
      AddsChain(state.log, after.log, ExecutePolicy(registry, action.onTimeout, base, after).state.log, base, own,
                own + 1);
    }
  }

  lemma {:induction false} IfAddsOnce(registry: Registry, action: Action, base: nat, state: RunState)
    requires action.If?
    ensures Adds(state.log, ExecuteAction(registry, action, base, state).state.log, base, base + CountAction(action))
    decreases action, 0
  {
    var own := base + CountAction(action) - 1;
    if !state.Starved() && Decide(registry, action.condition, state).Ok? {
      var after := state.Consume(Branched(own, Decide(registry, action.condition, state).value));
      ExecuteAddsOnce(registry, action.thenActions, base + 1, after);
      ExecuteAddsOnce(registry, action.elseActions, base + 1 + Count(action.thenActions), after);
      AddsChain(state.log, after.log, ExecuteAction(registry, action, base, state).state.log, base, own, own + 1);
    }
  }

  lemma {:induction false} PolicyAddsOnce(registry: Registry, policy: FailurePolicy, base: nat, state: RunState)
    ensures Adds(state.log, ExecutePolicy(registry, policy, base, state).state.log, base, base + CountPolicy(policy))
    decreases policy, 0
  {
    if policy.Fallback? {
      ExecuteAddsOnce(registry, policy.actions, base, state);
    }
  }

  lemma {:induction false} BranchesAddOnce(registry: Registry, kind: GroupKind, branches: seq<Branch>, base: nat,
                                           state: RunState)
    ensures Adds(state.log, ExecuteBranches(registry, kind, branches, base, state).state.log, base,
                 base + CountBranches(branches))
    decreases branches, 0
  {
    if branches != [] {
      var middle := base + Count(branches[0].actions);
      var first := Execute(registry, branches[0].actions, base, state);
      ExecuteAddsOnce(registry, branches[0].actions, base, state);
      BranchesAddOnce(registry, kind, branches[1..], middle, first.state);
      AddsChain(state.log, first.state.log,
                ExecuteBranches(registry, kind, branches[1..], middle, first.state).state.log,
                base, middle, base + CountBranches(branches));
    }
  }
}
