/**
 * Which documents compile: what an author must have written, said of the tree
 * as it was written. Commands that are overwritten within their run need not
 * be well formed, because the compiler never looks at them.
 */
module Acceptance {
  import opened Wrappers
  import opened Domain
  import opened Evaluator
  import opened Reduction
  import opened Lowering
  import opened Authored
  import opened Compiler

  // ----- expressions and conditions ---------------------------------------------------------

  /** The type an expression has, if it may be used. */
  function Typing(context: Context, expression: AuthoredExpression): Option<ValueType> {
    match expression
    case Literal(value) => if ValidValue(value) then Some(value.Type()) else None
    case Variable(name) =>
      if name in context.definitions then Some(context.definitions[name].valueType) else None
    case Observation(target, field) =>
      if target in context.registry.resolved && |context.registry.resolved[target]| == 1
      then FieldType(target.capability, field) else None
  }

  /** Equality is for all types; null and truth values have no order. */
  predicate Comparable(left: Option<ValueType>, operator: Comparison, right: Option<ValueType>) {
    && left.Some? && left == right
    && (left.value in {NullType, BooleanType} ==> operator in {Equal, NotEqual})
  }

  predicate AcceptsCondition(context: Context, condition: AuthoredCondition, depth: nat)
    decreases condition
  {
    && depth <= context.budget.maximumNestingDepth
    && match condition
       case Constant(_) => true
       case Compare(left, operator, right) => Comparable(Typing(context, left), operator, Typing(context, right))
       case All(conditions) =>
         conditions != []
         && forall i :: 0 <= i < |conditions| ==> AcceptsCondition(context, conditions[i], depth + 1)
       case Any(conditions) =>
         conditions != []
         && forall i :: 0 <= i < |conditions| ==> AcceptsCondition(context, conditions[i], depth + 1)
       case Not(inner) => AcceptsCondition(context, inner, depth + 1)
       case TimeWindow(zone, start, end) =>
         zone in context.registry.zones && {start, end} <= context.registry.clockTexts.Keys
       case StateDuration(inner, durationMs) => ValidTimer(durationMs) && AcceptsCondition(context, inner, depth + 1)
  }

  // ----- actions --------------------------------------------------------------------------

  /** The target exists and can do what the payload says, within the bounds of retrying. */
  predicate AcceptsCommand(context: Context, target: TargetReference, payload: Payload, retry: RetryPolicy) {
    && payload.Schema() == target.capability && payload.InRange()
    && retry.maximumRetries <= MAX_RETRIES && retry.backoffMs <= MAX_TIMER_MILLIS
    && target in context.registry.resolved
    && (target in context.registry.unsafePositions ==> !payload.GoTo?)
  }

  predicate AcceptsList(context: Context, actions: seq<Action>, depth: nat)
    decreases actions, 1
  {
    depth <= context.budget.maximumNestingDepth && AcceptsEach(context, actions, depth)
  }

  predicate AcceptsEach(context: Context, actions: seq<Action>, depth: nat)
    decreases actions, 0
  {
    actions == []
    || ((Displaced(actions) || AcceptsAction(context, actions[0], depth)) && AcceptsEach(context, actions[1..], depth))
  }

  predicate AcceptsAction(context: Context, action: Action, depth: nat)
    decreases action, 2
  {
    match action
    case Command(target, payload, retry, onFailure) =>
      AcceptsCommand(context, target, payload, retry) && AcceptsPolicy(context, onFailure, depth + 1)
    case Delay(durationMs) => ValidTimer(durationMs)
    case Wait(condition, timeoutMs, onTimeout) =>
      && ValidTimer(timeoutMs) && AcceptsCondition(context, condition, depth + 1)
      && AcceptsPolicy(context, onTimeout, depth + 1)
    case SetVariable(name, expression) =>
      name in context.definitions && Typing(context, expression) == Some(context.definitions[name].valueType)
    case Sequence(actions) => AcceptsList(context, actions, depth + 1)
    case If(condition, thenActions, elseActions) =>
      && !condition.Constant? && AcceptsCondition(context, condition, depth + 1)
      && AcceptsList(context, thenActions, depth + 1) && AcceptsList(context, elseActions, depth + 1)
    case Group(_, branches, maximumParallel) =>
      && 0 < maximumParallel <= |branches| <= context.budget.maximumParallelWidth
      && AcceptsBranches(context, branches, depth + 1)
  }

  predicate AcceptsPolicy(context: Context, policy: FailurePolicy, depth: nat)
    decreases policy, 2
  {
    policy.Fallback? ==> policy.actions != [] && AcceptsList(context, policy.actions, depth)
  }

  predicate AcceptsBranches(context: Context, branches: seq<Branch>, depth: nat)
    decreases branches, 2
  {
    forall i :: 0 <= i < |branches| ==> branches[i].actions != [] && AcceptsList(context, branches[i].actions, depth)
  }

  /** What a document must be for a plan to be made of it. */
  predicate Acceptable(registry: Registry, document: Document) {
    var context := ContextOf(registry, document);
    && document.actions != [] && WithinBounds(document.budget) && RunModeFits(document.runMode, document.budget)
    && (forall name :: name in document.variables && document.variables[name].initial.Some? ==>
          var initial := document.variables[name].initial.value;
          ValidValue(initial) && initial.Type() == document.variables[name].valueType)
    && (document.guard.Some? ==> AcceptsCondition(context, document.guard.value, 1))
    && AcceptsList(context, document.actions, 1)
    && Kept(document.actions) < document.budget.maximumNodes
  }

  // ----- the compiler finds nothing exactly if all of it is accepted ------------------------

  lemma ExpressionAcceptedIff(context: Context, expression: AuthoredExpression)
    ensures var check := CheckExpression(context.registry, context.definitions, expression);
            && (check.findings == 0 <==> Typing(context, expression).Some?)
            && (check.findings == 0 ==> check.valueType == Typing(context, expression))
  {
  }

  lemma {:induction false} ConditionAcceptedIff(context: Context, condition: AuthoredCondition, depth: nat)
    ensures CheckIn(context, condition, depth).findings == 0 <==> AcceptsCondition(context, condition, depth)
    decreases condition
  {
    if depth <= context.budget.maximumNestingDepth {
      match condition
      case Compare(left, _, right) =>
        ExpressionAcceptedIff(context, left);
        ExpressionAcceptedIff(context, right);
      case All(conditions) => ConditionsAcceptedIff(context, conditions, depth + 1);
      case Any(conditions) => ConditionsAcceptedIff(context, conditions, depth + 1);
      case Not(inner) => ConditionAcceptedIff(context, inner, depth + 1);
      case StateDuration(inner, _) => ConditionAcceptedIff(context, inner, depth + 1);
      case Constant(_) =>
      case TimeWindow(_, _, _) =>
    }
  }

  lemma {:induction false} ConditionsAcceptedIff(context: Context, conditions: seq<AuthoredCondition>, depth: nat)
    ensures CheckConditions(context.registry, context.definitions, conditions, depth,
                            context.budget.maximumNestingDepth).findings == 0
            <==> forall i :: 0 <= i < |conditions| ==> AcceptsCondition(context, conditions[i], depth)
    decreases conditions
  {
    if conditions != [] {
      ConditionAcceptedIff(context, conditions[0], depth);
      ConditionsAcceptedIff(context, conditions[1..], depth);
      assert forall i :: 0 < i < |conditions| ==> conditions[i] == conditions[1..][i - 1];
    }
  }

  lemma {:induction false} NormalIsEmptyIff(actions: seq<Action>)
    ensures Normalize(actions) == [] <==> actions == []
  {
    if |actions| > 1 {
      NormalIsEmptyIff(actions[1..]);
    }
  }

  lemma {:induction false} ListAcceptedIff(context: Context, actions: seq<Action>, nodes: seq<Node>,
                                           next: Option<NodeId>, depth: nat)
    ensures LowerList(context, Normalize(actions), nodes, next, depth).findings == 0
            <==> AcceptsList(context, actions, depth)
    decreases actions, 1
  {
    EachAcceptedIff(context, actions, nodes, next, depth);
  }

  lemma {:induction false} EachAcceptedIff(context: Context, actions: seq<Action>, nodes: seq<Node>,
                                           next: Option<NodeId>, depth: nat)
    ensures LowerEach(context, Normalize(actions), nodes, next, depth).findings == 0
            <==> AcceptsEach(context, actions, depth)
    decreases actions, 0
  {
    if actions != [] {
      EachAcceptedIff(context, actions[1..], nodes, next, depth);
      if !Displaced(actions) {
        assert Normalize(actions)[1..] == Normalize(actions[1..]);
        var rest := LowerEach(context, Normalize(actions[1..]), nodes, next, depth);
        ActionAcceptedIff(context, actions[0], rest.nodes, rest.entry, depth);
      }
    }
  }

  lemma CommandAcceptedIff(context: Context, target: TargetReference, payload: Payload, retry: RetryPolicy)
    ensures CommandFindings(context, target, payload, retry) == 0 <==> AcceptsCommand(context, target, payload, retry)
  {
  }

  lemma {:induction false} ActionAcceptedIff(context: Context, action: Action, nodes: seq<Node>,
                                             next: Option<NodeId>, depth: nat)
    ensures LowerAction(context, NormalizeAction(action), nodes, next, depth).findings == 0
            <==> AcceptsAction(context, action, depth)
    decreases action, 2
  {
    match action
    case Command(target, payload, retry, onFailure) =>
      CommandAcceptedIff(context, target, payload, retry);
      PolicyAcceptedIff(context, onFailure, nodes, next, depth + 1);
    case Delay(_) =>
    case Wait(condition, _, onTimeout) =>
      ConditionAcceptedIff(context, condition, depth + 1);
      PolicyAcceptedIff(context, onTimeout, nodes, next, depth + 1);
    case SetVariable(_, expression) => ExpressionAcceptedIff(context, expression);
    case Sequence(actions) => ListAcceptedIff(context, actions, nodes, next, depth + 1);
    case If(condition, thenActions, elseActions) =>
      var join := Some(|nodes|);
      ConditionAcceptedIff(context, condition, depth + 1);
      ListAcceptedIff(context, thenActions, nodes + [JoinNode(next)], join, depth + 1);
      var thenPart := LowerList(context, Normalize(thenActions), nodes + [JoinNode(next)], join, depth + 1);
      ListAcceptedIff(context, elseActions, thenPart.nodes, join, depth + 1);
    case Group(_, branches, _) =>
      BranchesAcceptedIff(context, branches, nodes + [JoinNode(next)], |nodes|, depth + 1);
  }

  lemma {:induction false} PolicyAcceptedIff(context: Context, policy: FailurePolicy, nodes: seq<Node>,
                                             next: Option<NodeId>, depth: nat)
    ensures LowerPolicy(context, NormalizePolicy(policy), nodes, next, depth).findings == 0
            <==> AcceptsPolicy(context, policy, depth)
    decreases policy, 2
  {
    if policy.Fallback? {
      NormalIsEmptyIff(policy.actions);
      ListAcceptedIff(context, policy.actions, nodes, next, depth);
    }
  }

  lemma {:induction false} BranchesAcceptedIff(context: Context, branches: seq<Branch>, nodes: seq<Node>,
                                               join: NodeId, depth: nat)
    ensures |NormalizeBranches(branches)| == |branches|
    ensures LowerBranches(context, NormalizeBranches(branches), nodes, join, depth).findings == 0
            <==> AcceptsBranches(context, branches, depth)
    decreases branches, 2
  {
    if branches != [] {
      var first := LowerList(context, Normalize(branches[0].actions), nodes, Some(join), depth);
      NormalIsEmptyIff(branches[0].actions);
      ListAcceptedIff(context, branches[0].actions, nodes, Some(join), depth);
      BranchesAcceptedIff(context, branches[1..], first.nodes, join, depth);
      assert NormalizeBranches(branches)[1..] == NormalizeBranches(branches[1..]);
      assert forall i :: 0 < i < |branches| ==> branches[i] == branches[1..][i - 1];
    }
  }

  lemma InitialsAcceptedIff(variables: map<string, VariableDefinition>)
    ensures |MalformedInitials(variables)| + |MistypedInitials(variables)| == 0
            <==> forall name :: name in variables && variables[name].initial.Some? ==>
                   var initial := variables[name].initial.value;
                   ValidValue(initial) && initial.Type() == variables[name].valueType
  {
    var malformed, mistyped := MalformedInitials(variables), MistypedInitials(variables);
    forall name | name in variables && variables[name].initial.Some?
      ensures var initial := variables[name].initial.value;
              && (ValidValue(initial) <==> name !in malformed)
              && (initial.Type() == variables[name].valueType <==> name !in mistyped)
    {
    }
    if malformed != {} {
      var name :| name in malformed;
    }
    if mistyped != {} {
      var name :| name in mistyped;
    }
  }

  /** A document compiles exactly if it is acceptable. */
  lemma CompilesIff(registry: Registry, document: Document)
    ensures Compile(registry, document).Ok? <==> Acceptable(registry, document)
  {
    var context := ContextOf(registry, document);
    InitialsAcceptedIff(document.variables);
    ListAcceptedIff(context, document.actions, [Complete], Some(0), 1);
    ListExtends(context, Normalize(document.actions), [Complete], Some(0), 1);
    KeptIsCounted(document.actions);
    if document.guard.Some? {
      ConditionAcceptedIff(context, document.guard.value, 1);
    }
  }
}
