/**
 * The compiler: one pass that reduces, checks and lowers at every nesting
 * level. Its methods are proved to lower the normalized tree.
 */
module Compiler {
  import opened Wrappers
  import opened Domain
  import opened Evaluator
  import opened Reduction
  import opened Lowering

  const MAX_PLAN_NODES: nat := 2048
  const MAX_NESTING_DEPTH: nat := 32
  const MAX_PARALLEL_WIDTH: nat := 32
  const MAX_QUEUE_LENGTH: nat := 1024
  const MAX_TRACE_STEPS: nat := 100000

  // ----- document-level checks --------------------------------------------------

  predicate WithinBounds(budget: Budget) {
    && 0 < budget.maximumNodes <= MAX_PLAN_NODES
    && 0 < budget.maximumNestingDepth <= MAX_NESTING_DEPTH
    && 0 < budget.maximumParallelWidth <= MAX_PARALLEL_WIDTH
    && 0 < budget.maximumQueueLength <= MAX_QUEUE_LENGTH
    && 0 < budget.maximumTraceSteps <= MAX_TRACE_STEPS
    && 0 < budget.maximumRunDurationMs <= MAX_TIMER_MILLIS
  }

  predicate RunModeFits(mode: RunMode, budget: Budget) {
    match mode
    case Queued(capacity) => 0 < capacity <= budget.maximumQueueLength
    case Concurrent(maximumParallel) => 0 < maximumParallel <= budget.maximumParallelWidth
    case _ => true
  }

  /** Variables whose initial value is malformed, or has another type than declared. */
  function MalformedInitials(variables: map<string, VariableDefinition>): set<string> {
    set name | name in variables && variables[name].initial.Some? && !ValidValue(variables[name].initial.value)
  }

  function MistypedInitials(variables: map<string, VariableDefinition>): set<string> {
    set name | name in variables && variables[name].initial.Some?
               && variables[name].initial.value.Type() != variables[name].valueType
  }

  function StructureFindings(document: Document): nat {
    Finding(document.actions == [])
    + Finding(!WithinBounds(document.budget))
    + Finding(!RunModeFits(document.runMode, document.budget))
    + |MalformedInitials(document.variables)|
    + |MistypedInitials(document.variables)|
  }

  // ----- what a compilation yields ------------------------------------------------

  function ContextOf(registry: Registry, document: Document): Context {
    Context(registry, document.variables, document.budget)
  }

  /** The whole tree behind the completing node, which comes first. */
  function LoweredDocument(registry: Registry, document: Document): Lowered {
    LowerList(ContextOf(registry, document), Normalize(document.actions), [Complete], Some(0), 1)
  }

  function GuardCheck(registry: Registry, document: Document): Check {
    if document.guard.None? then Check(true, 0)
    else CheckIn(ContextOf(registry, document), document.guard.value, 1)
  }

  function Findings(registry: Registry, document: Document): nat {
    var lowered := LoweredDocument(registry, document);
    StructureFindings(document)
    + GuardCheck(registry, document).findings
    + lowered.findings
    + Finding(|lowered.nodes| > document.budget.maximumNodes)
  }

  /** A plan, or the number of findings that prevent one. */
  function Compile(registry: Registry, document: Document): (r: Result<Plan, nat>)
    ensures r.Ok? <==> Findings(registry, document) == 0
    ensures r.Ok? ==> 0 < |r.value.nodes| <= document.budget.maximumNodes && r.value.entry < |r.value.nodes|
    ensures r.Ok? ==> r.value.nodes[0] == Complete
  {
    var lowered := LoweredDocument(registry, document);
    ListExtends(ContextOf(registry, document), Normalize(document.actions), [Complete], Some(0), 1);
    if Findings(registry, document) != 0 then Err(Findings(registry, document))
    else
      EntryInPlan(registry, document);
      var guard := if document.guard.None? then None else Some(ResolveCondition(registry, document.guard.value));
      assert lowered.nodes[0] == [Complete][0];
      Ok(Plan(lowered.nodes, lowered.entry.value, document.variables, guard))
  }

  lemma EntryInPlan(registry: Registry, document: Document)
    requires LoweredDocument(registry, document).findings == 0
    ensures var lowered := LoweredDocument(registry, document);
            lowered.entry.Some? && lowered.entry.value < |lowered.nodes|
  {
    ListExtends(ContextOf(registry, document), Normalize(document.actions), [Complete], Some(0), 1);
    EntryBelow(ContextOf(registry, document), Normalize(document.actions), [Complete], 0, 1);
  }

  lemma {:induction false} EntryBelow(context: Context, actions: seq<Action>, nodes: seq<Node>, next: NodeId,
                                      depth: nat)
    requires LowerList(context, actions, nodes, Some(next), depth).findings == 0 && next < |nodes|
    ensures var lowered := LowerList(context, actions, nodes, Some(next), depth);
            lowered.entry.Some? && lowered.entry.value < |lowered.nodes|
    decreases actions
  {
    if actions != [] {
      EachExtends(context, actions[1..], nodes, Some(next), depth);
      var rest := LowerEach(context, actions[1..], nodes, Some(next), depth);
      assert LowerList(context, actions[1..], nodes, Some(next), depth) == rest;
      EntryBelow(context, actions[1..], nodes, next, depth);
      ActionExtends(context, actions[0], rest.nodes, rest.entry, depth);
      if actions[0].Sequence? {
        EntryBelow(context, actions[0].actions, rest.nodes, rest.entry.value, depth + 1);
      }
    }
  }

  lemma {:induction false} NormalizeKeepsEmptiness(actions: seq<Action>)
    ensures Normalize(actions) == [] <==> actions == []
    decreases |actions|
  {
    if actions != [] && Displaced(actions) {
      NormalizeKeepsEmptiness(actions[1..]);
    }
  }

  lemma NormalBranchesUnfold(context: Context, branches: seq<Branch>, nodes: seq<Node>, join: NodeId, depth: nat)
    requires branches != []
    ensures var actions := Normalize(branches[0].actions);
            var first := LowerList(context, actions, nodes, Some(join), depth);
            var rest := LowerBranches(context, NormalizeBranches(branches[1..]), first.nodes, join, depth);
            LowerBranches(context, NormalizeBranches(branches), nodes, join, depth)
            == LoweredBranches(rest.nodes, Finding(actions == []) + first.findings + rest.findings,
                               (if first.entry.Some? then [first.entry.value] else []) + rest.entries)
  {
    var normal := NormalizeBranches(branches);
    assert normal[0] == Branch(Normalize(branches[0].actions)) && normal[1..] == NormalizeBranches(branches[1..]);
  }

  /** A compiler step that started with `before` findings did what `lowered` says. */
  predicate Produced(lowered: Lowered, before: nat, nodes: seq<Node>, findings: nat, entry: Option<NodeId>) {
    nodes == lowered.nodes && findings == before + lowered.findings && entry == lowered.entry
  }

  /** The check and the resolution of a list, one member at a time. */
  lemma ConditionsSplit(registry: Registry, definitions: map<string, VariableDefinition>,
                        conditions: seq<AuthoredCondition>, index: nat, depth: nat, maximum: nat)
    requires index < |conditions|
    ensures var first := CheckCondition(registry, definitions, conditions[index], depth, maximum);
            var rest := CheckConditions(registry, definitions, conditions[index + 1..], depth, maximum);
            CheckConditions(registry, definitions, conditions[index..], depth, maximum)
            == Check(first.compiled && rest.compiled, first.findings + rest.findings)
    ensures ResolveConditions(registry, conditions[index..])
            == [ResolveCondition(registry, conditions[index])] + ResolveConditions(registry, conditions[index + 1..])
  {
    assert conditions[index..][1..] == conditions[index + 1..];
  }

  // ----- the compiler object ----------------------------------------------------------

  class PlanCompiler {
    const context: Context
    var findings: nat
    var nodes: seq<Node>

    constructor (context: Context)
      ensures this.context == context && findings == 0 && nodes == []
    {
      this.context := context;
      findings := 0;
      nodes := [];
    }

    /** Nesting levels still allowed below `depth`. */
    function Remaining(depth: nat): nat {
      if depth <= context.budget.maximumNestingDepth then context.budget.maximumNestingDepth + 1 - depth else 0
    }

    method PushNode(node: Node) returns (id: NodeId)
      modifies `nodes
      ensures nodes == old(nodes) + [node] && id == |old(nodes)|
    {
      id := |nodes|;
      nodes := nodes + [node];
    }

    method Report(complaint: bool)
      modifies `findings
      ensures findings == old(findings) + Finding(complaint)
    {
      if complaint {
        findings := findings + 1;
      }
    }

    method CompileActions(actions: seq<Action>, next: Option<NodeId>, depth: nat) returns (entry: Option<NodeId>)
      modifies this
      ensures Produced(LowerList(context, NormalizeEach(actions), old(nodes), next, depth),
                       old(findings), nodes, findings, entry)
      decreases Remaining(depth), 2
    {
      if depth > context.budget.maximumNestingDepth {
        Report(true);
        return next;
      }
      ghost var normal := NormalizeEach(actions);
      entry := next;
      var index := |actions|;
      while index > 0
        invariant 0 <= index <= |actions|
        invariant Produced(LowerEach(context, normal[index..], old(nodes), next, depth),
                           old(findings), nodes, findings, entry)
      {
        index := index - 1;
        NormalizeEachAt(actions, index);
        assert normal[index..][1..] == normal[index + 1..];
        entry := CompileAction(actions[index], entry, depth);
      }
      assert normal[0..] == normal;
    }

    method CompileReduced(actions: seq<Action>, next: Option<NodeId>, depth: nat) returns (entry: Option<NodeId>)
      modifies this
      ensures Produced(LowerList(context, Normalize(actions), old(nodes), next, depth),
                       old(findings), nodes, findings, entry)
      decreases Remaining(depth), 3
    {
      var reduced := ReduceActions(actions);
      NormalizeAbsorbsReduce(actions);
      entry := CompileActions(reduced, next, depth);
    }

    method CompileAction(action: Action, next: Option<NodeId>, depth: nat) returns (entry: Option<NodeId>)
      requires depth <= context.budget.maximumNestingDepth
      modifies this
      ensures Produced(LowerAction(context, NormalizeAction(action), old(nodes), next, depth),
                       old(findings), nodes, findings, entry)
      decreases Remaining(depth), 1
    {
      match action
      case Command(_, _, _, _) => entry := CompileCommand(action, next, depth);
      case Delay(durationMs) =>
        Report(!ValidTimer(durationMs));
        var id := PushNode(DelayNode(durationMs, next));
        entry := Some(id);
      case Wait(_, _, _) => entry := CompileWait(action, next, depth);
      case SetVariable(name, expression) => entry := CompileAssignment(name, expression, next);
      case Sequence(actions) => entry := CompileReduced(actions, next, depth + 1);
      case If(_, _, _) => entry := CompileIf(action, next, depth);
      case Group(_, _, _) => entry := CompileGroup(action, next, depth);
    }

    method CompileCommand(action: Action, next: Option<NodeId>, depth: nat) returns (entry: Option<NodeId>)
      requires action.Command? && depth <= context.budget.maximumNestingDepth
      modifies this
      ensures Produced(LowerAction(context, NormalizeAction(action), old(nodes), next, depth),
                       old(findings), nodes, findings, entry)
      decreases Remaining(depth), 0
    {
      var registry := context.registry;
      Report(action.payload.Schema() != action.target.capability);
      Report(!action.payload.InRange());
      Report(action.retry.maximumRetries > MAX_RETRIES);
      Report(action.retry.backoffMs > MAX_TIMER_MILLIS);
      Report(action.target !in registry.resolved);
      var policy := CompileFailure(action.onFailure, next, depth + 1);
      if action.target in registry.resolved {
        Report(action.payload.GoTo? && action.target in registry.unsafePositions);
        var id := PushNode(CommandNode(registry.resolved[action.target], action.payload, action.retry, policy, next));
        entry := Some(id);
      } else {
        entry := None;
      }
    }

    method CompileWait(action: Action, next: Option<NodeId>, depth: nat) returns (entry: Option<NodeId>)
      requires action.Wait? && depth <= context.budget.maximumNestingDepth
      modifies this
      ensures Produced(LowerAction(context, NormalizeAction(action), old(nodes), next, depth),
                       old(findings), nodes, findings, entry)
      decreases Remaining(depth), 0
    {
      Report(!ValidTimer(action.timeoutMs));
      var condition := CompileCondition(action.condition, depth + 1);
      var policy := CompileFailure(action.onTimeout, next, depth + 1);
      if condition.Some? {
        var id := PushNode(WaitNode(condition.value, action.timeoutMs, policy, next));
        entry := Some(id);
      } else {
        entry := None;
      }
    }

    method CompileAssignment(name: string, expression: AuthoredExpression, next: Option<NodeId>)
      returns (entry: Option<NodeId>)
      modifies this
      ensures Produced(LowerAction(context, SetVariable(name, expression), old(nodes), next, 0),
                       old(findings), nodes, findings, entry)
    {
      var compiled := CompileExpression(expression);
      if name !in context.definitions {
        Report(true);
        entry := None;
      } else if compiled.Some? {
        Report(context.definitions[name].valueType != compiled.value.1);
        var id := PushNode(SetVariableNode(name, compiled.value.0, next));
        entry := Some(id);
      } else {
        entry := None;
      }
    }

    method CompileIf(action: Action, next: Option<NodeId>, depth: nat) returns (entry: Option<NodeId>)
      requires action.If? && depth <= context.budget.maximumNestingDepth
      modifies this
      ensures Produced(LowerAction(context, NormalizeAction(action), old(nodes), next, depth),
                       old(findings), nodes, findings, entry)
      decreases Remaining(depth), 0
    {
      Report(action.condition.Constant?);
      var join := PushNode(JoinNode(next));
      var thenNode := CompileReduced(action.thenActions, Some(join), depth + 1);
      var elseNode := CompileReduced(action.elseActions, Some(join), depth + 1);
      var condition := CompileCondition(action.condition, depth + 1);
      if condition.Some? {
        var id := PushNode(BranchNode(condition.value, thenNode, elseNode, Some(join)));
        entry := Some(id);
      } else {
        entry := None;
      }
    }

    method CompileGroup(action: Action, next: Option<NodeId>, depth: nat) returns (entry: Option<NodeId>)
      requires action.Group? && depth <= context.budget.maximumNestingDepth
      modifies this
      ensures Produced(LowerAction(context, NormalizeAction(action), old(nodes), next, depth),
                       old(findings), nodes, findings, entry)
      decreases Remaining(depth), 0
    {
      var branches := action.branches;
      var width := context.budget.maximumParallelWidth;
      Report(branches == []);
      Report(|branches| > width || action.maximumParallel == 0 || action.maximumParallel > |branches|
             || action.maximumParallel > width);
      var join := PushNode(JoinNode(next));
      var entries := CompileBranches(branches, join, depth + 1);
      var id := PushNode(GroupNode(action.kind, entries, Some(join)));
      entry := Some(id);
    }

    method CompileBranches(branches: seq<Branch>, join: NodeId, depth: nat) returns (entries: seq<NodeId>)
      modifies this
      ensures var all := LowerBranches(context, NormalizeBranches(branches), old(nodes), join, depth);
              nodes == all.nodes && findings == old(findings) + all.findings && entries == all.entries
      decreases Remaining(depth), 4
    {
      ghost var all := LowerBranches(context, NormalizeBranches(branches), nodes, join, depth);
      entries := [];
      var index := 0;
      assert branches[0..] == branches;
      while index < |branches|
        invariant 0 <= index <= |branches|
        invariant var rest := LowerBranches(context, NormalizeBranches(branches[index..]), nodes, join, depth);
                  && rest.nodes == all.nodes
                  && findings + rest.findings == old(findings) + all.findings
                  && entries + rest.entries == all.entries
      {
        assert branches[index..][1..] == branches[index + 1..];
        NormalBranchesUnfold(context, branches[index..], nodes, join, depth);
        NormalizeKeepsEmptiness(branches[index].actions);
        Report(branches[index].actions == []);
        var first := CompileReduced(branches[index].actions, Some(join), depth);
        if first.Some? {
          entries := entries + [first.value];
        }
        index := index + 1;
      }
      assert branches[index..] == [];
    }

    method CompileFailure(policy: FailurePolicy, next: Option<NodeId>, depth: nat) returns (compiled: PlanPolicy)
      modifies this
      ensures var lowered := LowerPolicy(context, NormalizePolicy(policy), old(nodes), next, depth);
              nodes == lowered.nodes && findings == old(findings) + lowered.findings && compiled == lowered.policy
      decreases Remaining(depth), 4
    {
      match policy
      case StopRun => compiled := StopTheRun;
      case StopBranch => compiled := StopTheBranch;
      case Continue => compiled := CarryOn;
      case Fallback(actions) =>
        NormalizeKeepsEmptiness(actions);
        Report(actions == []);
        var entry := CompileReduced(actions, next, depth);
        compiled := FallBackTo(entry);
    }

    method CompileCondition(condition: AuthoredCondition, depth: nat) returns (compiled: Option<ResolvedCondition>)
      modifies `findings
      ensures var check := CheckIn(context, condition, depth);
              && findings == old(findings) + check.findings
              && compiled == if check.compiled then Some(ResolveCondition(context.registry, condition)) else None
      decreases condition
    {
      if depth > context.budget.maximumNestingDepth {
        Report(true);
        return None;
      }
      match condition
      case Constant(holds) => compiled := Some(Constant(holds));
      case Compare(left, operator, right) =>
        var leftPart := CompileExpression(left);
        var rightPart := CompileExpression(right);
        if leftPart.Some? && rightPart.Some? {
          Report(leftPart.value.1 != rightPart.value.1);
          Report(operator !in {Equal, NotEqual} && leftPart.value.1 in {NullType, BooleanType});
          compiled := Some(Compare(leftPart.value.0, operator, rightPart.value.0));
        } else {
          compiled := None;
        }
      case All(conditions) =>
        var each := CompileConditionList(conditions, depth);
        compiled := if each.Some? then Some(All(each.value)) else None;
      case Any(conditions) =>
        var each := CompileConditionList(conditions, depth);
        compiled := if each.Some? then Some(Any(each.value)) else None;
      case Not(inner) =>
        var within := CompileCondition(inner, depth + 1);
        compiled := if within.Some? then Some(Not(within.value)) else None;
      case TimeWindow(zone, start, end) =>
        var registry := context.registry;
        Report(zone !in registry.zones || start !in registry.clockTexts || end !in registry.clockTexts);
        compiled := Some(TimeWindow(zone, start, end));
      case StateDuration(inner, durationMs) =>
        Report(!ValidTimer(durationMs));
        var within := CompileCondition(inner, depth + 1);
        compiled := if within.Some? then Some(StateDuration(within.value, durationMs)) else None;
    }

    /** Compiles what it can of a list, and yields it only when that was everything. */
    method CompileConditionList(conditions: seq<AuthoredCondition>, depth: nat)
      returns (compiled: Option<seq<ResolvedCondition>>)
      modifies `findings
      ensures var check :=
                CheckConditions(context.registry, context.definitions, conditions, depth + 1,
                                context.budget.maximumNestingDepth);
              && findings == old(findings) + check.findings + Finding(conditions == [])
              && compiled == if check.compiled then Some(ResolveConditions(context.registry, conditions)) else None
      decreases conditions
    {
      Report(conditions == []);
      label started:
      var registry, maximum := context.registry, context.budget.maximumNestingDepth;
      ghost var all := CheckConditions(registry, context.definitions, conditions, depth + 1, maximum);
      var resolved: seq<ResolvedCondition> := [];
      var index := 0;
      assert conditions[0..] == conditions;
      while index < |conditions|
        invariant 0 <= index <= |conditions|
        invariant |resolved| <= index
        invariant var rest := CheckConditions(registry, context.definitions, conditions[index..], depth + 1, maximum);
                  && findings + rest.findings == old@started(findings) + all.findings
                  && (|resolved| == index && rest.compiled <==> all.compiled)
        invariant |resolved| == index ==>
                    resolved + ResolveConditions(registry, conditions[index..])
                        == ResolveConditions(registry, conditions)
      {
        ConditionsSplit(registry, context.definitions, conditions, index, depth + 1, maximum);
        var one := CompileCondition(conditions[index], depth + 1);
        if one.Some? {
          resolved := resolved + [one.value];
        }
        index := index + 1;
      }
      assert |resolved| == |conditions| ==> resolved == ResolveConditions(registry, conditions);
      compiled := if |resolved| == |conditions| then Some(resolved) else None;
    }

    method CompileExpression(expression: AuthoredExpression) returns (compiled: Option<(ResolvedExpression, ValueType)>)
      modifies `findings
      ensures var check := CheckExpression(context.registry, context.definitions, expression);
              && findings == old(findings) + check.findings
              && compiled == if check.valueType.None? then None
                             else Some((ResolveExpression(context.registry, expression), check.valueType.value))
    {
      match expression
      case Literal(value) =>
        Report(!ValidValue(value));
        compiled := Some((Literal(value), value.Type()));
      case Variable(name) =>
        Report(name !in context.definitions);
        compiled :=
          if name in context.definitions then Some((Variable(name), context.definitions[name].valueType)) else None;
      case Observation(target, field) =>
        var valueType := FieldType(target.capability, field);
        Report(valueType.None?);
        Report(target !in context.registry.resolved);
        if valueType.None? || target !in context.registry.resolved {
          compiled := None;
        } else {
          var targets := context.registry.resolved[target];
          Report(|targets| != 1);
          compiled := if |targets| == 1 then Some((Observation(targets, field), valueType.value)) else None;
        }
    }
  }

  lemma {:induction false} NormalizeEachAt(actions: seq<Action>, index: nat)
    requires index < |actions|
    ensures NormalizeEach(actions)[index] == NormalizeAction(actions[index])
    decreases |actions|
  {
    if index > 0 {
      NormalizeEachAt(actions[1..], index - 1);
    }
  }

  /** Compiles one document; nothing of a compilation with findings is returned. */
  method CompileDocument(registry: Registry, document: Document) returns (result: Result<Plan, nat>)
    ensures result == Compile(registry, document)
  {
    var compiler := new PlanCompiler(ContextOf(registry, document));
    compiler.findings := StructureFindings(document);
    var guard: Option<ResolvedCondition> := None;
    if document.guard.Some? {
      guard := compiler.CompileCondition(document.guard.value, 1);
      UncompiledConditionHasFinding(registry, document.variables, document.guard.value, 1,
                                    document.budget.maximumNestingDepth);
    }
    var complete := compiler.PushNode(Complete);
    var entry := compiler.CompileReduced(document.actions, Some(complete), 1);
    ghost var lowered := LoweredDocument(registry, document);
    assert [] + [Complete] == [Complete];
    assert compiler.nodes == lowered.nodes && entry == lowered.entry;
    compiler.Report(|compiler.nodes| > document.budget.maximumNodes);
    if compiler.findings > 0 {
      return Err(compiler.findings);
    }
    EntryInPlan(registry, document);
    result := Ok(Plan(compiler.nodes, entry.value, document.variables, guard));
  }
}
