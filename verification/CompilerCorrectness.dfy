/**
 * The main results about compiled plans: running a plan means interpreting
 * the authored tree, runs are bounded, and nothing is executed twice.
 */
module CompilerCorrectness {
  import opened Wrappers
  import opened Domain
  import opened Authored
  import opened Reduction
  import opened Lowering
  import opened PlanShape
  import opened Structured
  import opened PlanMachine
  import opened Compiler

  function FreshState(document: Document, inputs: seq<Reading>): RunState {
    RunState(InitialVariables(document.variables), inputs, [])
  }

  function Start(plan: Plan, inputs: seq<Reading>): Config {
    Config(Running, Some(plan.entry), [], 0, RunState(InitialVariables(plan.variables), inputs, []))
  }

  /** Direct interpretation of the whole tree as it was authored. */
  function Reference(registry: Registry, document: Document, inputs: seq<Reading>): Execution {
    Interpret(registry, document.actions, 1, FreshState(document, inputs))
  }

  /** The machine stands where the interpretation of the tree ended. */
  predicate EndsAs(config: Config, reference: Execution) {
    match reference.flow
    case Done => config.status == Completed && config.state == reference.state.Trace(Finished(0))
    case BranchStopped => config.status == RunFailed && config.state == reference.state
    case RunStopped => config.status == RunFailed && config.state == reference.state
    case Starving => config.status == Waiting && config.state == reference.state
    case Broken(error) => config.status == Faulted(Evaluation(error)) && config.state == reference.state
  }

  /** Number of steps after which every run of the document's plan has stopped. */
  function StepBound(document: Document): nat {
    Cost(Normalize(document.actions)) + 1
  }

  /**
   * Compiler correctness and termination: after at most `StepBound` steps the
   * run has consumed the same readings, produced the same trace, written the
   * same variables and ended in the same way as the authored tree, for every
   * document that compiles and every sequence of readings.
   */
  lemma PlanRunsAsTree(registry: Registry, document: Document, inputs: seq<Reading>, steps: nat)
    requires Compile(registry, document).Ok?
    requires steps >= StepBound(document)
    ensures var plan := Compile(registry, document).value;
            EndsAs(Iterate(registry, plan.nodes, Start(plan, inputs), steps), Reference(registry, document, inputs))
  {
    var plan := Compile(registry, document).value;
    var context, actions := ContextOf(registry, document), Normalize(document.actions);
    var start, reference := Start(plan, inputs), Reference(registry, document, inputs);
    EntryInPlan(registry, document);
    NormalizedMeansAuthored(registry, document.actions, 1, start.state);
    var reached := ListRuns(context, actions, [Complete], 0, 1, plan.nodes, start);
    var config := Iterate(registry, plan.nodes, start, reached);
    assert Leaves(config, 0, [], reference);
    var rest := steps - reached;
    IterateAdds(registry, plan.nodes, start, reached, rest);
    if reference.flow.Done? {
      var completed := Step(registry, plan.nodes, config);
      IterateAdds(registry, plan.nodes, config, 1, rest - 1);
      assert Iterate(registry, plan.nodes, config, 1) == completed;
      StoppedStays(registry, plan.nodes, completed, rest - 1);
    } else {
      StoppedStays(registry, plan.nodes, config, rest);
    }
  }

  // ----- consequences ----------------------------------------------------------------

  lemma StepExtendsLog(registry: Registry, nodes: seq<Node>, config: Config)
    ensures config.state.log <= Step(registry, nodes, config).state.log
  {
  }

  lemma {:induction false} LogGrows(registry: Registry, nodes: seq<Node>, config: Config, steps: nat)
    ensures config.state.log <= Iterate(registry, nodes, config, steps).state.log
    decreases steps
  {
    if steps > 0 {
      StepExtendsLog(registry, nodes, config);
      LogGrows(registry, nodes, Step(registry, nodes, config), steps - 1);
    }
  }

  ghost predicate NothingTwice(log: seq<Event>) {
    forall i, j :: 0 <= i < j < |log| ==> Key(log[i]) != Key(log[j])
  }

  /**
   * At every moment of every run each node other than a join has been entered
   * at most once, and each command node has made each attempt at most once.
   */
  lemma NothingRunsTwice(registry: Registry, document: Document, inputs: seq<Reading>, steps: nat)
    requires Compile(registry, document).Ok?
    ensures var plan := Compile(registry, document).value;
            NothingTwice(Iterate(registry, plan.nodes, Start(plan, inputs), steps).state.log)
  {
    var plan := Compile(registry, document).value;
    var start, reference := Start(plan, inputs), Reference(registry, document, inputs);
    var now := Iterate(registry, plan.nodes, start, steps);
    IterateAdds(registry, plan.nodes, start, steps, StepBound(document));
    LogGrows(registry, plan.nodes, now, StepBound(document));
    PlanRunsAsTree(registry, document, inputs, steps + StepBound(document));
    NormalizedMeansAuthored(registry, document.actions, 1, FreshState(document, inputs));
    ExecuteAddsOnce(registry, Normalize(document.actions), 1, FreshState(document, inputs));
    var last := Iterate(registry, plan.nodes, now, StepBound(document));
    assert NothingTwice(last.state.log);
    assert forall i :: 0 <= i < |now.state.log| ==> now.state.log[i] == last.state.log[i];
  }

  /** No step of a compiled plan meets a missing node, edge or join. */
  lemma NeverInvalidPlan(registry: Registry, document: Document, inputs: seq<Reading>, steps: nat)
    requires Compile(registry, document).Ok?
    ensures var plan := Compile(registry, document).value;
            Iterate(registry, plan.nodes, Start(plan, inputs), steps).status != Faulted(InvalidPlan)
  {
    var plan := Compile(registry, document).value;
    var start := Start(plan, inputs);
    var now := Iterate(registry, plan.nodes, start, steps);
    if now.status == Faulted(InvalidPlan) {
      IterateAdds(registry, plan.nodes, start, steps, StepBound(document));
      StoppedStays(registry, plan.nodes, now, StepBound(document));
      PlanRunsAsTree(registry, document, inputs, steps + StepBound(document));
    }
  }

  /**
   * Every returned plan has the completing node first and nowhere else, all
   * edges present and descending, and group interiors that leave only through
   * their join.
   */
  lemma CompiledPlanFits(registry: Registry, document: Document)
    requires Compile(registry, document).Ok?
    ensures var plan := Compile(registry, document).value;
            && plan.nodes[0] == Complete
            && RegionFits(ContextOf(registry, document), plan.nodes, 1, |plan.nodes|, 0)
  {
    ListFits(ContextOf(registry, document), Normalize(document.actions), [Complete], 0, 1);
  }

  /** Every node of a returned plan can be reached from its entry. */
  lemma EveryNodeReachable(registry: Registry, document: Document, members: set<NodeId>)
    requires Compile(registry, document).Ok?
    requires var plan := Compile(registry, document).value; plan.entry in members && Closed(plan.nodes, members)
    ensures Covers(members, 0, |Compile(registry, document).value.nodes|)
  {
    EntryInPlan(registry, document);
    ListReaches(ContextOf(registry, document), Normalize(document.actions), [Complete], 0, 1,
                Compile(registry, document).value.nodes, members);
  }

  /** A plan has one completing node and one node or two per action of the tree that is kept. */
  lemma PlanSize(registry: Registry, document: Document)
    requires Compile(registry, document).Ok?
    ensures |Compile(registry, document).value.nodes| == 1 + Kept(document.actions)
  {
    KeptIsCounted(document.actions);
    ListExtends(ContextOf(registry, document), Normalize(document.actions), [Complete], Some(0), 1);
  }
}
