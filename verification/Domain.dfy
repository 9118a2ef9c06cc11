/** Authored automations, compiled plans and the facts a run reads. */
module Domain {
  import opened Wrappers

  // ----- scalar values ---------------------------------------------------

  datatype Value =
    | Null
    | Boolean(flag: bool)
    | Integer(number: int)
    | Decimal(digits: string)
    | Text(text: string)
    | Timestamp(at: int)
    | DurationMillis(millis: nat)
  {
    function Type(): ValueType {
      match this
      case Null => NullType
      case Boolean(_) => BooleanType
      case Integer(_) => IntegerType
      case Decimal(_) => DecimalType
      case Text(_) => TextType
      case Timestamp(_) => TimestampType
      case DurationMillis(_) => DurationType
    }
  }

  datatype ValueType =
    NullType | BooleanType | IntegerType | DecimalType | TextType | TimestampType | DurationType

  type Variables = map<string, Value>

  datatype VariableDefinition = VariableDefinition(valueType: ValueType, initial: Option<Value>)

  // ----- targets and commands --------------------------------------------

  datatype DeviceSelector = ById(id: nat) | ByAlias(alias: string) | BySpace(space: nat)

  /** What an author writes to name one or more endpoints. */
  datatype TargetReference =
    TargetReference(device: DeviceSelector, endpoint: Option<string>, capability: string)

  /** One endpoint of one enrolled device. */
  datatype Target = Target(device: nat, endpoint: string, capability: string)

  datatype Payload =
    | SetOnOff(on: bool)
    | Toggle
    | Level(percent: nat)
    | Open
    | Close
    | Stop
    | GoTo(percent: nat)
    | Lock
    | Unlock
  {
    function Schema(): string {
      match this
      case SetOnOff(_) | Toggle => "on_off.v1"
      case Level(_) => "level.v1"
      case Open | Close | Stop | GoTo(_) => "position.v1"
      case Lock | Unlock => "access_control.v1"
    }

    predicate InRange() {
      match this
      case Level(percent) => percent <= 100
      case GoTo(percent) => percent <= 100
      case _ => true
    }
  }

  datatype ErrorCode =
    | DeadlineExceeded | StaleObservation | PolicyDenied | SupersededBeforeDispatch
    | AdapterRejected | TransportFailure | ConfirmationMismatch | OtherError

  datatype RetryPolicy =
    RetryPolicy(maximumRetries: nat, backoffMs: nat, retryable: set<ErrorCode>)

  // ----- expressions and conditions --------------------------------------

  /** `T` is a reference while authored and a list of endpoints once compiled. */
  datatype Expression<T> =
    | Literal(value: Value)
    | Variable(name: string)
    | Observation(target: T, field: string)

  datatype Comparison =
    Equal | NotEqual | LessThan | LessThanOrEqual | GreaterThan | GreaterThanOrEqual

  datatype Condition<T> =
    | Constant(holds: bool)
    | Compare(left: Expression<T>, operator: Comparison, right: Expression<T>)
    | All(conditions: seq<Condition<T>>)
    | Any(conditions: seq<Condition<T>>)
    | Not(condition: Condition<T>)
    | TimeWindow(zone: string, start: string, end: string)
    | StateDuration(condition: Condition<T>, durationMs: nat)

  type AuthoredExpression = Expression<TargetReference>
  type AuthoredCondition = Condition<TargetReference>
  type ResolvedExpression = Expression<seq<Target>>
  type ResolvedCondition = Condition<seq<Target>>

  // ----- authored action trees -------------------------------------------

  datatype FailurePolicy =
    StopRun | StopBranch | Continue | Fallback(actions: seq<Action>)

  datatype GroupKind = Parallel | Race

  datatype Branch = Branch(actions: seq<Action>)

  datatype Action =
    | Command(target: TargetReference, payload: Payload, retry: RetryPolicy, onFailure: FailurePolicy)
    | Delay(durationMs: nat)
    | Wait(condition: AuthoredCondition, timeoutMs: nat, onTimeout: FailurePolicy)
    | SetVariable(name: string, expression: AuthoredExpression)
    | Sequence(actions: seq<Action>)
    | If(condition: AuthoredCondition, thenActions: seq<Action>, elseActions: seq<Action>)
    | Group(kind: GroupKind, branches: seq<Branch>, maximumParallel: nat)

  datatype Budget = Budget(
    maximumNodes: nat,
    maximumNestingDepth: nat,
    maximumParallelWidth: nat,
    maximumQueueLength: nat,
    maximumTraceSteps: nat,
    maximumRunDurationMs: nat)

  datatype RunMode = Single | Restart | Queued(capacity: nat) | Concurrent(maximumParallel: nat)

  /** `guard` is the run-level condition. */
  datatype Document = Document(
    variables: map<string, VariableDefinition>,
    guard: Option<AuthoredCondition>,
    actions: seq<Action>,
    runMode: RunMode,
    budget: Budget)

  /**
   * One immutable registry snapshot. `resolved` holds the references that
   * name usable endpoints; `unsafePositions` those whose absolute position
   * cannot be commanded safely; `zones` and `clockTexts` the timezone names
   * and clock texts the calendar library accepts.
   */
  datatype Registry = Registry(
    resolved: map<TargetReference, seq<Target>>,
    unsafePositions: set<TargetReference>,
    zones: set<string>,
    clockTexts: map<string, nat>)

  // ----- compiled plans ---------------------------------------------------

  type NodeId = nat

  datatype PlanPolicy =
    StopTheRun | StopTheBranch | CarryOn | FallBackTo(entry: Option<NodeId>)

  datatype Node =
    | Complete
    | CommandNode(targets: seq<Target>, payload: Payload, retry: RetryPolicy,
                  onFailure: PlanPolicy, next: Option<NodeId>)
    | DelayNode(durationMs: nat, next: Option<NodeId>)
    | WaitNode(condition: ResolvedCondition, timeoutMs: nat, onTimeout: PlanPolicy, next: Option<NodeId>)
    | SetVariableNode(name: string, expression: ResolvedExpression, next: Option<NodeId>)
    | BranchNode(condition: ResolvedCondition, thenNode: Option<NodeId>, elseNode: Option<NodeId>,
                 join: Option<NodeId>)
    | GroupNode(kind: GroupKind, branches: seq<NodeId>, join: Option<NodeId>)
    | JoinNode(next: Option<NodeId>)

  /** A node's identity is its position. */
  datatype Plan = Plan(
    nodes: seq<Node>,
    entry: NodeId,
    variables: map<string, VariableDefinition>,
    guard: Option<ResolvedCondition>)

  // ----- what a run reads and writes --------------------------------------

  datatype Field = Field(target: Target, name: string)

  datatype CommandState =
    | Received | Validated | Rejected | Dispatched | Acknowledged
    | Confirmed | Failed | TimedOut | Cancelled
  {
    predicate Terminal() {
      this in {Rejected, Confirmed, Failed, TimedOut, Cancelled}
    }

    /** The edges of the durable command lifecycle. */
    predicate AllowsTransitionTo(next: CommandState) {
      match this
      case Received => next in {Validated, Rejected, TimedOut, Cancelled}
      case Validated => next in {Dispatched, Rejected, TimedOut, Cancelled}
      case Dispatched => next in {Acknowledged, Confirmed, Failed, TimedOut}
      case Acknowledged => next in {Confirmed, Failed, TimedOut}
      case _ => false
    }
  }

  /** What a caller asks the command service for; `expected` is an observation that confirms the command. */
  datatype CommandRequest =
    CommandRequest(device: nat, endpoint: string, payload: Payload, deadline: int, expected: Option<Value>,
                   dryRun: bool)

  datatype CommandOutcome = CommandOutcome(state: CommandState, error: Option<ErrorCode>)

  /**
   * Everything one decision reads from outside: an observation snapshot, the
   * local clock per timezone, the stability intervals that have matured, and
   * the outcome of a command attempt.
   */
  datatype Reading = Reading(
    snapshot: map<Field, Value>,
    local: map<string, nat>,
    matured: set<(ResolvedCondition, nat)>,
    outcome: CommandOutcome)

  datatype Event =
    | Attempted(node: NodeId, targets: seq<Target>, payload: Payload, attempt: nat, outcome: CommandOutcome)
    | Delayed(node: NodeId, durationMs: nat)
    | Waited(node: NodeId, satisfied: bool)
    | Assigned(node: NodeId, name: string, value: Value)
    | Branched(node: NodeId, selected: bool)
    | GroupStarted(node: NodeId, branches: nat)
    | Finished(node: NodeId)

  /** Variables, unread readings and the ordered trace of one run. */
  datatype RunState = RunState(variables: Variables, inputs: seq<Reading>, log: seq<Event>) {

    predicate Starved() {
      inputs == []
    }

    function Read(): Reading
      requires !Starved()
    {
      inputs[0]
    }

    function Consume(event: Event): RunState
      requires !Starved()
    {
      RunState(variables, inputs[1..], log + [event])
    }

    function Trace(event: Event): RunState {
      this.(log := log + [event])
    }
  }

  /** Initial variables of a run: every declared variable that has an initial value. */
  function InitialVariables(definitions: map<string, VariableDefinition>): Variables {
    map name | name in definitions && definitions[name].initial.Some? :: definitions[name].initial.value
  }
}
