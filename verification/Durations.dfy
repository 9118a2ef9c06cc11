/**
 * Durable timers, and evaluation of conditions whose stability intervals are
 * kept as timers: evaluation stops with a request as soon as it needs an
 * interval that is not there yet or has not matured.
 */
module Durations {
  import opened Wrappers
  import opened Domain
  import opened Evaluator

  datatype TimerKind = DelayTimer | WaitTimeout | CommandRetry | Stability

  datatype TimerState = Pending | Ready | Consumed | Cancelled
  {
    predicate Live() {
      Pending? || Ready?
    }
  }

  /** The identity of a timer is derived from its owner, its kind and its instant. */
  datatype TimerId = TimerId(node: NodeId, kind: TimerKind, readyAt: int)

  type Timers = map<TimerId, TimerState>

  /** A condition and the time it must have held; the content hash stands for the pair. */
  type DurationKey = (ResolvedCondition, nat)

  datatype Phase = Growing | Mature

  datatype ConditionDuration = ConditionDuration(node: NodeId, key: DurationKey, readyAt: int, phase: Phase)
  {
    function Timer(): TimerId {
      TimerId(node, Stability, readyAt)
    }
  }

  datatype Request =
    | Begin(duration: ConditionDuration)
    | StillGrowing
    | Ripen(key: DurationKey, timer: TimerId)

  datatype Answer =
    | Holds(holds: bool)
    | Needs(request: Request)
    | Breaks(error: EvaluationError)
    | TimerLost

  /** The answer and the keys whose condition was seen not to hold. */
  datatype Evaluated = Evaluated(answer: Answer, invalid: set<DurationKey>)
  {
    function Request(): Option<Request> {
      if answer.Needs? then Some(answer.request) else None
    }
  }

  /** What a durable evaluation knows about its node. */
  datatype World = World(now: int, node: NodeId, durations: seq<ConditionDuration>, timers: Timers)

  function Find(durations: seq<ConditionDuration>, key: DurationKey): (found: Option<ConditionDuration>)
    ensures found.Some? ==> found.value in durations && found.value.key == key
  {
    if durations == [] then None
    else if durations[0].key == key then Some(durations[0])
    else Find(durations[1..], key)
  }

  function MatureKeys(durations: seq<ConditionDuration>): set<DurationKey> {
    set duration | duration in durations && Find(durations, duration.key).Some?
                   && Find(durations, duration.key).value.phase.Mature? :: duration.key
  }

  /** The durations whose condition was not seen to fail. */
  function Keep(durations: seq<ConditionDuration>, invalid: set<DurationKey>): (kept: seq<ConditionDuration>)
    ensures forall duration :: duration in kept <==> duration in durations && duration.key !in invalid
  {
    if durations == [] then []
    else
      assert durations == [durations[0]] + durations[1..];
      (if durations[0].key in invalid then [] else [durations[0]]) + Keep(durations[1..], invalid)
  }

  /** The first duration of this key has matured. */
  function Ripened(durations: seq<ConditionDuration>, key: DurationKey): (ripened: seq<ConditionDuration>)
    requires Find(durations, key).Some?
    ensures forall duration :: duration in durations ==>
              duration in ripened || duration == Find(durations, key).value
    ensures forall duration :: duration in ripened ==>
              duration in durations || duration == Find(durations, key).value.(phase := Mature)
    ensures Find(durations, key).value.(phase := Mature) in ripened
  {
    assert durations == [durations[0]] + durations[1..];
    if durations[0].key == key then [durations[0].(phase := Mature)] + durations[1..]
    else [durations[0]] + Ripened(durations[1..], key)
  }

  lemma {:induction false} KeptIsFound(durations: seq<ConditionDuration>, invalid: set<DurationKey>, key: DurationKey)
    requires key !in invalid
    ensures Find(Keep(durations, invalid), key) == Find(durations, key)
  {
    if durations != [] {
      var first, rest := durations[0], Keep(durations[1..], invalid);
      KeptIsFound(durations[1..], invalid, key);
      if first.key in invalid {
        assert Keep(durations, invalid) == rest;
      } else {
        assert Keep(durations, invalid) == [first] + rest && ([first] + rest)[1..] == rest;
      }
    }
  }

  function StateDurationAnswer(key: DurationKey, world: World): Answer {
    match Find(world.durations, key)
    case None => Needs(Begin(ConditionDuration(world.node, key, world.now + key.1, Growing)))
    case Some(duration) =>
      if duration.phase.Mature? then Holds(true)
      else if duration.Timer() !in world.timers then TimerLost
      else
        match world.timers[duration.Timer()]
        case Pending => Needs(StillGrowing)
        case Ready => Needs(Ripen(key, duration.Timer()))
        case _ => TimerLost
  }

  /** An interval is begun for the current node; one that ripens is known and its timer is ready. */
  predicate RequestFits(world: World, answer: Answer) {
    match answer
    case Needs(Begin(duration)) =>
      duration.node == world.node && duration.phase.Growing? && duration.readyAt == world.now + duration.key.1
    case Needs(Ripen(key, timer)) =>
      var found := Find(world.durations, key);
      && found.Some? && found.value.phase.Growing? && found.value.Timer() == timer
      && timer in world.timers && world.timers[timer].Ready?
    case _ => true
  }

  function EvaluateDurably(registry: Registry, condition: ResolvedCondition, variables: Variables, reading: Reading,
                           world: World, invalid: set<DurationKey>): (evaluated: Evaluated)
    ensures RequestFits(world, evaluated.answer)
    decreases condition
  {
    match condition
    case Constant(_) | Compare(_, _, _) | TimeWindow(_, _, _) =>
      (match EvaluateCondition(registry, condition, variables, reading)
       case Ok(holds) => Evaluated(Holds(holds), invalid)
       case Err(error) => Evaluated(Breaks(error), invalid))
    case All(conditions) => EvaluateEach(registry, conditions, variables, reading, world, invalid, false)
    case Any(conditions) => EvaluateEach(registry, conditions, variables, reading, world, invalid, true)
    case Not(inner) =>
      var evaluated := EvaluateDurably(registry, inner, variables, reading, world, invalid);
      if evaluated.answer.Holds? then evaluated.(answer := Holds(!evaluated.answer.holds)) else evaluated
    case StateDuration(inner, durationMs) =>
      var evaluated := EvaluateDurably(registry, inner, variables, reading, world, invalid);
      if !evaluated.answer.Holds? then evaluated
      else if !evaluated.answer.holds then evaluated.(invalid := evaluated.invalid + {(inner, durationMs)})
      else evaluated.(answer := StateDurationAnswer((inner, durationMs), world))
  }

  function EvaluateEach(registry: Registry, conditions: seq<ResolvedCondition>, variables: Variables, reading: Reading,
                        world: World, invalid: set<DurationKey>, stop: bool): (evaluated: Evaluated)
    ensures RequestFits(world, evaluated.answer)
    decreases conditions
  {
    if conditions == [] then Evaluated(Holds(!stop), invalid)
    else
      var first := EvaluateDurably(registry, conditions[0], variables, reading, world, invalid);
      if !first.answer.Holds? || first.answer.holds == stop then first
      else EvaluateEach(registry, conditions[1..], variables, reading, world, first.invalid, stop)
  }

  // ----- which intervals an evaluation interrupts ------------------------------------------------

  function AnswerTo(registry: Registry, condition: ResolvedCondition, variables: Variables, reading: Reading,
                    world: World): Answer
  {
    EvaluateDurably(registry, condition, variables, reading, world, {}).answer
  }

  /**
   * The evaluation gets as far as an interval of this key and finds its inner
   * condition false. A list is followed as long as its members leave it open.
   */
  ghost predicate SeesFalse(registry: Registry, condition: ResolvedCondition, variables: Variables, reading: Reading,
                            world: World, key: DurationKey)
    decreases condition
  {
    match condition
    case Constant(_) | Compare(_, _, _) | TimeWindow(_, _, _) => false
    case Not(inner) => SeesFalse(registry, inner, variables, reading, world, key)
    case StateDuration(inner, durationMs) =>
      || SeesFalse(registry, inner, variables, reading, world, key)
      || (key == (inner, durationMs) && AnswerTo(registry, inner, variables, reading, world) == Holds(false))
    case All(conditions) =>
      ListSeesFalse(registry, conditions, variables, reading, world, true, key)
    case Any(conditions) =>
      ListSeesFalse(registry, conditions, variables, reading, world, false, key)
  }

  /** The members before `i` do not decide a list that goes on while they are `going`. */
  ghost predicate LeftOpen(registry: Registry, conditions: seq<ResolvedCondition>, variables: Variables,
                           reading: Reading, world: World, i: nat, going: bool)
    requires i <= |conditions|
  {
    forall j :: 0 <= j < i ==> AnswerTo(registry, conditions[j], variables, reading, world) == Holds(going)
  }

  ghost predicate ListSeesFalse(registry: Registry, conditions: seq<ResolvedCondition>, variables: Variables,
                                reading: Reading, world: World, going: bool, key: DurationKey)
    decreases conditions
  {
    exists i :: 0 <= i < |conditions| && LeftOpen(registry, conditions, variables, reading, world, i, going)
                && SeesFalse(registry, conditions[i], variables, reading, world, key)
  }

  lemma {:induction false} AnswerIgnoresInvalid(registry: Registry, condition: ResolvedCondition, variables: Variables,
                                                reading: Reading, world: World, invalid: set<DurationKey>)
    ensures EvaluateDurably(registry, condition, variables, reading, world, invalid).answer
            == AnswerTo(registry, condition, variables, reading, world)
    decreases condition
  {
    match condition
    case All(conditions) =>
      ListAnswerIgnoresInvalid(registry, conditions, variables, reading, world, invalid, {}, false);
    case Any(conditions) =>
      ListAnswerIgnoresInvalid(registry, conditions, variables, reading, world, invalid, {}, true);
    case Not(inner) => AnswerIgnoresInvalid(registry, inner, variables, reading, world, invalid);
    case StateDuration(inner, _) => AnswerIgnoresInvalid(registry, inner, variables, reading, world, invalid);
    case _ =>
  }

  lemma {:induction false} ListAnswerIgnoresInvalid(registry: Registry, conditions: seq<ResolvedCondition>,
                                                    variables: Variables, reading: Reading, world: World,
                                                    invalid: set<DurationKey>, other: set<DurationKey>, stop: bool)
    ensures EvaluateEach(registry, conditions, variables, reading, world, invalid, stop).answer
            == EvaluateEach(registry, conditions, variables, reading, world, other, stop).answer
    decreases conditions
  {
    if conditions != [] {
      AnswerIgnoresInvalid(registry, conditions[0], variables, reading, world, invalid);
      AnswerIgnoresInvalid(registry, conditions[0], variables, reading, world, other);
      var first := EvaluateDurably(registry, conditions[0], variables, reading, world, invalid).invalid;
      var second := EvaluateDurably(registry, conditions[0], variables, reading, world, other).invalid;
      ListAnswerIgnoresInvalid(registry, conditions[1..], variables, reading, world, first, second, stop);
    }
  }

  /** An evaluation reports exactly the keys whose inner condition it saw to be false. */
  lemma {:induction false} InvalidIffSeenFalse(registry: Registry, condition: ResolvedCondition, variables: Variables,
                                               reading: Reading, world: World, invalid: set<DurationKey>,
                                               key: DurationKey)
    ensures key in EvaluateDurably(registry, condition, variables, reading, world, invalid).invalid
            <==> key in invalid || SeesFalse(registry, condition, variables, reading, world, key)
    decreases condition
  {
    match condition
    case All(conditions) =>
      ListInvalidIffSeenFalse(registry, conditions, variables, reading, world, invalid, false, key);
    case Any(conditions) =>
      ListInvalidIffSeenFalse(registry, conditions, variables, reading, world, invalid, true, key);
    case Not(inner) => InvalidIffSeenFalse(registry, inner, variables, reading, world, invalid, key);
    case StateDuration(inner, _) =>
      InvalidIffSeenFalse(registry, inner, variables, reading, world, invalid, key);
      AnswerIgnoresInvalid(registry, inner, variables, reading, world, invalid);
    case _ =>
  }

  lemma {:induction false} ListInvalidIffSeenFalse(registry: Registry, conditions: seq<ResolvedCondition>,
                                                   variables: Variables, reading: Reading, world: World,
                                                   invalid: set<DurationKey>, stop: bool, key: DurationKey)
    ensures key in EvaluateEach(registry, conditions, variables, reading, world, invalid, stop).invalid
            <==> key in invalid || ListSeesFalse(registry, conditions, variables, reading, world, !stop, key)
    decreases conditions
  {
    if conditions != [] {
      InvalidIffSeenFalse(registry, conditions[0], variables, reading, world, invalid, key);
      AnswerIgnoresInvalid(registry, conditions[0], variables, reading, world, invalid);
      var first := EvaluateDurably(registry, conditions[0], variables, reading, world, invalid);
      ListInvalidIffSeenFalse(registry, conditions[1..], variables, reading, world, first.invalid, stop, key);
      ListSeesFalseSplits(registry, conditions, variables, reading, world, !stop, key);
    }
  }

  /** A list sees what its first member sees and, if that leaves it open, what the rest sees. */
  lemma ListSeesFalseSplits(registry: Registry, conditions: seq<ResolvedCondition>, variables: Variables,
                            reading: Reading, world: World, going: bool, key: DurationKey)
    requires conditions != []
    ensures ListSeesFalse(registry, conditions, variables, reading, world, going, key)
            <==> || SeesFalse(registry, conditions[0], variables, reading, world, key)
                 || (AnswerTo(registry, conditions[0], variables, reading, world) == Holds(going)
                     && ListSeesFalse(registry, conditions[1..], variables, reading, world, going, key))
  {
    if SeesFalse(registry, conditions[0], variables, reading, world, key) {
      assert LeftOpen(registry, conditions, variables, reading, world, 0, going);
    }
    if i :| 0 < i < |conditions| && LeftOpen(registry, conditions, variables, reading, world, i, going)
            && SeesFalse(registry, conditions[i], variables, reading, world, key) {
      assert forall j :: 0 <= j < i - 1 ==> conditions[1..][j] == conditions[j + 1];
      assert LeftOpen(registry, conditions[1..], variables, reading, world, i - 1, going);
      assert conditions[1..][i - 1] == conditions[i];
    }
    if AnswerTo(registry, conditions[0], variables, reading, world) == Holds(going) {
      if i :| 0 <= i < |conditions| - 1 && LeftOpen(registry, conditions[1..], variables, reading, world, i, going)
              && SeesFalse(registry, conditions[1..][i], variables, reading, world, key) {
        assert forall j :: 0 < j <= i ==> conditions[j] == conditions[1..][j - 1];
        assert LeftOpen(registry, conditions, variables, reading, world, i + 1, going);
        assert conditions[i + 1] == conditions[1..][i];
      }
    }
  }

  /** The inner condition of an interval that is to begin or to ripen. */
  predicate RequestHolds(registry: Registry, variables: Variables, reading: Reading, answer: Answer) {
    match answer
    case Needs(Begin(duration)) => EvaluateCondition(registry, duration.key.0, variables, reading) == Ok(true)
    case Needs(Ripen(key, _)) => EvaluateCondition(registry, key.0, variables, reading) == Ok(true)
    case _ => true
  }

  /** An interval begins or ripens only while its condition holds. */
  lemma {:induction false} RequestedConditionHolds(registry: Registry, condition: ResolvedCondition,
                                                   variables: Variables, reading: Reading, world: World,
                                                   invalid: set<DurationKey>)
    requires reading.matured == MatureKeys(world.durations)
    ensures RequestHolds(registry, variables, reading,
                         EvaluateDurably(registry, condition, variables, reading, world, invalid).answer)
    decreases condition
  {
    match condition
    case All(conditions) =>
      ListRequestedConditionHolds(registry, conditions, variables, reading, world, invalid, false);
    case Any(conditions) =>
      ListRequestedConditionHolds(registry, conditions, variables, reading, world, invalid, true);
    case Not(inner) => RequestedConditionHolds(registry, inner, variables, reading, world, invalid);
    case StateDuration(inner, _) =>
      RequestedConditionHolds(registry, inner, variables, reading, world, invalid);
      DurableAnswerIsPlain(registry, inner, variables, reading, world, invalid);
    case _ =>
  }

  lemma {:induction false} ListRequestedConditionHolds(registry: Registry, conditions: seq<ResolvedCondition>,
                                                       variables: Variables, reading: Reading, world: World,
                                                       invalid: set<DurationKey>, stop: bool)
    requires reading.matured == MatureKeys(world.durations)
    ensures RequestHolds(registry, variables, reading,
                         EvaluateEach(registry, conditions, variables, reading, world, invalid, stop).answer)
    decreases conditions
  {
    if conditions != [] {
      RequestedConditionHolds(registry, conditions[0], variables, reading, world, invalid);
      var first := EvaluateDurably(registry, conditions[0], variables, reading, world, invalid);
      ListRequestedConditionHolds(registry, conditions[1..], variables, reading, world, first.invalid, stop);
    }
  }

  /** The durable answer is the plain one in which exactly the mature intervals count. */
  predicate SameAnswer(answer: Answer, plain: Result<bool, EvaluationError>) {
    match answer
    case Holds(holds) => plain == Ok(holds)
    case Breaks(error) => plain == Err(error)
    case _ => true
  }

  lemma {:induction false} DurableAnswerIsPlain(registry: Registry, condition: ResolvedCondition, variables: Variables,
                                                reading: Reading, world: World, invalid: set<DurationKey>)
    requires reading.matured == MatureKeys(world.durations)
    ensures SameAnswer(EvaluateDurably(registry, condition, variables, reading, world, invalid).answer,
                       EvaluateCondition(registry, condition, variables, reading))
    decreases condition
  {
    match condition
    case Constant(_) =>
    case Compare(_, _, _) =>
    case TimeWindow(_, _, _) =>
    case All(conditions) => DurableListIsPlain(registry, conditions, variables, reading, world, invalid, false);
    case Any(conditions) => DurableListIsPlain(registry, conditions, variables, reading, world, invalid, true);
    case Not(inner) => DurableAnswerIsPlain(registry, inner, variables, reading, world, invalid);
    case StateDuration(inner, durationMs) =>
      DurableAnswerIsPlain(registry, inner, variables, reading, world, invalid);
  }

  lemma {:induction false} DurableListIsPlain(registry: Registry, conditions: seq<ResolvedCondition>,
                                              variables: Variables, reading: Reading, world: World,
                                              invalid: set<DurationKey>, stop: bool)
    requires reading.matured == MatureKeys(world.durations)
    ensures SameAnswer(EvaluateEach(registry, conditions, variables, reading, world, invalid, stop).answer,
                       EvaluateUntil(registry, conditions, variables, reading, stop))
    decreases conditions
  {
    if conditions != [] {
      DurableAnswerIsPlain(registry, conditions[0], variables, reading, world, invalid);
      var first := EvaluateDurably(registry, conditions[0], variables, reading, world, invalid);
      DurableListIsPlain(registry, conditions[1..], variables, reading, world, first.invalid, stop);
    }
  }

  // ----- one atomic change of a run's timers ------------------------------------------

  /** Timers one commit creates, cancels and consumes. */
  datatype TimerChange = TimerChange(created: Option<TimerId>, cancelled: set<TimerId>, consumed: Option<TimerId>)

  const UNCHANGED := TimerChange(None, {}, None)

  /** Creation is idempotent while the timer is pending; only live timers are cancelled, only ready ones consumed. */
  predicate Permitted(timers: Timers, change: TimerChange) {
    && (change.created.Some? && change.created.value in timers ==> timers[change.created.value].Pending?)
    && (forall id :: id in change.cancelled ==> id in timers && timers[id].Live() && change.consumed != Some(id))
    && (change.consumed.Some? ==> change.consumed.value in timers && timers[change.consumed.value].Ready?)
  }

  function Applied(timers: Timers, change: TimerChange): Timers {
    map id | id in timers.Keys + (if change.created.Some? then {change.created.value} else {}) ::
      if id in change.cancelled then TimerState.Cancelled
      else if change.consumed == Some(id) then Consumed
      else if id in timers then timers[id]
      else Pending
  }
}
