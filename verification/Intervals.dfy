/**
 * What one step does to the stability intervals of its node: those whose
 * condition it saw to fail end together with their timers, one may begin, and
 * one may mature. The history of the steps that were committed says what a
 * mature interval stands for.
 */
module Intervals {
  import opened Wrappers
  import opened Domain
  import opened Evaluator
  import opened Durations

  predicate Conditional(node: Node) {
    node.WaitNode? || node.BranchNode?
  }

  function GrowingTimers(durations: seq<ConditionDuration>, node: NodeId): set<TimerId> {
    set duration | duration in durations && duration.node == node && duration.phase.Growing? :: duration.Timer()
  }

  /** Timers of growing intervals whose condition was seen to fail. */
  function ResetTimers(durations: seq<ConditionDuration>, node: NodeId, invalid: set<DurationKey>): set<TimerId> {
    set id | id in GrowingTimers(durations, node) && Resets(durations, invalid, id)
  }

  predicate Resets(durations: seq<ConditionDuration>, invalid: set<DurationKey>, id: TimerId) {
    exists duration :: duration in durations && duration.Timer() == id && duration.key in invalid
  }

  /** A growing interval of this node that is not kept has its timer reset. */
  lemma ResetsCover(durations: seq<ConditionDuration>, node: NodeId, invalid: set<DurationKey>)
    ensures forall duration :: duration in durations && duration.node == node && duration.phase.Growing? ==>
              duration in Keep(durations, invalid) || duration.Timer() in ResetTimers(durations, node, invalid)
  {
    forall duration | duration in durations && duration.node == node
                      && duration.phase.Growing? && duration.key in invalid
      ensures duration.Timer() in ResetTimers(durations, node, invalid)
    {
      assert Resets(durations, invalid, duration.Timer());
    }
  }

  /** The intervals after a request was met: failed ones are gone, one may be new or mature. */
  function Adjusted(durations: seq<ConditionDuration>, request: Request, invalid: set<DurationKey>)
    : Option<seq<ConditionDuration>>
  {
    var kept := Keep(durations, invalid);
    match request
    case Begin(duration) => Some(kept + [duration])
    case StillGrowing => Some(kept)
    case Ripen(key, _) => if Find(kept, key).None? then None else Some(Ripened(kept, key))
  }

  /** The timers that go with them. */
  function AdjustChange(durations: seq<ConditionDuration>, node: NodeId, request: Request, invalid: set<DurationKey>)
    : TimerChange
  {
    TimerChange(if request.Begin? then Some(request.duration.Timer()) else None,
                ResetTimers(durations, node, invalid),
                if request.Ripen? then Some(request.timer) else None)
  }

  // ----- what was seen ---------------------------------------------------------------------

  /** A committed evaluation of the condition of a node, with the request it met. */
  datatype Sighting = Sighting(variables: Variables, reading: Reading, world: World, met: Option<Request>)

  /** The evaluation asked for what was met, or the condition was plainly false and the run stayed. */
  ghost predicate Faithful(registry: Registry, nodes: seq<Node>, sighting: Sighting) {
    var world := sighting.world;
    && world.node < |nodes| && Conditional(nodes[world.node])
    && sighting.reading.matured == MatureKeys(world.durations)
    && AnswerTo(registry, nodes[world.node].condition, sighting.variables, sighting.reading, world)
       == (match sighting.met case Some(request) => Needs(request) case None => Holds(false))
  }

  /** The evaluation found the condition of this interval false. */
  ghost predicate SawFalse(registry: Registry, nodes: seq<Node>, sighting: Sighting, key: DurationKey) {
    var world := sighting.world;
    && world.node < |nodes| && Conditional(nodes[world.node])
    && SeesFalse(registry, nodes[world.node].condition, sighting.variables, sighting.reading, world, key)
  }

  /** The keys that a sighting reports are those it saw to be false. */
  ghost predicate Reports(registry: Registry, nodes: seq<Node>, sighting: Sighting, invalid: set<DurationKey>) {
    forall key :: key in invalid <==> SawFalse(registry, nodes, sighting, key)
  }

  lemma SightingReports(registry: Registry, nodes: seq<Node>, sighting: Sighting)
    requires sighting.world.node < |nodes| && Conditional(nodes[sighting.world.node])
    ensures Reports(registry, nodes, sighting,
                    EvaluateDurably(registry, nodes[sighting.world.node].condition, sighting.variables,
                                    sighting.reading, sighting.world, {}).invalid)
  {
    var world := sighting.world;
    forall key {
      InvalidIffSeenFalse(registry, nodes[world.node].condition, sighting.variables, sighting.reading, world, {}, key);
    }
  }

  /** The interval was begun here: its condition held, and its time was to be over after its length. */
  ghost predicate Began(registry: Registry, sighting: Sighting, duration: ConditionDuration) {
    && sighting.met == Some(Begin(duration.(phase := Growing)))
    && duration.node == sighting.world.node && duration.readyAt == sighting.world.now + duration.key.1
    && EvaluateCondition(registry, duration.key.0, sighting.variables, sighting.reading) == Ok(true)
  }

  /** The interval matured here: its time was over, and its condition held. */
  ghost predicate Matured(registry: Registry, sighting: Sighting, duration: ConditionDuration) {
    && sighting.met == Some(Ripen(duration.key, duration.Timer()))
    && duration.Timer() in sighting.world.timers && sighting.world.timers[duration.Timer()].Ready?
    && EvaluateCondition(registry, duration.key.0, sighting.variables, sighting.reading) == Ok(true)
  }

  /** The interval began at `start`, matured later if it is mature, and its condition was not seen to fail since. */
  ghost predicate HeldSince(registry: Registry, nodes: seq<Node>, sightings: seq<Sighting>,
                            duration: ConditionDuration, start: nat)
  {
    && start < |sightings| && Began(registry, sightings[start], duration)
    && (forall k :: start < k < |sightings| ==> !SawFalse(registry, nodes, sightings[k], duration.key))
    && (duration.phase.Mature? ==>
          exists ripe :: start < ripe < |sightings| && Matured(registry, sightings[ripe], duration))
  }

  ghost predicate Held(registry: Registry, nodes: seq<Node>, sightings: seq<Sighting>, duration: ConditionDuration) {
    exists start :: HeldSince(registry, nodes, sightings, duration, start)
  }

  /** Every interval of the run has held since it began. */
  ghost predicate Unbroken(registry: Registry, nodes: seq<Node>, sightings: seq<Sighting>,
                           durations: seq<ConditionDuration>)
  {
    && (forall k :: 0 <= k < |sightings| ==> Faithful(registry, nodes, sightings[k]))
    && (forall duration :: duration in durations ==> Held(registry, nodes, sightings, duration))
  }

  // ----- what a sighting does to the intervals ------------------------------------------------

  /** What is seen to be false is plainly false. */
  lemma {:induction false} SeenFalseIsFalse(registry: Registry, condition: ResolvedCondition, variables: Variables,
                                            reading: Reading, world: World, key: DurationKey)
    requires reading.matured == MatureKeys(world.durations)
    requires SeesFalse(registry, condition, variables, reading, world, key)
    ensures EvaluateCondition(registry, key.0, variables, reading) == Ok(false)
    decreases condition
  {
    match condition
    case Not(inner) => SeenFalseIsFalse(registry, inner, variables, reading, world, key);
    case StateDuration(inner, durationMs) =>
      if SeesFalse(registry, inner, variables, reading, world, key) {
        SeenFalseIsFalse(registry, inner, variables, reading, world, key);
      } else {
        DurableAnswerIsPlain(registry, inner, variables, reading, world, {});
      }
    case All(conditions) =>
      var i :| 0 <= i < |conditions| && LeftOpen(registry, conditions, variables, reading, world, i, true)
               && SeesFalse(registry, conditions[i], variables, reading, world, key);
      SeenFalseIsFalse(registry, conditions[i], variables, reading, world, key);
    case Any(conditions) =>
      var i :| 0 <= i < |conditions| && LeftOpen(registry, conditions, variables, reading, world, i, false)
               && SeesFalse(registry, conditions[i], variables, reading, world, key);
      SeenFalseIsFalse(registry, conditions[i], variables, reading, world, key);
  }

  /** What a request is about was not seen to be false. */
  lemma MetIsNotSeenFalse(registry: Registry, nodes: seq<Node>, sighting: Sighting, key: DurationKey)
    requires Faithful(registry, nodes, sighting)
    requires EvaluateCondition(registry, key.0, sighting.variables, sighting.reading) == Ok(true)
    ensures !SawFalse(registry, nodes, sighting, key)
  {
    var world := sighting.world;
    if SawFalse(registry, nodes, sighting, key) {
      SeenFalseIsFalse(registry, nodes[world.node].condition, sighting.variables, sighting.reading, world, key);
    }
  }

  /** The condition of the interval that is begun or matures holds. */
  lemma MetConditionHolds(registry: Registry, nodes: seq<Node>, sighting: Sighting)
    requires Faithful(registry, nodes, sighting) && sighting.met.Some?
    ensures RequestHolds(registry, sighting.variables, sighting.reading, Needs(sighting.met.value))
    ensures RequestFits(sighting.world, Needs(sighting.met.value))
  {
    var world := sighting.world;
    RequestedConditionHolds(registry, nodes[world.node].condition, sighting.variables, sighting.reading, world, {});
  }

  lemma HeldFurther(registry: Registry, nodes: seq<Node>, sightings: seq<Sighting>, next: Sighting,
                    duration: ConditionDuration)
    requires Held(registry, nodes, sightings, duration)
    requires !SawFalse(registry, nodes, next, duration.key)
    ensures Held(registry, nodes, sightings + [next], duration)
  {
    var start: nat :| HeldSince(registry, nodes, sightings, duration, start);
    if duration.phase.Mature? {
      var ripe: nat :| start < ripe < |sightings| && Matured(registry, sightings[ripe], duration);
      assert Matured(registry, (sightings + [next])[ripe], duration);
    }
    assert HeldSince(registry, nodes, sightings + [next], duration, start);
  }

  lemma HeldUntilMature(registry: Registry, nodes: seq<Node>, sightings: seq<Sighting>, next: Sighting,
                        duration: ConditionDuration)
    requires Held(registry, nodes, sightings, duration) && duration.phase.Growing?
    requires !SawFalse(registry, nodes, next, duration.key) && Matured(registry, next, duration)
    ensures Held(registry, nodes, sightings + [next], duration.(phase := Mature))
  {
    var start: nat :| HeldSince(registry, nodes, sightings, duration, start);
    assert Matured(registry, (sightings + [next])[|sightings|], duration.(phase := Mature));
    assert HeldSince(registry, nodes, sightings + [next], duration.(phase := Mature), start);
  }

  lemma HeldFromNow(registry: Registry, nodes: seq<Node>, sightings: seq<Sighting>, next: Sighting,
                    duration: ConditionDuration)
    requires Began(registry, next, duration) && duration.phase.Growing?
    ensures Held(registry, nodes, sightings + [next], duration)
  {
    assert HeldSince(registry, nodes, sightings + [next], duration, |sightings|);
  }

  /** The intervals that were not seen to fail hold on. */
  lemma KeptIsUnbroken(registry: Registry, nodes: seq<Node>, sightings: seq<Sighting>, next: Sighting,
                       durations: seq<ConditionDuration>, invalid: set<DurationKey>)
    requires Unbroken(registry, nodes, sightings, durations)
    requires Faithful(registry, nodes, next) && Reports(registry, nodes, next, invalid)
    ensures Unbroken(registry, nodes, sightings + [next], Keep(durations, invalid))
  {
    forall duration | duration in Keep(durations, invalid)
      ensures Held(registry, nodes, sightings + [next], duration)
    {
      HeldFurther(registry, nodes, sightings, next, duration);
    }
  }

  /** So do those that are left after a request was met, and the new or mature one among them. */
  lemma AdjustedIsUnbroken(registry: Registry, nodes: seq<Node>, sightings: seq<Sighting>, next: Sighting,
                           durations: seq<ConditionDuration>, request: Request, invalid: set<DurationKey>)
    requires Unbroken(registry, nodes, sightings, durations)
    requires Faithful(registry, nodes, next) && Reports(registry, nodes, next, invalid)
    requires next.met == Some(request) && next.world.durations == durations
    requires Adjusted(durations, request, invalid).Some?
    ensures Unbroken(registry, nodes, sightings + [next], Adjusted(durations, request, invalid).value)
  {
    KeptIsUnbroken(registry, nodes, sightings, next, durations, invalid);
    MetConditionHolds(registry, nodes, next);
    match request
    case StillGrowing =>
    case Begin(duration) => HeldFromNow(registry, nodes, sightings, next, duration);
    case Ripen(key, timer) =>
      var kept := Keep(durations, invalid);
      var found := Find(kept, key).value;
      KeptIsFound(durations, invalid, key);
      HeldUntilMature(registry, nodes, sightings, next, found);
      forall duration | duration in Ripened(kept, key)
        ensures Held(registry, nodes, sightings + [next], duration)
      {
      }
  }

  /**
   * Exactly the intervals whose condition was seen to fail are gone, however
   * far they had come, and the timers of those that were growing are cancelled.
   */
  ghost predicate Interrupts(registry: Registry, nodes: seq<Node>, sighting: Sighting,
                             before: seq<ConditionDuration>, after: seq<ConditionDuration>, timers: Timers)
  {
    forall duration :: duration in before ==>
      if SawFalse(registry, nodes, sighting, duration.key) then
        && (forall other :: other in after ==> other.key != duration.key)
        && (duration.phase.Growing? && duration.node == sighting.world.node ==>
              duration.Timer() in timers && timers[duration.Timer()].Cancelled?)
      else duration in after || duration.(phase := Mature) in after
  }

  lemma KeptInterrupts(registry: Registry, nodes: seq<Node>, sighting: Sighting, durations: seq<ConditionDuration>,
                       invalid: set<DurationKey>, timers: Timers, change: TimerChange)
    requires Reports(registry, nodes, sighting, invalid) && Permitted(timers, change)
    requires change.cancelled == ResetTimers(durations, sighting.world.node, invalid)
    ensures Interrupts(registry, nodes, sighting, durations, Keep(durations, invalid), Applied(timers, change))
  {
    ResetsCover(durations, sighting.world.node, invalid);
  }

  lemma AdjustedInterrupts(registry: Registry, nodes: seq<Node>, sighting: Sighting,
                           durations: seq<ConditionDuration>, request: Request, invalid: set<DurationKey>,
                           timers: Timers)
    requires Faithful(registry, nodes, sighting) && Reports(registry, nodes, sighting, invalid)
    requires sighting.met == Some(request) && Adjusted(durations, request, invalid).Some?
    requires Permitted(timers, AdjustChange(durations, sighting.world.node, request, invalid))
    ensures Interrupts(registry, nodes, sighting, durations, Adjusted(durations, request, invalid).value,
                       Applied(timers, AdjustChange(durations, sighting.world.node, request, invalid)))
  {
    var change := AdjustChange(durations, sighting.world.node, request, invalid);
    KeptInterrupts(registry, nodes, sighting, durations, invalid, timers, change);
    match request
    case StillGrowing =>
    case Begin(duration) =>
      MetConditionHolds(registry, nodes, sighting);
      MetIsNotSeenFalse(registry, nodes, sighting, duration.key);
    case Ripen(key, _) =>
      var kept := Keep(durations, invalid);
      assert forall other :: other in Ripened(kept, key) ==> other in kept || other.key == Find(kept, key).value.key;
  }

  /** An alternative of two: the first decides it if it holds; the second is evaluated only if it does not. */
  lemma EitherEvaluates(registry: Registry, first: ResolvedCondition, second: ResolvedCondition, variables: Variables,
                        reading: Reading, world: World)
    ensures var either := EvaluateDurably(registry, Any([first, second]), variables, reading, world, {});
            var left := EvaluateDurably(registry, first, variables, reading, world, {});
            && (left.answer == Holds(true) ==> either == left)
            && (left.answer == Holds(false) ==>
                  var right := EvaluateDurably(registry, second, variables, reading, world, left.invalid);
                  right.answer.Needs? ==> either == right)
  {
    var both, left := [first, second], EvaluateDurably(registry, first, variables, reading, world, {});
    assert both[1..] == [second];
    if left.answer == Holds(false) {
      assert EvaluateEach(registry, both, variables, reading, world, {}, true)
             == EvaluateEach(registry, [second], variables, reading, world, left.invalid, true);
    }
  }

  // ----- what a stable condition stands for --------------------------------------------------

  /** The condition was stable: an interval of its length began and matured, and nothing since saw it fail. */
  ghost predicate StableSince(registry: Registry, nodes: seq<Node>, sightings: seq<Sighting>,
                              duration: ConditionDuration, start: nat, ripe: nat)
  {
    && start < ripe < |sightings|
    && Began(registry, sightings[start], duration) && Matured(registry, sightings[ripe], duration)
    && forall k :: start < k < |sightings| ==> !SawFalse(registry, nodes, sightings[k], duration.key)
  }

  lemma MatureIsStable(registry: Registry, nodes: seq<Node>, sightings: seq<Sighting>, duration: ConditionDuration)
    requires Held(registry, nodes, sightings, duration) && duration.phase.Mature?
    ensures exists start, ripe :: StableSince(registry, nodes, sightings, duration, start, ripe)
  {
    var start: nat :| HeldSince(registry, nodes, sightings, duration, start);
    var ripe: nat :| start < ripe < |sightings| && Matured(registry, sightings[ripe], duration);
    assert StableSince(registry, nodes, sightings, duration, start, ripe);
  }

  /** A condition was stable for this key. */
  ghost predicate Stable(registry: Registry, nodes: seq<Node>, sightings: seq<Sighting>, key: DurationKey) {
    exists duration: ConditionDuration, start, ripe ::
      duration.key == key && StableSince(registry, nodes, sightings, duration, start, ripe)
  }

  lemma MatureKeyIsStable(registry: Registry, nodes: seq<Node>, sightings: seq<Sighting>,
                          durations: seq<ConditionDuration>, key: DurationKey)
    requires Unbroken(registry, nodes, sightings, durations) && key in MatureKeys(durations)
    ensures Stable(registry, nodes, sightings, key)
  {
    var duration := Find(durations, key).value;
    MatureIsStable(registry, nodes, sightings, duration);
  }

  /** A stability condition holds only with its inner condition, and once its interval is mature. */
  lemma HoldsOnlyMature(registry: Registry, key: DurationKey, variables: Variables, reading: Reading)
    requires EvaluateCondition(registry, StateDuration(key.0, key.1), variables, reading) == Ok(true)
    ensures EvaluateCondition(registry, key.0, variables, reading) == Ok(true)
    ensures key in reading.matured
  {
    assert key == (key.0, key.1);
  }
}
