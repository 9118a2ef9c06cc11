/**
 * The event consumer: durable events become occurrences of the active
 * automations they trigger, one event at a time behind a checkpoint.
 */
module Events {
  import opened Wrappers
  import opened Domain

  const MAX_EVENT_PAGE: nat := 1_000

  type AutomationId = nat

  datatype Trigger =
    | OnObservation(targets: seq<Target>, field: Option<string>)
    | OnDeviceEvent(targets: seq<Target>, event: string)
    | OnCommandOutcome(watched: Option<seq<Target>>, states: set<CommandState>)
    | OnSchedule

  datatype SelfTriggerPolicy = SuppressSameVersion | SuppressSameCorrelation | Allow

  datatype Active =
    Active(automation: AutomationId, version: nat, triggers: seq<Trigger>, selfTrigger: SelfTriggerPolicy)

  datatype EventKind =
    | ObservationChanged(endpoint: string, capability: string, changed: seq<string>)
    | DeviceEvent(endpoint: string, event: string)
    | CommandTransitioned(to: CommandState, source: Option<(string, string)>)
    | OtherKind

  /** The automation run, if any, whose command led to the event. */
  datatype Cause = Cause(automation: AutomationId, version: nat)

  datatype DomainEvent = DomainEvent(device: Option<nat>, kind: EventKind, cause: Option<Cause>)

  datatype OccurrenceState = Scheduled | Accepted | MissedSkipped | Suppressed

  /** Identity of an occurrence: the derived id is a function of these three. */
  datatype OccurrenceKey = OccurrenceKey(automation: AutomationId, version: nat, cursor: nat)

  predicate ExactTarget(target: Target, event: DomainEvent, endpoint: string, capability: string) {
    event.device == Some(target.device) && target.endpoint == endpoint && target.capability == capability
  }

  predicate TriggerMatches(trigger: Trigger, event: DomainEvent) {
    match (trigger, event.kind)
    case (OnObservation(targets, field), ObservationChanged(endpoint, capability, changed)) =>
      exists target :: target in targets && ExactTarget(target, event, endpoint, capability)
                       && (field.None? || field.value in changed)
    case (OnDeviceEvent(targets, expected), DeviceEvent(endpoint, actual)) =>
      expected == actual
      && exists target :: target in targets && event.device == Some(target.device) && target.endpoint == endpoint
    case (OnCommandOutcome(watched, states), CommandTransitioned(to, source)) =>
      to in states
      && (watched.None? || (source.Some? && exists target :: target in watched.value
                                              && ExactTarget(target, event, source.value.0, source.value.1)))
    case _ => false
  }

  predicate Triggered(active: Active, event: DomainEvent) {
    exists trigger :: trigger in active.triggers && TriggerMatches(trigger, event)
  }

  /** An automation does not react to what it caused itself, as far as its policy says. */
  predicate SelfSuppressed(active: Active, event: DomainEvent) {
    && event.cause.Some? && event.cause.value.automation == active.automation
    && match active.selfTrigger
       case SuppressSameVersion => event.cause.value.version == active.version
       case SuppressSameCorrelation => true
       case Allow => false
  }

  function KeyOf(active: Active, cursor: nat): OccurrenceKey {
    OccurrenceKey(active.automation, active.version, cursor)
  }

  function Birth(active: Active, event: DomainEvent): OccurrenceState {
    if SelfSuppressed(active, event) then Suppressed else Scheduled
  }

  // ----- a single pass without crashes ----------------------------------------------------

  function Births(actives: seq<Active>, event: DomainEvent, cursor: nat): map<OccurrenceKey, OccurrenceState> {
    if actives == [] then map[]
    else
      var last := |actives| - 1;
      var earlier := Births(actives[..last], event, cursor);
      if Triggered(actives[last], event) then earlier[KeyOf(actives[last], cursor) := Birth(actives[last], event)]
      else earlier
  }

  /** Events are numbered from one in the order of the log. */
  function CrashFree(log: seq<DomainEvent>, actives: seq<Active>): map<OccurrenceKey, OccurrenceState> {
    if log == [] then map[]
    else CrashFree(log[..|log| - 1], actives) + Births(actives, log[|log| - 1], |log|)
  }

  predicate OneVersionEach(actives: seq<Active>) {
    forall i, j :: 0 <= i < j < |actives| ==> actives[i].automation != actives[j].automation
  }

  lemma {:induction false} BirthsAre(actives: seq<Active>, event: DomainEvent, cursor: nat)
    requires OneVersionEach(actives)
    ensures forall key :: key in Births(actives, event, cursor) ==>
              && key.cursor == cursor
              && exists i :: 0 <= i < |actives| && KeyOf(actives[i], cursor) == key && Triggered(actives[i], event)
    ensures forall i :: 0 <= i < |actives| && Triggered(actives[i], event) ==>
              var key := KeyOf(actives[i], cursor);
              key in Births(actives, event, cursor) && Births(actives, event, cursor)[key] == Birth(actives[i], event)
  {
    if actives != [] {
      var last := |actives| - 1;
      var front := actives[..last];
      BirthsAre(front, event, cursor);
      forall key | key in Births(front, event, cursor)
        ensures exists i :: 0 <= i < |actives| && KeyOf(actives[i], cursor) == key && Triggered(actives[i], event)
      {
        var i :| 0 <= i < |front| && KeyOf(front[i], cursor) == key && Triggered(front[i], event);
        assert actives[i] == front[i];
      }
    }
  }

  /**
   * What a crash-free pass creates: one occurrence for each event and each
   * active automation it triggers, suppressed exactly when self-caused.
   */
  lemma {:induction false} CrashFreeCreates(log: seq<DomainEvent>, actives: seq<Active>)
    requires OneVersionEach(actives)
    ensures forall key :: key in CrashFree(log, actives) ==> 1 <= key.cursor <= |log|
    ensures forall cursor, i :: 1 <= cursor <= |log| && 0 <= i < |actives| ==>
              var key := KeyOf(actives[i], cursor);
              && (key in CrashFree(log, actives) <==> Triggered(actives[i], log[cursor - 1]))
              && (key in CrashFree(log, actives) ==>
                    CrashFree(log, actives)[key] == Birth(actives[i], log[cursor - 1]))
  {
    if log != [] {
      var last := |log| - 1;
      CrashFreeCreates(log[..last], actives);
      BirthsAre(actives, log[last], |log|);
    }
  }

  /** The targets an event may come from. */
  predicate ComesFrom(event: DomainEvent, endpoint: string, capability: string, targets: seq<Target>) {
    event.device.Some? && Target(event.device.value, endpoint, capability) in targets
  }

  /**
   * Which events a trigger is about: changes of the watched field of a target,
   * the named event of a target's endpoint, commands that reach one of the
   * states at a watched target. A schedule is about none of them.
   */
  lemma TriggersAreAbout(trigger: Trigger, event: DomainEvent)
    ensures match event.kind
            case ObservationChanged(endpoint, capability, changed) =>
              TriggerMatches(trigger, event) <==>
                trigger.OnObservation? && ComesFrom(event, endpoint, capability, trigger.targets)
                && (trigger.field.Some? ==> trigger.field.value in changed)
            case DeviceEvent(endpoint, name) =>
              TriggerMatches(trigger, event) <==>
                trigger.OnDeviceEvent? && trigger.event == name
                && exists capability :: ComesFrom(event, endpoint, capability, trigger.targets)
            case CommandTransitioned(to, source) =>
              TriggerMatches(trigger, event) <==>
                trigger.OnCommandOutcome? && to in trigger.states
                && (trigger.watched.Some? ==>
                      source.Some? && ComesFrom(event, source.value.0, source.value.1, trigger.watched.value))
            case OtherKind => !TriggerMatches(trigger, event)
  {
    match (trigger, event.kind)
    case (OnObservation(targets, _), ObservationChanged(endpoint, capability, _)) =>
      ExactTargetIsSource(targets, event, endpoint, capability);
    case (OnDeviceEvent(targets, _), DeviceEvent(endpoint, _)) =>
      if target :| target in targets && event.device == Some(target.device) && target.endpoint == endpoint {
        assert target == Target(target.device, endpoint, target.capability);
        assert ComesFrom(event, endpoint, target.capability, targets);
      }
    case (OnCommandOutcome(watched, _), CommandTransitioned(_, source)) =>
      if watched.Some? && source.Some? {
        ExactTargetIsSource(watched.value, event, source.value.0, source.value.1);
      }
    case _ =>
  }

  lemma ExactTargetIsSource(targets: seq<Target>, event: DomainEvent, endpoint: string, capability: string)
    ensures (exists target :: target in targets && ExactTarget(target, event, endpoint, capability))
            <==> ComesFrom(event, endpoint, capability, targets)
  {
    if target :| target in targets && ExactTarget(target, event, endpoint, capability) {
      assert target == Target(event.device.value, endpoint, capability);
    }
  }

  function CauseOf(active: Active): Option<Cause> {
    Some(Cause(active.automation, active.version))
  }

  /**
   * An occurrence is born suppressed only for an event that a run of the same
   * automation caused. A run of the same version is never let through unless
   * the policy allows everything; one of another version is held back exactly
   * by the policy about correlations.
   */
  lemma SuppressedIffSelfCaused(active: Active, event: DomainEvent)
    ensures Birth(active, event).Scheduled? || Birth(active, event).Suppressed?
    ensures event.cause == CauseOf(active) ==> (Birth(active, event).Suppressed? <==> !active.selfTrigger.Allow?)
    ensures event.cause.Some? && event.cause.value.automation == active.automation && event.cause != CauseOf(active) ==>
              (Birth(active, event).Suppressed? <==> active.selfTrigger.SuppressSameCorrelation?)
    ensures event.cause.None? || event.cause.value.automation != active.automation ==> Birth(active, event).Scheduled?
  {
  }

  /** The pass over a prefix of the log creates exactly the part for that prefix. */
  lemma {:induction false} PrefixCreates(log: seq<DomainEvent>, actives: seq<Active>, c: nat)
    requires OneVersionEach(actives) && c <= |log|
    ensures forall key :: key in CrashFree(log[..c], actives) <==> key in CrashFree(log, actives) && key.cursor <= c
    ensures forall key :: key in CrashFree(log[..c], actives) ==>
              CrashFree(log[..c], actives)[key] == CrashFree(log, actives)[key]
    decreases |log|
  {
    if c < |log| {
      var last := |log| - 1;
      assert log[..last][..c] == log[..c];
      PrefixCreates(log[..last], actives, c);
      BirthsAre(actives, log[last], |log|);
      CrashFreeCreates(log[..c], actives);
      CrashFreeCreates(log[..last], actives);
    } else {
      assert log[..c] == log;
      CrashFreeCreates(log, actives);
    }
  }

  // ----- the processor ---------------------------------------------------------------------

  datatype Tick = Tick(events: nat, occurrences: nat, suppressed: nat, cursor: nat)

  datatype Outcome = Processed(tick: Tick) | CursorExpired(requested: nat, earliest: nat) | Interrupted

  /** Where an occurrence can get from the state it was created in. */
  predicate Progresses(born: OccurrenceState, state: OccurrenceState) {
    state == born || born.Scheduled?
  }

  class EventProcessor {
    const actives: seq<Active>
    var log: seq<DomainEvent>
    /** Number of events that retention has deleted, always the oldest. */
    var dropped: nat
    var cursor: nat
    var occurrences: map<OccurrenceKey, OccurrenceState>
    ghost var born: map<OccurrenceKey, OccurrenceState>

    /**
     * Every occurrence is one that a crash-free pass over the log creates, and
     * behind the checkpoint none is missing.
     */
    ghost predicate Valid()
      reads this
    {
      && OneVersionEach(actives) && cursor <= |log| && dropped <= |log|
      && occurrences.Keys == born.Keys
      && (forall key :: key in born ==> Progresses(born[key], occurrences[key]))
      && (forall key :: key in born ==> key in CrashFree(log, actives) && born[key] == CrashFree(log, actives)[key])
      && (forall key :: key in CrashFree(log, actives) && key.cursor <= cursor ==> key in born)
    }

    constructor (actives: seq<Active>)
      requires OneVersionEach(actives)
      ensures Valid() && this.actives == actives && log == [] && cursor == 0 && occurrences == map[]
    {
      this.actives := actives;
      log, dropped, cursor, occurrences, born := [], 0, 0, map[], map[];
    }

    /** A new event is written by some other service. */
    method Publish(event: DomainEvent)
      requires Valid()
      modifies this`log
      ensures Valid() && log == old(log) + [event]
    {
      PrefixCreates(log + [event], actives, |log|);
      assert (log + [event])[..|log|] == log;
      log := log + [event];
    }

    /** Retention deletes old events, whether or not they have been processed. */
    method Retain(deleted: nat)
      requires Valid() && dropped <= deleted <= |log|
      modifies this`dropped
      ensures Valid() && dropped == deleted
    {
      dropped := deleted;
    }

    /** The scheduler moves a scheduled occurrence on. */
    method Move(key: OccurrenceKey, state: OccurrenceState)
      requires Valid() && key in occurrences && occurrences[key].Scheduled?
      modifies this`occurrences
      ensures Valid() && occurrences == old(occurrences)[key := state]
    {
      occurrences := occurrences[key := state];
    }

    /** Creation by stable identity: an occurrence that exists is left as it is, whatever became of it. */
    method CreateOccurrence(active: Active, at: nat)
      requires Valid() && 1 <= at <= |log|
      requires active in actives && Triggered(active, log[at - 1])
      modifies this`occurrences, this`born
      ensures Valid() && KeyOf(active, at) in born
      ensures occurrences == if KeyOf(active, at) in old(occurrences) then old(occurrences)
                             else old(occurrences)[KeyOf(active, at) := Birth(active, log[at - 1])]
      ensures forall key :: key in old(born) ==> key in born
    {
      var key := KeyOf(active, at);
      CrashFreeCreates(log, actives);
      if key !in occurrences {
        occurrences := occurrences[key := Birth(active, log[at - 1])];
        born := born[key := Birth(active, log[at - 1])];
      }
    }

    /** Materializes one event; `writes` is how many writes succeed before the worker is interrupted. */
    method MaterializeEvent(at: nat, tick: Tick, writes: nat) returns (after: Tick, left: nat, interrupted: bool)
      requires Valid() && 1 <= at <= |log|
      modifies this`occurrences, this`born
      ensures Valid()
      ensures !interrupted ==>
                forall key :: key in CrashFree(log, actives) && key.cursor == at ==> key in born
      ensures forall key :: key in old(born) ==> key in born
      ensures after.events == tick.events && after.cursor == tick.cursor
      ensures interrupted ==> writes < |actives|
      ensures left <= writes && writes - left <= |actives|
    {
      after, left, interrupted := tick, writes, false;
      var event := log[at - 1];
      var i := 0;
      while i < |actives|
        invariant i <= |actives| && Valid()
        invariant forall k :: 0 <= k < i && Triggered(actives[k], event) ==> KeyOf(actives[k], at) in born
        invariant forall key :: key in old(born) ==> key in born
        invariant after.events == tick.events && after.cursor == tick.cursor
        invariant left <= writes && writes - left <= i
      {
        if Triggered(actives[i], event) {
          if left == 0 {
            interrupted := true;
            return;
          }
          CreateOccurrence(actives[i], at);
          left := left - 1;
          after := after.(occurrences := after.occurrences + 1,
                          suppressed := after.suppressed + if SelfSuppressed(actives[i], event) then 1 else 0);
        }
        i := i + 1;
      }
      AllMaterialized(log, actives, at, born);
    }

    /**
     * One bounded pass. It refuses to start behind events that are gone, and
     * moves the checkpoint past an event only once all its occurrences exist.
     */
    method Process(limit: nat, writes: nat) returns (outcome: Outcome)
      requires Valid()
      modifies this`cursor, this`occurrences, this`born
      ensures Valid() && old(cursor) <= cursor
      ensures outcome.CursorExpired? <==> old(cursor) < dropped < |log|
      ensures outcome.CursorExpired? ==>
                && cursor == old(cursor) && occurrences == old(occurrences)
                && outcome == CursorExpired(cursor, dropped + 1)
      ensures cursor > old(cursor) ==> dropped <= old(cursor)
      ensures forall key :: key in old(born) ==> key in born
      ensures outcome.Processed? ==>
                && outcome.tick.cursor == cursor && outcome.tick.events == cursor - old(cursor)
                && cursor == if dropped == |log| then old(cursor) else Smaller(|log|, old(cursor) + Clamp(limit))
      ensures writes >= WritesFor(|actives| + 1, Clamp(limit)) ==> !outcome.Interrupted?
    {
      if dropped < |log| && cursor + 1 < dropped + 1 {
        return CursorExpired(cursor, dropped + 1);
      }
      var tick := Tick(0, 0, 0, cursor);
      var left: nat := writes;
      var end := if dropped == |log| then cursor else Smaller(|log|, cursor + Clamp(limit));
      ghost var begun := cursor;
      while cursor < end
        invariant Valid() && begun <= cursor <= end
        invariant tick.cursor == cursor && tick.events == cursor - begun
        invariant forall key :: key in old(born) ==> key in born
        invariant left <= writes && writes - left <= WritesFor(|actives| + 1, cursor - begun)
      {
        var at, interrupted := cursor + 1, false;
        ghost var before := left;
        tick, left, interrupted := MaterializeEvent(at, tick, left);
        if interrupted || left == 0 {
          WritesGrow(|actives| + 1, cursor - begun + 1, Clamp(limit));
          return Interrupted;
        }
        CrashFreeCreates(log, actives);
        cursor, left := at, left - 1;
        tick := tick.(events := tick.events + 1, cursor := at);
      }
      return Processed(tick);
    }
  }

  function Smaller(a: nat, b: nat): nat {
    if a < b then a else b
  }

  /** Page sizes lie between one event and the largest page. */
  function Clamp(limit: nat): (size: nat)
    ensures 1 <= size <= MAX_EVENT_PAGE && (1 <= limit <= MAX_EVENT_PAGE ==> size == limit)
    ensures limit > MAX_EVENT_PAGE ==> size == MAX_EVENT_PAGE
  {
    if limit < 1 then 1 else Smaller(limit, MAX_EVENT_PAGE)
  }

  /** Writes that some events need at most. */
  function WritesFor(each: nat, events: nat): nat {
    if events == 0 then 0 else each + WritesFor(each, events - 1)
  }

  lemma {:induction false} WritesGrow(each: nat, fewer: nat, more: nat)
    requires fewer <= more
    ensures WritesFor(each, fewer) <= WritesFor(each, more)
    decreases more
  {
    if fewer < more {
      WritesGrow(each, fewer, more - 1);
    }
  }

  lemma AllMaterialized(log: seq<DomainEvent>, actives: seq<Active>, at: nat, born: map<OccurrenceKey, OccurrenceState>)
    requires OneVersionEach(actives) && 1 <= at <= |log|
    requires forall k :: 0 <= k < |actives| && Triggered(actives[k], log[at - 1]) ==> KeyOf(actives[k], at) in born
    ensures forall key :: key in CrashFree(log, actives) && key.cursor == at ==> key in born
  {
    PrefixCreates(log, actives, at);
    PrefixCreates(log, actives, at - 1);
    assert log[..at][..at - 1] == log[..at - 1];
    BirthsAre(actives, log[at - 1], at);
  }

  /**
   * Whatever pages were read and wherever workers were interrupted: behind the
   * checkpoint the occurrences are those of one crash-free pass, no more and
   * no fewer, and each was created in the state that pass gives it.
   */
  lemma BehindCheckpointExactlyOnce(processor: EventProcessor)
    requires processor.Valid()
    ensures var prefix := CrashFree(processor.log[..processor.cursor], processor.actives);
            && (forall key :: key in prefix <==> key in processor.occurrences && key.cursor <= processor.cursor)
            && (forall key :: key in prefix ==> processor.born[key] == prefix[key]
                                                && Progresses(prefix[key], processor.occurrences[key]))
  {
    PrefixCreates(processor.log, processor.actives, processor.cursor);
    forall key
      ensures key in processor.occurrences <==> key in processor.born
    {
      assert key in processor.occurrences.Keys <==> key in processor.born.Keys;
    }
  }
}
