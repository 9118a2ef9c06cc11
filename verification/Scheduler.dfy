/**
 * One scheduler pass over the recovered work: due occurrences are admitted,
 * deferred, suppressed or missed, and admitted ones get their run.
 */
module Scheduler {
  import opened Wrappers
  import opened Domain

  type OccurrenceId = nat
  type VersionKey = nat

  datatype OccurrenceState = Scheduled | Accepted | MissedSkipped | Suppressed

  datatype Occurrence = Occurrence(id: OccurrenceId, key: VersionKey, state: OccurrenceState, occurredAt: int,
                                   windowEndsAt: int)

  /** A run takes its identity from its occurrence. */
  datatype RunEntry = RunEntry(key: VersionKey, alive: bool)

  type Runs = map<OccurrenceId, RunEntry>

  datatype Admission = Accept | Defer | Suppress

  /** What becomes of one recovered occurrence. */
  datatype Fate = Ignored | Missed | NotDue | Deferred | Turned | Started | Restored | AlreadyThere

  function Admit(mode: RunMode, active: nat, queued: nat): Admission {
    match mode
    case Single => if active == 0 then Accept else Suppress
    case Restart => Accept
    case Queued(capacity) => if active == 0 then Accept else if queued < capacity then Defer else Suppress
    case Concurrent(maximumParallel) => if active < maximumParallel then Accept else Suppress
  }

  function Alive(runs: Runs, key: VersionKey): set<OccurrenceId> {
    set id | id in runs && runs[id].key == key && runs[id].alive
  }

  function Lookup(counts: map<VersionKey, nat>, key: VersionKey): nat {
    if key in counts then counts[key] else 0
  }

  /** How many of the occurrences of a version met a fate. */
  function Tally(page: seq<Occurrence>, fates: seq<Fate>, key: VersionKey, fate: Fate): nat
    requires |fates| <= |page|
  {
    if fates == [] then 0
    else
      var last := |fates| - 1;
      Tally(page, fates[..last], key, fate) + if page[last].key == key && fates[last] == fate then 1 else 0
  }

  /** The last occurrence of a version that was started. */
  function LastStarted(page: seq<Occurrence>, fates: seq<Fate>, key: VersionKey): Option<OccurrenceId>
    requires |fates| <= |page|
  {
    if fates == [] then None
    else
      var last := |fates| - 1;
      if page[last].key == key && fates[last].Started? then Some(page[last].id)
      else LastStarted(page, fates[..last], key)
  }

  /** Runs restored after the last start of a version. */
  function RestoredSince(page: seq<Occurrence>, fates: seq<Fate>, key: VersionKey): set<OccurrenceId>
    requires |fates| <= |page|
  {
    if fates == [] then {}
    else
      var last := |fates| - 1;
      if page[last].key == key && fates[last].Started? then {}
      else
        RestoredSince(page, fates[..last], key)
        + if page[last].key == key && fates[last].Restored? then {page[last].id} else {}
  }

  lemma TallyExtends(page: seq<Occurrence>, fates: seq<Fate>, next: Fate, key: VersionKey)
    requires |fates| < |page|
    ensures (fates + [next])[..|fates|] == fates
    ensures forall fate :: Tally(page, fates + [next], key, fate)
              == Tally(page, fates, key, fate) + if page[|fates|].key == key && next == fate then 1 else 0
  {
    assert (fates + [next])[..|fates|] == fates;
  }

  lemma TrackExtends(page: seq<Occurrence>, fates: seq<Fate>, next: Fate, key: VersionKey)
    requires |fates| < |page|
    requires page[|fates|].key != key || next !in {Started, Restored}
    ensures LastStarted(page, fates + [next], key) == LastStarted(page, fates, key)
    ensures RestoredSince(page, fates + [next], key) == RestoredSince(page, fates, key)
  {
    assert (fates + [next])[..|fates|] == fates;
  }

  /** The fate of an occurrence follows from its state, its window and what admission says. */
  predicate FateFits(occurrence: Occurrence, fate: Fate, modes: map<VersionKey, RunMode>, now: int) {
    if occurrence.key !in modes then fate.Ignored?
    else
      match occurrence.state
      case Scheduled =>
        if now > occurrence.windowEndsAt then fate.Missed?
        else if occurrence.occurredAt > now then fate.NotDue?
        else fate in {Deferred, Turned, Started}
      case Accepted => fate in {Restored, AlreadyThere}
      case _ => fate == AlreadyThere
  }

  /** Runs of a version that admission counts: those living before the pass and those it has started. */
  function ActiveCount(page: seq<Occurrence>, fates: seq<Fate>, modes: map<VersionKey, RunMode>, before: Runs,
                       key: VersionKey): nat
    requires |fates| <= |page|
  {
    var started := Tally(page, fates, key, Started);
    if key in modes && modes[key].Restart? && started > 0 then 1 else |Alive(before, key)| + started
  }

  /** The one fate that the next occurrence meets. */
  function NextFate(page: seq<Occurrence>, fates: seq<Fate>, modes: map<VersionKey, RunMode>, now: int, before: Runs)
    : Fate
    requires |fates| < |page|
  {
    var occurrence := page[|fates|];
    var key := occurrence.key;
    if key !in modes then Ignored
    else if !occurrence.state.Scheduled? then if occurrence.id in before then AlreadyThere else Restored
    else if now > occurrence.windowEndsAt then Missed
    else if occurrence.occurredAt > now then NotDue
    else
      match Admit(modes[key], ActiveCount(page, fates, modes, before, key), Tally(page, fates, key, Deferred))
      case Accept => Started
      case Defer => Deferred
      case Suppress => Turned
  }

  ghost predicate RulesFit(page: seq<Occurrence>, fates: seq<Fate>, modes: map<VersionKey, RunMode>, now: int,
                           before: Runs)
    requires |fates| <= |page|
  {
    forall i :: 0 <= i < |fates| ==> fates[i] == NextFate(page, fates[..i], modes, now, before)
  }

  lemma RulesExtend(page: seq<Occurrence>, fates: seq<Fate>, modes: map<VersionKey, RunMode>, now: int, before: Runs)
    requires |fates| < |page| && RulesFit(page, fates, modes, now, before)
    ensures RulesFit(page, fates + [NextFate(page, fates, modes, now, before)], modes, now, before)
  {
    var longer := fates + [NextFate(page, fates, modes, now, before)];
    assert longer[..|fates|] == fates;
    assert forall i :: 0 <= i < |fates| ==> longer[..i] == fates[..i];
  }

  /** The rules leave no choice. */
  lemma {:induction false} FatesAreDetermined(page: seq<Occurrence>, first: seq<Fate>, second: seq<Fate>,
                                              modes: map<VersionKey, RunMode>, now: int, before: Runs)
    requires |first| == |second| <= |page|
    requires RulesFit(page, first, modes, now, before) && RulesFit(page, second, modes, now, before)
    ensures first == second
    decreases |first|
  {
    if first != [] {
      var last := |first| - 1;
      assert forall i :: 0 <= i < last ==> first[..last][..i] == first[..i] && second[..last][..i] == second[..i];
      FatesAreDetermined(page, first[..last], second[..last], modes, now, before);
    }
  }

  function StateAfter(occurrence: Occurrence, fate: Fate): OccurrenceState {
    match fate
    case Missed => MissedSkipped
    case Turned => Suppressed
    case Started => Accepted
    case _ => occurrence.state
  }

  /** The counts a pass works with: runs alive when it began and runs it has started since. */
  ghost predicate CountsFit(page: seq<Occurrence>, fates: seq<Fate>, modes: map<VersionKey, RunMode>, before: Runs,
                            active: map<VersionKey, nat>, queued: map<VersionKey, nat>, key: VersionKey)
    requires |fates| <= |page|
  {
    var started, deferred := Tally(page, fates, key, Started), Tally(page, fates, key, Deferred);
    && Lookup(queued, key) == deferred
    && (key in modes && modes[key].Restart? && started > 0 ==> Lookup(active, key) == 1)
    && (key in modes && (!modes[key].Restart? || started == 0) ==>
          Lookup(active, key) == |Alive(before, key)| + started)
  }

  /** What a run mode promises about the starts of one pass. */
  ghost predicate CapacityKept(mode: RunMode, alive: nat, started: nat, deferred: nat) {
    match mode
    case Single => started <= 1 && (started > 0 ==> alive == 0)
    case Queued(capacity) => started <= 1 && (started > 0 ==> alive == 0) && deferred <= capacity
    case Concurrent(maximum) => started > 0 ==> alive + started <= maximum
    case Restart => true
  }

  /** Which runs of a version are alive. */
  ghost predicate AliveFit(page: seq<Occurrence>, fates: seq<Fate>, modes: map<VersionKey, RunMode>, before: Runs,
                           runs: Runs, key: VersionKey)
    requires |fates| <= |page|
  {
    if key in modes && modes[key].Restart? && Tally(page, fates, key, Started) > 0 then
      var last := LastStarted(page, fates, key);
      last.Some? && Alive(runs, key) == {last.value} + RestoredSince(page, fates, key)
    else
      && Alive(before, key) <= Alive(runs, key)
      && |Alive(runs, key)|
         == |Alive(before, key)| + Tally(page, fates, key, Started) + Tally(page, fates, key, Restored)
  }

  function CapacityOf(page: seq<Occurrence>, fates: seq<Fate>, modes: map<VersionKey, RunMode>, before: Runs,
                      key: VersionKey): (RunMode, nat, nat, nat)
    requires |fates| <= |page| && key in modes
  {
    (modes[key], |Alive(before, key)|, Tally(page, fates, key, Started), Tally(page, fates, key, Deferred))
  }

  /** Counts, living runs and capacity of one version after the occurrences that have met their fate. */
  ghost predicate VersionFits(page: seq<Occurrence>, fates: seq<Fate>, modes: map<VersionKey, RunMode>, before: Runs,
                              runs: Runs, active: map<VersionKey, nat>, queued: map<VersionKey, nat>, key: VersionKey)
    requires |fates| <= |page|
  {
    && CountsFit(page, fates, modes, before, active, queued, key)
    && AliveFit(page, fates, modes, before, runs, key)
    && (key in modes ==> KeepsCapacity(page, fates, modes, before, key))
  }

  /** An occurrence that changes neither runs nor counts of the version. */
  lemma QuietKeeps(page: seq<Occurrence>, fates: seq<Fate>, next: Fate, modes: map<VersionKey, RunMode>, before: Runs,
                   runs: Runs, active: map<VersionKey, nat>, queued: map<VersionKey, nat>, key: VersionKey)
    requires |fates| < |page| && VersionFits(page, fates, modes, before, runs, active, queued, key)
    requires page[|fates|].key != key || next !in {Started, Restored, Deferred}
    ensures VersionFits(page, fates + [next], modes, before, runs, active, queued, key)
  {
    TallyExtends(page, fates, next, key);
    TrackExtends(page, fates, next, key);
  }

  lemma DeferKeeps(page: seq<Occurrence>, fates: seq<Fate>, modes: map<VersionKey, RunMode>, before: Runs, runs: Runs,
                   active: map<VersionKey, nat>, queued: map<VersionKey, nat>, key: VersionKey)
    requires |fates| < |page| && VersionFits(page, fates, modes, before, runs, active, queued, key)
    requires page[|fates|].key == key && key in modes
    requires Admit(modes[key], Lookup(active, key), Lookup(queued, key)).Defer?
    ensures VersionFits(page, fates + [Deferred], modes, before, runs, active,
                        queued[key := Lookup(queued, key) + 1], key)
  {
    TallyExtends(page, fates, Deferred, key);
    TrackExtends(page, fates, Deferred, key);
  }

  /** A new run of the version joins the living ones. */
  lemma JoinsAlive(runs: Runs, id: OccurrenceId, key: VersionKey)
    requires id !in runs
    ensures Alive(runs[id := RunEntry(key, true)], key) == Alive(runs, key) + {id} && id !in Alive(runs, key)
    ensures |Alive(runs[id := RunEntry(key, true)], key)| == |Alive(runs, key)| + 1
  {
    assert Alive(runs[id := RunEntry(key, true)], key) == Alive(runs, key) + {id};
  }

  lemma OthersAlive(runs: Runs, id: OccurrenceId, key: VersionKey, other: VersionKey)
    requires id !in runs && other != key
    ensures Alive(runs[id := RunEntry(key, true)], other) == Alive(runs, other)
  {
    assert Alive(runs[id := RunEntry(key, true)], other) == Alive(runs, other);
  }

  lemma StartKeeps(page: seq<Occurrence>, fates: seq<Fate>, modes: map<VersionKey, RunMode>, before: Runs, runs: Runs,
                   active: map<VersionKey, nat>, queued: map<VersionKey, nat>, key: VersionKey)
    requires |fates| < |page| && VersionFits(page, fates, modes, before, runs, active, queued, key)
    requires page[|fates|].key == key && page[|fates|].id !in runs && key in modes && !modes[key].Restart?
    requires Admit(modes[key], Lookup(active, key), Lookup(queued, key)).Accept?
    ensures VersionFits(page, fates + [Started], modes, before, runs[page[|fates|].id := RunEntry(key, true)],
                        active[key := Lookup(active, key) + 1], queued, key)
  {
    TallyExtends(page, fates, Started, key);
    JoinsAlive(runs, page[|fates|].id, key);
  }

  /** A start in restart mode leaves its own run as the only living one. */
  lemma RestartKeeps(page: seq<Occurrence>, fates: seq<Fate>, modes: map<VersionKey, RunMode>, before: Runs,
                     was: Runs, runs: Runs, active: map<VersionKey, nat>, queued: map<VersionKey, nat>, key: VersionKey)
    requires |fates| < |page| && VersionFits(page, fates, modes, before, was, active, queued, key)
    requires page[|fates|].key == key && page[|fates|].id !in runs && key in modes && modes[key].Restart?
    requires Alive(runs, key) == {}
    ensures VersionFits(page, fates + [Started], modes, before, runs[page[|fates|].id := RunEntry(key, true)],
                        active[key := 1], queued, key)
  {
    TallyExtends(page, fates, Started, key);
    JoinsAlive(runs, page[|fates|].id, key);
  }

  lemma RestoreKeeps(page: seq<Occurrence>, fates: seq<Fate>, modes: map<VersionKey, RunMode>, before: Runs, runs: Runs,
                     active: map<VersionKey, nat>, queued: map<VersionKey, nat>, key: VersionKey)
    requires |fates| < |page| && VersionFits(page, fates, modes, before, runs, active, queued, key)
    requires page[|fates|].key == key && page[|fates|].id !in runs
    ensures VersionFits(page, fates + [Restored], modes, before, runs[page[|fates|].id := RunEntry(key, true)], active,
                        queued, key)
  {
    TallyExtends(page, fates, Restored, key);
    JoinsAlive(runs, page[|fates|].id, key);
  }

  /** What happens to one version leaves the others alone. */
  lemma ElsewhereKeeps(page: seq<Occurrence>, fates: seq<Fate>, next: Fate, modes: map<VersionKey, RunMode>,
                       before: Runs, was: Runs, runs: Runs, active: map<VersionKey, nat>,
                       activeAfter: map<VersionKey, nat>,
                       queued: map<VersionKey, nat>, queuedAfter: map<VersionKey, nat>, other: VersionKey)
    requires |fates| < |page| && VersionFits(page, fates, modes, before, was, active, queued, other)
    requires page[|fates|].key != other && Alive(runs, other) == Alive(was, other)
    requires Lookup(activeAfter, other) == Lookup(active, other) && Lookup(queuedAfter, other) == Lookup(queued, other)
    ensures VersionFits(page, fates + [next], modes, before, runs, activeAfter, queuedAfter, other)
  {
    TallyExtends(page, fates, next, other);
    TrackExtends(page, fates, next, other);
  }

  // ----- the pass ----------------------------------------------------------------------------

  predicate Distinct(page: seq<Occurrence>) {
    forall i, j :: 0 <= i < j < |page| ==> page[i].id != page[j].id
  }

  /** From `first` on, open occurrences as the repository recovers them; a scheduled one has no run yet. */
  predicate OpenFrom(page: seq<Occurrence>, first: nat, states: map<OccurrenceId, OccurrenceState>, runs: Runs) {
    forall i :: first <= i < |page| ==>
      && page[i].id in states && states[page[i].id] == page[i].state
      && page[i].state in {Scheduled, Accepted}
      && (page[i].state.Scheduled? ==> page[i].id !in runs)
  }

  /** Everything a processed occurrence has become. */
  ghost predicate DoneFits(page: seq<Occurrence>, fates: seq<Fate>, modes: map<VersionKey, RunMode>, now: int,
                           states: map<OccurrenceId, OccurrenceState>, runs: Runs)
    requires |fates| <= |page|
  {
    forall i :: 0 <= i < |fates| ==>
      && FateFits(page[i], fates[i], modes, now)
      && page[i].id in states && states[page[i].id] == StateAfter(page[i], fates[i])
      && (fates[i] in {Started, Restored, AlreadyThere} ==> page[i].id in runs)
  }

  /**
   * What a pass leaves an open occurrence of an active version as. A scheduled
   * one is missed exactly if its window is over; otherwise, once it is due, it
   * is accepted, waits on, or is suppressed.
   */
  ghost predicate StatesFollow(page: seq<Occurrence>, fates: seq<Fate>, modes: map<VersionKey, RunMode>, now: int,
                               states: map<OccurrenceId, OccurrenceState>)
    requires |fates| == |page|
  {
    forall i :: 0 <= i < |page| ==>
      && page[i].id in states
      && var state, scheduled := states[page[i].id], page[i].state.Scheduled? && page[i].key in modes;
         && (!scheduled ==> state == page[i].state)
         && (scheduled ==>
               && (state.MissedSkipped? <==> page[i].windowEndsAt < now)
               && (state.Accepted? <==> fates[i].Started?)
               && (state.Scheduled? <==>
                     now <= page[i].windowEndsAt && (now < page[i].occurredAt || fates[i].Deferred?))
               && (state.Suppressed? <==>
                     page[i].occurredAt <= now <= page[i].windowEndsAt && !fates[i].Started? && !fates[i].Deferred?))
  }

  lemma FatesGiveStates(page: seq<Occurrence>, fates: seq<Fate>, modes: map<VersionKey, RunMode>, now: int,
                        states: map<OccurrenceId, OccurrenceState>, runs: Runs)
    requires |fates| == |page| && DoneFits(page, fates, modes, now, states, runs)
    ensures StatesFollow(page, fates, modes, now, states)
  {
  }

  ghost predicate KeepsCapacity(page: seq<Occurrence>, fates: seq<Fate>, modes: map<VersionKey, RunMode>, before: Runs,
                                key: VersionKey)
    requires |fates| <= |page| && key in modes
  {
    var (mode, alive, started, deferred) := CapacityOf(page, fates, modes, before, key);
    CapacityKept(mode, alive, started, deferred)
  }

  /** One more occurrence meets its fate; only its own state and run may be new. */
  lemma DoneExtends(page: seq<Occurrence>, fates: seq<Fate>, fate: Fate, modes: map<VersionKey, RunMode>, now: int,
                    states: map<OccurrenceId, OccurrenceState>, runs: Runs, runsAfter: Runs)
    requires |fates| < |page| && DoneFits(page, fates, modes, now, states, runs)
    requires OpenFrom(page, |fates|, states, runs) && Distinct(page)
    requires FateFits(page[|fates|], fate, modes, now)
    requires fate in {Started, Restored, AlreadyThere} ==> page[|fates|].id in runsAfter
    requires runs.Keys <= runsAfter.Keys <= runs.Keys + {page[|fates|].id}
    ensures var occurrence := page[|fates|];
            var after := states[occurrence.id := StateAfter(occurrence, fate)];
            && DoneFits(page, fates + [fate], modes, now, after, runsAfter)
            && OpenFrom(page, |fates| + 1, after, runsAfter)
  {
  }

  ghost predicate PassHolds(page: seq<Occurrence>, fates: seq<Fate>, modes: map<VersionKey, RunMode>, now: int,
                            before: Runs, active: map<VersionKey, nat>, queued: map<VersionKey, nat>,
                            living: seq<OccurrenceId>, states: map<OccurrenceId, OccurrenceState>, runs: Runs)
    requires |fates| <= |page|
  {
    && (forall key :: VersionFits(page, fates, modes, before, runs, active, queued, key))
    && DoneFits(page, fates, modes, now, states, runs)
    && RulesFit(page, fates, modes, now, before)
    && (forall i :: |fates| <= i < |page| ==> (page[i].id in runs <==> page[i].id in before))
    && Distinct(page) && OpenFrom(page, |fates|, states, runs)
    && (forall id :: id in runs && runs[id].alive ==> id in living)
  }

  lemma QuietPass(page: seq<Occurrence>, fates: seq<Fate>, fate: Fate, modes: map<VersionKey, RunMode>, now: int,
                  before: Runs, active: map<VersionKey, nat>, queued: map<VersionKey, nat>, living: seq<OccurrenceId>,
                  states: map<OccurrenceId, OccurrenceState>, runs: Runs)
    requires |fates| < |page| && PassHolds(page, fates, modes, now, before, active, queued, living, states, runs)
    requires fate in {Ignored, Missed, NotDue, Turned, AlreadyThere}
    requires fate == NextFate(page, fates, modes, now, before) && FateFits(page[|fates|], fate, modes, now)
    requires fate.AlreadyThere? ==> page[|fates|].id in runs
    ensures PassHolds(page, fates + [fate], modes, now, before, active, queued, living,
                      states[page[|fates|].id := StateAfter(page[|fates|], fate)], runs)
  {
    RulesExtend(page, fates, modes, now, before);
    DoneExtends(page, fates, fate, modes, now, states, runs, runs);
    forall key
      ensures VersionFits(page, fates + [fate], modes, before, runs, active, queued, key)
    {
      QuietKeeps(page, fates, fate, modes, before, runs, active, queued, key);
    }
  }

  lemma DeferredPass(page: seq<Occurrence>, fates: seq<Fate>, modes: map<VersionKey, RunMode>, now: int, before: Runs,
                     active: map<VersionKey, nat>, queued: map<VersionKey, nat>, living: seq<OccurrenceId>,
                     states: map<OccurrenceId, OccurrenceState>, runs: Runs)
    requires |fates| < |page| && PassHolds(page, fates, modes, now, before, active, queued, living, states, runs)
    requires NextFate(page, fates, modes, now, before).Deferred? && FateFits(page[|fates|], Deferred, modes, now)
    requires var key := page[|fates|].key;
             key in modes && Admit(modes[key], Lookup(active, key), Lookup(queued, key)).Defer?
    ensures var occurrence := page[|fates|];
            PassHolds(page, fates + [Deferred], modes, now, before, active,
                      queued[occurrence.key := Lookup(queued, occurrence.key) + 1], living,
                      states[occurrence.id := occurrence.state], runs)
  {
    var key := page[|fates|].key;
    var after := queued[key := Lookup(queued, key) + 1];
    RulesExtend(page, fates, modes, now, before);
    DoneExtends(page, fates, Deferred, modes, now, states, runs, runs);
    forall other
      ensures VersionFits(page, fates + [Deferred], modes, before, runs, active, after, other)
    {
      if other == key {
        DeferKeeps(page, fates, modes, before, runs, active, queued, key);
      } else {
        ElsewhereKeeps(page, fates, Deferred, modes, before, runs, runs, active, active, queued, after, other);
      }
    }
  }

  lemma RestoredPass(page: seq<Occurrence>, fates: seq<Fate>, modes: map<VersionKey, RunMode>, now: int, before: Runs,
                     active: map<VersionKey, nat>, queued: map<VersionKey, nat>, living: seq<OccurrenceId>,
                     states: map<OccurrenceId, OccurrenceState>, runs: Runs)
    requires |fates| < |page| && PassHolds(page, fates, modes, now, before, active, queued, living, states, runs)
    requires NextFate(page, fates, modes, now, before).Restored? && FateFits(page[|fates|], Restored, modes, now)
    requires page[|fates|].id !in runs
    ensures var occurrence := page[|fates|];
            PassHolds(page, fates + [Restored], modes, now, before, active, queued, living + [occurrence.id],
                      states[occurrence.id := occurrence.state], runs[occurrence.id := RunEntry(occurrence.key, true)])
  {
    var key, id := page[|fates|].key, page[|fates|].id;
    var after := runs[id := RunEntry(key, true)];
    RulesExtend(page, fates, modes, now, before);
    DoneExtends(page, fates, Restored, modes, now, states, runs, after);
    forall other
      ensures VersionFits(page, fates + [Restored], modes, before, after, active, queued, other)
    {
      if other == key {
        RestoreKeeps(page, fates, modes, before, runs, active, queued, key);
      } else {
        OthersAlive(runs, id, key, other);
        ElsewhereKeeps(page, fates, Restored, modes, before, runs, after, active, active, queued, queued, other);
      }
    }
  }

  /** `cleared` are the runs once those that a restart withdraws are no longer alive. */
  lemma StartedPass(page: seq<Occurrence>, fates: seq<Fate>, modes: map<VersionKey, RunMode>, now: int, before: Runs,
                    active: map<VersionKey, nat>, queued: map<VersionKey, nat>, living: seq<OccurrenceId>,
                    states: map<OccurrenceId, OccurrenceState>, runs: Runs, cleared: Runs)
    requires |fates| < |page| && PassHolds(page, fates, modes, now, before, active, queued, living, states, runs)
    requires NextFate(page, fates, modes, now, before).Started? && FateFits(page[|fates|], Started, modes, now)
    requires page[|fates|].key in modes && page[|fates|].id !in runs && page[|fates|].state.Scheduled?
    requires var key := page[|fates|].key;
             Admit(modes[key], Lookup(active, key), Lookup(queued, key)).Accept?
    requires cleared.Keys == runs.Keys
    requires forall id :: id in cleared && cleared[id].alive ==> runs[id].alive
    requires Cleared(modes, page[|fates|].key, runs, cleared)
    ensures var occurrence := page[|fates|];
            PassHolds(page, fates + [Started], modes, now, before, ActiveAfterStart(modes, active, occurrence.key),
                      queued, living + [occurrence.id], states[occurrence.id := Accepted],
                      cleared[occurrence.id := RunEntry(occurrence.key, true)])
  {
    var after := cleared[page[|fates|].id := RunEntry(page[|fates|].key, true)];
    RulesExtend(page, fates, modes, now, before);
    DoneExtends(page, fates, Started, modes, now, states, runs, after);
    StartedVersionsFit(page, fates, modes, before, runs, cleared, active, queued);
  }

  /** In restart mode the version has no living run left and the others have theirs; otherwise nothing was cleared. */
  ghost predicate Cleared(modes: map<VersionKey, RunMode>, key: VersionKey, was: Runs, cleared: Runs)
    requires key in modes
  {
    if modes[key].Restart? then
      Alive(cleared, key) == {} && forall other :: other != key ==> Alive(cleared, other) == Alive(was, other)
    else cleared == was
  }

  class Scheduler {
    var states: map<OccurrenceId, OccurrenceState>
    var runs: Runs

    constructor (states: map<OccurrenceId, OccurrenceState>, runs: Runs)
      ensures this.states == states && this.runs == runs
    {
      this.states, this.runs := states, runs;
    }

    /** Withdraws every living run of the version. */
    method CancelForRestart(recovered: seq<OccurrenceId>, key: VersionKey) returns (cancelled: nat)
      requires forall id :: id in Alive(runs, key) ==> id in recovered
      modifies this`runs
      ensures Alive(runs, key) == {} && cancelled == |Alive(old(runs), key)|
      ensures forall other :: other != key ==> Alive(runs, other) == Alive(old(runs), other)
      ensures runs.Keys == old(runs).Keys
      ensures forall id :: id in runs ==>
                runs[id] == if id in Alive(old(runs), key) then old(runs)[id].(alive := false) else old(runs)[id]
    {
      cancelled := 0;
      var i := 0;
      while i < |recovered|
        invariant i <= |recovered| && runs.Keys == old(runs).Keys
        invariant forall id :: id in Alive(runs, key) ==> id in recovered[i..]
        invariant forall id :: id in runs ==>
                    || runs[id] == old(runs)[id]
                    || (id in Alive(old(runs), key) && runs[id] == old(runs)[id].(alive := false))
        invariant cancelled + |Alive(runs, key)| == |Alive(old(runs), key)|
      {
        var id := recovered[i];
        if id in runs && runs[id].key == key && runs[id].alive {
          ghost var was := Alive(runs, key);
          runs := runs[id := runs[id].(alive := false)];
          assert Alive(runs, key) == was - {id};
          cancelled := cancelled + 1;
        }
        i := i + 1;
      }
      assert Alive(runs, key) == {};
      forall id | id in runs
        ensures runs[id] == if id in Alive(old(runs), key) then old(runs)[id].(alive := false) else old(runs)[id]
      {
        assert id !in Alive(runs, key);
      }
    }

    /** The run of an occurrence, created unless it is there already. */
    method CreateRun(occurrence: Occurrence) returns (created: bool)
      modifies this`runs
      ensures created <==> occurrence.id !in old(runs)
      ensures runs == if created then old(runs)[occurrence.id := RunEntry(occurrence.key, true)] else old(runs)
    {
      created := occurrence.id !in runs;
      if created {
        runs := runs[occurrence.id := RunEntry(occurrence.key, true)];
      }
    }

    /** Living runs per version, among the recovered ones. */
    method CountActive(recovered: seq<OccurrenceId>) returns (counts: map<VersionKey, nat>)
      requires forall i, j :: 0 <= i < j < |recovered| ==> recovered[i] != recovered[j]
      requires forall id :: id in runs && runs[id].alive ==> id in recovered
      ensures forall key :: Lookup(counts, key) == |Alive(runs, key)|
    {
      counts := map[];
      var i := 0;
      while i < |recovered|
        invariant i <= |recovered|
        invariant forall key :: Lookup(counts, key) == |Among(runs, recovered[..i], key)|
      {
        var id := recovered[i];
        assert recovered[..i + 1] == recovered[..i] + [id];
        forall key
          ensures |Among(runs, recovered[..i + 1], key)|
                  == |Among(runs, recovered[..i], key)| + if Counts(runs, id, key) then 1 else 0
        {
          AmongExtends(runs, recovered[..i], id, key);
        }
        ghost var was := counts;
        if id in runs && runs[id].alive {
          counts := counts[runs[id].key := Lookup(counts, runs[id].key) + 1];
        }
        assert forall key :: Lookup(counts, key) == Lookup(was, key) + if Counts(runs, id, key) then 1 else 0;
        i := i + 1;
      }
      forall key
        ensures Lookup(counts, key) == |Alive(runs, key)|
      {
        assert recovered[..i] == recovered && Among(runs, recovered, key) == Alive(runs, key);
      }
    }

    /** What holds once the occurrences of `fates` have been processed. */
    ghost predicate PassFits(page: seq<Occurrence>, fates: seq<Fate>, modes: map<VersionKey, RunMode>, now: int,
                             before: Runs, active: map<VersionKey, nat>, queued: map<VersionKey, nat>,
                             living: seq<OccurrenceId>)
      requires |fates| <= |page|
      reads this
    {
      PassHolds(page, fates, modes, now, before, active, queued, living, states, runs)
    }

    /**
     * Passes over the recovered occurrences in order. `page` and `recovered`
     * are what the repository returned: the open occurrences and the living runs.
     */
    method ProcessRecovery(page: seq<Occurrence>, recovered: seq<OccurrenceId>, modes: map<VersionKey, RunMode>,
                           now: int)
      returns (ghost fates: seq<Fate>)
      requires Distinct(page) && OpenFrom(page, 0, states, runs)
      requires forall i, j :: 0 <= i < j < |recovered| ==> recovered[i] != recovered[j]
      requires forall id :: id in runs && runs[id].alive ==> id in recovered
      modifies this
      ensures |fates| == |page| && RulesFit(page, fates, modes, now, old(runs))
      ensures DoneFits(page, fates, modes, now, states, runs)
      ensures StatesFollow(page, fates, modes, now, states)
      ensures forall key :: AliveFit(page, fates, modes, old(runs), runs, key)
      ensures forall key :: key in modes ==> KeepsCapacity(page, fates, modes, old(runs), key)
      ensures forall key :: key in modes ==> AdmittedExactly(page, fates, modes, now, old(runs), key)
    {
      var active := CountActive(recovered);
      var queued: map<VersionKey, nat> := map[];
      var living := recovered;
      fates := [];
      var i := 0;
      while i < |page|
        invariant i <= |page| && |fates| == i
        invariant PassFits(page, fates, modes, now, old(runs), active, queued, living)
      {
        ghost var fate;
        active, queued, living, fate := ProcessOne(page[i], modes, now, active, queued, living, page, fates, old(runs));
        fates := fates + [fate];
        i := i + 1;
      }
      FatesGiveStates(page, fates, modes, now, states, runs);
      forall key
        ensures AliveFit(page, fates, modes, old(runs), runs, key)
        ensures key in modes ==> KeepsCapacity(page, fates, modes, old(runs), key)
      {
        assert VersionFits(page, fates, modes, old(runs), runs, active, queued, key);
      }
      forall key | key in modes
        ensures AdmittedExactly(page, fates, modes, now, old(runs), key)
      {
        AdmissionIsExact(page, fates, modes, now, old(runs), key);
      }
    }

    method ProcessOne(occurrence: Occurrence, modes: map<VersionKey, RunMode>, now: int, active: map<VersionKey, nat>,
                      queued: map<VersionKey, nat>, living: seq<OccurrenceId>, ghost page: seq<Occurrence>,
                      ghost fates: seq<Fate>, ghost before: Runs)
      returns (activeAfter: map<VersionKey, nat>, queuedAfter: map<VersionKey, nat>, livingAfter: seq<OccurrenceId>,
               ghost fate: Fate)
      requires |fates| < |page| && occurrence == page[|fates|]
      requires PassFits(page, fates, modes, now, before, active, queued, living)
      modifies this
      ensures PassFits(page, fates + [fate], modes, now, before, activeAfter, queuedAfter, livingAfter)
    {
      assert VersionFits(page, fates, modes, before, runs, active, queued, occurrence.key);
      activeAfter, queuedAfter, livingAfter := active, queued, living;
      var key := occurrence.key;
      if key !in modes {
        fate := Ignored;
        Quiet(occurrence.state, fate, modes, now, occurrence.id, active, queued, living, page, fates, before);
      } else if occurrence.state.Accepted? {
        fate := if occurrence.id in runs then AlreadyThere else Restored;
        if occurrence.id in runs {
          Quiet(occurrence.state, fate, modes, now, occurrence.id, active, queued, living, page, fates, before);
        } else {
          livingAfter := Restore(occurrence, modes, now, active, queued, living, page, fates, before);
        }
      } else if now > occurrence.windowEndsAt {
        fate := Missed;
        Quiet(MissedSkipped, fate, modes, now, occurrence.id, active, queued, living, page, fates, before);
      } else if occurrence.occurredAt > now {
        fate := NotDue;
        Quiet(occurrence.state, fate, modes, now, occurrence.id, active, queued, living, page, fates, before);
      } else {
        match Admit(modes[key], Lookup(active, key), Lookup(queued, key)) {
          case Defer =>
            fate := Deferred;
            queuedAfter := DeferOne(occurrence, modes, now, active, queued, living, page, fates, before);
          case Suppress =>
            fate := Turned;
            Quiet(Suppressed, fate, modes, now, occurrence.id, active, queued, living, page, fates, before);
          case Accept =>
            fate := Started;
            activeAfter, livingAfter := Start(occurrence, modes, now, active, queued, living, page, fates, before);
        }
      }
    }

    /** A fate that at most moves the occurrence itself. */
    method Quiet(state: OccurrenceState, ghost fate: Fate, ghost modes: map<VersionKey, RunMode>, ghost now: int,
                 id: OccurrenceId, ghost active: map<VersionKey, nat>, ghost queued: map<VersionKey, nat>,
                 ghost living: seq<OccurrenceId>, ghost page: seq<Occurrence>, ghost fates: seq<Fate>,
                 ghost before: Runs)
      requires |fates| < |page| && id == page[|fates|].id
      requires PassFits(page, fates, modes, now, before, active, queued, living)
      requires fate in {Ignored, Missed, NotDue, Turned, AlreadyThere}
      requires fate == NextFate(page, fates, modes, now, before)
      requires FateFits(page[|fates|], fate, modes, now) && state == StateAfter(page[|fates|], fate)
      requires fate.AlreadyThere? ==> id in runs
      modifies this`states
      ensures PassFits(page, fates + [fate], modes, now, before, active, queued, living)
    {
      QuietPass(page, fates, fate, modes, now, before, active, queued, living, states, runs);
      states := states[id := state];
    }

    /** A due occurrence that waits for the version to become free. */
    method DeferOne(occurrence: Occurrence, ghost modes: map<VersionKey, RunMode>, ghost now: int,
                    ghost active: map<VersionKey, nat>, queued: map<VersionKey, nat>, ghost living: seq<OccurrenceId>,
                    ghost page: seq<Occurrence>, ghost fates: seq<Fate>, ghost before: Runs)
      returns (queuedAfter: map<VersionKey, nat>)
      requires |fates| < |page| && occurrence == page[|fates|]
      requires PassFits(page, fates, modes, now, before, active, queued, living)
      requires NextFate(page, fates, modes, now, before).Deferred?
      requires FateFits(occurrence, Deferred, modes, now) && occurrence.key in modes
      requires Admit(modes[occurrence.key], Lookup(active, occurrence.key), Lookup(queued, occurrence.key)).Defer?
      modifies this`states
      ensures PassFits(page, fates + [Deferred], modes, now, before, active, queuedAfter, living)
    {
      var key := occurrence.key;
      queuedAfter := queued[key := Lookup(queued, key) + 1];
      DeferredPass(page, fates, modes, now, before, active, queued, living, states, runs);
      states := states[occurrence.id := occurrence.state];
    }

    /** An accepted occurrence whose run was never written: the run is created without being counted. */
    method Restore(occurrence: Occurrence, ghost modes: map<VersionKey, RunMode>, ghost now: int,
                   ghost active: map<VersionKey, nat>, ghost queued: map<VersionKey, nat>, living: seq<OccurrenceId>,
                   ghost page: seq<Occurrence>, ghost fates: seq<Fate>, ghost before: Runs)
      returns (livingAfter: seq<OccurrenceId>)
      requires |fates| < |page| && occurrence == page[|fates|]
      requires PassFits(page, fates, modes, now, before, active, queued, living)
      requires NextFate(page, fates, modes, now, before).Restored?
      requires FateFits(occurrence, Restored, modes, now) && occurrence.id !in runs
      modifies this
      ensures PassFits(page, fates + [Restored], modes, now, before, active, queued, livingAfter)
    {
      RestoredPass(page, fates, modes, now, before, active, queued, living, states, runs);
      var created := CreateRun(occurrence);
      livingAfter := living + [occurrence.id];
      states := states[occurrence.id := occurrence.state];
    }

    /** An admitted occurrence: in restart mode the living runs of its version are withdrawn first. */
    method Start(occurrence: Occurrence, modes: map<VersionKey, RunMode>, ghost now: int, active: map<VersionKey, nat>,
                 ghost queued: map<VersionKey, nat>, living: seq<OccurrenceId>, ghost page: seq<Occurrence>,
                 ghost fates: seq<Fate>, ghost before: Runs)
      returns (activeAfter: map<VersionKey, nat>, livingAfter: seq<OccurrenceId>)
      requires |fates| < |page| && occurrence == page[|fates|]
      requires PassFits(page, fates, modes, now, before, active, queued, living)
      requires NextFate(page, fates, modes, now, before).Started?
      requires FateFits(occurrence, Started, modes, now) && occurrence.key in modes && occurrence.id !in runs
      requires Admit(modes[occurrence.key], Lookup(active, occurrence.key), Lookup(queued, occurrence.key)).Accept?
      requires occurrence.state.Scheduled?
      modifies this
      ensures PassFits(page, fates + [Started], modes, now, before, activeAfter, queued, livingAfter)
    {
      var key := occurrence.key;
      activeAfter := active;
      ghost var was := runs;
      if modes[key].Restart? {
        var cancelled := CancelForRestart(living, key);
        activeAfter := activeAfter[key := 0];
      }
      ghost var cleared := runs;
      activeAfter := activeAfter[key := Lookup(activeAfter, key) + 1];
      states := states[occurrence.id := Accepted];
      var created := CreateRun(occurrence);
      livingAfter := living + [occurrence.id];
      StartedPass(page, fates, modes, now, before, active, queued, living, old(states), was, cleared);
      assert activeAfter == ActiveAfterStart(modes, active, key);
    }
  }

  function ActiveAfterStart(modes: map<VersionKey, RunMode>, active: map<VersionKey, nat>, key: VersionKey)
    : map<VersionKey, nat>
    requires key in modes
  {
    active[key := if modes[key].Restart? then 1 else Lookup(active, key) + 1]
  }

  /** After the runs of a restarting version were withdrawn, its new run is added. */
  lemma StartedVersionsFit(page: seq<Occurrence>, fates: seq<Fate>, modes: map<VersionKey, RunMode>, before: Runs,
                           was: Runs, cleared: Runs, active: map<VersionKey, nat>, queued: map<VersionKey, nat>)
    requires |fates| < |page| && page[|fates|].key in modes && page[|fates|].id !in cleared
    requires forall key :: VersionFits(page, fates, modes, before, was, active, queued, key)
    requires var key := page[|fates|].key;
             Admit(modes[key], Lookup(active, key), Lookup(queued, key)).Accept?
    requires Cleared(modes, page[|fates|].key, was, cleared)
    ensures var key := page[|fates|].key;
            var runs := cleared[page[|fates|].id := RunEntry(key, true)];
            forall other :: VersionFits(page, fates + [Started], modes, before, runs,
                                        ActiveAfterStart(modes, active, key), queued, other)
  {
    var key, id := page[|fates|].key, page[|fates|].id;
    var runs, after := cleared[id := RunEntry(key, true)], ActiveAfterStart(modes, active, key);
    assert VersionFits(page, fates, modes, before, was, active, queued, key);
    if modes[key].Restart? {
      RestartKeeps(page, fates, modes, before, was, cleared, active, queued, key);
    } else {
      StartKeeps(page, fates, modes, before, was, active, queued, key);
    }
    forall other | other != key
      ensures VersionFits(page, fates + [Started], modes, before, runs, after, queued, other)
    {
      assert VersionFits(page, fates, modes, before, was, active, queued, other);
      OthersAlive(cleared, id, key, other);
      ElsewhereKeeps(page, fates, Started, modes, before, was, runs, active, after, queued, queued, other);
    }
  }

  predicate Counts(runs: Runs, id: OccurrenceId, key: VersionKey) {
    id in runs && runs[id].key == key && runs[id].alive
  }

  lemma AmongExtends(runs: Runs, ids: seq<OccurrenceId>, id: OccurrenceId, key: VersionKey)
    requires id !in ids
    ensures |Among(runs, ids + [id], key)| == |Among(runs, ids, key)| + if Counts(runs, id, key) then 1 else 0
  {
    assert Among(runs, ids + [id], key) == Among(runs, ids, key) + if Counts(runs, id, key) then {id} else {};
  }

  function Among(runs: Runs, ids: seq<OccurrenceId>, key: VersionKey): set<OccurrenceId> {
    set id | id in ids && id in runs && runs[id].key == key && runs[id].alive
  }

  // ----- what a pass does, from its inputs ----------------------------------------------------------

  /** Upper bound that a run mode puts on the living runs of a version. */
  function Limit(mode: RunMode): nat {
    match mode
    case Concurrent(maximumParallel) => maximumParallel
    case _ => 1
  }

  predicate IsDue(occurrence: Occurrence, now: int) {
    occurrence.state.Scheduled? && occurrence.occurredAt <= now <= occurrence.windowEndsAt
  }

  /** Accepted in an earlier pass that did not get to write the run. */
  predicate IsLost(occurrence: Occurrence, before: Runs) {
    occurrence.state.Accepted? && occurrence.id !in before
  }

  function Due(page: seq<Occurrence>, now: int, key: VersionKey): nat {
    if page == [] then 0
    else
      var last := |page| - 1;
      Due(page[..last], now, key) + if page[last].key == key && IsDue(page[last], now) then 1 else 0
  }

  function Lost(page: seq<Occurrence>, before: Runs, key: VersionKey): nat {
    if page == [] then 0
    else
      var last := |page| - 1;
      Lost(page[..last], before, key) + if page[last].key == key && IsLost(page[last], before) then 1 else 0
  }

  function LastDue(page: seq<Occurrence>, now: int, key: VersionKey): Option<OccurrenceId> {
    if page == [] then None
    else
      var last := |page| - 1;
      if page[last].key == key && IsDue(page[last], now) then Some(page[last].id) else LastDue(page[..last], now, key)
  }

  /** Lost occurrences behind the last due one. */
  function LostSince(page: seq<Occurrence>, now: int, before: Runs, key: VersionKey): set<OccurrenceId> {
    if page == [] then {}
    else
      var last := |page| - 1;
      if page[last].key == key && IsDue(page[last], now) then {}
      else
        LostSince(page[..last], now, before, key)
        + if page[last].key == key && IsLost(page[last], before) then {page[last].id} else {}
  }

  function Least(a: nat, b: nat): nat {
    if a <= b then a else b
  }

  /** How many of the due occurrences a version with `alive` runs may start. */
  function Starts(mode: RunMode, alive: nat, due: nat): nat {
    match mode
    case Single => if alive == 0 then Least(due, 1) else 0
    case Queued(_) => if alive == 0 then Least(due, 1) else 0
    case Concurrent(maximum) => if alive < maximum then Least(due, maximum - alive) else 0
    case Restart => due
  }

  /** How many of them wait. */
  function Waits(mode: RunMode, alive: nat, due: nat): nat {
    match mode
    case Queued(capacity) =>
      if due > Starts(mode, alive, due) then Least(due - Starts(mode, alive, due), capacity) else 0
    case _ => 0
  }

  predicate Open(page: seq<Occurrence>) {
    forall i :: 0 <= i < |page| ==> page[i].state in {Scheduled, Accepted}
  }

  lemma RulesOfPrefix(page: seq<Occurrence>, fates: seq<Fate>, modes: map<VersionKey, RunMode>, now: int, before: Runs)
    requires 0 < |fates| <= |page| && RulesFit(page, fates, modes, now, before)
    ensures RulesFit(page, fates[..|fates| - 1], modes, now, before)
    ensures fates[|fates| - 1] == NextFate(page, fates[..|fates| - 1], modes, now, before)
  {
    assert forall i :: 0 <= i < |fates| - 1 ==> fates[..|fates| - 1][..i] == fates[..i];
  }

  /** What admission makes of one more due occurrence. */
  lemma OneMoreDue(mode: RunMode, alive: nat, due: nat)
    ensures var started, waiting := Starts(mode, alive, due), Waits(mode, alive, due);
            var active := if mode.Restart? && started > 0 then 1 else alive + started;
            match Admit(mode, active, waiting)
            case Accept => Starts(mode, alive, due + 1) == started + 1 && Waits(mode, alive, due + 1) == waiting
            case Defer => Starts(mode, alive, due + 1) == started && Waits(mode, alive, due + 1) == waiting + 1
            case Suppress => Starts(mode, alive, due + 1) == started && Waits(mode, alive, due + 1) == waiting
  {
  }

  /** What a pass has done with a version is determined by the occurrences it has seen. */
  ghost predicate AdmittedExactly(page: seq<Occurrence>, fates: seq<Fate>, modes: map<VersionKey, RunMode>, now: int,
                                  before: Runs, key: VersionKey)
    requires |fates| <= |page| && key in modes
  {
    var seen, mode, alive := page[..|fates|], modes[key], |Alive(before, key)|;
    && Tally(page, fates, key, Started) == Starts(mode, alive, Due(seen, now, key))
    && Tally(page, fates, key, Deferred) == Waits(mode, alive, Due(seen, now, key))
    && Tally(page, fates, key, Restored) == Lost(seen, before, key)
  }

  lemma SeenExtends(page: seq<Occurrence>, seen: nat, now: int, before: Runs, key: VersionKey)
    requires seen < |page|
    ensures Due(page[..seen + 1], now, key)
            == Due(page[..seen], now, key) + if page[seen].key == key && IsDue(page[seen], now) then 1 else 0
    ensures Lost(page[..seen + 1], before, key)
            == Lost(page[..seen], before, key) + if page[seen].key == key && IsLost(page[seen], before) then 1 else 0
  {
    assert page[..seen + 1][..seen] == page[..seen];
  }

  lemma AdmissionStaysExact(page: seq<Occurrence>, fates: seq<Fate>, modes: map<VersionKey, RunMode>, now: int,
                            before: Runs, key: VersionKey)
    requires |fates| < |page| && key in modes && page[|fates|].state in {Scheduled, Accepted}
    requires AdmittedExactly(page, fates, modes, now, before, key)
    ensures AdmittedExactly(page, fates + [NextFate(page, fates, modes, now, before)], modes, now, before, key)
  {
    TallyExtends(page, fates, NextFate(page, fates, modes, now, before), key);
    SeenExtends(page, |fates|, now, before, key);
    OneMoreDue(modes[key], |Alive(before, key)|, Due(page[..|fates|], now, key));
  }

  /**
   * What a pass does with a version follows from its inputs: how many due
   * occurrences are started and how many wait, and that exactly the lost ones
   * are restored.
   */
  lemma {:induction false} AdmissionIsExact(page: seq<Occurrence>, fates: seq<Fate>, modes: map<VersionKey, RunMode>,
                                            now: int, before: Runs, key: VersionKey)
    requires |fates| <= |page| && key in modes && Open(page) && RulesFit(page, fates, modes, now, before)
    ensures AdmittedExactly(page, fates, modes, now, before, key)
    decreases |fates|
  {
    if fates != [] {
      var last := |fates| - 1;
      RulesOfPrefix(page, fates, modes, now, before);
      AdmissionIsExact(page, fates[..last], modes, now, before, key);
      AdmissionStaysExact(page, fates[..last], modes, now, before, key);
      assert fates == fates[..last] + [fates[last]];
    }
  }

  /** In restart mode every due occurrence is started. */
  lemma {:induction false} RestartTracksDue(page: seq<Occurrence>, fates: seq<Fate>, modes: map<VersionKey, RunMode>,
                                            now: int, before: Runs, key: VersionKey)
    requires |fates| <= |page| && key in modes && modes[key].Restart? && Open(page)
    requires RulesFit(page, fates, modes, now, before)
    ensures LastStarted(page, fates, key) == LastDue(page[..|fates|], now, key)
    ensures RestoredSince(page, fates, key) == LostSince(page[..|fates|], now, before, key)
    decreases |fates|
  {
    if fates != [] {
      var last := |fates| - 1;
      RulesOfPrefix(page, fates, modes, now, before);
      RestartTracksDue(page, fates[..last], modes, now, before, key);
      RestartFate(page, fates[..last], modes, now, before, key);
      assert page[..|fates|][..last] == page[..last];
    }
  }

  lemma RestartFate(page: seq<Occurrence>, fates: seq<Fate>, modes: map<VersionKey, RunMode>, now: int, before: Runs,
                    key: VersionKey)
    requires |fates| < |page| && key in modes && modes[key].Restart? && page[|fates|].state in {Scheduled, Accepted}
    ensures var fate := NextFate(page, fates, modes, now, before);
            page[|fates|].key == key ==>
              && (fate.Started? <==> IsDue(page[|fates|], now))
              && (fate.Restored? <==> IsLost(page[|fates|], before))
  {
  }

  lemma {:induction false} LastDueIsNotLost(page: seq<Occurrence>, now: int, before: Runs, key: VersionKey)
    requires Distinct(page)
    ensures LastDue(page, now, key).Some? ==> LastDue(page, now, key).value !in LostSince(page, now, before, key)
    ensures LastDue(page, now, key).Some? ==> exists i :: 0 <= i < |page| && page[i].id == LastDue(page, now, key).value
    ensures LastDue(page, now, key).Some? <==> Due(page, now, key) > 0
    decreases |page|
  {
    if page != [] {
      var last := |page| - 1;
      LastDueIsNotLost(page[..last], now, before, key);
      if LastDue(page, now, key).Some? && !(page[last].key == key && IsDue(page[last], now)) {
        var i :| 0 <= i < last && page[..last][i].id == LastDue(page[..last], now, key).value;
        assert page[i].id != page[last].id;
      } else if LastDue(page, now, key).Some? {
        assert page[last].id == LastDue(page, now, key).value;
      }
    }
  }

  /**
   * When a version ends a pass within its limit. Outside restart mode: exactly
   * if its living runs, those it may start and those it had lost fit the limit
   * together. In restart mode with something due: exactly if nothing lost
   * follows the last due occurrence, whose run is then the only one.
   */
  lemma PassKeepsLimitsIff(page: seq<Occurrence>, fates: seq<Fate>, modes: map<VersionKey, RunMode>, now: int,
                           before: Runs, runs: Runs, key: VersionKey)
    requires |fates| == |page| && key in modes && Open(page) && Distinct(page)
    requires RulesFit(page, fates, modes, now, before) && AliveFit(page, fates, modes, before, runs, key)
    ensures var mode, alive := modes[key], |Alive(before, key)|;
            var due, lost := Due(page, now, key), Lost(page, before, key);
            if mode.Restart? && due > 0 then
              var last, since := LastDue(page, now, key), LostSince(page, now, before, key);
              && last.Some? && Alive(runs, key) == {last.value} + since
              && (Alive(runs, key) == {last.value} <==> since == {})
              && (|Alive(runs, key)| <= Limit(mode) <==> since == {})
            else
              && |Alive(runs, key)| == alive + Starts(mode, alive, due) + lost
              && (|Alive(runs, key)| <= Limit(mode) <==> alive + Starts(mode, alive, due) + lost <= Limit(mode))
  {
    assert page[..|fates|] == page;
    AdmissionIsExact(page, fates, modes, now, before, key);
    LastDueIsNotLost(page, now, before, key);
    if modes[key].Restart? && Due(page, now, key) > 0 {
      RestartTracksDue(page, fates, modes, now, before, key);
      var last, since := LastDue(page, now, key).value, LostSince(page, now, before, key);
      assert |{last} + since| == 1 + |since|;
    }
  }

  /**
   * A restored run is not counted: with one accepted occurrence that has lost
   * its run and one that is due, a single-run version ends with two living runs.
   */
  lemma RestoredRunEscapesCapacity(fates: seq<Fate>, runs: Runs)
    requires var page := [Occurrence(0, 7, Accepted, 0, 10), Occurrence(1, 7, Scheduled, 0, 10)];
             && |fates| == 2 && RulesFit(page, fates, map[7 := Single], 5, map[])
             && AliveFit(page, fates, map[7 := Single], map[], runs, 7)
    ensures fates == [Restored, Started] && |Alive(runs, 7)| == 2 > Limit(Single)
  {
    var page := [Occurrence(0, 7, Accepted, 0, 10), Occurrence(1, 7, Scheduled, 0, 10)];
    assert fates[..0] == [] && fates[0] == NextFate(page, fates[..0], map[7 := Single], 5, map[]);
    assert fates[..1] == [Restored];
    assert Alive(map[], 7) == {};
    assert Tally(page, [Restored], 7, Started) == 0 by {
      assert [Restored][..0] == [];
    }
    assert fates[1] == NextFate(page, fates[..1], map[7 := Single], 5, map[]);
    assert fates == [Restored, Started];
    TallyExtends(page, [Restored], Started, 7);
    TallyExtends(page, [], Restored, 7);
    assert [Restored] + [Started] == fates && [] + [Restored] == [Restored];
  }
}
