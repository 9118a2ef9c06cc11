/**
 * The simulator's virtual clock: scheduled state changes take effect as time
 * is advanced, and waits and stability intervals only look at the moments at
 * which something changes. Changes up to the clock that have not been applied
 * yet, as at the start of a simulation, are applied first and count as well.
 */
module VirtualTime {
  import opened Wrappers
  import opened Domain

  type Snapshot = map<Field, Value>

  datatype Change = Change(at: int, field: Field, value: Value)

  predicate Sorted(changes: seq<Change>) {
    forall i, j :: 0 <= i < j < |changes| ==> changes[i].at <= changes[j].at
  }

  /** How many of the changes have taken effect at an instant. */
  function Through(changes: seq<Change>, at: int): (count: nat)
    ensures count <= |changes|
    ensures forall k :: 0 <= k < count ==> changes[k].at <= at
    ensures count < |changes| ==> changes[count].at > at
  {
    if changes == [] || changes[0].at > at then 0 else 1 + Through(changes[1..], at)
  }

  function Replay(state: Snapshot, changes: seq<Change>): Snapshot {
    if changes == [] then state
    else
      var last := changes[|changes| - 1];
      Replay(state, changes[..|changes| - 1])[last.field := last.value]
  }

  /** The snapshot at an instant: every change through it has taken effect. */
  function SnapshotAt(state: Snapshot, changes: seq<Change>, at: int): Snapshot {
    Replay(state, changes[..Through(changes, at)])
  }

  lemma ThroughIsUnique(changes: seq<Change>, at: int, count: nat)
    requires Sorted(changes) && count <= |changes|
    requires forall k :: 0 <= k < count ==> changes[k].at <= at
    requires count < |changes| ==> changes[count].at > at
    ensures Through(changes, at) == count
  {
  }

  lemma {:induction false} ReplayAppends(state: Snapshot, first: seq<Change>, second: seq<Change>)
    ensures Replay(state, first + second) == Replay(Replay(state, first), second)
    decreases |second|
  {
    if second == [] {
      assert first + second == first;
    } else {
      var last := |second| - 1;
      assert (first + second)[..|first| + last] == first + second[..last];
      ReplayAppends(state, first, second[..last]);
    }
  }

  lemma {:induction false} ThroughGrows(changes: seq<Change>, early: int, late: int)
    requires early <= late
    ensures Through(changes, early) <= Through(changes, late)
  {
    if changes != [] && changes[0].at <= early {
      ThroughGrows(changes[1..], early, late);
    }
  }

  lemma ThroughStops(changes: seq<Change>, at: int, count: nat)
    requires count <= |changes| && (count < |changes| ==> changes[count].at > at)
    ensures Through(changes, at) <= count
  {
  }

  /** An instant before the first change, and before the deadline. */
  ghost function InstantBefore(changes: seq<Change>, deadline: int): (at: int)
    ensures at <= deadline && Through(changes, at) == 0
  {
    if changes != [] && changes[0].at <= deadline then changes[0].at - 1 else deadline
  }

  class VirtualPorts {
    var now: int
    var state: Snapshot
    var changes: seq<Change>

    constructor (now: int, state: Snapshot, changes: seq<Change>)
      ensures this.now == now && this.state == state && this.changes == changes
    {
      this.now, this.state, this.changes := now, state, changes;
    }

    /** Applies everything through the instant; the clock never goes back. */
    method AdvanceTo(at: int)
      requires Sorted(changes)
      modifies this
      ensures Sorted(changes)
      ensures state == SnapshotAt(old(state), old(changes), at)
      ensures changes == old(changes)[Through(old(changes), at)..]
      ensures now == if at > old(now) then at else old(now)
      ensures at >= old(now) ==> NothingPending(changes, now)
    {
      ghost var taken := 0;
      while changes != [] && changes[0].at <= at
        invariant taken <= |old(changes)| && changes == old(changes)[taken..] && now == old(now)
        invariant forall k :: 0 <= k < taken ==> old(changes)[k].at <= at
        invariant state == Replay(old(state), old(changes)[..taken])
        decreases |changes|
      {
        assert old(changes)[..taken + 1][..taken] == old(changes)[..taken];
        state := state[changes[0].field := changes[0].value];
        changes := changes[1..];
        taken := taken + 1;
      }
      ThroughIsUnique(old(changes), at, taken);
      now := if at > now then at else now;
    }

    /** The next moment at which something changes, if it is not after the deadline. */
    function NextChangeThrough(deadline: int): Option<int>
      reads this
    {
      if changes != [] && changes[0].at <= deadline then Some(changes[0].at) else None
    }

    /** Where the ports stand after `taken` of the original changes. */
    ghost predicate Stands(state0: Snapshot, changes0: seq<Change>, taken: nat)
      reads this
    {
      && Sorted(changes0) && taken <= |changes0|
      && changes == changes0[taken..] && state == Replay(state0, changes0[..taken])
    }

    /** Moves to the next change, and says how many changes have then taken effect. */
    method AdvanceToNext(at: int, ghost state0: Snapshot, ghost changes0: seq<Change>, ghost taken: nat)
      returns (ghost after: nat)
      requires Stands(state0, changes0, taken) && changes != [] && at == changes[0].at
      modifies this
      ensures Stands(state0, changes0, after) && taken < after == Through(changes0, at)
      ensures taken < |changes0| && changes0[taken].at == at
      ensures now == if at > old(now) then at else old(now)
    {
      after := Through(changes0, at);
      NextChanges(state0, changes0, taken, at);
      SortedRest(changes0, taken);
      AdvanceTo(at);
    }

    /** Moves to the next change and looks at the condition there. */
    method CheckNext(holds: Snapshot -> bool, deadline: int, ghost state0: Snapshot, ghost changes0: seq<Change>,
                     ghost taken: nat) returns (holding: bool, ghost after: nat)
      requires Stands(state0, changes0, taken) && now <= deadline && NextChangeThrough(deadline).Some?
      requires SeenThrough(holds, state0, changes0, taken)
      modifies this
      ensures Stands(state0, changes0, after) && taken < after <= Through(changes0, deadline) && now <= deadline
      ensures taken < |changes0| && after == Through(changes0, changes0[taken].at)
      ensures |changes| < |old(changes)|
      ensures holding <==> holds(state)
      ensures holding ==> SeenThrough(holds, state0, changes0, after)
      ensures !holding ==> !HoldsThrough(holds, state0, changes0, deadline)
    {
      var at := NextChangeThrough(deadline).value;
      after := AdvanceToNext(at, state0, changes0, taken);
      ThroughGrows(changes0, at, deadline);
      assert SnapshotAt(state0, changes0, at) == state;
      holding := holds(state);
      if holding {
        SeenNext(holds, state0, changes0, taken);
      }
    }

    /** Advances to an instant before which nothing is left to change. */
    method AdvanceToQuiet(at: int)
      requires Sorted(changes) && NextChangeThrough(at).None?
      modifies this
      ensures state == old(state) && changes == old(changes) && now == if at > old(now) then at else old(now)
    {
      ThroughStops(changes, at, 0);
      AdvanceTo(at);
    }

    /** True exactly when the condition holds at every instant through the end of the interval. */
    method StateDuration(holds: Snapshot -> bool, durationMs: nat) returns (stable: bool)
      requires Sorted(changes)
      modifies this
      ensures stable <==> HoldsThrough(holds, old(state), old(changes), old(now) + durationMs)
      ensures stable ==> now == old(now) + durationMs
    {
      var deadline := now + durationMs;
      ghost var state0, changes0 := state, changes;
      assert SnapshotAt(state0, changes0, InstantBefore(changes, deadline)) == state;
      if !holds(state) {
        return false;
      }
      ghost var taken := 0;
      while NextChangeThrough(deadline).Some?
        invariant Stands(state0, changes0, taken) && now <= deadline && taken <= Through(changes0, deadline)
        invariant holds(state) && SeenThrough(holds, state0, changes0, taken)
        decreases |changes|
      {
        var holding;
        holding, taken := CheckNext(holds, deadline, state0, changes0, taken);
        if !holding {
          return false;
        }
      }
      ThroughStops(changes0, deadline, taken);
      EverythingSeen(holds, state0, changes0, deadline);
      SortedRest(changes0, taken);
      AdvanceToQuiet(deadline);
      return holds(state);
    }

    /** Moves from change to change until the condition holds or nothing more changes through the deadline. */
    method WatchChanges(holds: Snapshot -> bool, deadline: int, ghost state0: Snapshot, ghost changes0: seq<Change>)
      returns (satisfied: bool, ghost taken: nat)
      requires Stands(state0, changes0, 0) && now <= deadline && !holds(state)
      requires SeenThrough(snapshot => !holds(snapshot), state0, changes0, 0)
      modifies this
      ensures Stands(state0, changes0, taken) && now <= deadline
      ensures satisfied ==>
                holds(state) && HoldsSometime(holds, state0, changes0, deadline)
                && FirstMoment(holds, state0, changes0, state)
      ensures !satisfied ==>
                && NextChangeThrough(deadline).None? && taken <= Through(changes0, deadline)
                && SeenThrough(snapshot => !holds(snapshot), state0, changes0, taken)
    {
      var fails := (snapshot: Snapshot) => !holds(snapshot);
      satisfied, taken := false, 0;
      while NextChangeThrough(deadline).Some?
        invariant Stands(state0, changes0, taken) && now <= deadline && taken <= Through(changes0, deadline)
        invariant SeenThrough(fails, state0, changes0, taken)
        decreases |changes|
      {
        ghost var before := taken;
        var failing;
        failing, taken := CheckNext(fails, deadline, state0, changes0, taken);
        if !failing {
          FirstAfter(holds, state0, changes0, before, taken);
          return true, taken;
        }
      }
    }

    /**
     * Waits for a condition: satisfied exactly when it holds at some instant
     * through the deadline, and then the clock stands at the first moment at
     * which it does; otherwise at the deadline.
     */
    method WaitUntil(holds: Snapshot -> bool, timeoutMs: nat) returns (satisfied: bool)
      requires Sorted(changes)
      modifies this
      ensures satisfied <==> HoldsSometime(holds, old(state), old(changes), old(now) + timeoutMs)
      ensures satisfied ==> holds(state) && now <= old(now) + timeoutMs
      ensures satisfied ==> FirstMoment(holds, old(state), old(changes), state)
      ensures !satisfied ==>
                now == old(now) + timeoutMs && state == SnapshotAt(old(state), old(changes), old(now) + timeoutMs)
    {
      var deadline := now + timeoutMs;
      ghost var state0, changes0 := state, changes;
      assert SnapshotAt(state0, changes0, InstantBefore(changes, deadline)) == state;
      assert Replay(state0, changes0[..0]) == state;
      if holds(state) {
        return true;
      }
      ghost var taken;
      satisfied, taken := WatchChanges(holds, deadline, state0, changes0);
      if !satisfied {
        ThroughStops(changes0, deadline, taken);
        NeverSeen(holds, state0, changes0, deadline);
        SortedRest(changes0, taken);
        AdvanceToQuiet(deadline);
      }
    }
  }

  /** No change up to now is waiting to be applied. */
  predicate NothingPending(changes: seq<Change>, now: int) {
    changes == [] || changes[0].at > now
  }

  /** The condition holds at some instant up to the deadline. */
  ghost predicate HoldsSometime(holds: Snapshot -> bool, state: Snapshot, changes: seq<Change>, deadline: int) {
    exists at :: at <= deadline && holds(SnapshotAt(state, changes, at))
  }

  /** The snapshot is that of some number of changes, and the condition held at no instant with fewer. */
  ghost predicate FirstMoment(holds: Snapshot -> bool, state: Snapshot, changes: seq<Change>, found: Snapshot) {
    exists taken: nat :: taken <= |changes| && found == Replay(state, changes[..taken])
      && forall at :: Through(changes, at) < taken ==> !holds(SnapshotAt(state, changes, at))
  }

  lemma NeverSeen(holds: Snapshot -> bool, state: Snapshot, changes: seq<Change>, deadline: int)
    requires SeenThrough(snapshot => !holds(snapshot), state, changes, Through(changes, deadline))
    ensures !HoldsSometime(holds, state, changes, deadline)
  {
    var fails := (snapshot: Snapshot) => !holds(snapshot);
    EverythingSeen(fails, state, changes, deadline);
    forall at | at <= deadline
      ensures !holds(SnapshotAt(state, changes, at))
    {
      assert fails(SnapshotAt(state, changes, at));
    }
  }

  lemma FirstAfter(holds: Snapshot -> bool, state: Snapshot, changes: seq<Change>, before: nat, taken: nat)
    requires before < |changes| && taken == Through(changes, changes[before].at)
    requires SeenThrough(snapshot => !holds(snapshot), state, changes, before)
    ensures FirstMoment(holds, state, changes, Replay(state, changes[..taken]))
  {
    forall at | Through(changes, at) < taken
      ensures !holds(SnapshotAt(state, changes, at))
    {
      NoneBetween(changes, before, at);
      var fails := (snapshot: Snapshot) => !holds(snapshot);
      assert fails(SnapshotAt(state, changes, at));
    }
  }

  /**
   * When no change is pending, only the instants from now on matter; so it is
   * after every advance of the clock.
   */
  lemma OnlyFromNow(holds: Snapshot -> bool, state: Snapshot, changes: seq<Change>, now: int, deadline: int)
    requires NothingPending(changes, now) && now <= deadline
    ensures HoldsThrough(holds, state, changes, deadline) <==>
              forall at :: now <= at <= deadline ==> holds(SnapshotAt(state, changes, at))
    ensures HoldsSometime(holds, state, changes, deadline) <==>
              exists at :: now <= at <= deadline && holds(SnapshotAt(state, changes, at))
  {
    forall at | at <= now
      ensures SnapshotAt(state, changes, at) == SnapshotAt(state, changes, now)
    {
      ThroughStops(changes, at, 0);
      ThroughStops(changes, now, 0);
    }
    if at :| at <= deadline && holds(SnapshotAt(state, changes, at)) {
      var later := if at <= now then now else at;
      assert holds(SnapshotAt(state, changes, later));
    }
  }

  /** The condition holds at every instant up to the deadline. */
  ghost predicate HoldsThrough(holds: Snapshot -> bool, state: Snapshot, changes: seq<Change>, deadline: int) {
    forall at :: at <= deadline ==> holds(SnapshotAt(state, changes, at))
  }

  /** The condition holds at every instant at which no more than `taken` changes have taken effect. */
  ghost predicate SeenThrough(holds: Snapshot -> bool, state: Snapshot, changes: seq<Change>, taken: nat) {
    forall at :: Through(changes, at) <= taken ==> holds(SnapshotAt(state, changes, at))
  }

  lemma EverythingSeen(holds: Snapshot -> bool, state: Snapshot, changes: seq<Change>, deadline: int)
    requires SeenThrough(holds, state, changes, Through(changes, deadline))
    ensures HoldsThrough(holds, state, changes, deadline)
  {
    forall at | at <= deadline
      ensures holds(SnapshotAt(state, changes, at))
    {
      ThroughGrows(changes, at, deadline);
    }
  }

  lemma SortedRest(changes: seq<Change>, taken: nat)
    requires Sorted(changes) && taken <= |changes|
    ensures Sorted(changes[taken..])
  {
    assert forall k :: 0 <= k < |changes| - taken ==> changes[taken..][k] == changes[taken + k];
  }

  /** Changes through an instant, counted from one that is not later. */
  lemma {:induction false} ThroughSplits(changes: seq<Change>, taken: nat, at: int)
    requires Sorted(changes) && taken < |changes| && changes[taken].at <= at
    ensures Through(changes, at) == taken + Through(changes[taken..], at)
    decreases taken
  {
    if taken == 0 {
      assert changes[0..] == changes;
    } else {
      SortedRest(changes, 1);
      assert changes[1..][taken - 1] == changes[taken] && changes[1..][taken - 1..] == changes[taken..];
      ThroughSplits(changes[1..], taken - 1, at);
      assert changes[0].at <= changes[taken].at;
    }
  }

  /** Further changes beyond those taken have not begun before the next instant. */
  lemma NoneBetween(changes: seq<Change>, taken: nat, other: int)
    requires taken < |changes|
    ensures Through(changes, other) <= taken || Through(changes, other) >= Through(changes, changes[taken].at)
  {
    if Through(changes, other) > taken {
      ThroughGrows(changes, changes[taken].at, other);
    }
  }

  /** All changes of the next instant take effect together. */
  lemma NextChanges(state: Snapshot, changes: seq<Change>, taken: nat, at: int)
    requires Sorted(changes) && taken < |changes| && at == changes[taken].at
    ensures taken < Through(changes, at) == taken + Through(changes[taken..], at)
    ensures SnapshotAt(Replay(state, changes[..taken]), changes[taken..], at)
            == Replay(state, changes[..Through(changes, at)])
    ensures changes[taken..][Through(changes[taken..], at)..] == changes[Through(changes, at)..]
  {
    ThroughSplits(changes, taken, at);
    ReplaySplits(state, changes, taken, Through(changes[taken..], at));
  }

  lemma ReplaySplits(state: Snapshot, changes: seq<Change>, taken: nat, more: nat)
    requires taken + more <= |changes|
    ensures Replay(Replay(state, changes[..taken]), changes[taken..][..more]) == Replay(state, changes[..taken + more])
    ensures changes[taken..][more..] == changes[taken + more..]
  {
    assert changes[..taken] + changes[taken..][..more] == changes[..taken + more];
    ReplayAppends(state, changes[..taken], changes[taken..][..more]);
  }

  /** Once the next instant has been looked at, everything through its changes has been seen. */
  lemma SeenNext(holds: Snapshot -> bool, state: Snapshot, changes: seq<Change>, taken: nat)
    requires taken < |changes| && SeenThrough(holds, state, changes, taken)
    requires holds(SnapshotAt(state, changes, changes[taken].at))
    ensures SeenThrough(holds, state, changes, Through(changes, changes[taken].at))
  {
    forall at | Through(changes, at) <= Through(changes, changes[taken].at)
      ensures holds(SnapshotAt(state, changes, at))
    {
      SeenAt(holds, state, changes, taken, at);
    }
  }

  lemma SeenAt(holds: Snapshot -> bool, state: Snapshot, changes: seq<Change>, taken: nat, at: int)
    requires taken < |changes| && Through(changes, at) <= Through(changes, changes[taken].at)
    requires Through(changes, at) <= taken ==> holds(SnapshotAt(state, changes, at))
    requires holds(SnapshotAt(state, changes, changes[taken].at))
    ensures holds(SnapshotAt(state, changes, at))
  {
    NoneBetween(changes, taken, at);
    if Through(changes, at) > taken {
      assert Through(changes, at) == Through(changes, changes[taken].at);
    }
  }
}
