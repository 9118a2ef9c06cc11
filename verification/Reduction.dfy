/**
 * Last-command-wins reduction. In every run of consecutive commands only the
 * last command per target reference survives; every other action is a barrier.
 */
module Reduction {
  import opened Domain

  // ----- what the pass computes ---------------------------------------------

  /** A later command of the same run names the same target. */
  predicate Overwritten(target: TargetReference, later: seq<Action>) {
    later != [] && later[0].Command? && (later[0].target == target || Overwritten(target, later[1..]))
  }

  predicate Displaced(actions: seq<Action>)
    requires actions != []
  {
    actions[0].Command? && Overwritten(actions[0].target, actions[1..])
  }

  function Reduce(actions: seq<Action>): (reduced: seq<Action>)
    decreases actions, 0
  {
    if actions == [] then []
    else if Displaced(actions) then Reduce(actions[1..])
    else [ReduceNested(actions[0])] + Reduce(actions[1..])
  }

  /** A command's own fallback is left for the lowering pass to reduce. */
  function ReduceNested(action: Action): Action
    decreases action, 1
  {
    match action
    case Sequence(actions) => Sequence(Reduce(actions))
    case If(condition, thenActions, elseActions) => If(condition, Reduce(thenActions), Reduce(elseActions))
    case Group(kind, branches, maximumParallel) => Group(kind, ReduceBranches(branches), maximumParallel)
    case Wait(condition, timeoutMs, onTimeout) => Wait(condition, timeoutMs, ReducePolicy(onTimeout))
    case _ => action
  }

  function ReducePolicy(policy: FailurePolicy): FailurePolicy {
    match policy
    case Fallback(actions) => Fallback(Reduce(actions))
    case _ => policy
  }

  function ReduceBranches(branches: seq<Branch>): (reduced: seq<Branch>)
    ensures |reduced| == |branches|
  {
    if branches == [] then []
    else [Branch(Reduce(branches[0].actions))] + ReduceBranches(branches[1..])
  }

  // ----- the same pass carried through the whole tree ------------------------

  function Normalize(actions: seq<Action>): seq<Action>
    decreases actions, 0
  {
    if actions == [] then []
    else if Displaced(actions) then Normalize(actions[1..])
    else [NormalizeAction(actions[0])] + Normalize(actions[1..])
  }

  function NormalizeAction(action: Action): Action
    decreases action, 1
  {
    match action
    case Command(target, payload, retry, onFailure) =>
      Command(target, payload, retry, NormalizePolicy(onFailure))
    case Sequence(actions) => Sequence(Normalize(actions))
    case If(condition, thenActions, elseActions) => If(condition, Normalize(thenActions), Normalize(elseActions))
    case Group(kind, branches, maximumParallel) => Group(kind, NormalizeBranches(branches), maximumParallel)
    case Wait(condition, timeoutMs, onTimeout) => Wait(condition, timeoutMs, NormalizePolicy(onTimeout))
    case _ => action
  }

  function NormalizePolicy(policy: FailurePolicy): FailurePolicy {
    match policy
    case Fallback(actions) => Fallback(Normalize(actions))
    case _ => policy
  }

  function NormalizeBranches(branches: seq<Branch>): (normal: seq<Branch>)
    ensures |normal| == |branches|
  {
    if branches == [] then []
    else [Branch(Normalize(branches[0].actions))] + NormalizeBranches(branches[1..])
  }

  /** Normalizes every action of a list but keeps the list's length. */
  function NormalizeEach(actions: seq<Action>): (normal: seq<Action>)
    ensures |normal| == |actions|
  {
    if actions == [] then [] else [NormalizeAction(actions[0])] + NormalizeEach(actions[1..])
  }

  // ----- idempotence and absorption -------------------------------------------

  lemma {:induction false} ReduceKeepsLastTargets(target: TargetReference, actions: seq<Action>)
    ensures Overwritten(target, Reduce(actions)) == Overwritten(target, actions)
    decreases |actions|
  {
    if actions != [] {
      ReduceKeepsLastTargets(target, actions[1..]);
      if !Displaced(actions) {
        assert Reduce(actions)[1..] == Reduce(actions[1..]);
      }
    }
  }

  /** Reducing twice is reducing once, at every nesting level. */
  lemma {:induction false} ReduceIdempotent(actions: seq<Action>)
    ensures Reduce(Reduce(actions)) == Reduce(actions)
    decreases actions, 0
  {
    if actions != [] {
      ReduceIdempotent(actions[1..]);
      if !Displaced(actions) {
        ReduceNestedIdempotent(actions[0]);
        if actions[0].Command? {
          ReduceKeepsLastTargets(actions[0].target, actions[1..]);
        }
        assert Reduce(actions)[1..] == Reduce(actions[1..]);
      }
    }
  }

  lemma {:induction false} ReduceNestedIdempotent(action: Action)
    ensures ReduceNested(ReduceNested(action)) == ReduceNested(action)
    decreases action, 1
  {
    match action
    case Sequence(actions) => ReduceIdempotent(actions);
    case If(_, thenActions, elseActions) =>
      ReduceIdempotent(thenActions);
      ReduceIdempotent(elseActions);
    case Group(_, branches, _) => ReduceBranchesIdempotent(branches);
    case Wait(_, _, onTimeout) =>
      if onTimeout.Fallback? {
        ReduceIdempotent(onTimeout.actions);
      }
    case _ =>
  }

  lemma {:induction false} ReduceBranchesIdempotent(branches: seq<Branch>)
    ensures ReduceBranches(ReduceBranches(branches)) == ReduceBranches(branches)
  {
    if branches != [] {
      ReduceIdempotent(branches[0].actions);
      ReduceBranchesIdempotent(branches[1..]);
      assert ReduceBranches(branches)[1..] == ReduceBranches(branches[1..]);
    }
  }

  /** A reduced list only needs its members normalized. */
  lemma {:induction false} NormalizeAbsorbsReduce(actions: seq<Action>)
    ensures NormalizeEach(Reduce(actions)) == Normalize(actions)
    decreases actions, 0
  {
    if actions != [] {
      NormalizeAbsorbsReduce(actions[1..]);
      if !Displaced(actions) {
        NormalizeActionAbsorbsReduce(actions[0]);
        assert Reduce(actions)[1..] == Reduce(actions[1..]);
      }
    }
  }

  lemma {:induction false} NormalizeActionAbsorbsReduce(action: Action)
    ensures NormalizeAction(ReduceNested(action)) == NormalizeAction(action)
    decreases action, 1
  {
    match action
    case Sequence(actions) => NormalizeReduced(actions);
    case If(_, thenActions, elseActions) =>
      NormalizeReduced(thenActions);
      NormalizeReduced(elseActions);
    case Group(_, branches, _) => NormalizeBranchesAbsorbReduce(branches);
    case Wait(_, _, onTimeout) =>
      if onTimeout.Fallback? {
        NormalizeReduced(onTimeout.actions);
      }
    case _ =>
  }

  lemma {:induction false} NormalizeBranchesAbsorbReduce(branches: seq<Branch>)
    ensures NormalizeBranches(ReduceBranches(branches)) == NormalizeBranches(branches)
  {
    if branches != [] {
      NormalizeReduced(branches[0].actions);
      NormalizeBranchesAbsorbReduce(branches[1..]);
      assert ReduceBranches(branches)[1..] == ReduceBranches(branches[1..]);
    }
  }

  /** Normalizing an already reduced tree gives the same tree. */
  lemma {:induction false} NormalizeReduced(actions: seq<Action>)
    ensures Normalize(Reduce(actions)) == Normalize(actions)
    decreases actions, 0
  {
    if actions != [] {
      NormalizeReduced(actions[1..]);
      if !Displaced(actions) {
        NormalizeActionAbsorbsReduce(actions[0]);
        if actions[0].Command? {
          ReduceKeepsLastTargets(actions[0].target, actions[1..]);
        }
        assert Reduce(actions)[1..] == Reduce(actions[1..]);
      }
    }
  }

  lemma {:induction false} NormalizeKeepsLastTargets(target: TargetReference, actions: seq<Action>)
    ensures Overwritten(target, Normalize(actions)) == Overwritten(target, actions)
    decreases |actions|
  {
    if actions != [] {
      NormalizeKeepsLastTargets(target, actions[1..]);
      if !Displaced(actions) {
        assert Normalize(actions)[1..] == Normalize(actions[1..]);
      }
    }
  }

  /** A normalized tree is already reduced, at every nesting level. */
  lemma {:induction false} NormalizedIsReduced(actions: seq<Action>)
    ensures Reduce(Normalize(actions)) == Normalize(actions)
    decreases actions, 0
  {
    if actions != [] {
      NormalizedIsReduced(actions[1..]);
      if !Displaced(actions) {
        NormalizedNestedIsReduced(actions[0]);
        if actions[0].Command? {
          NormalizeKeepsLastTargets(actions[0].target, actions[1..]);
        }
        assert Normalize(actions)[1..] == Normalize(actions[1..]);
      }
    }
  }

  lemma {:induction false} NormalizedNestedIsReduced(action: Action)
    ensures ReduceNested(NormalizeAction(action)) == NormalizeAction(action)
    decreases action, 1
  {
    match action
    case Sequence(actions) => NormalizedIsReduced(actions);
    case If(_, thenActions, elseActions) =>
      NormalizedIsReduced(thenActions);
      NormalizedIsReduced(elseActions);
    case Group(_, branches, _) => NormalizedBranchesAreReduced(branches);
    case Wait(_, _, onTimeout) =>
      if onTimeout.Fallback? {
        NormalizedIsReduced(onTimeout.actions);
      }
    case _ =>
  }

  lemma {:induction false} NormalizedBranchesAreReduced(branches: seq<Branch>)
    ensures ReduceBranches(NormalizeBranches(branches)) == NormalizeBranches(branches)
  {
    if branches != [] {
      NormalizedIsReduced(branches[0].actions);
      NormalizedBranchesAreReduced(branches[1..]);
      assert NormalizeBranches(branches)[1..] == NormalizeBranches(branches[1..]);
    }
  }

  // ----- shape of the result ----------------------------------------------------

  function Barriers(actions: seq<Action>): seq<Action> {
    if actions == [] then []
    else if actions[0].Command? then Barriers(actions[1..])
    else [actions[0]] + Barriers(actions[1..])
  }

  /** No barrier is dropped, duplicated or moved. */
  lemma {:induction false} ReduceKeepsBarriers(actions: seq<Action>)
    ensures |Barriers(Reduce(actions))| == |Barriers(actions)|
    ensures forall i :: 0 <= i < |Barriers(actions)| ==>
              Barriers(Reduce(actions))[i] == ReduceNested(Barriers(actions)[i])
    decreases |actions|
  {
    if actions != [] {
      ReduceKeepsBarriers(actions[1..]);
      if !Displaced(actions) {
        assert Reduce(actions)[1..] == Reduce(actions[1..]);
      }
    }
  }

  /** Positions `i` to `j` hold nothing but commands. */
  predicate SameRun(actions: seq<Action>, i: int, j: int)
    requires 0 <= i <= j < |actions|
  {
    forall k :: i <= k <= j ==> actions[k].Command?
  }

  lemma {:induction false} OverwrittenWithinRun(target: TargetReference, actions: seq<Action>, j: nat)
    requires j < |actions| && SameRun(actions, 0, j) && actions[j].target == target
    ensures Overwritten(target, actions)
    decreases j
  {
    if j > 0 {
      assert SameRun(actions[1..], 0, j - 1);
      OverwrittenWithinRun(target, actions[1..], j - 1);
    }
  }

  /** Inside one run of a reduced list all targets differ. */
  lemma {:induction false} ReducedRunsHaveDistinctTargets(actions: seq<Action>, i: nat, j: nat)
    requires i < j < |Reduce(actions)| && SameRun(Reduce(actions), i, j)
    ensures Reduce(actions)[i].target != Reduce(actions)[j].target
    decreases |actions|, i
  {
    var reduced := Reduce(actions);
    if Displaced(actions) {
      ReducedRunsHaveDistinctTargets(actions[1..], i, j);
    } else {
      var rest := Reduce(actions[1..]);
      assert reduced[1..] == rest;
      if i > 0 {
        assert forall k :: i - 1 <= k <= j - 1 ==> rest[k] == reduced[k + 1];
        ReducedRunsHaveDistinctTargets(actions[1..], i - 1, j - 1);
      } else if reduced[0].target == reduced[j].target {
        assert forall k :: 0 <= k <= j - 1 ==> rest[k] == reduced[k + 1];
        OverwrittenWithinRun(reduced[0].target, rest, j - 1);
        ReduceKeepsLastTargets(reduced[0].target, actions[1..]);
      }
    }
  }

  // ----- effect on devices --------------------------------------------------------

  /** The resulting state does not depend on the state before. */
  predicate Absolute(payload: Payload) {
    !payload.Toggle? && !payload.Stop?
  }

  /**
   * State of each device cell: the last absolute payload followed by the
   * relative payloads since, whose effect the reducer does not know.
   */
  type Cells = map<int, seq<Payload>>

  function Effect(payload: Payload, before: seq<Payload>): seq<Payload> {
    if Absolute(payload) then [payload] else before + [payload]
  }

  function Write(cells: Cells, written: set<int>, payload: Payload): (after: Cells)
    ensures after.Keys == cells.Keys
  {
    map cell | cell in cells :: if cell in written then Effect(payload, cells[cell]) else cells[cell]
  }

  /**
   * Device state at the end of each run of commands, when a reference names
   * the cells `cellsOf` gives it and the k-th barrier turns one state into
   * another as `disturb` says.
   */
  function RunEnds(actions: seq<Action>, cellsOf: TargetReference -> set<int>, disturb: (nat, Cells) -> Cells,
                   barrier: nat, cells: Cells): (ends: seq<Cells>)
    ensures ends != []
  {
    if actions == [] then [cells]
    else if actions[0].Command? then
      RunEnds(actions[1..], cellsOf, disturb, barrier,
              Write(cells, cellsOf(actions[0].target), actions[0].payload))
    else [cells] + RunEnds(actions[1..], cellsOf, disturb, barrier + 1, disturb(barrier, cells))
  }

  /** Payload of the last command of the run that names `target`. */
  function LastPayload(target: TargetReference, later: seq<Action>): Payload
    requires Overwritten(target, later)
  {
    if Overwritten(target, later[1..]) then LastPayload(target, later[1..]) else later[0].payload
  }

  /** Whatever displaces an earlier command is absolute. */
  predicate DisplacersAbsolute(actions: seq<Action>) {
    actions != [] ==>
      && (Displaced(actions) ==> Absolute(LastPayload(actions[0].target, actions[1..])))
      && DisplacersAbsolute(actions[1..])
  }

  ghost predicate AgreeOutside(left: Cells, right: Cells, hidden: set<int>) {
    left.Keys == right.Keys && forall cell :: cell in left && cell !in hidden ==> left[cell] == right[cell]
  }

  /** Cells that an absolute command of the same run rewrites may start anyhow. */
  lemma {:induction false} OverwrittenCellsAreDead(target: TargetReference, actions: seq<Action>,
      cellsOf: TargetReference -> set<int>, disturb: (nat, Cells) -> Cells, barrier: nat, left: Cells, right: Cells)
    requires Overwritten(target, actions) && Absolute(LastPayload(target, actions))
    requires AgreeOutside(left, right, cellsOf(target))
    ensures RunEnds(actions, cellsOf, disturb, barrier, left) == RunEnds(actions, cellsOf, disturb, barrier, right)
    decreases |actions|
  {
    var written := cellsOf(actions[0].target);
    var left' := Write(left, written, actions[0].payload);
    var right' := Write(right, written, actions[0].payload);
    if Overwritten(target, actions[1..]) {
      OverwrittenCellsAreDead(target, actions[1..], cellsOf, disturb, barrier, left', right');
    } else {
      assert forall cell :: cell in left' ==> left'[cell] == right'[cell];
      assert left' == right';
    }
  }

  /**
   * When displacing payloads are absolute, reduction changes no device state
   * at the end of any run: for every assignment of cells to references, also
   * overlapping ones, and every behaviour of the barriers.
   */
  lemma {:induction false} ReducePreservesDeviceState(actions: seq<Action>, cellsOf: TargetReference -> set<int>,
      disturb: (nat, Cells) -> Cells, barrier: nat, cells: Cells)
    requires DisplacersAbsolute(actions)
    ensures RunEnds(Reduce(actions), cellsOf, disturb, barrier, cells)
            == RunEnds(actions, cellsOf, disturb, barrier, cells)
    decreases |actions|
  {
    if actions != [] {
      var first := actions[0];
      if Displaced(actions) {
        var written := Write(cells, cellsOf(first.target), first.payload);
        ReducePreservesDeviceState(actions[1..], cellsOf, disturb, barrier, cells);
        OverwrittenCellsAreDead(first.target, actions[1..], cellsOf, disturb, barrier, cells, written);
      } else {
        assert Reduce(actions)[1..] == Reduce(actions[1..]);
        if first.Command? {
          ReducePreservesDeviceState(actions[1..], cellsOf, disturb, barrier,
                                     Write(cells, cellsOf(first.target), first.payload));
        } else {
          ReducePreservesDeviceState(actions[1..], cellsOf, disturb, barrier + 1, disturb(barrier, cells));
        }
      }
    }
  }

  // The converse: one relative displacer is enough to be observable.

  /** Some displaced command on `target` has a relative displacer. */
  predicate LosesEffect(target: TargetReference, actions: seq<Action>) {
    && actions != []
    && ((Displaced(actions) && actions[0].target == target && !Absolute(LastPayload(target, actions[1..])))
        || LosesEffect(target, actions[1..]))
  }

  lemma {:induction false} RelativeDisplacerExists(actions: seq<Action>) returns (target: TargetReference)
    requires !DisplacersAbsolute(actions)
    ensures LosesEffect(target, actions)
    decreases |actions|
  {
    if Displaced(actions) && !Absolute(LastPayload(actions[0].target, actions[1..])) {
      target := actions[0].target;
    } else {
      target := RelativeDisplacerExists(actions[1..]);
    }
  }

  /** One cell, written by `target` alone; every barrier clears it. */
  function OnlyCell(target: TargetReference): TargetReference -> set<int> {
    reference => if reference == target then {0} else {}
  }

  function Clearing(): (nat, Cells) -> Cells {
    (barrier, cells) => map[0 := []]
  }

  /** The history that the only cell has at the end of the first run. */
  function FirstRunHistory(target: TargetReference, actions: seq<Action>, before: seq<Payload>): seq<Payload> {
    if actions == [] || !actions[0].Command? then before
    else FirstRunHistory(target, actions[1..],
                         if actions[0].target == target then Effect(actions[0].payload, before) else before)
  }

  lemma {:induction false} FirstRunEnd(target: TargetReference, actions: seq<Action>, barrier: nat,
                                       before: seq<Payload>)
    ensures RunEnds(actions, OnlyCell(target), Clearing(), barrier, map[0 := before])[0]
            == map[0 := FirstRunHistory(target, actions, before)]
    decreases |actions|
  {
    if actions != [] && actions[0].Command? {
      var after := if actions[0].target == target then Effect(actions[0].payload, before) else before;
      assert Write(map[0 := before], OnlyCell(target)(actions[0].target), actions[0].payload) == map[0 := after];
      FirstRunEnd(target, actions[1..], barrier, after);
    }
  }

  /** A relative last payload shows how much history precedes it. */
  lemma {:induction false} RelativeLastKeepsHistory(target: TargetReference, actions: seq<Action>,
                                                    before: seq<Payload>)
    requires Overwritten(target, actions) && !Absolute(LastPayload(target, actions))
    ensures before != [] ==> |FirstRunHistory(target, actions, before)| >= 2
    ensures FirstRunHistory(target, Reduce(actions), before) == before + [LastPayload(target, actions)]
    decreases |actions|
  {
    var rest := actions[1..];
    if Overwritten(target, rest) {
      var after := if actions[0].target == target then Effect(actions[0].payload, before) else before;
      RelativeLastKeepsHistory(target, rest, after);
      RelativeLastKeepsHistory(target, rest, before);
    } else {
      UntouchedHistory(target, rest, before + [actions[0].payload]);
    }
    if !Displaced(actions) {
      assert Reduce(actions)[1..] == Reduce(rest);
    }
  }

  lemma {:induction false} UntouchedHistory(target: TargetReference, actions: seq<Action>, before: seq<Payload>)
    requires !Overwritten(target, actions)
    ensures FirstRunHistory(target, actions, before) == before
    ensures FirstRunHistory(target, Reduce(actions), before) == before
    decreases |actions|
  {
    if actions != [] && actions[0].Command? {
      UntouchedHistory(target, actions[1..], before);
      if !Displaced(actions) {
        assert Reduce(actions)[1..] == Reduce(actions[1..]);
      }
    }
  }

  lemma {:induction false} RelativeDisplacerIsObservable(target: TargetReference, actions: seq<Action>,
                                                         barrier: nat, before: seq<Payload>)
    requires LosesEffect(target, actions)
    requires before == [] || !Overwritten(target, actions)
    ensures RunEnds(Reduce(actions), OnlyCell(target), Clearing(), barrier, map[0 := before])
            != RunEnds(actions, OnlyCell(target), Clearing(), barrier, map[0 := before])
    decreases |actions|
  {
    var first, rest := actions[0], actions[1..];
    var cells: Cells := map[0 := before];
    if !Displaced(actions) {
      assert Reduce(actions)[1..] == Reduce(rest);
    }
    if !first.Command? {
      RelativeDisplacerIsObservable(target, rest, barrier + 1, []);
      var reduced := RunEnds(Reduce(actions), OnlyCell(target), Clearing(), barrier, cells);
      var original := RunEnds(actions, OnlyCell(target), Clearing(), barrier, cells);
      assert reduced[1..] == RunEnds(Reduce(rest), OnlyCell(target), Clearing(), barrier + 1, map[0 := []]);
      assert original[1..] == RunEnds(rest, OnlyCell(target), Clearing(), barrier + 1, map[0 := []]);
    } else if first.target != target {
      assert Write(cells, OnlyCell(target)(first.target), first.payload) == cells;
      RelativeDisplacerIsObservable(target, rest, barrier, before);
    } else {
      var after := Effect(first.payload, before);
      assert Write(cells, OnlyCell(target)(first.target), first.payload) == map[0 := after];
      if !Overwritten(target, rest) {
        RelativeDisplacerIsObservable(target, rest, barrier, after);
      } else if Absolute(LastPayload(target, rest)) {
        OverwrittenCellsAreDead(target, rest, OnlyCell(target), Clearing(), barrier, cells, map[0 := after]);
        RelativeDisplacerIsObservable(target, rest, barrier, before);
      } else {
        FirstRunEnd(target, rest, barrier, after);
        FirstRunEnd(target, Reduce(rest), barrier, before);
        RelativeLastKeepsHistory(target, rest, after);
        RelativeLastKeepsHistory(target, rest, before);
      }
    }
  }

  /**
   * Exactly when reduction is invisible on devices: no toggle or stop
   * displaces an earlier command of its run.
   */
  lemma ReductionInvisibleIffDisplacersAbsolute(actions: seq<Action>)
    ensures (forall cellsOf: TargetReference -> set<int>, disturb: (nat, Cells) -> Cells, cells: Cells ::
               RunEnds(Reduce(actions), cellsOf, disturb, 0, cells) == RunEnds(actions, cellsOf, disturb, 0, cells))
            <==> DisplacersAbsolute(actions)
  {
    if DisplacersAbsolute(actions) {
      forall cellsOf: TargetReference -> set<int>, disturb: (nat, Cells) -> Cells, cells: Cells
        ensures RunEnds(Reduce(actions), cellsOf, disturb, 0, cells) == RunEnds(actions, cellsOf, disturb, 0, cells)
      {
        ReducePreservesDeviceState(actions, cellsOf, disturb, 0, cells);
      }
    } else {
      var target := RelativeDisplacerExists(actions);
      RelativeDisplacerIsObservable(target, actions, 0, []);
    }
  }

  // ----- the pass as the compiler runs it -------------------------------------------

  /** Emits the last command per target of one buffered run. */
  method Flush(segment: seq<Action>, ghost following: seq<Action>) returns (kept: seq<Action>)
    requires forall i :: 0 <= i < |segment| ==> segment[i].Command?
    requires following == [] || !following[0].Command?
    ensures kept + Reduce(following) == Reduce(segment + following)
  {
    kept := [];
    var index := 0;
    while index < |segment|
      invariant 0 <= index <= |segment|
      invariant kept + Reduce(segment[index..] + following) == Reduce(segment + following)
    {
      var isLast := true;
      var later := index + 1;
      while later < |segment|
        invariant index < later <= |segment|
        invariant isLast == (forall k :: index < k < later ==> segment[k].target != segment[index].target)
      {
        if segment[later].target == segment[index].target {
          isLast := false;
        }
        later := later + 1;
      }
      ghost var remaining := segment[index..] + following;
      assert remaining[1..] == segment[index + 1..] + following;
      OverwrittenInSegment(segment[index].target, segment[index + 1..], following);
      assert Displaced(remaining) == !isLast;
      if isLast {
        kept := kept + [segment[index]];
        assert Reduce(remaining) == [segment[index]] + Reduce(remaining[1..]);
      }
      index := index + 1;
    }
    assert segment[index..] + following == following;
  }

  lemma {:induction false} OverwrittenInSegment(target: TargetReference, segment: seq<Action>, following: seq<Action>)
    requires forall i :: 0 <= i < |segment| ==> segment[i].Command?
    requires following == [] || !following[0].Command?
    ensures Overwritten(target, segment + following)
            == (exists k :: 0 <= k < |segment| && segment[k].target == target)
    decreases |segment|
  {
    if segment != [] {
      assert (segment + following)[1..] == segment[1..] + following;
      OverwrittenInSegment(target, segment[1..], following);
    } else {
      assert segment + following == following;
    }
  }

  lemma FlushedBeforeBarrier(output: seq<Action>, segment: seq<Action>, remaining: seq<Action>, kept: seq<Action>)
    requires remaining != [] && !remaining[0].Command?
    requires kept + Reduce(remaining) == Reduce(segment + remaining)
    ensures output + kept + [ReduceNested(remaining[0])] + Reduce(remaining[1..])
            == output + Reduce(segment + remaining)
  {
    var barrier, tail := [ReduceNested(remaining[0])], Reduce(remaining[1..]);
    assert Reduce(remaining) == barrier + tail;
    assert output + kept + barrier + tail == output + (kept + (barrier + tail));
  }

  /** Buffers commands and flushes them at every barrier and at the end. */
  method ReduceActions(actions: seq<Action>) returns (output: seq<Action>)
    ensures output == Reduce(actions)
  {
    output := [];
    var segment: seq<Action> := [];
    var index := 0;
    assert actions[0..] == actions && segment + actions == actions;
    while index < |actions|
      invariant 0 <= index <= |actions|
      invariant forall i :: 0 <= i < |segment| ==> segment[i].Command?
      invariant output + Reduce(segment + actions[index..]) == Reduce(actions)
    {
      ghost var remaining := actions[index..];
      assert remaining[1..] == actions[index + 1..];
      if actions[index].Command? {
        assert segment + remaining == (segment + [actions[index]]) + remaining[1..];
        segment := segment + [actions[index]];
      } else {
        var kept := Flush(segment, remaining);
        FlushedBeforeBarrier(output, segment, remaining, kept);
        output := output + kept + [ReduceNested(actions[index])];
        segment := [];
        assert segment + remaining[1..] == remaining[1..];
      }
      index := index + 1;
    }
    var kept := Flush(segment, []);
    assert segment + actions[index..] == segment + [];
    output := output + kept;
  }
}
