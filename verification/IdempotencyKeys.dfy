/** The texts under which the runtime requests commands: different requests never share one. */
module IdempotencyKeys {
  import opened Numerals

  function Joined(first: string, rest: string): string {
    first + ":" + rest
  }

  /** The parts of a key, separated by colons; run identities are texts without one. */
  function KeyText(run: string, node: nat, index: nat, attempt: nat): string {
    Joined("automation", Joined(run, Joined(DecimalText(node), Joined(DecimalText(index), DecimalText(attempt)))))
  }

  /** A text is split uniquely at its first colon. */
  lemma {:induction false} SplitsAtColon(first: string, firstRest: string, second: string, secondRest: string)
    requires ':' !in first && ':' !in second
    requires Joined(first, firstRest) == Joined(second, secondRest)
    ensures first == second && firstRest == secondRest
    decreases |first|
  {
    var whole, other := Joined(first, firstRest), Joined(second, secondRest);
    assert forall k :: 0 <= k < |first| ==> whole[k] == first[k] != ':';
    assert forall k :: 0 <= k < |second| ==> other[k] == second[k] != ':';
    assert whole[|first|] == ':' && other[|second|] == ':';
    if first == [] {
      assert whole[1..] == firstRest && second == [] && other[1..] == secondRest;
    } else {
      assert whole[1..] == Joined(first[1..], firstRest) && other[1..] == Joined(second[1..], secondRest);
      SplitsAtColon(first[1..], firstRest, second[1..], secondRest);
      assert first == [first[0]] + first[1..] && second == [second[0]] + second[1..];
    }
  }

  /** Different runs, nodes, targets or attempts are requested under different texts. */
  lemma KeyTextInjective(run: string, node: nat, index: nat, attempt: nat, run': string, node': nat, index': nat,
                         attempt': nat)
    requires ':' !in run && ':' !in run'
    requires KeyText(run, node, index, attempt) == KeyText(run', node', index', attempt')
    ensures run == run' && node == node' && index == index' && attempt == attempt'
  {
    var last := Joined(DecimalText(index), DecimalText(attempt));
    var last' := Joined(DecimalText(index'), DecimalText(attempt'));
    var tail, tail' := Joined(DecimalText(node), last), Joined(DecimalText(node'), last');
    SplitsAtColon("automation", Joined(run, tail), "automation", Joined(run', tail'));
    SplitsAtColon(run, tail, run', tail');
    SplitsAtColon(DecimalText(node), last, DecimalText(node'), last');
    SplitsAtColon(DecimalText(index), DecimalText(attempt), DecimalText(index'), DecimalText(attempt'));
    DecimalTextReadsBack(node);
    DecimalTextReadsBack(node');
    DecimalTextReadsBack(index);
    DecimalTextReadsBack(index');
    DecimalTextReadsBack(attempt);
    DecimalTextReadsBack(attempt');
  }
}
