/**
 * Retrying a command node with several targets: which targets are commanded
 * again, when, and what a finished sequence of attempts has achieved.
 */
module Retries {
  import opened Wrappers
  import opened Domain

  /** What the runtime sees of one governed command. */
  datatype CommandRecord = CommandRecord(state: CommandState, failure: Option<ErrorCode>, updatedAt: int)

  datatype RetryPlan = RetryPlan(indices: seq<nat>, readyAt: int)

  /** One attempt: the targets commanded, by position, and what became of each command. */
  datatype Round = Round(indices: seq<nat>, records: seq<CommandRecord>)

  predicate Confirms(record: CommandRecord) {
    record.state == CommandState.Confirmed
  }

  predicate AllConfirmed(records: seq<CommandRecord>) {
    forall k :: 0 <= k < |records| ==> Confirms(records[k])
  }

  predicate AllTerminal(records: seq<CommandRecord>) {
    forall k :: 0 <= k < |records| ==> records[k].state.Terminal()
  }

  predicate Repeatable(record: CommandRecord, policy: RetryPolicy) {
    record.failure.Some? && record.failure.value in policy.retryable
  }

  predicate AllRepeatable(records: seq<CommandRecord>, policy: RetryPolicy) {
    forall k :: 0 <= k < |records| && !Confirms(records[k]) ==> Repeatable(records[k], policy)
  }

  function Unconfirmed(indices: seq<nat>, records: seq<CommandRecord>): seq<nat>
    requires |indices| == |records|
  {
    if indices == [] then []
    else
      var last := |indices| - 1;
      Unconfirmed(indices[..last], records[..last]) + if Confirms(records[last]) then [] else [indices[last]]
  }

  /** The moment of the latest failure among the unconfirmed commands. */
  function LatestFailure(records: seq<CommandRecord>): (latest: Option<int>)
    ensures latest.None? <==> AllConfirmed(records)
    ensures latest.Some? ==>
              && (forall k :: 0 <= k < |records| && !Confirms(records[k]) ==> records[k].updatedAt <= latest.value)
              && (exists k :: 0 <= k < |records| && !Confirms(records[k]) && records[k].updatedAt == latest.value)
  {
    if records == [] then None
    else
      var last := |records| - 1;
      var earlier := LatestFailure(records[..last]);
      assert forall k :: 0 <= k < last ==> records[..last][k] == records[k];
      if Confirms(records[last]) then earlier
      else if earlier.Some? && earlier.value > records[last].updatedAt then earlier
      else Some(records[last].updatedAt)
  }

  function RetryDecision(attempt: nat, indices: seq<nat>, records: seq<CommandRecord>, policy: RetryPolicy)
    : Option<RetryPlan>
  {
    if attempt >= policy.maximumRetries || |indices| != |records| || !AllRepeatable(records, policy) then None
    else
      match LatestFailure(records)
      case None => None
      case Some(latest) => Some(RetryPlan(Unconfirmed(indices, records), latest + policy.backoffMs))
  }

  lemma OneMoreRecord(indices: seq<nat>, records: seq<CommandRecord>, i: nat, policy: RetryPolicy)
    requires i < |indices| == |records|
    ensures Unconfirmed(indices[..i + 1], records[..i + 1])
            == Unconfirmed(indices[..i], records[..i]) + if Confirms(records[i]) then [] else [indices[i]]
    ensures var earlier := LatestFailure(records[..i]);
            LatestFailure(records[..i + 1])
            == if Confirms(records[i]) then earlier
               else if earlier.Some? && earlier.value > records[i].updatedAt then earlier
               else Some(records[i].updatedAt)
    ensures AllRepeatable(records[..i + 1], policy)
            <==> AllRepeatable(records[..i], policy) && (!Confirms(records[i]) ==> Repeatable(records[i], policy))
  {
    assert indices[..i + 1][..i] == indices[..i] && records[..i + 1][..i] == records[..i];
    assert forall k :: 0 <= k < i ==> records[..i + 1][k] == records[..i][k];
    assert records[..i + 1][i] == records[i];
  }

  /** Collects the unconfirmed targets and gives up at the first command that may not be repeated. */
  method PlanRetry(attempt: nat, indices: seq<nat>, records: seq<CommandRecord>, policy: RetryPolicy)
    returns (plan: Option<RetryPlan>)
    ensures plan == RetryDecision(attempt, indices, records, policy)
  {
    if attempt >= policy.maximumRetries || |indices| != |records| {
      return None;
    }
    var targets: seq<nat>, latest: Option<int> := [], None;
    var i := 0;
    while i < |indices|
      invariant i <= |indices|
      invariant AllRepeatable(records[..i], policy)
      invariant targets == Unconfirmed(indices[..i], records[..i])
      invariant latest == LatestFailure(records[..i])
    {
      OneMoreRecord(indices, records, i, policy);
      if !Confirms(records[i]) {
        if !Repeatable(records[i], policy) {
          return None;
        }
        targets := targets + [indices[i]];
        latest := match latest
          case None => Some(records[i].updatedAt)
          case Some(current) => Some(if current > records[i].updatedAt then current else records[i].updatedAt);
      }
      i := i + 1;
    }
    assert indices[..i] == indices && records[..i] == records;
    return match latest
      case None => None
      case Some(at) => Some(RetryPlan(targets, at + policy.backoffMs));
  }

  /**
   * A retry is planned exactly if attempts are left and every unconfirmed
   * command may be repeated. It starts one back-off after the latest failure,
   * so no sooner than that after any of them, and names the unconfirmed targets.
   */
  lemma RetryWaits(attempt: nat, indices: seq<nat>, records: seq<CommandRecord>, policy: RetryPolicy)
    requires |indices| == |records| && Increasing(indices)
    ensures var plan := RetryDecision(attempt, indices, records, policy);
            && (plan.Some? <==>
                  && attempt < policy.maximumRetries
                  && (exists k :: 0 <= k < |records| && !Confirms(records[k]))
                  && (forall k :: 0 <= k < |records| && records[k].state != CommandState.Confirmed ==>
                        records[k].failure.Some? && records[k].failure.value in policy.retryable))
            && (plan.Some? ==>
                  && (forall k :: 0 <= k < |records| && !Confirms(records[k]) ==>
                        plan.value.readyAt - records[k].updatedAt >= policy.backoffMs)
                  && (exists k :: 0 <= k < |records| && !Confirms(records[k])
                                  && plan.value.readyAt - records[k].updatedAt == policy.backoffMs)
                  && forall target :: target in plan.value.indices <==>
                       target in indices && !ConfirmedIn(Round(indices, records), target))
  {
    UnconfirmedAre(indices, records);
    if RetryDecision(attempt, indices, records, policy).Some? {
      var latest := LatestFailure(records).value;
      var k :| 0 <= k < |records| && !Confirms(records[k]) && records[k].updatedAt == latest;
      assert latest + policy.backoffMs - records[k].updatedAt == policy.backoffMs;
    }
  }

  // ----- a whole sequence of attempts ------------------------------------------------

  function Everyone(targets: nat): seq<nat> {
    seq(targets, i => i)
  }

  /** The first attempt names every target, each later one the targets left unconfirmed. */
  ghost predicate RoundChain(rounds: seq<Round>, targets: nat) {
    && (forall k :: 0 <= k < |rounds| ==> |rounds[k].indices| == |rounds[k].records|)
    && (forall k :: 0 <= k < |rounds| ==> rounds[k].indices == Due(rounds[..k], targets))
  }

  /** The targets that the attempt after `rounds` commands. */
  function Due(rounds: seq<Round>, targets: nat): seq<nat> {
    if rounds == [] then Everyone(targets)
    else
      var last := rounds[|rounds| - 1];
      if |last.indices| == |last.records| then Unconfirmed(last.indices, last.records) else []
  }

  predicate Increasing(indices: seq<nat>) {
    forall i, j :: 0 <= i < j < |indices| ==> indices[i] < indices[j]
  }

  ghost predicate ConfirmedIn(round: Round, target: nat) {
    exists k :: 0 <= k < |round.indices| && k < |round.records| && round.indices[k] == target
                && Confirms(round.records[k])
  }

  lemma {:induction false} UnconfirmedAre(indices: seq<nat>, records: seq<CommandRecord>)
    requires |indices| == |records| && Increasing(indices)
    ensures Increasing(Unconfirmed(indices, records))
    ensures forall target :: target in Unconfirmed(indices, records) <==>
              target in indices && !ConfirmedIn(Round(indices, records), target)
  {
    if indices != [] {
      var last := |indices| - 1;
      var front := Round(indices[..last], records[..last]);
      UnconfirmedAre(front.indices, front.records);
      var earlier := Unconfirmed(front.indices, front.records);
      forall k | 0 <= k < |earlier|
        ensures earlier[k] < indices[last]
      {
        assert earlier[k] in earlier && earlier[k] in front.indices;
      }
      forall target | target in indices
        ensures ConfirmedIn(Round(indices, records), target)
                <==> if target == indices[last] then Confirms(records[last]) else ConfirmedIn(front, target)
      {
        if target != indices[last] && ConfirmedIn(front, target) {
          var k :| 0 <= k < last && front.indices[k] == target && Confirms(front.records[k]);
          assert indices[k] == target;
        }
        if target != indices[last] && ConfirmedIn(Round(indices, records), target) {
          var k :| 0 <= k < |indices| && indices[k] == target && Confirms(records[k]);
          assert front.indices[k] == target;
        }
      }
      assert forall target :: target in indices <==> target in front.indices || target == indices[last];
    }
  }

  ghost predicate EverConfirmed(rounds: seq<Round>, target: nat) {
    exists k :: 0 <= k < |rounds| && ConfirmedIn(rounds[k], target)
  }

  lemma EverConfirmedSplits(rounds: seq<Round>, target: nat)
    requires rounds != []
    ensures var last := |rounds| - 1;
            EverConfirmed(rounds, target) <==>
              EverConfirmed(rounds[..last], target) || ConfirmedIn(rounds[last], target)
  {
    var last := |rounds| - 1;
    if EverConfirmed(rounds[..last], target) {
      var k :| 0 <= k < last && ConfirmedIn(rounds[..last][k], target);
      assert ConfirmedIn(rounds[k], target);
    }
    if EverConfirmed(rounds, target) && !ConfirmedIn(rounds[last], target) {
      var k :| 0 <= k < |rounds| && ConfirmedIn(rounds[k], target);
      assert ConfirmedIn(rounds[..last][k], target);
    }
  }

  /** Each attempt commands exactly the targets that no earlier attempt got confirmed, in order. */
  lemma {:induction false} CommandedIffNotYetConfirmed(rounds: seq<Round>, targets: nat)
    requires RoundChain(rounds, targets)
    ensures Increasing(Due(rounds, targets))
    ensures forall target :: target in Due(rounds, targets) <==>
              0 <= target < targets && !EverConfirmed(rounds, target)
    decreases |rounds|
  {
    if rounds == [] {
      forall target: nat
        ensures target in Everyone(targets) <==> target < targets
      {
        assert target < targets ==> Everyone(targets)[target] == target;
      }
    } else {
      var front, last := rounds[..|rounds| - 1], rounds[|rounds| - 1];
      assert forall k :: 0 <= k < |front| ==> front[..k] == rounds[..k];
      CommandedIffNotYetConfirmed(front, targets);
      assert last.indices == Due(front, targets) && last == Round(last.indices, last.records);
      UnconfirmedAre(last.indices, last.records);
      forall target: nat
        ensures EverConfirmed(rounds, target) <==> EverConfirmed(front, target) || ConfirmedIn(last, target)
      {
        EverConfirmedSplits(rounds, target);
      }
    }
  }

  lemma PrefixIsChain(rounds: seq<Round>, targets: nat, k: nat)
    requires RoundChain(rounds, targets) && k <= |rounds|
    ensures RoundChain(rounds[..k], targets)
  {
    assert forall j :: 0 <= j < k ==> rounds[..k][..j] == rounds[..j];
  }

  /** No target is commanded again once it was confirmed. */
  lemma ConfirmedIsNotCommandedAgain(rounds: seq<Round>, targets: nat, target: nat, first: nat, second: nat)
    requires RoundChain(rounds, targets) && first < |rounds| && second < |rounds|
    requires ConfirmedIn(rounds[first], target) && target in rounds[second].indices
    ensures second <= first
  {
    if first < second {
      assert ConfirmedIn(rounds[..second][first], target);
      assert EverConfirmed(rounds[..second], target);
    }
    PrefixIsChain(rounds, targets, second);
    CommandedIffNotYetConfirmed(rounds[..second], targets);
  }

  ghost predicate EveryTargetConfirmed(rounds: seq<Round>, targets: nat) {
    forall target :: 0 <= target < targets ==> EverConfirmed(rounds, target)
  }

  /** The last attempt is confirmed throughout exactly when every target has its confirmed command. */
  lemma SucceedsIffEveryTargetConfirmed(rounds: seq<Round>, targets: nat)
    requires RoundChain(rounds, targets) && rounds != []
    ensures AllConfirmed(rounds[|rounds| - 1].records) <==> EveryTargetConfirmed(rounds, targets)
  {
    var last := rounds[|rounds| - 1];
    CommandedIffNotYetConfirmed(rounds, targets);
    UnconfirmedEmptyIff(last.indices, last.records);
    var due := Due(rounds, targets);
    if due != [] {
      assert due[0] in due;
    }
  }

  lemma {:induction false} UnconfirmedEmptyIff(indices: seq<nat>, records: seq<CommandRecord>)
    requires |indices| == |records|
    ensures Unconfirmed(indices, records) == [] <==> AllConfirmed(records)
  {
    if indices != [] {
      var last := |indices| - 1;
      UnconfirmedEmptyIff(indices[..last], records[..last]);
      assert AllConfirmed(records) <==> AllConfirmed(records[..last]) && Confirms(records[last]) by {
        assert forall k :: 0 <= k < last ==> records[..last][k] == records[k];
      }
    }
  }

  lemma ChainExtends(rounds: seq<Round>, round: Round, targets: nat)
    requires RoundChain(rounds, targets)
    requires round.indices == Due(rounds, targets) && |round.indices| == |round.records|
    ensures RoundChain(rounds + [round], targets)
    ensures Due(rounds + [round], targets) == Unconfirmed(round.indices, round.records)
  {
    var longer := rounds + [round];
    assert longer[..|rounds|] == rounds;
    assert forall k :: 0 <= k < |rounds| ==> longer[..k] == rounds[..k];
  }
}
