/**
 * The commands of runs: the runtime derives the idempotency key of a request
 * from run, node, target and attempt, and the command service makes at most
 * one command, and so at most one dispatch, of it.
 */
module RunCommands {
  import opened Wrappers
  import opened Domain
  import opened CommandStore
  import opened CommandProtocol
  import opened IdempotencyKeys
  import D = DurableRuntime

  /** Runs have texts without colons as identities. */
  function KeyOf(actor: nat, run: string, key: D.CommandKey): RequestKey {
    RequestKey(actor, KeyText(run, key.node, key.index, key.attempt))
  }

  lemma DifferentAttemptsHaveDifferentKeys(actor: nat, run: string, key: D.CommandKey, run': string, key': D.CommandKey)
    requires ':' !in run && ':' !in run'
    ensures KeyOf(actor, run, key) == KeyOf(actor, run', key') <==> run == run' && key == key'
  {
    if KeyOf(actor, run, key) == KeyOf(actor, run', key') {
      KeyTextInjective(run, key.node, key.index, key.attempt, run', key'.node, key'.index, key'.attempt);
    }
  }

  /** The idempotency key of the command that was handed to the dispatcher. */
  function CalledUnder(system: System, call: nat): Option<RequestKey> {
    if call < |system.calls| && system.calls[call] in system.store.commands
    then Some(system.store.commands[system.calls[call]].envelope.key)
    else None
  }

  /**
   * Each run, node, target and attempt causes at most one physical dispatch,
   * whatever workers do and wherever they crash, and no dispatch is shared by
   * two of them.
   */
  lemma AttemptIsDispatchedAtMostOnce(moves: seq<Move>, actor: nat, run: string, key: D.CommandKey, run': string,
                                      key': D.CommandKey, i: nat, j: nat)
    requires ':' !in run && ':' !in run'
    requires CalledUnder(Run(START, moves), i) == Some(KeyOf(actor, run, key))
    requires CalledUnder(Run(START, moves), j) == Some(KeyOf(actor, run', key'))
    ensures i == j <==> run == run' && key == key'
  {
    DifferentAttemptsHaveDifferentKeys(actor, run, key, run', key');
    if i < j {
      NoKeyIsDispatchedTwice(moves, i, j);
    } else if j < i {
      NoKeyIsDispatchedTwice(moves, j, i);
    }
  }

  ghost predicate CreatedBy(moves: seq<Move>, envelope: Envelope) {
    exists i :: 0 <= i < |moves| && moves[i].Create? && moves[i].envelope == envelope
  }

  /** Every command was created by some move. */
  lemma {:induction false} CommandsAreCreated(moves: seq<Move>, id: CommandId)
    requires id in Run(START, moves).store.commands
    ensures CreatedBy(moves, Run(START, moves).store.commands[id].envelope)
    decreases |moves|
  {
    if moves != [] {
      var last := |moves| - 1;
      var before := Run(START, moves[..last]);
      if !moves[last].Create? {
        MoveKeepsEnvelopes(before, moves[last]);
      }
      if id in before.store.commands {
        CommandsAreCreated(moves[..last], id);
        var i :| 0 <= i < last && moves[..last][i].Create?
          && moves[..last][i].envelope == before.store.commands[id].envelope;
        assert moves[i] == moves[..last][i];
      } else {
        assert moves[last].envelope == Run(START, moves).store.commands[id].envelope;
      }
    }
  }

  /** Under the keys of the run only what the run asks for was requested. */
  ghost predicate OnlyTheRunAsks(moves: seq<Move>, actor: nat, run: string, nodes: seq<Node>, deadline: int) {
    forall i, key :: 0 <= i < |moves| && moves[i].Create? && moves[i].envelope.key == KeyOf(actor, run, key) ==>
      D.Asks(nodes, deadline, key, moves[i].envelope.request)
  }

  /**
   * A request that a run repeats, after a crash for instance, is never refused
   * as a conflict: once its command exists, it is answered with that command.
   */
  lemma RepeatedRequestIsAnswered(run: D.DurableRun, key: D.CommandKey, moves: seq<Move>, actor: nat, name: string,
                                  id: CommandId, envelope: Envelope)
    requires run.Valid() && key in run.requested
    requires OnlyTheRunAsks(moves, actor, name, run.plan.nodes, run.Deadline())
    requires envelope.key == KeyOf(actor, name, key) && envelope.request == run.requested[key]
    ensures var store := Run(START, moves).store;
            var (after, creation) := CreateCommand(store, id, envelope);
            && !creation.Conflict?
            && (envelope.key in store.keys ==> creation == Existing(store.keys[envelope.key]) && after == store)
  {
    var store := Run(START, moves).store;
    RunKeepsKeys(moves);
    CreateAnswers(store, id, envelope, id);
    if envelope.key in store.keys {
      var known := store.keys[envelope.key];
      CommandsAreCreated(moves, known);
      var i :| 0 <= i < |moves| && moves[i].Create? && moves[i].envelope == store.commands[known].envelope;
      assert D.Asks(run.plan.nodes, run.Deadline(), key, moves[i].envelope.request);
    }
  }
}
