/**
 * What brings a command into each of its states. Over every interleaving and
 * crash, a command is where it is because of one move, by a worker that held
 * it as it durably was; and a worker that is left alone ends a command as the
 * verdict, the reply and the observation say.
 */
module CommandCauses {
  import opened Wrappers
  import opened Domain
  import opened CommandStore
  import opened CommandProtocol

  /** The worker works on the command, and what it holds is what is stored. */
  predicate Holds(system: System, worker: WorkerId, id: CommandId) {
    var at := system.At(worker);
    !at.Idle? && at.id == id && id in system.store.commands && at.held == system.store.commands[id]
  }

  predicate Decides(system: System, move: Move, id: CommandId, verdict: Verdict) {
    move.Decide? && move.verdict == verdict && system.At(move.worker).Deciding? && Holds(system, move.worker, id)
  }

  predicate Replies(system: System, move: Move, id: CommandId, reply: Reply) {
    move.Reply? && move.reply == reply && system.At(move.worker).Answered? && Holds(system, move.worker, id)
  }

  predicate Settles(system: System, move: Move, id: CommandId, confirmation: Confirmation) {
    && move.Settle? && move.confirmation == confirmation
    && system.At(move.worker).Confirming? && Holds(system, move.worker, id)
  }

  /** The time of the command was over before its registration began. */
  predicate RegistersLate(system: System, move: Move, id: CommandId) {
    && move.Register? && move.late && Holds(system, move.worker, id)
    && system.At(move.worker).Registering? && system.At(move.worker).attempts == 0
  }

  /** The undispatched slot of this command, if it competes for one. */
  predicate Owns(store: Store, id: CommandId) {
    && id in store.commands
    && (store.commands[id].envelope.projection.Some? ==>
          var projection := store.commands[id].envelope.projection.value;
          && projection in store.slots && store.slots[projection].owner == id && !store.slots[projection].dispatched)
  }

  /** An admitted command is no unlock of a slot; such an unlock is dispatched only by an approval that is bound. */
  predicate Dispatches(system: System, move: Move, id: CommandId) {
    && (move.Admit? || move.Authorize?) && Holds(system, move.worker, id) && Owns(system.store, id)
    && (move.Admit? ==>
          && (system.At(move.worker).Admitting? || system.At(move.worker).Recording?)
          && (system.store.commands[id].envelope.Unlocks() ==> system.store.commands[id].envelope.projection.None?))
    && (move.Authorize? ==>
          && move.bound && system.At(move.worker).Consuming?
          && system.store.commands[id].envelope.projection.Some?
          && system.store.slots[system.store.commands[id].envelope.projection.value].revision
             == system.At(move.worker).revision)
  }

  /** Another command takes over the slot of this one, which was still waiting. */
  predicate Supersedes(system: System, move: Move, id: CommandId) {
    && move.Register? && system.At(move.worker).Replacing? && system.At(move.worker).id != id
    && id in system.store.commands && PreDispatch(system.store.commands[id].state)
    && var projection := system.At(move.worker).held.envelope.projection;
       projection.Some? && projection.value in system.store.slots
       && system.store.slots[projection.value].owner == id && !system.store.slots[projection.value].dispatched
  }

  /** The moves that can bring a command to a state. */
  predicate Causes(system: System, move: Move, id: CommandId, state: CommandState) {
    match state
    case Received => move.Create? && move.id == id
    case Validated => Decides(system, move, id, Allow)
    case Rejected => Decides(system, move, id, Deny)
    case Dispatched => Dispatches(system, move, id)
    case Acknowledged => Replies(system, move, id, Acknowledge)
    case Confirmed => Settles(system, move, id, Confirm)
    case Failed => Replies(system, move, id, Fail) || Settles(system, move, id, Refute)
    case TimedOut =>
      || Decides(system, move, id, Expire) || RegistersLate(system, move, id)
      || Replies(system, move, id, Late) || Settles(system, move, id, Overdue)
    case Cancelled =>
      || (move.Withdraw? && system.At(move.worker).Cancelling? && Holds(system, move.worker, id))
      || Supersedes(system, move, id)
  }

  /** The command is new or in another state than before. */
  predicate Changes(before: Store, after: Store, id: CommandId) {
    && id in after.commands
    && (id in before.commands ==> after.commands[id].state != before.commands[id].state)
  }

  // ----- one write changes one command -------------------------------------------------------

  lemma WriteChanges(system: System, worker: WorkerId, next: CommandState, to: Worker, id: CommandId)
    requires Invariant(system) && !system.At(worker).Idle?
    requires var at := system.At(worker);
             Changes(system.store,
                     system.Writes(worker, TransitionCommand(system.store, at.id, at.held, next), to).store, id)
    ensures var at := system.At(worker);
            && Holds(system, worker, id)
            && system.Writes(worker, TransitionCommand(system.store, at.id, at.held, next), to)
                     .store.commands[id].state == next
  {
    var at := system.At(worker);
    HolderFits(system, worker);
    HeldMoves(system.store, at.id, at.held, next);
  }

  lemma RecordChanges(system: System, worker: WorkerId, projection: ProjectionId, to: Worker, id: CommandId)
    requires Invariant(system) && !system.At(worker).Idle?
    requires system.At(worker).held.envelope.projection == Some(projection)
    requires var at := system.At(worker);
             Changes(system.store,
                     system.Writes(worker, RecordDispatch(system.store, projection, at.id, at.held), to).store, id)
    ensures var at := system.At(worker);
            && Holds(system, worker, id) && Owns(system.store, id)
            && system.Writes(worker, RecordDispatch(system.store, projection, at.id, at.held), to)
                     .store.commands[id].state == Dispatched
  {
    var at := system.At(worker);
    HolderFits(system, worker);
    HeldMoves(system.store, at.id, at.held, Dispatched);
  }

  lemma ReplacementChanges(store: Store, projection: ProjectionId, revision: nat, taker: CommandId,
                           prior: Option<(CommandId, Aggregate)>, expected: nat, id: CommandId)
    requires ReplaceDesired(store, projection, revision, taker, prior, expected).Some?
    requires Changes(store, ReplaceDesired(store, projection, revision, taker, prior, expected).value, id)
    ensures id in store.commands && PreDispatch(store.commands[id].state) && id != taker
    ensures projection in store.slots && store.slots[projection].owner == id && !store.slots[projection].dispatched
    ensures ReplaceDesired(store, projection, revision, taker, prior, expected).value.commands[id].state == Cancelled
  {
  }

  // ----- every change has its cause ----------------------------------------------------------

  lemma DecisionHasCause(system: System, worker: WorkerId, verdict: Verdict, id: CommandId)
    requires Invariant(system) && system.At(worker).Deciding?
    requires Changes(system.store, Judge(system, worker, verdict).store, id)
    ensures Causes(system, Decide(worker, verdict), id, Judge(system, worker, verdict).store.commands[id].state)
  {
    var at := system.At(worker);
    match verdict
    case Deny => WriteChanges(system, worker, Rejected, Idle, id);
    case Expire => WriteChanges(system, worker, TimedOut, Idle, id);
    case Allow =>
      WriteChanges(system, worker, Validated,
                   if at.held.envelope.DryRun() then Idle else Registering(at.id, at.held.To(Validated), 0), id);
  }

  lemma ReplyHasCause(system: System, worker: WorkerId, reply: Reply, id: CommandId)
    requires Invariant(system) && system.At(worker).Answered?
    requires Changes(system.store, ReplyStep(system, worker, reply).store, id)
    ensures Causes(system, Move.Reply(worker, reply), id, ReplyStep(system, worker, reply).store.commands[id].state)
  {
    var at := system.At(worker);
    match reply
    case Acknowledge =>
      WriteChanges(system, worker, Acknowledged, Confirming(at.id, at.held.To(Acknowledged)), id);
    case Fail => WriteChanges(system, worker, Failed, Idle, id);
    case Late => WriteChanges(system, worker, TimedOut, Idle, id);
  }

  lemma SettlementHasCause(system: System, worker: WorkerId, confirmation: Confirmation, id: CommandId)
    requires Invariant(system) && system.At(worker).Confirming?
    requires Changes(system.store, SettleStep(system, worker, confirmation).store, id)
    ensures Causes(system, Settle(worker, confirmation), id,
                   SettleStep(system, worker, confirmation).store.commands[id].state)
  {
    match confirmation
    case Confirm => WriteChanges(system, worker, Confirmed, Idle, id);
    case Refute => WriteChanges(system, worker, Failed, Idle, id);
    case Overdue => WriteChanges(system, worker, TimedOut, Idle, id);
    case StillPending =>
  }

  lemma RegistrationHasCause(system: System, worker: WorkerId, late: bool, id: CommandId)
    requires Invariant(system)
    requires Changes(system.store, Apply(system, Register(worker, late)).store, id)
    ensures Causes(system, Register(worker, late), id,
                   Apply(system, Register(worker, late)).store.commands[id].state)
  {
    var at := system.At(worker);
    if late && at.Registering? && at.attempts == 0 {
      WriteChanges(system, worker, TimedOut, Idle, id);
    } else if at.Replacing? && at.held.envelope.projection.Some? {
      var projection := at.held.envelope.projection.value;
      ReplacementChanges(system.store, projection, at.revision, at.id, at.prior, at.expected, id);
    }
  }

  lemma AdmissionHasCause(system: System, worker: WorkerId, id: CommandId)
    requires Invariant(system)
    requires Changes(system.store, AdmitStep(system, worker).store, id)
    ensures Causes(system, Admit(worker), id, AdmitStep(system, worker).store.commands[id].state)
  {
    HolderFits(system, worker);
    match system.At(worker)
    case Admitting(held, command) => WriteChanges(system, worker, Dispatched, Won(held, command.To(Dispatched)), id);
    case Recording(held, command) =>
      RecordChanges(system, worker, command.envelope.projection.value, Won(held, command.To(Dispatched)), id);
    case _ =>
  }

  lemma ApprovalHasCause(system: System, worker: WorkerId, bound: bool, id: CommandId)
    requires Invariant(system)
    requires Changes(system.store, AuthorizeStep(system, worker, bound).store, id)
    ensures Causes(system, Authorize(worker, bound), id, AuthorizeStep(system, worker, bound).store.commands[id].state)
  {
    match system.At(worker)
    case Consuming(held, command, _) =>
      RecordChanges(system, worker, command.envelope.projection.value, Won(held, command.To(Dispatched)), id);
    case _ =>
  }

  lemma WithdrawalHasCause(system: System, worker: WorkerId, id: CommandId)
    requires Invariant(system)
    requires Changes(system.store, Apply(system, Withdraw(worker)).store, id)
    ensures Causes(system, Withdraw(worker), id, Apply(system, Withdraw(worker)).store.commands[id].state)
  {
    if system.At(worker).Cancelling? {
      WriteChanges(system, worker, Cancelled, Idle, id);
    }
  }

  /** Whatever a move does to a command, it is one of the moves that may. */
  lemma ChangeHasCause(system: System, move: Move, id: CommandId)
    requires Invariant(system) && Changes(system.store, Apply(system, move).store, id)
    ensures Causes(system, move, id, Apply(system, move).store.commands[id].state)
  {
    match move
    case Decide(worker, verdict) => DecisionHasCause(system, worker, verdict, id);
    case Register(worker, late) => RegistrationHasCause(system, worker, late, id);
    case Admit(worker) => AdmissionHasCause(system, worker, id);
    case Authorize(worker, bound) => ApprovalHasCause(system, worker, bound, id);
    case Reply(worker, reply) => ReplyHasCause(system, worker, reply, id);
    case Settle(worker, confirmation) => SettlementHasCause(system, worker, confirmation, id);
    case Withdraw(worker) => WithdrawalHasCause(system, worker, id);
    case _ =>
  }

  /** The move at `i` of a run brought the command to this state. */
  predicate CausedAt(moves: seq<Move>, i: nat, id: CommandId, state: CommandState)
    requires i < |moves|
  {
    Causes(Run(START, moves[..i]), moves[i], id, state)
  }

  /** The length of a command's trail. */
  function Entries(store: Store, id: CommandId): nat {
    if id in store.audits then |store.audits[id]| else 0
  }

  lemma OneWriteAddsOne(before: Store, after: Store, id: CommandId)
    requires OneWrite(before, after)
    ensures Entries(after, id) <= Entries(before, id) + 1
  {
  }

  lemma MoveAddsOne(system: System, move: Move, id: CommandId)
    requires Invariant(system)
    ensures Entries(system.store, id) <= Entries(Apply(system, move).store, id) <= Entries(system.store, id) + 1
  {
    MoveGrows(system, move);
    if !move.Create? && !move.Project? {
      MoveIsOneWrite(system, move);
      OneWriteAddsOne(system.store, Apply(system, move).store, id);
    }
  }

  /** A longer trail ends in a state that the command was not in before. */
  lemma LongerTrailChanges(before: Store, after: Store, id: CommandId)
    requires StoreFits(before) && StoreFits(after) && Grows(before, after)
    requires Entries(after, id) == Entries(before, id) + 1
    ensures Changes(before, after, id) && after.commands[id].state == after.audits[id][Entries(before, id)].to
  {
    assert CommandFits(after, id);
    if id in before.commands {
      assert CommandFits(before, id);
      assert Linked(after.audits[id], Entries(before, id));
    }
  }

  /** What a run has recorded about a command. */
  function Trail(moves: seq<Move>, id: CommandId): seq<AuditEntry> {
    var audits := Run(START, moves).store.audits;
    if id in audits then audits[id] else []
  }

  lemma TrailGrows(moves: seq<Move>, id: CommandId)
    requires moves != []
    ensures var earlier := Trail(moves[..|moves| - 1], id);
            earlier <= Trail(moves, id) && |Trail(moves, id)| <= |earlier| + 1
  {
    var before, move := Run(START, moves[..|moves| - 1]), moves[|moves| - 1];
    RunKeepsInvariant(moves[..|moves| - 1]);
    MoveGrows(before, move);
    MoveAddsOne(before, move, id);
  }

  /** The move at `i` made the entry `k` of the trail. */
  predicate EntryMadeAt(moves: seq<Move>, i: nat, id: CommandId, k: nat, state: CommandState)
    requires i < |moves|
  {
    |Trail(moves[..i], id)| == k && CausedAt(moves, i, id, state)
  }

  lemma MadeEarlier(moves: seq<Move>, length: nat, i: nat, id: CommandId, k: nat, state: CommandState)
    requires i < length <= |moves| && EntryMadeAt(moves[..length], i, id, k, state)
    ensures EntryMadeAt(moves, i, id, k, state)
  {
    assert moves[..length][..i] == moves[..i];
  }

  lemma LastMoveMakesEntry(moves: seq<Move>, id: CommandId)
    requires moves != [] && |Trail(moves, id)| == |Trail(moves[..|moves| - 1], id)| + 1
    ensures var k := |Trail(moves, id)| - 1;
            EntryMadeAt(moves, |moves| - 1, id, k, Trail(moves, id)[k].to)
  {
    var before, move := Run(START, moves[..|moves| - 1]), moves[|moves| - 1];
    RunKeepsInvariant(moves[..|moves| - 1]);
    RunKeepsInvariant(moves);
    MoveGrows(before, move);
    LongerTrailChanges(before.store, Run(START, moves).store, id);
    ChangeHasCause(before, move, id);
  }

  /** Every entry of every trail was made by one move that may cause it. */
  lemma {:induction false} EntryHasCause(moves: seq<Move>, id: CommandId, k: nat, state: CommandState)
    returns (i: nat)
    requires k < |Trail(moves, id)| && Trail(moves, id)[k].to == state
    ensures i < |moves| && EntryMadeAt(moves, i, id, k, state)
    decreases |moves|
  {
    TrailOfMoves(moves, id);
    var last := |moves| - 1;
    TrailGrows(moves, id);
    if k < |Trail(moves[..last], id)| {
      i := EntryHasCause(moves[..last], id, k, state);
      MadeEarlier(moves, last, i, id, k, state);
    } else {
      i := last;
      LastMoveMakesEntry(moves, id);
    }
  }

  lemma TrailOfMoves(moves: seq<Move>, id: CommandId)
    ensures moves == [] ==> Trail(moves, id) == []
  {
  }

  /**
   * In every run a command is in its state because of one move: confirmed only
   * by a worker that saw it confirmed, rejected only by a denial, failed only
   * by the dispatcher or an observation against it, and so on.
   */
  lemma StateHasCause(moves: seq<Move>, id: CommandId)
    requires id in Run(START, moves).store.commands
    ensures exists i :: 0 <= i < |moves| && CausedAt(moves, i, id, Run(START, moves).store.commands[id].state)
  {
    RunKeepsInvariant(moves);
    assert CommandFits(Run(START, moves).store, id);
    var k := |Trail(moves, id)| - 1;
    var i := EntryHasCause(moves, id, k, Trail(moves, id)[k].to);
    assert CausedAt(moves, i, id, Run(START, moves).store.commands[id].state);
  }

  /** A longer trail belongs to a later moment. */
  lemma {:induction false} TrailTellsTime(moves: seq<Move>, i: nat, j: nat, id: CommandId)
    requires i <= |moves| && j <= |moves|
    ensures j <= i ==> |Trail(moves[..j], id)| <= |Trail(moves[..i], id)|
    decreases i
  {
    if j < i {
      TrailGrows(moves[..i], id);
      assert moves[..i][..i - 1] == moves[..i - 1];
      TrailTellsTime(moves, i - 1, j, id);
    }
  }

  /** The entries of a trail were made one after the other. */
  lemma EntriesInOrder(moves: seq<Move>, id: CommandId, k: nat, first: CommandState, second: CommandState)
    returns (i: nat, j: nat)
    requires 0 < k < |Trail(moves, id)|
    requires Trail(moves, id)[k - 1].to == first && Trail(moves, id)[k].to == second
    ensures i < j < |moves| && CausedAt(moves, i, id, first) && CausedAt(moves, j, id, second)
  {
    i := EntryHasCause(moves, id, k - 1, first);
    j := EntryHasCause(moves, id, k, second);
    TrailTellsTime(moves, i, j, id);
  }

  lemma DispatchFollowsValidation(audit: seq<AuditEntry>) returns (k: nat)
    requires AuditChain(audit) && EverDispatched(audit)
    ensures 0 < k < |audit| && audit[k - 1].to == Validated && audit[k].to == Dispatched
  {
    k :| 0 <= k < |audit| && audit[k].to == Dispatched;
    assert Linked(audit, k);
  }

  /** Whatever is handed to the dispatcher was allowed first, and dispatched by a worker that owned its slot. */
  lemma CallWasAllowed(moves: seq<Move>, call: nat)
    requires call < |Run(START, moves).calls|
    ensures var id := Run(START, moves).calls[call];
            exists i, j :: 0 <= i < j < |moves|
                           && CausedAt(moves, i, id, Validated) && CausedAt(moves, j, id, Dispatched)
  {
    var store, id := Run(START, moves).store, Run(START, moves).calls[call];
    DispatcherCalledAtMostOnce(moves, call, call);
    RunKeepsInvariant(moves);
    assert CommandFits(store, id);
    var k := DispatchFollowsValidation(store.audits[id]);
    var i, j := EntriesInOrder(moves, id, k, Validated, Dispatched);
  }

  // ----- ends are final ------------------------------------------------------------------------

  /** The trail of a command that has ended gets no further entry. */
  lemma EndedTrailIsWhole(before: Store, after: Store, id: CommandId)
    requires StoreFits(before) && StoreFits(after) && Grows(before, after)
    requires id in before.commands && before.commands[id].state.Terminal()
    ensures id in after.commands && after.commands[id] == before.commands[id]
  {
    assert CommandFits(before, id) && CommandFits(after, id);
    assert Entries(after, id) > Entries(before, id) ==> Linked(after.audits[id], Entries(before, id));
  }

  lemma LastMoveKeepsEnd(moves: seq<Move>, id: CommandId)
    requires moves != [] && id in Run(START, moves[..|moves| - 1]).store.commands
    requires Run(START, moves[..|moves| - 1]).store.commands[id].state.Terminal()
    ensures id in Run(START, moves).store.commands
            && Run(START, moves).store.commands[id] == Run(START, moves[..|moves| - 1]).store.commands[id]
  {
    var before, move := Run(START, moves[..|moves| - 1]), moves[|moves| - 1];
    RunKeepsInvariant(moves[..|moves| - 1]);
    RunKeepsInvariant(moves);
    MoveGrows(before, move);
    EndedTrailIsWhole(before.store, Run(START, moves).store, id);
  }

  /** Rejected, confirmed, failed, timed out and cancelled commands stay so, whatever anybody does. */
  lemma {:induction false} EndsAreFinal(moves: seq<Move>, i: nat, id: CommandId)
    requires i <= |moves| && id in Run(START, moves[..i]).store.commands
    requires Run(START, moves[..i]).store.commands[id].state.Terminal()
    ensures id in Run(START, moves).store.commands
            && Run(START, moves).store.commands[id] == Run(START, moves[..i]).store.commands[id]
    decreases |moves|
  {
    if i == |moves| {
      assert moves[..i] == moves;
    } else {
      assert moves[..|moves| - 1][..i] == moves[..i];
      EndsAreFinal(moves[..|moves| - 1], i, id);
      LastMoveKeepsEnd(moves, id);
    }
  }
}
