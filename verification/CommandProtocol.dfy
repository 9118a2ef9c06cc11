/**
 * Workers that execute, recover, cancel and approve commands over one store.
 * Each step is one await of a worker; steps of all workers interleave freely
 * and a worker may crash between any two, losing everything it held.
 */
module CommandProtocol {
  import opened Wrappers
  import opened Domain
  import opened CommandStore

  const REGISTRATION_ATTEMPTS: nat := 4

  type WorkerId = nat

  /** Where a worker stands, with the copy of the command it holds. */
  datatype Worker =
    | Idle
    | Deciding(id: CommandId, held: Aggregate)
    | Registering(id: CommandId, held: Aggregate, attempts: nat)
    | SlotRead(id: CommandId, held: Aggregate, attempts: nat, expected: nat)
    | PriorRead(id: CommandId, held: Aggregate, attempts: nat, expected: nat, slot: Option<Slot>)
    | Replacing(id: CommandId, held: Aggregate, attempts: nat, expected: nat, revision: nat,
                prior: Option<(CommandId, Aggregate)>)
    | Admitting(id: CommandId, held: Aggregate)
    | Recording(id: CommandId, held: Aggregate)
    | Authorizing(id: CommandId, held: Aggregate)
    | Consuming(id: CommandId, held: Aggregate, revision: nat)
    | Won(id: CommandId, held: Aggregate)
    | Answered(id: CommandId, held: Aggregate)
    | Confirming(id: CommandId, held: Aggregate)
    | Cancelling(id: CommandId, held: Aggregate)

  /** `calls` lists the commands handed to the physical dispatcher, in order. */
  datatype System = System(store: Store, workers: map<WorkerId, Worker>, calls: seq<CommandId>)
  {
    function At(worker: WorkerId): Worker {
      if worker in workers then workers[worker] else Idle
    }

    function Goes(worker: WorkerId, to: Worker): System {
      this.(workers := workers[worker := to])
    }

    /** A store operation that succeeded leads on; one that failed ends what the worker was doing. */
    function Writes(worker: WorkerId, written: Option<Store>, to: Worker): System {
      match written
      case Some(after) => Goes(worker, to).(store := after)
      case None => Goes(worker, Idle)
    }
  }

  datatype Verdict = Allow | Deny | Expire

  datatype Reply = Acknowledge | Fail | Late

  datatype Confirmation = Confirm | Refute | Overdue | StillPending

  /** One await of one worker, with what it learns from outside. */
  datatype Move =
    | Create(worker: WorkerId, id: CommandId, envelope: Envelope)
    | Recover(worker: WorkerId, id: CommandId)
    | Cancel(worker: WorkerId, id: CommandId)
    | Approve(worker: WorkerId, id: CommandId)
    | Decide(worker: WorkerId, verdict: Verdict)
    | Register(worker: WorkerId, late: bool)
    | Admit(worker: WorkerId)
    | Authorize(worker: WorkerId, bound: bool)
    | Dispatch(worker: WorkerId)
    | Reply(worker: WorkerId, reply: Reply)
    | Settle(worker: WorkerId, confirmation: Confirmation)
    | Withdraw(worker: WorkerId)
    | Crash(worker: WorkerId)
    | Project(projection: ProjectionId, revision: nat)

  /** A free worker takes up a command as its durable state demands. */
  function Load(system: System, worker: WorkerId, id: CommandId): System {
    if !system.At(worker).Idle? || id !in system.store.commands then system
    else
      var held := system.store.commands[id];
      if held.Terminal() then system
      else if PreDispatch(held.state) then system.Goes(worker, Deciding(id, held))
      else system.Goes(worker, Confirming(id, held))
  }

  /** Policy and deadline decide a received or validated command; an allowed dry run ends here. */
  function Judge(system: System, worker: WorkerId, verdict: Verdict): System
    requires system.At(worker).Deciding?
  {
    var at := system.At(worker);
    match verdict
    case Deny => system.Writes(worker, TransitionCommand(system.store, at.id, at.held, Rejected), Idle)
    case Expire => system.Writes(worker, TransitionCommand(system.store, at.id, at.held, TimedOut), Idle)
    case Allow =>
      if at.held.state.Validated? then system.Goes(worker, Registering(at.id, at.held, 0))
      else
        var validated := at.held.To(Validated);
        system.Writes(worker, TransitionCommand(system.store, at.id, at.held, Validated),
                      if at.held.envelope.DryRun() then Idle else Registering(at.id, validated, 0))
  }

  /** Registration reads projection, slot and prior owner one after the other, then writes all at once. */
  function RegisterStep(system: System, worker: WorkerId): System {
    var store := system.store;
    match system.At(worker)
    case Registering(id, held, attempts) =>
      if held.envelope.projection.None? then system.Goes(worker, Admitting(id, held))
      else if held.envelope.projection.value !in store.projections then system.Goes(worker, Idle)
      else system.Goes(worker, SlotRead(id, held, attempts, store.projections[held.envelope.projection.value]))
    case SlotRead(id, held, attempts, expected) =>
      var projection := held.envelope.projection;
      var slot :=
        if projection.Some? && projection.value in store.slots then Some(store.slots[projection.value]) else None;
      if slot.Some? && slot.value.owner == id then system.Goes(worker, Admitting(id, held))
      else system.Goes(worker, PriorRead(id, held, attempts, expected, slot))
    case PriorRead(id, held, attempts, expected, slot) =>
      if slot.None? then system.Goes(worker, Replacing(id, held, attempts, expected, 1, None))
      else if slot.value.dispatched then
        system.Goes(worker, Replacing(id, held, attempts, expected, slot.value.revision + 1, None))
      else if slot.value.owner !in store.commands
              || !store.commands[slot.value.owner].state.AllowsTransitionTo(Cancelled)
      then Again(system, worker, id, held, attempts)
      else
        system.Goes(worker, Replacing(id, held, attempts, expected, slot.value.revision + 1,
                                      Some((slot.value.owner, store.commands[slot.value.owner]))))
    case Replacing(id, held, attempts, expected, revision, prior) =>
      if held.envelope.projection.None? then system
      else
        (match ReplaceDesired(store, held.envelope.projection.value, revision, id, prior, expected)
         case Some(after) => system.Goes(worker, Admitting(id, held)).(store := after)
         case None => Again(system, worker, id, held, attempts))
    case _ => system
  }

  function Again(system: System, worker: WorkerId, id: CommandId, held: Aggregate, attempts: nat): System {
    system.Goes(worker, if attempts + 1 < REGISTRATION_ATTEMPTS then Registering(id, held, attempts + 1) else Idle)
  }

  /** The dispatch boundary: only the owner of the slot may record its dispatch, and unlocks wait for approval. */
  function AdmitStep(system: System, worker: WorkerId): System {
    var store := system.store;
    match system.At(worker)
    case Admitting(id, held) =>
      (match held.envelope.projection
       case None => system.Writes(worker, TransitionCommand(store, id, held, Dispatched), Won(id, held.To(Dispatched)))
       case Some(projection) =>
         if projection !in store.slots || store.slots[projection].owner != id || held.envelope.Unlocks()
         then system.Goes(worker, Idle)
         else system.Goes(worker, Recording(id, held)))
    case Recording(id, held) =>
      if held.envelope.projection.None? then system
      else
        system.Writes(worker, RecordDispatch(store, held.envelope.projection.value, id, held),
                      Won(id, held.To(Dispatched)))
    case _ => system
  }

  /** An approved unlock binds the slot's revision and is checked against it when its dispatch is recorded. */
  function AuthorizeStep(system: System, worker: WorkerId, bound: bool): System {
    var store := system.store;
    match system.At(worker)
    case Authorizing(id, held) =>
      var projection := held.envelope.projection;
      if projection.None? || projection.value !in store.slots || store.slots[projection.value].owner != id
      then system.Goes(worker, Idle)
      else system.Goes(worker, Consuming(id, held, store.slots[projection.value].revision))
    case Consuming(id, held, revision) =>
      var projection := held.envelope.projection;
      if projection.None? || !bound || id !in store.commands || !store.commands[id].state.Validated?
         || projection.value !in store.slots || store.slots[projection.value].revision != revision
      then system.Goes(worker, Idle)
      else system.Writes(worker, RecordDispatch(store, projection.value, id, held), Won(id, held.To(Dispatched)))
    case _ => system
  }

  function ReplyStep(system: System, worker: WorkerId, reply: Reply): System
    requires system.At(worker).Answered?
  {
    var at := system.At(worker);
    match reply
    case Acknowledge =>
      system.Writes(worker, TransitionCommand(system.store, at.id, at.held, Acknowledged),
                    Confirming(at.id, at.held.To(Acknowledged)))
    case Fail => system.Writes(worker, TransitionCommand(system.store, at.id, at.held, Failed), Idle)
    case Late => system.Writes(worker, TransitionCommand(system.store, at.id, at.held, TimedOut), Idle)
  }

  function SettleStep(system: System, worker: WorkerId, confirmation: Confirmation): System
    requires system.At(worker).Confirming?
  {
    var at := system.At(worker);
    match confirmation
    case Confirm => system.Writes(worker, TransitionCommand(system.store, at.id, at.held, Confirmed), Idle)
    case Refute => system.Writes(worker, TransitionCommand(system.store, at.id, at.held, Failed), Idle)
    case Overdue => system.Writes(worker, TransitionCommand(system.store, at.id, at.held, TimedOut), Idle)
    case StillPending => system.Goes(worker, Idle)
  }

  function Apply(system: System, move: Move): System {
    var store := system.store;
    match move
    case Create(worker, id, envelope) =>
      var (after, creation) := CreateCommand(store, id, envelope);
      if !system.At(worker).Idle? || !creation.Created? then system
      else system.Goes(worker, Deciding(id, Aggregate(envelope, Received, 0))).(store := after)
    case Recover(worker, id) => Load(system, worker, id)
    case Cancel(worker, id) =>
      if !system.At(worker).Idle? || id !in store.commands || store.commands[id].Terminal()
         || !PreDispatch(store.commands[id].state)
      then system
      else system.Goes(worker, Cancelling(id, store.commands[id]))
    case Approve(worker, id) =>
      if !system.At(worker).Idle? || id !in store.commands || !store.commands[id].state.Validated?
         || !store.commands[id].envelope.Unlocks()
      then system
      else system.Goes(worker, Authorizing(id, store.commands[id]))
    case Decide(worker, verdict) => if system.At(worker).Deciding? then Judge(system, worker, verdict) else system
    case Register(worker, late) =>
      if late && system.At(worker).Registering? && system.At(worker).attempts == 0 then
        var at := system.At(worker);
        system.Writes(worker, TransitionCommand(store, at.id, at.held, TimedOut), Idle)
      else RegisterStep(system, worker)
    case Admit(worker) => AdmitStep(system, worker)
    case Authorize(worker, bound) => AuthorizeStep(system, worker, bound)
    case Dispatch(worker) =>
      if !system.At(worker).Won? then system
      else
        var at := system.At(worker);
        system.Goes(worker, Answered(at.id, at.held)).(calls := system.calls + [at.id])
    case Reply(worker, reply) => if system.At(worker).Answered? then ReplyStep(system, worker, reply) else system
    case Settle(worker, confirmation) =>
      if system.At(worker).Confirming? then SettleStep(system, worker, confirmation) else system
    case Withdraw(worker) =>
      if !system.At(worker).Cancelling? then system
      else
        var at := system.At(worker);
        system.Writes(worker, TransitionCommand(store, at.id, at.held, Cancelled), Idle)
    case Crash(worker) => system.Goes(worker, Idle)
    case Project(projection, revision) =>
      system.(store := store.(projections := store.projections[projection := revision]))
  }

  function Run(system: System, moves: seq<Move>): System
    decreases |moves|
  {
    if moves == [] then system
    else
      var last := |moves| - 1;
      Apply(Run(system, moves[..last]), moves[last])
  }

  const START := System(EMPTY, map[], [])

  // ----- the invariant ----------------------------------------------------------------

  /** The copy a worker holds is a state the command has been in. */
  ghost predicate HeldFits(store: Store, id: CommandId, held: Aggregate) {
    && id in store.commands && id in store.audits && held.envelope == store.commands[id].envelope
    && held.version < |store.audits[id]| && store.audits[id][held.version].to == held.state
  }

  /** Workers past the decision hold commands that really are to be dispatched. */
  ghost predicate WorkerFits(store: Store, worker: Worker) {
    match worker
    case Idle => true
    case Deciding(id, held) => HeldFits(store, id, held) && (held.state.Validated? ==> !held.envelope.DryRun())
    case Registering(id, held, _) => HeldFits(store, id, held) && !held.envelope.DryRun()
    case SlotRead(id, held, _, _) => HeldFits(store, id, held) && !held.envelope.DryRun()
    case PriorRead(id, held, _, _, _) => HeldFits(store, id, held) && !held.envelope.DryRun()
    case Replacing(id, held, _, _, _, _) => HeldFits(store, id, held) && !held.envelope.DryRun()
    case Admitting(id, held) => HeldFits(store, id, held) && !held.envelope.DryRun()
    case Recording(id, held) => HeldFits(store, id, held) && !held.envelope.Unlocks()
    case Authorizing(id, held) => HeldFits(store, id, held)
    case Consuming(id, held, _) => HeldFits(store, id, held)
    case Won(id, held) => HeldFits(store, id, held) && WasDispatched(store, id)
    case Answered(id, held) => HeldFits(store, id, held)
    case Confirming(id, held) => HeldFits(store, id, held)
    case Cancelling(id, held) => HeldFits(store, id, held) && PreDispatch(held.state)
  }

  ghost predicate WorkersFit(system: System) {
    forall worker :: worker in system.workers ==> WorkerFits(system.store, system.workers[worker])
  }

  predicate WonBy(system: System, worker: WorkerId, id: CommandId) {
    worker in system.workers && system.workers[worker].Won? && system.workers[worker].id == id
  }

  /** Every dispatch that was won belongs to one worker, and is called by it at most once. */
  ghost predicate CallsFit(system: System) {
    && (forall first, second, id :: WonBy(system, first, id) && WonBy(system, second, id) ==> first == second)
    && (forall worker, id :: WonBy(system, worker, id) ==> id !in system.calls)
    && (forall i, j :: 0 <= i < j < |system.calls| ==> system.calls[i] != system.calls[j])
    && (forall i :: 0 <= i < |system.calls| ==> WasDispatched(system.store, system.calls[i]))
  }

  ghost predicate Invariant(system: System) {
    StoreFits(system.store) && WorkersFit(system) && CallsFit(system)
  }

  // ----- every step keeps it --------------------------------------------------------------

  lemma HeldStays(before: Store, after: Store, id: CommandId, held: Aggregate)
    requires Grows(before, after) && HeldFits(before, id, held)
    ensures HeldFits(after, id, held)
  {
  }

  lemma DispatchStays(before: Store, after: Store, id: CommandId)
    requires Grows(before, after) && WasDispatched(before, id)
    ensures WasDispatched(after, id)
  {
    var k :| 0 <= k < |before.audits[id]| && before.audits[id][k].to == Dispatched;
    assert after.audits[id][k].to == Dispatched;
  }

  lemma WorkerStays(before: Store, after: Store, worker: Worker)
    requires Grows(before, after) && WorkerFits(before, worker)
    ensures WorkerFits(after, worker)
  {
    if !worker.Idle? {
      HeldStays(before, after, worker.id, worker.held);
      if worker.Won? {
        DispatchStays(before, after, worker.id);
      }
    }
  }

  /** A worker that goes on without having won a dispatch. */
  lemma GoesKeeps(system: System, worker: WorkerId, to: Worker, after: Store)
    requires Invariant(system) && StoreFits(after) && Grows(system.store, after)
    requires WorkerFits(after, to) && !to.Won?
    ensures Invariant(system.Goes(worker, to).(store := after))
  {
    var next := system.Goes(worker, to).(store := after);
    forall other | other in next.workers
      ensures WorkerFits(after, next.workers[other])
    {
      if other != worker {
        WorkerStays(system.store, after, system.workers[other]);
      }
    }
    forall i | 0 <= i < |next.calls|
      ensures WasDispatched(after, next.calls[i])
    {
      DispatchStays(system.store, after, next.calls[i]);
    }
    assert forall other, id :: WonBy(next, other, id) ==> WonBy(system, other, id);
  }

  lemma StoreGrowsItself(store: Store)
    ensures Grows(store, store)
  {
  }

  lemma MovesKeeps(system: System, worker: WorkerId, to: Worker)
    requires Invariant(system) && WorkerFits(system.store, to) && !to.Won?
    ensures Invariant(system.Goes(worker, to))
  {
    StoreGrowsItself(system.store);
    GoesKeeps(system, worker, to, system.store);
  }

  /** The worker whose write dispatched the command is the only one that has won it, and has not called yet. */
  lemma WinKeeps(system: System, worker: WorkerId, id: CommandId, held: Aggregate, after: Store)
    requires Invariant(system) && StoreFits(after) && Grows(system.store, after)
    requires id in system.store.commands && !WasDispatched(system.store, id)
    requires HeldFits(after, id, held) && WasDispatched(after, id)
    ensures Invariant(system.Goes(worker, Won(id, held)).(store := after))
  {
    var next := system.Goes(worker, Won(id, held)).(store := after);
    forall other | other in next.workers
      ensures WorkerFits(after, next.workers[other])
    {
      if other != worker {
        WorkerStays(system.store, after, system.workers[other]);
      }
    }
    forall i | 0 <= i < |next.calls|
      ensures WasDispatched(after, next.calls[i])
    {
      DispatchStays(system.store, after, next.calls[i]);
    }
    forall other, won | WonBy(next, other, won)
      ensures (other == worker && won == id) || (WonBy(system, other, won) && won != id)
    {
      if other != worker {
        assert WorkerFits(system.store, system.workers[other]);
      }
    }
  }

  /** A successful transition leads from the held copy to the worker's next copy. */
  lemma HeldMoves(store: Store, id: CommandId, held: Aggregate, next: CommandState)
    requires StoreFits(store) && HeldFits(store, id, held) && TransitionCommand(store, id, held, next).Some?
    ensures held == store.commands[id]
    ensures HeldFits(TransitionCommand(store, id, held, next).value, id, held.To(next))
  {
    assert CommandFits(store, id);
  }

  /** A transition that does not dispatch. */
  lemma TransitionStepKeeps(system: System, worker: WorkerId, id: CommandId, held: Aggregate, next: CommandState,
                            to: Worker)
    requires Invariant(system) && HeldFits(system.store, id, held) && next != Dispatched
    requires || to.Idle?
             || (to.Confirming? && to.id == id && to.held == held.To(next))
             || (to.Registering? && to.id == id && to.held == held.To(next) && !held.envelope.DryRun())
    ensures Invariant(system.Writes(worker, TransitionCommand(system.store, id, held, next), to))
  {
    var written := TransitionCommand(system.store, id, held, next);
    if written.Some? {
      TransitionKeeps(system.store, id, held, next);
      TransitionGrows(system.store, id, held, next);
      HeldMoves(system.store, id, held, next);
      GoesKeeps(system, worker, to, written.value);
    } else {
      MovesKeeps(system, worker, Idle);
    }
  }

  lemma TransitionDispatches(store: Store, id: CommandId, held: Aggregate)
    requires StoreFits(store) && HeldFits(store, id, held) && !held.envelope.DryRun()
    requires TransitionCommand(store, id, held, Dispatched).Some?
    ensures !WasDispatched(store, id) && WasDispatched(TransitionCommand(store, id, held, Dispatched).value, id)
  {
    assert CommandFits(store, id);
    StateShowsDispatch(store.audits[id]);
    TransitionMoves(store, id, held, Dispatched);
  }

  lemma TransitionWins(system: System, worker: WorkerId, id: CommandId, held: Aggregate)
    requires Invariant(system) && HeldFits(system.store, id, held)
    requires !held.envelope.DryRun() && held.envelope.projection.None?
    ensures Invariant(system.Writes(worker, TransitionCommand(system.store, id, held, Dispatched),
                                    Won(id, held.To(Dispatched))))
  {
    var written := TransitionCommand(system.store, id, held, Dispatched);
    if written.Some? {
      TransitionDispatches(system.store, id, held);
      TransitionKeeps(system.store, id, held, Dispatched);
      TransitionGrows(system.store, id, held, Dispatched);
      HeldMoves(system.store, id, held, Dispatched);
      WinKeeps(system, worker, id, held.To(Dispatched), written.value);
    } else {
      MovesKeeps(system, worker, Idle);
    }
  }

  lemma RecordDispatches(store: Store, projection: ProjectionId, id: CommandId, held: Aggregate)
    requires StoreFits(store) && HeldFits(store, id, held) && RecordDispatch(store, projection, id, held).Some?
    ensures var after := RecordDispatch(store, projection, id, held).value;
            && id in store.commands && !WasDispatched(store, id)
            && WasDispatched(after, id) && HeldFits(after, id, held.To(Dispatched))
  {
    var after := RecordDispatch(store, projection, id, held).value;
    assert CommandFits(store, id) && ProjectionFits(store, projection);
    StateShowsDispatch(store.audits[id]);
    TransitionMoves(store, id, held, Dispatched);
    assert after.audits == TransitionCommand(store, id, held, Dispatched).value.audits;
  }

  lemma RecordWins(system: System, worker: WorkerId, projection: ProjectionId, id: CommandId, held: Aggregate)
    requires Invariant(system) && HeldFits(system.store, id, held)
    ensures Invariant(system.Writes(worker, RecordDispatch(system.store, projection, id, held),
                                    Won(id, held.To(Dispatched))))
  {
    var written := RecordDispatch(system.store, projection, id, held);
    if written.Some? {
      RecordDispatches(system.store, projection, id, held);
      RecordKeeps(system.store, projection, id, held);
      RecordGrows(system.store, projection, id, held);
      WinKeeps(system, worker, id, held.To(Dispatched), written.value);
    } else {
      MovesKeeps(system, worker, Idle);
    }
  }

  lemma HolderFits(system: System, worker: WorkerId)
    requires Invariant(system)
    ensures WorkerFits(system.store, system.At(worker))
  {
  }

  lemma DesiredKeeps(store: Store, projection: ProjectionId, revision: nat, id: CommandId,
                     prior: Option<(CommandId, Aggregate)>, expected: nat)
    requires StoreFits(store) && ReplaceDesired(store, projection, revision, id, prior, expected).Some?
    requires !store.commands[id].envelope.DryRun()
    ensures var after := ReplaceDesired(store, projection, revision, id, prior, expected).value;
            StoreFits(after) && Grows(store, after)
  {
    ReplaceKeeps(store, projection, revision, id, prior);
    ReplaceGrows(store, projection, revision, id, prior);
    var replaced := ReplaceSlot(store, projection, revision, id, prior).value;
    ProjectionRevisionKeeps(replaced, projection, expected + 1);
    ProjectionRevisionGrows(store, replaced, projection, expected + 1);
  }

  lemma RegisterKeepsInvariant(system: System, worker: WorkerId)
    requires Invariant(system)
    ensures Invariant(RegisterStep(system, worker))
  {
    HolderFits(system, worker);
    var at := system.At(worker);
    if at.Replacing? {
      ReplacingKeepsInvariant(system, worker);
    } else if at.Registering? || at.SlotRead? || at.PriorRead? {
      ReadingChangesWorkerOnly(system, worker);
      MovesKeeps(system, worker, RegisterStep(system, worker).workers[worker]);
    }
  }

  /** The reads of a registration leave the store alone and keep what the worker holds. */
  lemma ReadingChangesWorkerOnly(system: System, worker: WorkerId)
    requires var at := system.At(worker); at.Registering? || at.SlotRead? || at.PriorRead?
    ensures var at, next := system.At(worker), RegisterStep(system, worker);
            && worker in next.workers && next == system.Goes(worker, next.workers[worker])
            && var to := next.workers[worker];
               || to.Idle?
               || ((to.Registering? || to.SlotRead? || to.PriorRead? || to.Replacing? || to.Admitting?)
                   && to.id == at.id && to.held == at.held)
  {
  }

  lemma ReplacingKeepsInvariant(system: System, worker: WorkerId)
    requires Invariant(system) && system.At(worker).Replacing?
    ensures Invariant(RegisterStep(system, worker))
  {
    HolderFits(system, worker);
    var at := system.At(worker);
    if at.held.envelope.projection.Some? {
      var projection := at.held.envelope.projection.value;
      var written := ReplaceDesired(system.store, projection, at.revision, at.id, at.prior, at.expected);
      if written.Some? {
        DesiredKeeps(system.store, projection, at.revision, at.id, at.prior, at.expected);
        HeldStays(system.store, written.value, at.id, at.held);
        GoesKeeps(system, worker, Admitting(at.id, at.held), written.value);
      } else {
        MovesKeeps(system, worker, if at.attempts + 1 < REGISTRATION_ATTEMPTS
                                   then Registering(at.id, at.held, at.attempts + 1) else Idle);
      }
    }
  }

  lemma ProjectionRevisionGrows(before: Store, store: Store, projection: ProjectionId, revision: nat)
    requires Grows(before, store)
    ensures Grows(before, store.(projections := store.projections[projection := revision]))
  {
    var after := store.(projections := store.projections[projection := revision]);
    assert forall other :: History(after, other) == History(store, other);
  }

  lemma AdmitKeepsInvariant(system: System, worker: WorkerId)
    requires Invariant(system)
    ensures Invariant(AdmitStep(system, worker))
  {
    HolderFits(system, worker);
    match system.At(worker)
    case Admitting(id, held) =>
      if held.envelope.projection.None? {
        TransitionWins(system, worker, id, held);
      } else {
        MovesKeeps(system, worker, Idle);
        if !held.envelope.Unlocks() {
          MovesKeeps(system, worker, Recording(id, held));
        }
      }
    case Recording(id, held) =>
      if held.envelope.projection.Some? {
        RecordWins(system, worker, held.envelope.projection.value, id, held);
      }
    case _ =>
  }

  lemma AuthorizeKeepsInvariant(system: System, worker: WorkerId, bound: bool)
    requires Invariant(system)
    ensures Invariant(AuthorizeStep(system, worker, bound))
  {
    HolderFits(system, worker);
    match system.At(worker)
    case Authorizing(id, held) =>
      MovesKeeps(system, worker, Idle);
      var projection := held.envelope.projection;
      if projection.Some? && projection.value in system.store.slots {
        MovesKeeps(system, worker, Consuming(id, held, system.store.slots[projection.value].revision));
      }
    case Consuming(id, held, _) =>
      MovesKeeps(system, worker, Idle);
      if held.envelope.projection.Some? {
        RecordWins(system, worker, held.envelope.projection.value, id, held);
      }
    case _ =>
  }

  lemma JudgeKeepsInvariant(system: System, worker: WorkerId, verdict: Verdict)
    requires Invariant(system) && system.At(worker).Deciding?
    ensures Invariant(Judge(system, worker, verdict))
  {
    HolderFits(system, worker);
    var at := system.At(worker);
    match verdict
    case Deny => TransitionStepKeeps(system, worker, at.id, at.held, Rejected, Idle);
    case Expire => TransitionStepKeeps(system, worker, at.id, at.held, TimedOut, Idle);
    case Allow =>
      if at.held.state.Validated? {
        MovesKeeps(system, worker, Registering(at.id, at.held, 0));
      } else {
        TransitionStepKeeps(system, worker, at.id, at.held, Validated,
                            if at.held.envelope.DryRun() then Idle else Registering(at.id, at.held.To(Validated), 0));
      }
  }

  lemma OutcomeKeepsInvariant(system: System, worker: WorkerId, reply: Reply, confirmation: Confirmation)
    requires Invariant(system)
    ensures system.At(worker).Answered? ==> Invariant(ReplyStep(system, worker, reply))
    ensures system.At(worker).Confirming? ==> Invariant(SettleStep(system, worker, confirmation))
  {
    HolderFits(system, worker);
    MovesKeeps(system, worker, Idle);
    var at := system.At(worker);
    if at.Answered? {
      TransitionStepKeeps(system, worker, at.id, at.held, Acknowledged, Confirming(at.id, at.held.To(Acknowledged)));
      TransitionStepKeeps(system, worker, at.id, at.held, Failed, Idle);
      TransitionStepKeeps(system, worker, at.id, at.held, TimedOut, Idle);
    }
    if at.Confirming? {
      TransitionStepKeeps(system, worker, at.id, at.held, Confirmed, Idle);
      TransitionStepKeeps(system, worker, at.id, at.held, Failed, Idle);
      TransitionStepKeeps(system, worker, at.id, at.held, TimedOut, Idle);
    }
  }

  lemma LoadKeepsInvariant(system: System, worker: WorkerId, id: CommandId)
    requires Invariant(system) && id in system.store.commands
    ensures Invariant(Load(system, worker, id))
    ensures PreDispatch(system.store.commands[id].state) ==>
              Invariant(system.Goes(worker, Cancelling(id, system.store.commands[id])))
    ensures Invariant(system.Goes(worker, Authorizing(id, system.store.commands[id])))
  {
    var held := system.store.commands[id];
    assert CommandFits(system.store, id);
    assert HeldFits(system.store, id, held);
    if PreDispatch(held.state) {
      MovesKeeps(system, worker, Cancelling(id, held));
      if !held.Terminal() {
        MovesKeeps(system, worker, Deciding(id, held));
      }
    }
    MovesKeeps(system, worker, Confirming(id, held));
    MovesKeeps(system, worker, Authorizing(id, held));
  }

  lemma CreateKeepsInvariant(system: System, worker: WorkerId, id: CommandId, envelope: Envelope)
    requires Invariant(system) && CreateCommand(system.store, id, envelope).1.Created?
    ensures Invariant(system.Goes(worker, Deciding(id, Aggregate(envelope, Received, 0)))
                      .(store := CreateCommand(system.store, id, envelope).0))
  {
    var after := CreateCommand(system.store, id, envelope).0;
    CreateKeeps(system.store, id, envelope);
    CreateGrowsStore(system.store, id, envelope);
    assert HeldFits(after, id, Aggregate(envelope, Received, 0));
    GoesKeeps(system, worker, Deciding(id, Aggregate(envelope, Received, 0)), after);
  }

  /** The dispatcher is called by the winner, which then no longer holds the win. */
  lemma DispatchKeepsInvariant(system: System, worker: WorkerId)
    requires Invariant(system) && system.At(worker).Won?
    ensures Invariant(Apply(system, Dispatch(worker)))
  {
    HolderFits(system, worker);
    var at := system.At(worker);
    var next := Apply(system, Dispatch(worker));
    assert WonBy(system, worker, at.id);
    forall other, id | WonBy(next, other, id)
      ensures WonBy(system, other, id) && id != at.id
    {
      assert other != worker && WonBy(system, other, id);
    }
    forall other | other in next.workers
      ensures WorkerFits(next.store, next.workers[other])
    {
      assert other != worker ==> WorkerFits(system.store, system.workers[other]);
    }
  }

  lemma MoveKeepsInvariant(system: System, move: Move)
    requires Invariant(system)
    ensures Invariant(Apply(system, move))
  {
    match move
    case Create(worker, id, envelope) =>
      if CreateCommand(system.store, id, envelope).1.Created? {
        CreateKeepsInvariant(system, worker, id, envelope);
      }
    case Recover(worker, id) =>
      if id in system.store.commands {
        LoadKeepsInvariant(system, worker, id);
      }
    case Cancel(worker, id) =>
      if id in system.store.commands {
        LoadKeepsInvariant(system, worker, id);
      }
    case Approve(worker, id) =>
      if id in system.store.commands {
        LoadKeepsInvariant(system, worker, id);
      }
    case Decide(worker, verdict) =>
      if system.At(worker).Deciding? {
        JudgeKeepsInvariant(system, worker, verdict);
      }
    case Register(worker, late) =>
      RegisterKeepsInvariant(system, worker);
      if system.At(worker).Registering? {
        HolderFits(system, worker);
        TransitionStepKeeps(system, worker, system.At(worker).id, system.At(worker).held, TimedOut, Idle);
      }
    case Admit(worker) => AdmitKeepsInvariant(system, worker);
    case Authorize(worker, bound) => AuthorizeKeepsInvariant(system, worker, bound);
    case Dispatch(worker) =>
      if system.At(worker).Won? {
        DispatchKeepsInvariant(system, worker);
      }
    case Reply(worker, reply) => OutcomeKeepsInvariant(system, worker, reply, StillPending);
    case Settle(worker, confirmation) => OutcomeKeepsInvariant(system, worker, Fail, confirmation);
    case Withdraw(worker) =>
      if system.At(worker).Cancelling? {
        HolderFits(system, worker);
        TransitionStepKeeps(system, worker, system.At(worker).id, system.At(worker).held, Cancelled, Idle);
      }
    case Crash(worker) => MovesKeeps(system, worker, Idle);
    case Project(projection, revision) => ProjectKeepsInvariant(system, projection, revision);
  }

  lemma ProjectKeepsInvariant(system: System, projection: ProjectionId, revision: nat)
    requires Invariant(system)
    ensures Invariant(Apply(system, Project(projection, revision)))
  {
    var next := Apply(system, Project(projection, revision));
    ProjectionRevisionKeeps(system.store, projection, revision);
    StoreGrowsItself(system.store);
    ProjectionRevisionGrows(system.store, system.store, projection, revision);
    forall worker | worker in next.workers
      ensures WorkerFits(next.store, next.workers[worker])
    {
      WorkerStays(system.store, next.store, system.workers[worker]);
    }
    forall i | 0 <= i < |next.calls|
      ensures WasDispatched(next.store, next.calls[i])
    {
      DispatchStays(system.store, next.store, next.calls[i]);
    }
    assert forall worker, id :: WonBy(next, worker, id) <==> WonBy(system, worker, id);
  }

  lemma {:induction false} RunKeepsInvariant(moves: seq<Move>)
    ensures Invariant(Run(START, moves))
    decreases |moves|
  {
    if moves != [] {
      RunKeepsInvariant(moves[..|moves| - 1]);
      MoveKeepsInvariant(Run(START, moves[..|moves| - 1]), moves[|moves| - 1]);
    }
  }

  // ----- one command per key ------------------------------------------------------------------

  /** The store is as before or the result of one write. */
  ghost predicate OneWrite(before: Store, after: Store) {
    || after == before
    || (exists id, held, next :: TransitionCommand(before, id, held, next) == Some(after))
    || (exists projection, id, held :: RecordDispatch(before, projection, id, held) == Some(after))
    || (exists projection, revision, id, prior, expected ::
          ReplaceDesired(before, projection, revision, id, prior, expected) == Some(after))
  }

  lemma TransitionIsOneWrite(system: System, worker: WorkerId, id: CommandId, held: Aggregate, next: CommandState,
                             to: Worker)
    ensures OneWrite(system.store, system.Writes(worker, TransitionCommand(system.store, id, held, next), to).store)
  {
  }

  lemma RecordIsOneWrite(system: System, worker: WorkerId, projection: ProjectionId, id: CommandId, held: Aggregate,
                         to: Worker)
    ensures OneWrite(system.store, system.Writes(worker, RecordDispatch(system.store, projection, id, held), to).store)
  {
  }

  lemma DispatchIsOneWrite(system: System, move: Move)
    requires move.Admit? || move.Authorize?
    ensures OneWrite(system.store, Apply(system, move).store)
  {
    var worker, at := move.worker, system.At(move.worker);
    if !at.Idle? {
      TransitionIsOneWrite(system, worker, at.id, at.held, Dispatched, Won(at.id, at.held.To(Dispatched)));
      if at.held.envelope.projection.Some? {
        RecordIsOneWrite(system, worker, at.held.envelope.projection.value, at.id, at.held,
                         Won(at.id, at.held.To(Dispatched)));
      }
    }
  }

  lemma JudgeIsOneWrite(system: System, worker: WorkerId, verdict: Verdict)
    requires system.At(worker).Deciding?
    ensures OneWrite(system.store, Judge(system, worker, verdict).store)
  {
    var id, held := system.At(worker).id, system.At(worker).held;
    match verdict
    case Deny => TransitionIsOneWrite(system, worker, id, held, Rejected, Idle);
    case Expire => TransitionIsOneWrite(system, worker, id, held, TimedOut, Idle);
    case Allow =>
      TransitionIsOneWrite(system, worker, id, held, Validated,
                           if held.envelope.DryRun() then Idle else Registering(id, held.To(Validated), 0));
  }

  lemma ReplyIsOneWrite(system: System, worker: WorkerId, reply: Reply)
    requires system.At(worker).Answered?
    ensures OneWrite(system.store, ReplyStep(system, worker, reply).store)
  {
    var id, held := system.At(worker).id, system.At(worker).held;
    match reply
    case Acknowledge =>
      TransitionIsOneWrite(system, worker, id, held, Acknowledged, Confirming(id, held.To(Acknowledged)));
    case Fail => TransitionIsOneWrite(system, worker, id, held, Failed, Idle);
    case Late => TransitionIsOneWrite(system, worker, id, held, TimedOut, Idle);
  }

  lemma SettleIsOneWrite(system: System, worker: WorkerId, confirmation: Confirmation)
    requires system.At(worker).Confirming?
    ensures OneWrite(system.store, SettleStep(system, worker, confirmation).store)
  {
    var id, held := system.At(worker).id, system.At(worker).held;
    match confirmation
    case Confirm => TransitionIsOneWrite(system, worker, id, held, Confirmed, Idle);
    case Refute => TransitionIsOneWrite(system, worker, id, held, Failed, Idle);
    case Overdue => TransitionIsOneWrite(system, worker, id, held, TimedOut, Idle);
    case StillPending =>
  }

  lemma LifecycleIsOneWrite(system: System, move: Move)
    requires move.Decide? || move.Reply? || move.Settle? || move.Withdraw?
    ensures OneWrite(system.store, Apply(system, move).store)
  {
    var worker, at := move.worker, system.At(move.worker);
    match move
    case Decide(_, verdict) =>
      if at.Deciding? {
        JudgeIsOneWrite(system, worker, verdict);
      }
    case Reply(_, reply) =>
      if at.Answered? {
        ReplyIsOneWrite(system, worker, reply);
      }
    case Settle(_, confirmation) =>
      if at.Confirming? {
        SettleIsOneWrite(system, worker, confirmation);
      }
    case Withdraw(_) =>
      if at.Cancelling? {
        TransitionIsOneWrite(system, worker, at.id, at.held, Cancelled, Idle);
      }
  }

  lemma RegisterIsOneWrite(system: System, move: Move)
    requires move.Register?
    ensures OneWrite(system.store, Apply(system, move).store)
  {
    var at := system.At(move.worker);
    if at.Registering? {
      TransitionIsOneWrite(system, move.worker, at.id, at.held, TimedOut, Idle);
    }
  }

  lemma MoveIsOneWrite(system: System, move: Move)
    requires !move.Create? && !move.Project?
    ensures OneWrite(system.store, Apply(system, move).store)
  {
    if move.Admit? || move.Authorize? {
      DispatchIsOneWrite(system, move);
    } else if move.Decide? || move.Reply? || move.Settle? || move.Withdraw? {
      LifecycleIsOneWrite(system, move);
    } else if move.Register? {
      RegisterIsOneWrite(system, move);
    }
  }

  lemma OneWriteKeepsEnvelopes(before: Store, after: Store)
    requires OneWrite(before, after)
    ensures SameEnvelopes(before, after)
  {
    if id, held, next :| TransitionCommand(before, id, held, next) == Some(after) {
      WritesKeepEnvelopes(before, id, held, next, 0, 0, None, 0);
    } else if projection, id, held :| RecordDispatch(before, projection, id, held) == Some(after) {
      WritesKeepEnvelopes(before, id, held, Received, projection, 0, None, 0);
    } else if projection, revision, id, prior, expected :|
      ReplaceDesired(before, projection, revision, id, prior, expected) == Some(after)
    {
      if id in before.commands {
        WritesKeepEnvelopes(before, id, before.commands[id], Received, projection, revision, prior, expected);
      }
    }
  }

  /** Only creation adds commands. */
  lemma MoveKeepsEnvelopes(system: System, move: Move)
    requires !move.Create?
    ensures SameEnvelopes(system.store, Apply(system, move).store)
  {
    if !move.Project? {
      MoveIsOneWrite(system, move);
      OneWriteKeepsEnvelopes(system.store, Apply(system, move).store);
    }
  }

  lemma {:induction false} RunKeepsKeys(moves: seq<Move>)
    ensures KeysFit(Run(START, moves).store)
    decreases |moves|
  {
    if moves != [] {
      var last := |moves| - 1;
      var before := Run(START, moves[..last]);
      RunKeepsKeys(moves[..last]);
      match moves[last]
      case Create(_, id, envelope) => CreateKeepsKeys(before.store, id, envelope);
      case _ =>
        MoveKeepsEnvelopes(before, moves[last]);
        SameEnvelopesKeepKeys(before.store, Apply(before, moves[last]).store);
    }
  }

  // ----- what every interleaving guarantees ---------------------------------------------------

  /**
   * Whatever the interleaving and wherever workers crash: a command is handed
   * to the dispatcher at most once, only after its dispatch became durable,
   * and never when it was cancelled, superseded or a dry run.
   */
  lemma DispatcherCalledAtMostOnce(moves: seq<Move>, i: nat, j: nat)
    requires i < |Run(START, moves).calls|
    ensures var system := Run(START, moves);
            var id := system.calls[i];
            && id in system.store.commands
            && WasDispatched(system.store, id)
            && !system.store.commands[id].envelope.DryRun()
            && !PreDispatch(system.store.commands[id].state)
            && system.store.commands[id].state != Cancelled
            && id !in system.store.superseded
            && (j < |system.calls| && j != i ==> system.calls[j] != id)
  {
    RunKeepsInvariant(moves);
    DispatchedCommand(Run(START, moves).store, Run(START, moves).calls[i]);
  }

  lemma DispatchedCommand(store: Store, id: CommandId)
    requires StoreFits(store) && WasDispatched(store, id)
    ensures id in store.commands && id !in store.superseded
    ensures !store.commands[id].envelope.DryRun()
    ensures !PreDispatch(store.commands[id].state) && store.commands[id].state != Cancelled
  {
    assert CommandFits(store, id);
    StateShowsDispatch(store.audits[id]);
  }

  /** No two calls of the dispatcher are for commands of one idempotency key. */
  lemma NoKeyIsDispatchedTwice(moves: seq<Move>, i: nat, j: nat)
    requires i < j < |Run(START, moves).calls|
    ensures var system := Run(START, moves);
            && system.calls[i] in system.store.commands && system.calls[j] in system.store.commands
            && system.store.commands[system.calls[i]].envelope.key
               != system.store.commands[system.calls[j]].envelope.key
  {
    DispatcherCalledAtMostOnce(moves, i, j);
    DispatcherCalledAtMostOnce(moves, j, i);
    RunKeepsKeys(moves);
  }

  /** Every audit trail is a contiguous chain that ends in the durable state, with at most one dispatch. */
  lemma AuditsAreContiguous(moves: seq<Move>, id: CommandId)
    requires id in Run(START, moves).store.commands
    ensures var store := Run(START, moves).store;
            && id in store.audits && AuditChain(store.audits[id])
            && |store.audits[id]| == store.commands[id].version + 1
            && store.audits[id][store.commands[id].version].to == store.commands[id].state
            && forall i, j :: 0 <= i < j < |store.audits[id]| && store.audits[id][i].to == Dispatched ==>
                 store.audits[id][j].to != Dispatched
  {
    var store := Run(START, moves).store;
    RunKeepsInvariant(moves);
    assert CommandFits(store, id);
    forall i, j | 0 <= i < j < |store.audits[id]| && store.audits[id][i].to == Dispatched
      ensures store.audits[id][j].to != Dispatched
    {
      DispatchedOnce(store.audits[id], i, j);
    }
  }

  predicate Waits(store: Store, registration: Registration)
    requires registration.command in store.commands
  {
    PreDispatch(store.commands[registration.command].state)
  }

  /**
   * On every projection desired revisions strictly increase, at most one
   * registered command is still waiting, and no command is both superseded
   * and dispatched.
   */
  lemma DesiredStateProtocol(moves: seq<Move>, projection: ProjectionId, i: nat, j: nat)
    requires i < j < |History(Run(START, moves).store, projection)|
    ensures var store := Run(START, moves).store;
            var history := History(store, projection);
            && history[i].revision < history[j].revision
            && history[i].command in store.commands && history[j].command in store.commands
            && (Waits(store, history[i]) && Waits(store, history[j]) ==> history[i].command == history[j].command)
            && forall id :: id in store.superseded ==> id in store.commands && !WasDispatched(store, id)
  {
    RunKeepsInvariant(moves);
    var store := Run(START, moves).store;
    assert ProjectionFits(store, projection);
    SupersededNeverDispatched(store);
  }

  lemma SupersededNeverDispatched(store: Store)
    requires StoreFits(store)
    ensures forall id :: id in store.superseded ==> id in store.commands && !WasDispatched(store, id)
  {
    forall id | id in store.superseded
      ensures id in store.commands && !WasDispatched(store, id)
    {
      assert CommandFits(store, id);
      StateShowsDispatch(store.audits[id]);
    }
  }

  // ----- a worker that is left alone -------------------------------------------------------------

  function Validate(system: System, worker: WorkerId, id: CommandId, envelope: Envelope): System {
    Apply(Apply(system, Create(worker, id, envelope)), Decide(worker, Allow))
  }

  /** Registration takes four awaits; a worker that needs fewer does nothing in the others. */
  function AfterRegistration(system: System, worker: WorkerId): System {
    var step := Register(worker, false);
    Apply(Apply(Apply(Apply(system, step), step), step), step)
  }

  function AfterDispatch(system: System, worker: WorkerId): System {
    Apply(Apply(Apply(system, Admit(worker)), Admit(worker)), Dispatch(worker))
  }

  function Solo(system: System, worker: WorkerId, id: CommandId, envelope: Envelope, reply: Reply,
                confirmation: Confirmation): System
  {
    var dispatched := AfterDispatch(AfterRegistration(Validate(system, worker, id, envelope), worker), worker);
    Apply(Apply(dispatched, Reply(worker, reply)), Settle(worker, confirmation))
  }

  /** What a dispatched command comes to: a reply other than an acknowledgement ends it. */
  predicate EndsAs(reply: Reply, confirmation: Confirmation, state: CommandState) {
    && (state == Confirmed <==> reply.Acknowledge? && confirmation.Confirm?)
    && (state == Failed <==> reply.Fail? || (reply.Acknowledge? && confirmation.Refute?))
    && (state == TimedOut <==> reply.Late? || (reply.Acknowledge? && confirmation.Overdue?))
    && (state == Acknowledged <==> reply.Acknowledge? && confirmation.StillPending?)
  }

  /** The slot a command competes for can be taken over. */
  predicate Free(store: Store, projection: ProjectionId) {
    && projection in store.projections
    && (projection in store.slots ==>
          var slot := store.slots[projection];
          slot.dispatched || (slot.owner in store.commands && slot.owner in store.audits
                              && PreDispatch(store.commands[slot.owner].state)))
  }

  lemma RegistrationTakesSlot(system: System, worker: WorkerId, id: CommandId, held: Aggregate,
                              projection: ProjectionId)
    requires system.At(worker) == Registering(id, held, 0)
    requires id in system.store.commands && system.store.commands[id] == held && PreDispatch(held.state)
    requires held.envelope.projection == Some(projection) && Free(system.store, projection)
    requires projection in system.store.slots ==> system.store.slots[projection].owner != id
    ensures var before, after := system.store, AfterRegistration(system, worker);
            var revision := if projection in before.slots then before.slots[projection].revision + 1 else 1;
            && after.At(worker) == Admitting(id, held) && after.calls == system.calls
            && after.store.slots == before.slots[projection := Slot(revision, id, false)]
            && id in after.store.commands && after.store.commands[id] == held
            && (id in before.audits ==> id in after.store.audits && after.store.audits[id] == before.audits[id])
            && (projection in before.slots && !before.slots[projection].dispatched ==>
                  after.store.commands[before.slots[projection].owner].state == Cancelled)
  {
    var step := Register(worker, false);
    var expected := system.store.projections[projection];
    var slot := if projection in system.store.slots then Some(system.store.slots[projection]) else None;
    var first := Apply(system, step);
    assert first.At(worker) == SlotRead(id, held, 0, expected);
    var second := Apply(first, step);
    assert second.At(worker) == PriorRead(id, held, 0, expected, slot);
    var third := Apply(second, step);
    assert third.At(worker).Replacing? && third.store == system.store;
  }

  lemma AdmissionDispatches(system: System, worker: WorkerId, id: CommandId, held: Aggregate)
    requires system.At(worker) == Admitting(id, held) && held.state.Validated? && !held.envelope.Unlocks()
    requires id in system.store.commands && id in system.store.audits && system.store.commands[id] == held
    requires held.envelope.projection.Some? ==>
               var projection := held.envelope.projection.value;
               projection in system.store.slots && system.store.slots[projection].owner == id
               && !system.store.slots[projection].dispatched
    ensures var after := AfterDispatch(system, worker);
            && after.calls == system.calls + [id] && after.At(worker) == Answered(id, held.To(Dispatched))
            && id in after.store.commands && id in after.store.audits && after.store.commands[id] == held.To(Dispatched)
  {
    var first := Apply(system, Admit(worker));
    var second := Apply(first, Admit(worker));
    assert second.At(worker) == Won(id, held.To(Dispatched));
  }

  /**
   * A worker that is left alone with an allowed command takes a free slot,
   * dispatches the command exactly once, and ends it as the dispatcher and
   * the observation say.
   */
  lemma SoloCommandEnds(system: System, worker: WorkerId, id: CommandId, envelope: Envelope, reply: Reply,
                        confirmation: Confirmation)
    requires Invariant(system) && system.At(worker).Idle?
    requires CreateCommand(system.store, id, envelope).1.Created?
    requires !envelope.DryRun() && !envelope.Unlocks()
    requires envelope.projection.Some? ==> Free(system.store, envelope.projection.value)
    ensures var after := Solo(system, worker, id, envelope, reply, confirmation);
            && id in after.store.commands && EndsAs(reply, confirmation, after.store.commands[id].state)
            && after.calls == system.calls + [id] && after.At(worker).Idle?
  {
    var held := Aggregate(envelope, Received, 0).To(Validated);
    ValidationAdmits(system, worker, id, envelope);
    var received := Validate(system, worker, id, envelope);
    if envelope.projection.Some? {
      assert ProjectionFits(system.store, envelope.projection.value);
      RegistrationTakesSlot(received, worker, id, held, envelope.projection.value);
    } else {
      RegistrationPasses(received, worker, id, held);
    }
    var registered := AfterRegistration(received, worker);
    AdmissionDispatches(registered, worker, id, held);
    OutcomeEnds(AfterDispatch(registered, worker), worker, id, held.To(Dispatched), reply, confirmation);
  }

  /** A new command that is denied or too late ends there; one that is allowed is validated. Nothing is dispatched. */
  lemma SoloCommandIsDecided(system: System, worker: WorkerId, id: CommandId, envelope: Envelope, verdict: Verdict)
    requires Invariant(system) && system.At(worker).Idle?
    requires CreateCommand(system.store, id, envelope).1.Created?
    ensures var after := Apply(Apply(system, Create(worker, id, envelope)), Decide(worker, verdict));
            && after.calls == system.calls && id in after.store.commands
            && var state := after.store.commands[id].state;
               && (state == Rejected <==> verdict.Deny?) && (state == TimedOut <==> verdict.Expire?)
               && (state == Validated <==> verdict.Allow?)
               && (after.At(worker).Registering? <==> verdict.Allow? && !envelope.DryRun())
               && (after.At(worker).Idle? <==> !after.At(worker).Registering?)
  {
    var created := Apply(system, Create(worker, id, envelope));
    assert created.At(worker) == Deciding(id, Aggregate(envelope, Received, 0));
  }

  /** Recovery of a dispatched command observes it and never calls the dispatcher again. */
  lemma SoloRecoveryEnds(system: System, worker: WorkerId, id: CommandId, confirmation: Confirmation)
    requires Invariant(system) && system.At(worker).Idle? && id in system.store.commands
    requires system.store.commands[id].state in {Dispatched, Acknowledged}
    ensures var after := Apply(Apply(system, Recover(worker, id)), Settle(worker, confirmation));
            && after.calls == system.calls && after.At(worker).Idle? && id in after.store.commands
            && if confirmation.StillPending? then after.store.commands[id] == system.store.commands[id]
               else EndsAs(Acknowledge, confirmation, after.store.commands[id].state)
  {
    assert CommandFits(system.store, id);
    var recovered := Apply(system, Recover(worker, id));
    assert recovered.At(worker) == Confirming(id, system.store.commands[id]);
  }

  /** Recovery of a command that was not dispatched decides it anew. */
  lemma SoloRecoveryDecides(system: System, worker: WorkerId, id: CommandId, verdict: Verdict)
    requires Invariant(system) && system.At(worker).Idle? && id in system.store.commands
    requires PreDispatch(system.store.commands[id].state) && !system.store.commands[id].Terminal()
    ensures var after := Apply(Apply(system, Recover(worker, id)), Decide(worker, verdict));
            && after.calls == system.calls && id in after.store.commands
            && var state := after.store.commands[id].state;
               && (state == Rejected <==> verdict.Deny?) && (state == TimedOut <==> verdict.Expire?)
               && (state == Validated <==> verdict.Allow?)
               && (after.At(worker).Registering?
                   <==> verdict.Allow? && !system.store.commands[id].envelope.DryRun())
  {
    assert CommandFits(system.store, id);
    var recovered := Apply(system, Recover(worker, id));
    assert recovered.At(worker) == Deciding(id, system.store.commands[id]);
  }

  /** An unlock that owns its slot is dispatched by its approval, exactly if that is bound to the slot. */
  lemma SoloUnlockNeedsApproval(system: System, worker: WorkerId, id: CommandId, projection: ProjectionId, bound: bool)
    requires Invariant(system) && system.At(worker).Idle? && id in system.store.commands
    requires system.store.commands[id].state.Validated? && system.store.commands[id].envelope.Unlocks()
    requires system.store.commands[id].envelope.projection == Some(projection) && projection in system.store.slots
    requires system.store.slots[projection].owner == id
    ensures var consumed := Apply(Apply(system, Approve(worker, id)), Authorize(worker, bound));
            var after := Apply(Apply(consumed, Authorize(worker, bound)), Dispatch(worker));
            && id in after.store.commands
            && (if bound then
                  after.calls == system.calls + [id] && after.store.commands[id].state == Dispatched
                else after.calls == system.calls && after.store.commands[id] == system.store.commands[id])
  {
    var held := system.store.commands[id];
    assert CommandFits(system.store, id) && ProjectionFits(system.store, projection);
    StateShowsDispatch(system.store.audits[id]);
    var approved := Apply(system, Approve(worker, id));
    assert approved.At(worker) == Authorizing(id, held) && approved.store == system.store;
    var consumed := Apply(approved, Authorize(worker, bound));
    assert consumed.At(worker) == Consuming(id, held, system.store.slots[projection].revision);
    var authorized := Apply(consumed, Authorize(worker, bound));
    assert authorized.At(worker) == if bound then Won(id, held.To(Dispatched)) else Idle;
  }

  lemma ValidationAdmits(system: System, worker: WorkerId, id: CommandId, envelope: Envelope)
    requires Invariant(system) && system.At(worker).Idle? && !envelope.DryRun()
    requires CreateCommand(system.store, id, envelope).1.Created?
    ensures var held, after := Aggregate(envelope, Received, 0).To(Validated), Validate(system, worker, id, envelope);
            && after.At(worker) == Registering(id, held, 0) && after.calls == system.calls
            && after.store.commands == system.store.commands[id := held] && id in after.store.audits
            && after.store.slots == system.store.slots && after.store.projections == system.store.projections
            && forall other :: other in system.store.audits ==> other in after.store.audits
  {
    var created := Apply(system, Create(worker, id, envelope));
    assert created.At(worker) == Deciding(id, Aggregate(envelope, Received, 0));
  }

  lemma RegistrationPasses(system: System, worker: WorkerId, id: CommandId, held: Aggregate)
    requires system.At(worker) == Registering(id, held, 0) && held.envelope.projection.None?
    ensures var after := AfterRegistration(system, worker);
            after.At(worker) == Admitting(id, held) && after.store == system.store && after.calls == system.calls
  {
    var first := Apply(system, Register(worker, false));
    assert first.At(worker) == Admitting(id, held) && Apply(first, Register(worker, false)) == first;
  }

  lemma OutcomeEnds(system: System, worker: WorkerId, id: CommandId, held: Aggregate, reply: Reply,
                    confirmation: Confirmation)
    requires system.At(worker) == Answered(id, held) && held.state.Dispatched?
    requires id in system.store.commands && id in system.store.audits && system.store.commands[id] == held
    ensures var after := Apply(Apply(system, Reply(worker, reply)), Settle(worker, confirmation));
            && id in after.store.commands && EndsAs(reply, confirmation, after.store.commands[id].state)
            && after.calls == system.calls && after.At(worker).Idle?
  {
    var replied := Apply(system, Reply(worker, reply));
    assert replied.At(worker) == if reply.Acknowledge? then Confirming(id, held.To(Acknowledged)) else Idle;
  }

  // ----- nothing is undone --------------------------------------------------------------------

  lemma WriteGrows(system: System, worker: WorkerId, id: CommandId, held: Aggregate, next: CommandState, to: Worker)
    ensures Grows(system.store, system.Writes(worker, TransitionCommand(system.store, id, held, next), to).store)
  {
    StoreGrowsItself(system.store);
    if TransitionCommand(system.store, id, held, next).Some? {
      TransitionGrows(system.store, id, held, next);
    }
  }

  lemma RecordingGrows(system: System, worker: WorkerId, projection: ProjectionId, id: CommandId, held: Aggregate,
                       to: Worker)
    ensures Grows(system.store, system.Writes(worker, RecordDispatch(system.store, projection, id, held), to).store)
  {
    StoreGrowsItself(system.store);
    if RecordDispatch(system.store, projection, id, held).Some? {
      RecordGrows(system.store, projection, id, held);
    }
  }

  lemma JudgeGrows(system: System, worker: WorkerId, verdict: Verdict)
    requires system.At(worker).Deciding?
    ensures Grows(system.store, Judge(system, worker, verdict).store)
  {
    var id, held := system.At(worker).id, system.At(worker).held;
    match verdict
    case Deny => WriteGrows(system, worker, id, held, Rejected, Idle);
    case Expire => WriteGrows(system, worker, id, held, TimedOut, Idle);
    case Allow =>
      StoreGrowsItself(system.store);
      WriteGrows(system, worker, id, held, Validated,
                 if held.envelope.DryRun() then Idle else Registering(id, held.To(Validated), 0));
  }

  lemma ReplyGrows(system: System, worker: WorkerId, reply: Reply)
    requires system.At(worker).Answered?
    ensures Grows(system.store, ReplyStep(system, worker, reply).store)
  {
    var id, held := system.At(worker).id, system.At(worker).held;
    match reply
    case Acknowledge => WriteGrows(system, worker, id, held, Acknowledged, Confirming(id, held.To(Acknowledged)));
    case Fail => WriteGrows(system, worker, id, held, Failed, Idle);
    case Late => WriteGrows(system, worker, id, held, TimedOut, Idle);
  }

  lemma SettleGrows(system: System, worker: WorkerId, confirmation: Confirmation)
    requires system.At(worker).Confirming?
    ensures Grows(system.store, SettleStep(system, worker, confirmation).store)
  {
    var id, held := system.At(worker).id, system.At(worker).held;
    match confirmation
    case Confirm => WriteGrows(system, worker, id, held, Confirmed, Idle);
    case Refute => WriteGrows(system, worker, id, held, Failed, Idle);
    case Overdue => WriteGrows(system, worker, id, held, TimedOut, Idle);
    case StillPending => StoreGrowsItself(system.store);
  }

  lemma CreateGrows(system: System, move: Move)
    requires Invariant(system) && move.Create?
    ensures Grows(system.store, Apply(system, move).store)
  {
    StoreGrowsItself(system.store);
    CreateGrowsStore(system.store, move.id, move.envelope);
  }

  lemma AdmitGrows(system: System, worker: WorkerId)
    ensures Grows(system.store, AdmitStep(system, worker).store)
  {
    StoreGrowsItself(system.store);
    match system.At(worker)
    case Admitting(id, held) => WriteGrows(system, worker, id, held, Dispatched, Won(id, held.To(Dispatched)));
    case Recording(id, held) =>
      if held.envelope.projection.Some? {
        RecordingGrows(system, worker, held.envelope.projection.value, id, held, Won(id, held.To(Dispatched)));
      }
    case _ =>
  }

  lemma AuthorizeGrows(system: System, worker: WorkerId, bound: bool)
    ensures Grows(system.store, AuthorizeStep(system, worker, bound).store)
  {
    StoreGrowsItself(system.store);
    match system.At(worker)
    case Consuming(id, held, _) =>
      if held.envelope.projection.Some? {
        RecordingGrows(system, worker, held.envelope.projection.value, id, held, Won(id, held.To(Dispatched)));
      }
    case _ =>
  }

  lemma DispatchMoveGrows(system: System, move: Move)
    requires move.Admit? || move.Authorize?
    ensures Grows(system.store, Apply(system, move).store)
  {
    if move.Admit? {
      AdmitGrows(system, move.worker);
    } else {
      AuthorizeGrows(system, move.worker, move.bound);
    }
  }

  lemma RegisterGrows(system: System, worker: WorkerId)
    ensures Grows(system.store, RegisterStep(system, worker).store)
  {
    StoreGrowsItself(system.store);
    var at := system.At(worker);
    if at.Replacing? && at.held.envelope.projection.Some? {
      var projection := at.held.envelope.projection.value;
      if ReplaceDesired(system.store, projection, at.revision, at.id, at.prior, at.expected).Some? {
        var replaced := ReplaceSlot(system.store, projection, at.revision, at.id, at.prior).value;
        ReplaceGrows(system.store, projection, at.revision, at.id, at.prior);
        ProjectionRevisionGrows(system.store, replaced, projection, at.expected + 1);
      }
    }
  }

  lemma LifecycleMoveGrows(system: System, move: Move)
    requires move.Decide? || move.Reply? || move.Settle?
    ensures Grows(system.store, Apply(system, move).store)
  {
    var at := system.At(move.worker);
    if move.Decide? && at.Deciding? {
      JudgeGrows(system, move.worker, move.verdict);
    } else if move.Reply? && at.Answered? {
      ReplyGrows(system, move.worker, move.reply);
    } else if move.Settle? && at.Confirming? {
      SettleGrows(system, move.worker, move.confirmation);
    } else {
      StoreGrowsItself(system.store);
    }
  }

  lemma RegisterMoveGrows(system: System, move: Move)
    requires move.Register?
    ensures Grows(system.store, Apply(system, move).store)
  {
    var at := system.At(move.worker);
    if move.late && at.Registering? && at.attempts == 0 {
      WriteGrows(system, move.worker, at.id, at.held, TimedOut, Idle);
    } else {
      RegisterGrows(system, move.worker);
    }
  }

  lemma WithdrawMoveGrows(system: System, move: Move)
    requires move.Withdraw?
    ensures Grows(system.store, Apply(system, move).store)
  {
    var at := system.At(move.worker);
    if at.Cancelling? {
      WriteGrows(system, move.worker, at.id, at.held, Cancelled, Idle);
    } else {
      StoreGrowsItself(system.store);
    }
  }

  lemma OtherMoveGrows(system: System, move: Move)
    requires Invariant(system)
    requires || move.Create? || move.Recover? || move.Cancel? || move.Approve?
             || move.Dispatch? || move.Crash? || move.Project?
    ensures Grows(system.store, Apply(system, move).store)
  {
    if move.Create? {
      CreateGrows(system, move);
    } else if move.Project? {
      StoreGrowsItself(system.store);
      ProjectionRevisionGrows(system.store, system.store, move.projection, move.revision);
    } else {
      assert Apply(system, move).store == system.store;
      StoreGrowsItself(system.store);
    }
  }

  /** Envelopes, audit trails, registrations and supersessions are only ever added to. */
  lemma MoveGrows(system: System, move: Move)
    requires Invariant(system)
    ensures Grows(system.store, Apply(system, move).store)
  {
    if move.Register? {
      RegisterMoveGrows(system, move);
    } else if move.Admit? || move.Authorize? {
      DispatchMoveGrows(system, move);
    } else if move.Decide? || move.Reply? || move.Settle? {
      LifecycleMoveGrows(system, move);
    } else if move.Withdraw? {
      WithdrawMoveGrows(system, move);
    } else {
      OtherMoveGrows(system, move);
    }
  }

  // ----- a slot that is blocked for good --------------------------------------------------------

  /** The slot and its block survive every write. */
  lemma OneWriteKeepsBlock(before: Store, after: Store, slot: ProjectionId)
    requires Blocks(before, slot) && OneWrite(before, after)
    ensures Blocks(after, slot) && after.slots[slot] == before.slots[slot]
  {
    if id, held, next :| TransitionCommand(before, id, held, next) == Some(after) {
    } else if projection, id, held :| RecordDispatch(before, projection, id, held) == Some(after) {
      BlockedSlotIsNotReplaced(before, slot, 0, id, None, held);
    } else if projection, revision, id, prior, expected :|
      ReplaceDesired(before, projection, revision, id, prior, expected) == Some(after)
    {
      ReplacementKeepsBlock(before, projection, revision, id, prior, expected, slot);
    }
  }

  lemma ReplacementKeepsBlock(store: Store, projection: ProjectionId, revision: nat, id: CommandId,
                              prior: Option<(CommandId, Aggregate)>, expected: nat, slot: ProjectionId)
    requires Blocks(store, slot) && ReplaceDesired(store, projection, revision, id, prior, expected).Some?
    ensures var after := ReplaceDesired(store, projection, revision, id, prior, expected).value;
            Blocks(after, slot) && after.slots[slot] == store.slots[slot]
  {
    BlockedSlotIsNotReplaced(store, slot, revision, id, prior, store.commands[id]);
  }

  lemma MoveKeepsBlock(system: System, move: Move, slot: ProjectionId)
    requires Blocks(system.store, slot)
    ensures Blocks(Apply(system, move).store, slot)
    ensures Apply(system, move).store.slots[slot] == system.store.slots[slot]
  {
    if !move.Project? && !move.Create? {
      MoveIsOneWrite(system, move);
      OneWriteKeepsBlock(system.store, Apply(system, move).store, slot);
    }
  }

  lemma {:induction false} RunAdds(system: System, first: seq<Move>, second: seq<Move>)
    ensures Run(system, first + second) == Run(Run(system, first), second)
    decreases |second|
  {
    if second == [] {
      assert first + second == first;
    } else {
      var last := |second| - 1;
      assert (first + second)[..|first + second| - 1] == first + second[..last];
      RunAdds(system, first, second[..last]);
    }
  }

  /** A slot whose undispatched owner has ended never changes again, whatever anybody does. */
  lemma {:induction false} BlockedSlotNeverChanges(system: System, moves: seq<Move>, slot: ProjectionId)
    requires Blocks(system.store, slot)
    ensures Blocks(Run(system, moves).store, slot)
    ensures Run(system, moves).store.slots[slot] == system.store.slots[slot]
    decreases |moves|
  {
    if moves != [] {
      var last := |moves| - 1;
      BlockedSlotNeverChanges(system, moves[..last], slot);
      MoveKeepsBlock(Run(system, moves[..last]), moves[last], slot);
    }
  }

  /** Cancelling the waiting owner of a slot blocks it. */
  lemma CancellationBlocks(moves: seq<Move>, worker: WorkerId, slot: ProjectionId)
    requires var system := Run(START, moves);
             && system.At(worker).Idle? && slot in system.store.slots && !system.store.slots[slot].dispatched
             && system.store.slots[slot].owner in system.store.commands
             && PreDispatch(system.store.commands[system.store.slots[slot].owner].state)
    ensures var system := Run(START, moves);
            var owner := system.store.slots[slot].owner;
            var after := Run(START, moves + [Cancel(worker, owner), Withdraw(worker)]);
            && Blocks(after.store, slot) && after.store.slots[slot] == system.store.slots[slot]
            && after.store.commands[owner].state == Cancelled
  {
    var system := Run(START, moves);
    RunKeepsInvariant(moves);
    var owner := system.store.slots[slot].owner;
    var held := system.store.commands[owner];
    assert ProjectionFits(system.store, slot) && CommandFits(system.store, owner);
    var both := [Cancel(worker, owner), Withdraw(worker)];
    assert moves + both == (moves + [both[0]]) + [both[1]];
    OneMore(START, moves, both[0]);
    OneMore(START, moves + [both[0]], both[1]);
    var withdrawing := Apply(system, both[0]);
    assert withdrawing == system.Goes(worker, Cancelling(owner, held));
  }

  lemma OneMore(system: System, moves: seq<Move>, move: Move)
    ensures Run(system, moves + [move]) == Apply(Run(system, moves), move)
  {
    assert (moves + [move])[..|moves|] == moves;
  }

  /**
   * In every reachable state: when an actor cancels the command that owns a
   * slot and waits for its dispatch, no later move of anybody gives the slot
   * to another command or has anything dispatched through it.
   */
  lemma CancelledOwnerBlocksSlot(moves: seq<Move>, worker: WorkerId, slot: ProjectionId, later: seq<Move>)
    requires var system := Run(START, moves);
             && system.At(worker).Idle? && slot in system.store.slots && !system.store.slots[slot].dispatched
             && system.store.slots[slot].owner in system.store.commands
             && PreDispatch(system.store.commands[system.store.slots[slot].owner].state)
    ensures var system := Run(START, moves);
            var owner := system.store.slots[slot].owner;
            var after := Run(START, moves + [Cancel(worker, owner), Withdraw(worker)] + later);
            Blocks(after.store, slot) && after.store.slots[slot] == system.store.slots[slot]
  {
    var both := [Cancel(worker, Run(START, moves).store.slots[slot].owner), Withdraw(worker)];
    CancellationBlocks(moves, worker, slot);
    RunAdds(START, moves + both, later);
    BlockedSlotNeverChanges(Run(START, moves + both), later, slot);
  }

  /** The smallest such run: one command takes a free slot and is cancelled, a second one cannot register. */
  lemma BlockedSlotIsReached(first: Envelope, worker: WorkerId)
    requires first.projection == Some(0) && !first.DryRun() && !first.Unlocks()
    ensures var moves := [Project(0, 0), Create(worker, 0, first), Decide(worker, Allow)];
            var registered := AfterRegistration(Run(START, moves), worker);
            && 0 in registered.store.slots && registered.store.slots[0] == Slot(1, 0, false)
            && 0 in registered.store.commands && PreDispatch(registered.store.commands[0].state)
  {
    var moves := [Project(0, 0), Create(worker, 0, first), Decide(worker, Allow)];
    var projected := Apply(START, Project(0, 0));
    assert moves == ([] + [moves[0]] + [moves[1]]) + [moves[2]];
    OneMore(START, [], moves[0]);
    OneMore(START, [] + [moves[0]], moves[1]);
    OneMore(START, [] + [moves[0]] + [moves[1]], moves[2]);
    assert Run(START, []) == START;
    ProjectKeepsInvariant(START, 0, 0);
    ValidationAdmits(projected, worker, 0, first);
    RegistrationTakesSlot(Validate(projected, worker, 0, first), worker, 0,
                          Aggregate(first, Received, 0).To(Validated), 0);
  }
}
