/**
 * The durable command store: compare-and-set transitions with an audit
 * trail, and desired slots whose replacement cancels the command they held.
 */
module CommandStore {
  import opened Wrappers
  import opened Domain

  type CommandId = nat
  type ProjectionId = nat

  /** The idempotency key of a request, which belongs to the actor who makes it. */
  datatype RequestKey = RequestKey(actor: nat, text: string)

  /** What never changes about a command. `projection` is the desired slot it competes for, if any. */
  datatype Envelope = Envelope(key: RequestKey, request: CommandRequest, projection: Option<ProjectionId>)
  {
    predicate DryRun() {
      request.dryRun
    }

    predicate Unlocks() {
      request.payload.Unlock?
    }
  }

  datatype Aggregate = Aggregate(envelope: Envelope, state: CommandState, version: nat)
  {
    predicate Terminal() {
      state.Terminal() || (envelope.DryRun() && state.Validated?)
    }

    function To(next: CommandState): Aggregate {
      this.(state := next, version := version + 1)
    }
  }

  datatype AuditEntry = AuditEntry(from: Option<CommandState>, to: CommandState)

  /** The command that owns a projection's desired state, and whether it has been dispatched. */
  datatype Slot = Slot(revision: nat, owner: CommandId, dispatched: bool)

  datatype Registration = Registration(revision: nat, command: CommandId)

  /** `keys` finds commands by their idempotency key; `registrations` and `superseded` are histories. */
  datatype Store = Store(
    commands: map<CommandId, Aggregate>,
    keys: map<RequestKey, CommandId>,
    audits: map<CommandId, seq<AuditEntry>>,
    slots: map<ProjectionId, Slot>,
    projections: map<ProjectionId, nat>,
    registrations: map<ProjectionId, seq<Registration>>,
    superseded: set<CommandId>)

  const EMPTY := Store(map[], map[], map[], map[], map[], map[], {})

  // ----- operations ------------------------------------------------------------------

  /** `Duplicate` is the error of an identity that is taken, which fresh identities never are. */
  datatype Creation = Created | Existing(id: CommandId) | Conflict(id: CommandId) | Duplicate

  /** A known key is answered with its command if the request is the same, and refused as a conflict otherwise. */
  function CreateCommand(store: Store, id: CommandId, envelope: Envelope): (Store, Creation) {
    if envelope.key in store.keys then
      var known := store.keys[envelope.key];
      if known in store.commands && store.commands[known].envelope.request == envelope.request
      then (store, Existing(known))
      else (store, Conflict(known))
    else if id in store.commands then (store, Duplicate)
    else
      (store.(commands := store.commands[id := Aggregate(envelope, Received, 0)],
              keys := store.keys[envelope.key := id],
              audits := store.audits[id := [AuditEntry(None, Received)]]),
       Created)
  }

  /** Compare-and-set on the version, along an edge of the lifecycle. */
  function TransitionCommand(store: Store, id: CommandId, held: Aggregate, next: CommandState): Option<Store> {
    if id !in store.commands || id !in store.audits then None
    else
      var current := store.commands[id];
      if current.version != held.version || !current.state.AllowsTransitionTo(next) then None
      else
        Some(store.(commands := store.commands[id := current.To(next)],
                    audits := store.audits[id := store.audits[id] + [AuditEntry(Some(current.state), next)]]))
  }

  predicate PreDispatch(state: CommandState) {
    state.Received? || state.Validated?
  }

  function History(store: Store, projection: ProjectionId): seq<Registration> {
    if projection in store.registrations then store.registrations[projection] else []
  }

  function Registered(store: Store, projection: ProjectionId, revision: nat, id: CommandId): Store {
    store.(slots := store.slots[projection := Slot(revision, id, false)],
           registrations :=
             store.registrations[projection := History(store, projection) + [Registration(revision, id)]])
  }

  /**
   * Makes `id` the owner of the slot. An owner that has not been dispatched
   * must be cancelled in the same write; one that has stays as it is.
   */
  function ReplaceSlot(store: Store, projection: ProjectionId, revision: nat, id: CommandId,
                       prior: Option<(CommandId, Aggregate)>): Option<Store> {
    if revision == 0 || id !in store.commands || store.commands[id].envelope.projection != Some(projection) then None
    else if !PreDispatch(store.commands[id].state) then None
    else if projection !in store.slots then
      if prior.Some? then None else Some(Registered(store, projection, revision, id))
    else
      var slot := store.slots[projection];
      if revision <= slot.revision then None
      else if slot.owner == id || slot.dispatched then
        if prior.Some? then None else Some(Registered(store, projection, revision, id))
      else if prior.None? || prior.value.0 != slot.owner then None
      else
        match TransitionCommand(store, slot.owner, prior.value.1, Cancelled)
        case None => None
        case Some(cancelled) =>
          Some(Registered(cancelled, projection, revision, id).(superseded := store.superseded + {slot.owner}))
  }

  /** The slot together with its projection, whose revision must be the one that was read. */
  function ReplaceDesired(store: Store, projection: ProjectionId, revision: nat, id: CommandId,
                          prior: Option<(CommandId, Aggregate)>, expected: nat): Option<Store> {
    if projection !in store.projections || store.projections[projection] != expected then None
    else
      match ReplaceSlot(store, projection, revision, id, prior)
      case None => None
      case Some(replaced) => Some(replaced.(projections := replaced.projections[projection := expected + 1]))
  }

  /** The owner of an undispatched slot crosses the dispatch boundary. */
  function RecordDispatch(store: Store, projection: ProjectionId, id: CommandId, held: Aggregate): Option<Store> {
    if projection !in store.slots || store.slots[projection].dispatched || store.slots[projection].owner != id then None
    else
      match TransitionCommand(store, id, held, Dispatched)
      case None => None
      case Some(moved) =>
        Some(moved.(slots := moved.slots[projection := moved.slots[projection].(dispatched := true)]))
  }

  // ----- what every operation keeps ------------------------------------------------------

  predicate Linked(audit: seq<AuditEntry>, k: nat)
    requires 0 < k < |audit|
  {
    audit[k].from == Some(audit[k - 1].to) && audit[k - 1].to.AllowsTransitionTo(audit[k].to)
  }

  /** A contiguous chain of from and to states along edges of the lifecycle. */
  ghost predicate AuditChain(audit: seq<AuditEntry>) {
    && audit != [] && audit[0] == AuditEntry(None, Received)
    && forall k :: 0 < k < |audit| ==> Linked(audit, k)
  }

  ghost predicate EverDispatched(audit: seq<AuditEntry>) {
    exists k :: 0 <= k < |audit| && audit[k].to == Dispatched
  }

  predicate BeyondDispatch(state: CommandState) {
    state in {Dispatched, Acknowledged, Confirmed, Failed}
  }

  lemma ChainPrefix(audit: seq<AuditEntry>, length: nat)
    requires AuditChain(audit) && 0 < length <= |audit|
    ensures AuditChain(audit[..length])
  {
    forall k | 0 < k < length
      ensures Linked(audit[..length], k)
    {
      assert Linked(audit, k);
    }
  }

  /** Whether a command has been dispatched shows in its state, or for one that timed out in the state before. */
  lemma {:induction false} StateShowsDispatch(audit: seq<AuditEntry>)
    requires AuditChain(audit)
    ensures var state := audit[|audit| - 1].to;
            && (PreDispatch(state) || state.Cancelled? || state.Rejected? ==> !EverDispatched(audit))
            && (BeyondDispatch(state) ==> EverDispatched(audit))
            && (state.TimedOut? ==>
                  |audit| > 1 && (EverDispatched(audit) <==> BeyondDispatch(audit[|audit| - 2].to)))
  {
    var last := |audit| - 1;
    if last > 0 {
      ChainPrefix(audit, last);
      assert Linked(audit, last);
      StateShowsDispatch(audit[..last]);
      assert EverDispatched(audit) <==> EverDispatched(audit[..last]) || audit[last].to == Dispatched by {
        if EverDispatched(audit[..last]) {
          var k :| 0 <= k < last && audit[..last][k].to == Dispatched;
          assert audit[k].to == Dispatched;
        }
        if EverDispatched(audit) && audit[last].to != Dispatched {
          var k :| 0 <= k < |audit| && audit[k].to == Dispatched;
          assert audit[..last][k].to == Dispatched;
        }
      }
    }
  }

  /** A command is dispatched at most once in its life. */
  lemma {:induction false} DispatchedOnce(audit: seq<AuditEntry>, first: nat, second: nat)
    requires AuditChain(audit)
    requires first < second < |audit| && audit[first].to == Dispatched
    ensures audit[second].to != Dispatched
  {
    ChainPrefix(audit, second);
    assert Linked(audit, second);
    StateShowsDispatch(audit[..second]);
    assert audit[..second][first].to == Dispatched;
  }

  ghost predicate CommandFits(store: Store, id: CommandId)
    requires id in store.commands
  {
    && id in store.audits && AuditChain(store.audits[id])
    && var audit, command := store.audits[id], store.commands[id];
       && command.version == |audit| - 1 && command.state == audit[|audit| - 1].to
       && (command.envelope.DryRun() ==> !EverDispatched(audit))
  }

  ghost predicate WasDispatched(store: Store, id: CommandId) {
    id in store.audits && EverDispatched(store.audits[id])
  }

  ghost predicate Increasing(history: seq<Registration>) {
    forall i, j :: 0 <= i < j < |history| ==> history[i].revision < history[j].revision
  }

  /** The newest registration owns the slot; every other command registered there is past waiting. */
  ghost predicate ProjectionFits(store: Store, projection: ProjectionId) {
    var history := History(store, projection);
    && (projection !in store.slots ==> history == [])
    && (projection in store.slots ==>
          var slot := store.slots[projection];
          && slot.owner in store.commands && !store.commands[slot.owner].envelope.DryRun()
          && store.commands[slot.owner].envelope.projection == Some(projection)
          && (slot.dispatched <==> WasDispatched(store, slot.owner))
          && history != [] && history[|history| - 1] == Registration(slot.revision, slot.owner)
          && Increasing(history)
          && forall k :: 0 <= k < |history| ==>
               && history[k].command in store.commands
               && (history[k].command == slot.owner || !PreDispatch(store.commands[history[k].command].state)))
  }

  ghost predicate StoreFits(store: Store) {
    && (forall id :: id in store.commands ==> CommandFits(store, id))
    && (forall id :: id in store.audits ==> id in store.commands)
    && (forall projection :: ProjectionFits(store, projection))
    && (forall id :: id in store.superseded ==> id in store.commands && store.commands[id].state == Cancelled)
  }

  /** Commands keep their envelopes and their past. */
  ghost predicate Grows(before: Store, after: Store) {
    && (forall id :: id in before.commands ==>
          id in after.commands && after.commands[id].envelope == before.commands[id].envelope)
    && (forall id :: id in before.audits ==> id in after.audits && before.audits[id] <= after.audits[id])
    && (forall projection :: History(before, projection) <= History(after, projection))
    && before.superseded <= after.superseded
  }

  lemma ExtendedChain(audit: seq<AuditEntry>, next: CommandState)
    requires AuditChain(audit) && audit[|audit| - 1].to.AllowsTransitionTo(next)
    ensures var longer := audit + [AuditEntry(Some(audit[|audit| - 1].to), next)];
            AuditChain(longer) && (EverDispatched(longer) <==> EverDispatched(audit) || next == Dispatched)
  {
    var longer := audit + [AuditEntry(Some(audit[|audit| - 1].to), next)];
    assert longer[|audit|].to == next;
    forall k | 0 < k < |longer|
      ensures Linked(longer, k)
    {
      assert k < |audit| ==> Linked(audit, k);
    }
    if EverDispatched(audit) {
      var k :| 0 <= k < |audit| && audit[k].to == Dispatched;
      assert longer[k].to == Dispatched;
    }
  }

  /** Of all commands only `id` differs; it may be new, and does not go back to waiting. */
  ghost predicate OnlyMoves(before: Store, after: Store, id: CommandId) {
    && id in after.commands
    && (forall other :: other in after.commands <==> other in before.commands || other == id)
    && (forall other :: other in after.audits <==> other in before.audits || other == id)
    && (forall other :: other in before.commands && other != id ==> after.commands[other] == before.commands[other])
    && (forall other :: other in before.audits && other != id ==> after.audits[other] == before.audits[other])
    && (id in before.commands ==>
          && after.commands[id].envelope == before.commands[id].envelope
          && (PreDispatch(after.commands[id].state) ==> PreDispatch(before.commands[id].state)))
  }

  lemma MoveKeepsCommands(before: Store, after: Store, id: CommandId)
    requires OnlyMoves(before, after, id) && CommandFits(after, id)
    requires forall other :: other in before.commands ==> CommandFits(before, other)
    ensures forall other :: other in after.commands ==> CommandFits(after, other)
  {
    forall other | other in after.commands
      ensures CommandFits(after, other)
    {
      assert other != id ==> CommandFits(before, other);
    }
  }

  lemma MoveKeepsProjection(before: Store, after: Store, id: CommandId, projection: ProjectionId)
    requires OnlyMoves(before, after, id) && ProjectionFits(before, projection)
    requires History(after, projection) == History(before, projection)
    requires projection in after.slots <==> projection in before.slots
    requires projection in before.slots ==>
               && after.slots[projection].(dispatched := before.slots[projection].dispatched)
                  == before.slots[projection]
               && (before.slots[projection].owner == id ==>
                     (after.slots[projection].dispatched <==> WasDispatched(after, id)))
               && (before.slots[projection].owner != id ==>
                     after.slots[projection].dispatched == before.slots[projection].dispatched)
    requires projection in before.slots ==> id in before.commands || before.slots[projection].owner != id
    requires id !in before.commands ==> id !in before.audits
    ensures ProjectionFits(after, projection)
  {
    var history := History(before, projection);
    forall k | 0 <= k < |history| && projection in before.slots
      ensures history[k].command in after.commands
      ensures || history[k].command == before.slots[projection].owner
              || !PreDispatch(after.commands[history[k].command].state)
    {
    }
  }

  lemma CreateKeeps(store: Store, id: CommandId, envelope: Envelope)
    requires StoreFits(store)
    ensures StoreFits(CreateCommand(store, id, envelope).0)
  {
    var (after, creation) := CreateCommand(store, id, envelope);
    if creation.Created? {
      assert !EverDispatched(after.audits[id]);
      MoveKeepsCommands(store, after, id);
      forall projection
        ensures ProjectionFits(after, projection)
      {
        assert ProjectionFits(store, projection);
        MoveKeepsProjection(store, after, id, projection);
      }
    }
  }

  lemma CreateGrowsStore(store: Store, id: CommandId, envelope: Envelope)
    requires StoreFits(store)
    ensures Grows(store, CreateCommand(store, id, envelope).0)
  {
    var after := CreateCommand(store, id, envelope).0;
    assert id in store.audits ==> id in store.commands;
    assert forall projection :: History(after, projection) == History(store, projection);
  }

  /** A transition leaves a well-formed command, dispatched exactly if it was before or is now. */
  lemma TransitionMoves(store: Store, id: CommandId, held: Aggregate, next: CommandState)
    requires TransitionCommand(store, id, held, next).Some?
    requires CommandFits(store, id)
    requires next == Dispatched ==> !store.commands[id].envelope.DryRun()
    ensures var after := TransitionCommand(store, id, held, next).value;
            && OnlyMoves(store, after, id) && CommandFits(after, id)
            && (WasDispatched(after, id) <==> WasDispatched(store, id) || next == Dispatched)
            && store.audits[id] <= after.audits[id]
  {
    ExtendedChain(store.audits[id], next);
  }

  /** A transition that is no dispatch, or a dispatch of a command that competes for no slot. */
  lemma TransitionKeeps(store: Store, id: CommandId, held: Aggregate, next: CommandState)
    requires StoreFits(store) && TransitionCommand(store, id, held, next).Some?
    requires next == Dispatched ==>
               !store.commands[id].envelope.DryRun() && store.commands[id].envelope.projection.None?
    ensures var after := TransitionCommand(store, id, held, next).value;
            StoreFits(after)
  {
    var after := TransitionCommand(store, id, held, next).value;
    assert CommandFits(store, id);
    TransitionMoves(store, id, held, next);
    MoveKeepsCommands(store, after, id);
    forall projection
      ensures ProjectionFits(after, projection)
    {
      assert ProjectionFits(store, projection);
      MoveKeepsProjection(store, after, id, projection);
    }
    assert id !in store.superseded;
  }

  /** Recording a dispatch marks the slot and the command together. */
  lemma RecordKeeps(store: Store, projection: ProjectionId, id: CommandId, held: Aggregate)
    requires StoreFits(store) && RecordDispatch(store, projection, id, held).Some?
    ensures var after := RecordDispatch(store, projection, id, held).value;
            StoreFits(after)
  {
    var after := RecordDispatch(store, projection, id, held).value;
    assert CommandFits(store, id) && ProjectionFits(store, projection);
    TransitionMoves(store, id, held, Dispatched);
    assert CommandFits(after, id) && WasDispatched(after, id);
    MoveKeepsCommands(store, after, id);
    forall other
      ensures ProjectionFits(after, other)
    {
      assert ProjectionFits(store, other);
      MoveKeepsProjection(store, after, id, other);
    }
    assert id !in store.superseded;
  }

  lemma AppendIncreases(history: seq<Registration>, last: Registration)
    requires Increasing(history)
    requires history != [] ==> history[|history| - 1].revision < last.revision
    ensures Increasing(history + [last])
  {
  }

  lemma SameCommandsFit(before: Store, after: Store)
    requires before.commands == after.commands && before.audits == after.audits
    requires forall id :: id in before.commands ==> CommandFits(before, id)
    ensures forall id :: id in after.commands ==> CommandFits(after, id)
  {
    forall id | id in after.commands
      ensures CommandFits(after, id)
    {
      assert CommandFits(before, id);
    }
  }

  lemma SameProjectionFits(before: Store, after: Store, projection: ProjectionId)
    requires before.commands == after.commands && before.audits == after.audits
    requires History(before, projection) == History(after, projection)
    requires projection in before.slots <==> projection in after.slots
    requires projection in before.slots ==> before.slots[projection] == after.slots[projection]
    requires ProjectionFits(before, projection)
    ensures ProjectionFits(after, projection)
  {
  }

  predicate MayRegister(store: Store, projection: ProjectionId, revision: nat, id: CommandId) {
    && id in store.commands && store.commands[id].envelope.projection == Some(projection)
    && !store.commands[id].envelope.DryRun() && PreDispatch(store.commands[id].state)
    && (projection in store.slots ==>
          var slot := store.slots[projection];
          && slot.revision < revision
          && (slot.owner == id || slot.owner !in store.commands || !PreDispatch(store.commands[slot.owner].state)))
  }

  lemma RegisterKeepsProjection(store: Store, projection: ProjectionId, revision: nat, id: CommandId)
    requires MayRegister(store, projection, revision, id) && CommandFits(store, id) && ProjectionFits(store, projection)
    ensures ProjectionFits(Registered(store, projection, revision, id), projection)
  {
    var after := Registered(store, projection, revision, id);
    var history := History(store, projection);
    StateShowsDispatch(store.audits[id]);
    AppendIncreases(history, Registration(revision, id));
    var longer := History(after, projection);
    forall k | 0 <= k < |longer|
      ensures longer[k].command in after.commands
      ensures longer[k].command == id || !PreDispatch(after.commands[longer[k].command].state)
    {
      assert k < |history| ==> longer[k] == history[k];
    }
  }

  lemma RegisterKeeps(store: Store, projection: ProjectionId, revision: nat, id: CommandId)
    requires StoreFits(store) && MayRegister(store, projection, revision, id)
    ensures StoreFits(Registered(store, projection, revision, id))
  {
    var after := Registered(store, projection, revision, id);
    SameCommandsFit(store, after);
    forall other
      ensures ProjectionFits(after, other)
    {
      assert ProjectionFits(store, other) && CommandFits(store, id);
      if other == projection {
        RegisterKeepsProjection(store, projection, revision, id);
      } else {
        SameProjectionFits(store, after, other);
      }
    }
  }

  /** Replacing a slot keeps the store fit, and cancels the owner that was still waiting. */
  lemma ReplaceKeeps(store: Store, projection: ProjectionId, revision: nat, id: CommandId,
                     prior: Option<(CommandId, Aggregate)>)
    requires StoreFits(store) && ReplaceSlot(store, projection, revision, id, prior).Some?
    requires !store.commands[id].envelope.DryRun()
    ensures var after := ReplaceSlot(store, projection, revision, id, prior).value;
            StoreFits(after)
  {
    assert ProjectionFits(store, projection);
    if projection in store.slots && store.slots[projection].owner != id && !store.slots[projection].dispatched {
      SupersessionKeeps(store, projection, revision, id, prior);
    } else {
      if projection in store.slots {
        var owner := store.slots[projection].owner;
        assert CommandFits(store, owner);
        StateShowsDispatch(store.audits[owner]);
      }
      RegisterKeeps(store, projection, revision, id);
    }
  }

  lemma SupersessionKeeps(store: Store, projection: ProjectionId, revision: nat, id: CommandId,
                          prior: Option<(CommandId, Aggregate)>)
    requires StoreFits(store) && ReplaceSlot(store, projection, revision, id, prior).Some?
    requires !store.commands[id].envelope.DryRun()
    requires projection in store.slots && store.slots[projection].owner != id && !store.slots[projection].dispatched
    ensures var after := ReplaceSlot(store, projection, revision, id, prior).value;
            StoreFits(after)
  {
    var owner := store.slots[projection].owner;
    var cancelled := TransitionCommand(store, owner, prior.value.1, Cancelled).value;
    TransitionKeeps(store, owner, prior.value.1, Cancelled);
    RegisterKeeps(cancelled, projection, revision, id);
    var registered := Registered(cancelled, projection, revision, id);
    var after := registered.(superseded := store.superseded + {owner});
    SameCommandsFit(registered, after);
    forall other
      ensures ProjectionFits(after, other)
    {
      assert ProjectionFits(registered, other);
      SameProjectionFits(registered, after, other);
    }
  }

  lemma ProjectionRevisionKeeps(store: Store, projection: ProjectionId, revision: nat)
    requires StoreFits(store)
    ensures var after := store.(projections := store.projections[projection := revision]);
            StoreFits(after)
  {
    var after := store.(projections := store.projections[projection := revision]);
    SameCommandsFit(store, after);
    forall other
      ensures ProjectionFits(after, other)
    {
      assert ProjectionFits(store, other);
      SameProjectionFits(store, after, other);
    }
  }

  // ----- nothing is forgotten ---------------------------------------------------------------

  lemma TransitionGrows(store: Store, id: CommandId, held: Aggregate, next: CommandState)
    requires TransitionCommand(store, id, held, next).Some?
    ensures Grows(store, TransitionCommand(store, id, held, next).value)
  {
  }

  lemma RecordGrows(store: Store, projection: ProjectionId, id: CommandId, held: Aggregate)
    requires RecordDispatch(store, projection, id, held).Some?
    ensures Grows(store, RecordDispatch(store, projection, id, held).value)
  {
  }

  lemma ReplaceGrows(store: Store, projection: ProjectionId, revision: nat, id: CommandId,
                     prior: Option<(CommandId, Aggregate)>)
    requires ReplaceSlot(store, projection, revision, id, prior).Some?
    ensures Grows(store, ReplaceSlot(store, projection, revision, id, prior).value)
  {
    var after := ReplaceSlot(store, projection, revision, id, prior).value;
    forall other
      ensures History(store, other) <= History(after, other)
    {
      assert other != projection ==> History(after, other) == History(store, other);
    }
  }

  // ----- one command per key ----------------------------------------------------------------

  /** Commands and keys belong to each other one to one. */
  ghost predicate KeysFit(store: Store) {
    && (forall id :: id in store.commands ==>
          store.commands[id].envelope.key in store.keys && store.keys[store.commands[id].envelope.key] == id)
    && (forall key :: key in store.keys ==>
          store.keys[key] in store.commands && store.commands[store.keys[key]].envelope.key == key)
  }

  /** The operation creates no command. */
  ghost predicate SameEnvelopes(before: Store, after: Store) {
    && after.keys == before.keys && after.commands.Keys == before.commands.Keys
    && forall id :: id in before.commands ==> after.commands[id].envelope == before.commands[id].envelope
  }

  lemma SameEnvelopesKeepKeys(before: Store, after: Store)
    requires KeysFit(before) && SameEnvelopes(before, after)
    ensures KeysFit(after)
  {
  }

  lemma WritesKeepEnvelopes(store: Store, id: CommandId, held: Aggregate, next: CommandState, projection: ProjectionId,
                            revision: nat, prior: Option<(CommandId, Aggregate)>, expected: nat)
    ensures TransitionCommand(store, id, held, next).Some? ==>
              SameEnvelopes(store, TransitionCommand(store, id, held, next).value)
    ensures RecordDispatch(store, projection, id, held).Some? ==>
              SameEnvelopes(store, RecordDispatch(store, projection, id, held).value)
    ensures ReplaceDesired(store, projection, revision, id, prior, expected).Some? ==>
              SameEnvelopes(store, ReplaceDesired(store, projection, revision, id, prior, expected).value)
  {
  }

  lemma CreateKeepsKeys(store: Store, id: CommandId, envelope: Envelope)
    requires KeysFit(store)
    ensures KeysFit(CreateCommand(store, id, envelope).0)
  {
  }

  /**
   * A request is answered with the command of its key exactly if one was made
   * with the same request, refused as a conflict exactly if one was made with
   * another, and otherwise creates the only command of its key. Whoever asks
   * again, under whatever identity, gets that command.
   */
  lemma CreateAnswers(store: Store, id: CommandId, envelope: Envelope, again: CommandId)
    requires KeysFit(store)
    ensures var (after, creation) := CreateCommand(store, id, envelope);
            && (forall known :: creation == Existing(known) <==>
                  known in store.commands && store.commands[known].envelope.key == envelope.key
                  && store.commands[known].envelope.request == envelope.request)
            && (forall known :: creation == Conflict(known) <==>
                  known in store.commands && store.commands[known].envelope.key == envelope.key
                  && store.commands[known].envelope.request != envelope.request)
            && (!creation.Created? ==> after == store)
            && (creation.Created? ==>
                  && id !in store.commands && id in after.commands && after.commands[id].envelope == envelope
                  && CreateCommand(after, again, envelope) == (after, Existing(id)))
  {
  }

  // ----- a slot that cannot be replaced -------------------------------------------------

  /** What a registration that has read the slot and its owner proposes as superseded. */
  function Superseding(store: Store, slot: Slot): Option<(CommandId, Aggregate)> {
    if slot.dispatched || slot.owner !in store.commands then None
    else Some((slot.owner, store.commands[slot.owner]))
  }

  /**
   * A waiting command can take over a slot exactly when the slot's owner has
   * been dispatched or can still be cancelled. An owner that ended before its
   * dispatch in any other way blocks the slot for good.
   */
  lemma ReplaceableIffOwnerCancellableOrDispatched(store: Store, projection: ProjectionId, id: CommandId)
    requires StoreFits(store) && projection in store.slots && store.slots[projection].owner != id
    requires id in store.commands && PreDispatch(store.commands[id].state)
    requires store.commands[id].envelope.projection == Some(projection)
    ensures var slot := store.slots[projection];
            slot.owner in store.commands
            && (ReplaceSlot(store, projection, slot.revision + 1, id, Superseding(store, slot)).Some?
                <==> slot.dispatched || PreDispatch(store.commands[slot.owner].state))
  {
    assert ProjectionFits(store, projection);
    assert CommandFits(store, store.slots[projection].owner);
  }

  /** The slot's owner ended before its dispatch. */
  predicate Blocks(store: Store, projection: ProjectionId) {
    && projection in store.slots && !store.slots[projection].dispatched
    && store.slots[projection].owner in store.commands
    && !PreDispatch(store.commands[store.slots[projection].owner].state)
  }

  /** No revision and no proposal lets another command into a slot whose owner ended before its dispatch. */
  lemma BlockedSlotIsNotReplaced(store: Store, projection: ProjectionId, revision: nat, id: CommandId,
                                 prior: Option<(CommandId, Aggregate)>, held: Aggregate)
    requires Blocks(store, projection)
    ensures ReplaceSlot(store, projection, revision, id, prior).None?
    ensures RecordDispatch(store, projection, id, held).None?
  {
  }
}
