/**
 * Recovery of one logical Matter subscription: a bounded number of gap reads
 * and subscribe calls, deterministic back-off, and restarts from what was saved.
 */
module Subscription {
  import opened Wrappers

  const MAX_U8: nat := 255
  const MAX_U64: nat := 0xFFFF_FFFF_FFFF_FFFF
  const MAX_I64: nat := 0x7FFF_FFFF_FFFF_FFFF
  /** Last representable instant, in milliseconds. */
  const MAX_TIME: int := 8_210_266_876_799_999

  datatype Policy = Policy(
    maximumSubscribeAttempts: nat,
    maximumGapReads: nat,
    baseDelayMillis: nat,
    maximumDelayMillis: nat,
    jitterMillis: nat,
    sleepyReadIntervalMillis: nat)
  {
    /** What the validating constructor of a policy accepts. */
    predicate Valid() {
      && 0 < maximumSubscribeAttempts <= MAX_U8 && 0 < maximumGapReads <= MAX_U8
      && 0 < baseDelayMillis <= maximumDelayMillis <= MAX_U64
      && jitterMillis <= maximumDelayMillis && 0 < sleepyReadIntervalMillis <= MAX_U64
    }
  }

  datatype LossReason = SessionLost | ReportGap | ControllerRestarted

  datatype StoredState = Pending | Established | Stale | RepairNeeded

  /** The recovery facts that survive a restart. */
  datatype Checkpoint = Checkpoint(
    gapReason: Option<LossReason>,
    sleepy: bool,
    gapReads: nat,
    maximumGapReads: nat,
    subscribeAttempts: nat,
    maximumSubscribeAttempts: nat,
    retryAt: Option<int>,
    lastGapReadAt: Option<int>,
    sleepyReadIntervalMillis: nat)

  datatype Stored = Stored(state: StoredState, recovery: Checkpoint)

  datatype Phase = MarkStale | GapRead | Resubscribe | Waiting | Complete | RepairRequired

  datatype Action = DoMarkStale(reason: LossReason) | DoGapRead | DoResubscribe | WaitUntil(at: int) | DoRepair | Done

  datatype Outcome = StalePersisted | GapReadCompleted | GapReadFailed | Resubscribed | ResubscribeFailed

  // ----- bounded arithmetic ---------------------------------------------------------------

  function SaturatingIncrement(value: nat): nat {
    if value < MAX_U8 then value + 1 else MAX_U8
  }

  function Saturating(value: nat): nat {
    if value <= MAX_U64 then value else MAX_U64
  }

  function AddMillis(time: int, millis: nat): Option<int> {
    if millis > MAX_I64 || time + millis > MAX_TIME then None else Some(time + millis)
  }

  function Power(exponent: nat): (power: nat)
    ensures power >= 1
  {
    if exponent == 0 then 1 else 2 * Power(exponent - 1)
  }

  function Smaller(a: nat, b: nat): nat {
    if a < b then a else b
  }

  /** `digest` stands for the hash of the subscription and the attempt. */
  function Jitter(digest: nat, maximum: nat): nat {
    if maximum == 0 then 0 else digest % Saturating(maximum + 1)
  }

  function RetryDelay(policy: Policy, attempts: nat, digest: nat): nat {
    var exponent := Smaller(if attempts == 0 then 0 else attempts - 1, 31);
    var base := Saturating(policy.baseDelayMillis * Power(exponent));
    Smaller(Saturating(base + Jitter(digest, policy.jitterMillis)), policy.maximumDelayMillis)
  }

  lemma JitterBounded(digest: nat, maximum: nat)
    requires maximum <= MAX_U64
    ensures Jitter(digest, maximum) <= maximum
    ensures digest <= maximum < MAX_U64 ==> Jitter(digest, maximum) == digest
  {
  }

  /** Every delay lies between base and maximum, and grows with the attempts until it is capped. */
  lemma RetryDelayBounded(policy: Policy, attempts: nat, digest: nat)
    requires policy.Valid()
    ensures policy.baseDelayMillis <= RetryDelay(policy, attempts, digest) <= policy.maximumDelayMillis
    ensures var exponent := Smaller(if attempts == 0 then 0 else attempts - 1, 31);
            policy.baseDelayMillis * Power(exponent) <= policy.maximumDelayMillis ==>
              policy.baseDelayMillis * Power(exponent) <= RetryDelay(policy, attempts, digest)
                <= policy.baseDelayMillis * Power(exponent) + policy.jitterMillis
  {
    var power := Power(Smaller(if attempts == 0 then 0 else attempts - 1, 31));
    assert policy.baseDelayMillis * power >= policy.baseDelayMillis * 1;
    JitterBounded(digest, policy.jitterMillis);
  }

  /** Without jitter the first delay is the base, and every further one twice the one before until it is capped. */
  lemma DelaysDouble(policy: Policy, attempts: nat, digest: nat)
    requires policy.Valid() && policy.jitterMillis == 0 && 1 <= attempts < 32
    ensures RetryDelay(policy, 1, digest) == policy.baseDelayMillis
    ensures RetryDelay(policy, attempts + 1, digest)
            == Smaller(2 * RetryDelay(policy, attempts, digest), policy.maximumDelayMillis)
  {
    var power := Power(attempts - 1);
    assert Power(attempts) == 2 * power;
    assert policy.baseDelayMillis * Power(attempts) == 2 * (policy.baseDelayMillis * power);
    assert Power(0) == 1;
  }

  // ----- the machine ------------------------------------------------------------------------

  class SubscriptionRecovery {
    const policy: Policy
    const sleepy: bool
    const lossReason: LossReason
    /** The requested report intervals make a well-formed subscribe request. */
    const wellFormed: bool
    const digest: nat -> nat
    var lastGapReadAt: Option<int>
    var gapReads: nat
    var subscribeAttempts: nat
    var retryAt: Option<int>
    var phase: Phase

    /** Budgets hold, and a phase that will spend one has some left. */
    ghost predicate Valid()
      reads this
    {
      && policy.Valid()
      && gapReads <= policy.maximumGapReads && subscribeAttempts <= policy.maximumSubscribeAttempts
      && (phase.GapRead? ==> gapReads < policy.maximumGapReads && retryAt.None?)
      && (phase in {GapRead, Resubscribe, Waiting} ==> subscribeAttempts < policy.maximumSubscribeAttempts)
      && (phase in {MarkStale, Complete} ==> gapReads == 0 && subscribeAttempts == 0 && retryAt.None?)
    }

    /** Outcomes that can still be recorded in this cycle, at most. */
    ghost function Remaining(): nat
      requires Valid()
      reads this
    {
      if phase.Complete? || phase.RepairRequired? then 0
      else
        (if phase.MarkStale? then 1 else 0) + policy.maximumGapReads - gapReads
        + policy.maximumSubscribeAttempts - subscribeAttempts
    }

    constructor AfterLoss(policy: Policy, reason: LossReason, sleepy: bool, lastGapReadAt: Option<int>,
                          wellFormed: bool, digest: nat -> nat)
      requires policy.Valid()
      ensures Valid() && phase.MarkStale? && this.policy == policy && this.sleepy == sleepy
      ensures this.lastGapReadAt == lastGapReadAt && this.wellFormed == wellFormed
    {
      this.policy, this.sleepy, this.lossReason := policy, sleepy, reason;
      this.wellFormed, this.digest, this.lastGapReadAt := wellFormed, digest, lastGapReadAt;
      gapReads, subscribeAttempts, retryAt, phase := 0, 0, None, MarkStale;
    }

    /** Takes the budgets that were captured when the cycle began, not those of the current policy. */
    constructor FromStored(stored: Stored, current: Policy, wellFormed: bool, digest: nat -> nat)
      ensures policy == Captured(stored.recovery, current) && sleepy == stored.recovery.sleepy
      ensures policy.maximumGapReads == stored.recovery.maximumGapReads
      ensures policy.maximumSubscribeAttempts == stored.recovery.maximumSubscribeAttempts
      ensures policy.sleepyReadIntervalMillis == stored.recovery.sleepyReadIntervalMillis
      ensures gapReads == stored.recovery.gapReads && subscribeAttempts == stored.recovery.subscribeAttempts
      ensures retryAt == stored.recovery.retryAt && lastGapReadAt == stored.recovery.lastGapReadAt
      ensures lossReason == ReasonOf(stored) && phase == PhaseOf(stored) && this.wellFormed == wellFormed
    {
      policy, sleepy, lossReason := Captured(stored.recovery, current), stored.recovery.sleepy, ReasonOf(stored);
      this.wellFormed, this.digest, lastGapReadAt := wellFormed, digest, stored.recovery.lastGapReadAt;
      gapReads, subscribeAttempts := stored.recovery.gapReads, stored.recovery.subscribeAttempts;
      retryAt, phase := stored.recovery.retryAt, PhaseOf(stored);
    }

    function Save(): Checkpoint
      reads this
    {
      Checkpoint(if phase.Complete? then None else Some(lossReason), sleepy, gapReads, policy.maximumGapReads,
                 subscribeAttempts, policy.maximumSubscribeAttempts, retryAt, lastGapReadAt,
                 policy.sleepyReadIntervalMillis)
    }

    /** The end of the pause after the last gap read. */
    function NextReadAt(): Option<int>
      reads this
    {
      if lastGapReadAt.None? then None else AddMillis(lastGapReadAt.value, policy.sleepyReadIntervalMillis)
    }

    /** The node has had its pause, unless its end cannot be represented. */
    predicate Rested(now: int)
      reads this
    {
      lastGapReadAt.Some? && policy.sleepyReadIntervalMillis <= MAX_I64
      && lastGapReadAt.value + policy.sleepyReadIntervalMillis <= MAX_TIME ==>
        now - lastGapReadAt.value >= policy.sleepyReadIntervalMillis
    }

    predicate GapReadAllowed(now: int)
      reads this
    {
      gapReads < policy.maximumGapReads && (!sleepy || NextReadAt().None? || now >= NextReadAt().value)
    }

    /** A gap read is due but its budget is spent, and there is no pause left to wait for. */
    predicate Stalls(now: int)
      reads this
    {
      phase.GapRead? && gapReads >= policy.maximumGapReads && (NextReadAt().None? || NextReadAt().value <= now)
    }

    /** Whether the machine answers with a wait at this instant. */
    ghost predicate Waits(now: int)
      reads this
    {
      || (phase.Waiting? && retryAt.Some? && now < retryAt.value)
      || (phase.GapRead? && !GapReadAllowed(now))
    }

    /** The next action; only an expired back-off moves the machine. */
    method NextAction(now: int) returns (action: Action)
      modifies this`phase
      ensures phase == if old(phase).Waiting? && !old(Waits(now)) then Resubscribe else old(phase)
      ensures action.WaitUntil? <==> old(Waits(now))
      ensures action.WaitUntil? ==> (now < action.at <==> !old(Stalls(now)))
      ensures action.WaitUntil? && old(Valid()) ==>
                now < action.at && !Waits(action.at)
      ensures action.WaitUntil? && old(phase).Waiting? ==> retryAt == Some(action.at)
      ensures old(phase).GapRead? && gapReads < policy.maximumGapReads ==>
                (action.DoGapRead? <==> !sleepy || Rested(now))
      ensures !action.WaitUntil? ==>
                match phase
                case MarkStale => action == DoMarkStale(lossReason)
                case GapRead => action == DoGapRead
                case Resubscribe => action == if wellFormed then DoResubscribe else DoRepair
                case Complete => action == Done
                case RepairRequired => action == DoRepair
                case Waiting => false
      ensures old(Valid()) ==> Valid() && Remaining() == old(Remaining())
    {
      if phase.Waiting? {
        if retryAt.Some? && now < retryAt.value {
          return WaitUntil(retryAt.value);
        }
        phase := Resubscribe;
      }
      match phase
      case MarkStale => return DoMarkStale(lossReason);
      case GapRead =>
        if GapReadAllowed(now) {
          return DoGapRead;
        }
        return WaitUntil(if NextReadAt().Some? then NextReadAt().value else now);
      case Resubscribe => return if wellFormed then DoResubscribe else DoRepair;
      case Complete => return Done;
      case RepairRequired => return DoRepair;
    }

    /** Accepts only an outcome of the pending action; every accepted outcome spends something. */
    method RecordOutcome(outcome: Outcome, now: int) returns (accepted: bool)
      requires Valid()
      modifies this
      ensures Valid()
      ensures accepted <==>
                match outcome
                case StalePersisted => old(phase).MarkStale?
                case GapReadCompleted | GapReadFailed => old(phase).GapRead?
                case Resubscribed | ResubscribeFailed => old(phase).Resubscribe?
      ensures accepted ==> Remaining() < old(Remaining())
      ensures !accepted ==>
                phase == old(phase) && gapReads == old(gapReads) && subscribeAttempts == old(subscribeAttempts)
                            && retryAt == old(retryAt) && lastGapReadAt == old(lastGapReadAt)
      ensures accepted ==> (phase.Complete? <==> outcome.Resubscribed?)
      ensures accepted && outcome.StalePersisted? ==>
                phase.GapRead? && gapReads == old(gapReads) && subscribeAttempts == old(subscribeAttempts)
      ensures accepted && (outcome.GapReadCompleted? || outcome.GapReadFailed?) ==>
                && phase.Resubscribe? && gapReads == old(gapReads) + 1 && lastGapReadAt == Some(now)
                && subscribeAttempts == old(subscribeAttempts)
      ensures accepted && outcome.ResubscribeFailed? ==>
                && subscribeAttempts == old(subscribeAttempts) + 1 && gapReads == old(gapReads)
                && (phase.RepairRequired? <==> subscribeAttempts == policy.maximumSubscribeAttempts)
                && (phase.Waiting? && retryAt.Some? ==>
                      policy.baseDelayMillis <= retryAt.value - now <= policy.maximumDelayMillis)
                && (phase.Waiting? ==>
                      var delay := RetryDelay(policy, subscribeAttempts, digest(subscribeAttempts));
                      && (retryAt.Some? <==> delay <= MAX_I64 && now + delay <= MAX_TIME)
                      && (retryAt.Some? ==> retryAt.value - now == delay))
    {
      match (phase, outcome) {
        case (MarkStale, StalePersisted) => phase := GapRead;
        case (GapRead, GapReadCompleted) => FinishGapRead(now);
        case (GapRead, GapReadFailed) => FinishGapRead(now);
        case (Resubscribe, Resubscribed) => gapReads, subscribeAttempts, retryAt, phase := 0, 0, None, Complete;
        case (Resubscribe, ResubscribeFailed) =>
          subscribeAttempts := SaturatingIncrement(subscribeAttempts);
          if subscribeAttempts >= policy.maximumSubscribeAttempts {
            phase := RepairRequired;
          } else {
            var delay := RetryDelay(policy, subscribeAttempts, digest(subscribeAttempts));
            RetryDelayBounded(policy, subscribeAttempts, digest(subscribeAttempts));
            retryAt, phase := AddMillis(now, delay), Waiting;
          }
        case _ => return false;
      }
      return true;
    }

    method FinishGapRead(now: int)
      requires Valid() && phase.GapRead?
      modifies this
      ensures Valid() && phase.Resubscribe? && gapReads == old(gapReads) + 1 && lastGapReadAt == Some(now)
      ensures subscribeAttempts == old(subscribeAttempts) && retryAt == old(retryAt)
    {
      gapReads := SaturatingIncrement(gapReads);
      lastGapReadAt, phase := Some(now), Resubscribe;
    }
  }

  // ----- saving and restoring ----------------------------------------------------------------

  function Captured(recovery: Checkpoint, current: Policy): Policy {
    current.(maximumGapReads := recovery.maximumGapReads,
             maximumSubscribeAttempts := recovery.maximumSubscribeAttempts,
             sleepyReadIntervalMillis := recovery.sleepyReadIntervalMillis)
  }

  function ReasonOf(stored: Stored): LossReason {
    match stored.recovery.gapReason
    case Some(reason) => reason
    case None => if stored.state.Established? then ControllerRestarted else ReportGap
  }

  function PhaseOf(stored: Stored): Phase {
    match stored.state
    case Established => MarkStale
    case RepairNeeded => RepairRequired
    case _ =>
      if stored.recovery.retryAt.Some? then Waiting
      else if stored.recovery.gapReads < stored.recovery.maximumGapReads then GapRead
      else Resubscribe
  }

  /** The stored state that is saved together with the checkpoint of a phase. */
  function StateOf(phase: Phase): StoredState {
    match phase
    case MarkStale | Complete => Established
    case RepairRequired => RepairNeeded
    case _ => Stale
  }

  /** Restarts from what was last saved. */
  method Restart(machine: SubscriptionRecovery) returns (restored: SubscriptionRecovery)
    requires machine.Valid()
    ensures fresh(restored) && restored.Valid()
    ensures restored.policy == machine.policy && restored.wellFormed == machine.wellFormed
    ensures restored.gapReads == machine.gapReads && restored.subscribeAttempts == machine.subscribeAttempts
    ensures !machine.phase.Complete? ==>
              && restored.Save() == machine.Save()
              && restored.Remaining() == machine.Remaining()
              && StateOf(restored.phase) == StateOf(machine.phase)
    ensures machine.phase.Complete? ==> restored.phase.MarkStale?
    ensures restored.lossReason == if machine.phase.Complete? then ControllerRestarted else machine.lossReason
    ensures machine.phase in {MarkStale, GapRead, RepairRequired} ==> restored.phase == machine.phase
    ensures machine.phase in {Waiting, Resubscribe} ==>
              && (restored.phase.Waiting? <==> machine.retryAt.Some?)
              && (restored.phase.GapRead? <==>
                    machine.retryAt.None? && machine.gapReads < machine.policy.maximumGapReads)
              && (restored.phase.Resubscribe? <==>
                    machine.retryAt.None? && machine.gapReads == machine.policy.maximumGapReads)
    ensures machine.phase.Waiting? && machine.retryAt.Some? ==>
              forall now :: restored.Waits(now) <==> machine.Waits(now)
  {
    restored := new SubscriptionRecovery.FromStored(Stored(StateOf(machine.phase), machine.Save()), machine.policy,
                                                    machine.wellFormed, machine.digest);
  }

  // ----- a driver that obeys -------------------------------------------------------------------

  /** What a driver has done. */
  datatype Effort = Effort(outcomes: nat, gapReads: nat, subscribes: nat, waits: nat)

  /** Executes an action; `succeeds` is the answer of the node or the store. */
  method Execute(machine: SubscriptionRecovery, action: Action, succeeds: bool, now: int, done: Effort)
    returns (after: Effort)
    requires machine.Valid()
    requires match action
             case DoMarkStale(_) => machine.phase.MarkStale?
             case DoGapRead => machine.phase.GapRead?
             case DoResubscribe => machine.phase.Resubscribe?
             case _ => false
    modifies machine
    ensures machine.Valid() && machine.Remaining() < old(machine.Remaining())
    ensures after.outcomes == done.outcomes + 1 && after.waits == done.waits
    ensures machine.phase.Complete?
            || (&& after.gapReads - done.gapReads == machine.gapReads - old(machine.gapReads)
                && after.subscribes - done.subscribes == machine.subscribeAttempts - old(machine.subscribeAttempts))
    ensures machine.phase.Complete? ==>
              && after.gapReads == done.gapReads && after.subscribes == done.subscribes + 1
              && old(machine.phase).Resubscribe?
  {
    after := done.(outcomes := done.outcomes + 1);
    var outcome := StalePersisted;
    if action.DoGapRead? {
      outcome := if succeeds then GapReadCompleted else GapReadFailed;
      after := after.(gapReads := after.gapReads + 1);
    } else if action.DoResubscribe? {
      outcome := if succeeds then Resubscribed else ResubscribeFailed;
      after := after.(subscribes := after.subscribes + 1);
    }
    var accepted := machine.RecordOutcome(outcome, now);
  }

  /** What was spent so far and what may still be spent stay within what the cycle began with. */
  ghost predicate Within(machine: SubscriptionRecovery, done: Effort, budget: nat, gaps: nat, tries: nat)
    requires machine.Valid()
    reads machine
  {
    && done.outcomes + machine.Remaining() <= budget
    && (if machine.phase.Complete? then
          done.gapReads + gaps <= machine.policy.maximumGapReads
          && done.subscribes + tries <= machine.policy.maximumSubscribeAttempts
        else done.gapReads + gaps == machine.gapReads && done.subscribes + tries == machine.subscribeAttempts)
  }

  /** One action and what it led to. */
  method Turn(machine: SubscriptionRecovery, succeeds: bool, now: int, done: Effort, ghost budget: nat, ghost gaps: nat,
              ghost tries: nat) returns (last: Action, nowAfter: int, after: Effort)
    requires machine.Valid() && Within(machine, done, budget, gaps, tries)
    modifies machine
    ensures machine.Valid() && Within(machine, after, budget, gaps, tries)
    ensures last.Done? || last.DoRepair? ==> after == done
    ensures last.WaitUntil? ==>
              && old(machine.Waits(now)) && !machine.Waits(nowAfter) && nowAfter > now
              && after == done.(waits := done.waits + 1)
              && machine.Remaining() == old(machine.Remaining())
    ensures !last.Done? && !last.DoRepair? && !last.WaitUntil? ==>
              && machine.Remaining() < old(machine.Remaining())
              && after.waits == done.waits && after.outcomes == done.outcomes + 1
  {
    last := machine.NextAction(now);
    nowAfter, after := now, done;
    match last
    case Done =>
    case DoRepair =>
    case WaitUntil(at) => nowAfter, after := at, done.(waits := done.waits + 1);
    case _ => after := Execute(machine, last, succeeds, now, done);
  }

  /**
   * Obeys every action and may be restarted from what was saved `restarts`
   * times: the cycle ends, complete or in need of repair, within its budgets.
   */
  method Drive(first: SubscriptionRecovery, answers: nat -> bool, restart: nat -> bool, restarts: nat, start: int)
    returns (last: Action, done: Effort)
    requires first.Valid() && !first.phase.Complete?
    modifies first
    ensures last.Done? || last.DoRepair?
    ensures done.outcomes <= old(first.Remaining()) && done.waits <= done.outcomes + restarts + 1
    ensures done.gapReads <= first.policy.maximumGapReads - old(first.gapReads)
    ensures done.subscribes <= first.policy.maximumSubscribeAttempts - old(first.subscribeAttempts)
  {
    var machine, now, left: nat, turn := first, start, restarts, 0;
    done := Effort(0, 0, 0, 0);
    ghost var budget, gaps, tries := first.Remaining(), first.gapReads, first.subscribeAttempts;
    while true
      invariant machine.Valid() && (machine == first || fresh(machine)) && machine.policy == first.policy
      invariant Within(machine, done, budget, gaps, tries)
      invariant left <= restarts
      invariant done.waits <= done.outcomes + (restarts - left) + if machine.Waits(now) then 0 else 1
      decreases machine.Remaining(), left, if machine.Waits(now) then 1 else 0
    {
      if left > 0 && restart(turn) && !machine.phase.Complete? {
        machine := Restart(machine);
        left := left - 1;
      }
      last, now, done := Turn(machine, answers(turn), now, done, budget, gaps, tries);
      turn := turn + 1;
      if last.Done? || last.DoRepair? {
        return;
      }
    }
  }
}
