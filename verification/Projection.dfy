/**
 * Folding of Matter attribute reports into one projected state, together
 * with new desired states and staleness marks.
 */
module Projection {
  import opened Wrappers

  const TWO_TO_31: nat := 0x8000_0000
  const TWO_TO_32: nat := 0x1_0000_0000

  type Path = (nat, nat, nat, nat)

  datatype Rule = OnOffV1 | AccessControlV1 | OtherRule

  datatype LockState = NotFullyLocked | Unlocked | Locked | UnknownLock

  datatype StateValue =
    OnOff(on: bool) | LevelPercent(percent: nat) | PositionPercent(percent: nat) | Lock(lock: LockState)

  datatype RawValue = RawBoolean(flag: bool) | RawUnsigned(number: nat) | RawOther

  datatype Report = Report(path: Path, value: RawValue, dataVersion: Option<nat>, sequence: nat, observedAt: int)
  {
    predicate Valid() {
      dataVersion.Some? ==> dataVersion.value < TWO_TO_32
    }
  }

  datatype Reported = Reported(value: StateValue, dataVersion: Option<nat>, sequence: nat, observedAt: int,
                               receivedAt: int)

  datatype Desired = Desired(revision: nat, value: StateValue)

  datatype Freshness = UnknownFreshness | Fresh | Stale

  datatype Convergence = NoDesiredState | Pending | Confirmed | Diverged | Indeterminate

  datatype Uncertainty = SubscriptionLost | ReportGap | ReadFailed | DescriptorChanged | InFlightOutcomeUnknown

  datatype Projected = Projected(
    desired: Option<Desired>,
    reported: Option<Reported>,
    confirmedRevision: Option<nat>,
    freshness: Freshness,
    convergence: Convergence,
    uncertainty: Option<Uncertainty>)

  datatype StateError =
    | PercentOutOfRange | ConfirmedRevisionAhead | ConfirmationWithoutDesiredState
    | ConfirmedConvergenceMismatch | DesiredStateConvergenceMismatch

  datatype Rejection =
    | TargetMismatch | StaleSequence | ConflictingDuplicate | StaleDataVersion | IncompatibleValue | InvalidTime

  datatype Decision = Applied(reported: Reported) | Duplicate | Rejected(rejection: Rejection)

  // ----- reports -----------------------------------------------------------------------

  function MapValue(rule: Rule, value: RawValue): Option<StateValue> {
    match (rule, value)
    case (OnOffV1, RawBoolean(on)) => Some(OnOff(on))
    case (AccessControlV1, RawUnsigned(raw)) =>
      Some(Lock(if raw == 1 then NotFullyLocked else if raw == 2 then Unlocked else if raw == 3 then Locked
                else UnknownLock))
    case _ => None
  }

  /** Difference of 32-bit versions with wrap-around. */
  function WrappingSub(next: nat, previous: nat): nat
    requires next < TWO_TO_32 && previous < TWO_TO_32
  {
    (next - previous + TWO_TO_32) % TWO_TO_32
  }

  predicate VersionFits(version: Option<nat>) {
    version.Some? ==> version.value < TWO_TO_32
  }

  predicate DataVersionAdvances(current: Reported, next: Option<nat>, value: StateValue)
    requires VersionFits(current.dataVersion) && VersionFits(next)
  {
    match (current.dataVersion, next)
    case (Some(previous), Some(version)) =>
      if previous == version then current.value == value else WrappingSub(version, previous) < TWO_TO_31
    case _ => true
  }

  function Normalize(rule: Rule, path: Path, report: Report, receivedAt: int, current: Option<Reported>): Decision
    requires report.Valid() && (current.Some? ==> VersionFits(current.value.dataVersion))
  {
    if report.path != path then Rejected(TargetMismatch)
    else
      match MapValue(rule, report.value)
      case None => Rejected(IncompatibleValue)
      case Some(value) =>
        if report.observedAt > receivedAt then Rejected(InvalidTime)
        else if current.Some? && report.sequence < current.value.sequence then Rejected(StaleSequence)
        else if current.Some? && report.sequence == current.value.sequence then
          if current.value.value == value && current.value.dataVersion == report.dataVersion then Duplicate
          else Rejected(ConflictingDuplicate)
        else if current.Some? && !DataVersionAdvances(current.value, report.dataVersion, value) then
          Rejected(StaleDataVersion)
        else Applied(Reported(value, report.dataVersion, report.sequence, report.observedAt, receivedAt))
  }

  // ----- projected state ---------------------------------------------------------------

  predicate InRange(value: StateValue) {
    match value
    case LevelPercent(percent) => percent <= 100
    case PositionPercent(percent) => percent <= 100
    case _ => true
  }

  /** The checks under which a projected state may be formed. */
  function Checked(state: Projected): Result<Projected, StateError> {
    if state.desired.Some? && !InRange(state.desired.value.value) then Err(PercentOutOfRange)
    else if state.desired.Some? && state.confirmedRevision.Some?
            && state.confirmedRevision.value > state.desired.value.revision then Err(ConfirmedRevisionAhead)
    else if state.desired.None? && state.confirmedRevision.Some? then Err(ConfirmationWithoutDesiredState)
    else if state.convergence.Confirmed?
            && state.confirmedRevision != (if state.desired.None? then None else Some(state.desired.value.revision))
    then Err(ConfirmedConvergenceMismatch)
    else if state.convergence.NoDesiredState? && state.desired.Some? then Err(DesiredStateConvergenceMismatch)
    else Ok(state)
  }

  /** Only a report caused by the very desired revision confirms it. */
  function AdvanceProjected(state: Projected, reported: Reported, causedBy: Option<nat>)
    : Result<Projected, StateError>
  {
    var (confirmed, convergence) :=
      match state.desired
      case None => (None, NoDesiredState)
      case Some(desired) =>
        if desired.value == reported.value && causedBy == Some(desired.revision)
        then (Some(desired.revision), Confirmed)
        else if desired.value == reported.value then (state.confirmedRevision, Pending)
        else (state.confirmedRevision, Diverged);
    Checked(Projected(state.desired, Some(reported), confirmed, Fresh, convergence, None))
  }

  function AdvanceDesired(state: Projected, desired: Desired): Result<Projected, StateError> {
    Checked(Projected(Some(desired), state.reported, state.confirmedRevision, state.freshness, Pending,
                      state.uncertainty))
  }

  function MarkStale(state: Projected, uncertainty: Uncertainty): Result<Projected, StateError> {
    Checked(Projected(state.desired, state.reported, state.confirmedRevision, Stale,
                      if state.convergence.Confirmed? && state.desired.Some? then Pending else state.convergence,
                      Some(uncertainty)))
  }

  const INITIAL := Projected(None, None, None, UnknownFreshness, NoDesiredState, None)

  // ----- what happens to one projection -------------------------------------------------

  datatype Step =
    | Receive(report: Report, receivedAt: int, causedBy: Option<nat>)
    | Desire(desired: Desired)
    | Lose(uncertainty: Uncertainty)

  predicate StepFits(step: Step) {
    step.Receive? ==> step.report.Valid()
  }

  ghost predicate StateFits(state: Projected) {
    && Checked(state).Ok?
    && (state.reported.Some? ==> VersionFits(state.reported.value.dataVersion))
    && (state.convergence.Confirmed? ==>
          && state.desired.Some? && state.reported.Some?
          && state.reported.value.value == state.desired.value.value
          && state.confirmedRevision == Some(state.desired.value.revision))
  }

  /** An operation that fails is not stored. */
  function Kept(state: Projected, result: Result<Projected, StateError>): Projected {
    match result
    case Ok(next) => next
    case Err(_) => state
  }

  function Apply(rule: Rule, path: Path, state: Projected, step: Step): Projected
    requires StateFits(state) && StepFits(step)
  {
    match step
    case Receive(report, receivedAt, causedBy) =>
      (match Normalize(rule, path, report, receivedAt, state.reported)
       case Applied(reported) => Kept(state, AdvanceProjected(state, reported, causedBy))
       case _ => state)
    case Desire(desired) => Kept(state, AdvanceDesired(state, desired))
    case Lose(uncertainty) => Kept(state, MarkStale(state, uncertainty))
  }

  lemma ApplyKeepsState(rule: Rule, path: Path, state: Projected, step: Step)
    requires StateFits(state) && StepFits(step)
    ensures StateFits(Apply(rule, path, state, step))
  {
  }

  function Run(rule: Rule, path: Path, steps: seq<Step>): (state: Projected)
    requires forall k :: 0 <= k < |steps| ==> StepFits(steps[k])
    ensures StateFits(state)
    decreases |steps|
  {
    if steps == [] then INITIAL
    else
      var before := Run(rule, path, steps[..|steps| - 1]);
      ApplyKeepsState(rule, path, before, steps[|steps| - 1]);
      Apply(rule, path, before, steps[|steps| - 1])
  }

  /** A step is accepted when it replaces the reported state. */
  predicate Accepts(rule: Rule, path: Path, state: Projected, step: Step)
    requires StateFits(state) && StepFits(step)
  {
    step.Receive? && Normalize(rule, path, step.report, step.receivedAt, state.reported).Applied?
  }

  /**
   * Reports and staleness marks never fail, and a desired state fails exactly
   * behind a confirmed revision or out of range.
   */
  lemma StepsFailOnlyBehind(rule: Rule, path: Path, state: Projected, step: Step)
    requires StateFits(state) && StepFits(step)
    ensures Accepts(rule, path, state, step) ==>
              Apply(rule, path, state, step).reported
              == Some(Normalize(rule, path, step.report, step.receivedAt, state.reported).reported)
    ensures step.Lose? ==> MarkStale(state, step.uncertainty).Ok?
    ensures step.Desire? ==>
              (AdvanceDesired(state, step.desired).Err?
               <==> !InRange(step.desired.value)
                    || (state.confirmedRevision.Some? && state.confirmedRevision.value > step.desired.revision))
  {
  }

  /**
   * Confirmed means that the reported value is the desired one and exactly
   * the current desired revision was confirmed; and it is reached only by a
   * report that this revision caused.
   */
  lemma {:induction false} ConfirmedMeansReported(rule: Rule, path: Path, steps: seq<Step>)
    requires forall k :: 0 <= k < |steps| ==> StepFits(steps[k])
    requires Run(rule, path, steps).convergence.Confirmed?
    ensures var state := Run(rule, path, steps);
            && state.desired.Some? && state.reported.Some?
            && state.reported.value.value == state.desired.value.value
            && state.confirmedRevision == Some(state.desired.value.revision)
            && exists k :: 0 <= k < |steps| && steps[k].Receive?
                           && steps[k].causedBy == Some(state.desired.value.revision)
                           && steps[k].report.sequence == state.reported.value.sequence
    decreases |steps|
  {
    var last := |steps| - 1;
    var before := Run(rule, path, steps[..last]);
    if before.convergence.Confirmed? && Run(rule, path, steps) == before {
      ConfirmedMeansReported(rule, path, steps[..last]);
      var k :| 0 <= k < last && steps[..last][k].Receive?
        && steps[..last][k].causedBy == Some(before.desired.value.revision)
        && steps[..last][k].report.sequence == before.reported.value.sequence;
      assert steps[k] == steps[..last][k];
    } else {
      assert steps[last].Receive?;
    }
  }

  // ----- order of reports ------------------------------------------------------------------

  /** Serial number order of section 3.2 of RFC 1982 for 32-bit numbers. */
  predicate SerialLess(first: nat, second: nat) {
    || (first < second && second - first < TWO_TO_31)
    || (first > second && first - second > TWO_TO_31)
  }

  /** A different version is accepted exactly when it is later in serial number order. */
  lemma VersionAdvancesIffSerialLater(current: Reported, next: nat, value: StateValue)
    requires current.dataVersion.Some? && current.dataVersion.value < TWO_TO_32 && next < TWO_TO_32
    ensures next != current.dataVersion.value ==>
              (DataVersionAdvances(current, Some(next), value) <==> SerialLess(current.dataVersion.value, next))
    ensures next == current.dataVersion.value ==>
              (DataVersionAdvances(current, Some(next), value) <==> value == current.value)
  {
    var previous := current.dataVersion.value;
    if previous <= next {
      assert WrappingSub(next, previous) == next - previous;
    } else {
      assert WrappingSub(next, previous) == next - previous + TWO_TO_32;
    }
  }

  /** Accepted reports follow one another in sequence and version. */
  ghost predicate Follows(previous: Option<Reported>, next: Reported) {
    previous.Some? ==>
      && previous.value.sequence < next.sequence
      && (previous.value.dataVersion.Some? && next.dataVersion.Some? ==>
            if previous.value.dataVersion == next.dataVersion then previous.value.value == next.value
            else SerialLess(previous.value.dataVersion.value, next.dataVersion.value))
  }

  /** Every step keeps the reported state or replaces it by one that follows it. */
  lemma StepFollows(rule: Rule, path: Path, state: Projected, step: Step)
    requires StateFits(state) && StepFits(step)
    ensures var after := Apply(rule, path, state, step);
            after.reported == state.reported || (after.reported.Some? && Follows(state.reported, after.reported.value))
    ensures Accepts(rule, path, state, step) <==> Apply(rule, path, state, step).reported != state.reported
  {
    if Accepts(rule, path, state, step) && state.reported.Some? && state.reported.value.dataVersion.Some?
       && step.report.dataVersion.Some? {
      VersionAdvancesIffSerialLater(state.reported.value, step.report.dataVersion.value,
                                    MapValue(rule, step.report.value).value);
    }
  }

  /** Once a report was accepted, no later moment has a lower sequence. */
  lemma {:induction false} SequencesNeverFall(rule: Rule, path: Path, steps: seq<Step>, k: nat)
    requires forall i :: 0 <= i < |steps| ==> StepFits(steps[i])
    requires k <= |steps| && Run(rule, path, steps[..k]).reported.Some?
    ensures Run(rule, path, steps).reported.Some?
    ensures Run(rule, path, steps[..k]).reported.value.sequence <= Run(rule, path, steps).reported.value.sequence
    decreases |steps|
  {
    if k < |steps| {
      var last := |steps| - 1;
      assert steps[..last][..k] == steps[..k];
      SequencesNeverFall(rule, path, steps[..last], k);
      StepFollows(rule, path, Run(rule, path, steps[..last]), steps[last]);
    } else {
      assert steps[..k] == steps;
    }
  }

  /**
   * A report that was accepted once changes nothing when it is delivered
   * again, at any later point, at any time and with any causation.
   */
  lemma RedeliveryChangesNothing(rule: Rule, path: Path, steps: seq<Step>, k: nat, receivedAt: int,
                                 causedBy: Option<nat>)
    requires forall i :: 0 <= i < |steps| ==> StepFits(steps[i])
    requires k < |steps| && Accepts(rule, path, Run(rule, path, steps[..k]), steps[k])
    ensures var state := Run(rule, path, steps);
            var again := Receive(steps[k].report, receivedAt, causedBy);
            && !Accepts(rule, path, state, again) && Apply(rule, path, state, again) == state
  {
    assert steps[..k + 1][..k] == steps[..k];
    StepsFailOnlyBehind(rule, path, Run(rule, path, steps[..k]), steps[k]);
    SequencesNeverFall(rule, path, steps, k + 1);
  }

  // ----- what a reported value says about the device ------------------------------------------

  /** Which raw attribute a projected value stands for, as the clusters number them. */
  predicate StandsFor(value: StateValue, raw: RawValue) {
    match value
    case OnOff(on) => raw == RawBoolean(on)
    case Lock(Locked) => raw == RawUnsigned(3)
    case Lock(Unlocked) => raw == RawUnsigned(2)
    case Lock(NotFullyLocked) => raw == RawUnsigned(1)
    case Lock(UnknownLock) => raw.RawUnsigned? && raw.number !in {1, 2, 3}
    case _ => false
  }

  /** The raw attribute is of the kind the rule expects. */
  predicate Suits(rule: Rule, raw: RawValue) {
    (rule.OnOffV1? && raw.RawBoolean?) || (rule.AccessControlV1? && raw.RawUnsigned?)
  }

  /**
   * A report is accepted exactly when it is for this path, suits the rule, is
   * not from the future, is newer in sequence, and has a version that is
   * serially later, or equal with the same value, where both have one.
   */
  lemma AcceptedIff(rule: Rule, path: Path, state: Projected, step: Step)
    requires StateFits(state) && StepFits(step)
    ensures Accepts(rule, path, state, step) <==>
              && step.Receive? && step.report.path == path && Suits(rule, step.report.value)
              && step.report.observedAt <= step.receivedAt
              && (state.reported.Some? ==>
                    var previous, version := state.reported.value, step.report.dataVersion;
                    && previous.sequence < step.report.sequence
                    && (previous.dataVersion.Some? && version.Some? ==>
                          if previous.dataVersion == version then StandsUnder(rule, previous.value, step.report.value)
                          else SerialLess(previous.dataVersion.value, version.value)))
  {
    if step.Receive? && Suits(rule, step.report.value) && state.reported.Some?
       && state.reported.value.dataVersion.Some? && step.report.dataVersion.Some? {
      VersionAdvancesIffSerialLater(state.reported.value, step.report.dataVersion.value,
                                    MapValue(rule, step.report.value).value);
    }
  }

  /** The value is the one that the rule reads from the raw attribute. */
  predicate StandsUnder(rule: Rule, value: StateValue, raw: RawValue) {
    Suits(rule, raw) && StandsFor(value, raw)
  }

  ghost predicate LastAccepted(rule: Rule, path: Path, steps: seq<Step>, k: nat)
    requires forall i :: 0 <= i < |steps| ==> StepFits(steps[i])
  {
    && k < |steps| && AcceptsAt(rule, path, steps, k)
    && forall j :: k < j < |steps| ==> !AcceptsAt(rule, path, steps, j)
  }

  ghost predicate AcceptsAt(rule: Rule, path: Path, steps: seq<Step>, j: nat)
    requires j < |steps| && forall i :: 0 <= i < |steps| ==> StepFits(steps[i])
  {
    Accepts(rule, path, Run(rule, path, steps[..j]), steps[j])
  }

  lemma AcceptsAtPrefix(rule: Rule, path: Path, steps: seq<Step>, length: nat, j: nat)
    requires j < length <= |steps| && forall i :: 0 <= i < |steps| ==> StepFits(steps[i])
    ensures AcceptsAt(rule, path, steps[..length], j) <==> AcceptsAt(rule, path, steps, j)
  {
    assert steps[..length][..j] == steps[..j];
  }

  /** The reported value is the one that the accepted step carries. */
  predicate Carries(rule: Rule, reported: Option<Reported>, step: Step) {
    && step.Receive? && reported.Some? && StandsUnder(rule, reported.value.value, step.report.value)
    && reported.value.sequence == step.report.sequence && reported.value.dataVersion == step.report.dataVersion
    && reported.value.observedAt == step.report.observedAt && reported.value.receivedAt == step.receivedAt
  }

  lemma AcceptedIsStored(rule: Rule, path: Path, state: Projected, step: Step)
    requires StateFits(state) && StepFits(step) && Accepts(rule, path, state, step)
    ensures Carries(rule, Apply(rule, path, state, step).reported, step)
  {
    StepsFailOnlyBehind(rule, path, state, step);
  }

  lemma NotAcceptedKeeps(rule: Rule, path: Path, state: Projected, step: Step)
    requires StateFits(state) && StepFits(step) && !Accepts(rule, path, state, step)
    ensures Apply(rule, path, state, step).reported == state.reported
  {
    StepFollows(rule, path, state, step);
  }

  /** The last accepted step stays the last one while nothing is accepted. */
  lemma LastAcceptedShorter(rule: Rule, path: Path, steps: seq<Step>, k: nat)
    requires forall i :: 0 <= i < |steps| ==> StepFits(steps[i])
    requires steps != [] && k < |steps| - 1
    ensures var last := |steps| - 1;
            LastAccepted(rule, path, steps, k) <==>
              && LastAccepted(rule, path, steps[..last], k)
              && !AcceptsAt(rule, path, steps, last)
  {
    var last := |steps| - 1;
    forall j | 0 <= j < last
      ensures AcceptsAt(rule, path, steps[..last], j) <==> AcceptsAt(rule, path, steps, j)
    {
      AcceptsAtPrefix(rule, path, steps, last, j);
    }
  }

  /** What the projection reports is what the last accepted report carries. */
  lemma {:induction false} ReportedIsLastAccepted(rule: Rule, path: Path, steps: seq<Step>, k: nat)
    requires forall i :: 0 <= i < |steps| ==> StepFits(steps[i])
    requires LastAccepted(rule, path, steps, k)
    ensures Carries(rule, Run(rule, path, steps).reported, steps[k])
    decreases |steps|
  {
    var last := |steps| - 1;
    if k < last {
      LastAcceptedShorter(rule, path, steps, k);
      ReportedIsLastAccepted(rule, path, steps[..last], k);
      NotAcceptedKeeps(rule, path, Run(rule, path, steps[..last]), steps[last]);
    } else {
      AcceptedIsStored(rule, path, Run(rule, path, steps[..last]), steps[last]);
    }
  }

  /**
   * A lock is reported locked exactly when the last accepted report carries 3,
   * unlocked exactly when it carries 2, and a switch on or off exactly as the
   * flag it carries.
   */
  lemma ReportedValueSays(rule: Rule, path: Path, steps: seq<Step>, k: nat, on: bool)
    requires forall i :: 0 <= i < |steps| ==> StepFits(steps[i])
    requires LastAccepted(rule, path, steps, k)
    ensures Run(rule, path, steps).reported.Some?
    ensures var value, raw := Run(rule, path, steps).reported.value.value, steps[k].report.value;
            && (value == Lock(Locked) <==> raw == RawUnsigned(3))
            && (value == Lock(Unlocked) <==> raw == RawUnsigned(2))
            && (value == Lock(NotFullyLocked) <==> raw == RawUnsigned(1))
            && (value == OnOff(on) <==> raw == RawBoolean(on))
  {
    ReportedIsLastAccepted(rule, path, steps, k);
  }

  /** There is a reported value exactly when some report was accepted. */
  lemma {:induction false} ReportedIffAccepted(rule: Rule, path: Path, steps: seq<Step>)
    requires forall i :: 0 <= i < |steps| ==> StepFits(steps[i])
    ensures Run(rule, path, steps).reported.Some? <==> exists k: nat :: LastAccepted(rule, path, steps, k)
    decreases |steps|
  {
    if steps != [] {
      var last := |steps| - 1;
      var before := Run(rule, path, steps[..last]);
      ReportedIffAccepted(rule, path, steps[..last]);
      if Accepts(rule, path, before, steps[last]) {
        AcceptedIsStored(rule, path, before, steps[last]);
        assert LastAccepted(rule, path, steps, last);
      } else {
        NotAcceptedKeeps(rule, path, before, steps[last]);
        forall k: nat
          ensures LastAccepted(rule, path, steps, k) <==> LastAccepted(rule, path, steps[..last], k)
        {
          if k < last {
            LastAcceptedShorter(rule, path, steps, k);
          }
        }
      }
    }
  }

  /**
   * What an accepted report, a loss and a new desired state do: only a report
   * makes the projection fresh, and it converges as its value compares with
   * the desired one and as the desired revision caused it.
   */
  lemma StepOutcome(rule: Rule, path: Path, state: Projected, step: Step)
    requires StateFits(state) && StepFits(step)
    ensures var after := Apply(rule, path, state, step);
            && (Accepts(rule, path, state, step) ==>
                  && after.desired == state.desired && after.freshness.Fresh? && after.uncertainty.None?
                  && (after.convergence.NoDesiredState? <==> state.desired.None?)
                  && (after.convergence.Diverged? <==>
                        state.desired.Some? && !StandsUnder(rule, state.desired.value.value, step.report.value))
                  && (after.convergence.Confirmed? <==>
                        state.desired.Some? && StandsUnder(rule, state.desired.value.value, step.report.value)
                        && step.causedBy == Some(state.desired.value.revision)))
            && (step.Lose? ==>
                  && after.desired == state.desired && after.reported == state.reported && after.freshness.Stale?
                  && after.confirmedRevision == state.confirmedRevision && after.uncertainty == Some(step.uncertainty)
                  && !after.convergence.Confirmed?
                  && (!state.convergence.Confirmed? ==> after.convergence == state.convergence))
            && (step.Desire? && after != state ==>
                  && after.desired == Some(step.desired) && after.reported == state.reported
                  && after.convergence.Pending? && after.freshness == state.freshness
                  && after.confirmedRevision == state.confirmedRevision)
  {
    if Accepts(rule, path, state, step) {
      AcceptedIsStored(rule, path, state, step);
    }
  }
}
