/** The rollout controller: one reconcile pass at a time, user edits and aborts between any two of
    its reads and writes. */
module Rollout {
  import opened Wrappers
  import opened Phases
  import P = Promotion
  import TC = TestCases

  datatype ActiveRollout = Defer | ForceReplace

  /** `rest` stands for every part of the spec that the state machine does not look at. */
  datatype Spec = Spec(plan: Option<P.Plan>, updatePolicy: Option<Option<ActiveRollout>>, rest: string)

  datatype Status = Status(
    phase: Option<Phase>,
    rolloutGeneration: Option<int>,
    observedGeneration: Option<int>,
    currentStep: Option<int>,
    trafficPercent: Option<int>)

  const NO_STATUS := Status(None, None, None, None, None)

  /** The object as a pass has read it; its spec may have been replaced by the snapshot's. */
  datatype Object = Object(spec: Spec, generation: int, status: Status)

  function CurrentPhase(o: Object): Phase {
    o.status.phase.UnwrapOr(Pending)
  }

  function RolloutGeneration(o: Object): int {
    o.status.rolloutGeneration.UnwrapOr(o.generation)
  }

  predicate NeedsRestart(o: Object) {
    Terminal(CurrentPhase(o)) && o.generation > o.status.observedGeneration.UnwrapOr(0)
  }

  predicate HasNewGeneration(o: Object) {
    && CurrentPhase(o) != Completed && CurrentPhase(o) != RolledBack
    && o.generation > o.status.rolloutGeneration.UnwrapOr(0) > 0
  }

  predicate Forces(spec: Spec) {
    spec.updatePolicy == Some(Some(ForceReplace))
  }

  predicate StartsForceReplace(o: Object) {
    Forces(o.spec) && HasNewGeneration(o) && CurrentPhase(o) != Draining
  }

  /** The snapshot's spec in place of the live one, under the live update policy if that forces. */
  function Frozen(o: Object, snapshot: Spec): Object {
    o.(spec := if Forces(o.spec) then snapshot.(updatePolicy := o.spec.updatePolicy) else snapshot)
  }

  datatype Evidence = Evidence(data: TC.Counts, custom: TC.Counts)

  /** A step advance, with the counts it was decided on and the percent that was applied. */
  datatype Advance = Advance(evidence: Evidence, percent: int)

  /** What the pass in progress does next. */
  datatype Pc =
    | Idle
    | Restarting(o: Object)
    | Resetting(o: Object)
    | Forcing(o: Object)
    | Loading(o: Object)
    | Acting(o: Object)
    | Snapshotting(o: Object)
    | Preparing(o: Object)
    | Advancing(o: Object, step: int, percent: int, evidence: Evidence)
    | Writing(o: Object, phase: Phase, reason: Option<Evidence>)

  /** The n-th spec has generation n, so the live one is the last. `advances` and `promotedBy` are
      what has been decided since the rollout started. */
  datatype State = State(
    specs: seq<Spec>,
    status: Status,
    snapshot: Option<Spec>,
    pc: Pc,
    advances: seq<Advance>,
    promotedBy: Option<Evidence>)

  datatype Step =
    | Edit(spec: Spec)
    | Abort
    | Fetch
    | DropSnapshot
    | Reset
    | Force
    | Load
    | EnsureGeneration(stored: bool)
    | TakeSnapshot
    | Prepare(noGreenYet: bool)
    | Observe(evidence: Evidence)
    | Progress
    | CutOver
    | Drain(outcome: Option<Phase>)
    | CleanUp
    | WritePhase

  predicate ActingIn(pc: Pc, phase: Phase) {
    pc.Acting? && CurrentPhase(pc.o) == phase
  }

  predicate Enabled(s: State, step: Step) {
    && s.specs != []
    && match step
       case Edit(_) => true
       case Abort => !s.pc.Idle?
       case Fetch => s.pc.Idle?
       case DropSnapshot => s.pc.Restarting?
       case Reset => s.pc.Resetting?
       case Force => s.pc.Forcing?
       case Load => s.pc.Loading?
       case EnsureGeneration(_) => ActingIn(s.pc, Pending)
       case TakeSnapshot => s.pc.Snapshotting?
       case Prepare(_) => s.pc.Preparing?
       case Observe(_) => ActingIn(s.pc, Observing)
       case Progress => s.pc.Advancing?
       case CutOver => ActingIn(s.pc, Promoting)
       case Drain(outcome) =>
         ActingIn(s.pc, Draining) && (outcome.None? || outcome.value == Completed || outcome.value == RolledBack)
       case CleanUp => s.pc.Acting? && Terminal(CurrentPhase(s.pc.o))
       case WritePhase => s.pc.Writing?
  }

  function Live(s: State): Object
    requires s.specs != []
  {
    Object(s.specs[|s.specs| - 1], |s.specs|, s.status)
  }

  /** The first branches of a pass. */
  function Branch(o: Object): Pc {
    if NeedsRestart(o) then Restarting(o)
    else if HasNewGeneration(o) then if StartsForceReplace(o) then Forcing(o) else Loading(o)
    else Acting(o)
  }

  function Observed(o: Object, e: Evidence): Pc {
    match P.Decide(o.spec.plan, e.data, e.custom, o.status.currentStep)
    case Err(_) => Idle
    case Ok(ContinueObserving) => Idle
    case Ok(Promote) => Writing(o, Promoting, Some(e))
    case Ok(Rollback) => Writing(o, Draining, None)
    case Ok(AdvanceStep(step, percent)) => Advancing(o, step, percent, e)
  }

  function MarkOf(status: Status): Mark {
    Mark(status.observedGeneration.UnwrapOr(0), status.phase)
  }

  function AfterReset(s: State, o: Object): State {
    s.(status := Status(Some(Pending), Some(o.generation), Some(o.generation), None, None),
       advances := [], promotedBy := None, pc := Idle)
  }

  function AfterWrite(s: State, o: Object, phase: Phase, evidence: Option<Evidence>): State {
    if TransitionIsCurrent(MarkOf(s.status), phase, RolloutGeneration(o))
    then s.(status := s.status.(phase := Some(phase), observedGeneration := Some(RolloutGeneration(o))),
            promotedBy := if phase == Promoting then evidence else s.promotedBy, pc := Idle)
    else s.(pc := Idle)
  }

  function AfterProgress(s: State, step: int, percent: int, e: Evidence): State {
    s.(status := s.status.(currentStep := Some(step), trafficPercent := Some(percent)),
       advances := s.advances + [Advance(e, percent)], pc := Idle)
  }

  function Do(s: State, step: Step): State
    requires Enabled(s, step)
  {
    match step
    case Edit(spec) => s.(specs := s.specs + [spec])
    case Abort => s.(pc := Idle)
    case Fetch => s.(pc := Branch(Live(s)))
    case DropSnapshot => s.(snapshot := None, pc := Resetting(s.pc.o))
    case Reset => AfterReset(s, s.pc.o)
    case Force => s.(pc := Writing(if s.snapshot.Some? then Frozen(s.pc.o, s.snapshot.value) else s.pc.o, Draining, None))
    case Load => s.(pc := if s.snapshot.Some? then Acting(Frozen(s.pc.o, s.snapshot.value)) else Idle)
    case EnsureGeneration(stored) =>
      if s.pc.o.status.rolloutGeneration.Some? || !stored then s.(pc := Snapshotting(s.pc.o))
      else s.(status := s.status.(rolloutGeneration := Some(s.pc.o.generation)), pc := Snapshotting(s.pc.o))
    case TakeSnapshot => s.(snapshot := Some(s.pc.o.spec), pc := Preparing(s.pc.o))
    case Prepare(noGreenYet) => s.(pc := Writing(s.pc.o, if noGreenYet then Completed else Observing, None))
    case Observe(e) => s.(pc := Observed(s.pc.o, e))
    case Progress => AfterProgress(s, s.pc.step, s.pc.percent, s.pc.evidence)
    case CutOver => s.(pc := Writing(s.pc.o, Draining, None))
    case Drain(outcome) => s.(pc := if outcome.Some? then Writing(s.pc.o, outcome.value, None) else Idle)
    case CleanUp => s.(snapshot := None, pc := Idle)
    case WritePhase => AfterWrite(s, s.pc.o, s.pc.phase, s.pc.reason)
  }

  predicate Init(s: State) {
    |s.specs| == 1 && s.status == NO_STATUS && s.snapshot == None && s.pc == Idle && s.advances == [] && s.promotedBy == None
  }

  datatype Run = Run(states: seq<State>, steps: seq<Step>)

  predicate Follows(r: Run, i: nat)
    requires i < |r.steps| && |r.states| == |r.steps| + 1
  {
    Enabled(r.states[i], r.steps[i]) && r.states[i + 1] == Do(r.states[i], r.steps[i])
  }

  predicate IsRun(r: Run) {
    && |r.states| == |r.steps| + 1
    && Init(r.states[0])
    && forall i | 0 <= i < |r.steps| :: Follows(r, i)
  }

  /** Every rollout generation that a pass sets is stored. */
  predicate NothingLost(r: Run) {
    forall i | 0 <= i < |r.steps| :: r.steps[i] != EnsureGeneration(false)
  }

  /** The steps in which a pass acts for an active rollout. */
  predicate IsAct(step: Step) {
    step.Observe? || step.CutOver? || step.Drain?
  }
}
