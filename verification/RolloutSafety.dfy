/** What every run of the rollout controller keeps. */
module RolloutSafety {
  import opened Wrappers
  import opened Phases
  import opened Rollout
  import P = Promotion

  // ---------------------------------------------------------------- invariant

  /** `x` is the given spec, but for an update policy that forces. */
  predicate SameButForced(x: Spec, spec: Spec) {
    x == spec || (Forces(x) && x == spec.(updatePolicy := x.updatePolicy))
  }

  predicate Generation(s: State, g: int) {
    1 <= g <= |s.specs|
  }

  predicate Started(s: State) {
    s.status.rolloutGeneration.Some? && Generation(s, s.status.rolloutGeneration.value)
  }

  /** The spec that was live when the rollout generation was recorded. */
  function Recorded(s: State): Spec
    requires Started(s)
  {
    s.specs[s.status.rolloutGeneration.value - 1]
  }

  predicate StatusInv(s: State) {
    && s.specs != []
    && (s.status.rolloutGeneration.Some? ==> Started(s))
    && (s.status.phase.Some? ==> Started(s))
    && s.status.observedGeneration == (if s.status.phase.Some? then s.status.rolloutGeneration else None)
    && s.status.phase != Some(Invalid)
  }

  predicate SnapshotInv(s: State) {
    && (s.snapshot.Some? ==> Started(s) && SameButForced(s.snapshot.value, Recorded(s)))
    && (s.status.phase == Some(Observing) || s.status.phase == Some(Promoting) ==> s.snapshot.Some?)
  }

  predicate FromSpecs(s: State, o: Object) {
    Generation(s, RolloutGeneration(o)) && SameButForced(o.spec, s.specs[RolloutGeneration(o) - 1])
  }

  /** The pass still sees the stored status; it has read a spec that was live. */
  predicate UpToDate(s: State, o: Object) {
    && Generation(s, o.generation)
    && (o.status.rolloutGeneration.Some? ==> Generation(s, o.status.rolloutGeneration.value))
    && s.status == o.status
  }

  /** As UpToDate, after the rollout generation has been ensured. */
  predicate Ensured(s: State, o: Object) {
    && Generation(s, o.generation)
    && (o.status.rolloutGeneration.Some? ==> Generation(s, o.status.rolloutGeneration.value))
    && s.status == o.status.(rolloutGeneration := Some(RolloutGeneration(o)))
  }

  /** A phase that is about to be written, and why. */
  predicate WritingInv(s: State, o: Object, phase: Phase, evidence: Option<Evidence>) {
    && Ensured(s, o)
    && match phase
       case Observing => CurrentPhase(o) == Pending && s.snapshot.Some?
       case Promoting =>
         && CurrentPhase(o) == Observing && evidence.Some? && FromSpecs(s, o)
         && P.Decide(o.spec.plan, evidence.value.data, evidence.value.custom, o.status.currentStep) == Ok(P.Promote)
       case Draining => CurrentPhase(o) != Draining && !Terminal(CurrentPhase(o)) && o.status.rolloutGeneration.Some?
       case Completed => CurrentPhase(o) == Pending || CurrentPhase(o) == Draining
       case RolledBack => CurrentPhase(o) == Draining
       case _ => false
  }

  predicate PcInv(s: State) {
    match s.pc
    case Idle => true
    case Restarting(o) => UpToDate(s, o) && NeedsRestart(o) && o.spec == s.specs[o.generation - 1]
    case Resetting(o) => UpToDate(s, o) && NeedsRestart(o) && o.spec == s.specs[o.generation - 1] && s.snapshot == None
    case Forcing(o) => UpToDate(s, o) && StartsForceReplace(o) && o.spec == s.specs[o.generation - 1]
    case Loading(o) => UpToDate(s, o) && HasNewGeneration(o) && !NeedsRestart(o)
    case Acting(o) => UpToDate(s, o) && FromSpecs(s, o) && (Terminal(CurrentPhase(o)) ==> !NeedsRestart(o))
    case Snapshotting(o) => Ensured(s, o) && FromSpecs(s, o) && CurrentPhase(o) == Pending
    case Preparing(o) => Ensured(s, o) && CurrentPhase(o) == Pending && s.snapshot.Some?
    case Advancing(o, step, percent, e) =>
      && UpToDate(s, o) && FromSpecs(s, o) && CurrentPhase(o) == Observing
      && P.Decide(o.spec.plan, e.data, e.custom, o.status.currentStep) == Ok(P.AdvanceStep(step, percent))
    case Writing(o, phase, evidence) => WritingInv(s, o, phase, evidence)
  }

  /** The advances lead through the recorded plan's steps in order, each from a step that was met
      and with the percent of the next. */
  predicate InOrder(plan: P.Plan, advances: seq<Advance>) {
    && plan.data.Some? && !plan.custom && plan.strategy.ByProgressive? && plan.strategy.progressive.Some?
    && var steps := plan.strategy.progressive.value.steps;
    && |advances| < |steps|
    && forall m | 0 <= m < |advances| ::
         P.StepMet(steps[m], advances[m].evidence.data) && advances[m].percent == steps[m + 1].trafficPercent
  }

  predicate AdvancesInv(s: State) {
    && s.status.currentStep == (if s.advances == [] then None else Some(|s.advances|))
    && s.status.trafficPercent == (if s.advances == [] then None else Some(s.advances[|s.advances| - 1].percent))
    && (s.advances != [] ==> Started(s) && Recorded(s).plan.Some? && InOrder(Recorded(s).plan.value, s.advances))
  }

  predicate BeforePromotion(s: State) {
    s.status.phase.None? || s.status.phase == Some(Pending) || s.status.phase == Some(Observing)
  }

  predicate PromotionInv(s: State) {
    && (s.status.phase == Some(Promoting) ==> s.promotedBy.Some?)
    && (BeforePromotion(s) ==> s.promotedBy.None?)
    && (s.promotedBy.Some? ==> Started(s) && P.Decide(Recorded(s).plan, s.promotedBy.value.data, s.promotedBy.value.custom, s.status.currentStep) == Ok(P.Promote))
  }

  predicate Inv(s: State) {
    StatusInv(s) && SnapshotInv(s) && PcInv(s) && AdvancesInv(s) && PromotionInv(s)
  }

  // ---------------------------------------------------------------- one step

  lemma EditInv(s: State, spec: Spec)
    requires Inv(s)
    ensures Inv(s.(specs := s.specs + [spec]))
  {
    var s' := s.(specs := s.specs + [spec]);
    assert forall g | Generation(s, g) :: Generation(s', g) && s'.specs[g - 1] == s.specs[g - 1];
  }

  lemma FetchInv(s: State)
    requires Inv(s) && s.pc.Idle?
    ensures Inv(s.(pc := Branch(Live(s))))
  {
  }

  /** Only the program counter changes, to one that satisfies its part of the invariant. */
  lemma MoveInv(s: State, pc: Pc)
    requires Inv(s) && PcInv(s.(pc := pc))
    ensures Inv(s.(pc := pc))
  {
  }

  lemma DrainInv(s: State, step: Step)
    requires Inv(s) && Enabled(s, step) && (step.CutOver? || step.Drain?)
    ensures Inv(Do(s, step))
  {
    MoveInv(s, Do(s, step).pc);
  }

  lemma LoadInv(s: State)
    requires Inv(s) && s.pc.Loading?
    ensures Inv(Do(s, Load))
  {
    MoveInv(s, Do(s, Load).pc);
  }

  lemma PrepareInv(s: State, step: Step)
    requires Inv(s) && Enabled(s, step) && (step.Prepare? || step.Abort?)
    ensures Inv(Do(s, step))
  {
    MoveInv(s, Do(s, step).pc);
  }

  lemma ForceInv(s: State)
    requires Inv(s) && s.pc.Forcing?
    ensures Inv(Do(s, Force))
  {
    MoveInv(s, Do(s, Force).pc);
  }

  lemma ObserveInv(s: State, e: Evidence)
    requires Inv(s) && Enabled(s, Observe(e))
    ensures Inv(Do(s, Observe(e)))
  {
    ObservedPc(s, s.pc.o, e, P.Decide(s.pc.o.spec.plan, e.data, e.custom, s.pc.o.status.currentStep));
    MoveInv(s, Observed(s.pc.o, e));
  }

  lemma ObservedPc(s: State, o: Object, e: Evidence, decided: Result<P.Action, P.InvalidSpec>)
    requires StatusInv(s) && PcInv(s) && s.pc == Acting(o) && CurrentPhase(o) == Observing
    requires decided == P.Decide(o.spec.plan, e.data, e.custom, o.status.currentStep)
    ensures PcInv(s.(pc := Observed(o, e)))
  {
  }

  lemma SnapshotStepInv(s: State, step: Step)
    requires Inv(s) && Enabled(s, step) && (step.TakeSnapshot? || step.CleanUp? || step.DropSnapshot?)
    ensures Inv(Do(s, step))
  {
  }

  lemma ResetInv(s: State)
    requires Inv(s) && s.pc.Resetting?
    ensures Inv(Do(s, Reset))
  {
  }

  lemma EnsureGenerationInv(s: State)
    requires Inv(s) && Enabled(s, EnsureGeneration(true))
    ensures Inv(Do(s, EnsureGeneration(true)))
  {
  }

  lemma ProgressInv(s: State)
    requires Inv(s) && s.pc.Advancing?
    ensures Inv(Do(s, Progress))
  {
    var o, e := s.pc.o, s.pc.evidence;
    assert o.spec.plan == Recorded(s).plan;
    P.AdvancesIff(o.spec.plan.value, e.data, e.custom, o.status.currentStep, s.pc.step, s.pc.percent);
  }

  lemma WritePromotingInv(s: State)
    requires Inv(s) && s.pc.Writing? && s.pc.phase == Promoting
    ensures Inv(AfterWrite(s, s.pc.o, s.pc.phase, s.pc.reason))
  {
  }

  lemma WriteOtherInv(s: State)
    requires Inv(s) && s.pc.Writing? && s.pc.phase != Promoting
    ensures Inv(AfterWrite(s, s.pc.o, s.pc.phase, s.pc.reason))
  {
  }

  lemma StepInv(s: State, step: Step)
    requires Inv(s) && Enabled(s, step) && step != EnsureGeneration(false)
    ensures Inv(Do(s, step))
  {
    match step
    case Edit(spec) => EditInv(s, spec);
    case Fetch => FetchInv(s);
    case Progress => ProgressInv(s);
    case WritePhase => if s.pc.phase == Promoting { WritePromotingInv(s); } else { WriteOtherInv(s); }
    case Observe(e) => ObserveInv(s, e);
    case Force => ForceInv(s);
    case TakeSnapshot => SnapshotStepInv(s, step);
    case CleanUp => SnapshotStepInv(s, step);
    case DropSnapshot => SnapshotStepInv(s, step);
    case Reset => ResetInv(s);
    case EnsureGeneration(_) => EnsureGenerationInv(s);
    case Load => LoadInv(s);
    case Prepare(_) => PrepareInv(s, step);
    case Abort => PrepareInv(s, step);
    case CutOver => DrainInv(s, step);
    case Drain(_) => DrainInv(s, step);
  }

  lemma {:induction false} RunInv(r: Run, i: nat)
    requires IsRun(r) && NothingLost(r) && i < |r.states|
    ensures Inv(r.states[i])
  {
    if i > 0 {
      RunInv(r, i - 1);
      assert Follows(r, i - 1);
      StepInv(r.states[i - 1], r.steps[i - 1]);
    }
  }

  // ---------------------------------------------------------------- the frozen spec

  /** Whatever the user edits meanwhile, a pass acts for an active rollout on the spec that its
      rollout generation names; only an update policy that forces may be newer. */
  lemma ActsOnRecordedSpec(r: Run, i: nat)
    requires IsRun(r) && NothingLost(r) && i < |r.steps| && IsAct(r.steps[i])
    ensures Started(r.states[i]) && r.states[i].pc.Acting?
    ensures SameButForced(r.states[i].pc.o.spec, Recorded(r.states[i]))
  {
    RunInv(r, i);
    assert Follows(r, i);
  }

  /** Forcing a rollout aside, which is no act, begins its drain at its own generation and with the spec
      that its generation names; with the live one only if the snapshot is missing. */
  lemma ForcesAsideRecordedSpec(r: Run, i: nat)
    requires IsRun(r) && NothingLost(r) && i < |r.steps| && r.steps[i] == Force
    ensures
      var s, pc := r.states[i], r.states[i + 1].pc;
      && s.pc.Forcing? && Started(s) && pc.Writing? && pc.phase == Draining
      && RolloutGeneration(pc.o) == s.status.rolloutGeneration.value < s.pc.o.generation <= |s.specs|
      && if s.snapshot.Some? then SameButForced(pc.o.spec, Recorded(s)) else pc.o.spec == s.specs[s.pc.o.generation - 1]
  {
    RunInv(r, i);
    assert Follows(r, i);
  }

  lemma {:induction false} SpecsKept(r: Run, i: nat, j: nat)
    requires IsRun(r) && i <= j < |r.states|
    ensures r.states[i].specs <= r.states[j].specs
  {
    if i < j {
      SpecsKept(r, i, j - 1);
      assert Follows(r, j - 1);
    }
  }

  /** All acts of one rollout, however far apart, are on the same plan and the same rest. */
  lemma OneRolloutOneSpec(r: Run, i: nat, j: nat)
    requires IsRun(r) && NothingLost(r) && i <= j < |r.steps| && IsAct(r.steps[i]) && IsAct(r.steps[j])
    requires r.states[i].status.rolloutGeneration == r.states[j].status.rolloutGeneration
    ensures r.states[i].pc.Acting? && r.states[j].pc.Acting?
    ensures r.states[i].pc.o.spec.plan == r.states[j].pc.o.spec.plan
    ensures r.states[i].pc.o.spec.rest == r.states[j].pc.o.spec.rest
  {
    ActsOnRecordedSpec(r, i);
    ActsOnRecordedSpec(r, j);
    SpecsKept(r, i, j);
  }

  /** The rollout generation moves only when it is unset or the phase is terminal; it rises. */
  lemma RolloutGenerationMoves(r: Run, i: nat)
    requires IsRun(r) && NothingLost(r) && i < |r.steps|
    requires r.states[i + 1].status.rolloutGeneration != r.states[i].status.rolloutGeneration
    ensures r.states[i + 1].status.rolloutGeneration.Some? && Started(r.states[i + 1])
    ensures r.states[i].status.rolloutGeneration.None?
            || (r.states[i].status.phase.Some? && Terminal(r.states[i].status.phase.value)
                && r.states[i + 1].status.rolloutGeneration.value > r.states[i].status.rolloutGeneration.value)
  {
    RunInv(r, i);
    RunInv(r, i + 1);
    assert Follows(r, i);
  }

  lemma {:induction false} RestartingRead(r: Run, i: nat) returns (j: nat)
    requires IsRun(r) && i < |r.states| && (r.states[i].pc.Restarting? || r.states[i].pc.Resetting?)
    ensures j < i && r.steps[j] == Fetch && r.states[j].specs != [] && r.states[i].pc.o == Live(r.states[j])
    ensures forall m | j < m < i :: r.steps[m] != Fetch && r.steps[m] != Abort
  {
    assert Follows(r, i - 1);
    if r.steps[i - 1] == Fetch {
      j := i - 1;
    } else {
      j := RestartingRead(r, i - 1);
    }
  }

  /** A reset records the generation that its own pass has read, and starts over: whatever was edited
      since that read waits for the next restart. */
  lemma RestartTakesGenerationRead(r: Run, i: nat) returns (j: nat)
    requires IsRun(r) && i < |r.steps| && r.steps[i] == Reset
    ensures j < i && r.steps[j] == Fetch
    ensures forall m | j < m < i :: r.steps[m] != Fetch && r.steps[m] != Abort
    ensures r.states[i + 1].status == Status(Some(Pending), Some(|r.states[j].specs|), Some(|r.states[j].specs|), None, None)
    ensures r.states[i + 1].advances == [] && r.states[i + 1].promotedBy == None
    ensures r.states[j].specs <= r.states[i + 1].specs
  {
    assert Follows(r, i);
    j := RestartingRead(r, i);
    SpecsKept(r, j, i + 1);
  }

  /** In a terminal phase a pass restarts exactly when there is a newer generation than the rollout's,
      and undisturbed it starts over at the generation it has read. */
  lemma DeferredEditTakenUp(s: State)
    requires Inv(s) && s.pc.Idle? && s.status.phase.Some? && Terminal(s.status.phase.value)
    ensures Do(s, Fetch).pc.Restarting? <==> |s.specs| > s.status.rolloutGeneration.value
    ensures |s.specs| > s.status.rolloutGeneration.value ==>
              var s' := Do(Do(Do(s, Fetch), DropSnapshot), Reset);
              && s'.status == Status(Some(Pending), Some(|s.specs|), Some(|s.specs|), None, None)
              && s'.snapshot == None && s'.advances == [] && s'.promotedBy == None && s'.pc.Idle?
  {
  }

  lemma MarkNeverDrops(s: State, step: Step)
    requires Inv(s) && Enabled(s, step)
    ensures Below(MarkOf(s.status), MarkOf(Do(s, step).status))
  {
  }

  /** Over a whole run, restarts included, generation and phase never move down. */
  lemma {:induction false} PhasesNeverMoveDown(r: Run, i: nat, j: nat)
    requires IsRun(r) && NothingLost(r) && i <= j < |r.states|
    ensures Below(MarkOf(r.states[i].status), MarkOf(r.states[j].status))
  {
    if i < j {
      PhasesNeverMoveDown(r, i, j - 1);
      RunInv(r, j - 1);
      assert Follows(r, j - 1);
      MarkNeverDrops(r.states[j - 1], r.steps[j - 1]);
      BelowIsPartialOrder(MarkOf(r.states[i].status), MarkOf(r.states[j - 1].status), MarkOf(r.states[j].status));
    }
  }

  // ---------------------------------------------------------------- promotion

  /** Every configured mode's requirement, and for steps each threshold in order: the first ones by
      the counts on which the rollout advanced, the last one by those on which it promotes. */
  predicate Earned(plan: P.Plan, advances: seq<Advance>, e: Evidence) {
    && (plan.data.Some? || plan.custom)
    && (plan.custom ==> P.CustomMet(e.custom))
    && (plan.data.Some? && plan.strategy.ByHardSwitch? ==>
          var h := P.FromCriteria(plan.data.value);
          P.Finalised(e.data) >= h.minTestCases && P.ActualRate(e.data) >= h.successRate)
    && (plan.data.Some? && plan.strategy.ByProgressive? ==> plan.strategy.progressive.Some?)
    && (plan.data.Some? && plan.strategy.ByProgressive? && plan.strategy.progressive.value.steps != [] ==>
          var steps := plan.strategy.progressive.value.steps;
          && |advances| == |steps| - 1
          && P.StepMet(steps[|steps| - 1], e.data)
          && forall m | 0 <= m < |advances| ::
               P.StepMet(steps[m], advances[m].evidence.data) && advances[m].percent == steps[m + 1].trafficPercent)
  }

  /** A rollout that has been promoted has earned it, by the plan that was live when it started. */
  lemma PromotionEarned(r: Run, k: nat)
    requires IsRun(r) && NothingLost(r) && k < |r.states| && r.states[k].promotedBy.Some?
    ensures Started(r.states[k]) && Recorded(r.states[k]).plan.Some?
    ensures Earned(Recorded(r.states[k]).plan.value, r.states[k].advances, r.states[k].promotedBy.value)
  {
    RunInv(r, k);
    EarnedBy(r.states[k]);
  }

  lemma EarnedBy(s: State)
    requires Inv(s) && s.promotedBy.Some?
    ensures Recorded(s).plan.Some? && Earned(Recorded(s).plan.value, s.advances, s.promotedBy.value)
  {
    var plan, e := Recorded(s).plan.value, s.promotedBy.value;
    P.PromotesIff(plan, e.data, e.custom, s.status.currentStep);
  }

  /** The phase Promoting is entered, and traffic is cut over, only by a rollout that was promoted. */
  lemma PromotingNeedsPromotion(r: Run, k: nat)
    requires IsRun(r) && NothingLost(r) && k < |r.states|
    requires r.states[k].status.phase == Some(Promoting) || (k < |r.steps| && r.steps[k] == CutOver)
    ensures r.states[k].promotedBy.Some?
  {
    RunInv(r, k);
    if k < |r.steps| {
      assert Follows(r, k);
    }
  }

  predicate PendingEvidence(s: State, e: Evidence) {
    || s.promotedBy == Some(e)
    || (s.pc.Writing? && s.pc.reason == Some(e))
    || (s.pc.Advancing? && s.pc.evidence == e)
    || exists m | 0 <= m < |s.advances| :: s.advances[m].evidence == e
  }

  lemma EvidenceArrives(s: State, step: Step, e: Evidence)
    requires Enabled(s, step) && PendingEvidence(Do(s, step), e)
    ensures PendingEvidence(s, e) || step == Observe(e)
  {
    var s' := Do(s, step);
    if s'.promotedBy != Some(e) && !(s'.pc.Writing? && s'.pc.reason == Some(e)) && !(s'.pc.Advancing? && s'.pc.evidence == e) {
      var m :| 0 <= m < |s'.advances| && s'.advances[m].evidence == e;
      if m < |s.advances| {
        assert s.advances[m].evidence == e;
      }
    }
  }

  /** The counts behind a promotion or an advance are counts that a pass has observed since the last
      reset. */
  lemma {:induction false} EvidenceObserved(r: Run, k: nat, e: Evidence) returns (i: nat)
    requires IsRun(r) && k < |r.states| && PendingEvidence(r.states[k], e)
    ensures i < k && r.steps[i] == Observe(e)
    ensures forall m | i < m < k :: r.steps[m] != Reset
  {
    assert Follows(r, k - 1);
    EvidenceArrives(r.states[k - 1], r.steps[k - 1], e);
    if r.steps[k - 1] == Observe(e) {
      i := k - 1;
    } else {
      i := EvidenceObserved(r, k - 1, e);
    }
  }

  /** The current step rises by exactly one at a time, stays below the number of steps and is taken
      back only by a restart. */
  lemma StepsRiseByOne(r: Run, i: nat)
    requires IsRun(r) && NothingLost(r) && i < |r.steps|
    requires r.states[i + 1].status.currentStep != r.states[i].status.currentStep
    ensures
      var before, after := r.states[i].status, r.states[i + 1].status;
      if r.steps[i] == Reset then after.currentStep == None
      else
        && after.currentStep == Some(before.currentStep.UnwrapOr(0) + 1)
        && Started(r.states[i + 1]) && Recorded(r.states[i + 1]).plan.Some?
        && InOrder(Recorded(r.states[i + 1]).plan.value, r.states[i + 1].advances)
        && after.currentStep.value < |Recorded(r.states[i + 1]).plan.value.strategy.progressive.value.steps|
  {
    RunInv(r, i);
    RunInv(r, i + 1);
    assert Follows(r, i);
  }
}
