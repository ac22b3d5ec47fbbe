/** The reconcile pass as a method over the stored objects, and its agreement with the steps of the
    rollout's state machine. */
module Controller {
  import opened Wrappers
  import opened Phases
  import opened Rollout
  import RolloutSafety
  import P = Promotion

  /** What a pass finds outside the object: whether there is no green deployment yet, the counts in
      the store, and what draining has come to. */
  datatype World = World(noGreenYet: bool, evidence: Evidence, drained: Option<Phase>)

  predicate Possible(w: World) {
    w.drained.None? || w.drained.value == Completed || w.drained.value == RolledBack
  }

  /** The step that a pass takes next. */
  function NextStep(pc: Pc, w: World): Step
    requires !pc.Idle?
  {
    match pc
    case Restarting(_) => DropSnapshot
    case Resetting(_) => Reset
    case Forcing(_) => Force
    case Loading(_) => Load
    case Snapshotting(_) => TakeSnapshot
    case Preparing(_) => Prepare(w.noGreenYet)
    case Advancing(_, _, _, _) => Progress
    case Writing(_, _, _) => WritePhase
    case Acting(o) =>
      match CurrentPhase(o)
      case Pending => EnsureGeneration(true)
      case Observing => Observe(w.evidence)
      case Promoting => CutOver
      case Draining => Drain(w.drained)
      case _ => CleanUp
  }

  function StepsLeft(pc: Pc): nat {
    match pc
    case Idle => 0
    case Loading(_) => 5
    case Acting(_) => 4
    case Snapshotting(_) => 3
    case Restarting(_) => 2
    case Forcing(_) => 2
    case Preparing(_) => 2
    case _ => 1
  }

  function Next(s: State, w: World): (s': State)
    requires s.specs != [] && Possible(w) && !s.pc.Idle?
    ensures s'.specs != [] && StepsLeft(s'.pc) < StepsLeft(s.pc)
  {
    Do(s, NextStep(s.pc, w))
  }

  /** An undisturbed pass: the steps of the machine until it rests. */
  function Finish(s: State, w: World): State
    requires s.specs != [] && Possible(w)
    decreases StepsLeft(s.pc)
  {
    if s.pc.Idle? then s else Finish(Next(s, w), w)
  }

  lemma NextInv(s: State, w: World)
    requires RolloutSafety.Inv(s) && Possible(w) && !s.pc.Idle?
    ensures s.specs != [] && RolloutSafety.Inv(Next(s, w))
    ensures Below(MarkOf(s.status), MarkOf(Next(s, w).status))
  {
    RolloutSafety.StepInv(s, NextStep(s.pc, w));
    RolloutSafety.MarkNeverDrops(s, NextStep(s.pc, w));
  }

  /** An undisturbed pass ends, keeps the invariant of the rollout, and does not move generation and
      phase down. */
  lemma {:induction false} FinishInv(s: State, w: World)
    requires s.specs != [] && RolloutSafety.Inv(s) && Possible(w)
    ensures RolloutSafety.Inv(Finish(s, w)) && Finish(s, w).pc.Idle?
    ensures Below(MarkOf(s.status), MarkOf(Finish(s, w).status))
    decreases StepsLeft(s.pc)
  {
    if !s.pc.Idle? {
      NextInv(s, w);
      FinishInv(Next(s, w), w);
      BelowIsPartialOrder(MarkOf(s.status), MarkOf(Next(s, w).status), MarkOf(Finish(s, w).status));
    }
  }

  /** What a pass leaves of a rollout that is in order, with everything the invariant gives: the phase
      has not moved down, and a promotion has been earned on the recorded plan. */
  lemma PassKeeps(s: State, w: World)
    requires RolloutSafety.Inv(s) && s.pc.Idle? && s.specs != [] && Possible(w)
    ensures
      var s' := Finish(Do(s, Fetch), w);
      && RolloutSafety.Inv(s') && Below(MarkOf(s.status), MarkOf(s'.status))
      && (s'.promotedBy.Some? ==>
            && RolloutSafety.Started(s') && RolloutSafety.Recorded(s').plan.Some?
            && RolloutSafety.Earned(RolloutSafety.Recorded(s').plan.value, s'.advances, s'.promotedBy.value))
  {
    RolloutSafety.StepInv(s, Fetch);
    var s' := Do(s, Fetch);
    FinishInv(s', w);
    if Finish(s', w).promotedBy.Some? {
      RolloutSafety.EarnedBy(Finish(s', w));
    }
  }

  // ---------------------------------------------------------------- what a pass leaves, phase by phase

  /** Of a rollout that is over: a newer generation starts over, and else the snapshot is removed. */
  predicate LeavesEnded(s: State, s': State) {
    var generation := |s.specs|;
    if s.status.rolloutGeneration.Some? && generation > s.status.rolloutGeneration.value
    then s' == State(s.specs, Status(Some(Pending), Some(generation), Some(generation), None, None), None, Idle, [], None)
    else s' == s.(snapshot := None)
  }

  /** Of an active one that acts on `spec`. */
  predicate LeavesActive(s: State, w: World, spec: Spec, phase: Phase, s': State) {
    match phase
    case Pending =>
      var generation := if s.status.rolloutGeneration.Some? then s.status.rolloutGeneration else Some(|s.specs|);
      s' == s.(
        snapshot := Some(spec),
        status := s.status.(
          phase := Some(if w.noGreenYet then Completed else Observing),
          rolloutGeneration := generation,
          observedGeneration := generation))
    case Observing =>
      (match P.Decide(spec.plan, w.evidence.data, w.evidence.custom, s.status.currentStep)
       case Ok(Promote) => s' == s.(status := s.status.(phase := Some(Promoting)), promotedBy := Some(w.evidence))
       case Ok(Rollback) => s' == s.(status := s.status.(phase := Some(Draining))) && s'.promotedBy == None
       case Ok(AdvanceStep(step, percent)) =>
         s' == s.(status := s.status.(currentStep := Some(step), trafficPercent := Some(percent)),
                  advances := s.advances + [Advance(w.evidence, percent)])
       case _ => s' == s)
    case Promoting => s' == s.(status := s.status.(phase := Some(Draining)))
    case Draining => s' == if w.drained.Some? then s.(status := s.status.(phase := w.drained)) else s
    case _ => false
  }

  /** While a newer generation waits, the rollout is forced aside if that one says so, and else goes on
      with the snapshot's spec, if it is there. */
  predicate Leaves(s: State, w: World, s': State)
    requires s.specs != []
  {
    var live := s.specs[|s.specs| - 1];
    var phase := if s.status.phase.Some? then s.status.phase.value else Pending;
    var newer := s.status.rolloutGeneration.Some? && |s.specs| > s.status.rolloutGeneration.value;
    var forcing := live.updatePolicy == Some(Some(ForceReplace));
    if phase == Completed || phase == RolledBack then LeavesEnded(s, s')
    else if newer && forcing && phase != Draining then
      s' == s.(status := s.status.(phase := Some(Draining), observedGeneration := s.status.rolloutGeneration))
    else if !newer then LeavesActive(s, w, live, phase, s')
    else if s.snapshot.None? then s' == s
    else LeavesActive(s, w, if forcing then s.snapshot.value.(updatePolicy := live.updatePolicy) else s.snapshot.value, phase, s')
  }

  /** The pass ends after this step. */
  lemma Ends(s: State, w: World)
    requires s.specs != [] && Possible(w) && !s.pc.Idle? && Next(s, w).pc.Idle?
    ensures Finish(s, w) == Next(s, w)
  {
  }

  lemma EndedPass(s: State, w: World)
    requires RolloutSafety.Inv(s) && s.pc.Idle? && s.specs != [] && Possible(w)
    requires s.status.phase == Some(Completed) || s.status.phase == Some(RolledBack)
    ensures LeavesEnded(s, Finish(Do(s, Fetch), w))
  {
    var a := Do(s, Fetch);
    if a.pc.Restarting? {
      Ends(Next(a, w), w);
    } else {
      Ends(a, w);
    }
  }

  lemma ForcedPass(s: State, w: World)
    requires RolloutSafety.Inv(s) && s.specs != [] && Possible(w) && s.pc.Forcing?
    ensures
      Finish(s, w)
      == s.(status := s.status.(phase := Some(Draining), observedGeneration := s.status.rolloutGeneration), pc := Idle)
  {
    Ends(Next(s, w), w);
  }

  /** A write of a phase that comes after the stored one, by a pass that has ensured the generation. */
  lemma WritingPass(s: State, w: World)
    requires RolloutSafety.Inv(s) && s.specs != [] && Possible(w) && s.pc.Writing?
    ensures
      Finish(s, w) == s.(
        status := s.status.(phase := Some(s.pc.phase), observedGeneration := s.status.rolloutGeneration),
        promotedBy := if s.pc.phase == Promoting then s.pc.reason else s.promotedBy, pc := Idle)
  {
    Ends(s, w);
  }

  lemma PendingPass(s: State, w: World)
    requires RolloutSafety.Inv(s) && s.specs != [] && Possible(w) && ActingIn(s.pc, Pending) && s.pc.o.generation == |s.specs|
    ensures LeavesActive(s.(pc := Idle), w, s.pc.o.spec, Pending, Finish(s, w))
  {
    var a := Next(s, w);
    RolloutSafety.EnsureGenerationInv(s);
    var b := Next(a, w);
    RolloutSafety.SnapshotStepInv(a, TakeSnapshot);
    var c := Next(b, w);
    RolloutSafety.PrepareInv(b, Prepare(w.noGreenYet));
    WritingPass(c, w);
    assert Finish(s, w) == Finish(a, w) == Finish(b, w) == Finish(c, w);
  }

  lemma ObservingPass(s: State, w: World)
    requires RolloutSafety.Inv(s) && s.specs != [] && Possible(w) && ActingIn(s.pc, Observing)
    ensures LeavesActive(s.(pc := Idle), w, s.pc.o.spec, Observing, Finish(s, w))
  {
    var a := Next(s, w);
    RolloutSafety.ObserveInv(s, w.evidence);
    if a.pc.Writing? {
      WritingPass(a, w);
    } else if !a.pc.Idle? {
      Ends(a, w);
    }
  }

  lemma DrainingPass(s: State, w: World)
    requires RolloutSafety.Inv(s) && s.specs != [] && Possible(w) && (ActingIn(s.pc, Promoting) || ActingIn(s.pc, Draining))
    ensures LeavesActive(s.(pc := Idle), w, s.pc.o.spec, CurrentPhase(s.pc.o), Finish(s, w))
  {
    var a := Next(s, w);
    RolloutSafety.DrainInv(s, NextStep(s.pc, w));
    if a.pc.Writing? {
      WritingPass(a, w);
    }
  }

  lemma ActivePass(s: State, w: World)
    requires RolloutSafety.Inv(s) && s.specs != [] && Possible(w) && s.pc.Acting? && s.pc.o.generation == |s.specs|
    requires !Terminal(CurrentPhase(s.pc.o))
    ensures LeavesActive(s.(pc := Idle), w, s.pc.o.spec, CurrentPhase(s.pc.o), Finish(s, w))
  {
    match CurrentPhase(s.pc.o)
    case Pending => PendingPass(s, w);
    case Observing => ObservingPass(s, w);
    case _ => DrainingPass(s, w);
  }

  /** From an active phase. */
  lemma ActiveBranch(s: State, w: World)
    requires RolloutSafety.Inv(s) && s.pc.Idle? && s.specs != [] && Possible(w)
    requires s.status.phase != Some(Completed) && s.status.phase != Some(RolledBack)
    ensures Leaves(s, w, Finish(Do(s, Fetch), w))
  {
    var a := Do(s, Fetch);
    RolloutSafety.FetchInv(s);
    if a.pc.Forcing? {
      ForcedPass(a, w);
    } else if a.pc.Loading? {
      FrozenBranch(s, a, w);
    } else {
      assert a.(pc := Idle) == s;
      ActivePass(a, w);
    }
  }

  lemma FrozenBranch(s: State, a: State, w: World)
    requires RolloutSafety.Inv(s) && s.pc.Idle? && s.specs != [] && Possible(w)
    requires RolloutSafety.Inv(a) && Branch(Live(s)) == Loading(Live(s)) && a == s.(pc := Loading(Live(s)))
    ensures Leaves(s, w, Finish(a, w))
  {
    var b := Next(a, w);
    RolloutSafety.LoadInv(a);
    if s.snapshot.Some? {
      assert b.(pc := Idle) == s;
      ActivePass(b, w);
    } else {
      Ends(a, w);
    }
  }

  /** What an undisturbed pass leaves of a rollout that is in order. */
  lemma PassLeaves(s: State, w: World)
    requires RolloutSafety.Inv(s) && s.pc.Idle? && s.specs != [] && Possible(w)
    ensures Leaves(s, w, Finish(Do(s, Fetch), w))
  {
    if s.status.phase == Some(Completed) || s.status.phase == Some(RolledBack) {
      EndedPass(s, w);
    } else {
      ActiveBranch(s, w);
    }
  }

  lemma FinishLast(s: State, w: World)
    requires s.specs != [] && Possible(w) && StepsLeft(s.pc) == 1
    ensures Finish(s, w) == Do(s, NextStep(s.pc, w))
  {
    assert Next(s, w).pc.Idle?;
  }

  /** The stored object with its snapshot, and the history of its rollout. */
  class Cluster {
    var specs: seq<Spec>
    var status: Status
    var snapshot: Option<Spec>
    var advances: seq<Advance>
    var promotedBy: Option<Evidence>

    constructor (spec: Spec)
      ensures At(Idle) == State([spec], NO_STATUS, None, Idle, [], None)
    {
      specs, status, snapshot, advances, promotedBy := [spec], NO_STATUS, None, [], None;
    }

    function At(pc: Pc): State
      reads this
    {
      State(specs, status, snapshot, pc, advances, promotedBy)
    }

    /** update_status_phase. */
    method UpdateStatusPhase(o: Object, phase: Phase, reason: Option<Evidence>)
      requires specs != []
      modifies this
      ensures At(Idle) == Do(old(At(Writing(o, phase, reason))), WritePhase)
    {
      var generation := RolloutGeneration(o);
      if TransitionIsCurrent(MarkOf(status), phase, generation) {
        status := status.(phase := Some(phase), observedGeneration := Some(generation));
        if phase == Promoting {
          promotedBy := reason;
        }
      }
    }

    /** reset_status_for_new_rollout. */
    method ResetStatus(o: Object)
      requires specs != []
      modifies this
      ensures At(Idle) == Do(old(At(Resetting(o))), Reset)
    {
      status := Status(Some(Pending), Some(o.generation), Some(o.generation), None, None);
      advances, promotedBy := [], None;
    }

    method LoadSnapshot(o: Object) returns (loaded: Result<Object, ()>)
      ensures loaded == if snapshot.None? then Err(()) else Ok(Frozen(o, snapshot.value))
    {
      if snapshot.None? {
        return Err(());
      }
      var spec := snapshot.value;
      if Forces(o.spec) {
        spec := spec.(updatePolicy := o.spec.updatePolicy);
      }
      return Ok(o.(spec := spec));
    }

    method StartForceReplace(o: Object, w: World)
      requires specs != [] && Possible(w)
      modifies this
      ensures At(Idle) == Finish(old(At(Forcing(o))), w)
    {
      ghost var s := At(Forcing(o));
      var acting := o;
      var loaded := LoadSnapshot(o);
      if loaded.Ok? {
        acting := loaded.value;
      }
      assert Do(s, Force) == At(Writing(acting, Draining, None));
      FinishLast(At(Writing(acting, Draining, None)), w);
      UpdateStatusPhase(acting, Draining, None);
    }

    method ReconcilePending(o: Object, w: World)
      requires specs != [] && Possible(w) && CurrentPhase(o) == Pending
      modifies this
      ensures At(Idle) == Finish(old(At(Acting(o))), w)
    {
      ghost var s := At(Acting(o));
      if o.status.rolloutGeneration.None? {
        status := status.(rolloutGeneration := Some(o.generation));
      }
      assert Do(s, EnsureGeneration(true)) == At(Snapshotting(o));
      snapshot := Some(o.spec);
      ghost var prepared := At(Preparing(o));
      assert Do(Do(s, EnsureGeneration(true)), TakeSnapshot) == prepared;
      assert Finish(s, w) == Finish(prepared, w);
      var phase := if w.noGreenYet then Completed else Observing;
      assert Do(prepared, Prepare(w.noGreenYet)) == At(Writing(o, phase, None));
      FinishLast(At(Writing(o, phase, None)), w);
      UpdateStatusPhase(o, phase, None);
    }

    method ReconcileObserving(o: Object, w: World)
      requires specs != [] && Possible(w) && CurrentPhase(o) == Observing
      modifies this
      ensures At(Idle) == Finish(old(At(Acting(o))), w)
    {
      ghost var s := At(Acting(o));
      var action := P.Decide(o.spec.plan, w.evidence.data, w.evidence.custom, o.status.currentStep);
      assert Do(s, Observe(w.evidence)) == At(Observed(o, w.evidence));
      match action
      case Err(_) =>
      case Ok(ContinueObserving) =>
      case Ok(Promote) =>
        FinishLast(At(Writing(o, Promoting, Some(w.evidence))), w);
        UpdateStatusPhase(o, Promoting, Some(w.evidence));
      case Ok(Rollback) =>
        FinishLast(At(Writing(o, Draining, None)), w);
        UpdateStatusPhase(o, Draining, None);
      case Ok(AdvanceStep(step, percent)) =>
        FinishLast(At(Advancing(o, step, percent, w.evidence)), w);
        status := status.(currentStep := Some(step), trafficPercent := Some(percent));
        advances := advances + [Advance(w.evidence, percent)];
        assert At(Idle) == Do(old(At(Advancing(o, step, percent, w.evidence))), Progress);
    }

    method ReconcilePhase(o: Object, w: World)
      requires specs != [] && Possible(w)
      modifies this
      ensures At(Idle) == Finish(old(At(Acting(o))), w)
    {
      ghost var s := At(Acting(o));
      match CurrentPhase(o)
      case Pending => ReconcilePending(o, w);
      case Observing => ReconcileObserving(o, w);
      case Promoting =>
        FinishLast(Do(s, CutOver), w);
        UpdateStatusPhase(o, Draining, None);
      case Draining =>
        if w.drained.Some? {
          FinishLast(Do(s, Drain(w.drained)), w);
          UpdateStatusPhase(o, w.drained.value, None);
        } else {
          assert Do(s, Drain(None)) == At(Idle);
        }
      case _ =>
        snapshot := None;
        assert Do(s, CleanUp) == At(Idle);
    }

    /** The restart of a rollout from a terminal phase. */
    method RestartRollout(o: Object, w: World)
      requires specs != [] && Possible(w)
      modifies this
      ensures At(Idle) == Finish(old(At(Restarting(o))), w)
    {
      ghost var s := At(Restarting(o));
      snapshot := None;
      assert Do(s, DropSnapshot) == At(Resetting(o));
      FinishLast(At(Resetting(o)), w);
      ResetStatus(o);
    }

    /** The pass on the snapshot's spec while a newer one is deferred. */
    method ReconcileFrozen(o: Object, w: World)
      requires specs != [] && Possible(w)
      modifies this
      ensures At(Idle) == Finish(old(At(Loading(o))), w)
    {
      ghost var s := At(Loading(o));
      var loaded := LoadSnapshot(o);
      if loaded.Ok? {
        assert Do(s, Load) == At(Acting(loaded.value));
        ReconcilePhase(loaded.value, w);
      }
    }

    /** The branches of reconcile_locked. */
    method Reconcile(w: World)
      requires specs != [] && Possible(w)
      modifies this
      ensures At(Idle) == Finish(Do(old(At(Idle)), Fetch), w)
    {
      var o := Object(specs[|specs| - 1], |specs|, status);
      assert Do(At(Idle), Fetch) == At(Branch(o));
      if NeedsRestart(o) {
        RestartRollout(o, w);
      } else if HasNewGeneration(o) {
        if StartsForceReplace(o) {
          StartForceReplace(o, w);
        } else {
          ReconcileFrozen(o, w);
        }
      } else {
        ReconcilePhase(o, w);
      }
    }

    /** reconcile_locked, for an object that is not being deleted and has its finalizer. */
    method ReconcileLocked(w: World)
      requires specs != [] && Possible(w)
      modifies this
      ensures At(Idle) == Finish(Do(old(At(Idle)), Fetch), w)
      ensures old(RolloutSafety.Inv(At(Idle))) ==>
                && Leaves(old(At(Idle)), w, At(Idle))
                && RolloutSafety.Inv(At(Idle)) && Below(MarkOf(old(status)), MarkOf(status))
                && (promotedBy.Some? ==>
                      && RolloutSafety.Started(At(Idle)) && RolloutSafety.Recorded(At(Idle)).plan.Some?
                      && RolloutSafety.Earned(RolloutSafety.Recorded(At(Idle)).plan.value, advances, promotedBy.value))
    {
      ghost var s := At(Idle);
      Reconcile(w);
      if RolloutSafety.Inv(s) {
        PassKeeps(s, w);
        PassLeaves(s, w);
      }
    }
  }
}
