/** The freeze of a rollout when the write of its rollout generation may fail, which the controller
    only logs: exactly when it holds. */
module RolloutFreeze {
  import opened Wrappers
  import opened Phases
  import opened Rollout
  import opened RolloutSafety
  import opened RolloutWedges
  import TC = TestCases

  // ---------------------------------------------------------------- what any run keeps

  predicate LooseStatus(s: State) {
    && s.specs != []
    && (s.status.rolloutGeneration.Some? ==> Started(s))
    && (s.status.phase == None ==> s.status.observedGeneration == None)
    && (s.status.phase == Some(Pending) ==>
          s.status.rolloutGeneration.Some? && s.status.observedGeneration == s.status.rolloutGeneration)
    && s.status.phase != Some(Invalid)
  }

  /** What the pass has read: a generation that was live, and a status whose rollout generation is not
      newer. */
  predicate Reads(s: State, o: Object) {
    && Generation(s, o.generation)
    && (o.status.rolloutGeneration.Some? ==> 1 <= o.status.rolloutGeneration.value <= o.generation)
  }

  predicate MayBeEnsured(s: State, o: Object) {
    && Reads(s, o)
    && (s.status == o.status || s.status == o.status.(rolloutGeneration := Some(RolloutGeneration(o))))
  }

  /** The spec that the pass works on: the snapshot's if the generation read is newer than the rollout's,
      else the one read. */
  predicate WorksOn(s: State, o: Object)
    requires Generation(s, o.generation)
  {
    var read := s.specs[o.generation - 1];
    if HasNewGeneration(o) then s.snapshot.Some? && o.spec == Frozen(o.(spec := read), s.snapshot.value).spec
    else o.spec == read
  }

  predicate LoosePc(s: State) {
    match s.pc
    case Idle => true
    case Restarting(o) => Reads(s, o) && s.status == o.status && NeedsRestart(o)
    case Resetting(o) => Reads(s, o) && s.status == o.status && NeedsRestart(o) && s.snapshot == None
    case Forcing(o) => Reads(s, o) && s.status == o.status && HasNewGeneration(o)
    case Loading(o) => Reads(s, o) && s.status == o.status && HasNewGeneration(o) && o.spec == s.specs[o.generation - 1]
    case Acting(o) => Reads(s, o) && s.status == o.status && WorksOn(s, o)
    case Snapshotting(o) => MayBeEnsured(s, o) && CurrentPhase(o) == Pending && WorksOn(s, o)
    case Preparing(o) => MayBeEnsured(s, o) && CurrentPhase(o) == Pending && s.snapshot.Some?
    case Advancing(o, _, _, _) => Reads(s, o) && s.status == o.status && CurrentPhase(o) == Observing
    case Writing(o, phase, _) =>
      MayBeEnsured(s, o) && !Terminal(CurrentPhase(o)) && phase != Pending && phase != Invalid
  }

  predicate Loose(s: State) {
    LooseStatus(s) && LoosePc(s)
  }

  lemma LooseEdit(s: State, spec: Spec)
    requires Loose(s)
    ensures Loose(Do(s, Edit(spec)))
  {
    var s' := Do(s, Edit(spec));
    assert forall g | Generation(s, g) :: Generation(s', g) && s'.specs[g - 1] == s.specs[g - 1];
  }

  lemma LooseObserve(s: State, step: Step)
    requires Loose(s) && Enabled(s, step) && step.Observe?
    ensures Loose(Do(s, step))
  {
    LooseObserved(s, s.pc.o, step.evidence, Observed(s.pc.o, step.evidence));
  }

  lemma LooseObserved(s: State, o: Object, e: Evidence, pc: Pc)
    requires LooseStatus(s) && Reads(s, o) && s.status == o.status && CurrentPhase(o) == Observing && pc == Observed(o, e)
    ensures LoosePc(s.(pc := pc))
  {
  }

  lemma LooseStep(s: State, step: Step)
    requires Loose(s) && Enabled(s, step)
    ensures Loose(Do(s, step))
  {
    match step
    case Edit(spec) => LooseEdit(s, spec);
    case Observe(_) => LooseObserve(s, step);
    case _ =>
  }

  lemma {:induction false} LooseRun(r: Run, i: nat)
    requires IsRun(r) && i < |r.states|
    ensures Loose(r.states[i])
  {
    if i > 0 {
      LooseRun(r, i - 1);
      assert Follows(r, i - 1);
      LooseStep(r.states[i - 1], r.steps[i - 1]);
    }
  }

  // ---------------------------------------------------------------- one act

  /** The pass works on the spec that the rollout generation names, but for a policy that forces. */
  predicate OnRecorded(s: State) {
    s.pc.Acting? && Started(s) && SameButForced(s.pc.o.spec, Recorded(s))
  }

  /** In any run, lost writes included, an act is on the recorded spec exactly if a generation is
      recorded and either the pass has read just that one or the snapshot holds the recorded spec, up to
      the policy under which the pass forces. Else it is on the spec read, with nothing recorded, or on
      a snapshot of another spec. */
  lemma ActOnRecordedIff(r: Run, i: nat)
    requires IsRun(r) && i < |r.steps| && IsAct(r.steps[i])
    ensures
      var s := r.states[i];
      && s.pc.Acting? && Generation(s, s.pc.o.generation)
      && var read := s.specs[s.pc.o.generation - 1];
      match s.status.rolloutGeneration
      case None => s.pc.o.spec == read
      case Some(g) =>
        && Generation(s, g) && g <= s.pc.o.generation
        && if g == s.pc.o.generation then s.pc.o.spec == read == Recorded(s)
           else
             && s.snapshot.Some?
             && (OnRecorded(s) <==>
                   || SameButForced(s.snapshot.value, Recorded(s))
                   || (Forces(read) && s.snapshot.value.(updatePolicy := None) == Recorded(s).(updatePolicy := None)))
  {
    LooseRun(r, i);
    assert Follows(r, i);
  }

  /** In an active phase, the next pass after an edit acts on that edit if no generation is recorded,
      and on the snapshot otherwise, unless the edit forces. */
  lemma NextPassActsOn(s: State, x: Spec)
    requires Loose(s) && s.pc.Idle? && s.snapshot.Some? && !Forces(x)
    requires s.status.phase == Some(Observing) || s.status.phase == Some(Promoting) || s.status.phase == Some(Draining)
    ensures
      var s' := Do(Do(s, Edit(x)), Fetch);
      if s.status.rolloutGeneration.None? then s'.pc.Acting? && s'.pc.o.spec == x
      else s'.pc.Loading? && Do(s', Load).pc.Acting? && Do(s', Load).pc.o.spec == s.snapshot.value
  {
  }

  // ---------------------------------------------------------------- all continuations

  /** The steps can be taken one after the other, and one of them is an act that is not on the recorded
      spec. With `lossy` the write of a rollout generation may fail on the way. */
  predicate Strays(s: State, steps: seq<Step>, lossy: bool)
    decreases |steps|
  {
    && steps != [] && Enabled(s, steps[0]) && (lossy || steps[0] != EnsureGeneration(false))
    && ((IsAct(steps[0]) && !OnRecorded(s)) || Strays(Do(s, steps[0]), steps[1..], lossy))
  }

  /** Some continuation, of passes, edits, aborts and restarts, acts on another spec. */
  ghost predicate MayStray(s: State, lossy: bool) {
    exists steps :: Strays(s, steps, lossy)
  }

  predicate Over(s: State) {
    s.status.phase.Some? && Terminal(s.status.phase.value)
  }

  /** The rollout is over, or its generation is recorded and the snapshot, if any, is of that
      generation's spec. */
  predicate Secure(s: State) {
    Over(s) || (Started(s) && (s.snapshot.Some? ==> SameButForced(s.snapshot.value, Recorded(s))))
  }

  /** Nothing has been recorded yet, not even a snapshot. */
  predicate Blank(s: State) {
    s.status.rolloutGeneration.None? && s.status.phase.None? && s.snapshot.None?
  }

  predicate BlankPass(s: State) {
    Blank(s) && !s.pc.Snapshotting? && !s.pc.Preparing? && !s.pc.Writing?
  }

  lemma SecureAct(s: State, step: Step)
    requires Loose(s) && Secure(s) && Enabled(s, step) && IsAct(step)
    ensures OnRecorded(s)
  {
  }

  lemma SecureStep(s: State, step: Step)
    requires Loose(s) && Secure(s) && Enabled(s, step)
    ensures Secure(Do(s, step))
  {
    if step.Edit? {
      assert Started(s) ==> Recorded(Do(s, step)) == Recorded(s);
    } else if step.TakeSnapshot? {
      assert Started(s) && SameButForced(s.pc.o.spec, Recorded(s));
    }
  }

  lemma BlankStep(s: State, step: Step)
    requires Loose(s) && BlankPass(s) && Enabled(s, step) && step != EnsureGeneration(false)
    ensures Secure(Do(s, step)) || BlankPass(Do(s, step))
    ensures !IsAct(step)
  {
  }

  lemma {:induction false} NeverStrays(s: State, steps: seq<Step>, lossy: bool)
    requires Loose(s) && (Secure(s) || (!lossy && BlankPass(s)))
    ensures !Strays(s, steps, lossy)
    decreases |steps|
  {
    if steps != [] && Enabled(s, steps[0]) && (lossy || steps[0] != EnsureGeneration(false)) {
      LooseStep(s, steps[0]);
      if Secure(s) {
        SecureStep(s, steps[0]);
        if IsAct(steps[0]) {
          SecureAct(s, steps[0]);
        }
      } else {
        BlankStep(s, steps[0]);
      }
      NeverStrays(Do(s, steps[0]), steps[1..], lossy);
    }
  }

  // ---------------------------------------------------------------- continuations that stray

  lemma Further(s: State, step: Step, lossy: bool) returns (s': State)
    requires Loose(s) && Enabled(s, step) && (lossy || step != EnsureGeneration(false))
    ensures s' == Do(s, step) && Loose(s') && (MayStray(s', lossy) ==> MayStray(s, lossy))
  {
    s' := Do(s, step);
    LooseStep(s, step);
    if steps :| Strays(s', steps, lossy) {
      assert ([step] + steps)[1..] == steps;
      assert Strays(s, [step] + steps, lossy);
    }
  }

  predicate Active(s: State) {
    s.status.phase == Some(Observing) || s.status.phase == Some(Promoting) || s.status.phase == Some(Draining)
  }

  lemma StraysNow(s: State, lossy: bool)
    requires Loose(s) && s.pc.Acting? && Active(s) && !OnRecorded(s)
    ensures MayStray(s, lossy)
  {
    var none := TC.Counts(0, 0, 0, 0);
    var act := match s.status.phase.value
      case Observing => Observe(Evidence(none, none))
      case Promoting => CutOver
      case _ => Drain(None);
    assert Strays(s, [act], lossy);
  }

  /** Active, with nothing recorded. */
  lemma UnrecordedStrays(s: State, lossy: bool)
    requires Loose(s) && s.pc.Idle? && Active(s) && s.status.rolloutGeneration.None?
    ensures MayStray(s, lossy)
  {
    var a := Further(s, Fetch, lossy);
    StraysNow(a, lossy);
  }

  const PLAIN := Spec(None, None, "")

  /** The pass after an edit works on the snapshot. */
  lemma PassOnSnapshot(s: State, lossy: bool) returns (s': State)
    requires Loose(s) && s.pc.Idle? && !Over(s) && Started(s) && s.snapshot.Some?
    ensures Loose(s') && s'.pc.Acting? && s'.pc.o.spec == s.snapshot.value && s'.pc.o.status == s.status
    ensures s'.status == s.status && s'.snapshot == s.snapshot && s.specs <= s'.specs
    ensures MayStray(s', lossy) ==> MayStray(s, lossy)
  {
    var a := Further(s, Edit(PLAIN), lossy);
    var b := Further(a, Fetch, lossy);
    s' := Further(b, Load, lossy);
  }

  /** From before the observation the pass gets the rollout observed, on the snapshot as it is. */
  lemma PassObserves(s: State, lossy: bool) returns (s': State)
    requires Loose(s) && s.pc.Acting? && s.status.phase.UnwrapOr(Pending) == Pending && Started(s) && s.snapshot == Some(s.pc.o.spec)
    ensures Loose(s') && s'.pc.Idle? && s'.status.phase == Some(Observing)
    ensures s'.status.rolloutGeneration == s.status.rolloutGeneration && s'.snapshot == s.snapshot && s'.specs == s.specs
    ensures MayStray(s', lossy) ==> MayStray(s, lossy)
  {
    var a := Further(s, EnsureGeneration(true), lossy);
    var b := Further(a, TakeSnapshot, lossy);
    var c := Further(b, Prepare(false), lossy);
    s' := Further(c, WritePhase, lossy);
  }

  lemma OtherSnapshotStrays(s: State, lossy: bool)
    requires Loose(s) && s.pc.Idle? && !Over(s) && !Secure(s) && Started(s)
    ensures MayStray(s, lossy)
  {
    var a := PassOnSnapshot(s, lossy);
    if Active(s) {
      StraysNow(a, lossy);
    } else {
      var b := PassObserves(a, lossy);
      var c := PassOnSnapshot(b, lossy);
      StraysNow(c, lossy);
    }
  }

  /** A snapshot was taken without a generation: the next generation recorded is another one's. */
  lemma LateRecordStrays(s: State, lossy: bool)
    requires Loose(s) && s.pc.Idle? && s.status.phase.None? && s.status.rolloutGeneration.None? && s.snapshot.Some?
    ensures MayStray(s, lossy)
  {
    var a := Further(s, Edit(Spec(None, None, s.snapshot.value.rest + "'")), lossy);
    var b := Further(a, Fetch, lossy);
    var c := Further(b, EnsureGeneration(true), lossy);
    var d := Further(c, Abort, lossy);
    assert Recorded(d).rest != s.snapshot.value.rest;
    OtherSnapshotStrays(d, lossy);
  }

  lemma BlankStrays(s: State)
    requires Loose(s) && s.pc.Idle? && Blank(s)
    ensures MayStray(s, true)
  {
    var a := Further(s, Fetch, true);
    var b := Further(a, EnsureGeneration(false), true);
    var c := Further(b, TakeSnapshot, true);
    var d := Further(c, Prepare(false), true);
    var e := Further(d, WritePhase, true);
    UnrecordedStrays(e, true);
  }

  // ---------------------------------------------------------------- the exact condition

  /** After any run, lost writes included, that ends between two passes: no continuation ever acts on
      another spec than the recorded one exactly if the rollout is over, or its generation is recorded
      and the snapshot, if any, is of that generation; if the continuation loses no write itself, also
      if nothing is recorded at all. */
  lemma FrozenIff(r: Run, lossy: bool)
    requires IsRun(r) && Last(r).pc.Idle?
    ensures !MayStray(Last(r), lossy) <==> Secure(Last(r)) || (!lossy && Blank(Last(r)))
  {
    var s := Last(r);
    LooseRun(r, |r.steps|);
    if Secure(s) || (!lossy && Blank(s)) {
      forall steps
        ensures !Strays(s, steps, lossy)
      {
        NeverStrays(s, steps, lossy);
      }
    } else if Started(s) {
      OtherSnapshotStrays(s, lossy);
    } else if Active(s) {
      UnrecordedStrays(s, lossy);
    } else if s.snapshot.Some? {
      LateRecordStrays(s, lossy);
    } else {
      BlankStrays(s);
    }
  }

  // ---------------------------------------------------------------- two runs

  /** The first pass of a rollout takes the snapshot although the generation was not stored. */
  lemma UnstoredSnapshot(first: Spec) returns (r: Run)
    ensures IsRun(r) && Last(r) == Start(first).(snapshot := Some(first), pc := Preparing(Object(first, 1, NO_STATUS)))
  {
    r := Run([Start(first)], []);
    r := Then(r, Fetch);
    r := Then(r, EnsureGeneration(false));
    r := Then(r, TakeSnapshot);
  }

  /** If storing the rollout generation fails, the running rollout acts on a later edit at once. */
  lemma LostGenerationUnfreezes(first: Spec, second: Spec, e: Evidence) returns (r: Run)
    ensures IsRun(r) && r.steps != [] && r.steps[|r.steps| - 1] == Observe(e)
    ensures
      var s := r.states[|r.steps| - 1];
      s.status.rolloutGeneration.None? && s.snapshot == Some(first) && s.pc.Acting? && s.pc.o.spec == second
  {
    r := UnstoredSnapshot(first);
    r := Then(r, Prepare(false));
    r := Then(r, WritePhase);
    r := Then(r, Edit(second));
    r := Then(r, Fetch);
    r := Then(r, Observe(e));
  }

  /** A later pass stores a generation and is aborted before it takes the snapshot again. */
  lemma LateGeneration(first: Spec, second: Spec) returns (r: Run)
    ensures IsRun(r)
    ensures Last(r) == Start(first).(specs := [first, second], snapshot := Some(first), status := NO_STATUS.(rolloutGeneration := Some(2)))
  {
    r := UnstoredSnapshot(first);
    r := Then(r, Abort);
    r := Then(r, Edit(second));
    r := Then(r, Fetch);
    r := Then(r, EnsureGeneration(true));
    r := Then(r, Abort);
  }

  /** After one more edit the passes get the rollout observed, on the snapshot as it was. */
  lemma LateObserving(first: Spec, second: Spec, third: Spec) returns (r: Run)
    requires !Forces(third)
    ensures IsRun(r)
    ensures
      var status := Status(Some(Observing), Some(2), Some(2), None, None);
      Last(r) == State([first, second, third], status, Some(first), Idle, [], None)
  {
    r := LateGeneration(first, second);
    r := Then(r, Edit(third));
    r := Then(r, Fetch);
    r := Then(r, Load);
    assert Last(r).pc == Acting(Object(first, 3, Last(r).status));
    r := Then(r, EnsureGeneration(true));
    r := Then(r, TakeSnapshot);
    r := Then(r, Prepare(false));
    assert Last(r).pc == Writing(Object(first, 3, Last(r).status), Observing, None);
    r := Then(r, WritePhase);
  }

  /** The rollout is then frozen on a spec that its generation does not name. */
  lemma LateGenerationFreezesAnother(first: Spec, second: Spec, third: Spec, e: Evidence) returns (r: Run)
    requires !Forces(third)
    ensures IsRun(r) && r.steps != [] && r.steps[|r.steps| - 1] == Observe(e)
    ensures
      var s := r.states[|r.steps| - 1];
      s.status.rolloutGeneration == Some(2) && Started(s) && Recorded(s) == second && s.pc.Acting? && s.pc.o.spec == first
  {
    r := LateObserving(first, second, third);
    r := Then(r, Fetch);
    r := Then(r, Load);
    r := Then(r, Observe(e));
  }
}
