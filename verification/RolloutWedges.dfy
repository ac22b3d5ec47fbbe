/** Where a rollout is stuck: its snapshot is missing although its generation is already outdated. */
module RolloutWedges {
  import opened Wrappers
  import opened Phases
  import opened Rollout
  import opened RolloutSafety
  import TC = TestCases

  /** The rollout generation is outdated before its snapshot was taken: no pass can load the spec. */
  predicate Wedged(s: State) {
    && s.snapshot == None
    && s.specs != []
    && s.status.rolloutGeneration.Some? && 0 < s.status.rolloutGeneration.value < |s.specs|
    && (s.status.phase.None? || s.status.phase == Some(Pending) || s.status.phase == Some(Draining))
    && match s.pc
       case Idle => true
       case Loading(_) => true
       case Forcing(_) => true
       case Writing(_, phase, reason) => phase == Draining && reason == None
       case _ => false
  }

  lemma StaysWedged(s: State, step: Step)
    requires Wedged(s) && Enabled(s, step)
    ensures Wedged(Do(s, step)) && Do(s, step).status.rolloutGeneration == s.status.rolloutGeneration
    ensures !IsAct(step)
  {
  }

  /** No number of passes and edits, forcing or not, gets a wedged rollout to act, to finish or to
      restart: its phase stays Pending or Draining and its generation where it is. */
  lemma {:induction false} WedgedForever(r: Run, i: nat, j: nat)
    requires IsRun(r) && i <= j < |r.states| && Wedged(r.states[i])
    ensures Wedged(r.states[j])
    ensures r.states[j].status.rolloutGeneration == r.states[i].status.rolloutGeneration
    ensures j < |r.steps| ==> !IsAct(r.steps[j])
  {
    if i < j {
      WedgedForever(r, i, j - 1);
      assert Follows(r, j - 1);
      StaysWedged(r.states[j - 1], r.steps[j - 1]);
    }
    if j < |r.steps| {
      assert Follows(r, j);
      StaysWedged(r.states[j], r.steps[j]);
    }
  }

  // ---------------------------------------------------------------- exactly the stuck states

  /** The steps can be taken one after the other, and one of them is an act. */
  predicate Acts(s: State, steps: seq<Step>)
    decreases |steps|
  {
    steps != [] && Enabled(s, steps[0]) && (IsAct(steps[0]) || Acts(Do(s, steps[0]), steps[1..]))
  }

  /** Some continuation, of passes, edits and aborts, acts for a rollout. */
  ghost predicate CanAct(s: State) {
    exists steps :: Acts(s, steps)
  }

  lemma {:induction false} WedgedNeverActs(s: State, steps: seq<Step>)
    requires Wedged(s)
    ensures !Acts(s, steps)
    decreases |steps|
  {
    if steps != [] && Enabled(s, steps[0]) {
      StaysWedged(s, steps[0]);
      WedgedNeverActs(Do(s, steps[0]), steps[1..]);
    }
  }

  lemma ActsNow(s: State, step: Step)
    requires Enabled(s, step) && IsAct(step)
    ensures CanAct(s)
  {
    assert Acts(s, [step]);
  }

  lemma ActsAfter(s: State, step: Step)
    requires Enabled(s, step) && CanAct(Do(s, step))
    ensures CanAct(s)
  {
    var steps :| Acts(Do(s, step), steps);
    assert ([step] + steps)[1..] == steps;
    assert Acts(s, [step] + steps);
  }

  /** The next pass finds the spec to act on. */
  predicate FindsSpec(s: State) {
    s.status.rolloutGeneration.None? || s.status.rolloutGeneration.value == |s.specs| || s.snapshot.Some?
  }

  /** A pass that finds the spec, and is not forced aside, acts on it in the stored phase. */
  lemma PassActs(s: State)
    requires Inv(s) && s.pc.Acting?
    requires s.status.phase == Some(Observing) || s.status.phase == Some(Promoting) || s.status.phase == Some(Draining)
    ensures CanAct(s)
  {
    match s.status.phase.value
    case Observing =>
      var none := TC.Counts(0, 0, 0, 0);
      ActsNow(s, Observe(Evidence(none, none)));
    case Promoting => ActsNow(s, CutOver);
    case Draining => ActsNow(s, Drain(None));
  }

  lemma FetchFinds(s: State)
    requires Inv(s) && s.pc.Idle? && FindsSpec(s) && !StartsForceReplace(Live(s)) && !NeedsRestart(Live(s))
    ensures
      var s' := Do(s, Fetch);
      || s'.pc == Acting(Live(s))
      || (s'.pc == Loading(Live(s)) && s.snapshot.Some? && Do(s', Load).pc == Acting(Frozen(Live(s), s.snapshot.value)))
  {
  }

  /** One step further, in a run that loses nothing. */
  lemma Onward(s: State, step: Step) returns (s': State)
    requires Inv(s) && Enabled(s, step) && step != EnsureGeneration(false)
    ensures s' == Do(s, step) && Inv(s') && (CanAct(s') ==> CanAct(s))
  {
    s' := Do(s, step);
    StepInv(s, step);
    if CanAct(s') {
      ActsAfter(s, step);
    }
  }

  /** A pass that finds the spec gets to act on it. */
  lemma PassStarts(s: State) returns (s': State)
    requires Inv(s) && s.pc.Idle? && FindsSpec(s) && !StartsForceReplace(Live(s)) && !NeedsRestart(Live(s))
    ensures Inv(s') && s'.pc.Acting? && s'.pc.o.status == s.status && s'.pc.o.generation == |s.specs|
    ensures s'.status == s.status && s'.specs == s.specs
    ensures CanAct(s') ==> CanAct(s)
  {
    FetchFinds(s);
    s' := Onward(s, Fetch);
    if s'.pc.Loading? {
      s' := Onward(s', Load);
    }
  }

  /** From an active phase, not wedged and not forced aside. */
  lemma ActiveActs(s: State)
    requires Inv(s) && s.pc.Idle? && FindsSpec(s) && !StartsForceReplace(Live(s))
    requires s.status.phase == Some(Observing) || s.status.phase == Some(Promoting) || s.status.phase == Some(Draining)
    ensures CanAct(s)
  {
    var s' := PassStarts(s);
    PassActs(s');
  }

  lemma WriteDraining(s: State)
    requires Inv(s) && s.pc.Writing? && s.pc.phase == Draining && s.pc.reason == None
    ensures Do(s, WritePhase).status == s.status.(phase := Some(Draining), observedGeneration := Some(RolloutGeneration(s.pc.o)))
    ensures Do(s, WritePhase).pc.Idle? && Do(s, WritePhase).snapshot == s.snapshot && Do(s, WritePhase).specs == s.specs
  {
  }

  /** The forced drain of a rollout whose snapshot is there. */
  lemma ForcedActs(s: State)
    requires Inv(s) && s.pc.Idle? && s.snapshot.Some? && StartsForceReplace(Live(s)) && !NeedsRestart(Live(s))
    ensures CanAct(s)
  {
    var a := Onward(s, Fetch);
    var b := Onward(a, Force);
    WriteDraining(b);
    var c := Onward(b, WritePhase);
    ActiveActs(c);
  }

  lemma PrepareStep(s: State) returns (s': State)
    requires Inv(s) && ActingIn(s.pc, Pending)
    ensures Inv(s') && s'.pc == Preparing(s.pc.o) && s'.snapshot.Some? && s'.specs == s.specs
    ensures CanAct(s') ==> CanAct(s)
  {
    var a := Onward(s, EnsureGeneration(true));
    s' := Onward(a, TakeSnapshot);
  }

  lemma WriteObserving(s: State)
    requires Inv(s) && s.pc.Writing? && s.pc.phase == Observing
    ensures Do(s, WritePhase).status == s.status.(phase := Some(Observing), observedGeneration := Some(RolloutGeneration(s.pc.o)))
    ensures s.status.rolloutGeneration == Some(RolloutGeneration(s.pc.o))
    ensures Do(s, WritePhase).pc.Idle? && Do(s, WritePhase).snapshot == s.snapshot && Do(s, WritePhase).specs == s.specs
  {
  }

  /** A pending pass that acts on its spec gets the rollout observed. */
  lemma PendingPass(s: State) returns (s': State)
    requires Inv(s) && ActingIn(s.pc, Pending)
    ensures Inv(s') && s'.pc.Idle? && s'.snapshot.Some? && s'.status.phase == Some(Observing) && s'.specs == s.specs
    ensures s'.status.rolloutGeneration == Some(RolloutGeneration(s.pc.o))
    ensures CanAct(s') ==> CanAct(s)
  {
    var a := PrepareStep(s);
    var b := Onward(a, Prepare(false));
    WriteObserving(b);
    s' := Onward(b, WritePhase);
  }

  /** A pending pass leads on, unless a newer generation forces the rollout aside. */
  lemma PendingPassActs(s: State)
    requires Inv(s) && ActingIn(s.pc, Pending)
    requires !(Forces(s.specs[|s.specs| - 1]) && |s.specs| > RolloutGeneration(s.pc.o))
    ensures CanAct(s)
  {
    var s' := PendingPass(s);
    ActiveActs(s');
  }

  /** From before the observation, not wedged and not forced aside. */
  lemma PendingActs(s: State)
    requires Inv(s) && s.pc.Idle? && FindsSpec(s) && !StartsForceReplace(Live(s))
    requires s.status.phase.None? || s.status.phase == Some(Pending)
    ensures CanAct(s)
  {
    var s' := PassStarts(s);
    PendingPassActs(s');
  }

  /** A rollout that is over acts again after an edit and a restart. */
  lemma TerminalActs(s: State)
    requires Inv(s) && s.pc.Idle? && s.status.phase.Some? && Terminal(s.status.phase.value)
    ensures CanAct(s)
  {
    var a := Onward(s, Edit(s.specs[|s.specs| - 1]));
    var b := Onward(a, Fetch);
    var c := Onward(b, DropSnapshot);
    var d := Onward(c, Reset);
    PendingActs(d);
  }

  /** Between passes, no continuation ever acts again exactly if the rollout generation is recorded
      and outdated, the snapshot is missing, and the rollout is not yet observed or is draining. */
  lemma StuckIff(s: State)
    requires Inv(s) && s.pc.Idle?
    ensures !CanAct(s) <==> Wedged(s)
  {
    if Wedged(s) {
      forall steps
        ensures !Acts(s, steps)
      {
        WedgedNeverActs(s, steps);
      }
    } else if s.status.phase.Some? && Terminal(s.status.phase.value) {
      TerminalActs(s);
    } else if StartsForceReplace(Live(s)) {
      ForcedActs(s);
    } else if s.status.phase.None? || s.status.phase == Some(Pending) {
      PendingActs(s);
    } else {
      ActiveActs(s);
    }
  }

  // ---------------------------------------------------------------- runs into the wedge

  function Start(spec: Spec): State {
    State([spec], NO_STATUS, None, Idle, [], None)
  }

  function Last(r: Run): State
    requires IsRun(r)
  {
    r.states[|r.steps|]
  }

  /** A run and one more step. */
  lemma Then(r: Run, step: Step) returns (longer: Run)
    requires IsRun(r) && Enabled(Last(r), step)
    ensures IsRun(longer) && longer.steps == r.steps + [step] && Last(longer) == Do(Last(r), step)
    ensures longer.states == r.states + [Last(longer)]
  {
    longer := Run(r.states + [Do(Last(r), step)], r.steps + [step]);
    forall i | 0 <= i < |longer.steps|
      ensures Follows(longer, i)
    {
      if i < |r.steps| {
        assert Follows(r, i);
      }
    }
  }

  /** The rollout of the first spec runs to completion, here by becoming the initial green. */
  lemma FirstRollout(spec: Spec) returns (r: Run)
    ensures IsRun(r) && NothingLost(r) && Abort !in r.steps
    ensures Last(r) == Start(spec).(status := Status(Some(Completed), Some(1), Some(1), None, None), snapshot := Some(spec))
  {
    r := Run([Start(spec)], []);
    r := Then(r, Fetch);
    r := Then(r, EnsureGeneration(true));
    r := Then(r, TakeSnapshot);
    r := Then(r, Prepare(true));
    r := Then(r, WritePhase);
  }

  /** A second edit right after the restart for the first one wedges the rollout, without any abort
      or lost write. */
  lemma EditAfterRestartWedges(first: Spec, second: Spec, third: Spec) returns (r: Run)
    ensures IsRun(r) && NothingLost(r) && Abort !in r.steps
    ensures Last(r).specs == [first, second, third] && Wedged(Last(r))
  {
    r := FirstRollout(first);
    r := Then(r, Edit(second));
    r := Then(r, Fetch);
    r := Then(r, DropSnapshot);
    r := Then(r, Reset);
    r := Then(r, Edit(third));
  }

  /** So does, in a first rollout, an edit after a pass that was aborted before it took the snapshot. */
  lemma AbortBeforeSnapshotWedges(first: Spec, second: Spec) returns (r: Run)
    ensures IsRun(r) && NothingLost(r) && r.steps == [Fetch, EnsureGeneration(true), Abort, Edit(second)]
    ensures Last(r).specs == [first, second] && Last(r).status.phase == None && Wedged(Last(r))
  {
    r := Run([Start(first)], []);
    r := Then(r, Fetch);
    r := Then(r, EnsureGeneration(true));
    r := Then(r, Abort);
    r := Then(r, Edit(second));
  }
}
