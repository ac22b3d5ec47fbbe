/** Phase updates by concurrent writers: read, check and versioned replace interleave freely. */
module PhaseOrder {
  import opened Wrappers
  import opened Phases

  /** A writer between its read and its replace. */
  datatype Writer = Resting | Checked(requested: Phase, generation: int, version: nat)

  datatype State = State(mark: Mark, version: nat, writers: map<nat, Writer>)

  /** `Other` is any write of other fields: it moves the version and keeps the mark. */
  datatype Step =
    | ReadAndCheck(writer: nat, requested: Phase, generation: int)
    | Replace(writer: nat)
    | Other

  predicate Enabled(s: State, step: Step) {
    match step
    case ReadAndCheck(w, _, _) => w in s.writers && s.writers[w] == Resting
    case Replace(w) => w in s.writers && s.writers[w].Checked?
    case Other => true
  }

  predicate Stores(s: State, w: nat)
    requires w in s.writers && s.writers[w].Checked?
  {
    s.writers[w].version == s.version
  }

  function Do(s: State, step: Step): State
    requires Enabled(s, step)
  {
    match step
    case ReadAndCheck(w, requested, generation) =>
      if TransitionIsCurrent(s.mark, requested, generation)
      then s.(writers := s.writers[w := Checked(requested, generation, s.version)])
      else s
    case Replace(w) =>
      var rested := s.(writers := s.writers[w := Resting]);
      if Stores(s, w)
      then rested.(mark := Mark(s.writers[w].generation, Some(s.writers[w].requested)), version := s.version + 1)
      else rested
    case Other => s.(version := s.version + 1)
  }

  datatype Run = Run(states: seq<State>, steps: seq<Step>)

  predicate Follows(r: Run, i: nat)
    requires i < |r.steps| && |r.states| == |r.steps| + 1
  {
    Enabled(r.states[i], r.steps[i]) && r.states[i + 1] == Do(r.states[i], r.steps[i])
  }

  /** A run starts at any mark, with no update in progress. */
  ghost predicate IsRun(r: Run) {
    && |r.states| == |r.steps| + 1
    && (forall w | w in r.states[0].writers :: r.states[0].writers[w] == Resting)
    && forall i: nat | i < |r.steps| :: Follows(r, i)
  }

  /** A writer whose version is still the stored one has checked the very mark that is stored. */
  ghost predicate Inv(s: State) {
    forall w | w in s.writers && s.writers[w].Checked? ::
      && s.writers[w].version <= s.version
      && (s.writers[w].version == s.version ==> TransitionIsCurrent(s.mark, s.writers[w].requested, s.writers[w].generation))
  }

  lemma {:induction false} RunInv(r: Run, i: nat)
    requires IsRun(r) && i < |r.states|
    ensures Inv(r.states[i])
  {
    if i > 0 {
      RunInv(r, i - 1);
      assert Follows(r, i - 1);
    }
  }

  /** Under any interleaving the stored mark never moves down. */
  lemma {:induction false} NeverMovesDown(r: Run, i: nat, j: nat)
    requires IsRun(r) && i <= j < |r.states|
    ensures Below(r.states[i].mark, r.states[j].mark)
  {
    if i < j {
      NeverMovesDown(r, i, j - 1);
      RunInv(r, j - 1);
      assert Follows(r, j - 1);
      BelowIsPartialOrder(r.states[i].mark, r.states[j - 1].mark, r.states[j].mark);
    }
  }

  /** A terminal phase stays until the generation rises. */
  lemma TerminalStays(r: Run, i: nat, j: nat)
    requires IsRun(r) && i <= j < |r.states|
    requires r.states[i].mark.phase.Some? && Terminal(r.states[i].mark.phase.value)
    ensures r.states[j].mark == r.states[i].mark || r.states[j].mark.generation > r.states[i].mark.generation
  {
    NeverMovesDown(r, i, j);
  }

  lemma {:induction false} VersionsRise(r: Run, i: nat, j: nat)
    requires IsRun(r) && i <= j < |r.states|
    ensures r.states[i].version <= r.states[j].version
  {
    if i < j {
      VersionsRise(r, i, j - 1);
      assert Follows(r, j - 1);
    }
  }

  /** Of the updates that have read the same version at most one is stored. */
  lemma OneUpdatePerVersion(r: Run, i: nat, j: nat)
    requires IsRun(r) && i < j < |r.steps| && r.steps[i].Replace? && r.steps[j].Replace?
    requires Enabled(r.states[i], r.steps[i]) && Enabled(r.states[j], r.steps[j])
    requires r.states[i].writers[r.steps[i].writer].version == r.states[j].writers[r.steps[j].writer].version
    ensures !(Stores(r.states[i], r.steps[i].writer) && Stores(r.states[j], r.steps[j].writer))
  {
    assert Follows(r, i);
    VersionsRise(r, i + 1, j);
  }

  /** An update that nobody disturbs is stored exactly if it passes the guard. */
  lemma UndisturbedStored(s: State, w: nat, requested: Phase, generation: int)
    requires w in s.writers && s.writers[w] == Resting
    ensures
      var checked := Do(s, ReadAndCheck(w, requested, generation));
      if TransitionIsCurrent(s.mark, requested, generation)
      then Enabled(checked, Replace(w)) && Do(checked, Replace(w)).mark == Mark(generation, Some(requested))
      else checked == s
  {
  }

  // ---------------------------------------------------------------- the status object

  class StatusObject {
    var phase: Option<Phase>
    var observedGeneration: Option<int>
    var version: nat

    function Stored(): Mark
      reads this
    {
      Mark(observedGeneration.UnwrapOr(0), phase)
    }

    constructor ()
      ensures Stored() == Mark(0, None) && version == 0
    {
      phase, observedGeneration, version := None, None, 0;
    }

    /** replace_status: refused when another write came first. */
    method ReplaceStatus(newPhase: Phase, newGeneration: int, readVersion: nat) returns (conflict: bool)
      modifies this
      ensures conflict <==> readVersion != old(version)
      ensures Stored() == if conflict then old(Stored()) else Mark(newGeneration, Some(newPhase))
      ensures version == if conflict then old(version) else old(version) + 1
    {
      conflict := readVersion != version;
      if !conflict {
        phase, observedGeneration, version := Some(newPhase), Some(newGeneration), version + 1;
      }
    }

    /** update_status_phase; `others` are the guarded marks that others have stored between the
        read and the replace. */
    method UpdateStatusPhase(requested: Phase, rolloutGeneration: int, others: seq<Mark>)
      modifies this
      requires forall m | m in others :: m.phase.Some?
      requires Chain(Stored(), others)
      ensures Below(old(Stored()), Stored())
      ensures Stored() ==
              if others != [] then others[|others| - 1]
              else if TransitionIsCurrent(old(Stored()), requested, rolloutGeneration) then Mark(rolloutGeneration, Some(requested))
              else old(Stored())
      ensures others == [] && rolloutGeneration > old(Stored()).generation ==> Stored() == Mark(rolloutGeneration, Some(requested))
      ensures others == [] && rolloutGeneration < old(Stored()).generation ==> Stored() == old(Stored())
      ensures others == [] && rolloutGeneration == old(Stored()).generation ==>
                Stored().generation == rolloutGeneration && Stored().phase == match old(phase)
                case None => Some(requested)
                case Some(Pending) => Some(requested)
                case Some(Observing) => if requested == Pending then Some(Observing) else Some(requested)
                case Some(Promoting) => if requested == Pending || requested == Observing then Some(Promoting) else Some(requested)
                case Some(Draining) =>
                  if requested == Completed || requested == RolledBack || requested == Invalid then Some(requested) else Some(Draining)
                case Some(terminal) => Some(terminal)
    {
      var latest, readVersion := Stored(), version;
      var current := TransitionIsCurrent(latest, requested, rolloutGeneration);
      var i := 0;
      while i < |others|
        invariant 0 <= i <= |others|
        invariant version == readVersion + i
        invariant Stored() == if i == 0 then latest else others[i - 1]
        invariant Below(latest, Stored())
      {
        assert Linked(latest, others, i);
        BelowIsPartialOrder(latest, Stored(), others[i]);
        phase, observedGeneration, version := others[i].phase, Some(others[i].generation), version + 1;
        i := i + 1;
      }
      if current {
        var _ := ReplaceStatus(requested, rolloutGeneration, readVersion);
      }
    }
  }

  /** Each mark is stored over the one before it by a guarded update. */
  predicate Chain(start: Mark, marks: seq<Mark>) {
    forall i | 0 <= i < |marks| :: Linked(start, marks, i)
  }

  predicate Linked(start: Mark, marks: seq<Mark>, i: nat)
    requires i < |marks|
  {
    Below(if i == 0 then start else marks[i - 1], marks[i])
  }
}
