/** The phase of a rollout, and the guard of a phase update as an order on generation and phase. */
module Phases {
  import opened Wrappers

  datatype Phase = Pending | Observing | Promoting | Draining | Completed | RolledBack | Invalid

  predicate Terminal(p: Phase) {
    p == Completed || p == RolledBack || p == Invalid
  }

  function Rank(p: Phase): nat {
    match p
    case Pending => 0
    case Observing => 1
    case Promoting => 2
    case Draining => 3
    case _ => 4
  }

  /** What the guard looks at: the observed generation, 0 when unset, and the phase. */
  datatype Mark = Mark(generation: int, phase: Option<Phase>)

  /** phase_transition_is_current. */
  predicate TransitionIsCurrent(latest: Mark, requested: Phase, generation: int) {
    if latest.generation > generation then false
    else if latest.generation < generation then true
    else if latest.phase.None? then true
    else if latest.phase.value == requested then true
    else if Terminal(latest.phase.value) then false
    else Rank(requested) >= Rank(latest.phase.value)
  }

  /** One guarded update, or none, leads from `a` to `b`. */
  predicate Below(a: Mark, b: Mark) {
    a == b || (b.phase.Some? && TransitionIsCurrent(a, b.phase.value, b.generation))
  }

  /** Below is a partial order, so any number of guarded updates amounts to at most one. */
  lemma BelowIsPartialOrder(a: Mark, b: Mark, c: Mark)
    ensures Below(a, a)
    ensures Below(a, b) && Below(b, a) ==> a == b
    ensures Below(a, b) && Below(b, c) ==> Below(a, c)
  {
  }

  /** Phase by phase: a request for a newer generation passes the guard, one for an older does not, and
      within a generation a phase gives way to itself, an unset one to all, and a non-terminal one to
      those after it on the way from Pending over Observing, Promoting and Draining to a terminal one. */
  lemma PassesGuardIff(latest: Mark, requested: Phase, generation: int)
    ensures TransitionIsCurrent(latest, requested, generation) <==>
            || latest.generation < generation
            || (latest.generation == generation
                && (latest.phase.None? || latest.phase == Some(requested)
                    || match latest.phase.value
                       case Pending => true
                       case Observing => requested != Pending
                       case Promoting => requested != Pending && requested != Observing
                       case Draining => requested == Completed || requested == RolledBack || requested == Invalid
                       case _ => false))
  {
  }

  /** Within its generation nothing is above a terminal phase. */
  lemma TerminalIsMaximal(a: Mark, b: Mark)
    requires Below(a, b) && a.generation == b.generation && a.phase.Some? && Terminal(a.phase.value)
    ensures a == b
  {
  }

  // ---------------------------------------------------------------- writes without the guard

  /** update_status_invalid patches blindly; the order is kept exactly when the rollout is older or
      neither completed nor rolled back. */
  lemma BlindInvalidKeepsOrderIff(stored: Mark, generation: int)
    ensures Below(stored, Mark(generation, Some(Invalid))) <==>
            || stored.generation < generation
            || (stored.generation == generation && stored.phase != Some(Completed) && stored.phase != Some(RolledBack))
  {
  }

  /** reset_status_for_new_rollout patches blindly; under the test that every restart makes before
      it, that the generation is above the observed one, it moves up. */
  lemma ResetKeepsOrderIff(stored: Mark, generation: int)
    ensures Below(stored, Mark(generation, Some(Pending))) <==>
            || stored.generation < generation
            || (stored.generation == generation && (stored.phase.None? || stored.phase == Some(Pending)))
  {
  }
}
