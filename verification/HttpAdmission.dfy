/** Admission of requests by the HTTP plugin while it drains: every atomic load, add and subtract
    of any number of request threads and drain status calls is a step of its own. */
module HttpAdmission {
  import opened Wrappers

  datatype Mode = ActiveMode | DrainingMode | IdleMode

  /** A request thread: outside, past the first mode check, between add and second check, about
      to take its add back, or admitted. */
  datatype Thread = Outside | Passed | Added | Rejecting | Admitted

  datatype Call = Call(count: int, drained: Option<bool>)

  datatype State = State(mode: Mode, active: int, threads: seq<Thread>, calls: map<nat, Call>)

  datatype Step =
    | FirstCheck(thread: nat)
    | Add(thread: nat)
    | SecondCheck(thread: nat)
    | TakeBack(thread: nat)
    | DropGuard(thread: nat)
    | SetMode(mode: Mode)
    | LoadCount(call: nat)
    | LoadMode(call: nat)

  predicate At(s: State, t: nat, thread: Thread) {
    t < |s.threads| && s.threads[t] == thread
  }

  predicate Enabled(s: State, step: Step) {
    match step
    case FirstCheck(t) => At(s, t, Outside) && s.mode == ActiveMode
    case Add(t) => At(s, t, Passed)
    case SecondCheck(t) => At(s, t, Added)
    case TakeBack(t) => At(s, t, Rejecting)
    case DropGuard(t) => At(s, t, Admitted)
    case SetMode(_) => true
    case LoadCount(_) => true
    case LoadMode(c) => c in s.calls && s.calls[c].drained == None
  }

  function Put(s: State, t: nat, thread: Thread, change: int): State
    requires t < |s.threads|
  {
    s.(threads := s.threads[t := thread], active := s.active + change)
  }

  function Do(s: State, step: Step): State
    requires Enabled(s, step)
  {
    match step
    case FirstCheck(t) => Put(s, t, Passed, 0)
    case Add(t) => Put(s, t, Added, 1)
    case SecondCheck(t) => Put(s, t, if s.mode == ActiveMode then Admitted else Rejecting, 0)
    case TakeBack(t) => Put(s, t, Outside, -1)
    case DropGuard(t) => Put(s, t, Outside, -1)
    case SetMode(m) => s.(mode := m)
    case LoadCount(c) => s.(calls := s.calls[c := Call(s.active, None)])
    case LoadMode(c) =>
      s.(calls := s.calls[c := s.calls[c].(drained := Some(s.mode == DrainingMode && s.calls[c].count == 0))])
  }

  predicate Init(s: State) {
    s.mode == IdleMode && s.active == 0 && s.calls == map[] && forall t | 0 <= t < |s.threads| :: s.threads[t] == Outside
  }

  datatype Run = Run(states: seq<State>, steps: seq<Step>)

  predicate Follows(r: Run, i: nat)
    requires i < |r.steps| && |r.states| == |r.steps| + 1
  {
    Enabled(r.states[i], r.steps[i]) && r.states[i + 1] == Do(r.states[i], r.steps[i])
  }

  predicate IsRun(r: Run) {
    && |r.states| == |r.steps| + 1
    && Init(r.states[0])
    && forall i | 0 <= i < |r.steps| :: Follows(r, i)
  }

  /** The threads between their add and their subtract. */
  function Inside(threads: seq<Thread>): set<nat> {
    set t: nat | t < |threads| && (threads[t] == Added || threads[t] == Rejecting || threads[t] == Admitted)
  }

  lemma InsideMoves(threads: seq<Thread>, t: nat, thread: Thread)
    requires t < |threads|
    ensures Inside(threads[t := thread]) == if thread == Outside || thread == Passed then Inside(threads) - {t} else Inside(threads) + {t}
  {
  }

  /** A thread's step changes the counter as it changes the number of threads inside. */
  lemma PutCounts(s: State, t: nat, thread: Thread, change: int)
    requires t < |s.threads| && s.active == |Inside(s.threads)|
    requires change == (if t in Inside(s.threads[t := thread]) then 1 else 0) - (if t in Inside(s.threads) then 1 else 0)
    ensures Put(s, t, thread, change).active == |Inside(Put(s, t, thread, change).threads)|
  {
    InsideMoves(s.threads, t, thread);
    var before, after := Inside(s.threads), Inside(s.threads[t := thread]);
    if t in before && t !in after {
      assert before == after + {t};
    } else if t !in before && t in after {
      assert after == before + {t};
    } else {
      assert after == before;
    }
  }

  lemma StepCounts(s: State, step: Step)
    requires Enabled(s, step) && s.active == |Inside(s.threads)|
    ensures Do(s, step).active == |Inside(Do(s, step).threads)|
  {
    match step
    case FirstCheck(t) => PutCounts(s, t, Passed, 0);
    case Add(t) => PutCounts(s, t, Added, 1);
    case SecondCheck(t) => PutCounts(s, t, if s.mode == ActiveMode then Admitted else Rejecting, 0);
    case TakeBack(t) => PutCounts(s, t, Outside, -1);
    case DropGuard(t) => PutCounts(s, t, Outside, -1);
    case _ =>
  }

  /** The counter always equals the number of threads between their add and their subtract. */
  lemma {:induction false} CounterIsExact(r: Run, i: nat)
    requires IsRun(r) && i < |r.states|
    ensures r.states[i].active == |Inside(r.states[i].threads)|
  {
    if i == 0 {
      assert Inside(r.states[0].threads) == {};
    } else {
      CounterIsExact(r, i - 1);
      assert Follows(r, i - 1);
      StepCounts(r.states[i - 1], r.steps[i - 1]);
    }
  }

  /** No subtract underflows. */
  lemma NeverUnderflows(r: Run, i: nat)
    requires IsRun(r) && i < |r.steps|
    ensures 0 <= r.states[i].active
    ensures (r.steps[i].TakeBack? || r.steps[i].DropGuard?) ==> r.states[i].active > 0
  {
    CounterIsExact(r, i);
    assert Follows(r, i);
    if r.steps[i].TakeBack? || r.steps[i].DropGuard? {
      assert r.steps[i].thread in Inside(r.states[i].threads);
    }
  }

  predicate NoneAdmitted(s: State) {
    forall t | 0 <= t < |s.threads| :: s.threads[t] != Admitted
  }

  predicate NoActivate(r: Run, from: nat, to: nat)
    requires to <= |r.steps|
  {
    forall m | from <= m < to :: r.steps[m] != SetMode(ActiveMode)
  }

  lemma {:induction false} StaysUnadmitted(r: Run, i: nat, k: nat)
    requires IsRun(r) && i <= k < |r.states| && NoActivate(r, i, k)
    requires r.states[i].mode != ActiveMode && r.states[i].active == 0
    ensures NoneAdmitted(r.states[k]) && r.states[k].mode != ActiveMode
  {
    if k == i {
      CounterIsExact(r, i);
      forall t | 0 <= t < |r.states[i].threads|
        ensures r.states[i].threads[t] != Admitted
      {
        assert t !in Inside(r.states[i].threads);
      }
    } else {
      StaysUnadmitted(r, i, k - 1);
      assert Follows(r, k - 1);
    }
  }

  /** The call that reported at step j last loaded the counter at step i. */
  predicate Reported(r: Run, i: nat, j: nat, c: nat)
    requires IsRun(r)
  {
    && i < j < |r.steps| && r.steps[i] == LoadCount(c) && r.steps[j] == LoadMode(c)
    && (forall m | i < m < j :: r.steps[m] != LoadCount(c) && r.steps[m] != LoadMode(c))
    && c in r.states[j + 1].calls && r.states[j + 1].calls[c].drained == Some(true)
  }

  lemma {:induction false} CountCarried(r: Run, i: nat, j: nat, c: nat)
    requires IsRun(r) && i < j < |r.states| && r.steps[i] == LoadCount(c)
    requires forall m | i < m < j :: r.steps[m] != LoadCount(c) && r.steps[m] != LoadMode(c)
    ensures c in r.states[j].calls && r.states[j].calls[c].count == r.states[i].active
  {
    assert Follows(r, j - 1);
    if i + 1 < j {
      CountCarried(r, i, j - 1, c);
    }
  }

  /** A status call reports drained exactly if no thread was inside when it loaded the counter and the mode
      was Draining when it loaded that. */
  lemma ReportIff(r: Run, i: nat, j: nat, c: nat)
    requires IsRun(r) && i < j < |r.steps| && r.steps[i] == LoadCount(c) && r.steps[j] == LoadMode(c)
    requires forall m | i < m < j :: r.steps[m] != LoadCount(c) && r.steps[m] != LoadMode(c)
    ensures c in r.states[j + 1].calls
    ensures r.states[j + 1].calls[c].drained == Some(Inside(r.states[i].threads) == {} && r.states[j].mode == DrainingMode)
  {
    CountCarried(r, i, j, c);
    CounterIsExact(r, i);
    assert Follows(r, j);
    if r.states[i].active == 0 {
      assert Inside(r.states[i].threads) == {};
    }
  }

  /** If the plugin was not active any more when a status call loaded the counter, and the call
      reports drained, no request is admitted from that load until the next activate. */
  lemma DrainedMeansNoneAdmitted(r: Run, i: nat, j: nat, c: nat, k: nat)
    requires IsRun(r) && Reported(r, i, j, c) && r.states[i].mode != ActiveMode
    requires i <= k < |r.states| && NoActivate(r, i, k)
    ensures NoneAdmitted(r.states[k])
  {
    CountCarried(r, i, j, c);
    assert Follows(r, j);
    StaysUnadmitted(r, i, k);
  }

  /** A request that nobody disturbs is admitted in Active, counted while it is inside, and leaves the state as
      it was; one that finds another mode at its second look leaves without having been admitted. */
  lemma UndisturbedRequest(s: State, t: nat, meanwhile: Mode)
    requires At(s, t, Outside) && s.mode == ActiveMode
    ensures
      var passed := Do(s, FirstCheck(t));
      && Enabled(passed, Add(t))
      && var added := Do(Do(passed, Add(t)), SetMode(meanwhile));
         && Enabled(added, SecondCheck(t)) && added.active == s.active + 1
         && var checked := Do(added, SecondCheck(t));
            && (meanwhile == ActiveMode ==>
                  At(checked, t, Admitted) && Enabled(checked, DropGuard(t)) && Do(checked, DropGuard(t)) == s)
            && (meanwhile != ActiveMode ==>
                  !At(checked, t, Admitted) && Enabled(checked, TakeBack(t)) && Do(checked, TakeBack(t)) == s.(mode := meanwhile))
  {
  }

  /** A run and one more step. */
  lemma Then(r: Run, step: Step) returns (longer: Run)
    requires IsRun(r) && Enabled(r.states[|r.steps|], step)
    ensures IsRun(longer) && longer.steps == r.steps + [step]
    ensures longer.states == r.states + [Do(r.states[|r.steps|], step)]
  {
    longer := Run(r.states + [Do(r.states[|r.steps|], step)], r.steps + [step]);
    forall i | 0 <= i < |longer.steps|
      ensures Follows(longer, i)
    {
      if i < |r.steps| {
        assert Follows(r, i);
      }
    }
  }

  /** `r` goes on from `r0` with a status call that loads the counter first, and ends in its report of
      drained, with no activate on the way. */
  predicate ReportsNext(r0: Run, r: Run, c: nat)
    requires IsRun(r0)
  {
    && IsRun(r)
    && |r0.steps| < |r.steps| && r0.states <= r.states && r0.steps <= r.steps
    && Reported(r, |r0.steps|, |r.steps| - 1, c)
    && NoActivate(r, |r0.steps|, |r.steps|)
  }

  /** The report is wrong: a request is admitted when it is made. */
  predicate WronglyNext(r0: Run, r: Run, c: nat)
    requires IsRun(r0)
  {
    ReportsNext(r0, r, c) && !NoneAdmitted(r.states[|r.steps|])
  }

  /** The call has loaded the counter, zero, right after `r0`, and still has to load the mode. */
  predicate Waiting(r0: Run, r: Run, c: nat)
    requires IsRun(r0)
  {
    && IsRun(r)
    && |r0.steps| < |r.steps| && r0.states <= r.states && r0.steps <= r.steps
    && r.steps[|r0.steps|] == LoadCount(c)
    && (forall m | |r0.steps| < m < |r.steps| :: r.steps[m] != LoadCount(c) && r.steps[m] != LoadMode(c) && r.steps[m] != SetMode(ActiveMode))
    && c in r.states[|r.steps|].calls && r.states[|r.steps|].calls[c] == Call(0, None)
  }

  lemma WaitingThen(r0: Run, r: Run, c: nat, step: Step) returns (longer: Run)
    requires IsRun(r0) && Waiting(r0, r, c) && Enabled(r.states[|r.steps|], step)
    requires !step.LoadCount? && !step.LoadMode? && step != SetMode(ActiveMode)
    ensures Waiting(r0, longer, c) && longer.states[|longer.steps|] == Do(r.states[|r.steps|], step)
  {
    longer := Then(r, step);
  }

  /** A plugin with no request inside takes one in after the call has loaded the counter, and starts
      to drain before the call loads the mode. */
  lemma ReportsTooSoon(r0: Run, c: nat) returns (r: Run)
    requires IsRun(r0)
    requires
      var s := r0.states[|r0.steps|];
      s.mode == ActiveMode && s.active == 0 && s.threads != []
    ensures WronglyNext(r0, r, c)
  {
    var s := r0.states[|r0.steps|];
    CounterIsExact(r0, |r0.steps|);
    assert 0 !in Inside(s.threads);
    r := Then(r0, LoadCount(c));
    if s.threads[0] == Outside {
      r := WaitingThen(r0, r, c, FirstCheck(0));
    }
    r := WaitingThen(r0, r, c, Add(0));
    r := WaitingThen(r0, r, c, SecondCheck(0));
    r := WaitingThen(r0, r, c, SetMode(DrainingMode));
    r := ReportsThen(r0, r, c);
  }

  lemma ReportsThen(r0: Run, r: Run, c: nat) returns (longer: Run)
    requires IsRun(r0) && Waiting(r0, r, c) && r.states[|r.steps|].mode == DrainingMode && At(r.states[|r.steps|], 0, Admitted)
    ensures WronglyNext(r0, longer, c)
  {
    longer := Then(r, LoadMode(c));
    assert longer.states[|longer.steps|].threads[0] == Admitted;
  }

  /** After any run that leaves no request inside but some thread, a status call that loads the counter
      next can report drained while a request is admitted exactly if the plugin is active at that
      load. */
  lemma WrongReportIff(r0: Run, c: nat)
    requires IsRun(r0) && r0.states[|r0.steps|].active == 0 && r0.states[|r0.steps|].threads != []
    ensures (exists r :: WronglyNext(r0, r, c)) <==> r0.states[|r0.steps|].mode == ActiveMode
  {
    if r0.states[|r0.steps|].mode == ActiveMode {
      var r := ReportsTooSoon(r0, c);
    } else {
      forall r | ReportsNext(r0, r, c)
        ensures NoneAdmitted(r.states[|r.steps|])
      {
        DrainedMeansNoneAdmitted(r, |r0.steps|, |r.steps| - 1, c, |r.steps|);
      }
    }
  }

  /** With a request inside when the counter is loaded the call does not report drained at all. */
  lemma NoReportWhileInside(r0: Run, r: Run, c: nat)
    requires IsRun(r0) && r0.states[|r0.steps|].active != 0
    ensures !ReportsNext(r0, r, c)
  {
    if ReportsNext(r0, r, c) {
      assert Follows(r, |r.steps| - 1);
      CountCarried(r, |r0.steps|, |r.steps| - 1, c);
    }
  }

  /** The two shared atomics, with try_new and drop as calls. `inside` are the guards that exist. */
  class ActiveRequests {
    var mode: Mode
    var active: nat
    ghost var inside: set<nat>

    ghost predicate Valid()
      reads this
    {
      active == |inside|
    }

    constructor ()
      ensures Valid() && mode == IdleMode && inside == {}
    {
      mode, active, inside := IdleMode, 0, {};
    }

    /** try_new of one thread; `meanwhile` is the mode that a handler has stored by the second check.
        Its guard exists exactly if it is admitted. */
    method TryNew(ghost thread: nat, meanwhile: Mode) returns (admitted: bool)
      requires Valid() && thread !in inside
      modifies this
      ensures Valid() && mode == meanwhile
      ensures admitted <==> old(mode) == ActiveMode && meanwhile == ActiveMode
      ensures inside == old(inside) + if admitted then {thread} else {}
    {
      if mode != ActiveMode {
        mode := meanwhile;
        return false;
      }
      active := active + 1;
      mode := meanwhile;
      if mode != ActiveMode {
        active := active - 1;
        return false;
      }
      inside := inside + {thread};
      return true;
    }

    /** Dropping a guard that exists never underflows the counter. */
    method Drop(ghost thread: nat)
      requires Valid() && thread in inside
      modifies this`active, this`inside
      ensures Valid() && inside == old(inside) - {thread}
    {
      active := active - 1;
      inside := inside - {thread};
    }

    /** The drained result of drain_status. */
    method Drained() returns (drained: bool)
      requires Valid()
      ensures drained <==> mode == DrainingMode && inside == {}
    {
      drained := mode == DrainingMode && active == 0;
    }
  }
}
