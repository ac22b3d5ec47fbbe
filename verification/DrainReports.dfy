/** What a drained report of the Service Bus plugin means in the duplicator and splitter roles. */
module DrainReports {
  import opened Wrappers
  import opened Queues
  import opened Relay
  import opened RelaySafety

  /** Actors that are between taking the in-flight guard and dropping it. */
  predicate Counted(me: Actor) {
    && me.kind == Worker
    && (me.pc == Settled || me.pc.Tracked? || me.pc.Admitted? || me.pc.Sending? || me.pc.Completing? || me.pc.Abandoning?)
  }

  function CountedSet(actors: seq<Actor>): set<nat> {
    set n: nat | n < |actors| && Counted(actors[n])
  }

  /** Drains take no guard and never send into a temporary queue. */
  predicate GoodDrain(cfg: Config, me: Actor) {
    me.kind == Drain ==>
      && !me.pc.Holding? && !me.pc.Tracked? && !me.pc.Admitted? && me.pc != Settled
      && (me.pc.Sending? || me.pc.Completing? ==> forall j | 0 <= j < |me.pc.dests| :: !IsTemporary(cfg, me.pc.dests[j].queue))
  }

  ghost predicate CounterInv(cfg: Config, s: State) {
    && s.inFlight == |CountedSet(s.actors)|
    && forall n | 0 <= n < |s.actors| :: GoodDrain(cfg, s.actors[n])
  }

  lemma CountedSetMoves(actors: seq<Actor>, n: nat, me: Actor)
    requires n < |actors|
    ensures |CountedSet(actors[n := me])|
            == |CountedSet(actors)| + (if Counted(me) then 1 else 0) - (if Counted(actors[n]) then 1 else 0)
  {
    var before, after := CountedSet(actors), CountedSet(actors[n := me]);
    assert before - {n} == after - {n};
    if n in before { assert before == (before - {n}) + {n}; } else { assert before == before - {n}; }
    if n in after { assert after == (after - {n}) + {n}; } else { assert after == after - {n}; }
  }

  lemma ActCounter(cfg: Config, s: State, n: nat, act: Act)
    requires Inv(cfg, s) && CounterInv(cfg, s) && Enabled(cfg, s, ActorStep(n, act))
    ensures CounterInv(cfg, DoActor(cfg, s, n, act))
  {
    var me := s.actors[n];
    assert GoodDrain(cfg, me) && GoodPc(cfg, s.bus, me.kind, me.pc);
    CountedSetMoves(s.actors, n, me.(pc := NextPc(cfg, s, me, act)));
  }

  /** The in-flight counter always equals the number of guards held, so it never underflows. */
  lemma StepCounter(cfg: Config, s: State, step: Step)
    requires Inv(cfg, s) && CounterInv(cfg, s) && Enabled(cfg, s, step)
    ensures CounterInv(cfg, Do(cfg, s, step))
  {
    var s' := Do(cfg, s, step);
    match step {
      case ActorStep(n, act) => ActCounter(cfg, s, n, act);
      case Restart => assert CountedSet(s'.actors) == {};
      case _ =>
    }
  }

  lemma {:induction false} RunCounter(cfg: Config, r: Run, i: nat)
    requires IsRun(cfg, r) && i < |r.states|
    ensures CounterInv(cfg, r.states[i]) && r.states[i].inFlight == |CountedSet(r.states[i].actors)|
  {
    if i == 0 {
      assert CountedSet(r.states[0].actors) == {};
    } else {
      RunCounter(cfg, r, i - 1);
      RunInv(cfg, r, i - 1);
      assert Follows(cfg, r, i - 1);
      StepCounter(cfg, r.states[i - 1], r.steps[i - 1]);
    }
  }

  // ---------------------------------------------------------------- quiet

  /** A worker that can still send without an activate: it may look at the mode and find Active, or it
      has passed its second look and has a destination left. */
  predicate MaySend(s: State, n: nat) {
    && n < |s.actors| && s.actors[n].kind == Worker
    && var pc := s.actors[n].pc;
    (s.mode == ActiveMode || pc.Admitted? || (pc.Sending? && pc.sent < |pc.dests|))
  }

  /** Nobody sends into the temporary queues and nobody is going to before an activate. */
  ghost predicate Quiet(s: State) {
    forall n | 0 <= n < |s.actors| :: !MaySend(s, n)
  }

  lemma ZeroInFlightIsQuiet(cfg: Config, s: State)
    requires CounterInv(cfg, s) && s.inFlight == 0 && s.mode != ActiveMode
    ensures Quiet(s)
  {
    forall n | 0 <= n < |s.actors|
      ensures !MaySend(s, n)
    {
      assert n !in CountedSet(s.actors);
    }
  }

  lemma QuietKept(cfg: Config, s: State, step: Step)
    requires Quiet(s) && Enabled(cfg, s, step) && step != SetMode(ActiveMode)
    ensures Quiet(Do(cfg, s, step))
  {
    var s' := Do(cfg, s, step);
    forall n | 0 <= n < |s'.actors|
      ensures !MaySend(s', n)
    {
      if n < |s.actors| {
        assert !MaySend(s, n);
      }
    }
  }

  /** While quiet, an actor step makes no copy appear in a temporary queue. */
  lemma QuietSends(cfg: Config, s: State, n: nat, act: Act, i: nat)
    requires Quiet(s) && CounterInv(cfg, s) && n < |s.actors| && CanAct(cfg, s, s.actors[n], act)
    requires |s.bus| <= i < |NextBus(cfg, s, s.actors[n], act)|
    ensures !IsTemporary(cfg, NextBus(cfg, s, s.actors[n], act)[i].path.queue)
  {
    var me := s.actors[n];
    assert GoodDrain(cfg, me) && !MaySend(s, n);
  }

  /** The first `k` counted paths are empty. */
  ghost predicate CleanUpTo(cfg: Config, b: Bus, k: nat)
    requires k <= |StatusPaths(cfg)|
  {
    forall j | 0 <= j < k :: Empty(b, StatusPaths(cfg)[j])
  }

  /** Messages move between the paths of a queue only in the order in which they are counted. */
  lemma MovesForward(cfg: Config, p: Path, q: Path, j: nat) returns (i: nat)
    requires q == p.(dead := true) || (!p.dead && q == p.(shadow := true))
    requires j < |StatusPaths(cfg)| && StatusPaths(cfg)[j] == q && (p.shadow ==> cfg.shadow)
    ensures i <= j && StatusPaths(cfg)[i] == p
  {
    var ps := StatusPaths(cfg);
    var h := |PathsOf(cfg, p.queue)|;
    assert |ps| == 2 * h;
    i := (if j < h then 0 else h) + (if p.shadow then 2 else 0) + (if p.dead then 1 else 0);
    if j < h {
      assert ps[0] == Path(ps[j].queue, false, false) && ps[1] == Path(ps[j].queue, false, true);
      assert cfg.shadow ==> ps[2] == Path(ps[j].queue, true, false) && ps[3] == Path(ps[j].queue, true, true);
    } else {
      assert ps[h] == Path(ps[j].queue, false, false) && ps[h + 1] == Path(ps[j].queue, false, true);
      assert cfg.shadow ==> ps[h + 2] == Path(ps[j].queue, true, false) && ps[h + 3] == Path(ps[j].queue, true, true);
    }
  }

  lemma StatusPathsAreTemporary(cfg: Config, j: nat)
    requires j < |StatusPaths(cfg)|
    ensures IsTemporary(cfg, StatusPaths(cfg)[j].queue)
  {
  }

  /** What a status call counts are exactly the temporary queues of the role with their dead-letter queues,
      and their shadows where the plugin has any, each of them once. */
  lemma CountsIff(cfg: Config, p: Path)
    ensures p in StatusPaths(cfg) <==>
            && (if cfg.role == Combiner then p.queue == GreenOut || p.queue == BlueOut else p.queue == Green || p.queue == Blue)
            && (p.shadow ==> cfg.shadow)
    ensures forall i, j | 0 <= i < j < |StatusPaths(cfg)| :: StatusPaths(cfg)[i] != StatusPaths(cfg)[j]
  {
    var ps := StatusPaths(cfg);
    var h := |PathsOf(cfg, p.queue)|;
    var at := (if p.queue == Green || p.queue == GreenOut then 0 else h) + (if p.shadow then 2 else 0) + (if p.dead then 1 else 0);
    if IsTemporary(cfg, p.queue) && (p.shadow ==> cfg.shadow) {
      assert ps[at] == p;
    }
  }

  lemma CleanKept(cfg: Config, s: State, step: Step, k: nat)
    requires cfg.role != Combiner && k <= |StatusPaths(cfg)|
    requires Inv(cfg, s) && CounterInv(cfg, s) && Quiet(s) && Enabled(cfg, s, step)
    requires CleanUpTo(cfg, s.bus, k)
    ensures CleanUpTo(cfg, Do(cfg, s, step).bus, k)
  {
    var b, b' := s.bus, Do(cfg, s, step).bus;
    forall j, i | 0 <= j < k && 0 <= i < |b'| && b'[i].path == StatusPaths(cfg)[j]
      ensures !Present(b'[i])
    {
      StatusPathsAreTemporary(cfg, j);
      assert Empty(b, StatusPaths(cfg)[j]);
      if i < |b| {
        assert GoodCopy(cfg, b, i);
        if b'[i].path != b[i].path {
          var _ := MovesForward(cfg, b[i].path, b'[i].path, j);
          assert false;
        }
      } else if step.ActorStep? {
        QuietSends(cfg, s, step.actor, step.act, i);
      }
    }
  }

  lemma CountZeroIffEmpty(b: Bus, p: Path, count: nat)
    requires IsCount(b, p, count)
    ensures count == 0 <==> Empty(b, p)
  {
    var present := set i | 0 <= i < |b| && b[i].path == p && Present(b[i]);
    assert forall i | 0 <= i < |b| && b[i].path == p && Present(b[i]) :: i in present;
    if Empty(b, p) {
      assert present == {};
    }
  }

  // ---------------------------------------------------------------- reports

  /** If call `c` has counted nothing so far, what it has counted is empty. */
  ghost predicate CallClean(cfg: Config, s: State, c: nat) {
    c in s.calls ==>
      s.calls[c].counted <= |StatusPaths(cfg)| && (s.calls[c].total == 0 ==> CleanUpTo(cfg, s.bus, s.calls[c].counted))
  }

  lemma CallCleanKept(cfg: Config, s: State, step: Step, c: nat)
    requires cfg.role != Combiner
    requires Inv(cfg, s) && CounterInv(cfg, s) && Quiet(s) && Enabled(cfg, s, step)
    requires CallClean(cfg, s, c)
    ensures CallClean(cfg, Do(cfg, s, step), c)
  {
    var s' := Do(cfg, s, step);
    if c in s.calls && c in s'.calls && s'.calls[c].total == 0 {
      CleanKept(cfg, s, step, s.calls[c].counted);
      if step.CountNext? && step.call == c {
        CountZeroIffEmpty(s.bus, StatusPaths(cfg)[s.calls[c].counted], step.count);
      }
    }
  }

  ghost predicate NoActivate(r: Run, from: nat, to: nat)
    requires to <= |r.steps|
  {
    forall m | from <= m < to :: r.steps[m] != SetMode(ActiveMode)
  }

  /** Once a status call has read an in-flight count of zero in Draining, no worker can send into
      the temporary queues until the next activate. */
  lemma NoForwardUntilActivate(cfg: Config, r: Run, i: nat, k: nat)
    requires IsRun(cfg, r) && i <= k < |r.states| && NoActivate(r, i, k)
    requires r.states[i].mode == DrainingMode && r.states[i].inFlight == 0
    ensures Quiet(r.states[k])
  {
    RunCounter(cfg, r, i);
    ZeroInFlightIsQuiet(cfg, r.states[i]);
    QuietStays(cfg, r, i, k);
  }

  lemma {:induction false} QuietStays(cfg: Config, r: Run, i: nat, k: nat)
    requires IsRun(cfg, r) && i <= k < |r.states| && NoActivate(r, i, k) && Quiet(r.states[i])
    ensures Quiet(r.states[k])
  {
    if i < k {
      QuietStays(cfg, r, i, k - 1);
      assert Follows(cfg, r, k - 1);
      QuietKept(cfg, r.states[k - 1], r.steps[k - 1]);
    }
  }

  lemma {:induction false} CallStaysClean(cfg: Config, r: Run, j: nat, k: nat, c: nat)
    requires cfg.role != Combiner && IsRun(cfg, r) && j < k < |r.states| && NoActivate(r, j, k)
    requires Quiet(r.states[j]) && r.steps[j] == BeginCall(c)
    ensures CallClean(cfg, r.states[k], c)
  {
    assert Follows(cfg, r, k - 1);
    if j + 1 < k {
      CallStaysClean(cfg, r, j, k - 1, c);
      QuietStays(cfg, r, j, k - 1);
      RunInv(cfg, r, k - 1);
      RunCounter(cfg, r, k - 1);
      CallCleanKept(cfg, r.states[k - 1], r.steps[k - 1], c);
    }
  }

  /** Both temporary queues are empty, dead-letter and shadow paths included. */
  ghost predicate TemporaryEmpty(cfg: Config, b: Bus) {
    forall p: Path | IsTemporary(cfg, p.queue) :: Empty(b, p)
  }

  lemma CleanIsEmpty(cfg: Config, b: Bus)
    requires GoodBus(cfg, b) && CleanUpTo(cfg, b, |StatusPaths(cfg)|)
    ensures TemporaryEmpty(cfg, b)
  {
    forall p: Path, i | IsTemporary(cfg, p.queue) && 0 <= i < |b| && b[i].path == p
      ensures !Present(b[i])
    {
      assert GoodCopy(cfg, b, i);
      var ps := StatusPaths(cfg);
      var h := |PathsOf(cfg, p.queue)|;
      var at := (if p.queue == Green || p.queue == GreenOut then 0 else h) + (if p.shadow then 2 else 0) + (if p.dead then 1 else 0);
      assert ps[at] == p;
      assert Empty(b, ps[at]);
    }
  }

  /** A status call that begins while no worker may send reports truly: drained means that both
      temporary queues are empty, and stay so until the next activate. */
  lemma QuietCallReportsTruly(cfg: Config, r: Run, j: nat, k: nat, c: nat, m: nat)
    requires cfg.role != Combiner && IsRun(cfg, r) && j < k < |r.steps| && Quiet(r.states[j])
    requires r.steps[j] == BeginCall(c)
    requires r.steps[k] == ReadInFlight(c) && c in r.states[k + 1].calls && r.states[k + 1].calls[c].report == Some(true)
    requires k < m < |r.states| && NoActivate(r, j, m)
    ensures TemporaryEmpty(cfg, r.states[m].bus)
  {
    CallStaysClean(cfg, r, j, k, c);
    assert Follows(cfg, r, k);
    StaysClean(cfg, r, j, k, m);
    RunInv(cfg, r, m);
    CleanIsEmpty(cfg, r.states[m].bus);
  }

  // ---------------------------------------------------------------- what a report says

  /** Call `c` goes on from step j to moment k: no other call of that number begins, no restart. */
  predicate CallBetween(r: Run, c: nat, j: nat, k: nat) {
    && j < k < |r.states| && k <= |r.steps| && r.steps[j] == BeginCall(c)
    && forall m | j < m < k :: r.steps[m] != Restart && r.steps[m] != BeginCall(c)
  }

  /** Every count of the call was zero. */
  predicate AllZero(r: Run, c: nat, j: nat, k: nat)
    requires k <= |r.steps|
  {
    forall m | j < m < k && r.steps[m].CountNext? && r.steps[m].call == c :: r.steps[m].count == 0
  }

  /** The call counted its path number q at step m. */
  ghost predicate CountsPath(cfg: Config, r: Run, c: nat, q: nat, m: nat) {
    && m < |r.steps| && m < |r.states| && r.steps[m].CountNext? && r.steps[m].call == c
    && q < |StatusPaths(cfg)| && IsCount(r.states[m].bus, StatusPaths(cfg)[q], r.steps[m].count)
  }

  ghost predicate CountedPath(cfg: Config, r: Run, c: nat, q: nat, j: nat, k: nat) {
    exists m :: j < m < k && CountsPath(cfg, r, c, q, m)
  }

  lemma {:induction false} CallSoFar(cfg: Config, r: Run, c: nat, k: nat) returns (j: nat)
    requires IsRun(cfg, r) && k < |r.states| && c in r.states[k].calls
    ensures CallBetween(r, c, j, k)
    ensures r.states[k].calls[c].counted <= |StatusPaths(cfg)|
    ensures r.states[k].calls[c].total == 0 <==> AllZero(r, c, j, k)
    ensures forall q: nat | q < r.states[k].calls[c].counted :: CountedPath(cfg, r, c, q, j, k)
  {
    assert k > 0;
    assert Follows(cfg, r, k - 1);
    if r.steps[k - 1] == BeginCall(c) {
      j := k - 1;
    } else {
      j := CallSoFar(cfg, r, c, k - 1);
      forall q: nat | q < r.states[k].calls[c].counted
        ensures CountedPath(cfg, r, c, q, j, k)
      {
        if q < r.states[k - 1].calls[c].counted {
          assert CountedPath(cfg, r, c, q, j, k - 1);
          var m :| j < m < k - 1 && CountsPath(cfg, r, c, q, m);
          assert CountsPath(cfg, r, c, q, m);
        } else {
          assert CountsPath(cfg, r, c, q, k - 1);
        }
      }
    }
  }

  /** In any run a status call, which has counted every path, reports drained exactly if all its counts
      were zero and, at its end, no worker holds a guard. */
  lemma ReportIff(cfg: Config, r: Run, k: nat, c: nat) returns (j: nat)
    requires IsRun(cfg, r) && k < |r.steps| && r.steps[k] == ReadInFlight(c)
    ensures CallBetween(r, c, j, k) && c in r.states[k + 1].calls
    ensures forall q: nat | q < |StatusPaths(cfg)| :: CountedPath(cfg, r, c, q, j, k)
    ensures r.states[k].inFlight == 0 <==> forall n | 0 <= n < |r.states[k].actors| :: !Counted(r.states[k].actors[n])
    ensures r.states[k + 1].calls[c].report == Some(r.states[k].inFlight == 0 && AllZero(r, c, j, k))
  {
    assert Follows(cfg, r, k);
    j := CallSoFar(cfg, r, c, k);
    RunCounter(cfg, r, k);
    var counted := CountedSet(r.states[k].actors);
    if forall n | 0 <= n < |r.states[k].actors| :: !Counted(r.states[k].actors[n]) {
      assert counted == {};
    } else {
      var n :| 0 <= n < |r.states[k].actors| && Counted(r.states[k].actors[n]);
      assert n in counted;
    }
  }

  /** Two drained reports in a row: the second, of a call begun after a first drained report in Draining
      and before any activate, means that both temporary queues are and stay empty. */
  lemma SecondDrainedReportMeansEmpty(cfg: Config, r: Run, i: nat, first: nat, j: nat, k: nat, c: nat, m: nat)
    requires cfg.role != Combiner && IsRun(cfg, r) && i < j < k < |r.steps|
    requires r.steps[i] == ReadInFlight(first) && r.states[i].mode == DrainingMode
    requires first in r.states[i + 1].calls && r.states[i + 1].calls[first].report == Some(true)
    requires r.steps[j] == BeginCall(c)
    requires r.steps[k] == ReadInFlight(c) && c in r.states[k + 1].calls && r.states[k + 1].calls[c].report == Some(true)
    requires k < m < |r.states| && NoActivate(r, i, m)
    ensures TemporaryEmpty(cfg, r.states[m].bus)
  {
    var begun := ReportIff(cfg, r, i, first);
    NoForwardUntilActivate(cfg, r, i, j);
    QuietCallReportsTruly(cfg, r, j, k, c, m);
  }

  lemma {:induction false} StaysClean(cfg: Config, r: Run, i: nat, k: nat, m: nat)
    requires cfg.role != Combiner && IsRun(cfg, r) && i <= k <= m < |r.states| && NoActivate(r, i, m)
    requires Quiet(r.states[i])
    requires CleanUpTo(cfg, r.states[k].bus, |StatusPaths(cfg)|)
    ensures CleanUpTo(cfg, r.states[m].bus, |StatusPaths(cfg)|)
  {
    if k < m {
      StaysClean(cfg, r, i, k, m - 1);
      QuietStays(cfg, r, i, m - 1);
      RunInv(cfg, r, m - 1);
      RunCounter(cfg, r, m - 1);
      assert Follows(cfg, r, m - 1);
      CleanKept(cfg, r.states[m - 1], r.steps[m - 1], |StatusPaths(cfg)|);
    }
  }
}
