/** Exactly when a single drained report of the Service Bus plugin can be wrong. */
module DrainExact {
  import opened Wrappers
  import opened Queues
  import opened Relay
  import opened RelaySafety
  import opened DrainReports

  // ---------------------------------------------------------------- runs that go on

  ghost function Last(cfg: Config, r: Run): State
    requires IsRun(cfg, r)
  {
    r.states[|r.steps|]
  }

  /** `r` goes on from `r0` with the beginning of call `c`, without an activate. */
  ghost predicate Onward(cfg: Config, r0: Run, r: Run, c: nat)
    requires IsRun(cfg, r0)
  {
    && IsRun(cfg, r)
    && |r0.steps| < |r.steps| && r0.states <= r.states && r0.steps <= r.steps
    && r.steps[|r0.steps|] == BeginCall(c)
    && NoActivate(r, |r0.steps|, |r.steps|)
  }

  /** ... to a drained report of that call while a message is in a temporary queue. */
  ghost predicate WronglyReports(cfg: Config, r0: Run, r: Run, c: nat)
    requires IsRun(cfg, r0)
  {
    && Onward(cfg, r0, r, c)
    && r.steps[|r.steps| - 1] == ReadInFlight(c)
    && c in Last(cfg, r).calls && Last(cfg, r).calls[c].report == Some(true)
    && !TemporaryEmpty(cfg, Last(cfg, r).bus)
  }

  lemma Longer(cfg: Config, r: Run, step: Step) returns (longer: Run)
    requires IsRun(cfg, r) && Enabled(cfg, Last(cfg, r), step)
    ensures IsRun(cfg, longer) && longer.steps == r.steps + [step]
    ensures longer.states == r.states + [Do(cfg, Last(cfg, r), step)]
  {
    longer := Run(r.states + [Do(cfg, Last(cfg, r), step)], r.steps + [step]);
    forall i | 0 <= i < |longer.steps|
      ensures Follows(cfg, longer, i)
    {
      if i < |r.steps| {
        assert Follows(cfg, r, i);
      }
    }
  }

  lemma Begin(cfg: Config, r0: Run, c: nat) returns (r: Run)
    requires IsRun(cfg, r0) && c !in Last(cfg, r0).calls
    ensures Onward(cfg, r0, r, c)
    ensures Last(cfg, r) == Last(cfg, r0).(calls := Last(cfg, r0).calls[c := Call(0, 0, None)])
  {
    r := Longer(cfg, r0, BeginCall(c));
  }

  lemma Then(cfg: Config, r0: Run, r: Run, c: nat, step: Step) returns (longer: Run)
    requires IsRun(cfg, r0) && Onward(cfg, r0, r, c)
    requires Enabled(cfg, Last(cfg, r), step) && step != SetMode(ActiveMode)
    ensures Onward(cfg, r0, longer, c) && Last(cfg, longer) == Do(cfg, Last(cfg, r), step)
    ensures longer.steps == r.steps + [step]
  {
    longer := Longer(cfg, r, step);
  }

  /** The state a run has reached satisfies both invariants. */
  lemma LastInv(cfg: Config, r: Run)
    requires IsRun(cfg, r)
    ensures Inv(cfg, Last(cfg, r)) && CounterInv(cfg, Last(cfg, r))
  {
    RunInv(cfg, r, |r.steps|);
    RunCounter(cfg, r, |r.steps|);
  }

  // ---------------------------------------------------------------- what workers send

  /** A worker that sends serves active temporary queues. */
  predicate SendsTemporary(cfg: Config, me: Actor) {
    me.kind == Worker && me.pc.Sending? ==>
      forall j | 0 <= j < |me.pc.dests| :: me.pc.dests[j] == Active(Green) || me.pc.dests[j] == Active(Blue)
  }

  lemma {:induction false} RunSendsTemporary(cfg: Config, r: Run, i: nat, n: nat)
    requires cfg.role != Combiner && IsRun(cfg, r) && i < |r.states| && n < |r.states[i].actors|
    ensures SendsTemporary(cfg, r.states[i].actors[n])
  {
    if i > 0 {
      assert Follows(cfg, r, i - 1);
      RunSendsTemporary(cfg, r, i - 1, n);
    }
  }

  // ---------------------------------------------------------------- a worker gives up

  /** Steps a worker needs to get back to the top when every request fails. */
  function Left(pc: Pc): nat {
    match pc
    case Top => 0
    case Polling => 1
    case Settled => 1
    case Abandoning(_) => 2
    case Completing(_, _) => 3
    case Sending(_, _, _) => 4
    case Admitted(_) => 5
    case Tracked(_) => 6
    case Holding(_) => 7
  }

  function GivesUp(pc: Pc): Act
    requires !pc.Top?
  {
    match pc
    case Polling => GiveUp
    case Settled => DropGuard
    case Abandoning(_) => Abandon(Failed)
    case Completing(_, _) => Complete(Failed)
    case Sending(_, dests, sent) => if sent == |dests| then AllSent else SendNext(Failed)
    case Admitted(_) => Route
    case Tracked(_) => Recheck
    case Holding(_) => Track
  }

  /** The same bus, mode and calls, and the same actors but for the n-th. */
  ghost predicate OnlyActor(s: State, s': State, n: nat)
    requires n < |s.actors|
  {
    && s'.bus == s.bus && s'.mode == s.mode && s'.calls == s.calls && |s'.actors| == |s.actors|
    && s'.actors[n].kind == s.actors[n].kind
    && forall m | 0 <= m < |s.actors| && m != n :: s'.actors[m] == s.actors[m]
  }

  lemma GiveUpStep(cfg: Config, s: State, n: nat)
    requires Inv(cfg, s) && n < |s.actors| && s.actors[n].kind == Worker && !s.actors[n].pc.Top?
    ensures Enabled(cfg, s, ActorStep(n, GivesUp(s.actors[n].pc)))
    ensures
      var s' := DoActor(cfg, s, n, GivesUp(s.actors[n].pc));
      OnlyActor(s, s', n) && Left(s'.actors[n].pc) < Left(s.actors[n].pc)
  {
    assert GoodPc(cfg, s.bus, s.actors[n].kind, s.actors[n].pc);
  }

  lemma {:induction false} Retire(cfg: Config, r0: Run, r: Run, c: nat, n: nat) returns (longer: Run)
    requires IsRun(cfg, r0) && Onward(cfg, r0, r, c)
    requires n < |Last(cfg, r).actors| && Last(cfg, r).actors[n].kind == Worker
    ensures Onward(cfg, r0, longer, c) && OnlyActor(Last(cfg, r), Last(cfg, longer), n)
    ensures Last(cfg, longer).actors[n] == Actor(Worker, Top)
    decreases Left(Last(cfg, r).actors[n].pc)
  {
    var s := Last(cfg, r);
    if s.actors[n].pc.Top? {
      longer := r;
    } else {
      LastInv(cfg, r);
      GiveUpStep(cfg, s, n);
      var next := Then(cfg, r0, r, c, ActorStep(n, GivesUp(s.actors[n].pc)));
      longer := Retire(cfg, r0, next, c, n);
    }
  }

  /** The same bus, mode and calls, and actors of the same kinds. */
  ghost predicate OnlyActors(s: State, s': State) {
    && s'.bus == s.bus && s'.mode == s.mode && s'.calls == s.calls && |s'.actors| == |s.actors|
    && forall m | 0 <= m < |s.actors| :: s'.actors[m].kind == s.actors[m].kind
  }

  /** All workers from the k-th on give up; then no guard is held. */
  lemma {:induction false} RetireAll(cfg: Config, r0: Run, r: Run, c: nat, k: nat) returns (longer: Run)
    requires IsRun(cfg, r0) && Onward(cfg, r0, r, c) && k <= |Last(cfg, r).actors|
    requires forall m | 0 <= m < k :: !Counted(Last(cfg, r).actors[m])
    ensures Onward(cfg, r0, longer, c) && OnlyActors(Last(cfg, r), Last(cfg, longer)) && Last(cfg, longer).inFlight == 0
    decreases |Last(cfg, r).actors| - k
  {
    var s := Last(cfg, r);
    if k == |s.actors| {
      longer := r;
      LastInv(cfg, r);
      assert CountedSet(s.actors) == {};
    } else if s.actors[k].kind == Worker {
      var next := Retire(cfg, r0, r, c, k);
      longer := RetireAll(cfg, r0, next, c, k + 1);
    } else {
      longer := RetireAll(cfg, r0, r, c, k + 1);
    }
  }

  // ---------------------------------------------------------------- a worker gets ready to send

  /** The n-th worker has a message and a destination left. */
  predicate Ready(s: State, n: nat) {
    && n < |s.actors| && s.actors[n].kind == Worker && s.actors[n].pc.Sending?
    && s.actors[n].pc.sent < |s.actors[n].pc.dests| && s.actors[n].pc.a.copy < |s.bus|
  }

  lemma RouteNow(cfg: Config, r0: Run, r: Run, c: nat, n: nat) returns (longer: Run)
    requires IsRun(cfg, r0) && Onward(cfg, r0, r, c)
    requires n < |Last(cfg, r).actors| && Last(cfg, r).actors[n].kind == Worker && Last(cfg, r).actors[n].pc.Admitted?
    ensures Onward(cfg, r0, longer, c) && Ready(Last(cfg, longer), n) && Last(cfg, longer).calls == Last(cfg, r).calls
  {
    LastInv(cfg, r);
    assert GoodPc(cfg, Last(cfg, r).bus, Worker, Last(cfg, r).actors[n].pc);
    longer := Then(cfg, r0, r, c, ActorStep(n, Route));
  }

  /** In an active plugin a worker at the top takes in a new message and passes both looks. */
  lemma TakeIn(cfg: Config, r0: Run, r: Run, c: nat, n: nat) returns (longer: Run)
    requires cfg.role != Combiner && IsRun(cfg, r0) && Onward(cfg, r0, r, c) && Last(cfg, r).mode == ActiveMode
    requires n < |Last(cfg, r).actors| && Last(cfg, r).actors[n] == Actor(Worker, Top)
    ensures Onward(cfg, r0, longer, c) && Last(cfg, longer).calls == Last(cfg, r).calls
    ensures n < |Last(cfg, longer).actors| && Last(cfg, longer).actors[n].kind == Worker && Last(cfg, longer).actors[n].pc.Admitted?
  {
    var i := |Last(cfg, r).bus|;
    var a := Then(cfg, r0, r, c, Produce(0, Active(Base)));
    var b := Then(cfg, r0, a, c, ActorStep(n, ReadMode));
    var d := Then(cfg, r0, b, c, ActorStep(n, Receive(i)));
    var e := Then(cfg, r0, d, c, ActorStep(n, Track));
    longer := Then(cfg, r0, e, c, ActorStep(n, Recheck));
  }

  lemma GetReady(cfg: Config, r0: Run, r: Run, c: nat, n: nat) returns (longer: Run)
    requires cfg.role != Combiner && IsRun(cfg, r0) && Onward(cfg, r0, r, c) && MaySend(Last(cfg, r), n)
    ensures Onward(cfg, r0, longer, c) && Ready(Last(cfg, longer), n) && Last(cfg, longer).calls == Last(cfg, r).calls
  {
    var s := Last(cfg, r);
    LastInv(cfg, r);
    assert GoodPc(cfg, s.bus, s.actors[n].kind, s.actors[n].pc);
    if Ready(s, n) {
      longer := r;
    } else if s.actors[n].pc.Admitted? {
      longer := RouteNow(cfg, r0, r, c, n);
    } else {
      var a := Retire(cfg, r0, r, c, n);
      var b := TakeIn(cfg, r0, a, c, n);
      longer := RouteNow(cfg, r0, b, c, n);
    }
  }

  // ---------------------------------------------------------------- the call counts

  /** The same but for what becomes of single copies. */
  ghost predicate OnlyBus(s: State, s': State) {
    s'.actors == s.actors && s'.calls == s.calls && |s'.bus| == |s.bus|
  }

  ghost predicate ClearedUpTo(cfg: Config, b: Bus, k: nat)
    requires k <= |b|
  {
    forall i | 0 <= i < k && IsTemporary(cfg, b[i].path.queue) :: !Present(b[i])
  }

  /** The applications take the k-th copy, after its lock has expired if it has one. */
  lemma TakeOut(cfg: Config, r0: Run, r: Run, c: nat, k: nat) returns (longer: Run)
    requires IsRun(cfg, r0) && Onward(cfg, r0, r, c) && k < |Last(cfg, r).bus| && ClearedUpTo(cfg, Last(cfg, r).bus, k)
    ensures Onward(cfg, r0, longer, c) && OnlyBus(Last(cfg, r), Last(cfg, longer)) && ClearedUpTo(cfg, Last(cfg, longer).bus, k + 1)
  {
    longer := r;
    if Last(cfg, r).bus[k].fate == Locked {
      longer := Then(cfg, r0, longer, c, Expire(k));
    }
    if Last(cfg, longer).bus[k].fate == Fate.Ready {
      longer := Then(cfg, r0, longer, c, Consume(k));
    }
  }

  lemma {:induction false} ClearAll(cfg: Config, r0: Run, r: Run, c: nat, k: nat) returns (longer: Run)
    requires IsRun(cfg, r0) && Onward(cfg, r0, r, c) && k <= |Last(cfg, r).bus| && ClearedUpTo(cfg, Last(cfg, r).bus, k)
    ensures Onward(cfg, r0, longer, c) && OnlyBus(Last(cfg, r), Last(cfg, longer)) && TemporaryEmpty(cfg, Last(cfg, longer).bus)
    decreases |Last(cfg, r).bus| - k
  {
    if k == |Last(cfg, r).bus| {
      longer := r;
    } else {
      var next := TakeOut(cfg, r0, r, c, k);
      longer := ClearAll(cfg, r0, next, c, k + 1);
    }
  }

  lemma EmptyCounts(b: Bus, p: Path)
    requires Empty(b, p)
    ensures IsCount(b, p, 0)
  {
    assert (set i | 0 <= i < |b| && b[i].path == p && Present(b[i])) == {};
  }

  /** The call counts every path while all are empty. */
  lemma {:induction false} CountAll(cfg: Config, r0: Run, r: Run, c: nat) returns (longer: Run)
    requires IsRun(cfg, r0) && Onward(cfg, r0, r, c) && TemporaryEmpty(cfg, Last(cfg, r).bus)
    requires c in Last(cfg, r).calls && Last(cfg, r).calls[c].counted <= |StatusPaths(cfg)|
    requires Last(cfg, r).calls[c].total == 0 && Last(cfg, r).calls[c].report == None
    ensures Onward(cfg, r0, longer, c)
    ensures Last(cfg, longer) == Last(cfg, r).(calls := Last(cfg, r).calls[c := Call(|StatusPaths(cfg)|, 0, None)])
    decreases |StatusPaths(cfg)| - Last(cfg, r).calls[c].counted
  {
    var s := Last(cfg, r);
    var counted := s.calls[c].counted;
    if counted == |StatusPaths(cfg)| {
      longer := r;
      assert s.calls[c := s.calls[c]] == s.calls;
    } else {
      StatusPathsAreTemporary(cfg, counted);
      EmptyCounts(s.bus, StatusPaths(cfg)[counted]);
      var next := Then(cfg, r0, r, c, CountNext(c, 0));
      longer := CountAll(cfg, r0, next, c);
      assert Last(cfg, next).calls[c := Call(|StatusPaths(cfg)|, 0, None)] == s.calls[c := Call(|StatusPaths(cfg)|, 0, None)];
    }
  }

  // ---------------------------------------------------------------- the exact condition

  /** A worker that may send: everything else is taken out, the call counts nothing, the worker sends,
      all guards are dropped, and the call reports drained. */
  lemma ReportsTooSoon(cfg: Config, r0: Run, c: nat, n: nat) returns (r: Run)
    requires cfg.role != Combiner && IsRun(cfg, r0) && c !in Last(cfg, r0).calls && MaySend(Last(cfg, r0), n)
    ensures WronglyReports(cfg, r0, r, c)
  {
    r := Begin(cfg, r0, c);
    r := GetReady(cfg, r0, r, c, n);
    r := ClearAll(cfg, r0, r, c, 0);
    r := CountAll(cfg, r0, r, c);
    r := SendOne(cfg, r0, r, c, n);
    r := RetireAll(cfg, r0, r, c, 0);
    r := Then(cfg, r0, r, c, ReadInFlight(c));
  }

  lemma SendOne(cfg: Config, r0: Run, r: Run, c: nat, n: nat) returns (longer: Run)
    requires cfg.role != Combiner && IsRun(cfg, r0) && Onward(cfg, r0, r, c) && Ready(Last(cfg, r), n)
    ensures Onward(cfg, r0, longer, c) && Last(cfg, longer).calls == Last(cfg, r).calls
    ensures !TemporaryEmpty(cfg, Last(cfg, longer).bus)
  {
    var s := Last(cfg, r);
    RunSendsTemporary(cfg, r, |r.steps|, n);
    var p := s.actors[n].pc.dests[s.actors[n].pc.sent];
    longer := Then(cfg, r0, r, c, ActorStep(n, SendNext(Done)));
    var b := Last(cfg, longer).bus;
    assert b[|s.bus|].path == p && Present(b[|s.bus|]);
    assert !Empty(b, p) && IsTemporary(cfg, p.queue);
  }

  /** After any run of a duplicator or splitter, a status call that begins next can report drained,
      before any activate, while a message is in a temporary queue exactly if some worker may send. */
  lemma WrongReportIff(cfg: Config, r0: Run, c: nat)
    requires cfg.role != Combiner && IsRun(cfg, r0) && c !in Last(cfg, r0).calls
    ensures (exists r :: WronglyReports(cfg, r0, r, c)) <==> exists n :: MaySend(Last(cfg, r0), n)
  {
    if n :| MaySend(Last(cfg, r0), n) {
      var r := ReportsTooSoon(cfg, r0, c, n);
    } else {
      forall r | Onward(cfg, r0, r, c) && r.steps[|r.steps| - 1] == ReadInFlight(c)
                 && c in Last(cfg, r).calls && Last(cfg, r).calls[c].report == Some(true)
        ensures TemporaryEmpty(cfg, Last(cfg, r).bus)
      {
        QuietCallReportsTruly(cfg, r, |r0.steps|, |r.steps| - 1, c, |r.steps|);
      }
    }
  }

  /** So a single drained report is not enough, in either role and with or without shadow queues. */
  lemma OneReportIsNotEnough(cfg: Config) returns (r: Run)
    requires cfg.role != Combiner
    ensures IsRun(cfg, r) && |r.steps| > 0 && r.steps[|r.steps| - 1] == ReadInFlight(0)
    ensures 0 in Last(cfg, r).calls && Last(cfg, r).calls[0].report == Some(true) && !TemporaryEmpty(cfg, Last(cfg, r).bus)
  {
    var start := State([], IdleMode, 0, 0, [Actor(Worker, Top)], map[]);
    var r0 := Longer(cfg, Run([start], []), SetMode(ActiveMode));
    r := ReportsTooSoon(cfg, r0, 0, 0);
  }
}
