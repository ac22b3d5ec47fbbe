/** Where the messages go that the relay takes from a queue: in every run, queue by queue, and in a pass
    that nothing disturbs. */
module RelayServed {
  import opened Wrappers
  import opened Queues
  import opened Relay
  import opened RelaySafety
  import opened RelayRouting
  import opened DrainExact

  // ---------------------------------------------------------------- nothing beyond what was served

  ghost predicate OnlyTo(b: Bus, a: Attempt, dests: seq<Path>) {
    forall k | 0 <= k < |b| && b[k].source == Some(a) :: b[k].sentTo in dests
  }

  /** The completing attempt of a copy has sent to the served destinations only, and nobody sends for it
      any more. */
  ghost predicate Closed(b: Bus, i: nat)
    requires i < |b|
  {
    b[i].fate.Completed? ==> OnlyTo(b, Attempt(i, b[i].tries), b[i].fate.served)
  }

  ghost predicate ActorServes(b: Bus, pc: Pc) {
    && (pc.Completing? ==> OnlyTo(b, pc.a, pc.dests))
    && (Token(pc).Some? ==>
          var a := Token(pc).value;
          a.copy < |b| && (b[a.copy].fate.Completed? ==> a.try != b[a.copy].tries))
  }

  ghost predicate ServedInv(s: State) {
    && (forall i | 0 <= i < |s.bus| :: Closed(s.bus, i))
    && forall n | 0 <= n < |s.actors| :: ActorServes(s.bus, s.actors[n].pc)
  }

  /** Steps of the world complete nothing and send nothing on. */
  lemma WorldServes(cfg: Config, s: State, step: Step)
    requires Inv(cfg, s) && ServedInv(s) && Enabled(cfg, s, step) && !step.ActorStep?
    ensures ServedInv(Do(cfg, s, step))
  {
    var s' := Do(cfg, s, step);
    forall i | 0 <= i < |s'.bus|
      ensures Closed(s'.bus, i)
    {
      if i < |s.bus| {
        assert Closed(s.bus, i);
      }
    }
    forall n | 0 <= n < |s'.actors|
      ensures ActorServes(s'.bus, s'.actors[n].pc)
    {
      assert ActorServes(s.bus, s.actors[n].pc);
    }
  }

  lemma SendServes(cfg: Config, s: State, n: nat, o: Outcome)
    requires Inv(cfg, s) && ServedInv(s) && n < |s.actors| && CanAct(cfg, s, s.actors[n], SendNext(o)) && o != Failed
    ensures ServedInv(DoActor(cfg, s, n, SendNext(o)))
  {
    var s' := DoActor(cfg, s, n, SendNext(o));
    var a := s.actors[n].pc.a;
    assert ActorServes(s.bus, s.actors[n].pc);
    forall i | 0 <= i < |s'.bus|
      ensures Closed(s'.bus, i)
    {
      if i < |s.bus| {
        assert Closed(s.bus, i);
      }
    }
    forall m | 0 <= m < |s'.actors|
      ensures ActorServes(s'.bus, s'.actors[m].pc)
    {
      assert ActorServes(s.bus, s.actors[m].pc);
      assert m != n ==> Token(s.actors[m].pc) != Some(a);
    }
  }

  lemma CompleteServes(cfg: Config, s: State, n: nat, o: Outcome)
    requires Inv(cfg, s) && ServedInv(s) && n < |s.actors| && CanAct(cfg, s, s.actors[n], Complete(o)) && o != Failed
    ensures ServedInv(DoActor(cfg, s, n, Complete(o)))
  {
    var s' := DoActor(cfg, s, n, Complete(o));
    var a := s.actors[n].pc.a;
    assert ActorServes(s.bus, s.actors[n].pc);
    forall i | 0 <= i < |s'.bus|
      ensures Closed(s'.bus, i)
    {
      assert Closed(s.bus, i);
    }
    forall m | 0 <= m < |s'.actors|
      ensures ActorServes(s'.bus, s'.actors[m].pc)
    {
      assert ActorServes(s.bus, s.actors[m].pc);
      assert m != n ==> Token(s.actors[m].pc) != Some(a);
    }
  }

  lemma OtherActServes(cfg: Config, s: State, n: nat, act: Act)
    requires Inv(cfg, s) && ServedInv(s) && n < |s.actors| && CanAct(cfg, s, s.actors[n], act)
    requires !act.SendNext? && !act.Complete? && !act.AllSent?
    ensures ServedInv(DoActor(cfg, s, n, act))
  {
    var s' := DoActor(cfg, s, n, act);
    forall i | 0 <= i < |s'.bus|
      ensures Closed(s'.bus, i)
    {
      assert Closed(s.bus, i);
    }
    forall m | 0 <= m < |s'.actors|
      ensures ActorServes(s'.bus, s'.actors[m].pc)
    {
      assert ActorServes(s.bus, s.actors[m].pc);
    }
  }

  lemma StillServes(cfg: Config, s: State, n: nat, act: Act)
    requires Inv(cfg, s) && ServedInv(s) && n < |s.actors| && CanAct(cfg, s, s.actors[n], act)
    requires act == SendNext(Failed) || act == Complete(Failed) || act == AllSent
    ensures ServedInv(DoActor(cfg, s, n, act))
  {
    var s' := DoActor(cfg, s, n, act);
    var pc := s.actors[n].pc;
    assert GoodPc(cfg, s.bus, s.actors[n].kind, pc);
    if act == AllSent {
      assert pc.dests[..pc.sent] == pc.dests;
    }
    forall m | 0 <= m < |s'.actors|
      ensures ActorServes(s'.bus, s'.actors[m].pc)
    {
      assert ActorServes(s.bus, s.actors[m].pc);
    }
  }

  lemma {:induction false} RunServes(cfg: Config, r: Run, i: nat)
    requires IsRun(cfg, r) && i < |r.states|
    ensures ServedInv(r.states[i])
  {
    if i > 0 {
      RunServes(cfg, r, i - 1);
      RunInv(cfg, r, i - 1);
      assert Follows(cfg, r, i - 1);
      var s, step := r.states[i - 1], r.steps[i - 1];
      if !step.ActorStep? {
        WorldServes(cfg, s, step);
      } else if step.act.SendNext? && step.act.outcome != Failed {
        SendServes(cfg, s, step.actor, step.act.outcome);
      } else if step.act.Complete? && step.act.outcome != Failed {
        CompleteServes(cfg, s, step.actor, step.act.outcome);
      } else if step.act.SendNext? || step.act.Complete? || step.act.AllSent? {
        StillServes(cfg, s, step.actor, step.act);
      } else {
        OtherActServes(cfg, s, step.actor, step.act);
      }
    }
  }

  // ---------------------------------------------------------------- where the messages of each queue go

  /** The attempt has a copy accepted at `p`, and none anywhere else. */
  ghost predicate JustTo(b: Bus, a: Attempt, p: Path) {
    Delivered(b, a, p) && forall q | Delivered(b, a, q) :: q == p
  }

  lemma ServedExactly(cfg: Config, r: Run, n: nat, i: nat)
    requires IsRun(cfg, r) && n < |r.states| && i < |r.states[n].bus| && r.states[n].bus[i].fate.Completed?
    ensures
      var b := r.states[n].bus;
      forall p :: Delivered(b, Attempt(i, b[i].tries), p) <==> p in b[i].fate.served
  {
    LeavesOnlyAfterAccepted(cfg, r, n, i);
    RunServes(cfg, r, n);
    assert Closed(r.states[n].bus, i);
  }

  /** A duplicator and a splitter complete messages of the base queue and of the temporary queues; those
      of the temporary queues, shadows included, have gone back to the base queue and nowhere else. */
  lemma DrainedToBase(cfg: Config, r: Run, n: nat, i: nat)
    requires cfg.role != Combiner && IsRun(cfg, r) && n < |r.states| && i < |r.states[n].bus|
    requires r.states[n].bus[i].fate.Completed?
    ensures
      var b := r.states[n].bus;
      var p := b[i].path;
      || p == Path(Base, false, false)
      || ((p.queue == Green || p.queue == Blue) && JustTo(b, Attempt(i, b[i].tries), Path(Base, p.shadow, false)))
  {
    LeavesOnlyAfterAccepted(cfg, r, n, i);
    ServedExactly(cfg, r, n, i);
  }

  /** A combiner completes messages of its two temporary queues only, worker or drain: each has gone to the
      result queue, or from a shadow to its shadow, and nowhere else. */
  lemma CombinedToResult(cfg: Config, r: Run, n: nat, i: nat)
    requires cfg.role == Combiner && IsRun(cfg, r) && n < |r.states| && i < |r.states[n].bus|
    requires r.states[n].bus[i].fate.Completed?
    ensures
      var b := r.states[n].bus;
      var p := b[i].path;
      && (p.queue == GreenOut || p.queue == BlueOut)
      && JustTo(b, Attempt(i, b[i].tries), Path(Queue.Result, p.shadow, false))
  {
    LeavesOnlyAfterAccepted(cfg, r, n, i);
    ServedExactly(cfg, r, n, i);
  }

  /** A duplicator's message of the base queue has gone to both sides and nowhere else. */
  lemma DuplicatedToBoth(cfg: Config, r: Run, n: nat, i: nat)
    requires cfg.role == Duplicator && IsRun(cfg, r) && n < |r.states| && i < |r.states[n].bus|
    requires r.states[n].bus[i].fate.Completed? && r.states[n].bus[i].path == Path(Base, false, false)
    ensures
      var b := r.states[n].bus;
      forall p :: Delivered(b, Attempt(i, b[i].tries), p) <==> p == Path(Green, false, false) || p == Path(Blue, false, false)
  {
    LeavesOnlyAfterAccepted(cfg, r, n, i);
    ServedExactly(cfg, r, n, i);
  }

  /** A splitter's message of the base queue has gone to the blue side and nowhere else if the SDK's choice,
      at the percentage in force when the completing attempt was routed, is blue; else to green alone. */
  lemma SplitByChoice(cfg: Config, r: Run, n: nat, i: nat) returns (m: nat)
    requires cfg.role == Splitter && IsRun(cfg, r) && n < |r.states| && i < |r.states[n].bus|
    requires r.states[n].bus[i].fate.Completed? && r.states[n].bus[i].path == Path(Base, false, false)
    ensures m < n && r.steps[m].ActorStep? && r.steps[m].act == Route
    ensures r.steps[m].actor < |r.states[m].actors|
    ensures r.states[m].actors[r.steps[m].actor].pc == Admitted(Attempt(i, r.states[n].bus[i].tries))
    ensures
      var b := r.states[n].bus;
      var blue := cfg.routesToBlue(b[i].origin, r.states[m].traffic);
      JustTo(b, Attempt(i, b[i].tries), Path(if blue then Blue else Green, false, false))
  {
    m := RoutedByTrafficInForce(cfg, r, n, i);
    OriginsKept(cfg, r, m, n, i);
    ServedExactly(cfg, r, n, i);
  }

  lemma {:induction false} OriginsKept(cfg: Config, r: Run, m: nat, n: nat, i: nat)
    requires IsRun(cfg, r) && m <= n < |r.states| && i < |r.states[m].bus|
    ensures i < |r.states[n].bus| && r.states[n].bus[i].origin == r.states[m].bus[i].origin
  {
    if m < n {
      OriginsKept(cfg, r, m, n - 1, i);
      assert Follows(cfg, r, n - 1);
    }
  }

  // ---------------------------------------------------------------- undisturbed passes

  lemma Acts(cfg: Config, r: Run, n: nat, act: Act) returns (longer: Run)
    requires IsRun(cfg, r) && n < |Last(cfg, r).actors| && CanAct(cfg, Last(cfg, r), Last(cfg, r).actors[n], act)
    ensures IsRun(cfg, longer) && r.states <= longer.states
    ensures Last(cfg, longer) == DoActor(cfg, Last(cfg, r), n, act)
  {
    longer := Longer(cfg, r, ActorStep(n, act));
  }

  /** A request or look of the actor: it gets to `pc`, the bus to `b`, the rest stays. */
  ghost predicate Got(s: State, s': State, n: nat, pc: Pc, b: Bus, guards: int)
    requires n < |s.actors|
  {
    s' == s.(actors := s.actors[n := Actor(s.actors[n].kind, pc)], bus := b, inFlight := s.inFlight + guards)
  }

  /** The message has been taken, its attempt has sent copies to `dests` in this order, and the bus is
      otherwise as it was. */
  function SentOn(b: Bus, i: nat, dests: seq<Path>): Bus
    requires i < |b|
  {
    var a := Attempt(i, b[i].tries + 1);
    b[i := b[i].(fate := Locked, tries := b[i].tries + 1)]
    + seq(|dests|, k requires 0 <= k < |dests| => Copy(b[i].origin, Some(a), dests[k], dests[k], 0, Ready))
  }

  /** ... and it has been completed. */
  function ServedOn(b: Bus, i: nat, dests: seq<Path>): Bus
    requires i < |b|
  {
    var sent := SentOn(b, i, dests);
    sent[i := sent[i].(fate := Fate.Completed(dests))]
  }

  lemma SendsAll(cfg: Config, r: Run, n: nat, s: State, i: nat, dests: seq<Path>, sent: nat, guards: int) returns (longer: Run)
    requires IsRun(cfg, r) && n < |s.actors| && i < |s.bus| && sent <= |dests|
    requires Got(s, Last(cfg, r), n, Sending(Attempt(i, s.bus[i].tries + 1), dests, sent), SentOn(s.bus, i, dests[..sent]), guards)
    ensures IsRun(cfg, longer) && r.states <= longer.states
    ensures Got(s, Last(cfg, longer), n, Sending(Attempt(i, s.bus[i].tries + 1), dests, |dests|), SentOn(s.bus, i, dests), guards)
    decreases |dests| - sent
  {
    longer := r;
    if sent < |dests| {
      var next := Acts(cfg, r, n, SendNext(Done));
      assert SentOn(s.bus, i, dests[..sent + 1])
          == SentOn(s.bus, i, dests[..sent]) + [Copy(s.bus[i].origin, Some(Attempt(i, s.bus[i].tries + 1)), dests[sent], dests[sent], 0, Ready)];
      longer := SendsAll(cfg, next, n, s, i, dests, sent + 1, guards);
    } else {
      assert dests[..sent] == dests;
    }
  }

  lemma SendsAndCompletes(cfg: Config, r: Run, n: nat, s: State, i: nat, dests: seq<Path>, guards: int) returns (longer: Run)
    requires IsRun(cfg, r) && n < |s.actors| && i < |s.bus|
    requires Got(s, Last(cfg, r), n, Sending(Attempt(i, s.bus[i].tries + 1), dests, 0), LockCopy(s.bus, i), guards)
    ensures IsRun(cfg, longer) && r.states <= longer.states
    ensures Got(s, Last(cfg, longer), n, if s.actors[n].kind == Worker then Settled else Polling, ServedOn(s.bus, i, dests), guards)
  {
    assert dests[..0] == [] && LockCopy(s.bus, i) == SentOn(s.bus, i, []);
    var a := SendsAll(cfg, r, n, s, i, dests, 0, guards);
    var b := Acts(cfg, a, n, AllSent);
    longer := Acts(cfg, b, n, Complete(Done));
  }

  /** A worker takes a message and its guard. */
  lemma TakesAndTracks(cfg: Config, r: Run, n: nat, i: nat) returns (longer: Run)
    requires IsRun(cfg, r) && n < |Last(cfg, r).actors| && i < |Last(cfg, r).bus|
    requires Last(cfg, r).actors[n] == Actor(Worker, Polling) && CanReceive(cfg, Last(cfg, r), Last(cfg, r).actors[n], i)
    ensures IsRun(cfg, longer) && r.states <= longer.states
    ensures
      var s := Last(cfg, r);
      Got(s, Last(cfg, longer), n, Tracked(Attempt(i, s.bus[i].tries + 1)), LockCopy(s.bus, i), 1)
  {
    var a := Acts(cfg, r, n, Receive(i));
    longer := Acts(cfg, a, n, Track);
  }

  /** A worker in Active that finds a message and is not disturbed completes it: a duplicator's goes to both
      sides, a splitter's to the side of the SDK's choice, a combiner's to the result queue. */
  lemma WorkerPass(cfg: Config, r: Run, n: nat, i: nat) returns (longer: Run)
    requires IsRun(cfg, r) && n < |Last(cfg, r).actors| && i < |Last(cfg, r).bus|
    requires Last(cfg, r).actors[n] == Actor(Worker, Polling) && Last(cfg, r).mode == ActiveMode
    requires
      var c := Last(cfg, r).bus[i];
      c.fate == Ready && if cfg.role == Combiner then c.path == Active(GreenOut) || c.path == Active(BlueOut) else c.path == Active(Base)
    ensures IsRun(cfg, longer) && r.states <= longer.states
    ensures
      var s := Last(cfg, r);
      var dests := match cfg.role
        case Duplicator => [Path(Green, false, false), Path(Blue, false, false)]
        case Splitter => [Path(if cfg.routesToBlue(s.bus[i].origin, s.traffic) then Blue else Green, false, false)]
        case Combiner => [Path(Queue.Result, false, false)];
      Got(s, Last(cfg, longer), n, Top, ServedOn(s.bus, i, dests), 0)
  {
    var s := Last(cfg, r);
    var b := TakesAndTracks(cfg, r, n, i);
    var c := Acts(cfg, b, n, Recheck);
    assert Last(cfg, c).actors[n].pc == Admitted(Attempt(i, s.bus[i].tries + 1));
    var d := Acts(cfg, c, n, Route);
    var e := SendsAndCompletes(cfg, d, n, s, i, WorkerDests(cfg, s.bus[i].origin, s.traffic), 1);
    longer := Acts(cfg, e, n, DropGuard);
  }

  /** A worker that is no longer in Active when it looks again gives the message back, unsent. */
  lemma WorkerGivesBack(cfg: Config, r: Run, n: nat, i: nat) returns (longer: Run)
    requires IsRun(cfg, r) && n < |Last(cfg, r).actors| && i < |Last(cfg, r).bus|
    requires Last(cfg, r).actors[n] == Actor(Worker, Polling) && Last(cfg, r).mode != ActiveMode
    requires CanReceive(cfg, Last(cfg, r), Last(cfg, r).actors[n], i)
    ensures IsRun(cfg, longer) && r.states <= longer.states
    ensures
      var s := Last(cfg, r);
      Got(s, Last(cfg, longer), n, Top, s.bus[i := s.bus[i].(tries := s.bus[i].tries + 1)], 0)
  {
    var s := Last(cfg, r);
    var given := s.bus[i := s.bus[i].(tries := s.bus[i].tries + 1)];
    var b := TakesAndTracks(cfg, r, n, i);
    var c := Acts(cfg, b, n, Recheck);
    var d := Acts(cfg, c, n, Abandon(Done));
    assert AbandonCopy(LockCopy(s.bus, i), Attempt(i, s.bus[i].tries + 1)) == given;
    assert Got(s, Last(cfg, d), n, Settled, given, 1);
    longer := Acts(cfg, d, n, DropGuard);
  }

  /** A drain that finds a message in a temporary queue, its shadow or a dead-letter queue, and is not
      disturbed, moves it to the base queue or its shadow, a combiner's to the result queue. */
  lemma DrainPass(cfg: Config, r: Run, n: nat, i: nat) returns (longer: Run)
    requires IsRun(cfg, r) && n < |Last(cfg, r).actors| && i < |Last(cfg, r).bus|
    requires Last(cfg, r).actors[n] == Actor(Drain, Polling)
    requires
      var c := Last(cfg, r).bus[i];
      && c.fate == Ready && (c.path.shadow ==> cfg.shadow)
      && if cfg.role == Combiner then c.path.queue == GreenOut || c.path.queue == BlueOut else c.path.queue == Green || c.path.queue == Blue
    ensures IsRun(cfg, longer) && r.states <= longer.states
    ensures
      var s := Last(cfg, r);
      var target := Path(if cfg.role == Combiner then Queue.Result else Base, s.bus[i].path.shadow, false);
      Got(s, Last(cfg, longer), n, Polling, ServedOn(s.bus, i, [target]), 0)
  {
    var s := Last(cfg, r);
    var a := Acts(cfg, r, n, Receive(i));
    longer := SendsAndCompletes(cfg, a, n, s, i, [DrainTarget(cfg, s.bus[i].path)], 0);
  }

  /** A message that was dead-lettered or moved to a shadow queue is still there, and a drain moves it on as well,
      from a shadow to the shadow of its target. */
  lemma DeadLettersAreDrained(cfg: Config, r: Run, n: nat, i: nat, shelve: bool) returns (longer: Run)
    requires IsRun(cfg, r) && n < |Last(cfg, r).actors| && i < |Last(cfg, r).bus|
    requires Last(cfg, r).actors[n] == Actor(Drain, Polling)
    requires
      var c := Last(cfg, r).bus[i];
      && c.fate == Ready && !c.path.shadow && !c.path.dead && (shelve ==> cfg.shadow)
      && if cfg.role == Combiner then c.path.queue == GreenOut || c.path.queue == BlueOut else c.path.queue == Green || c.path.queue == Blue
    ensures IsRun(cfg, longer) && r.states <= longer.states
    ensures
      var s := Last(cfg, r);
      var moved := s.bus[i := s.bus[i].(path := Path(s.bus[i].path.queue, shelve, !shelve))];
      var target := Path(if cfg.role == Combiner then Queue.Result else Base, shelve, false);
      Got(s, Last(cfg, longer), n, Polling, ServedOn(moved, i, [target]), 0)
  {
    var a := Longer(cfg, r, if shelve then Shelve(i) else DeadLetter(i));
    longer := DrainPass(cfg, a, n, i);
  }

  /** A message whose lock has expired is taken again by the next worker, whoever had it before. */
  lemma ExpiredIsTakenAgain(cfg: Config, r: Run, n: nat, i: nat) returns (longer: Run)
    requires IsRun(cfg, r) && n < |Last(cfg, r).actors| && i < |Last(cfg, r).bus|
    requires Last(cfg, r).actors[n] == Actor(Worker, Polling) && Last(cfg, r).mode == ActiveMode
    requires
      var c := Last(cfg, r).bus[i];
      c.fate == Locked && if cfg.role == Combiner then c.path == Active(GreenOut) || c.path == Active(BlueOut) else c.path == Active(Base)
    ensures IsRun(cfg, longer) && r.states <= longer.states
    ensures Last(cfg, longer).actors == Last(cfg, r).actors[n := Actor(Worker, Top)]
    ensures |Last(cfg, longer).bus| > |Last(cfg, r).bus|
    ensures
      var c, c' := Last(cfg, r).bus[i], Last(cfg, longer).bus[i];
      c'.fate.Completed? && c'.tries == c.tries + 1 && c'.origin == c.origin
  {
    var a := Longer(cfg, r, Expire(i));
    longer := WorkerPass(cfg, a, n, i);
  }

  // ---------------------------------------------------------------- when actors run

  /** Whatever a worker is doing, it has begun by looking at the mode and finding Active, and a drain by finding
      Draining. */
  lemma {:induction false} StartedInMode(cfg: Config, r: Run, k: nat, n: nat) returns (m: nat)
    requires IsRun(cfg, r) && k < |r.states| && n < |r.states[k].actors| && r.states[k].actors[n].pc != Top
    ensures m < k && r.steps[m] == ActorStep(n, ReadMode)
    ensures r.states[m].mode == if r.states[k].actors[n].kind == Worker then ActiveMode else DrainingMode
  {
    assert k > 0;
    assert Follows(cfg, r, k - 1);
    if r.states[k - 1].actors[n].pc == Top {
      m := k - 1;
    } else {
      m := StartedInMode(cfg, r, k - 1, n);
    }
  }

  /** A drain whose message could not be received, sent on, completed or given back leaves its loop, and so
      looks at the mode again before it takes another one. */
  lemma FailureEndsDrain(cfg: Config, s: State, n: nat, act: Act)
    requires n < |s.actors| && s.actors[n].kind == Drain && CanAct(cfg, s, s.actors[n], act)
    ensures
      var pc := DoActor(cfg, s, n, act).actors[n].pc;
      && (act.ReceiveLost? || act.Abandon? ==> pc == Top)
      && (act.SendNext? && act.outcome != Done ==> pc.Abandoning?)
      && (act.Complete? ==> if act.outcome == Done then pc == Polling else pc == Top)
  {
  }

  /** The percentage in force is that of the last shift, at most 100, or the initial one. */
  lemma {:induction false} TrafficIsLastShift(cfg: Config, r: Run, k: nat) returns (m: int)
    requires IsRun(cfg, r) && k < |r.states|
    ensures -1 <= m < k && forall j | m < j < k :: !r.steps[j].ShiftTraffic?
    ensures m == -1 ==> r.states[k].traffic == r.states[0].traffic
    ensures m >= 0 ==>
              && r.steps[m].ShiftTraffic?
              && (r.steps[m].percent <= 100 ==> r.states[k].traffic == r.steps[m].percent)
              && (r.steps[m].percent > 100 ==> r.states[k].traffic == 100)
  {
    if k == 0 {
      m := -1;
    } else {
      assert Follows(cfg, r, k - 1);
      if r.steps[k - 1].ShiftTraffic? {
        m := k - 1;
      } else {
        m := TrafficIsLastShift(cfg, r, k - 1);
      }
    }
  }

  /** The mode is the one set last since the last restart, and Idle if none was. */
  lemma {:induction false} ModeIsLastSet(cfg: Config, r: Run, k: nat) returns (m: int)
    requires IsRun(cfg, r) && k < |r.states|
    ensures -1 <= m < k && forall j | m < j < k :: !r.steps[j].SetMode? && !r.steps[j].Restart?
    ensures m >= 0 ==> r.steps[m].SetMode? || r.steps[m].Restart?
    ensures r.states[k].mode == if m >= 0 && r.steps[m].SetMode? then r.steps[m].mode else IdleMode
  {
    if k == 0 {
      m := -1;
    } else {
      assert Follows(cfg, r, k - 1);
      if r.steps[k - 1].SetMode? || r.steps[k - 1].Restart? {
        m := k - 1;
      } else {
        m := ModeIsLastSet(cfg, r, k - 1);
      }
    }
  }

  predicate Locks(step: Step, i: nat) {
    step.ActorStep? && (step.act == Receive(i) || step.act == ReceiveLost(i))
  }

  /** How often the message was locked in the first k steps. */
  function LocksOf(steps: seq<Step>, i: nat, k: nat): nat
    requires k <= |steps|
  {
    if k == 0 then 0 else LocksOf(steps, i, k - 1) + if Locks(steps[k - 1], i) then 1 else 0
  }

  /** The number on an attempt is the number of times that its message was locked. */
  lemma {:induction false} TriesCountLocks(cfg: Config, r: Run, k: nat, i: nat)
    requires IsRun(cfg, r) && k < |r.states|
    ensures LocksOf(r.steps, i, k) == if i < |r.states[k].bus| then r.states[k].bus[i].tries else 0
  {
    if k > 0 {
      assert Follows(cfg, r, k - 1);
      TriesCountLocks(cfg, r, k - 1, i);
      LocksOnce(cfg, r.states[k - 1], r.steps[k - 1], i);
    }
  }

  lemma LocksOnce(cfg: Config, s: State, step: Step, i: nat)
    requires Enabled(cfg, s, step)
    ensures
      var b, b' := s.bus, Do(cfg, s, step).bus;
      && |b| <= |b'| && (Locks(step, i) ==> i < |b|)
      && (i < |b| ==> b'[i].tries == b[i].tries + if Locks(step, i) then 1 else 0)
      && (|b| <= i < |b'| ==> b'[i].tries == 0)
  {
  }
}
