/** Which traffic percentage routes a message: the one in force when its completing attempt was routed. */
module RelayRouting {
  import opened Wrappers
  import opened Queues
  import opened Relay
  import opened RelaySafety
  import DrainReports

  /** A worker is to serve `dests` with attempt `a`. */
  predicate Serving(actor: Actor, a: Attempt, dests: seq<Path>) {
    && actor.kind == Worker
    && ((actor.pc.Sending? && actor.pc.a == a && actor.pc.dests == dests) || (actor.pc.Completing? && actor.pc.a == a && actor.pc.dests == dests))
  }

  /** The attempt has completed its message at a worker's source, having served `dests`. */
  predicate Completed(cfg: Config, b: Bus, a: Attempt, dests: seq<Path>) {
    && a.copy < |b| && b[a.copy].fate == Fate.Completed(dests) && b[a.copy].tries == a.try
    && WorkerSource(cfg, b[a.copy].path)
  }

  predicate Routed(cfg: Config, s: State, a: Attempt, dests: seq<Path>) {
    Completed(cfg, s.bus, a, dests) || exists n :: 0 <= n < |s.actors| && Serving(s.actors[n], a, dests)
  }

  predicate RoutesNow(cfg: Config, s: State, step: Step, a: Attempt, dests: seq<Path>) {
    && step.ActorStep? && step.act == Route && step.actor < |s.actors| && s.actors[step.actor].pc == Admitted(a)
    && a.copy < |s.bus| && dests == WorkerDests(cfg, s.bus[a.copy].origin, s.traffic)
  }

  /** A drain never completes a message at a worker's source. */
  lemma DrainsElsewhere(cfg: Config, s: State, n: nat)
    requires cfg.role != Combiner && Inv(cfg, s) && DrainReports.CounterInv(cfg, s)
    requires n < |s.actors| && s.actors[n].kind == Drain && s.actors[n].pc.Completing? && HoldsLock(s.bus, s.actors[n].pc.a)
    ensures !WorkerSource(cfg, s.bus[s.actors[n].pc.a.copy].path)
  {
    var me := s.actors[n];
    assert DrainReports.GoodDrain(cfg, me) && GoodPc(cfg, s.bus, me.kind, me.pc);
    assert !WorkerSource(cfg, s.bus[me.pc.a.copy].path) by {
      if WorkerSource(cfg, s.bus[me.pc.a.copy].path) {
        assert IsTemporary(cfg, me.pc.dests[0].queue);
      }
    }
  }

  lemma CompletesNow(cfg: Config, s: State, n: nat, o: Outcome, a: Attempt, dests: seq<Path>)
    requires cfg.role != Combiner && Inv(cfg, s) && DrainReports.CounterInv(cfg, s)
    requires n < |s.actors| && CanAct(cfg, s, s.actors[n], Complete(o))
    requires Completed(cfg, NextBus(cfg, s, s.actors[n], Complete(o)), a, dests) && !Completed(cfg, s.bus, a, dests)
    ensures Serving(s.actors[n], a, dests)
  {
    if s.actors[n].kind == Drain && HoldsLock(s.bus, s.actors[n].pc.a) {
      DrainsElsewhere(cfg, s, n);
    }
  }

  lemma ActorRoutes(cfg: Config, s: State, n: nat, act: Act, a: Attempt, dests: seq<Path>)
    requires cfg.role != Combiner && Inv(cfg, s) && DrainReports.CounterInv(cfg, s)
    requires n < |s.actors| && CanAct(cfg, s, s.actors[n], act) && Routed(cfg, DoActor(cfg, s, n, act), a, dests)
    ensures Routed(cfg, s, a, dests) || RoutesNow(cfg, s, ActorStep(n, act), a, dests)
  {
    var s' := DoActor(cfg, s, n, act);
    if Completed(cfg, s'.bus, a, dests) {
      if act.Complete? && !Completed(cfg, s.bus, a, dests) {
        CompletesNow(cfg, s, n, act.outcome, a, dests);
      }
    } else {
      var m :| 0 <= m < |s'.actors| && Serving(s'.actors[m], a, dests);
      if m != n {
        assert Serving(s.actors[m], a, dests);
      } else if act.SendNext? || act.AllSent? {
        assert Serving(s.actors[n], a, dests);
      }
    }
  }

  lemma StepRoutes(cfg: Config, s: State, step: Step, a: Attempt, dests: seq<Path>)
    requires cfg.role != Combiner && Inv(cfg, s) && DrainReports.CounterInv(cfg, s)
    requires Enabled(cfg, s, step) && Routed(cfg, Do(cfg, s, step), a, dests)
    ensures Routed(cfg, s, a, dests) || RoutesNow(cfg, s, step, a, dests)
  {
    if step.ActorStep? {
      ActorRoutes(cfg, s, step.actor, step.act, a, dests);
    } else {
      var s' := Do(cfg, s, step);
      if !Completed(cfg, s'.bus, a, dests) {
        var m :| 0 <= m < |s'.actors| && Serving(s'.actors[m], a, dests);
        assert Serving(s.actors[m], a, dests);
      }
    }
  }

  lemma {:induction false} RoutedAt(cfg: Config, r: Run, n: nat, a: Attempt, dests: seq<Path>) returns (m: nat)
    requires cfg.role != Combiner && IsRun(cfg, r) && n < |r.states| && Routed(cfg, r.states[n], a, dests)
    ensures m < n && RoutesNow(cfg, r.states[m], r.steps[m], a, dests)
  {
    assert n > 0;
    RunInv(cfg, r, n - 1);
    DrainReports.RunCounter(cfg, r, n - 1);
    assert Follows(cfg, r, n - 1);
    StepRoutes(cfg, r.states[n - 1], r.steps[n - 1], a, dests);
    if RoutesNow(cfg, r.states[n - 1], r.steps[n - 1], a, dests) {
      m := n - 1;
    } else {
      m := RoutedAt(cfg, r, n - 1, a, dests);
    }
  }

  /** A message that a duplicator or a splitter has completed was served as the traffic percentage in
      force at the moment its completing attempt was routed demands. */
  lemma RoutedByTrafficInForce(cfg: Config, r: Run, n: nat, i: nat) returns (m: nat)
    requires cfg.role != Combiner && IsRun(cfg, r) && n < |r.states| && i < |r.states[n].bus|
    requires r.states[n].bus[i].fate.Completed? && WorkerSource(cfg, r.states[n].bus[i].path)
    ensures m < n && r.steps[m].ActorStep? && r.steps[m].act == Route
    ensures
      var c := r.states[n].bus[i];
      && RoutesNow(cfg, r.states[m], r.steps[m], Attempt(i, c.tries), c.fate.served)
      && c.fate.served == WorkerDests(cfg, r.states[m].bus[i].origin, r.states[m].traffic)
  {
    var c := r.states[n].bus[i];
    assert Completed(cfg, r.states[n].bus, Attempt(i, c.tries), c.fate.served);
    m := RoutedAt(cfg, r, n, Attempt(i, c.tries), c.fate.served);
  }
}
