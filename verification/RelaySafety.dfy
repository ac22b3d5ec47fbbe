/** No message is lost: what every reachable state of the relay keeps, and what follows. */
module RelaySafety {
  import opened Wrappers
  import opened Queues
  import opened Relay

  // ---------------------------------------------------------------- invariant

  ghost predicate GoodCopy(cfg: Config, b: Bus, i: nat)
    requires i < |b|
  {
    var c := b[i];
    && (c.source.Some? ==>
          && c.source.value.copy < i
          && 1 <= c.source.value.try <= b[c.source.value.copy].tries
          && c.origin == b[c.source.value.copy].origin)
    && (c.fate.Completed? ==>
          && Required(cfg, c.origin, c.path, c.fate.served)
          && 1 <= c.tries
          && AllDelivered(b, Attempt(i, c.tries), c.fate.served))
    && (c.path.shadow ==> cfg.shadow)
  }

  /** One attempt sends at most one copy to a destination. */
  ghost predicate OncePerAttempt(b: Bus) {
    forall i, j | 0 <= i < j < |b| && b[i].source.Some? && b[i].source == b[j].source :: b[i].sentTo != b[j].sentTo
  }

  ghost predicate GoodBus(cfg: Config, b: Bus) {
    && (forall i | 0 <= i < |b| :: GoodCopy(cfg, b, i))
    && OncePerAttempt(b)
  }

  function Token(pc: Pc): Option<Attempt> {
    match pc
    case Top => None
    case Polling => None
    case Settled => None
    case Holding(a) => Some(a)
    case Tracked(a) => Some(a)
    case Admitted(a) => Some(a)
    case Sending(a, _, _) => Some(a)
    case Completing(a, _) => Some(a)
    case Abandoning(a) => Some(a)
  }

  ghost predicate Distinct(ps: seq<Path>) {
    forall i, j | 0 <= i < j < |ps| :: ps[i] != ps[j]
  }

  /** The copies that attempt `a` has sent are exactly those for `ps`. */
  ghost predicate SentExactly(b: Bus, a: Attempt, ps: seq<Path>) {
    && AllDelivered(b, a, ps)
    && forall k | 0 <= k < |b| && b[k].source == Some(a) :: b[k].sentTo in ps
  }

  predicate Begun(b: Bus, a: Attempt) {
    a.copy < |b| && 1 <= a.try <= b[a.copy].tries
  }

  ghost predicate GoodPc(cfg: Config, b: Bus, kind: Kind, pc: Pc) {
    && (Token(pc).Some? ==> Begun(b, Token(pc).value))
    && match pc {
         case Sending(a, dests, sent) =>
           && sent <= |dests| && Distinct(dests)
           && (forall j | 0 <= j < |dests| :: dests[j].shadow ==> cfg.shadow)
           && SentExactly(b, a, dests[..sent])
           && (HoldsLock(b, a) ==> Required(cfg, b[a.copy].origin, b[a.copy].path, dests))
         case Completing(a, dests) =>
           && AllDelivered(b, a, dests)
           && (HoldsLock(b, a) ==> Required(cfg, b[a.copy].origin, b[a.copy].path, dests))
         case Abandoning(_) => true
         case _ =>
           Token(pc).Some? ==>
             && kind == Worker
             && SentExactly(b, Token(pc).value, [])
             && (HoldsLock(b, Token(pc).value) ==> WorkerSource(cfg, b[Token(pc).value.copy].path))
       }
  }

  ghost predicate GoodActors(cfg: Config, s: State) {
    && (forall n | 0 <= n < |s.actors| :: GoodPc(cfg, s.bus, s.actors[n].kind, s.actors[n].pc))
    && forall n, m | 0 <= n < m < |s.actors| && Token(s.actors[n].pc).Some? ::
         Token(s.actors[n].pc) != Token(s.actors[m].pc)
  }

  ghost predicate Inv(cfg: Config, s: State) {
    s.traffic <= 100 && GoodBus(cfg, s.bus) && GoodActors(cfg, s)
  }

  // ---------------------------------------------------------------- how the bus evolves

  /** Nothing recorded about a copy is lost; a lock that is still held was held before. */
  ghost predicate Extends(b: Bus, b': Bus) {
    && |b| <= |b'|
    && forall i {:trigger b'[i]} | 0 <= i < |b| ::
         && b'[i].origin == b[i].origin && b'[i].source == b[i].source && b'[i].sentTo == b[i].sentTo
         && b[i].tries <= b'[i].tries
         && (!Present(b[i]) ==> b'[i] == b[i])
         && (b'[i].fate == Locked && b'[i].tries == b[i].tries ==> b[i].fate == Locked && b'[i].path == b[i].path)
  }

  lemma DeliveredKept(b: Bus, b': Bus, a: Attempt, ps: seq<Path>)
    requires Extends(b, b') && AllDelivered(b, a, ps)
    ensures AllDelivered(b', a, ps)
  {
    forall j | 0 <= j < |ps|
      ensures Delivered(b', a, ps[j])
    {
      assert Delivered(b, a, ps[j]);
      var k :| 0 <= k < |b| && b[k].source == Some(a) && b[k].sentTo == ps[j];
      assert b'[k].source == Some(a);
    }
  }

  /** Copies sent by `a` among those that b' has more than b. */
  ghost predicate NothingNewFrom(b: Bus, b': Bus, a: Attempt) {
    forall k | |b| <= k < |b'| :: b'[k].source != Some(a)
  }

  lemma PcKept(cfg: Config, b: Bus, b': Bus, kind: Kind, pc: Pc)
    requires GoodPc(cfg, b, kind, pc) && Extends(b, b')
    requires Token(pc).Some? ==> NothingNewFrom(b, b', Token(pc).value)
    ensures GoodPc(cfg, b', kind, pc)
  {
    match pc {
      case Sending(a, dests, sent) => DeliveredKept(b, b', a, dests[..sent]);
      case Completing(a, dests) => DeliveredKept(b, b', a, dests);
      case _ =>
    }
  }

  lemma CopyKept(cfg: Config, b: Bus, b': Bus, i: nat)
    requires i < |b| && GoodCopy(cfg, b, i) && Extends(b, b')
    requires b'[i].path.shadow ==> cfg.shadow
    requires b'[i].fate.Completed? ==> b[i].fate.Completed?
    ensures GoodCopy(cfg, b', i)
  {
    var c := b[i];
    if c.fate.Completed? {
      DeliveredKept(b, b', Attempt(i, c.tries), c.fate.served);
    }
  }

  lemma OnceKept(b: Bus, b': Bus)
    requires OncePerAttempt(b) && Extends(b, b')
    requires forall k | |b| <= k < |b'| && b'[k].source.Some? ::
               k == |b| && |b'| == |b| + 1 && !Delivered(b, b'[k].source.value, b'[k].sentTo)
    ensures OncePerAttempt(b')
  {
    forall i, j | 0 <= i < j < |b'| && b'[i].source.Some? && b'[i].source == b'[j].source
      ensures b'[i].sentTo != b'[j].sentTo
    {
      if j == |b| {
        assert b[i].source == b'[j].source;
      } else if j < |b| {
        assert b'[i].source == b[i].source && b'[j].source == b[j].source;
      }
    }
  }

  // ---------------------------------------------------------------- single steps

  lemma DestsDistinct(cfg: Config, origin: nat, traffic: nat)
    ensures Distinct(WorkerDests(cfg, origin, traffic))
  {
  }

  lemma InitInv(cfg: Config, s: State)
    requires Init(s)
    ensures Inv(cfg, s)
  {
  }

  /** The next state of an actor step satisfies the invariant when the bus does and the acting
      actor does, and when new copies come from the acting attempt only. */
  lemma OthersKept(cfg: Config, s: State, n: nat, act: Act)
    requires Inv(cfg, s) && n < |s.actors| && CanAct(cfg, s, s.actors[n], act)
    requires Extends(s.bus, NextBus(cfg, s, s.actors[n], act))
    requires forall k | |s.bus| <= k < |NextBus(cfg, s, s.actors[n], act)| ::
               NextBus(cfg, s, s.actors[n], act)[k].source == Token(s.actors[n].pc) && Token(s.actors[n].pc).Some?
    requires GoodBus(cfg, NextBus(cfg, s, s.actors[n], act))
    requires GoodPc(cfg, NextBus(cfg, s, s.actors[n], act), s.actors[n].kind, NextPc(cfg, s, s.actors[n], act))
    requires Token(NextPc(cfg, s, s.actors[n], act)).Some? ==>
               || Token(NextPc(cfg, s, s.actors[n], act)) == Token(s.actors[n].pc)
               || !Begun(s.bus, Token(NextPc(cfg, s, s.actors[n], act)).value)
    ensures Inv(cfg, DoActor(cfg, s, n, act))
  {
    var s' := DoActor(cfg, s, n, act);
    forall m | 0 <= m < |s'.actors|
      ensures GoodPc(cfg, s'.bus, s'.actors[m].kind, s'.actors[m].pc)
    {
      if m != n {
        PcKept(cfg, s.bus, s'.bus, s.actors[m].kind, s.actors[m].pc);
      }
    }
  }

  lemma ReceiveInv(cfg: Config, s: State, n: nat, i: nat)
    requires Inv(cfg, s) && n < |s.actors| && CanAct(cfg, s, s.actors[n], Receive(i))
    ensures Inv(cfg, DoActor(cfg, s, n, Receive(i)))
  {
    var b, b' := s.bus, LockCopy(s.bus, i);
    var a := Attempt(i, b[i].tries + 1);
    assert Extends(b, b');
    forall j | 0 <= j < |b'|
      ensures GoodCopy(cfg, b', j)
    {
      CopyKept(cfg, b, b', j);
    }
    OnceKept(b, b');
    forall k | 0 <= k < |b'|
      ensures b'[k].source != Some(a)
    {
      assert GoodCopy(cfg, b, k);
    }
    OthersKept(cfg, s, n, Receive(i));
  }

  lemma ReceiveLostInv(cfg: Config, s: State, n: nat, i: nat)
    requires Inv(cfg, s) && n < |s.actors| && CanAct(cfg, s, s.actors[n], ReceiveLost(i))
    ensures Inv(cfg, DoActor(cfg, s, n, ReceiveLost(i)))
  {
    var b, b' := s.bus, LockCopy(s.bus, i);
    assert Extends(b, b');
    forall j | 0 <= j < |b'|
      ensures GoodCopy(cfg, b', j)
    {
      CopyKept(cfg, b, b', j);
    }
    OnceKept(b, b');
    OthersKept(cfg, s, n, ReceiveLost(i));
  }

  lemma SendInv(cfg: Config, s: State, n: nat, o: Outcome)
    requires Inv(cfg, s) && n < |s.actors| && CanAct(cfg, s, s.actors[n], SendNext(o))
    ensures Inv(cfg, DoActor(cfg, s, n, SendNext(o)))
  {
    var pc := s.actors[n].pc;
    assert GoodPc(cfg, s.bus, s.actors[n].kind, pc);
    var a, p := pc.a, pc.dests[pc.sent];
    if o != Failed {
      var b, b' := s.bus, Forward(s.bus, a, p);
      assert Extends(b, b');
      SendKeepsBus(cfg, b, a, pc.dests, pc.sent);
      if o == Done {
        assert Delivered(b', a, p) by {
          assert b'[|b|].source == Some(a) && b'[|b|].sentTo == p;
        }
        DeliveredKept(b, b', a, pc.dests[..pc.sent]);
        assert pc.dests[..pc.sent + 1] == pc.dests[..pc.sent] + [p];
      }
    } else {
      assert Extends(s.bus, s.bus);
    }
    OthersKept(cfg, s, n, SendNext(o));
  }

  lemma SendKeepsBus(cfg: Config, b: Bus, a: Attempt, dests: seq<Path>, sent: nat)
    requires GoodBus(cfg, b) && Begun(b, a) && sent < |dests| && Distinct(dests)
    requires SentExactly(b, a, dests[..sent])
    requires dests[sent].shadow ==> cfg.shadow
    ensures GoodBus(cfg, Forward(b, a, dests[sent]))
  {
    var p := dests[sent];
    var b' := Forward(b, a, p);
    assert Extends(b, b');
    forall j | 0 <= j < |b'|
      ensures GoodCopy(cfg, b', j)
    {
      if j < |b| {
        CopyKept(cfg, b, b', j);
      }
    }
    assert p !in dests[..sent];
    OnceKept(b, b');
  }

  lemma SettleInv(cfg: Config, s: State, n: nat, act: Act)
    requires Inv(cfg, s) && n < |s.actors| && CanAct(cfg, s, s.actors[n], act)
    requires act.Complete? || act.Abandon?
    ensures Inv(cfg, DoActor(cfg, s, n, act))
  {
    var pc := s.actors[n].pc;
    assert GoodPc(cfg, s.bus, s.actors[n].kind, pc);
    var b, b' := s.bus, NextBus(cfg, s, s.actors[n], act);
    assert Extends(b, b');
    forall j | 0 <= j < |b'|
      ensures GoodCopy(cfg, b', j)
    {
      if b'[j].fate.Completed? && !b[j].fate.Completed? {
        assert GoodCopy(cfg, b, j);
        DeliveredKept(b, b', pc.a, pc.dests);
      } else {
        CopyKept(cfg, b, b', j);
      }
    }
    OnceKept(b, b');
    OthersKept(cfg, s, n, act);
  }

  lemma QuietActInv(cfg: Config, s: State, n: nat, act: Act)
    requires Inv(cfg, s) && n < |s.actors| && CanAct(cfg, s, s.actors[n], act)
    requires !act.Receive? && !act.ReceiveLost? && !act.SendNext? && !act.Complete? && !act.Abandon?
    ensures Inv(cfg, DoActor(cfg, s, n, act))
  {
    var pc := s.actors[n].pc;
    assert GoodPc(cfg, s.bus, s.actors[n].kind, pc);
    assert Extends(s.bus, s.bus);
    if act.Route? {
      var dests := WorkerDests(cfg, s.bus[pc.a.copy].origin, s.traffic);
      DestsDistinct(cfg, s.bus[pc.a.copy].origin, s.traffic);
      assert dests[..0] == [];
    } else if act.AllSent? {
      assert pc.dests[..pc.sent] == pc.dests;
    }
    OthersKept(cfg, s, n, act);
  }

  /** A change of one copy by the world around, or a copy sent from outside. */
  lemma WorldInv(cfg: Config, s: State, s': State)
    requires Inv(cfg, s) && s'.traffic <= 100 && s'.actors == s.actors
    requires Extends(s.bus, s'.bus)
    requires forall i | 0 <= i < |s'.bus| :: (s'.bus[i].path.shadow ==> cfg.shadow)
    requires forall i | 0 <= i < |s.bus| :: s'.bus[i].fate.Completed? ==> s.bus[i].fate.Completed?
    requires forall i | |s.bus| <= i < |s'.bus| :: s'.bus[i].source == None && s'.bus[i].fate == Ready
    ensures Inv(cfg, s')
  {
    forall i | 0 <= i < |s'.bus|
      ensures GoodCopy(cfg, s'.bus, i)
    {
      if i < |s.bus| {
        CopyKept(cfg, s.bus, s'.bus, i);
      }
    }
    OnceKept(s.bus, s'.bus);
    forall m | 0 <= m < |s'.actors|
      ensures GoodPc(cfg, s'.bus, s'.actors[m].kind, s'.actors[m].pc)
    {
      PcKept(cfg, s.bus, s'.bus, s.actors[m].kind, s.actors[m].pc);
    }
  }

  lemma ActorInv(cfg: Config, s: State, n: nat, act: Act)
    requires Inv(cfg, s) && Enabled(cfg, s, ActorStep(n, act))
    ensures Inv(cfg, DoActor(cfg, s, n, act))
  {
    match act {
      case Receive(i) => ReceiveInv(cfg, s, n, i);
      case ReceiveLost(i) => ReceiveLostInv(cfg, s, n, i);
      case SendNext(o) => SendInv(cfg, s, n, o);
      case Complete(_) => SettleInv(cfg, s, n, act);
      case Abandon(_) => SettleInv(cfg, s, n, act);
      case _ => QuietActInv(cfg, s, n, act);
    }
  }

  lemma RestartInv(cfg: Config, s: State)
    requires Inv(cfg, s) && Enabled(cfg, s, Restart)
    ensures Inv(cfg, Do(cfg, s, Restart))
  {
  }

  lemma OtherInv(cfg: Config, s: State, step: Step)
    requires Inv(cfg, s) && Enabled(cfg, s, step) && !step.ActorStep? && !step.Restart?
    ensures Inv(cfg, Do(cfg, s, step))
  {
    forall i | 0 <= i < |s.bus|
      ensures s.bus[i].path.shadow ==> cfg.shadow
    {
      assert GoodCopy(cfg, s.bus, i);
    }
    WorldInv(cfg, s, Do(cfg, s, step));
  }

  lemma StepInv(cfg: Config, s: State, step: Step)
    requires Inv(cfg, s) && Enabled(cfg, s, step)
    ensures Inv(cfg, Do(cfg, s, step))
  {
    match step {
      case ActorStep(n, act) => ActorInv(cfg, s, n, act);
      case Restart => RestartInv(cfg, s);
      case _ => OtherInv(cfg, s, step);
    }
  }

  lemma {:induction false} RunInv(cfg: Config, r: Run, i: nat)
    requires IsRun(cfg, r) && i < |r.states|
    ensures Inv(cfg, r.states[i])
  {
    if i == 0 {
      InitInv(cfg, r.states[0]);
    } else {
      RunInv(cfg, r, i - 1);
      assert Follows(cfg, r, i - 1);
      StepInv(cfg, r.states[i - 1], r.steps[i - 1]);
    }
  }

  // ---------------------------------------------------------------- no message is lost

  /** A copy the plugin has completed had, in the very attempt that completed it, a copy accepted
      at every destination that its role, and for a splitter its route, requires. */
  lemma LeavesOnlyAfterAccepted(cfg: Config, r: Run, n: nat, i: nat)
    requires IsRun(cfg, r) && n < |r.states| && i < |r.states[n].bus| && r.states[n].bus[i].fate.Completed?
    ensures var c := r.states[n].bus[i];
            Required(cfg, c.origin, c.path, c.fate.served)
            && forall p | p in c.fate.served :: Delivered(r.states[n].bus, Attempt(i, c.tries), p)
  {
    RunInv(cfg, r, n);
    assert GoodCopy(cfg, r.states[n].bus, i);
  }

  /** `k` was sent from `i`, directly or through further relays and drains. */
  ghost predicate Descends(b: Bus, k: nat, i: nat)
    decreases k
  {
    k < |b|
    && (k == i
        || (b[k].source.Some? && b[k].source.value.copy < k && Descends(b, b[k].source.value.copy, i)))
  }

  lemma {:induction false} DescendsTrans(b: Bus, k: nat, j: nat, i: nat)
    requires Descends(b, k, j) && Descends(b, j, i)
    ensures Descends(b, k, i)
    decreases k
  {
    if k != j {
      DescendsTrans(b, b[k].source.value.copy, j, i);
    }
  }

  /** Every copy has a descendant that still waits somewhere or that an application consumed. */
  lemma {:induction false} Survivor(cfg: Config, b: Bus, i: nat) returns (k: nat)
    requires GoodBus(cfg, b) && i < |b|
    ensures Descends(b, k, i) && !b[k].fate.Completed? && b[k].origin == b[i].origin
    decreases |b| - i
  {
    assert GoodCopy(cfg, b, i);
    if b[i].fate.Completed? {
      var a := Attempt(i, b[i].tries);
      assert Delivered(b, a, b[i].fate.served[0]);
      var j :| 0 <= j < |b| && b[j].source == Some(a) && b[j].sentTo == b[i].fate.served[0];
      assert GoodCopy(cfg, b, j);
      k := Survivor(cfg, b, j);
      DescendsTrans(b, k, j, i);
    } else {
      k := i;
    }
  }

  /** No loss, at any interleaving and any failure: each destination that a completed message had
      to reach has, for every reachable state, a copy of it that waits or was consumed and that
      descends from what was sent there. For a duplicator this holds for both sides. */
  lemma NothingLost(cfg: Config, r: Run, n: nat, i: nat, p: Path) returns (j: nat, k: nat)
    requires IsRun(cfg, r) && n < |r.states| && i < |r.states[n].bus|
    requires r.states[n].bus[i].fate.Completed? && p in r.states[n].bus[i].fate.served
    ensures var b := r.states[n].bus;
            && j < |b| && b[j].source == Some(Attempt(i, b[i].tries)) && b[j].sentTo == p
            && Descends(b, k, j) && !b[k].fate.Completed? && b[k].origin == b[i].origin
  {
    RunInv(cfg, r, n);
    var b := r.states[n].bus;
    LeavesOnlyAfterAccepted(cfg, r, n, i);
    var a := Attempt(i, b[i].tries);
    j :| 0 <= j < |b| && b[j].source == Some(a) && b[j].sentTo == p;
    assert GoodCopy(cfg, b, j);
    k := Survivor(cfg, b, j);
  }

  /** A duplicator's message that has left the base queue lives on both sides. */
  lemma DuplicatorReachesBoth(cfg: Config, r: Run, n: nat, i: nat) returns (g: nat, b: nat)
    requires IsRun(cfg, r) && n < |r.states| && i < |r.states[n].bus| && cfg.role == Duplicator
    requires r.states[n].bus[i].fate.Completed? && r.states[n].bus[i].path == Active(Base)
    ensures var bus := r.states[n].bus;
            && g < |bus| && bus[g].source == Some(Attempt(i, bus[i].tries)) && bus[g].sentTo == Active(Green)
            && b < |bus| && bus[b].source == Some(Attempt(i, bus[i].tries)) && bus[b].sentTo == Active(Blue)
    ensures exists k: nat :: Descends(r.states[n].bus, k, g) && !r.states[n].bus[k].fate.Completed?
    ensures exists k: nat :: Descends(r.states[n].bus, k, b) && !r.states[n].bus[k].fate.Completed?
  {
    LeavesOnlyAfterAccepted(cfg, r, n, i);
    assert r.states[n].bus[i].fate.served == [Active(Green), Active(Blue)];
    var k;
    g, k := NothingLost(cfg, r, n, i, Active(Green));
    b, k := NothingLost(cfg, r, n, i, Active(Blue));
  }

  /** A message once accepted by the bus is never nowhere. */
  lemma MessageSurvives(cfg: Config, r: Run, n: nat, i: nat) returns (k: nat)
    requires IsRun(cfg, r) && n < |r.states| && i < |r.states[n].bus|
    ensures Descends(r.states[n].bus, k, i) && !r.states[n].bus[k].fate.Completed?
    ensures r.states[n].bus[k].origin == r.states[n].bus[i].origin
  {
    RunInv(cfg, r, n);
    k := Survivor(cfg, r.states[n].bus, i);
  }

  /** Duplicates come only from repeated attempts: two copies sent on from one message to one
      destination belong to different attempts, so the message was locked at least twice, and if
      it has been completed, at least one of the two attempts was not the one that completed it. */
  lemma DuplicatesNeedRepeatedAttempts(cfg: Config, r: Run, n: nat, i: nat, j: nat)
    requires IsRun(cfg, r) && n < |r.states| && i < j < |r.states[n].bus|
    requires var b := r.states[n].bus;
             && b[i].source.Some? && b[j].source.Some? && b[i].source.value.copy == b[j].source.value.copy
             && b[i].sentTo == b[j].sentTo
    ensures var b := r.states[n].bus;
            var a, a' := b[i].source.value, b[j].source.value;
            && a.try != a'.try && a.copy < |b| && b[a.copy].tries >= 2
            && (a.try < b[a.copy].tries || a'.try < b[a.copy].tries)
  {
    RunInv(cfg, r, n);
    var b := r.states[n].bus;
    assert GoodCopy(cfg, b, i) && GoodCopy(cfg, b, j);
  }

  /** A message completed by its first attempt has exactly one copy at each destination. */
  lemma FirstAttemptIsExactlyOnce(cfg: Config, r: Run, n: nat, i: nat, p: Path) returns (j: nat)
    requires IsRun(cfg, r) && n < |r.states| && i < |r.states[n].bus|
    requires r.states[n].bus[i].fate.Completed? && r.states[n].bus[i].tries == 1 && p in r.states[n].bus[i].fate.served
    ensures var b := r.states[n].bus;
            && j < |b| && b[j].source.Some? && b[j].source.value.copy == i && b[j].sentTo == p
            && forall k | 0 <= k < |b| && b[k].source.Some? && b[k].source.value.copy == i && b[k].sentTo == p :: k == j
  {
    RunInv(cfg, r, n);
    var b := r.states[n].bus;
    LeavesOnlyAfterAccepted(cfg, r, n, i);
    j :| 0 <= j < |b| && b[j].source == Some(Attempt(i, b[i].tries)) && b[j].sentTo == p;
    forall k | 0 <= k < |b| && b[k].source.Some? && b[k].source.value.copy == i && b[k].sentTo == p
      ensures k == j
    {
      assert GoodCopy(cfg, b, k) && GoodCopy(cfg, b, j);
    }
  }
}
