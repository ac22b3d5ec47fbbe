/** The Service Bus plugin as a state machine: any number of relay workers and drains, each
    request to the bus a step of its own that may fail, be lost on the way back or find its lock
    expired, beside the run mode, the in-flight counter and drain status calls. */
module Relay {
  import opened Wrappers
  import opened Queues

  datatype Role = Duplicator | Splitter | Combiner
  datatype Mode = ActiveMode | DrainingMode | IdleMode

  /** `routesToBlue` is the SDK's choice for a body and a traffic percentage. */
  datatype Config = Config(role: Role, shadow: bool, routesToBlue: (nat, nat) -> bool)

  datatype Kind = Worker | Drain

  datatype Pc =
    | Top
    | Polling
    | Holding(a: Attempt)
    | Tracked(a: Attempt)
    | Admitted(a: Attempt)
    | Sending(a: Attempt, dests: seq<Path>, sent: nat)
    | Completing(a: Attempt, dests: seq<Path>)
    | Abandoning(a: Attempt)
    | Settled

  datatype Actor = Actor(kind: Kind, pc: Pc)

  /** A drain status call that has read `counted` message counts, `total` in sum. */
  datatype Call = Call(counted: nat, total: nat, report: Option<bool>)

  datatype State = State(
    bus: Bus,
    mode: Mode,
    traffic: nat,
    inFlight: int,
    actors: seq<Actor>,
    calls: map<nat, Call>)

  // ---------------------------------------------------------------- what goes where

  predicate IsTemporary(cfg: Config, q: Queue) {
    if cfg.role == Combiner then q == GreenOut || q == BlueOut else q == Green || q == Blue
  }

  /** Where a worker of this role takes its messages. */
  predicate WorkerSource(cfg: Config, p: Path) {
    !p.shadow && !p.dead && if cfg.role == Combiner then IsTemporary(cfg, p.queue) else p.queue == Base
  }

  predicate DrainSource(cfg: Config, p: Path) {
    IsTemporary(cfg, p.queue) && (p.shadow ==> cfg.shadow)
  }

  function DrainTarget(cfg: Config, p: Path): Path {
    Path(if cfg.role == Combiner then Result else Base, p.shadow, false)
  }

  function WorkerDests(cfg: Config, origin: nat, traffic: nat): seq<Path> {
    match cfg.role
    case Duplicator => [Active(Green), Active(Blue)]
    case Splitter => if cfg.routesToBlue(origin, traffic) then [Active(Blue)] else [Active(Green)]
    case Combiner => [Active(Result)]
  }

  /** Destinations that an attempt on a copy of `origin` found at `p` must serve. */
  ghost predicate Required(cfg: Config, origin: nat, p: Path, dests: seq<Path>) {
    || (WorkerSource(cfg, p) && exists t: nat :: t <= 100 && dests == WorkerDests(cfg, origin, t))
    || (DrainSource(cfg, p) && dests == [DrainTarget(cfg, p)])
  }

  // ---------------------------------------------------------------- steps

  /** Steps of one worker or drain. Sending and settling come in three outcomes: done, done but
      reported as failed, and failed. A message can also be locked for an actor that never learns it. */
  datatype Outcome = Done | DoneUnreported | Failed

  datatype Act =
    | ReadMode
    | Receive(copy: nat)
    | ReceiveLost(copy: nat)
    | GiveUp
    | Track
    | Recheck
    | Route
    | SendNext(outcome: Outcome)
    | AllSent
    | Complete(outcome: Outcome)
    | Abandon(outcome: Outcome)
    | DropGuard

  /** Steps of the world around the plugin. */
  datatype Step =
    | ActorStep(actor: nat, act: Act)
    | Produce(origin: nat, path: Path)
    | Expire(copy: nat)
    | Consume(copy: nat)
    | DeadLetter(copy: nat)
    | Shelve(copy: nat)
    | SetMode(mode: Mode)
    | ShiftTraffic(percent: nat)
    | Restart
    | BeginCall(call: nat)
    | CountNext(call: nat, count: nat)
    | ReadInFlight(call: nat)

  predicate CanReceive(cfg: Config, s: State, me: Actor, i: nat) {
    && me.pc == Polling && i < |s.bus| && s.bus[i].fate == Ready
    && if me.kind == Worker then WorkerSource(cfg, s.bus[i].path) else DrainSource(cfg, s.bus[i].path)
  }

  predicate CanAct(cfg: Config, s: State, me: Actor, act: Act) {
    match act
    case ReadMode => me.pc == Top && s.mode == if me.kind == Worker then ActiveMode else DrainingMode
    case Receive(i) => CanReceive(cfg, s, me, i)
    case ReceiveLost(i) => CanReceive(cfg, s, me, i)
    case GiveUp => me.pc == Polling
    case Track => me.pc.Holding?
    case Recheck => me.pc.Tracked?
    case Route => me.pc.Admitted? && me.pc.a.copy < |s.bus|
    case SendNext(_) => me.pc.Sending? && me.pc.sent < |me.pc.dests| && me.pc.a.copy < |s.bus|
    case AllSent => me.pc.Sending? && me.pc.sent == |me.pc.dests|
    case Complete(o) => me.pc.Completing? && (o != Failed ==> HoldsLock(s.bus, me.pc.a))
    case Abandon(_) => me.pc.Abandoning?
    case DropGuard => me.pc == Settled
  }

  function NextPc(cfg: Config, s: State, me: Actor, act: Act): Pc
    requires CanAct(cfg, s, me, act)
  {
    match act
    case ReadMode => Polling
    case Receive(i) =>
      var a := Attempt(i, s.bus[i].tries + 1);
      if me.kind == Worker then Holding(a) else Sending(a, [DrainTarget(cfg, s.bus[i].path)], 0)
    case ReceiveLost(_) => Top
    case GiveUp => Top
    case Track => Tracked(me.pc.a)
    case Recheck => if s.mode == ActiveMode then Admitted(me.pc.a) else Abandoning(me.pc.a)
    case Route => Sending(me.pc.a, WorkerDests(cfg, s.bus[me.pc.a.copy].origin, s.traffic), 0)
    case SendNext(o) => if o == Done then me.pc.(sent := me.pc.sent + 1) else Abandoning(me.pc.a)
    case AllSent => Completing(me.pc.a, me.pc.dests)
    case Complete(o) => if me.kind == Worker then Settled else if o == Done then Polling else Top
    case Abandon(_) => if me.kind == Worker then Settled else Top
    case DropGuard => Top
  }

  function NextBus(cfg: Config, s: State, me: Actor, act: Act): Bus
    requires CanAct(cfg, s, me, act)
  {
    match act
    case Receive(i) => LockCopy(s.bus, i)
    case ReceiveLost(i) => LockCopy(s.bus, i)
    case SendNext(o) => if o == Failed then s.bus else Forward(s.bus, me.pc.a, me.pc.dests[me.pc.sent])
    case Complete(o) => if o == Failed then s.bus else CompleteCopy(s.bus, me.pc.a, me.pc.dests)
    case Abandon(o) => if o == Failed then s.bus else AbandonCopy(s.bus, me.pc.a)
    case _ => s.bus
  }

  function DoActor(cfg: Config, s: State, n: nat, act: Act): State
    requires n < |s.actors| && CanAct(cfg, s, s.actors[n], act)
  {
    var me := s.actors[n];
    s.(actors := s.actors[n := me.(pc := NextPc(cfg, s, me, act))],
       bus := NextBus(cfg, s, me, act),
       inFlight := s.inFlight + if act == Track then 1 else if act == DropGuard then -1 else 0)
  }

  /** The paths a status call counts, in its order. */
  function StatusPaths(cfg: Config): seq<Path> {
    var g := if cfg.role == Combiner then GreenOut else Green;
    var b := if cfg.role == Combiner then BlueOut else Blue;
    PathsOf(cfg, g) + PathsOf(cfg, b)
  }

  function PathsOf(cfg: Config, q: Queue): seq<Path> {
    [Path(q, false, false), Path(q, false, true)]
    + if cfg.shadow then [Path(q, true, false), Path(q, true, true)] else []
  }

  /** The bus answers a count request with the number of copies present. */
  ghost predicate IsCount(b: Bus, p: Path, count: nat) {
    count == |set i | 0 <= i < |b| && b[i].path == p && Present(b[i])|
  }

  ghost predicate Enabled(cfg: Config, s: State, step: Step) {
    match step
    case ActorStep(n, act) => n < |s.actors| && CanAct(cfg, s, s.actors[n], act)
    case Produce(_, p) => !p.dead && !p.shadow && (p.queue == Base || p.queue == GreenOut || p.queue == BlueOut)
    case Expire(i) => i < |s.bus| && s.bus[i].fate == Locked
    case Consume(i) => i < |s.bus| && s.bus[i].fate == Ready
    case DeadLetter(i) => i < |s.bus| && s.bus[i].fate == Ready
    case Shelve(i) => i < |s.bus| && s.bus[i].fate == Ready && !s.bus[i].path.dead && cfg.shadow
    case SetMode(_) => true
    case ShiftTraffic(_) => true
    case Restart => true
    case BeginCall(c) => c !in s.calls
    case CountNext(c, count) =>
      && c in s.calls && s.calls[c].counted < |StatusPaths(cfg)|
      && IsCount(s.bus, StatusPaths(cfg)[s.calls[c].counted], count)
    case ReadInFlight(c) => c in s.calls && s.calls[c].counted == |StatusPaths(cfg)| && s.calls[c].report == None
  }

  ghost function Do(cfg: Config, s: State, step: Step): State
    requires Enabled(cfg, s, step)
  {
    match step
    case ActorStep(n, act) => DoActor(cfg, s, n, act)
    case Produce(origin, p) => s.(bus := s.bus + [Copy(origin, None, p, p, 0, Ready)])
    case Expire(i) => s.(bus := s.bus[i := s.bus[i].(fate := Ready)])
    case Consume(i) => s.(bus := s.bus[i := s.bus[i].(fate := Consumed)])
    case DeadLetter(i) => s.(bus := s.bus[i := s.bus[i].(path := s.bus[i].path.(dead := true))])
    case Shelve(i) => s.(bus := s.bus[i := s.bus[i].(path := s.bus[i].path.(shadow := true))])
    case SetMode(m) => s.(mode := m)
    case ShiftTraffic(percent) => s.(traffic := if percent > 100 then 100 else percent)
    case Restart =>
      s.(mode := IdleMode, inFlight := 0, calls := map[],
         actors := seq(|s.actors|, i requires 0 <= i < |s.actors| => s.actors[i].(pc := Top)))
    case BeginCall(c) => s.(calls := s.calls[c := Call(0, 0, None)])
    case CountNext(c, count) =>
      var call := s.calls[c];
      s.(calls := s.calls[c := call.(counted := call.counted + 1, total := call.total + count)])
    case ReadInFlight(c) =>
      s.(calls := s.calls[c := s.calls[c].(report := Some(s.calls[c].total == 0 && s.inFlight == 0))])
  }

  ghost predicate Init(s: State) {
    && s.bus == [] && s.mode == IdleMode && s.traffic <= 100 && s.inFlight == 0 && s.calls == map[]
    && forall n | 0 <= n < |s.actors| :: s.actors[n].pc == Top
  }

  /** A run of the plugin: `states[i]` is the state before `steps[i]`. */
  datatype Run = Run(states: seq<State>, steps: seq<Step>)

  ghost predicate Follows(cfg: Config, r: Run, i: nat)
    requires i < |r.steps| && |r.states| == |r.steps| + 1
  {
    Enabled(cfg, r.states[i], r.steps[i]) && r.states[i + 1] == Do(cfg, r.states[i], r.steps[i])
  }

  ghost predicate IsRun(cfg: Config, r: Run) {
    && |r.states| == |r.steps| + 1
    && Init(r.states[0])
    && forall i | 0 <= i < |r.steps| :: Follows(cfg, r, i)
  }
}
