/** Any number of operator processes competing for one reconcile lease, as single steps on a
    shared clock: reads, checks, writes on their way to the API server, their arrival there,
    the answers, renewals, and workers that stop at any point. */
module LeaseProtocol {
  import opened Wrappers
  import opened Lease

  /** The processes of the fleet; a process is its index. */
  type Fleet = seq<Config>

  /** A create or replace request; `base` is the number of versions its sender has read. */
  datatype Write = Write(id: nat, task: nat, proc: nat, base: nat, spec: LeaseSpec)

  datatype Renewal = Sleeping | Fetched(base: nat) | Renewing(write: Write)

  /** Where a reconcile task is. `Guarded` is the work under the lease, `last` the most recent
      write of this task that the server has confirmed. */
  datatype Pc =
    | Idle
    | Locked
    | Read(base: nat)
    | Cleared(base: nat)
    | Acquiring(write: Write)
    | Guarded(last: Write, renewal: Renewal)

  datatype Task = Task(proc: nat, pc: Pc)

  /** A stored lease; `writer` is the id of the write that stored it, None when it was there before. */
  datatype Version = Version(spec: Option<LeaseSpec>, writer: Option<nat>)

  datatype State = State(
    now: Time,
    stored: seq<Version>,
    sent: set<Write>,
    nextId: nat,
    localLocks: set<nat>,
    tasks: map<nat, Task>)

  /** `Stop` ends a task wherever it is: work done, not acquired, renewal lost, error or crash. */
  datatype Act = TakeLocalLock | Get | Check | Send | Enter | RenewGet | RenewSend | RenewConfirm | Stop

  datatype Step = Tick(ticks: nat) | Arrive(write: Write) | TaskStep(task: nat, act: Act)

  predicate InI32(n: int) {
    -0x8000_0000 <= n <= I32_MAX
  }

  ghost predicate Init(f: Fleet, s: State) {
    && |s.stored| <= 1
    && (forall k | 0 <= k < |s.stored| :: s.stored[k].writer == None && InI32(Transitions(s.stored[k].spec)))
    && s.sent == {} && s.localLocks == {}
    && (forall t | t in s.tasks :: s.tasks[t].pc == Idle && s.tasks[t].proc < |f|)
  }

  predicate Accepted(s: State, w: Write) {
    w.base < |s.stored| && s.stored[w.base] == Version(Some(w.spec), Some(w.id))
  }

  function Stamp(w: Write): Time {
    w.spec.renewTime.UnwrapOr(0)
  }

  predicate CanAct(cfg: Config, s: State, me: Task, act: Act) {
    match act
    case TakeLocalLock => me.pc == Idle && me.proc !in s.localLocks
    case Get => me.pc == Locked
    case Check => me.pc.Read? && me.pc.base <= |s.stored| && MayTake(s, me.pc.base, cfg)
    case Send => me.pc.Cleared? && me.pc.base <= |s.stored|
    case Enter => me.pc.Acquiring? && Accepted(s, me.pc.write)
    case RenewGet => me.pc.Guarded? && me.pc.renewal == Sleeping && s.stored != []
    case RenewSend =>
      && me.pc.Guarded? && me.pc.renewal.Fetched? && 0 < me.pc.renewal.base <= |s.stored|
      && Holder(s.stored[me.pc.renewal.base - 1].spec) == Some(cfg.identity)
    case RenewConfirm => me.pc.Guarded? && me.pc.renewal.Renewing? && Accepted(s, me.pc.renewal.write)
    case Stop => me.pc != Idle
  }

  predicate MayTake(s: State, base: nat, cfg: Config)
    requires base <= |s.stored|
  {
    base == 0 || CanBeAcquired(s.stored[base - 1].spec, cfg, s.now)
  }

  predicate Enabled(f: Fleet, s: State, step: Step) {
    match step
    case Tick(_) => true
    case Arrive(w) => w in s.sent && |s.stored| == w.base
    case TaskStep(t, act) => t in s.tasks && s.tasks[t].proc < |f| && CanAct(f[s.tasks[t].proc], s, s.tasks[t], act)
  }

  function ReadVersion(s: State, base: nat): Option<Option<LeaseSpec>>
    requires base <= |s.stored|
  {
    if base == 0 then None else Some(s.stored[base - 1].spec)
  }

  /** The request that `act` puts on its way. */
  function Request(cfg: Config, s: State, t: nat, me: Task, act: Act): Write
    requires act.Send? || act.RenewSend?
    requires CanAct(cfg, s, me, act)
  {
    if act.Send? then
      Write(s.nextId, t, me.proc, me.pc.base, AcquiredSpec(ReadVersion(s, me.pc.base), cfg, s.now))
    else
      Write(s.nextId, t, me.proc, me.pc.renewal.base, RenewedSpec(s.stored[me.pc.renewal.base - 1].spec, cfg, s.now))
  }

  function NextPc(cfg: Config, s: State, t: nat, me: Task, act: Act): Pc
    requires CanAct(cfg, s, me, act)
  {
    match act
    case TakeLocalLock => Locked
    case Get => Read(|s.stored|)
    case Check => Cleared(me.pc.base)
    case Send => Acquiring(Request(cfg, s, t, me, act))
    case Enter => Guarded(me.pc.write, Sleeping)
    case RenewGet => Guarded(me.pc.last, Fetched(|s.stored|))
    case RenewSend => Guarded(me.pc.last, Renewing(Request(cfg, s, t, me, act)))
    case RenewConfirm => Guarded(me.pc.renewal.write, Sleeping)
    case Stop => Idle
  }

  function DoTask(cfg: Config, s: State, t: nat, act: Act): State
    requires t in s.tasks && CanAct(cfg, s, s.tasks[t], act)
  {
    var me := s.tasks[t];
    var s' := s.(tasks := s.tasks[t := me.(pc := NextPc(cfg, s, t, me, act))]);
    if act.Send? || act.RenewSend? then
      s'.(sent := s.sent + {Request(cfg, s, t, me, act)}, nextId := s.nextId + 1)
    else if act.TakeLocalLock? then s'.(localLocks := s.localLocks + {me.proc})
    else if act.Stop? then s'.(localLocks := s.localLocks - {me.proc})
    else s'
  }

  function Do(f: Fleet, s: State, step: Step): State
    requires Enabled(f, s, step)
  {
    match step
    case Tick(d) => s.(now := s.now + d)
    case Arrive(w) => s.(stored := s.stored + [Version(Some(w.spec), Some(w.id))])
    case TaskStep(t, act) => DoTask(f[s.tasks[t].proc], s, t, act)
  }

  ghost predicate Next(f: Fleet, s: State, s': State) {
    exists step :: Enabled(f, s, step) && s' == Do(f, s, step)
  }

  /** A run: consecutive states are related by an enabled step. */
  ghost predicate IsRun(f: Fleet, run: seq<State>) {
    && run != [] && Init(f, run[0])
    && forall i {:trigger run[i]} | 0 < i < |run| :: Next(f, run[i - 1], run[i])
  }

  ghost predicate DistinctIdentities(f: Fleet) {
    forall p, q | 0 <= p < q < |f| :: f[p].identity != f[q].identity
  }

  predicate Inside(s: State, t: nat) {
    t in s.tasks && s.tasks[t].pc.Guarded?
  }

  /** The instant from which another operator may find the lease of `t` expired. */
  function Deadline(s: State, t: nat): Time
    requires Inside(s, t)
  {
    Stamp(s.tasks[t].pc.last) + s.tasks[t].pc.last.spec.durationSeconds.UnwrapOr(0) * SECOND
  }

  // ---------------------------------------------------------------- invariant

  /** `next` may replace `prev`: same holder, or `prev` had expired when `next` was stamped. */
  predicate Succeeds(prev: Version, next: LeaseSpec, stamp: Time) {
    && (Holder(prev.spec) == next.holder || prev.spec.None? || Expired(prev.spec.value, stamp))
    && (prev.writer.Some? && prev.spec.Some? && prev.spec.value.renewTime.Some? ==> prev.spec.value.renewTime.value <= stamp)
    && next.transitions == Some(Wrap32(Transitions(prev.spec) + if Holder(prev.spec) == next.holder then 0 else 1))
  }

  /** A spec as operator `cfg` writes it at `stamp`. */
  predicate WrittenBy(spec: LeaseSpec, cfg: Config, stamp: Time) {
    && spec.holder == Some(cfg.identity)
    && spec.renewTime == Some(stamp)
    && spec.durationSeconds == Some(DurationSeconds(cfg.duration))
  }

  predicate GoodWrite(f: Fleet, s: State, w: Write) {
    && w.id < s.nextId && w.proc < |f| && w.base <= |s.stored|
    && WrittenBy(w.spec, f[w.proc], Stamp(w)) && Stamp(w) <= s.now
    && if w.base == 0 then w.spec.transitions == Some(0)
       else Succeeds(s.stored[w.base - 1], w.spec, Stamp(w))
  }

  ghost predicate Signed(f: Fleet, v: Version, now: Time) {
    v.writer.Some? ==> v.spec.Some? && exists p: nat, stamp: Time | p < |f| && stamp <= now :: WrittenBy(v.spec.value, f[p], stamp)
  }

  ghost predicate Chain(f: Fleet, s: State) {
    && (forall k | 0 <= k < |s.stored| :: Signed(f, s.stored[k], s.now) && InI32(Transitions(s.stored[k].spec)))
    && (forall k | 0 < k < |s.stored| :: Link(s, k))
    && (s.stored != [] && s.stored[0].writer.Some? ==> Transitions(s.stored[0].spec) == 0)
  }

  predicate Link(s: State, k: nat)
    requires 0 < k < |s.stored|
  {
    && s.stored[k].writer.Some? && s.stored[k].spec.Some? && s.stored[k].spec.value.renewTime.Some?
    && Succeeds(s.stored[k - 1], s.stored[k].spec.value, s.stored[k].spec.value.renewTime.value)
  }

  predicate GoodTask(f: Fleet, s: State, t: nat)
    requires t in s.tasks
  {
    var me := s.tasks[t];
    && me.proc < |f|
    && match me.pc {
         case Idle => true
         case Locked => true
         case Read(base) => base <= |s.stored|
         case Cleared(base) =>
           base <= |s.stored| && MayTake(s, base, f[me.proc])
         case Acquiring(w) => w in s.sent && w.task == t && w.proc == me.proc
         case Guarded(last, renewal) =>
           && last in s.sent && last.task == t && last.proc == me.proc && Accepted(s, last)
           && match renewal {
                case Sleeping => true
                case Fetched(base) => base <= |s.stored|
                case Renewing(w) => w in s.sent && w.task == t && w.proc == me.proc
              }
       }
  }

  ghost predicate Locking(s: State) {
    && (forall t | t in s.tasks && s.tasks[t].pc != Idle :: s.tasks[t].proc in s.localLocks)
    && (forall t, u | t in s.tasks && u in s.tasks && t != u && s.tasks[t].pc != Idle && s.tasks[u].pc != Idle ::
          s.tasks[t].proc != s.tasks[u].proc)
  }

  ghost predicate UniqueIds(s: State) {
    && (forall w, x | w in s.sent && x in s.sent && w.id == x.id :: w == x)
    && (forall k | 0 <= k < |s.stored| && s.stored[k].writer.Some? ::
          exists w :: w in s.sent && w.id == s.stored[k].writer.value && w.base == k && w.spec == s.stored[k].spec.UnwrapOr(w.spec))
  }

  ghost predicate Inv(f: Fleet, s: State) {
    && Chain(f, s)
    && (forall w | w in s.sent :: GoodWrite(f, s, w))
    && UniqueIds(s)
    && (forall t | t in s.tasks :: GoodTask(f, s, t))
    && Locking(s)
  }

  lemma InitInv(f: Fleet, s: State)
    requires Init(f, s)
    ensures Inv(f, s)
  {
  }

  lemma StepChain(f: Fleet, s: State, step: Step)
    requires Inv(f, s) && Enabled(f, s, step)
    ensures Chain(f, Do(f, s, step))
  {
    var s' := Do(f, s, step);
    forall k | 0 <= k < |s'.stored|
      ensures Signed(f, s'.stored[k], s'.now)
    {
      if k < |s.stored| {
        assert Signed(f, s.stored[k], s.now);
      } else {
        assert GoodWrite(f, s, step.write);
      }
    }
    forall k | 0 < k < |s'.stored|
      ensures Link(s', k)
    {
      if k < |s.stored| {
        assert Link(s, k);
      } else {
        assert GoodWrite(f, s, step.write);
      }
    }
  }

  lemma AcquireIsGood(f: Fleet, s: State, t: nat)
    requires Inv(f, s) && Enabled(f, s, TaskStep(t, Send))
    ensures GoodWrite(f, Do(f, s, TaskStep(t, Send)), Request(f[s.tasks[t].proc], s, t, s.tasks[t], Send))
  {
    var me := s.tasks[t];
    var w := Request(f[me.proc], s, t, me, Send);
    assert GoodTask(f, s, t);
    if w.base > 0 {
      assert Signed(f, s.stored[w.base - 1], s.now);
      assert Succeeds(s.stored[w.base - 1], w.spec, s.now);
    }
  }

  lemma RenewIsGood(f: Fleet, s: State, t: nat)
    requires Inv(f, s) && Enabled(f, s, TaskStep(t, RenewSend))
    ensures GoodWrite(f, Do(f, s, TaskStep(t, RenewSend)), Request(f[s.tasks[t].proc], s, t, s.tasks[t], RenewSend))
  {
    var me := s.tasks[t];
    var w := Request(f[me.proc], s, t, me, RenewSend);
    assert Signed(f, s.stored[w.base - 1], s.now);
    assert Succeeds(s.stored[w.base - 1], w.spec, s.now);
  }

  lemma StillWritten(f: Fleet, s: State, s': State, w: Write)
    requires GoodWrite(f, s, w)
    requires s.now <= s'.now && s.stored <= s'.stored && s.nextId <= s'.nextId
    ensures GoodWrite(f, s', w)
  {
  }

  lemma StepWrites(f: Fleet, s: State, step: Step)
    requires Inv(f, s) && Enabled(f, s, step)
    ensures forall w | w in Do(f, s, step).sent :: GoodWrite(f, Do(f, s, step), w)
  {
    var s' := Do(f, s, step);
    forall w | w in s'.sent
      ensures GoodWrite(f, s', w)
    {
      if w in s.sent {
        StillWritten(f, s, s', w);
      } else if step.act == Send {
        AcquireIsGood(f, s, step.task);
      } else {
        RenewIsGood(f, s, step.task);
      }
    }
  }

  lemma StepIds(f: Fleet, s: State, step: Step)
    requires Inv(f, s) && Enabled(f, s, step)
    ensures UniqueIds(Do(f, s, step))
  {
    var s' := Do(f, s, step);
    forall w, x | w in s'.sent && x in s'.sent && w.id == x.id
      ensures w == x
    {
      assert w in s.sent ==> GoodWrite(f, s, w);
      assert x in s.sent ==> GoodWrite(f, s, x);
    }
  }

  /** A task that does not move stays good while time, stored versions and requests only grow. */
  lemma StillGood(f: Fleet, s: State, s': State, t: nat)
    requires t in s.tasks && t in s'.tasks && s.tasks[t] == s'.tasks[t] && GoodTask(f, s, t)
    requires s.now <= s'.now && s.stored <= s'.stored && s.sent <= s'.sent
    ensures GoodTask(f, s', t)
  {
  }

  lemma ActorGood(f: Fleet, s: State, t: nat, act: Act)
    requires Inv(f, s) && Enabled(f, s, TaskStep(t, act))
    ensures GoodTask(f, Do(f, s, TaskStep(t, act)), t)
  {
    assert GoodTask(f, s, t);
  }

  lemma StepTasks(f: Fleet, s: State, step: Step)
    requires Inv(f, s) && Enabled(f, s, step)
    ensures forall t | t in Do(f, s, step).tasks :: GoodTask(f, Do(f, s, step), t)
  {
    var s' := Do(f, s, step);
    forall t | t in s'.tasks
      ensures GoodTask(f, s', t)
    {
      if step.TaskStep? && step.task == t {
        ActorGood(f, s, t, step.act);
      } else {
        StillGood(f, s, s', t);
      }
    }
  }

  lemma TaskLocking(cfg: Config, s: State, t: nat, act: Act)
    requires Locking(s) && t in s.tasks && CanAct(cfg, s, s.tasks[t], act)
    ensures Locking(DoTask(cfg, s, t, act))
  {
    var s' := DoTask(cfg, s, t, act);
    assert forall u | u in s.tasks && u != t :: s'.tasks[u] == s.tasks[u];
    assert s'.tasks[t].proc == s.tasks[t].proc && (s'.tasks[t].pc == Idle <==> act == Stop);
  }

  lemma StepLocking(f: Fleet, s: State, step: Step)
    requires Inv(f, s) && Enabled(f, s, step)
    ensures Locking(Do(f, s, step))
  {
    if step.TaskStep? {
      TaskLocking(f[s.tasks[step.task].proc], s, step.task, step.act);
    }
  }

  lemma StepInv(f: Fleet, s: State, s': State)
    requires Inv(f, s) && Next(f, s, s')
    ensures Inv(f, s')
  {
    var step :| Enabled(f, s, step) && s' == Do(f, s, step);
    StepChain(f, s, step);
    StepWrites(f, s, step);
    StepIds(f, s, step);
    StepTasks(f, s, step);
    StepLocking(f, s, step);
  }

  lemma {:induction false} RunInv(f: Fleet, run: seq<State>, i: nat)
    requires IsRun(f, run) && i < |run|
    ensures Inv(f, run[i])
  {
    if i == 0 {
      InitInv(f, run[0]);
    } else {
      RunInv(f, run, i - 1);
      StepInv(f, run[i - 1], run[i]);
    }
  }

  // ---------------------------------------------------------------- exclusion

  /** From version `from` on, a process that holds the lease keeps holding it, and with a stamp
      that only grows, at least until the lease as stamped at `from` expires. */
  lemma {:induction false} HeldUntilExpiry(f: Fleet, s: State, w: Write, k: nat)
    requires Inv(f, s) && DistinctIdentities(f)
    requires w in s.sent && Accepted(s, w) && w.base <= k < |s.stored|
    requires s.now < Stamp(w) + DurationSeconds(f[w.proc].duration) * SECOND
    ensures s.stored[k].spec.Some? && s.stored[k].spec.value.renewTime.Some?
    ensures WrittenBy(s.stored[k].spec.value, f[w.proc], s.stored[k].spec.value.renewTime.value)
    ensures Stamp(w) <= s.stored[k].spec.value.renewTime.value
  {
    assert GoodWrite(f, s, w);
    if k > w.base {
      HeldUntilExpiry(f, s, w, k - 1);
      assert Link(s, k) && Signed(f, s.stored[k], s.now);
      var spec := s.stored[k].spec.value;
      var p: nat, stamp: Time :| p < |f| && stamp <= s.now && WrittenBy(spec, f[p], stamp);
      assert !Expired(s.stored[k - 1].spec.value, stamp);
      assert p == w.proc;
      assert k - 1 > w.base ==> Link(s, k - 1);
    }
  }

  /** Two workers can be inside the guarded work at once only after the deadline of the one whose
      last confirmed write is the older one. No assumption on timing is made. */
  lemma OverlapOnlyAfterDeadline(f: Fleet, run: seq<State>, i: nat, t: nat, u: nat)
    requires IsRun(f, run) && i < |run| && DistinctIdentities(f)
    requires t != u && Inside(run[i], t) && Inside(run[i], u)
    requires run[i].tasks[t].pc.last.base <= run[i].tasks[u].pc.last.base
    ensures Deadline(run[i], t) <= run[i].now
  {
    RunInv(f, run, i);
    var s := run[i];
    assert GoodTask(f, s, t) && GoodTask(f, s, u);
    var w, x := s.tasks[t].pc.last, s.tasks[u].pc.last;
    assert GoodWrite(f, s, w) && GoodWrite(f, s, x);
    if s.now < Deadline(s, t) {
      HeldUntilExpiry(f, s, w, x.base);
    }
  }

  /** Every worker renews or stops before its deadline. */
  ghost predicate InTime(s: State) {
    forall t | Inside(s, t) :: s.now < Deadline(s, t)
  }

  /** Lease exclusion: with distinct identities, at any state in which no worker has overstayed,
      at most one worker of the whole fleet is inside the guarded work. */
  lemma Exclusion(f: Fleet, run: seq<State>, i: nat, t: nat, u: nat)
    requires IsRun(f, run) && i < |run| && DistinctIdentities(f) && InTime(run[i])
    requires Inside(run[i], t) && Inside(run[i], u)
    ensures t == u
  {
    if t != u {
      if run[i].tasks[t].pc.last.base <= run[i].tasks[u].pc.last.base {
        OverlapOnlyAfterDeadline(f, run, i, t, u);
      } else {
        OverlapOnlyAfterDeadline(f, run, i, u, t);
      }
    }
  }

  /** Whoever takes the lease from another holder does so after the lease it replaces expired. */
  lemma HolderChangesOnlyAfterExpiry(f: Fleet, run: seq<State>, i: nat, k: nat)
    requires IsRun(f, run) && i < |run| && 0 < k < |run[i].stored|
    requires Holder(run[i].stored[k - 1].spec) != Holder(run[i].stored[k].spec)
    requires run[i].stored[k - 1].spec.Some?
    ensures run[i].stored[k].spec.Some? && run[i].stored[k].spec.value.renewTime.Some?
    ensures Expired(run[i].stored[k - 1].spec.value, run[i].stored[k].spec.value.renewTime.value)
  {
    RunInv(f, run, i);
    assert Link(run[i], k);
  }

  /** How often the holder changed up to version `k`. */
  function HolderChanges(stored: seq<Version>, k: nat): nat
    requires k < |stored|
  {
    if k == 0 then 0
    else HolderChanges(stored, k - 1) + if Holder(stored[k - 1].spec) == Holder(stored[k].spec) then 0 else 1
  }

  lemma WrapAdds(a: int, b: int)
    ensures Wrap32(Wrap32(a) + b) == Wrap32(a + b)
  {
    var q := (a + 0x8000_0000) / 0x1_0000_0000;
    assert Wrap32(a) == a - q * 0x1_0000_0000;
    var r := (a + b + 0x8000_0000) / 0x1_0000_0000;
    assert Wrap32(a) + b + 0x8000_0000 == Wrap32(a + b) + 0x8000_0000 + (r - q) * 0x1_0000_0000;
  }

  lemma {:induction false} ChainCounts(f: Fleet, s: State, k: nat)
    requires Chain(f, s) && k < |s.stored|
    ensures Transitions(s.stored[k].spec) == Wrap32(Transitions(s.stored[0].spec) + HolderChanges(s.stored, k))
  {
    if k > 0 {
      ChainCounts(f, s, k - 1);
      assert Link(s, k);
      WrapAdds(Transitions(s.stored[0].spec) + HolderChanges(s.stored, k - 1),
               HolderChanges(s.stored, k) - HolderChanges(s.stored, k - 1));
    }
  }

  lemma RunChain(f: Fleet, run: seq<State>, i: nat)
    requires IsRun(f, run) && i < |run|
    ensures Chain(f, run[i])
  {
    RunInv(f, run, i);
  }

  /** lease_transitions counts exactly the holder changes, from where it stood at the start. */
  lemma TransitionsCountHolderChanges(f: Fleet, run: seq<State>, i: nat, s: State, k: nat)
    requires IsRun(f, run) && i < |run| && s == run[i] && k < |s.stored|
    ensures Transitions(s.stored[k].spec) == Wrap32(Transitions(s.stored[0].spec) + HolderChanges(s.stored, k))
    ensures s.stored[0].writer.Some? ==> Transitions(s.stored[0].spec) == 0
  {
    RunChain(f, run, i);
    ChainCounts(f, s, k);
  }

  // ---------------------------------------------------------------- why the assumptions are needed

  ghost predicate Reachable(f: Fleet, s: State) {
    exists run :: IsRun(f, run) && run[|run| - 1] == s
  }

  lemma ReachableStep(f: Fleet, s: State, step: Step)
    requires Reachable(f, s) && Enabled(f, s, step)
    ensures Reachable(f, Do(f, s, step))
  {
    var run :| IsRun(f, run) && run[|run| - 1] == s;
    var s' := Do(f, s, step);
    assert Next(f, s, s');
    var longer := run + [s'];
    assert IsRun(f, longer);
    assert longer[|longer| - 1] == s';
  }

  /** An idle task whose operator finds the lease free passes its check. */
  lemma Clears(f: Fleet, s: State, t: nat) returns (s': State)
    requires Reachable(f, s) && t in s.tasks && s.tasks[t].proc < |f| && s.tasks[t].pc == Idle
    requires s.tasks[t].proc !in s.localLocks && MayTake(s, |s.stored|, f[s.tasks[t].proc])
    ensures Reachable(f, s')
    ensures s' == s.(tasks := s.tasks[t := Task(s.tasks[t].proc, Cleared(|s.stored|))], localLocks := s.localLocks + {s.tasks[t].proc})
  {
    ReachableStep(f, s, TaskStep(t, TakeLocalLock));
    var a := Do(f, s, TaskStep(t, TakeLocalLock));
    ReachableStep(f, a, TaskStep(t, Get));
    var b := Do(f, a, TaskStep(t, Get));
    ReachableStep(f, b, TaskStep(t, Check));
    s' := Do(f, b, TaskStep(t, Check));
    assert s'.tasks == s.tasks[t := Task(s.tasks[t].proc, Cleared(|s.stored|))];
  }

  /** ... and sends its request. */
  lemma Requests(f: Fleet, s: State, t: nat) returns (s': State, w: Write)
    requires Reachable(f, s) && t in s.tasks && s.tasks[t].proc < |f| && s.tasks[t].pc == Idle
    requires s.tasks[t].proc !in s.localLocks && MayTake(s, |s.stored|, f[s.tasks[t].proc])
    ensures Reachable(f, s') && w.base == |s.stored|
    ensures w.spec == AcquiredSpec(ReadVersion(s, |s.stored|), f[s.tasks[t].proc], s.now)
    ensures s' == s.(tasks := s.tasks[t := Task(s.tasks[t].proc, Acquiring(w))], sent := s.sent + {w},
                     nextId := s.nextId + 1, localLocks := s.localLocks + {s.tasks[t].proc})
  {
    var c := Clears(f, s, t);
    ReachableStep(f, c, TaskStep(t, Send));
    w := Request(f[s.tasks[t].proc], c, t, c.tasks[t], Send);
    s' := Do(f, c, TaskStep(t, Send));
    assert s'.tasks == s.tasks[t := Task(s.tasks[t].proc, Acquiring(w))];
  }

  /** An idle task whose operator finds the lease free gets in. */
  lemma GetsIn(f: Fleet, s: State, t: nat) returns (s': State)
    requires Reachable(f, s) && t in s.tasks && s.tasks[t].proc < |f| && s.tasks[t].pc == Idle
    requires s.tasks[t].proc !in s.localLocks && MayTake(s, |s.stored|, f[s.tasks[t].proc])
    ensures Reachable(f, s') && Inside(s', t)
    ensures s'.now == s.now && s'.localLocks == s.localLocks + {s.tasks[t].proc}
    ensures s'.tasks.Keys == s.tasks.Keys && forall u | u in s.tasks && u != t :: s'.tasks[u] == s.tasks[u]
    ensures |s'.stored| == |s.stored| + 1
    ensures Deadline(s', t) == s.now + DurationSeconds(f[s.tasks[t].proc].duration) * SECOND
    ensures s'.stored[|s.stored|].spec.Some? && WrittenBy(s'.stored[|s.stored|].spec.value, f[s.tasks[t].proc], s.now)
  {
    var d, w := Requests(f, s, t);
    ReachableStep(f, d, Arrive(w));
    var e := Do(f, d, Arrive(w));
    ReachableStep(f, e, TaskStep(t, Enter));
    s' := Do(f, e, TaskStep(t, Enter));
  }

  /** A task inside that asks for its renewal. */
  lemma AsksToRenew(f: Fleet, s: State, t: nat) returns (s': State, w: Write)
    requires Reachable(f, s) && Inside(s, t) && s.tasks[t].proc < |f| && s.tasks[t].pc.renewal == Sleeping && s.stored != []
    requires Holder(s.stored[|s.stored| - 1].spec) == Some(f[s.tasks[t].proc].identity)
    ensures Reachable(f, s') && w.base == |s.stored|
    ensures w.spec == RenewedSpec(s.stored[|s.stored| - 1].spec, f[s.tasks[t].proc], s.now)
    ensures s' == s.(tasks := s.tasks[t := Task(s.tasks[t].proc, Guarded(s.tasks[t].pc.last, Renewing(w)))],
                     sent := s.sent + {w}, nextId := s.nextId + 1)
  {
    var p := s.tasks[t].proc;
    ReachableStep(f, s, TaskStep(t, RenewGet));
    var a := s.(tasks := s.tasks[t := Task(p, Guarded(s.tasks[t].pc.last, Fetched(|s.stored|)))]);
    assert a == Do(f, s, TaskStep(t, RenewGet));
    ReachableStep(f, a, TaskStep(t, RenewSend));
    w := Request(f[p], a, t, a.tasks[t], RenewSend);
    s' := Do(f, a, TaskStep(t, RenewSend));
    assert s'.tasks == s.tasks[t := Task(p, Guarded(s.tasks[t].pc.last, Renewing(w)))];
  }

  /** An undisturbed renewal keeps the task inside and moves its deadline to the configured duration after
      the renewal. */
  lemma RenewalMovesDeadline(f: Fleet, s: State, t: nat, seconds: int) returns (s': State)
    requires Reachable(f, s) && Inside(s, t) && s.tasks[t].proc < |f| && s.tasks[t].pc.renewal == Sleeping && s.stored != []
    requires Holder(s.stored[|s.stored| - 1].spec) == Some(f[s.tasks[t].proc].identity)
    requires LastsFor(f[s.tasks[t].proc], seconds)
    ensures Reachable(f, s') && Inside(s', t) && s'.now == s.now && s'.localLocks == s.localLocks
    ensures Deadline(s', t) == s.now + seconds * SECOND
    ensures s'.tasks.Keys == s.tasks.Keys && forall u | u in s.tasks && u != t :: s'.tasks[u] == s.tasks[u]
    ensures |s'.stored| == |s.stored| + 1 && s'.stored[..|s.stored|] == s.stored
    ensures s'.stored[|s.stored|].spec == Some(RenewedSpec(s.stored[|s.stored| - 1].spec, f[s.tasks[t].proc], s.now))
  {
    var a, w := AsksToRenew(f, s, t);
    ReachableStep(f, a, Arrive(w));
    var b := Do(f, a, Arrive(w));
    ReachableStep(f, b, TaskStep(t, RenewConfirm));
    s' := Do(f, b, TaskStep(t, RenewConfirm));
  }

  /** A task that stops, wherever it is, leaves its process free to lock again. */
  lemma StopFrees(f: Fleet, s: State, t: nat)
    requires Enabled(f, s, TaskStep(t, Stop))
    ensures
      var s' := Do(f, s, TaskStep(t, Stop));
      && s'.tasks[t].pc == Idle && s'.localLocks == s.localLocks - {s.tasks[t].proc}
      && s'.stored == s.stored && s'.sent == s.sent
      && CanAct(f[s.tasks[t].proc], s', s'.tasks[t], TakeLocalLock)
  {
  }

  /** Task 0 on process p and task 1 on process q, nothing stored yet. */
  function Fresh(p: nat, q: nat): State {
    State(0, [], {}, 0, {}, map[0 := Task(p, Idle), 1 := Task(q, Idle)])
  }

  lemma FreshReachable(f: Fleet, p: nat, q: nat)
    requires p < |f| && q < |f|
    ensures Reachable(f, Fresh(p, q))
  {
    assert IsRun(f, [Fresh(p, q)]);
    assert [Fresh(p, q)][|[Fresh(p, q)]| - 1] == Fresh(p, q);
  }

  /** Exclusion under in-time workers holds exactly for fleets with distinct identities: two
      processes that share one (the fallback identity is the process id) can both be inside. */
  lemma ExclusionNeedsDistinctIdentities(f: Fleet)
    ensures DistinctIdentities(f)
            <==> forall s, t, u | Reachable(f, s) && InTime(s) && Inside(s, t) && Inside(s, u) :: t == u
  {
    if DistinctIdentities(f) {
      forall s, t, u | Reachable(f, s) && InTime(s) && Inside(s, t) && Inside(s, u)
        ensures t == u
      {
        var run :| IsRun(f, run) && run[|run| - 1] == s;
        Exclusion(f, run, |run| - 1, t, u);
      }
    } else {
      var p, q :| 0 <= p < q < |f| && f[p].identity == f[q].identity;
      FreshReachable(f, p, q);
      var s := GetsIn(f, Fresh(p, q), 0);
      assert MayTake(s, |s.stored|, f[q]);
      var s' := GetsIn(f, s, 1);
      assert InTime(s') && Inside(s', 0) && Inside(s', 1);
    }
  }

  /** A worker that overstays its deadline can meet another one, identities distinct or not. */
  lemma OverstayingBreaksExclusion(f: Fleet, p: nat, q: nat) returns (s: State)
    requires p < |f| && q < |f| && p != q
    ensures Reachable(f, s) && Inside(s, 0) && Inside(s, 1)
    ensures s.now == Deadline(s, 0) && s.now < Deadline(s, 1)
  {
    FreshReachable(f, p, q);
    var a := GetsIn(f, Fresh(p, q), 0);
    var wait := DurationSeconds(f[p].duration) * SECOND;
    ReachableStep(f, a, Tick(wait));
    var b := Do(f, a, Tick(wait));
    assert MayTake(b, |b.stored|, f[q]);
    s := GetsIn(f, b, 1);
  }
}
