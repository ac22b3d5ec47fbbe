/** The inception tracker as a client of the in-memory store, beside any other clients. */
module Inception {
  import opened Wrappers
  import opened TestCases
  import opened MemoryStores
  import CaseAccounting

  /** What the verifier of a case answers. */
  datatype Answer =
    | Unreachable
    | Unparsable
    | Verdict(passed: Option<bool>, message: Option<string>)

  const EXHAUSTED: Option<string> := Some("custom verification retries exhausted")

  /** A record after one poll of its verifier. */
  function Polled(r: Record, answer: Answer): Record {
    if !Pending(r) then r
    else match answer
      case Unreachable => r
      case Verdict(passed, message) => if passed.Some? then WithVerdict(r, passed.value, message) else r
      case Unparsable =>
        if r.mode == Data then r
        else if r.retries > 0 then WithRetry(r)
        else WithVerdict(r, false, EXHAUSTED)
  }

  /** A record after the timeout check at `now`. */
  function Checked(r: Record, now: Time): Record {
    if Pending(r) && ExpiresAt(r) < now then WithTimeout(r) else r
  }

  /** Key and record of every pending case, as a list call saw them. */
  function Listed(m: Store): map<string, Record> {
    map k | k in m && Pending(m[k]) :: m[k]
  }

  /** An operation on the store, by the tracker or by somebody else. */
  datatype Event = Event(op: Op, own: bool)

  function Ops(log: seq<Event>): seq<Op> {
    seq(|log|, i requires 0 <= i < |log| => log[i].op)
  }

  predicate Alone(log: seq<Event>) {
    forall e | e in log :: e.own
  }

  /** What the tracker may do about a listed case for an answer: record the verdict, or take a retry
      of a custom case, or fail it with the retries used up. */
  predicate PollsCase(op: Op, run: Record, answer: Answer) {
    || (answer.Verdict? && answer.passed.Some? && op == SetVerdict(run.ref, run.testId, answer.passed.value, answer.message))
    || (answer.Unparsable? && run.mode == Custom
        && (op == DecrementRetries(run.ref, run.testId) || op == SetVerdict(run.ref, run.testId, false, EXHAUSTED)))
  }

  lemma {:induction false} RunTwo(m: Store, a: seq<Op>, b: seq<Op>)
    ensures Run(m, a + b).0 == Run(Run(m, a).0, b).0
    decreases |a|
  {
    if a == [] {
      assert [] + b == b;
    } else {
      assert (a + b)[1..] == a[1..] + b;
      RunTwo(Apply(m, a[0]).0, a[1..], b);
    }
  }

  lemma OpsTwo(a: seq<Event>, b: seq<Event>)
    ensures Ops(a + b) == Ops(a) + Ops(b)
  {
  }

  /** Two stretches of events, one after the other. */
  lemma Then(m: Store, a: seq<Event>, b: seq<Event>)
    ensures Run(m, Ops(a + b)).0 == Run(Run(m, Ops(a)).0, Ops(b)).0
  {
    OpsTwo(a, b);
    RunTwo(m, Ops(a), Ops(b));
  }

  lemma RunOne(m: Store, op: Op)
    ensures Run(m, [op]).0 == Apply(m, op).0 && Ops([Event(op, true)]) == [op]
  {
    assert [op][1..] == [];
  }

  class Tracker {
    const store: MemoryStore

    constructor (store: MemoryStore)
      ensures this.store == store
    {
      this.store := store;
    }

    /** What other clients do before the tracker's next request: any operations at all. */
    method Others(ops: seq<Op>) returns (ghost log: seq<Event>)
      modifies store
      ensures store.data == Run(old(store.data), Ops(log)).0
      ensures |log| == |ops| && forall i | 0 <= i < |log| :: log[i] == Event(ops[i], false)
    {
      log := seq(|ops|, i requires 0 <= i < |ops| => Event(ops[i], false));
      assert Ops(log) == ops;
      store.data := Run(store.data, ops).0;
    }

    /** What one poll does with the answer for one listed case; `before` and `between` are what
        others do before its first and its second request. */
    method PollOne(k: string, run: Record, answer: Answer, before: seq<Op>, between: seq<Op>) returns (ghost log: seq<Event>)
      modifies store
      ensures store.data == Run(old(store.data), Ops(log)).0
      ensures forall e | e in log && e.own :: PollsCase(e.op, run, answer)
      ensures before == [] && between == [] ==> Alone(log)
      ensures
        before == [] && between == [] && k == RecordKey(run.ref, run.testId) && k in old(store.data) && run == old(store.data)[k] ==>
          store.data == old(store.data)[k := Polled(run, answer)]
      ensures
        before == [] && between == [] && k == RecordKey(run.ref, run.testId) && k in old(store.data) && run == old(store.data)[k]
        && (run.status == Triggered || run.status == Observing) ==>
          match answer
          case Unreachable => store.data == old(store.data)
          case Verdict(None, _) => store.data == old(store.data)
          case Verdict(Some(passed), message) =>
            store.data == old(store.data)[k := run.(status := if passed then Passed else Failed, verdict := Some(passed), failure := message)]
          case Unparsable =>
            if run.mode == Data then store.data == old(store.data)
            else if run.retries > 0 then store.data == old(store.data)[k := run.(retries := run.retries - 1)]
            else store.data == old(store.data)[k := run.(
                   status := Failed, verdict := Some(false), failure := Some("custom verification retries exhausted"))]
    {
      log := Others(before);
      ghost var m := old(store.data);
      assert before == [] ==> store.data == m && log == [];
      match answer {
        case Verdict(passed, message) =>
          if passed.Some? {
            var _ := store.SetVerdict(run.ref, run.testId, passed.value, message);
            log := Extended(m, log, SetVerdict(run.ref, run.testId, passed.value, message));
          }
        case Unparsable =>
          if run.mode == Custom {
            var left := store.DecrementRetries(run.ref, run.testId);
            log := Extended(m, log, DecrementRetries(run.ref, run.testId));
            if left == Ok(None) {
              ghost var more := Others(between);
              Then(m, log, more);
              log := log + more;
              var _ := store.SetVerdict(run.ref, run.testId, false, EXHAUSTED);
              log := Extended(m, log, SetVerdict(run.ref, run.testId, false, EXHAUSTED));
            }
          }
        case Unreachable =>
      }
    }

    /** poll_pending: asks the verifier of every case that was pending at the start. Whatever others
        do meanwhile, the effect is a sequence of atomic operations, the tracker's own among them only
        on listed cases and as their answers say; undisturbed, every listed case is polled. */
    method PollPending(answers: string -> Answer, before: string -> seq<Op>, between: string -> seq<Op>) returns (ghost log: seq<Event>)
      modifies store
      ensures store.data == Run(old(store.data), Ops(log)).0
      ensures forall e | e in log && e.own ::
                exists k :: k in Listed(old(store.data)) && PollsCase(e.op, Listed(old(store.data))[k], answers(k))
      ensures
        CaseAccounting.WellKept(old(store.data)) && (forall k :: before(k) == [] && between(k) == []) ==>
          && store.data.Keys == old(store.data).Keys
          && forall k | k in old(store.data) :: store.data[k] == Polled(old(store.data)[k], answers(k))
    {
      log := [];
      var listed := Listed(store.data);
      var rest := listed.Keys;
      ghost var m := store.data;
      ghost var quiet := CaseAccounting.WellKept(m) && forall k :: before(k) == [] && between(k) == [];
      while rest != {}
        invariant rest <= listed.Keys && listed == Listed(m)
        invariant store.data == Run(m, Ops(log)).0
        invariant forall e | e in log && e.own :: exists k :: k in listed && PollsCase(e.op, listed[k], answers(k))
        invariant quiet ==> PolledBut(m, store.data, rest, answers)
        decreases |rest|
      {
        var k :| k in rest;
        ghost var was := store.data;
        assert quiet ==> k == RecordKey(listed[k].ref, listed[k].testId) && k in was && was[k] == listed[k];
        ghost var more := PollOne(k, listed[k], answers(k), before(k), between(k));
        if quiet {
          PolledStep(m, was, rest, k, answers);
        }
        Then(m, log, more);
        log := log + more;
        rest := rest - {k};
      }
    }

    /** The check of one listed case, after what others do before it. */
    method CheckOne(k: string, run: Record, now: Time, before: seq<Op>) returns (ghost log: seq<Event>)
      modifies store
      ensures store.data == Run(old(store.data), Ops(log)).0
      ensures forall e | e in log && e.own :: e.op == TimeOut(run) && ExpiresAt(run) < now
      ensures ExpiresAt(run) < now ==> Event(TimeOut(run), true) in log
      ensures
        before == [] && k == RecordKey(run.ref, run.testId) && k in old(store.data) && run == old(store.data)[k] ==>
          store.data == old(store.data)[k := Checked(run, now)]
      ensures
        before == [] && k == RecordKey(run.ref, run.testId) && k in old(store.data) && run == old(store.data)[k] ==>
          store.data == old(store.data)[k :=
            if (run.status == Triggered || run.status == Observing) && run.triggeredAt + run.timeout < now
            then run.(status := TimedOut, verdict := None) else run]
    {
      log := Others(before);
      ghost var m := old(store.data);
      if ExpiresAt(run) < now {
        var _ := store.MarkTimedOut(run.ref, run.testId);
        log := Extended(m, log, TimeOut(run));
      }
    }

    /** check_timeouts: times out exactly the listed cases that had expired at `now`; whatever others
        do meanwhile, one that was finalised by then keeps its verdict. */
    method CheckTimeouts(now: Time, before: string -> seq<Op>) returns (ghost log: seq<Event>)
      modifies store
      ensures store.data == Run(old(store.data), Ops(log)).0
      ensures OwnDue(Listed(old(store.data)), log, now)
      ensures forall k | k in Listed(old(store.data)) :: TimesOut(Listed(old(store.data)), k, log, now)
      ensures
        CaseAccounting.WellKept(old(store.data)) && (forall k :: before(k) == []) ==>
          CheckedBut(old(store.data), store.data, {}, now)
    {
      log := [];
      var listed := Listed(store.data);
      var rest := listed.Keys;
      ghost var m := store.data;
      ghost var quiet := CaseAccounting.WellKept(m) && forall k :: before(k) == [];
      CheckedStart(m, now);
      while rest != {}
        invariant rest <= listed.Keys && listed == Listed(m)
        invariant store.data == Run(m, Ops(log)).0
        invariant OwnDue(listed, log, now)
        invariant forall k | k in listed && k !in rest :: TimesOut(listed, k, log, now)
        invariant quiet ==> CheckedBut(m, store.data, rest, now)
        decreases |rest|
      {
        var k :| k in rest;
        ghost var was := store.data;
        ghost var more := CheckOne(k, listed[k], now, before(k));
        if quiet {
          QuietCheck(m, was, store.data, rest, k, now);
        }
        Then(m, log, more);
        LogMore(listed, log, more, rest, k, now);
        log := log + more;
        rest := rest - {k};
      }
    }
  }

  /** The cases of `m` after the check of all that were pending but `rest`. */
  predicate CheckedBut(m: Store, data: Store, rest: set<string>, now: Time) {
    data.Keys == m.Keys && forall k | k in m :: data[k] == if k in rest then m[k] else Checked(m[k], now)
  }

  lemma CheckedStart(m: Store, now: Time)
    ensures CheckedBut(m, m, Listed(m).Keys, now)
  {
  }

  predicate PolledBut(m: Store, data: Store, rest: set<string>, answers: string -> Answer) {
    data.Keys == m.Keys && forall k | k in m :: data[k] == if k in rest then m[k] else Polled(m[k], answers(k))
  }

  lemma PolledStep(m: Store, data: Store, rest: set<string>, k: string, answers: string -> Answer)
    requires PolledBut(m, data, rest, answers) && k in m
    ensures PolledBut(m, data[k := Polled(m[k], answers(k))], rest - {k}, answers)
  {
  }

  function TimeOut(run: Record): Op {
    MarkTimedOut(run.ref, run.testId)
  }

  predicate IsDue(listed: map<string, Record>, k: string, now: Time) {
    k in listed && ExpiresAt(listed[k]) < now
  }

  /** The time-out of some listed case that is due. */
  predicate DueOp(listed: map<string, Record>, op: Op, now: Time) {
    exists k :: k in listed && IsDue(listed, k, now) && op == TimeOut(listed[k])
  }

  /** The tracker's own operations are time-outs of listed cases that are due. */
  predicate OwnDue(listed: map<string, Record>, log: seq<Event>, now: Time) {
    forall i | 0 <= i < |log| && log[i].own :: DueOp(listed, log[i].op, now)
  }

  lemma OneDue(listed: map<string, Record>, k: string, log: seq<Event>, now: Time)
    requires k in listed && forall e | e in log && e.own :: e.op == TimeOut(listed[k]) && ExpiresAt(listed[k]) < now
    ensures OwnDue(listed, log, now)
  {
  }

  /** If the case is due, its time-out is among the tracker's own operations. */
  predicate TimesOut(listed: map<string, Record>, k: string, log: seq<Event>, now: Time) {
    IsDue(listed, k, now) ==> Event(TimeOut(listed[k]), true) in log
  }

  lemma LogMore(listed: map<string, Record>, log: seq<Event>, more: seq<Event>, rest: set<string>, k: string, now: Time)
    requires k in listed && OwnDue(listed, log, now)
    requires forall l | l in listed && l !in rest :: TimesOut(listed, l, log, now)
    requires forall e | e in more && e.own :: e.op == TimeOut(listed[k]) && ExpiresAt(listed[k]) < now
    requires TimesOut(listed, k, more, now)
    ensures OwnDue(listed, log + more, now)
    ensures forall l | l in listed && l !in rest - {k} :: TimesOut(listed, l, log + more, now)
  {
    OneDue(listed, k, more, now);
  }

  lemma QuietCheck(m: Store, was: Store, data: Store, rest: set<string>, k: string, now: Time)
    requires CaseAccounting.WellKept(m) && CheckedBut(m, was, rest, now) && k in rest && rest <= Listed(m).Keys
    requires
      k == RecordKey(m[k].ref, m[k].testId) && k in was && was[k] == m[k] ==> data == was[k := Checked(m[k], now)]
    ensures CheckedBut(m, data, rest - {k}, now)
  {
  }

  /** One more of the tracker's own operations. */
  lemma Extended(m: Store, log: seq<Event>, op: Op) returns (longer: seq<Event>)
    ensures longer == log + [Event(op, true)]
    ensures Run(m, Ops(longer)).0 == Apply(Run(m, Ops(log)).0, op).0
  {
    longer := log + [Event(op, true)];
    Then(m, log, [Event(op, true)]);
    RunOne(Run(m, Ops(log)).0, op);
  }

  function PolledTimes(r: Record, answer: Answer, times: nat): Record
    decreases times
  {
    if times == 0 then r else PolledTimes(Polled(r, answer), answer, times - 1)
  }

  /** A custom case whose verifier never answers sensibly is failed by exactly the poll after its
      retries are used up. */
  lemma {:induction false} RetriesBoundPolls(r: Record, times: nat)
    requires Pending(r) && r.mode == Custom && r.retries >= 0
    ensures times <= r.retries ==> PolledTimes(r, Unparsable, times) == r.(retries := r.retries - times)
    ensures times > r.retries ==>
              PolledTimes(r, Unparsable, times)
              == r.(retries := 0, status := Failed, verdict := Some(false), failure := EXHAUSTED)
    decreases times
  {
    if times > 0 {
      if r.retries > 0 {
        RetriesBoundPolls(WithRetry(r), times - 1);
      } else {
        StaysPolled(WithVerdict(r, false, EXHAUSTED), Unparsable, times - 1);
      }
    }
  }

  lemma {:induction false} StaysPolled(r: Record, answer: Answer, times: nat)
    requires Finalized(r)
    ensures PolledTimes(r, answer, times) == r
    decreases times
  {
    if times > 0 {
      StaysPolled(r, answer, times - 1);
    }
  }
}
