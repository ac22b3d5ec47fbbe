/** The in-memory store: one hash map, each operation atomic under its lock. */
module MemoryStores {
  import opened Wrappers
  import opened TestCases

  type Store = map<string, Record>

  const UNIT_SEPARATOR: char := '\U{1f}'

  function RecordKey(ref: string, testId: string): string {
    ref + [UNIT_SEPARATOR] + testId
  }

  /** The keys whose records count for `ref` and mode and have one of the statuses `which`. */
  function Having(m: Store, keys: set<string>, ref: string, only: Option<Mode>, which: set<Status>): set<string> {
    set k | k in keys && k in m && Selected(m[k], ref, only) && m[k].status in which
  }

  function Tally(m: Store, keys: set<string>, ref: string, only: Option<Mode>): Counts {
    Counts(
      |Having(m, keys, ref, only, {Passed})|,
      |Having(m, keys, ref, only, {Failed})|,
      |Having(m, keys, ref, only, {TimedOut})|,
      |Having(m, keys, ref, only, {Triggered, Observing})|)
  }

  function DoRegister(m: Store, run: Record): (Store, Reply) {
    var key := RecordKey(run.ref, run.testId);
    if key !in m then (m[key := run], Done)
    else if Finalized(m[key]) then (m, Done)
    else (m[key := Merge(m[key], run)], Done)
  }

  function DoVerdict(m: Store, key: string, passed: bool, message: Option<string>): (Store, Reply) {
    if key in m && Pending(m[key]) then (m[key := WithVerdict(m[key], passed, message)], Done) else (m, NotFound)
  }

  function DoTimeout(m: Store, key: string): (Store, Reply) {
    if key in m && Pending(m[key]) then (m[key := WithTimeout(m[key])], Done) else (m, NotFound)
  }

  function DoDecrement(m: Store, key: string): (Store, Reply) {
    if key !in m then (m, NotFound)
    else if Pending(m[key]) && m[key].retries > 0 then
      (m[key := WithRetry(m[key])], Remaining(Some(m[key].retries - 1)))
    else (m, Remaining(None))
  }

  function PendingRecords(m: Store): set<Record> {
    set k | k in m && Pending(m[k]) :: m[k]
  }

  function AllRefs(m: Store): set<string> {
    set k | k in m :: m[k].ref
  }

  function OtherRefs(m: Store, ref: string): set<string> {
    set k | k in m && m[k].ref != ref
  }

  function Unexpired(m: Store, now: Time): set<string> {
    set k | k in m && !(Pending(m[k]) && ExpiresAt(m[k]) < now)
  }

  /** What one operation does to the map and answers. */
  function Apply(m: Store, op: Op): (Store, Reply) {
    match op
    case Register(run) => DoRegister(m, run)
    case Get(ref, id) => (m, Found(if RecordKey(ref, id) in m then Some(m[RecordKey(ref, id)]) else None))
    case SetVerdict(ref, id, passed, message) => DoVerdict(m, RecordKey(ref, id), passed, message)
    case MarkTimedOut(ref, id) => DoTimeout(m, RecordKey(ref, id))
    case DecrementRetries(ref, id) => DoDecrement(m, RecordKey(ref, id))
    case ListPending => (m, Records(PendingRecords(m)))
    case ListRefs => (m, Refs(AllRefs(m)))
    case CountCases(ref, only) => (m, Counted(Tally(m, m.Keys, ref, only)))
    case CleanupBlueGreen(ref) => Retain(m, OtherRefs(m, ref))
    case CleanupExpired(now) => Retain(m, Unexpired(m, now))
  }

  function Retain(m: Store, keep: set<string>): (Store, Reply)
    requires keep <= m.Keys
  {
    (map k | k in keep :: m[k], Removed(|m.Keys - keep|))
  }

  /** A whole sequence of operations, with their answers. */
  function Run(m: Store, ops: seq<Op>): (r: (Store, seq<Reply>))
    ensures |r.1| == |ops|
    decreases |ops|
  {
    if ops == [] then (m, [])
    else
      var (m1, reply) := Apply(m, ops[0]);
      var (m2, replies) := Run(m1, ops[1..]);
      (m2, [reply] + replies)
  }

  class MemoryStore {
    var data: Store

    constructor ()
      ensures data == map[]
    {
      data := map[];
    }

    method Register(run: Record)
      modifies this
      ensures (data, Done) == Apply(old(data), TestCases.Register(run))
    {
      var key := RecordKey(run.ref, run.testId);
      if key in data {
        var existing := data[key];
        if !Finalized(existing) {
          if existing.verifyUrl == "" && run.verifyUrl != "" {
            existing := existing.(verifyUrl := run.verifyUrl);
          }
          if existing.authToken == "" && run.authToken != "" {
            existing := existing.(authToken := run.authToken);
          }
          if run.triggeredAt < existing.triggeredAt {
            existing := existing.(triggeredAt := run.triggeredAt);
          }
          if run.timeout > existing.timeout {
            existing := existing.(timeout := run.timeout);
          }
          if existing.inceptionPoint == "" {
            existing := existing.(inceptionPoint := run.inceptionPoint);
          }
          data := data[key := existing];
        }
      } else {
        data := data[key := run];
      }
    }

    method Get(ref: string, testId: string) returns (record: Option<Record>)
      ensures (data, Found(record)) == Apply(data, TestCases.Get(ref, testId))
    {
      var key := RecordKey(ref, testId);
      record := if key in data then Some(data[key]) else None;
    }

    method SetVerdict(ref: string, testId: string, passed: bool, message: Option<string>) returns (found: bool)
      modifies this
      ensures (data, if found then Done else NotFound) == Apply(old(data), TestCases.SetVerdict(ref, testId, passed, message))
    {
      var key := RecordKey(ref, testId);
      if key in data {
        var run := data[key];
        if !Pending(run) {
          return false;
        }
        run := run.(verdict := Some(passed));
        run := run.(failure := message);
        run := run.(status := if passed then Passed else Failed);
        data := data[key := run];
        return true;
      }
      return false;
    }

    method MarkTimedOut(ref: string, testId: string) returns (found: bool)
      modifies this
      ensures (data, if found then Done else NotFound) == Apply(old(data), TestCases.MarkTimedOut(ref, testId))
    {
      var key := RecordKey(ref, testId);
      if key in data {
        var run := data[key];
        if !Pending(run) {
          return false;
        }
        run := run.(status := TimedOut);
        run := run.(verdict := None);
        data := data[key := run];
        return true;
      }
      return false;
    }

    method DecrementRetries(ref: string, testId: string) returns (r: Result<Option<int>, ()>)
      modifies this
      ensures (data, if r.Ok? then Remaining(r.value) else NotFound) == Apply(old(data), TestCases.DecrementRetries(ref, testId))
    {
      var key := RecordKey(ref, testId);
      if key in data {
        var run := data[key];
        if !Pending(run) {
          return Ok(None);
        }
        if run.retries > 0 {
          run := run.(retries := run.retries - 1);
          data := data[key := run];
          return Ok(Some(run.retries));
        }
        return Ok(None);
      }
      return Err(());
    }

    method ListPending() returns (records: set<Record>)
      ensures (data, Records(records)) == Apply(data, TestCases.ListPending)
    {
      records := set k | k in data && Pending(data[k]) :: data[k];
    }

    /** counts, counts_for_mode and counts_for_runs: the loop sees the records in any order. */
    method CountCases(ref: string, only: Option<Mode>) returns (counts: Counts)
      ensures (data, Counted(counts)) == Apply(data, TestCases.CountCases(ref, only))
    {
      counts := Counts(0, 0, 0, 0);
      var rest := data.Keys;
      assert data.Keys - rest == {};
      while rest != {}
        invariant rest <= data.Keys
        invariant counts == Tally(data, data.Keys - rest, ref, only)
        decreases rest
      {
        var k :| k in rest;
        TallyOneMore(data, data.Keys - rest, k, ref, only);
        assert data.Keys - (rest - {k}) == (data.Keys - rest) + {k};
        rest := rest - {k};
        if Selected(data[k], ref, only) {
          match data[k].status {
            case Passed => counts := counts.(passed := counts.passed + 1);
            case Failed => counts := counts.(failed := counts.failed + 1);
            case TimedOut => counts := counts.(timedOut := counts.timedOut + 1);
            case _ => counts := counts.(pending := counts.pending + 1);
          }
        }
      }
      assert data.Keys - rest == data.Keys;
    }

    method CleanupBlueGreen(ref: string) returns (removed: nat)
      modifies this
      ensures (data, Removed(removed)) == Apply(old(data), TestCases.CleanupBlueGreen(ref))
    {
      var before := |data|;
      ghost var keep := OtherRefs(data, ref);
      RetainCounts(data, keep);
      data := map k | k in data && data[k].ref != ref :: data[k];
      assert data == Retain(old(data), keep).0;
      removed := before - |data|;
    }

    method CleanupExpired(now: Time) returns (removed: nat)
      modifies this
      ensures (data, Removed(removed)) == Apply(old(data), TestCases.CleanupExpired(now))
    {
      var before := |data|;
      ghost var keep := Unexpired(data, now);
      RetainCounts(data, keep);
      data := map k | k in data && !(Pending(data[k]) && ExpiresAt(data[k]) < now) :: data[k];
      assert data == Retain(old(data), keep).0;
      removed := before - |data|;
    }
  }

  /** What a count request counts: the cases of the reference, and of the mode if one is asked for, by status. */
  lemma TallyCounts(m: Store, ref: string, only: Option<Mode>)
    ensures
      var counts := Tally(m, m.Keys, ref, only);
      && counts.passed == |set k | k in m && Selected(m[k], ref, only) && m[k].status == Passed|
      && counts.failed == |set k | k in m && Selected(m[k], ref, only) && m[k].status == Failed|
      && counts.timedOut == |set k | k in m && Selected(m[k], ref, only) && m[k].status == TimedOut|
      && counts.pending == |set k | k in m && Selected(m[k], ref, only) && Pending(m[k])|
  {
    assert Having(m, m.Keys, ref, only, {Passed}) == set k | k in m && Selected(m[k], ref, only) && m[k].status == Passed;
    assert Having(m, m.Keys, ref, only, {Failed}) == set k | k in m && Selected(m[k], ref, only) && m[k].status == Failed;
    assert Having(m, m.Keys, ref, only, {TimedOut}) == set k | k in m && Selected(m[k], ref, only) && m[k].status == TimedOut;
    assert Having(m, m.Keys, ref, only, {Triggered, Observing}) == set k | k in m && Selected(m[k], ref, only) && Pending(m[k]);
  }

  lemma RetainCounts(m: Store, keep: set<string>)
    requires keep <= m.Keys
    ensures |Retain(m, keep).0| == |m| - |m.Keys - keep|
  {
    assert m.Keys == keep + (m.Keys - keep);
    assert Retain(m, keep).0.Keys == keep;
  }

  lemma HavingOneMore(m: Store, keys: set<string>, k: string, ref: string, only: Option<Mode>, which: set<Status>)
    requires k in m && k !in keys
    ensures |Having(m, keys + {k}, ref, only, which)|
            == |Having(m, keys, ref, only, which)| + if Selected(m[k], ref, only) && m[k].status in which then 1 else 0
  {
    if Selected(m[k], ref, only) && m[k].status in which {
      assert Having(m, keys + {k}, ref, only, which) == Having(m, keys, ref, only, which) + {k};
    } else {
      assert Having(m, keys + {k}, ref, only, which) == Having(m, keys, ref, only, which);
    }
  }

  /** Counting one more record raises the number of its own status and no other. */
  lemma TallyOneMore(m: Store, keys: set<string>, k: string, ref: string, only: Option<Mode>)
    requires k in m && k !in keys
    ensures var was, now := Tally(m, keys, ref, only), Tally(m, keys + {k}, ref, only);
            var counts := Selected(m[k], ref, only);
            && now.passed == was.passed + (if counts && m[k].status == Passed then 1 else 0)
            && now.failed == was.failed + (if counts && m[k].status == Failed then 1 else 0)
            && now.timedOut == was.timedOut + (if counts && m[k].status == TimedOut then 1 else 0)
            && now.pending == was.pending + (if counts && Pending(m[k]) then 1 else 0)
  {
    HavingOneMore(m, keys, k, ref, only, {Passed});
    HavingOneMore(m, keys, k, ref, only, {Failed});
    HavingOneMore(m, keys, k, ref, only, {TimedOut});
    HavingOneMore(m, keys, k, ref, only, {Triggered, Observing});
  }
}
