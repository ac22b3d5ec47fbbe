/** The SQL store: one table with primary key (blue_green_ref, test_id), each operation one
    statement. */
module PostgresStores {
  import opened Wrappers
  import opened TestCases

  datatype Row = Row(
    triggeredAt: Time,
    inceptionPoint: string,
    timeoutSeconds: int,
    status: Status,
    verdict: Option<bool>,
    mode: Mode,
    verifyUrl: string,
    authToken: string,
    retries: int,
    failure: Option<string>,
    expiresAt: Time)

  type Key = (string, string)
  type Table = map<Key, Row>

  /** An instant as a column keeps it, in whole microseconds. */
  function ToMicros(t: Time): Time {
    t / MICRO * MICRO
  }

  /** Whole seconds of a duration, rounded toward zero. */
  function NumSeconds(duration: int): int {
    if duration >= 0 then duration / SECOND else -(-duration / SECOND)
  }

  /** The cast to a 32-bit column. */
  function ToI32(n: int): int {
    (n + 0x8000_0000) % 0x1_0000_0000 - 0x8000_0000
  }

  function ToRow(run: Record): Row {
    Row(ToMicros(run.triggeredAt), run.inceptionPoint, ToI32(NumSeconds(run.timeout)), run.status, run.verdict, run.mode,
        run.verifyUrl, run.authToken, run.retries, run.failure, ToMicros(ExpiresAt(run)))
  }

  function ToRecord(key: Key, row: Row): Record {
    Record(key.0, key.1, row.triggeredAt, row.inceptionPoint, row.timeoutSeconds * SECOND, row.status, row.verdict,
           row.mode, row.verifyUrl, row.authToken, row.retries, row.failure)
  }

  predicate Open(row: Row) {
    row.status == Triggered || row.status == Observing
  }

  function Least(a: int, b: int): int {
    if a <= b then a else b
  }

  function Greatest(a: int, b: int): int {
    if a >= b then a else b
  }

  /** ON CONFLICT DO UPDATE. */
  function MergeRow(row: Row, excluded: Row): Row {
    row.(
      triggeredAt := Least(row.triggeredAt, excluded.triggeredAt),
      timeoutSeconds := Greatest(row.timeoutSeconds, excluded.timeoutSeconds),
      inceptionPoint := if row.inceptionPoint == "" then excluded.inceptionPoint else row.inceptionPoint,
      verifyUrl := if row.verifyUrl == "" then excluded.verifyUrl else row.verifyUrl,
      authToken := if row.authToken == "" then excluded.authToken else row.authToken,
      expiresAt := Greatest(row.expiresAt, excluded.expiresAt))
  }

  function Having(t: Table, ref: string, only: Option<Mode>, which: set<Status>): set<Key> {
    set k | k in t && k.0 == ref && (only.None? || t[k].mode == only.value) && t[k].status in which
  }

  function Tally(t: Table, ref: string, only: Option<Mode>): Counts {
    Counts(
      |Having(t, ref, only, {Passed})|,
      |Having(t, ref, only, {Failed})|,
      |Having(t, ref, only, {TimedOut})|,
      |Having(t, ref, only, {Triggered, Observing})|)
  }

  function Delete(t: Table, keep: set<Key>): (Table, Reply)
    requires keep <= t.Keys
  {
    (map k | k in keep :: t[k], Removed(|t.Keys - keep|))
  }

  function DoRegister(t: Table, key: Key, excluded: Row): (Table, Reply) {
    if key !in t then (t[key := excluded], Done)
    else if Open(t[key]) then (t[key := MergeRow(t[key], excluded)], Done)
    else (t, Done)
  }

  function DoVerdict(t: Table, key: Key, passed: bool, message: Option<string>): (Table, Reply) {
    if key in t && Open(t[key]) then
      (t[key := t[key].(status := if passed then Passed else Failed, verdict := Some(passed), failure := message)], Done)
    else (t, NotFound)
  }

  function DoTimeout(t: Table, key: Key): (Table, Reply) {
    if key in t && Open(t[key]) then (t[key := t[key].(status := TimedOut, verdict := None)], Done) else (t, NotFound)
  }

  function DoDecrement(t: Table, key: Key): (Table, Reply) {
    if key in t && Open(t[key]) && t[key].retries > 0 then
      (t[key := t[key].(retries := t[key].retries - 1)], Remaining(Some(t[key].retries - 1)))
    else (t, Remaining(None))
  }

  function OpenRecords(t: Table): set<Record> {
    set k | k in t && Open(t[k]) :: ToRecord(k, t[k])
  }

  function AllRefs(t: Table): set<string> {
    set k | k in t :: k.0
  }

  function OtherRefs(t: Table, ref: string): set<Key> {
    set k | k in t && k.0 != ref
  }

  /** NOW() reads the same clock in microseconds. */
  predicate Overdue(row: Row, now: Time) {
    Open(row) && row.expiresAt < ToMicros(now)
  }

  function Unexpired(t: Table, now: Time): set<Key> {
    set k | k in t && !Overdue(t[k], now)
  }

  /** What one statement does to the table and answers. */
  function Apply(t: Table, op: Op): (Table, Reply) {
    match op
    case Register(run) => DoRegister(t, (run.ref, run.testId), ToRow(run))
    case Get(ref, id) => (t, Found(if (ref, id) in t then Some(ToRecord((ref, id), t[(ref, id)])) else None))
    case SetVerdict(ref, id, passed, message) => DoVerdict(t, (ref, id), passed, message)
    case MarkTimedOut(ref, id) => DoTimeout(t, (ref, id))
    case DecrementRetries(ref, id) => DoDecrement(t, (ref, id))
    case ListPending => (t, Records(OpenRecords(t)))
    case ListRefs => (t, Refs(AllRefs(t)))
    case CountCases(ref, only) => (t, Counted(Tally(t, ref, only)))
    case CleanupBlueGreen(ref) => Delete(t, OtherRefs(t, ref))
    case CleanupExpired(now) => Delete(t, Unexpired(t, now))
  }

  // ---------------------------------------------------------------- the statements

  datatype Entry = Entry(key: Key, row: Row)

  function TableOf(rows: seq<Entry>): Table {
    if rows == [] then map[]
    else
      var last := rows[|rows| - 1];
      TableOf(rows[..|rows| - 1])[last.key := last.row]
  }

  /** The primary key holds. */
  predicate KeysUnique(rows: seq<Entry>) {
    rows == [] || (KeysUnique(rows[..|rows| - 1]) && rows[|rows| - 1].key !in TableOf(rows[..|rows| - 1]))
  }

  lemma {:induction false} EntryAt(rows: seq<Entry>, i: nat)
    requires KeysUnique(rows) && i < |rows|
    ensures rows[i].key in TableOf(rows) && TableOf(rows)[rows[i].key] == rows[i].row
  {
    if i < |rows| - 1 {
      EntryAt(rows[..|rows| - 1], i);
    }
  }

  lemma {:induction false} PrefixUnique(rows: seq<Entry>, i: nat)
    requires KeysUnique(rows) && i < |rows|
    ensures KeysUnique(rows[..i]) && rows[i].key !in TableOf(rows[..i])
  {
    if i < |rows| - 1 {
      PrefixUnique(rows[..|rows| - 1], i);
      assert rows[..|rows| - 1][..i] == rows[..i];
    }
  }

  /** Changing one row is one update of the table. */
  lemma {:induction false} SetIs(rows: seq<Entry>, i: nat, row: Row)
    requires KeysUnique(rows) && i < |rows|
    ensures
      var rows' := rows[i := Entry(rows[i].key, row)];
      KeysUnique(rows') && TableOf(rows') == TableOf(rows)[rows[i].key := row]
  {
    var n := |rows| - 1;
    var rows' := rows[i := Entry(rows[i].key, row)];
    if i < n {
      SetIs(rows[..n], i, row);
      EntryAt(rows[..n], i);
      assert rows'[..n] == rows[..n][i := Entry(rows[i].key, row)];
    } else {
      assert rows'[..n] == rows[..n];
    }
  }

  lemma AppendIs(rows: seq<Entry>, e: Entry)
    requires KeysUnique(rows) && e.key !in TableOf(rows)
    ensures KeysUnique(rows + [e]) && TableOf(rows + [e]) == TableOf(rows)[e.key := e.row]
  {
    assert (rows + [e])[..|rows|] == rows;
  }

  /** The rows of `t` with the given keys. */
  function Restricted(t: Table, keep: set<Key>): Table {
    map k | k in t && k in keep :: t[k]
  }

  lemma RestrictedMore(done: Table, e: Entry, keep: set<Key>)
    requires e.key !in done
    ensures Restricted(done[e.key := e.row], keep) ==
            if e.key in keep then Restricted(done, keep)[e.key := e.row] else Restricted(done, keep)
  {
  }

  lemma GoneMore(done: set<Key>, key: Key, keep: set<Key>)
    requires key !in done
    ensures |(done + {key}) - keep| == |done - keep| + if key in keep then 0 else 1
  {
    if key in keep {
      assert (done + {key}) - keep == done - keep;
    } else {
      assert (done + {key}) - keep == (done - keep) + {key};
    }
  }

  /** One more row scanned, and kept. */
  lemma KeepStep(kept: seq<Entry>, done: Table, e: Entry, keep: set<Key>)
    requires KeysUnique(kept) && TableOf(kept) == Restricted(done, keep) && e.key !in done && e.key in keep
    ensures KeysUnique(kept + [e]) && TableOf(kept + [e]) == Restricted(done[e.key := e.row], keep)
  {
    RestrictedMore(done, e, keep);
    AppendIs(kept, e);
  }

  function Kept(rows: seq<Entry>, test: Entry -> bool): seq<Entry> {
    if rows == [] then []
    else
      var last := rows[|rows| - 1];
      Kept(rows[..|rows| - 1], test) + if test(last) then [] else [last]
  }

  /** Deleting by a test restricts the table to the keys that fail it. */
  lemma {:induction false} KeptIs(rows: seq<Entry>, test: Entry -> bool, keep: set<Key>)
    requires KeysUnique(rows)
    requires forall i | 0 <= i < |rows| :: test(rows[i]) <==> rows[i].key !in keep
    ensures KeysUnique(Kept(rows, test)) && TableOf(Kept(rows, test)) == Restricted(TableOf(rows), keep)
    ensures |rows| - |Kept(rows, test)| == |TableOf(rows).Keys - keep|
  {
    if rows == [] {
      assert TableOf(rows).Keys - keep == {};
    } else {
      var e, before := rows[|rows| - 1], rows[..|rows| - 1];
      KeptIs(before, test, keep);
      GoneMore(TableOf(before).Keys, e.key, keep);
      assert TableOf(rows).Keys == TableOf(before).Keys + {e.key};
      assert test(rows[|rows| - 1]) <==> e.key !in keep;
      if test(e) {
        RestrictedMore(TableOf(before), e, keep);
        assert Kept(rows, test) == Kept(before, test);
      } else {
        KeepStep(Kept(before, test), TableOf(before), e, keep);
        assert Kept(rows, test) == Kept(before, test) + [e];
      }
    }
  }

  /** The table as a list of rows; every statement scans it. */
  class PostgresStore {
    var rows: seq<Entry>

    constructor ()
      ensures Valid() && Contents() == map[]
    {
      rows := [];
    }

    predicate Valid()
      reads this
    {
      KeysUnique(rows)
    }

    function Contents(): Table
      reads this
    {
      TableOf(rows)
    }

    /** The scan for a primary key. */
    method IndexOf(key: Key) returns (i: nat)
      requires Valid()
      ensures i <= |rows| && (i < |rows| <==> key in Contents())
      ensures i < |rows| ==> rows[i].key == key && rows[i].row == Contents()[key]
    {
      i := 0;
      while i < |rows| && rows[i].key != key
        invariant 0 <= i <= |rows| && key !in TableOf(rows[..i])
      {
        assert rows[..i + 1][..i] == rows[..i];
        i := i + 1;
      }
      if i < |rows| {
        EntryAt(rows, i);
      } else {
        assert rows[..i] == rows;
      }
    }

    /** An UPDATE whose WHERE names a primary key: at most one row is affected. */
    method UpdateWhere(key: Key, test: Row -> bool, change: Row -> Row) returns (rowsAffected: nat)
      requires Valid()
      modifies this
      ensures Valid()
      ensures rowsAffected == if key in old(Contents()) && test(old(Contents())[key]) then 1 else 0
      ensures Contents() == if rowsAffected == 1 then old(Contents())[key := change(old(Contents())[key])] else old(Contents())
    {
      var i := IndexOf(key);
      if i < |rows| && test(rows[i].row) {
        SetIs(rows, i, change(rows[i].row));
        rows := rows[i := Entry(key, change(rows[i].row))];
        return 1;
      }
      return 0;
    }

    /** The scan of a DELETE. */
    method DeleteWhere(test: Entry -> bool, ghost keep: set<Key>) returns (rowsAffected: nat)
      requires Valid()
      requires forall i | 0 <= i < |rows| :: test(rows[i]) <==> rows[i].key !in keep
      modifies this
      ensures Valid() && Contents() == Restricted(old(Contents()), keep)
      ensures rowsAffected == |old(Contents()).Keys - keep|
    {
      rowsAffected := 0;
      var kept := [];
      var i := 0;
      while i < |rows|
        invariant 0 <= i <= |rows|
        invariant kept == Kept(rows[..i], test) && rowsAffected == i - |kept|
      {
        assert rows[..i + 1][..i] == rows[..i];
        if test(rows[i]) {
          rowsAffected := rowsAffected + 1;
        } else {
          kept := kept + [rows[i]];
        }
        i := i + 1;
      }
      assert rows[..i] == rows;
      KeptIs(rows, test, keep);
      rows := kept;
    }

    /** INSERT ... ON CONFLICT DO UPDATE ... WHERE status IN ('Triggered', 'Observing'). */
    method Register(run: Record)
      requires Valid()
      modifies this
      ensures Valid() && (Contents(), Done) == Apply(old(Contents()), TestCases.Register(run))
    {
      var key, excluded := (run.ref, run.testId), ToRow(run);
      var i := IndexOf(key);
      if i == |rows| {
        AppendIs(rows, Entry(key, excluded));
        rows := rows + [Entry(key, excluded)];
      } else if Open(rows[i].row) {
        var merged := MergeRow(rows[i].row, excluded);
        SetIs(rows, i, merged);
        rows := rows[i := Entry(key, merged)];
      }
    }

    /** UPDATE ... SET status, verdict, failure_message; no row affected means not found. */
    method SetVerdict(ref: string, testId: string, passed: bool, message: Option<string>) returns (found: bool)
      requires Valid()
      modifies this
      ensures Valid() && (Contents(), if found then Done else NotFound) == Apply(old(Contents()), TestCases.SetVerdict(ref, testId, passed, message))
    {
      var status := if passed then Passed else Failed;
      var rowsAffected := UpdateWhere((ref, testId), Open, (row: Row) => row.(status := status, verdict := Some(passed), failure := message));
      found := rowsAffected != 0;
    }

    method MarkTimedOut(ref: string, testId: string) returns (found: bool)
      requires Valid()
      modifies this
      ensures Valid() && (Contents(), if found then Done else NotFound) == Apply(old(Contents()), TestCases.MarkTimedOut(ref, testId))
    {
      var rowsAffected := UpdateWhere((ref, testId), Open, (row: Row) => row.(status := TimedOut, verdict := None));
      found := rowsAffected != 0;
    }

    /** UPDATE ... WHERE retries_remaining > 0 RETURNING retries_remaining. */
    method DecrementRetries(ref: string, testId: string) returns (remaining: Option<int>)
      requires Valid()
      modifies this
      ensures Valid() && (Contents(), Remaining(remaining)) == Apply(old(Contents()), TestCases.DecrementRetries(ref, testId))
    {
      var rowsAffected := UpdateWhere((ref, testId), (row: Row) => Open(row) && row.retries > 0, (row: Row) => row.(retries := row.retries - 1));
      if rowsAffected == 0 {
        return None;
      }
      var i := IndexOf((ref, testId));
      return Some(rows[i].row.retries);
    }

    /** DELETE ... WHERE expires_at < NOW() AND status IN ('Triggered', 'Observing'). */
    method CleanupExpired(now: Time) returns (removed: nat)
      requires Valid()
      modifies this
      ensures Valid() && (Contents(), Removed(removed)) == Apply(old(Contents()), TestCases.CleanupExpired(now))
    {
      ghost var keep := Unexpired(Contents(), now);
      forall i | 0 <= i < |rows| { EntryAt(rows, i); }
      removed := DeleteWhere((e: Entry) => Overdue(e.row, now), keep);
      assert Contents() == Delete(old(Contents()), keep).0;
    }

    /** DELETE ... WHERE blue_green_ref = $1. */
    method CleanupBlueGreen(ref: string) returns (removed: nat)
      requires Valid()
      modifies this
      ensures Valid() && (Contents(), Removed(removed)) == Apply(old(Contents()), TestCases.CleanupBlueGreen(ref))
    {
      ghost var keep := OtherRefs(Contents(), ref);
      forall i | 0 <= i < |rows| { EntryAt(rows, i); }
      removed := DeleteWhere((e: Entry) => e.key.0 == ref, keep);
      assert Contents() == Delete(old(Contents()), keep).0;
    }
  }
}
