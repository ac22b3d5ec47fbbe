/** The map and the SQL table give the same answers; and exactly when they do not. */
module StoreAgreement {
  import opened Wrappers
  import opened TestCases
  import Mem = MemoryStores
  import Sql = PostgresStores

  /** A reference without the separator that the map's keys use. */
  predicate Clean(ref: string) {
    Mem.UNIT_SEPARATOR !in ref
  }

  function KeyText(k: Sql.Key): string {
    Mem.RecordKey(k.0, k.1)
  }

  /** For clean references the map's keys are as good as the primary key. */
  lemma KeysDistinct(k: Sql.Key, l: Sql.Key)
    requires Clean(k.0) && Clean(l.0) && KeyText(k) == KeyText(l)
    ensures k == l
  {
    var x := KeyText(k);
    assert x[|k.0|] == Mem.UNIT_SEPARATOR && x[|l.0|] == Mem.UNIT_SEPARATOR;
    assert forall i | 0 <= i < |k.0| :: x[i] == k.0[i];
    assert forall i | 0 <= i < |l.0| :: x[i] == l.0[i];
    assert |k.0| == |l.0|;
    assert k.0 == x[..|k.0|] == l.0;
    assert k.1 == x[|k.0| + 1..] == l.1;
  }

  /** `a` and the separator begin `b`. */
  predicate Begins(a: string, b: string) {
    a + [Mem.UNIT_SEPARATOR] <= b
  }

  /** Two references share a key of the map, for some test ids, exactly when one of them and the
      separator begin the other. */
  lemma KeysCollideIff(a: string, b: string)
    requires a != b
    ensures (exists i, j :: KeyText((a, i)) == KeyText((b, j))) <==> Begins(a, b) || Begins(b, a)
  {
    var u := [Mem.UNIT_SEPARATOR];
    forall i, j | KeyText((a, i)) == KeyText((b, j))
      ensures Begins(a, b) || Begins(b, a)
    {
      PrefixOfOther(a, i, b, j);
    }
    if Begins(a, b) {
      var rest := b[|a| + 1..];
      assert a + u + (rest + u) == b + u + [];
      assert KeyText((a, rest + u)) == KeyText((b, []));
    } else if Begins(b, a) {
      var rest := a[|b| + 1..];
      assert b + u + (rest + u) == a + u + [];
      assert KeyText((a, [])) == KeyText((b, rest + u));
    }
  }

  lemma PrefixOfOther(a: string, i: string, b: string, j: string)
    requires a != b && KeyText((a, i)) == KeyText((b, j))
    ensures Begins(a, b) || Begins(b, a)
  {
    var u := [Mem.UNIT_SEPARATOR];
    var x := KeyText((a, i));
    assert x[..|a|] == a && x[..|b|] == b;
    if |a| < |b| {
      assert x[..|a| + 1] == a + u;
      assert x[..|b|][..|a| + 1] == x[..|a| + 1];
    } else {
      assert |b| < |a|;
      assert x[..|b| + 1] == b + u;
      assert x[..|a|][..|b| + 1] == x[..|b| + 1];
    }
  }

  /** A duration comes back from the timeout_seconds column unchanged exactly when it is a whole
      number of seconds within 32 bits. */
  lemma TimeoutSurvives(d: int)
    ensures Sql.ToI32(Sql.NumSeconds(d)) * SECOND == d
            <==> d % SECOND == 0 && -0x8000_0000 * SECOND <= d <= 0x7fff_ffff * SECOND
  {
    var n := Sql.NumSeconds(d);
    if d % SECOND == 0 {
      assert n * SECOND == d;
      assert Sql.ToI32(n) == n <==> -0x8000_0000 <= n <= 0x7fff_ffff;
    } else {
      var i := Sql.ToI32(n);
      assert i * SECOND % SECOND == 0;
    }
  }

  lemma SecondsAreCut(d: int)
    ensures d >= 0 ==> Sql.NumSeconds(d) * SECOND <= d < Sql.NumSeconds(d) * SECOND + SECOND
    ensures d < 0 ==> Sql.NumSeconds(d) * SECOND - SECOND < d <= Sql.NumSeconds(d) * SECOND
  {
  }

  lemma LowBits(n: int)
    ensures -0x8000_0000 <= Sql.ToI32(n) <= 0x7fff_ffff && (Sql.ToI32(n) - n) % 0x1_0000_0000 == 0
  {
  }

  /** Beyond that, a timeout is cut to whole seconds towards zero, of which the low 32 bits are kept, and an
      instant down to the whole microsecond. */
  lemma TimesAreCut(d: int, t: Time)
    ensures d >= 0 ==> Sql.NumSeconds(d) * SECOND <= d < Sql.NumSeconds(d) * SECOND + SECOND
    ensures d < 0 ==> Sql.NumSeconds(d) * SECOND - SECOND < d <= Sql.NumSeconds(d) * SECOND
    ensures -0x8000_0000 <= Sql.ToI32(d) <= 0x7fff_ffff && (Sql.ToI32(d) - d) % 0x1_0000_0000 == 0
    ensures WholeMicros(Sql.ToMicros(t)) && Sql.ToMicros(t) <= t < Sql.ToMicros(t) + 1_000
  {
    SecondsAreCut(d);
    LowBits(d);
  }

  /** A record comes back from its row unchanged exactly when its timeout survives and its trigger
      time is a whole number of microseconds. */
  lemma RecordSurvives(run: Record)
    ensures Sql.ToRecord((run.ref, run.testId), Sql.ToRow(run)) == run
            <==> FitsColumn(run.timeout) && WholeMicros(run.triggeredAt)
  {
    TimeoutSurvives(run.timeout);
  }

  predicate WholeMicros(t: Time) {
    t % MICRO == 0
  }

  /** A timeout that fits moves an instant by whole microseconds. */
  lemma MicrosShift(t: Time, d: int)
    requires FitsColumn(d)
    ensures Sql.ToMicros(t + d) == Sql.ToMicros(t) + d
  {
    var q := d / SECOND * 1_000_000;
    assert d == q * MICRO;
    assert (t + q * MICRO) / MICRO == t / MICRO + q;
  }

  predicate FitsColumn(d: int) {
    d % SECOND == 0 && -0x8000_0000 * SECOND <= d <= 0x7fff_ffff * SECOND
  }

  ghost predicate Agree(m: Mem.Store, t: Sql.Table) {
    && (forall k | k in t :: Clean(k.0) && KeyText(k) in m && m[KeyText(k)] == Sql.ToRecord(k, t[k]))
    && (forall x {:trigger HasRow(t, x)} | x in m :: HasRow(t, x))
  }

  lemma RowOf(m: Mem.Store, t: Sql.Table, x: string) returns (k: Sql.Key)
    requires Agree(m, t) && x in m
    ensures k in t && KeyText(k) == x && m[x] == Sql.ToRecord(k, t[k])
  {
    assert HasRow(t, x);
    k :| k in t && KeyText(k) == x;
  }

  ghost predicate HasRow(t: Sql.Table, x: string) {
    exists k :: k in t && KeyText(k) == x
  }

  /** Clean references, and registrations whose times fit the columns. */
  predicate Proper(op: Op) {
    match op
    case Register(run) => Clean(run.ref) && FitsColumn(run.timeout) && WholeMicros(run.triggeredAt)
    case Get(ref, _) => Clean(ref)
    case SetVerdict(ref, _, _, _) => Clean(ref)
    case MarkTimedOut(ref, _) => Clean(ref)
    case DecrementRetries(ref, _) => Clean(ref)
    case CountCases(ref, _) => Clean(ref)
    case _ => true
  }

  lemma InBoth(m: Mem.Store, t: Sql.Table, k: Sql.Key)
    requires Agree(m, t) && Clean(k.0)
    ensures KeyText(k) in m <==> k in t
  {
    if KeyText(k) in m {
      var l := RowOf(m, t, KeyText(k));
      KeysDistinct(k, l);
    }
  }

  /** Writing matching values under one clean key keeps the agreement. */
  lemma PutKeeps(m: Mem.Store, t: Sql.Table, k: Sql.Key, r: Record, row: Sql.Row)
    requires Agree(m, t) && Clean(k.0) && r == Sql.ToRecord(k, row)
    ensures Agree(m[KeyText(k) := r], t[k := row])
  {
    var m', t' := m[KeyText(k) := r], t[k := row];
    forall l | l in t'
      ensures Clean(l.0) && KeyText(l) in m' && m'[KeyText(l)] == Sql.ToRecord(l, t'[l])
    {
      if l != k && KeyText(l) == KeyText(k) {
        KeysDistinct(k, l);
      }
    }
    forall x | x in m'
      ensures HasRow(t', x)
    {
      if x == KeyText(k) {
        assert k in t';
      } else {
        var l := RowOf(m, t, x);
        assert l in t';
      }
    }
  }

  lemma MergeAgrees(k: Sql.Key, row: Sql.Row, run: Record)
    requires k == (run.ref, run.testId) && FitsColumn(run.timeout) && WholeMicros(run.triggeredAt)
    ensures Merge(Sql.ToRecord(k, row), run) == Sql.ToRecord(k, Sql.MergeRow(row, Sql.ToRow(run)))
  {
    TimeoutSurvives(run.timeout);
  }

  lemma RegisterAgrees(m: Mem.Store, t: Sql.Table, run: Record)
    requires Agree(m, t) && Proper(Register(run))
    ensures Agree(Mem.DoRegister(m, run).0, Sql.DoRegister(t, (run.ref, run.testId), Sql.ToRow(run)).0)
    ensures Mem.DoRegister(m, run).1 == Sql.DoRegister(t, (run.ref, run.testId), Sql.ToRow(run)).1
  {
    var k := (run.ref, run.testId);
    InBoth(m, t, k);
    TimeoutSurvives(run.timeout);
    if k !in t {
      PutKeeps(m, t, k, run, Sql.ToRow(run));
    } else if Sql.Open(t[k]) {
      MergeAgrees(k, t[k], run);
      PutKeeps(m, t, k, Merge(m[KeyText(k)], run), Sql.MergeRow(t[k], Sql.ToRow(run)));
    }
  }

  function Texts(ks: set<Sql.Key>): set<string> {
    set k | k in ks :: KeyText(k)
  }

  lemma {:induction false} SameSize(ks: set<Sql.Key>)
    requires forall k | k in ks :: Clean(k.0)
    ensures |Texts(ks)| == |ks|
  {
    if ks != {} {
      var k :| k in ks;
      SameSize(ks - {k});
      if KeyText(k) in Texts(ks - {k}) {
        var l :| l in ks - {k} && KeyText(l) == KeyText(k);
        KeysDistinct(k, l);
      }
      assert Texts(ks) == Texts(ks - {k}) + {KeyText(k)};
    }
  }

  lemma HavingAgrees(m: Mem.Store, t: Sql.Table, ref: string, only: Option<Mode>, which: set<Status>)
    requires Agree(m, t)
    ensures |Mem.Having(m, m.Keys, ref, only, which)| == |Sql.Having(t, ref, only, which)|
  {
    var ks := Sql.Having(t, ref, only, which);
    forall x | x in Mem.Having(m, m.Keys, ref, only, which)
      ensures x in Texts(ks)
    {
      var k := RowOf(m, t, x);
      assert k in ks;
    }
    assert Texts(ks) == Mem.Having(m, m.Keys, ref, only, which);
    SameSize(ks);
  }

  lemma CountsAgree(m: Mem.Store, t: Sql.Table, ref: string, only: Option<Mode>)
    requires Agree(m, t)
    ensures Mem.Tally(m, m.Keys, ref, only) == Sql.Tally(t, ref, only)
  {
    HavingAgrees(m, t, ref, only, {Passed});
    HavingAgrees(m, t, ref, only, {Failed});
    HavingAgrees(m, t, ref, only, {TimedOut});
    HavingAgrees(m, t, ref, only, {Triggered, Observing});
  }

  /** Keeping matching keys on both sides keeps the agreement and removes the same number. */
  lemma KeepAgrees(m: Mem.Store, t: Sql.Table, keepM: set<string>, keepT: set<Sql.Key>)
    requires Agree(m, t) && keepM <= m.Keys && keepT <= t.Keys
    requires forall k | k in t :: k in keepT <==> KeyText(k) in keepM
    ensures Agree(Mem.Retain(m, keepM).0, Sql.Delete(t, keepT).0)
    ensures Mem.Retain(m, keepM).1 == Sql.Delete(t, keepT).1
  {
    forall x | x in keepM
      ensures HasRow(Sql.Delete(t, keepT).0, x)
    {
      var k := RowOf(m, t, x);
      assert k in Sql.Delete(t, keepT).0;
    }
    forall x | x in m.Keys - keepM
      ensures x in Texts(t.Keys - keepT)
    {
      var k := RowOf(m, t, x);
      assert k in t.Keys - keepT;
    }
    assert Texts(t.Keys - keepT) == m.Keys - keepM;
    SameSize(t.Keys - keepT);
  }

  lemma PendingAgree(m: Mem.Store, t: Sql.Table)
    requires Agree(m, t)
    ensures Mem.PendingRecords(m) == Sql.OpenRecords(t)
  {
    forall r | r in Mem.PendingRecords(m)
      ensures r in Sql.OpenRecords(t)
    {
      var x :| x in m && Pending(m[x]) && m[x] == r;
      var k := RowOf(m, t, x);
      assert Sql.Open(t[k]) && Sql.ToRecord(k, t[k]) == r;
    }
    forall r | r in Sql.OpenRecords(t)
      ensures r in Mem.PendingRecords(m)
    {
      var k :| k in t && Sql.Open(t[k]) && Sql.ToRecord(k, t[k]) == r;
      assert KeyText(k) in m && Pending(m[KeyText(k)]);
    }
  }

  lemma RefsAgree(m: Mem.Store, t: Sql.Table)
    requires Agree(m, t)
    ensures Mem.AllRefs(m) == Sql.AllRefs(t)
  {
    forall ref | ref in Mem.AllRefs(m)
      ensures ref in Sql.AllRefs(t)
    {
      var x :| x in m && m[x].ref == ref;
      var k := RowOf(m, t, x);
      assert k.0 == ref;
    }
    forall ref | ref in Sql.AllRefs(t)
      ensures ref in Mem.AllRefs(m)
    {
      var k :| k in t && k.0 == ref;
      assert m[KeyText(k)].ref == ref;
    }
  }

  lemma GetAgrees(m: Mem.Store, t: Sql.Table, ref: string, id: string)
    requires Agree(m, t) && Clean(ref)
    ensures Mem.Apply(m, Get(ref, id)).1 == Sql.Apply(t, Get(ref, id)).1
  {
    InBoth(m, t, (ref, id));
  }

  lemma VerdictAgrees(m: Mem.Store, t: Sql.Table, ref: string, id: string, passed: bool, message: Option<string>)
    requires Agree(m, t) && Clean(ref)
    ensures var (m', t') := (Mem.DoVerdict(m, Mem.RecordKey(ref, id), passed, message), Sql.DoVerdict(t, (ref, id), passed, message));
            Agree(m'.0, t'.0) && m'.1 == t'.1
  {
    var k := (ref, id);
    InBoth(m, t, k);
    if k in t && Sql.Open(t[k]) {
      PutKeeps(m, t, k, WithVerdict(m[KeyText(k)], passed, message),
               t[k].(status := if passed then Passed else Failed, verdict := Some(passed), failure := message));
    }
  }

  lemma TimedOutAgrees(m: Mem.Store, t: Sql.Table, ref: string, id: string)
    requires Agree(m, t) && Clean(ref)
    ensures var (m', t') := (Mem.DoTimeout(m, Mem.RecordKey(ref, id)), Sql.DoTimeout(t, (ref, id)));
            Agree(m'.0, t'.0) && m'.1 == t'.1
  {
    var k := (ref, id);
    InBoth(m, t, k);
    if k in t && Sql.Open(t[k]) {
      PutKeeps(m, t, k, WithTimeout(m[KeyText(k)]), t[k].(status := TimedOut, verdict := None));
    }
  }

  /** decrement_retries agrees exactly on existing cases: for a missing one the map answers NotFound
      and the table None. */
  lemma DecrementAgrees(m: Mem.Store, t: Sql.Table, ref: string, id: string)
    requires Agree(m, t) && Clean(ref)
    ensures var (m', t') := (Mem.DoDecrement(m, Mem.RecordKey(ref, id)), Sql.DoDecrement(t, (ref, id)));
            Agree(m'.0, t'.0) && (m'.1 == t'.1 <==> (ref, id) in t)
  {
    var k := (ref, id);
    InBoth(m, t, k);
    if k in t && Sql.Open(t[k]) && t[k].retries > 0 {
      PutKeeps(m, t, k, WithRetry(m[KeyText(k)]), t[k].(retries := t[k].retries - 1));
    }
  }

  /** An operation on one case. */
  predicate OnCase(op: Op) {
    op.Register? || op.Get? || op.SetVerdict? || op.MarkTimedOut? || op.DecrementRetries?
  }

  ghost predicate SameEffect(m: Mem.Store, t: Sql.Table, op: Op) {
    && Agree(Mem.Apply(m, op).0, Sql.Apply(t, op).0)
    && Mem.Apply(m, op).1 == Sql.Apply(t, op).1
  }

  lemma CaseStepAgrees(m: Mem.Store, t: Sql.Table, op: Op)
    requires Agree(m, t) && Proper(op) && OnCase(op)
    requires op.DecrementRetries? ==> (op.ref, op.testId) in t
    ensures SameEffect(m, t, op)
  {
    match op {
      case Register(run) => RegisterAgrees(m, t, run);
      case Get(ref, id) => GetAgrees(m, t, ref, id);
      case SetVerdict(ref, id, passed, message) => VerdictAgrees(m, t, ref, id, passed, message);
      case MarkTimedOut(ref, id) => TimedOutAgrees(m, t, ref, id);
      case DecrementRetries(ref, id) => DecrementAgrees(m, t, ref, id);
    }
  }

  lemma WholeStepAgrees(m: Mem.Store, t: Sql.Table, op: Op)
    requires Agree(m, t) && Proper(op) && !OnCase(op) && !op.CleanupExpired?
    ensures SameEffect(m, t, op)
  {
    match op {
      case ListPending => PendingAgree(m, t);
      case ListRefs => RefsAgree(m, t);
      case CountCases(ref, only) => CountsAgree(m, t, ref, only);
      case CleanupBlueGreen(ref) => KeepAgrees(m, t, Mem.OtherRefs(m, ref), Sql.OtherRefs(t, ref));
    }
  }

  // ---------------------------------------------------------------- the timed clean-up

  /** The column is never earlier than the case's own deadline. */
  ghost predicate ColumnCovers(t: Sql.Table) {
    forall k | k in t :: t[k].expiresAt >= ExpiresAt(Sql.ToRecord(k, t[k]))
  }

  lemma RegisterKeepsColumn(t: Sql.Table, run: Record)
    requires ColumnCovers(t) && FitsColumn(run.timeout)
    ensures ColumnCovers(Sql.DoRegister(t, (run.ref, run.testId), Sql.ToRow(run)).0)
  {
    TimeoutSurvives(run.timeout);
    MicrosShift(run.triggeredAt, run.timeout);
  }

  lemma DeletesKeepColumn(t: Sql.Table, keep: set<Sql.Key>)
    requires ColumnCovers(t) && keep <= t.Keys
    ensures ColumnCovers(Sql.Delete(t, keep).0)
  {
  }

  lemma UpdatesKeepColumn(t: Sql.Table, op: Op)
    requires ColumnCovers(t) && !op.Register? && !op.CleanupExpired? && !op.CleanupBlueGreen?
    ensures ColumnCovers(Sql.Apply(t, op).0)
  {
  }

  lemma ColumnKept(t: Sql.Table, op: Op)
    requires ColumnCovers(t) && (op.Register? ==> FitsColumn(op.run.timeout))
    ensures ColumnCovers(Sql.Apply(t, op).0)
  {
    match op {
      case Register(run) => RegisterKeepsColumn(t, run);
      case CleanupBlueGreen(ref) => DeletesKeepColumn(t, Sql.OtherRefs(t, ref));
      case CleanupExpired(now) => DeletesKeepColumn(t, Sql.Unexpired(t, now));
      case _ => UpdatesKeepColumn(t, op);
    }
  }

  /** An open case whose own deadline has passed, but whose column has not. */
  predicate Lags(t: Sql.Table, k: Sql.Key, now: Time) {
    k in t && Sql.Open(t[k]) && ExpiresAt(Sql.ToRecord(k, t[k])) < now && !Sql.Overdue(t[k], now)
  }

  ghost predicate NoneLags(t: Sql.Table, now: Time) {
    forall k | k in t :: !Lags(t, k, now)
  }

  lemma KeptAlike(m: Mem.Store, t: Sql.Table, k: Sql.Key, now: Time)
    requires Agree(m, t) && ColumnCovers(t) && k in t
    ensures k in Sql.Unexpired(t, now) <==> KeyText(k) in Mem.Unexpired(m, now) || Lags(t, k, now)
    ensures KeyText(k) in Mem.Unexpired(m, now) ==> !Lags(t, k, now)
  {
    assert Sql.ToMicros(now) <= now;
    assert m[KeyText(k)] == Sql.ToRecord(k, t[k]);
  }

  ghost predicate SameCleanup(m: Mem.Store, t: Sql.Table, now: Time) {
    && Agree(Mem.Retain(m, Mem.Unexpired(m, now)).0, Sql.Delete(t, Sql.Unexpired(t, now)).0)
    && Mem.Retain(m, Mem.Unexpired(m, now)).1 == Sql.Delete(t, Sql.Unexpired(t, now)).1
  }

  lemma CleanupIs(m: Mem.Store, t: Sql.Table, now: Time)
    ensures SameEffect(m, t, CleanupExpired(now)) == SameCleanup(m, t, now)
  {
  }

  lemma CleanupAgrees(m: Mem.Store, t: Sql.Table, now: Time)
    requires Agree(m, t) && ColumnCovers(t) && NoneLags(t, now)
    ensures SameCleanup(m, t, now)
  {
    forall k | k in t
      ensures k in Sql.Unexpired(t, now) <==> KeyText(k) in Mem.Unexpired(m, now)
    {
      KeptAlike(m, t, k, now);
    }
    KeepAgrees(m, t, Mem.Unexpired(m, now), Sql.Unexpired(t, now));
  }

  lemma LaggingStays(m: Mem.Store, t: Sql.Table, k: Sql.Key, now: Time)
    requires Lags(t, k, now) && KeyText(k) in m && m[KeyText(k)] == Sql.ToRecord(k, t[k])
    ensures !SameCleanup(m, t, now)
  {
    assert KeyText(k) !in Mem.Unexpired(m, now) && k in Sql.Unexpired(t, now);
    StaysApart(Mem.Retain(m, Mem.Unexpired(m, now)).0, Sql.Delete(t, Sql.Unexpired(t, now)).0, k);
  }

  lemma StaysApart(m: Mem.Store, t: Sql.Table, k: Sql.Key)
    requires k in t && KeyText(k) !in m
    ensures !Agree(m, t)
  {
  }

  /** The timed clean-up has the same effect on both stores exactly when no open case lags. */
  lemma CleanupAgreesIff(m: Mem.Store, t: Sql.Table, now: Time)
    requires Agree(m, t) && ColumnCovers(t)
    ensures SameEffect(m, t, CleanupExpired(now)) <==> NoneLags(t, now)
  {
    CleanupIs(m, t, now);
    if NoneLags(t, now) {
      CleanupAgrees(m, t, now);
    } else {
      var k :| k in t && Lags(t, k, now);
      LaggingStays(m, t, k, now);
    }
  }

  // ---------------------------------------------------------------- steps and sequences

  /** A retry decrement of a case that does not exist. */
  predicate MissingDecrement(t: Sql.Table, op: Op) {
    op.DecrementRetries? && (op.ref, op.testId) !in t
  }

  /** One proper operation has the same answer and keeps the agreement exactly when it is neither a
      decrement of a missing case nor a timed clean-up past a lagging one. */
  lemma StepAgreesIff(m: Mem.Store, t: Sql.Table, op: Op)
    requires Agree(m, t) && ColumnCovers(t) && Proper(op)
    ensures SameEffect(m, t, op) <==> !MissingDecrement(t, op) && (op.CleanupExpired? ==> NoneLags(t, op.now))
  {
    if op.DecrementRetries? {
      DecrementAgrees(m, t, op.ref, op.testId);
    } else if op.CleanupExpired? {
      CleanupAgreesIff(m, t, op.now);
    } else if OnCase(op) {
      CaseStepAgrees(m, t, op);
    } else {
      WholeStepAgrees(m, t, op);
    }
  }

  function RunSql(t: Sql.Table, ops: seq<Op>): (r: (Sql.Table, seq<Reply>))
    ensures |r.1| == |ops|
    decreases |ops|
  {
    if ops == [] then (t, [])
    else
      var (t1, reply) := Sql.Apply(t, ops[0]);
      var (t2, replies) := RunSql(t1, ops[1..]);
      (t2, [reply] + replies)
  }

  /** At no timed clean-up of the sequence an open case lags. */
  ghost predicate NoneLagsThrough(t: Sql.Table, ops: seq<Op>)
    decreases |ops|
  {
    ops != [] ==>
      && (ops[0].CleanupExpired? ==> NoneLags(t, ops[0].now))
      && NoneLagsThrough(Sql.Apply(t, ops[0]).0, ops[1..])
  }

  lemma StepStaysAgreed(m: Mem.Store, t: Sql.Table, op: Op)
    requires Agree(m, t) && ColumnCovers(t) && Proper(op) && (op.CleanupExpired? ==> NoneLags(t, op.now))
    ensures Agree(Mem.Apply(m, op).0, Sql.Apply(t, op).0) && ColumnCovers(Sql.Apply(t, op).0)
    ensures Mem.Apply(m, op).1 == Sql.Apply(t, op).1 <==> !MissingDecrement(t, op)
  {
    StepAgreesIff(m, t, op);
    ColumnKept(t, op);
    if op.DecrementRetries? {
      DecrementAgrees(m, t, op.ref, op.testId);
    }
  }

  /** After any sequence of proper operations the stores agree. */
  lemma {:induction false} StoresStayAgreed(m: Mem.Store, t: Sql.Table, ops: seq<Op>)
    requires Agree(m, t) && ColumnCovers(t)
    requires (forall i | 0 <= i < |ops| :: Proper(ops[i])) && NoneLagsThrough(t, ops)
    ensures Agree(Mem.Run(m, ops).0, RunSql(t, ops).0)
    decreases |ops|
  {
    if ops != [] {
      StepStaysAgreed(m, t, ops[0]);
      StoresStayAgreed(Mem.Apply(m, ops[0]).0, Sql.Apply(t, ops[0]).0, ops[1..]);
    }
  }

  /** Its i-th answers are equal exactly unless it is then a decrement of a missing case. */
  lemma {:induction false} AnswersAgreeIff(m: Mem.Store, t: Sql.Table, ops: seq<Op>, i: nat)
    requires Agree(m, t) && ColumnCovers(t) && i < |ops|
    requires (forall j | 0 <= j < |ops| :: Proper(ops[j])) && NoneLagsThrough(t, ops)
    ensures Mem.Run(m, ops).1[i] == RunSql(t, ops).1[i] <==> !MissingDecrement(RunSql(t, ops[..i]).0, ops[i])
    decreases |ops|
  {
    StepStaysAgreed(m, t, ops[0]);
    if i > 0 {
      assert ops[..i][1..] == ops[1..][..i - 1];
      AnswersAgreeIff(Mem.Apply(m, ops[0]).0, Sql.Apply(t, ops[0]).0, ops[1..], i - 1);
    } else {
      assert ops[..0] == [];
    }
  }

  /** From two empty stores any sequence of proper operations without decrements of missing cases is
      answered alike. */
  lemma SequencesAgree(ops: seq<Op>)
    requires (forall i | 0 <= i < |ops| :: Proper(ops[i])) && NoneLagsThrough(map[], ops)
    requires forall i | 0 <= i < |ops| :: !MissingDecrement(RunSql(map[], ops[..i]).0, ops[i])
    ensures Mem.Run(map[], ops).1 == RunSql(map[], ops).1
  {
    forall i | 0 <= i < |ops|
      ensures Mem.Run(map[], ops).1[i] == RunSql(map[], ops).1[i]
    {
      AnswersAgreeIff(map[], map[], ops, i);
    }
  }

  // ---------------------------------------------------------------- rounded trigger times

  function Rounded(op: Op): Op {
    if op.Register? then Register(op.run.(triggeredAt := Sql.ToMicros(op.run.triggeredAt))) else op
  }

  function RoundedAll(ops: seq<Op>): seq<Op> {
    seq(|ops|, i requires 0 <= i < |ops| => Rounded(ops[i]))
  }

  /** The table cannot tell a registration from the one with its trigger time rounded. */
  lemma RoundedStep(t: Sql.Table, op: Op)
    requires op.Register? ==> FitsColumn(op.run.timeout)
    ensures Sql.Apply(t, op) == Sql.Apply(t, Rounded(op))
  {
    if op.Register? {
      MicrosShift(op.run.triggeredAt, op.run.timeout);
      MicrosShift(Sql.ToMicros(op.run.triggeredAt), op.run.timeout);
      assert Sql.ToRow(op.run) == Sql.ToRow(Rounded(op).run);
    }
  }

  /** On real clocks: the table answers as the map does on the same sequence with every trigger time
      rounded to the microsecond. */
  lemma {:induction false} TableIsRoundedMap(t: Sql.Table, ops: seq<Op>)
    requires forall i | 0 <= i < |ops| :: ops[i].Register? ==> FitsColumn(ops[i].run.timeout)
    ensures RunSql(t, ops) == RunSql(t, RoundedAll(ops))
    decreases |ops|
  {
    if ops != [] {
      RoundedStep(t, ops[0]);
      TableIsRoundedMap(Sql.Apply(t, ops[0]).0, ops[1..]);
      assert RoundedAll(ops)[1..] == RoundedAll(ops[1..]);
    }
  }

  lemma RoundedLength(ops: seq<Op>)
    ensures |RoundedAll(ops)| == |ops| && forall j | 0 <= j < |ops| :: RoundedAll(ops)[j] == Rounded(ops[j])
  {
  }

  lemma RoundedPrefix(ops: seq<Op>, i: nat)
    requires i <= |ops| && forall j | 0 <= j < |ops| :: ops[j].Register? ==> FitsColumn(ops[j].run.timeout)
    ensures RunSql(map[], ops[..i]) == RunSql(map[], RoundedAll(ops)[..i])
  {
    TableIsRoundedMap(map[], ops[..i]);
    assert RoundedAll(ops)[..i] == RoundedAll(ops[..i]);
  }

  /** So the map, given rounded trigger times, and the table, given the clock's, answer alike. */
  lemma RoundedSequencesAgree(ops: seq<Op>, i: nat)
    requires i < |ops| && NoneLagsThrough(map[], RoundedAll(ops))
    requires forall j | 0 <= j < |ops| :: Proper(Rounded(ops[j]))
    ensures Mem.Run(map[], RoundedAll(ops)).1[i] == RunSql(map[], ops).1[i]
            <==> !MissingDecrement(RunSql(map[], ops[..i]).0, ops[i])
  {
    RoundedLength(ops);
    forall j | 0 <= j < |ops|
      ensures ops[j].Register? ==> FitsColumn(ops[j].run.timeout)
      ensures Proper(RoundedAll(ops)[j])
    {
      assert Proper(Rounded(ops[j]));
    }
    RoundedPrefix(ops, i);
    TableIsRoundedMap(map[], ops);
    RoundedAnswers(ops, RoundedAll(ops), i);
  }

  lemma RoundedAnswers(ops: seq<Op>, rounded: seq<Op>, i: nat)
    requires i < |ops| == |rounded| && rounded[i] == Rounded(ops[i])
    requires (forall j | 0 <= j < |rounded| :: Proper(rounded[j])) && NoneLagsThrough(map[], rounded)
    requires RunSql(map[], ops[..i]) == RunSql(map[], rounded[..i]) && RunSql(map[], ops) == RunSql(map[], rounded)
    ensures Mem.Run(map[], rounded).1[i] == RunSql(map[], ops).1[i] <==> !MissingDecrement(RunSql(map[], ops[..i]).0, ops[i])
  {
    AnswersAgreeIff(map[], map[], rounded, i);
  }
}
