/** Deadlines of merged registrations, and what the timed clean-ups make of them. */
module StoreExpiry {
  import opened Wrappers
  import opened TestCases
  import opened StoreAgreement
  import Mem = MemoryStores
  import Sql = PostgresStores

  /** The SQL clean-up deletes only open cases, and none before its own deadline. */
  lemma {:induction false} CleanupNeverEarly(t: Sql.Table, ops: seq<Op>, now: Time, k: Sql.Key)
    requires ColumnCovers(t)
    requires forall i | 0 <= i < |ops| :: ops[i].Register? ==> FitsColumn(ops[i].run.timeout)
    requires k in RunSql(t, ops).0 && k !in Sql.Apply(RunSql(t, ops).0, CleanupExpired(now)).0
    ensures ExpiresAt(Sql.ToRecord(k, RunSql(t, ops).0[k])) < now && Pending(Sql.ToRecord(k, RunSql(t, ops).0[k]))
    decreases |ops|
  {
    if ops != [] {
      ColumnKept(t, ops[0]);
      CleanupNeverEarly(Sql.Apply(t, ops[0]).0, ops[1..], now, k);
    } else {
      assert Sql.ToMicros(now) <= now;
    }
  }

  // ---------------------------------------------------------------- registrations of one case

  function Registrations(runs: seq<Record>): seq<Op> {
    seq(|runs|, i requires 0 <= i < |runs| => Register(runs[i]))
  }

  /** The row after registering one case with each of `runs`. */
  function Registered(runs: seq<Record>): Sql.Row
    requires runs != []
  {
    if |runs| == 1 then Sql.ToRow(runs[0]) else Sql.MergeRow(Registered(runs[..|runs| - 1]), Sql.ToRow(runs[|runs| - 1]))
  }

  predicate OneCase(runs: seq<Record>, k: Sql.Key) {
    && runs != [] && Pending(runs[0])
    && forall i | 0 <= i < |runs| :: (runs[i].ref, runs[i].testId) == k
  }

  lemma {:induction false} RunSqlMore(t: Sql.Table, ops: seq<Op>, op: Op)
    ensures RunSql(t, ops + [op]).0 == Sql.Apply(RunSql(t, ops).0, op).0
    decreases |ops|
  {
    if ops == [] {
      assert [op][1..] == [];
    } else {
      assert (ops + [op])[1..] == ops[1..] + [op];
      RunSqlMore(Sql.Apply(t, ops[0]).0, ops[1..], op);
    }
  }

  /** Registering the case with each of `runs` leaves exactly that row. */
  lemma {:induction false} RegisteredRow(runs: seq<Record>, k: Sql.Key)
    requires OneCase(runs, k)
    ensures RunSql(map[], Registrations(runs)).0 == map[k := Registered(runs)]
    ensures Registered(runs).status == runs[0].status
  {
    var n := |runs| - 1;
    assert Registrations(runs) == Registrations(runs[..n]) + [Register(runs[n])];
    RunSqlMore(map[], Registrations(runs[..n]), Register(runs[n]));
    if n > 0 {
      RegisteredRow(runs[..n], k);
    } else {
      assert Registrations(runs[..0]) == [];
    }
  }

  /** `x` is the least trigger time of `runs`. */
  ghost predicate LeastTrigger(runs: seq<Record>, x: Time) {
    (forall i | 0 <= i < |runs| :: x <= runs[i].triggeredAt) && exists i | 0 <= i < |runs| :: x == runs[i].triggeredAt
  }

  ghost predicate GreatestTimeout(runs: seq<Record>, x: int) {
    (forall i | 0 <= i < |runs| :: x >= runs[i].timeout) && exists i | 0 <= i < |runs| :: x == runs[i].timeout
  }

  ghost predicate GreatestDeadline(runs: seq<Record>, x: Time) {
    (forall i | 0 <= i < |runs| :: x >= ExpiresAt(runs[i])) && exists i | 0 <= i < |runs| :: x == ExpiresAt(runs[i])
  }

  lemma {:induction false} LeastTriggerMerges(runs: seq<Record>) returns (x: Time)
    requires runs != []
    ensures LeastTrigger(runs, x) && Registered(runs).triggeredAt == Sql.ToMicros(x)
  {
    var n := |runs| - 1;
    if n == 0 {
      x := runs[0].triggeredAt;
    } else {
      var y := LeastTriggerMerges(runs[..n]);
      var i :| 0 <= i < n && y == runs[..n][i].triggeredAt;
      assert runs[i].triggeredAt == y;
      assert forall j | 0 <= j < n :: runs[j] == runs[..n][j];
      x := if y <= runs[n].triggeredAt then y else runs[n].triggeredAt;
      MicrosMonotone(y, runs[n].triggeredAt);
    }
  }

  lemma MicrosMonotone(a: Time, b: Time)
    ensures a <= b ==> Sql.ToMicros(a) <= Sql.ToMicros(b)
    ensures b <= a ==> Sql.ToMicros(b) <= Sql.ToMicros(a)
  {
  }

  lemma {:induction false} GreatestTimeoutMerges(runs: seq<Record>)
    requires runs != [] && forall i | 0 <= i < |runs| :: FitsColumn(runs[i].timeout)
    ensures GreatestTimeout(runs, Registered(runs).timeoutSeconds * SECOND)
  {
    var n := |runs| - 1;
    TimeoutSurvives(runs[n].timeout);
    if n > 0 {
      GreatestTimeoutMerges(runs[..n]);
      var x := Registered(runs[..n]).timeoutSeconds * SECOND;
      var i :| 0 <= i < n && x == runs[..n][i].timeout;
      assert runs[i].timeout == x;
      assert forall j | 0 <= j < n :: runs[j] == runs[..n][j];
    } else {
      assert Registered(runs).timeoutSeconds * SECOND == runs[0].timeout;
    }
  }

  lemma {:induction false} GreatestDeadlineMerges(runs: seq<Record>) returns (x: Time)
    requires runs != []
    ensures GreatestDeadline(runs, x) && Registered(runs).expiresAt == Sql.ToMicros(x)
  {
    var n := |runs| - 1;
    if n == 0 {
      x := ExpiresAt(runs[0]);
    } else {
      var y := GreatestDeadlineMerges(runs[..n]);
      var i :| 0 <= i < n && y == ExpiresAt(runs[..n][i]);
      assert ExpiresAt(runs[i]) == y;
      assert forall j | 0 <= j < n :: runs[j] == runs[..n][j];
      x := if y >= ExpiresAt(runs[n]) then y else ExpiresAt(runs[n]);
      MicrosMonotone(y, ExpiresAt(runs[n]));
    }
  }

  /** Whatever the order of the registrations of one pending case, the table then has the least
      trigger time and the greatest timeout, and in the column the greatest single deadline, rounded;
      with trigger times in whole microseconds the map has the same record. */
  lemma RegistrationsMerge(runs: seq<Record>, k: Sql.Key) returns (trigger: Time, deadline: Time)
    requires OneCase(runs, k) && forall i | 0 <= i < |runs| :: FitsColumn(runs[i].timeout)
    ensures LeastTrigger(runs, trigger) && GreatestDeadline(runs, deadline)
    ensures
      var t := RunSql(map[], Registrations(runs)).0;
      && t.Keys == {k} && t[k].triggeredAt == Sql.ToMicros(trigger)
      && GreatestTimeout(runs, t[k].timeoutSeconds * SECOND) && t[k].expiresAt == Sql.ToMicros(deadline)
    ensures
      (forall i | 0 <= i < |runs| :: Proper(Register(runs[i]))) ==>
        var m := Mem.Run(map[], Registrations(runs)).0;
        && KeyText(k) in m && m[KeyText(k)].triggeredAt == trigger && GreatestTimeout(runs, m[KeyText(k)].timeout)
  {
    RegisteredRow(runs, k);
    trigger := LeastTriggerMerges(runs);
    GreatestTimeoutMerges(runs);
    deadline := GreatestDeadlineMerges(runs);
    if forall i | 0 <= i < |runs| :: Proper(Register(runs[i])) {
      NothingTimed(map[], Registrations(runs));
      StoresStayAgreed(map[], map[], Registrations(runs));
      var i :| 0 <= i < |runs| && trigger == runs[i].triggeredAt;
      assert Proper(Register(runs[i]));
      assert k in RunSql(map[], Registrations(runs)).0;
    }
  }

  lemma {:induction false} NothingTimed(t: Sql.Table, ops: seq<Op>)
    requires forall i | 0 <= i < |ops| :: !ops[i].CleanupExpired?
    ensures NoneLagsThrough(t, ops)
    decreases |ops|
  {
    if ops != [] {
      NothingTimed(Sql.Apply(t, ops[0]).0, ops[1..]);
    }
  }

  // ---------------------------------------------------------------- when clean-ups agree

  /** Every case was registered at one trigger time of its own, and its column is its deadline. */
  ghost predicate Sharp(t: Sql.Table, at: Sql.Key -> Time) {
    forall k | k in t :: t[k].triggeredAt == at(k) && t[k].expiresAt == ExpiresAt(Sql.ToRecord(k, t[k]))
  }

  /** All registrations of a case carry one trigger time, and clean-ups run at whole microseconds. */
  predicate Timely(op: Op, at: Sql.Key -> Time) {
    && Proper(op)
    && (op.Register? ==> op.run.triggeredAt == at((op.run.ref, op.run.testId)))
    && (op.CleanupExpired? ==> WholeMicros(op.now))
  }

  lemma RegisterStaysSharp(t: Sql.Table, run: Record, at: Sql.Key -> Time)
    requires Sharp(t, at) && Timely(Register(run), at)
    ensures Sharp(Sql.Apply(t, Register(run)).0, at)
  {
    TimeoutSurvives(run.timeout);
    MicrosShift(run.triggeredAt, run.timeout);
  }

  lemma OthersStaySharp(t: Sql.Table, op: Op, at: Sql.Key -> Time)
    requires Sharp(t, at) && !op.Register?
    ensures Sharp(Sql.Apply(t, op).0, at)
  {
  }

  /** Then at no clean-up a case lags, so the stores agree through all of it. */
  lemma {:induction false} TimelyNeverLags(t: Sql.Table, ops: seq<Op>, at: Sql.Key -> Time)
    requires Sharp(t, at) && forall i | 0 <= i < |ops| :: Timely(ops[i], at)
    ensures NoneLagsThrough(t, ops)
    decreases |ops|
  {
    if ops != [] {
      if ops[0].Register? {
        RegisterStaysSharp(t, ops[0].run, at);
      } else {
        OthersStaySharp(t, ops[0], at);
      }
      TimelyNeverLags(Sql.Apply(t, ops[0]).0, ops[1..], at);
    }
  }

  /** A caller's condition for full agreement, timed clean-ups included. */
  lemma TimelySequencesAgree(ops: seq<Op>, at: Sql.Key -> Time, i: nat)
    requires i < |ops| && forall j | 0 <= j < |ops| :: Timely(ops[j], at)
    ensures Mem.Run(map[], ops).1[i] == RunSql(map[], ops).1[i] <==> !MissingDecrement(RunSql(map[], ops[..i]).0, ops[i])
    ensures Agree(Mem.Run(map[], ops).0, RunSql(map[], ops).0)
  {
    TimelyNeverLags(map[], ops, at);
    AnswersAgreeIff(map[], map[], ops, i);
    StoresStayAgreed(map[], map[], ops);
  }

  lemma OneLeast(runs: seq<Record>, x: Time, y: Time)
    requires LeastTrigger(runs, x) && LeastTrigger(runs, y)
    ensures x == y
  {
  }

  lemma OneGreatest(runs: seq<Record>, x: int, y: int)
    requires GreatestTimeout(runs, x) && GreatestTimeout(runs, y)
    ensures x == y
  {
  }

  lemma DeadlineLags(t: Sql.Table, k: Sql.Key, own: Time, column: Time)
    requires k in t && Sql.Open(t[k]) && ExpiresAt(Sql.ToRecord(k, t[k])) == own && t[k].expiresAt == column
    requires WholeMicros(column)
    ensures (exists now :: WholeMicros(now) && Lags(t, k, now)) <==> column > own
  {
    if column > own {
      assert WholeMicros(column) && Lags(t, k, column);
    }
  }

  /** The merged row of one case, from the least trigger time and the greatest timeout. */
  lemma MergedRow(runs: seq<Record>, k: Sql.Key, trigger: Time, timeout: int) returns (deadline: Time)
    requires OneCase(runs, k) && forall i | 0 <= i < |runs| :: FitsColumn(runs[i].timeout) && WholeMicros(runs[i].triggeredAt)
    requires LeastTrigger(runs, trigger) && GreatestTimeout(runs, timeout)
    ensures GreatestDeadline(runs, deadline) && WholeMicros(deadline)
    ensures
      var row := Registered(runs);
      && Sql.Open(row) && row.expiresAt == deadline && ExpiresAt(Sql.ToRecord(k, row)) == trigger + timeout
  {
    RegisteredRow(runs, k);
    var least := LeastTriggerMerges(runs);
    OneLeast(runs, trigger, least);
    GreatestTimeoutMerges(runs);
    OneGreatest(runs, timeout, Registered(runs).timeoutSeconds * SECOND);
    deadline := GreatestDeadlineMerges(runs);
    DeadlineWhole(runs, deadline);
  }

  lemma DeadlineWhole(runs: seq<Record>, deadline: Time)
    requires GreatestDeadline(runs, deadline)
    requires forall i | 0 <= i < |runs| :: FitsColumn(runs[i].timeout) && WholeMicros(runs[i].triggeredAt)
    ensures WholeMicros(deadline)
  {
    var i :| 0 <= i < |runs| && deadline == ExpiresAt(runs[i]);
    MicrosShift(runs[i].triggeredAt, runs[i].timeout);
  }

  /** After registrations of one case the two clean-ups can disagree, at some whole microsecond,
      exactly when a single deadline is later than the least trigger time plus the greatest timeout. */
  lemma RegistrationsLagIff(runs: seq<Record>, k: Sql.Key, trigger: Time, timeout: int)
    requires OneCase(runs, k) && forall i | 0 <= i < |runs| :: FitsColumn(runs[i].timeout) && WholeMicros(runs[i].triggeredAt)
    requires LeastTrigger(runs, trigger) && GreatestTimeout(runs, timeout)
    ensures
      var t := RunSql(map[], Registrations(runs)).0;
      (exists now :: WholeMicros(now) && Lags(t, k, now)) <==> exists i :: 0 <= i < |runs| && ExpiresAt(runs[i]) > trigger + timeout
  {
    var deadline := MergedRow(runs, k, trigger, timeout);
    RegisteredRow(runs, k);
    DeadlineLags(RunSql(map[], Registrations(runs)).0, k, trigger + timeout, deadline);
    LaterThan(runs, deadline, trigger + timeout);
  }

  lemma LaterThan(runs: seq<Record>, deadline: Time, own: Time)
    requires GreatestDeadline(runs, deadline)
    ensures deadline > own <==> exists i :: 0 <= i < |runs| && ExpiresAt(runs[i]) > own
  {
    var i :| 0 <= i < |runs| && deadline == ExpiresAt(runs[i]);
  }
}
