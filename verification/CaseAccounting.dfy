/** What every sequence of store operations keeps. Since each operation of the map is atomic, any
    interleaving of the API and the tracker is such a sequence. */
module CaseAccounting {
  import opened Wrappers
  import opened TestCases
  import opened MemoryStores
  import StoreAgreement

  /** The verdict says what the status says. */
  predicate VerdictMatches(r: Record) {
    r.verdict == if r.status == Passed then Some(true) else if r.status == Failed then Some(false) else None
  }

  ghost predicate WellKept(m: Store) {
    forall k | k in m :: k == RecordKey(m[k].ref, m[k].testId) && VerdictMatches(m[k])
  }

  /** A registration as the HTTP API builds it. */
  predicate ApiShaped(op: Op) {
    op.Register? ==> op.run.status == Triggered && op.run.verdict == None && op.run.failure == None
  }

  lemma StepWellKept(m: Store, op: Op)
    requires WellKept(m) && ApiShaped(op)
    ensures WellKept(Apply(m, op).0)
  {
  }

  /** Under API-shaped registrations verdict and status always match. */
  lemma {:induction false} RunWellKept(m: Store, ops: seq<Op>)
    requires WellKept(m) && forall i | 0 <= i < |ops| :: ApiShaped(ops[i])
    ensures WellKept(Run(m, ops).0)
    decreases |ops|
  {
    if ops != [] {
      StepWellKept(m, ops[0]);
      RunWellKept(Apply(m, ops[0]).0, ops[1..]);
    }
  }

  /** A finalised case is never changed, whatever is done, until its reference is cleaned up. */
  lemma {:induction false} FinalizedNeverChanges(m: Store, ops: seq<Op>, key: string)
    requires key in m && Finalized(m[key])
    requires forall i | 0 <= i < |ops| :: ops[i] != CleanupBlueGreen(m[key].ref)
    ensures key in Run(m, ops).0 && Run(m, ops).0[key] == m[key]
    decreases |ops|
  {
    if ops != [] {
      FinalizedNeverChanges(Apply(m, ops[0]).0, ops[1..], key);
    }
  }

  /** Registering a pending case once more keeps the earlier trigger time and the longer timeout, fills in what
      was empty, and changes nothing else; a finalised one stays, and a missing one is stored as it is. */
  lemma RegisteredAgain(m: Store, run: Record)
    ensures
      var key := RecordKey(run.ref, run.testId);
      var m' := Apply(m, Register(run)).0;
      && m'.Keys == m.Keys + {key} && (forall k | k in m && k != key :: m'[k] == m[k])
      && (key !in m ==> m'[key] == run)
      && (key in m && Finalized(m[key]) ==> m'[key] == m[key])
      && (key in m && !Finalized(m[key]) ==>
            var r, r' := m[key], m'[key];
            && (r'.triggeredAt == r.triggeredAt <= run.triggeredAt || r'.triggeredAt == run.triggeredAt < r.triggeredAt)
            && (r'.timeout == r.timeout >= run.timeout || r'.timeout == run.timeout > r.timeout)
            && (r.verifyUrl != "" ==> r'.verifyUrl == r.verifyUrl) && (r.verifyUrl == "" ==> r'.verifyUrl == run.verifyUrl)
            && (r.authToken != "" ==> r'.authToken == r.authToken) && (r.authToken == "" ==> r'.authToken == run.authToken)
            && (r.inceptionPoint != "" ==> r'.inceptionPoint == r.inceptionPoint)
            && (r.inceptionPoint == "" ==> r'.inceptionPoint == run.inceptionPoint)
            && r' == r.(triggeredAt := r'.triggeredAt, timeout := r'.timeout, verifyUrl := r'.verifyUrl,
                        authToken := r'.authToken, inceptionPoint := r'.inceptionPoint))
  {
  }

  /** The operation that finalises the case under `key`. */
  predicate Finalises(op: Op, key: string) {
    (op.SetVerdict? || op.MarkTimedOut?) && RecordKey(op.ref, op.testId) == key
  }

  /** How often the operations finalise the case under `key` with success. */
  function Finalisations(m: Store, ops: seq<Op>, key: string): nat
    decreases |ops|
  {
    if ops == [] then 0
    else
      (if Finalises(ops[0], key) && Apply(m, ops[0]).1 == Done then 1 else 0)
      + Finalisations(Apply(m, ops[0]).0, ops[1..], key)
  }

  /** The operation removes the case under `key` with all cases of its reference. */
  predicate Cleans(m: Store, op: Op, key: string) {
    op.CleanupBlueGreen? && key in m && m[key].ref == op.ref
  }

  /** No operation of the sequence cleans the case away; other references may be cleaned. */
  predicate NeverCleaned(m: Store, ops: seq<Op>, key: string)
    decreases |ops|
  {
    ops != [] ==> !Cleans(m, ops[0], key) && NeverCleaned(Apply(m, ops[0]).0, ops[1..], key)
  }

  /** Without the separator in any reference. */
  predicate CleanRefs(m: Store) {
    forall k | k in m :: StoreAgreement.Clean(m[k].ref)
  }

  lemma StepCleanRefs(m: Store, op: Op)
    requires CleanRefs(m) && (op.Register? ==> StoreAgreement.Clean(op.run.ref))
    ensures CleanRefs(Apply(m, op).0)
  {
  }

  /** A case is never cleaned by operations that do not clean its own reference. */
  lemma {:induction false} OtherReferencesNeverClean(m: Store, ops: seq<Op>, ref: string, id: string)
    requires WellKept(m) && CleanRefs(m) && StoreAgreement.Clean(ref)
    requires forall i | 0 <= i < |ops| :: ApiShaped(ops[i]) && (ops[i].Register? ==> StoreAgreement.Clean(ops[i].run.ref))
    requires forall i | 0 <= i < |ops| :: ops[i] != CleanupBlueGreen(ref)
    ensures NeverCleaned(m, ops, RecordKey(ref, id))
    decreases |ops|
  {
    if ops != [] {
      var key := RecordKey(ref, id);
      if key in m {
        StoreAgreement.KeysDistinct((ref, id), (m[key].ref, m[key].testId));
      }
      StepWellKept(m, ops[0]);
      StepCleanRefs(m, ops[0]);
      OtherReferencesNeverClean(Apply(m, ops[0]).0, ops[1..], ref, id);
    }
  }

  lemma FinaliseStep(m: Store, op: Op, key: string)
    requires !Cleans(m, op, key)
    ensures var m' := Apply(m, op).0;
            && (key in m && Finalized(m[key]) ==> key in m' && Finalized(m'[key]))
            && (Finalises(op, key) && Apply(m, op).1 == Done ==> key in m && Pending(m[key]) && key in m' && Finalized(m'[key]))
  {
  }

  /** While its reference is not cleaned up a case is finalised at most once, and not at all if it
      already was, whatever happens to other cases. */
  lemma {:induction false} FinalisedAtMostOnce(m: Store, ops: seq<Op>, key: string)
    requires NeverCleaned(m, ops, key)
    ensures Finalisations(m, ops, key) <= 1
    ensures key in m && Finalized(m[key]) ==> Finalisations(m, ops, key) == 0
    decreases |ops|
  {
    if ops != [] {
      var m', reply := Apply(m, ops[0]).0, Apply(m, ops[0]).1;
      FinalisedAtMostOnce(m', ops[1..], key);
      assert Finalisations(m, ops, key)
          == (if Finalises(ops[0], key) && reply == Done then 1 else 0) + Finalisations(m', ops[1..], key);
      FinaliseStep(m, ops[0], key);
    }
  }

  lemma StatusesSplit(m: Store, ref: string, some: set<Status>, others: set<Status>)
    requires some !! others
    ensures |Having(m, m.Keys, ref, None, some + others)|
            == |Having(m, m.Keys, ref, None, some)| + |Having(m, m.Keys, ref, None, others)|
  {
    assert Having(m, m.Keys, ref, None, some + others)
        == Having(m, m.Keys, ref, None, some) + Having(m, m.Keys, ref, None, others);
  }

  /** Every record of a reference is counted exactly once over the four statuses ... */
  lemma CountsAddUp(m: Store, ref: string)
    ensures var c := Tally(m, m.Keys, ref, None);
            c.passed + c.failed + c.timedOut + c.pending == |set k | k in m && m[k].ref == ref|
  {
    var finalized, open := {Passed} + {Failed} + {TimedOut}, {Triggered, Observing};
    StatusesSplit(m, ref, {Passed}, {Failed});
    StatusesSplit(m, ref, {Passed} + {Failed}, {TimedOut});
    StatusesSplit(m, ref, finalized, open);
    forall k | k in m
      ensures m[k].status in finalized + open
    {
      assert finalized + open == {Passed, Failed, TimedOut, Triggered, Observing};
      match m[k].status {
        case Passed =>
        case Failed =>
        case TimedOut =>
        case Triggered =>
        case Observing =>
      }
    }
    assert (set k | k in m && m[k].ref == ref) == Having(m, m.Keys, ref, None, finalized + open);
  }

  lemma ModesSplit(m: Store, ref: string, which: set<Status>)
    ensures |Having(m, m.Keys, ref, None, which)|
            == |Having(m, m.Keys, ref, Some(Data), which)| + |Having(m, m.Keys, ref, Some(Custom), which)|
  {
    assert Having(m, m.Keys, ref, None, which)
        == Having(m, m.Keys, ref, Some(Data), which) + Having(m, m.Keys, ref, Some(Custom), which);
  }

  /** ... and over the two verification modes. */
  lemma CountsSplitByMode(m: Store, ref: string)
    ensures var c, d, u := Tally(m, m.Keys, ref, None), Tally(m, m.Keys, ref, Some(Data)), Tally(m, m.Keys, ref, Some(Custom));
            && c.passed == d.passed + u.passed && c.failed == d.failed + u.failed
            && c.timedOut == d.timedOut + u.timedOut && c.pending == d.pending + u.pending
  {
    ModesSplit(m, ref, {Passed});
    ModesSplit(m, ref, {Failed});
    ModesSplit(m, ref, {TimedOut});
    ModesSplit(m, ref, {Triggered, Observing});
  }

  lemma SubsetSize(a: set<string>, b: set<string>)
    requires a <= b
    ensures |a| <= |b|
  {
    assert b == a + (b - a);
  }

  lemma HavingNeverFalls(m: Store, ops: seq<Op>, ref: string, only: Option<Mode>, which: set<Status>)
    requires which <= {Passed, Failed, TimedOut}
    requires forall i | 0 <= i < |ops| :: ops[i] != CleanupBlueGreen(ref)
    ensures |Having(m, m.Keys, ref, only, which)| <= |Having(Run(m, ops).0, Run(m, ops).0.Keys, ref, only, which)|
  {
    var m' := Run(m, ops).0;
    forall k | k in Having(m, m.Keys, ref, only, which)
      ensures k in Having(m', m'.Keys, ref, only, which)
    {
      FinalizedNeverChanges(m, ops, k);
    }
    SubsetSize(Having(m, m.Keys, ref, only, which), Having(m', m'.Keys, ref, only, which));
  }

  /** Finalised counts of a reference never fall before it is cleaned up. */
  lemma FinalizedCountsNeverFall(m: Store, ops: seq<Op>, ref: string, only: Option<Mode>)
    requires forall i | 0 <= i < |ops| :: ops[i] != CleanupBlueGreen(ref)
    ensures var was, now := Tally(m, m.Keys, ref, only), Tally(Run(m, ops).0, Run(m, ops).0.Keys, ref, only);
            was.passed <= now.passed && was.failed <= now.failed && was.timedOut <= now.timedOut
  {
    HavingNeverFalls(m, ops, ref, only, {Passed});
    HavingNeverFalls(m, ops, ref, only, {Failed});
    HavingNeverFalls(m, ops, ref, only, {TimedOut});
  }

  /** Successful decrements of the case under `key`. */
  function Decrements(m: Store, ops: seq<Op>, key: string): nat
    decreases |ops|
  {
    if ops == [] then 0
    else
      (if ops[0].DecrementRetries? && RecordKey(ops[0].ref, ops[0].testId) == key && Apply(m, ops[0]).1 != Remaining(None) then 1 else 0)
      + Decrements(Apply(m, ops[0]).0, ops[1..], key)
  }

  /** The case under `key` is in the map after every operation. */
  predicate StaysIn(m: Store, ops: seq<Op>, key: string)
    decreases |ops|
  {
    key in m && (ops != [] ==> StaysIn(Apply(m, ops[0]).0, ops[1..], key))
  }

  /** As long as a case is not removed, its retries remaining are the initial value minus the
      successful decrements, and never negative. */
  lemma {:induction false} RetriesAccounted(m: Store, ops: seq<Op>, key: string)
    requires StaysIn(m, ops, key) && m[key].retries >= 0
    ensures key in Run(m, ops).0
    ensures Run(m, ops).0[key].retries == m[key].retries - Decrements(m, ops, key)
    ensures Run(m, ops).0[key].retries >= 0
    decreases |ops|
  {
    if ops != [] {
      RetriesAccounted(Apply(m, ops[0]).0, ops[1..], key);
    }
  }
}
