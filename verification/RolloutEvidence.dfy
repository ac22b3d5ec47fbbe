/** The rollout controller beside the test-case store: what the store held when a rollout was advanced
    or promoted. */
module RolloutEvidence {
  import opened Wrappers
  import opened Rollout
  import opened RolloutSafety
  import P = Promotion
  import TC = TestCases
  import Mem = MemoryStores

  /** The store goes from one content to the other by atomic operations of its clients. */
  ghost predicate Operated(m: Mem.Store, m': Mem.Store) {
    exists ops :: m' == Mem.Run(m, ops).0
  }

  function CountsOf(m: Mem.Store, ref: string, mode: TC.Mode): TC.Counts {
    Mem.Tally(m, m.Keys, ref, Some(mode))
  }

  /** The observation at step i is of one pass, fetched at step f, that has counted the Data cases of
      the reference at the moment d and, not earlier, its Custom cases at the moment c. */
  predicate CountedAt(r: Run, stores: seq<Mem.Store>, ref: string, i: nat, f: nat, d: nat, c: nat)
    requires i < |r.steps| && r.steps[i].Observe? && |stores| == |r.steps| + 1
  {
    && f < d <= c <= i && r.steps[f] == Fetch
    && (forall m | f < m < i :: r.steps[m].Edit? || r.steps[m].Load?)
    && r.steps[i].evidence == Evidence(CountsOf(stores[d], ref, TC.Data), CountsOf(stores[c], ref, TC.Custom))
  }

  ghost predicate Counted(r: Run, stores: seq<Mem.Store>, ref: string, i: nat)
    requires i < |r.steps| && r.steps[i].Observe? && |stores| == |r.steps| + 1
  {
    exists f, d, c :: CountedAt(r, stores, ref, i, f, d, c)
  }

  ghost predicate Evolves(stores: seq<Mem.Store>) {
    forall i | 0 <= i < |stores| - 1 :: Operated(stores[i], stores[i + 1])
  }

  /** A run beside a store: any operations happen there between two steps, and every observation is
      counted from it. */
  ghost predicate Beside(r: Run, stores: seq<Mem.Store>, ref: string) {
    && |stores| == |r.steps| + 1
    && Evolves(stores)
    && (forall i | 0 <= i < |r.steps| && r.steps[i].Observe? :: Counted(r, stores, ref, i))
  }

  /** The counts behind a promotion or an advance were those of the store at two moments of one pass,
      with no reset since. */
  lemma EvidenceFromStore(r: Run, stores: seq<Mem.Store>, ref: string, k: nat, e: Evidence) returns (d: nat, c: nat)
    requires IsRun(r) && Beside(r, stores, ref) && k < |r.states| && PendingEvidence(r.states[k], e)
    ensures d <= c < k
    ensures e == Evidence(CountsOf(stores[d], ref, TC.Data), CountsOf(stores[c], ref, TC.Custom))
    ensures forall m | d <= m < k :: r.steps[m] != Reset
  {
    var i := EvidenceObserved(r, k, e);
    assert Counted(r, stores, ref, i);
    var f: nat;
    f, d, c :| CountedAt(r, stores, ref, i, f, d, c);
  }

  /** Promotion over the store and the controller together: a rollout is promoted only on counts that
      the store had, at two moments of one pass of this rollout, and that meet every configured mode
      of the plan that was live when it started; Custom has then at least one case, all passed. */
  lemma PromotedFromStore(r: Run, stores: seq<Mem.Store>, ref: string, k: nat) returns (d: nat, c: nat)
    requires IsRun(r) && NothingLost(r) && Beside(r, stores, ref) && k < |r.states| && r.states[k].promotedBy.Some?
    ensures d <= c < k && forall m | d <= m < k :: r.steps[m] != Reset
    ensures Started(r.states[k]) && Recorded(r.states[k]).plan.Some?
    ensures
      Earned(Recorded(r.states[k]).plan.value, r.states[k].advances,
             Evidence(CountsOf(stores[d], ref, TC.Data), CountsOf(stores[c], ref, TC.Custom)))
    ensures
      Recorded(r.states[k]).plan.value.custom ==>
        && (exists x :: x in stores[c] && stores[c][x].ref == ref && stores[c][x].mode == TC.Custom)
        && forall x | x in stores[c] && stores[c][x].ref == ref && stores[c][x].mode == TC.Custom :: stores[c][x].status == TC.Passed
  {
    d, c := EvidenceFromStore(r, stores, ref, k, r.states[k].promotedBy.value);
    PromotionEarned(r, k);
    if Recorded(r.states[k]).plan.value.custom {
      AllPassed(stores[c], ref);
    }
  }

  /** What the Custom requirement says of the cases themselves. */
  lemma AllPassed(m: Mem.Store, ref: string)
    requires P.CustomMet(CountsOf(m, ref, TC.Custom))
    ensures exists x :: x in m && m[x].ref == ref && m[x].mode == TC.Custom
    ensures forall x | x in m && m[x].ref == ref && m[x].mode == TC.Custom :: m[x].status == TC.Passed
  {
    var passed := Mem.Having(m, m.Keys, ref, Some(TC.Custom), {TC.Passed});
    var x :| x in passed;
    assert Mem.Having(m, m.Keys, ref, Some(TC.Custom), {TC.Failed}) == {};
    assert Mem.Having(m, m.Keys, ref, Some(TC.Custom), {TC.TimedOut}) == {};
    assert Mem.Having(m, m.Keys, ref, Some(TC.Custom), {TC.Triggered, TC.Observing}) == {};
    forall y | y in m && m[y].ref == ref && m[y].mode == TC.Custom
      ensures m[y].status == TC.Passed
    {
      assert y !in Mem.Having(m, m.Keys, ref, Some(TC.Custom), {TC.Failed});
      assert y !in Mem.Having(m, m.Keys, ref, Some(TC.Custom), {TC.TimedOut});
      assert y !in Mem.Having(m, m.Keys, ref, Some(TC.Custom), {TC.Triggered, TC.Observing});
    }
  }

  /** Every advance, too, was decided on the Data counts that the store had at some moment since the
      rollout started. */
  lemma AdvancedFromStore(r: Run, stores: seq<Mem.Store>, ref: string, k: nat, m: nat) returns (d: nat)
    requires IsRun(r) && NothingLost(r) && Beside(r, stores, ref) && k < |r.states| && m < |r.states[k].advances|
    ensures d < k && forall n | d <= n < k :: r.steps[n] != Reset
    ensures Started(r.states[k]) && Recorded(r.states[k]).plan.Some?
    ensures InOrder(Recorded(r.states[k]).plan.value, r.states[k].advances)
    ensures P.StepMet(Recorded(r.states[k]).plan.value.strategy.progressive.value.steps[m], CountsOf(stores[d], ref, TC.Data))
  {
    RunInv(r, k);
    var c;
    d, c := EvidenceFromStore(r, stores, ref, k, r.states[k].advances[m].evidence);
  }

  // ---------------------------------------------------------------- cases of this rollout only

  ghost predicate NoneOf(m: Mem.Store, ref: string) {
    forall x | x in m :: m[x].ref != ref
  }

  /** The pass that resets at step i dropped the snapshot at step p and cleaned the reference up at the
      moment q. */
  ghost predicate CleanedAt(r: Run, stores: seq<Mem.Store>, ref: string, i: nat, p: nat, q: nat)
    requires i < |r.steps| && |stores| == |r.steps| + 1
  {
    && p < q <= i && r.steps[p] == DropSnapshot
    && (forall m | p < m < i :: r.steps[m].Edit?)
    && exists m :: Operated(stores[p], m) && stores[q] == Mem.Apply(m, TC.CleanupBlueGreen(ref)).0
  }

  ghost predicate Cleaned(r: Run, stores: seq<Mem.Store>, ref: string, i: nat)
    requires i < |r.steps| && |stores| == |r.steps| + 1
  {
    exists p, q :: CleanedAt(r, stores, ref, i, p, q)
  }

  /** Every restart cleans the reference up before it resets the status. */
  ghost predicate RestartsClean(r: Run, stores: seq<Mem.Store>, ref: string)
    requires |stores| == |r.steps| + 1
  {
    forall i | 0 <= i < |r.steps| && r.steps[i] == Reset :: Cleaned(r, stores, ref, i)
  }

  lemma {:induction false} RunAppend(m: Mem.Store, ops: seq<TC.Op>, more: seq<TC.Op>)
    ensures Mem.Run(m, ops + more).0 == Mem.Run(Mem.Run(m, ops).0, more).0
    decreases |ops|
  {
    if ops == [] {
      assert [] + more == more;
    } else {
      assert (ops + more)[0] == ops[0] && (ops + more)[1..] == ops[1..] + more;
      RunAppend(Mem.Apply(m, ops[0]).0, ops[1..], more);
    }
  }

  lemma OperatedOnce(m: Mem.Store, m': Mem.Store) returns (ops: seq<TC.Op>)
    requires Operated(m, m')
    ensures m' == Mem.Run(m, ops).0
  {
    ops :| m' == Mem.Run(m, ops).0;
  }

  lemma {:induction false} OperatedUntil(stores: seq<Mem.Store>, a: nat, b: nat) returns (ops: seq<TC.Op>)
    requires Evolves(stores) && a <= b < |stores|
    ensures stores[b] == Mem.Run(stores[a], ops).0
    decreases b - a
  {
    if a == b {
      ops := [];
    } else {
      var first := OperatedOnce(stores[a], stores[a + 1]);
      var rest := OperatedUntil(stores, a + 1, b);
      RunAppend(stores[a], first, rest);
      ops := first + rest;
    }
  }

  predicate Registers(op: TC.Op, ref: string, x: string) {
    op.Register? && op.run.ref == ref && Mem.RecordKey(ref, op.run.testId) == x
  }

  /** The case under `x` is one of the reference and was registered by one of the operations. */
  ghost predicate RegisteredBy(ops: seq<TC.Op>, ref: string, x: string) {
    exists n :: 0 <= n < |ops| && Registers(ops[n], ref, x)
  }

  predicate Holds(m: Mem.Store, ref: string, x: string) {
    x in m && m[x].ref == ref
  }

  lemma BroughtInNow(m: Mem.Store, op: TC.Op, ref: string, x: string)
    requires !Holds(m, ref, x) && Holds(Mem.Apply(m, op).0, ref, x)
    ensures Registers(op, ref, x)
  {
  }

  /** A case that the operations have brought into the store was registered by one of them. */
  lemma {:induction false} BroughtIn(m: Mem.Store, ops: seq<TC.Op>, ref: string, x: string) returns (n: nat)
    requires !Holds(m, ref, x) && Holds(Mem.Run(m, ops).0, ref, x)
    ensures n < |ops| && Registers(ops[n], ref, x)
    decreases |ops|
  {
    var m' := Mem.Apply(m, ops[0]).0;
    if Holds(m', ref, x) {
      BroughtInNow(m, ops[0], ref, x);
      n := 0;
    } else {
      n := BroughtIn(m', ops[1..], ref, x);
      n := n + 1;
    }
  }

  lemma AllBroughtIn(m: Mem.Store, ops: seq<TC.Op>, ref: string)
    requires NoneOf(m, ref)
    ensures forall x | Holds(Mem.Run(m, ops).0, ref, x) :: RegisteredBy(ops, ref, x)
  {
    forall x | Holds(Mem.Run(m, ops).0, ref, x)
      ensures RegisteredBy(ops, ref, x)
    {
      var n := BroughtIn(m, ops, ref, x);
    }
  }

  /** Since the clean-up of a restart, and so after its reset, the store's cases of the reference are
      those registered since. */
  lemma OnlyNewCases(r: Run, stores: seq<Mem.Store>, ref: string, i: nat, d: nat) returns (q: nat, ops: seq<TC.Op>)
    requires Beside(r, stores, ref) && RestartsClean(r, stores, ref)
    requires i < |r.steps| && r.steps[i] == Reset && i <= d < |stores|
    ensures q <= i && NoneOf(stores[q], ref) && forall m | q <= m < i :: r.steps[m].Edit?
    ensures stores[d] == Mem.Run(stores[q], ops).0
    ensures forall x | Holds(stores[d], ref, x) :: RegisteredBy(ops, ref, x)
  {
    assert Cleaned(r, stores, ref, i);
    var p;
    p, q :| CleanedAt(r, stores, ref, i, p, q);
    ops := OperatedUntil(stores, q, d);
    AllBroughtIn(stores[q], ops, ref);
  }

  /** A restarted rollout is promoted only on counts of cases registered since the clean-up of its own
      restart: none of the previous rollout counts unless it was registered once more. */
  lemma PromotedOnOwnCases(r: Run, stores: seq<Mem.Store>, ref: string, i: nat, k: nat)
      returns (d: nat, c: nat, q: nat, opsD: seq<TC.Op>, opsC: seq<TC.Op>)
    requires IsRun(r) && NothingLost(r) && Beside(r, stores, ref) && RestartsClean(r, stores, ref)
    requires i < k < |r.states| && r.states[k].promotedBy.Some?
    requires r.steps[i] == Reset && forall m | i < m < k :: r.steps[m] != Reset
    ensures i < d <= c < k && q <= i && NoneOf(stores[q], ref) && forall m | q <= m < i :: r.steps[m].Edit?
    ensures Started(r.states[k]) && Recorded(r.states[k]).plan.Some?
    ensures
      Earned(Recorded(r.states[k]).plan.value, r.states[k].advances,
             Evidence(CountsOf(stores[d], ref, TC.Data), CountsOf(stores[c], ref, TC.Custom)))
    ensures stores[d] == Mem.Run(stores[q], opsD).0 && stores[c] == Mem.Run(stores[q], opsD + opsC).0
    ensures forall x | Holds(stores[d], ref, x) :: RegisteredBy(opsD, ref, x)
    ensures forall x | Holds(stores[c], ref, x) :: RegisteredBy(opsD + opsC, ref, x)
  {
    d, c := PromotedFromStore(r, stores, ref, k);
    q, opsD := OnlyNewCases(r, stores, ref, i, d);
    opsC := OperatedUntil(stores, d, c);
    RunAppend(stores[q], opsD, opsC);
    AllBroughtIn(stores[q], opsD + opsC, ref);
  }
}
