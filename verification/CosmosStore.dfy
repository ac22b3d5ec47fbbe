/** The Cosmos store: an operation on a case is a read and, if it has something to change, a
    replace under the etag it has read. Any number of clients interleave their requests. */
module CosmosStores {
  import opened Wrappers
  import opened TestCases
  import Mem = MemoryStores

  datatype Doc = Doc(record: Record, etag: nat)

  /** A client between its requests; `result` is None when the answer was an error that does not
      say whether the replace took effect. */
  datatype Client =
    | Idle
    | Called(op: Op)
    | Fetched(op: Op, doc: Doc)
    | Conflicted(op: Op)
    | Returned(op: Op, reply: Reply)
    | Errored(op: Op)

  datatype State = State(docs: map<string, Doc>, nextEtag: nat, clients: map<nat, Client>)

  datatype Step =
    | Invoke(client: nat, op: Op)
    | Fetch(client: nat)
    | Replace(client: nat, reported: bool)
    | GiveUp(client: nat)
    | Create(run: Record)
    | Delete(key: string)

  /** The read-modify-replace operations. */
  predicate Updating(op: Op) {
    op.SetVerdict? || op.MarkTimedOut? || op.DecrementRetries?
  }

  function KeyOf(op: Op): string
    requires Updating(op)
  {
    Mem.RecordKey(op.ref, op.testId)
  }

  /** The answer that a read alone settles. */
  function SettledByRead(op: Op, doc: Option<Doc>): Option<Reply>
    requires Updating(op)
  {
    if doc.None? then Some(NotFound)
    else if op.DecrementRetries? then
      if Pending(doc.value.record) && doc.value.record.retries > 0 then None else Some(Remaining(None))
    else if Pending(doc.value.record) then None
    else Some(NotFound)
  }

  /** What the client writes back over what it has read. */
  function Updated(op: Op, r: Record): Record
    requires Updating(op)
  {
    match op
    case SetVerdict(_, _, passed, message) => WithVerdict(r, passed, message)
    case MarkTimedOut(_, _) => WithTimeout(r)
    case DecrementRetries(_, _) => WithRetry(r)
  }

  function SuccessReply(op: Op, r: Record): Reply
    requires Updating(op)
  {
    if op.DecrementRetries? then Remaining(Some(r.retries - 1)) else Done
  }

  function Find(s: State, key: string): Option<Doc> {
    if key in s.docs then Some(s.docs[key]) else None
  }

  predicate Matches(s: State, key: string, doc: Doc) {
    key in s.docs && s.docs[key].etag == doc.etag
  }

  predicate Enabled(s: State, step: Step) {
    match step
    case Invoke(c, op) => Updating(op) && c in s.clients && !s.clients[c].Called? && !s.clients[c].Fetched?
    case Fetch(c) => c in s.clients && s.clients[c].Called? && Updating(s.clients[c].op)
    case Replace(c, _) => c in s.clients && s.clients[c].Fetched? && Updating(s.clients[c].op)
    case GiveUp(c) => c in s.clients && (s.clients[c].Called? || s.clients[c].Fetched?)
    case Create(_) => true
    case Delete(_) => true
  }

  function Do(s: State, step: Step): State
    requires Enabled(s, step)
  {
    match step
    case Invoke(c, op) => s.(clients := s.clients[c := Called(op)])
    case Fetch(c) =>
      var op := s.clients[c].op;
      var found := Find(s, KeyOf(op));
      var settled := SettledByRead(op, found);
      s.(clients := s.clients[c := if settled.Some? then Returned(op, settled.value) else Fetched(op, found.value)])
    case Replace(c, reported) =>
      var op, doc := s.clients[c].op, s.clients[c].doc;
      if Matches(s, KeyOf(op), doc) then
        s.(docs := s.docs[KeyOf(op) := Doc(Updated(op, doc.record), s.nextEtag)],
           nextEtag := s.nextEtag + 1,
           clients := s.clients[c := if reported then Returned(op, SuccessReply(op, doc.record)) else Errored(op)])
      else
        s.(clients := s.clients[c := if reported && KeyOf(op) in s.docs then Conflicted(op) else Errored(op)])
    case GiveUp(c) => s.(clients := s.clients[c := Errored(s.clients[c].op)])
    case Create(run) =>
      var key := Mem.RecordKey(run.ref, run.testId);
      if key in s.docs then s
      else s.(docs := s.docs[key := Doc(run, s.nextEtag)], nextEtag := s.nextEtag + 1)
    case Delete(key) => s.(docs := s.docs - {key})
  }

  /** What the container holds, as the in-memory map holds it. */
  function Contents(s: State): Mem.Store {
    map k | k in s.docs :: s.docs[k].record
  }

  // ---------------------------------------------------------------- invariant

  /** An etag identifies what it was issued for: a document that still has the etag a client has
      read is the very document that the client has read. */
  ghost predicate Inv(s: State) {
    && (forall k | k in s.docs :: s.docs[k].etag < s.nextEtag)
    && (forall c | c in s.clients && s.clients[c].Fetched? ::
          && Updating(s.clients[c].op)
          && s.clients[c].doc.etag < s.nextEtag
          && SettledByRead(s.clients[c].op, Some(s.clients[c].doc)) == None
          && (Matches(s, KeyOf(s.clients[c].op), s.clients[c].doc) ==> s.docs[KeyOf(s.clients[c].op)] == s.clients[c].doc))
  }

  predicate Init(s: State) {
    s.docs == map[] && forall c | c in s.clients :: s.clients[c] == Idle
  }

  lemma StepInv(s: State, step: Step)
    requires Inv(s) && Enabled(s, step)
    ensures Inv(Do(s, step))
  {
  }

  datatype Run = Run(states: seq<State>, steps: seq<Step>)

  predicate Follows(r: Run, i: nat)
    requires i < |r.steps| && |r.states| == |r.steps| + 1
  {
    Enabled(r.states[i], r.steps[i]) && r.states[i + 1] == Do(r.states[i], r.steps[i])
  }

  predicate IsRun(r: Run) {
    && |r.states| == |r.steps| + 1
    && Init(r.states[0])
    && forall i | 0 <= i < |r.steps| :: Follows(r, i)
  }

  lemma {:induction false} RunInv(r: Run, i: nat)
    requires IsRun(r) && i < |r.states|
    ensures Inv(r.states[i])
  {
    if i > 0 {
      RunInv(r, i - 1);
      assert Follows(r, i - 1);
      StepInv(r.states[i - 1], r.steps[i - 1]);
    }
  }

  // ---------------------------------------------------------------- linearization

  /** The point at which a step takes effect on the in-memory map: one atomic operation, or the
      removal of a key by a clean-up. */
  datatype Point = Atomic(op: Op) | Removal(key: string)

  function Effect(p: Point, m: Mem.Store): Mem.Store {
    match p
    case Atomic(op) => Mem.Apply(m, op).0
    case Removal(key) => m - {key}
  }

  /** The linearization point that a step is, if it is one: a read that settles the call, a
      replace that is accepted, a create that inserts, a delete. */
  function PointOf(s: State, step: Step): Option<Point>
    requires Enabled(s, step)
  {
    match step
    case Fetch(c) =>
      var op := s.clients[c].op;
      if SettledByRead(op, Find(s, KeyOf(op))).Some? then Some(Atomic(op)) else None
    case Replace(c, _) =>
      var op := s.clients[c].op;
      if Matches(s, KeyOf(op), s.clients[c].doc) then Some(Atomic(op)) else None
    case Create(run) => if Mem.RecordKey(run.ref, run.testId) in s.docs then None else Some(Atomic(Register(run)))
    case Delete(key) => Some(Removal(key))
    case _ => None
  }

  /** The client whose call a step answers with a reply. */
  predicate Answers(s: State, step: Step, c: nat, op: Op, reply: Reply)
    requires Enabled(s, step)
  {
    && (step.Fetch? || step.Replace?) && step.client == c
    && c in s.clients && (s.clients[c].Called? || s.clients[c].Fetched?) && s.clients[c].op == op
    && c in Do(s, step).clients && Do(s, step).clients[c] == Returned(op, reply)
  }

  /** Each step is its atomic operation, at that very moment and with that very answer, or leaves
      the contents alone. */
  lemma StepLinearizes(s: State, step: Step)
    requires Inv(s) && Enabled(s, step)
    ensures var p := PointOf(s, step);
            Contents(Do(s, step)) == if p.Some? then Effect(p.value, Contents(s)) else Contents(s)
    ensures forall c, op, reply | Answers(s, step, c, op, reply) ::
              PointOf(s, step) == Some(Atomic(op)) && Mem.Apply(Contents(s), op).1 == reply
  {
    var m, m' := Contents(s), Contents(Do(s, step));
    match step {
      case Replace(c, _) =>
        var op, doc := s.clients[c].op, s.clients[c].doc;
        if Matches(s, KeyOf(op), doc) {
          assert m[KeyOf(op)] == doc.record;
          assert m' == m[KeyOf(op) := Updated(op, doc.record)];
        }
      case Create(run) =>
        var key := Mem.RecordKey(run.ref, run.testId);
        assert key !in s.docs ==> m' == m[key := run];
      case Delete(key) => assert m' == m - {key};
      case _ => assert m' == m;
    }
  }

  /** The linearization points of the steps from `from` to `to`, in order. */
  function Points(r: Run, from: nat, to: nat): seq<Point>
    requires IsRun(r) && from <= to <= |r.steps|
  {
    if from == to then []
    else
      assert Follows(r, to - 1);
      var p := PointOf(r.states[to - 1], r.steps[to - 1]);
      Points(r, from, to - 1) + if p.Some? then [p.value] else []
  }

  function Replay(m: Mem.Store, ps: seq<Point>): Mem.Store
    decreases |ps|
  {
    if ps == [] then m else Effect(ps[|ps| - 1], Replay(m, ps[..|ps| - 1]))
  }

  /** Linearizability: over any stretch of any run, the container holds at the end what the atomic
      operations make of what it held at the start, executed one after the other in the order of
      their linearization points. */
  lemma {:induction false} RunLinearizes(r: Run, from: nat, to: nat)
    requires IsRun(r) && from <= to <= |r.steps|
    ensures Contents(r.states[to]) == Replay(Contents(r.states[from]), Points(r, from, to))
  {
    if from < to {
      RunLinearizes(r, from, to - 1);
      RunInv(r, to - 1);
      assert Follows(r, to - 1);
      StepLinearizes(r.states[to - 1], r.steps[to - 1]);
      var p := PointOf(r.states[to - 1], r.steps[to - 1]);
      var before := Points(r, from, to - 1);
      if p.Some? {
        assert (before + [p.value])[..|before|] == before;
      } else {
        assert before + [] == before;
      }
    }
  }

  /** Every answer that a client gets is the answer of its atomic operation at its point, that is,
      on the map the operations before it have left; a conflict or an error has no such claim. */
  lemma AnswersAreAtomic(r: Run, n: nat, c: nat, op: Op, reply: Reply)
    requires IsRun(r) && n < |r.steps| && Enabled(r.states[n], r.steps[n])
    requires Answers(r.states[n], r.steps[n], c, op, reply)
    ensures Points(r, 0, n + 1) == Points(r, 0, n) + [Atomic(op)]
    ensures reply == Mem.Apply(Replay(map[], Points(r, 0, n)), op).1
  {
    RunInv(r, n);
    RunLinearizes(r, 0, n);
    StepLinearizes(r.states[n], r.steps[n]);
    assert Contents(r.states[0]) == map[];
  }

  /** A replace against a document that somebody changed in between changes nothing. */
  lemma LostRaceChangesNothing(s: State, c: nat, reported: bool)
    requires Inv(s) && Enabled(s, Replace(c, reported))
    requires var key := KeyOf(s.clients[c].op); key in s.docs && s.docs[key] != s.clients[c].doc
    ensures Do(s, Replace(c, reported)).docs == s.docs
    ensures Do(s, Replace(c, reported)).clients[c] == if reported then Conflicted(s.clients[c].op) else Errored(s.clients[c].op)
  {
  }

  // ---------------------------------------------------------------- one document

  /** Between the states `from` and `to` the document under `key` is not deleted. */
  /** An update that nobody disturbs does what the atomic operation does, and answers as it does. */
  lemma UndisturbedUpdate(s: State, c: nat, op: Op)
    requires Inv(s) && Updating(op) && c in s.clients && !s.clients[c].Called? && !s.clients[c].Fetched?
    ensures
      var called := Do(s, Invoke(c, op));
      && Enabled(called, Fetch(c))
      && var fetched := Do(called, Fetch(c));
         var (store, reply) := Mem.Apply(Contents(s), op);
         || (fetched.clients[c] == Returned(op, reply) && Contents(fetched) == store)
         || (Enabled(fetched, Replace(c, true))
             && Do(fetched, Replace(c, true)).clients[c] == Returned(op, reply)
             && Contents(Do(fetched, Replace(c, true))) == store)
  {
    var called := Do(s, Invoke(c, op));
    StepInv(s, Invoke(c, op));
    assert Contents(called) == Contents(s);
    var fetched := Do(called, Fetch(c));
    StepInv(called, Fetch(c));
    StepLinearizes(called, Fetch(c));
    if fetched.clients[c].Returned? {
      assert Answers(called, Fetch(c), c, op, fetched.clients[c].reply);
    } else {
      StepLinearizes(fetched, Replace(c, true));
      var replaced := Do(fetched, Replace(c, true));
      assert Answers(fetched, Replace(c, true), c, op, replaced.clients[c].reply);
    }
  }

  predicate Undeleted(r: Run, from: nat, to: nat, key: string)
    requires to <= |r.steps|
  {
    forall i | from <= i < to :: r.steps[i] != Delete(key)
  }

  /** The step is an accepted replace of the document under `key`. */
  predicate Replaces(s: State, step: Step, key: string)
    requires Enabled(s, step)
  {
    && step.Replace? && KeyOf(s.clients[step.client].op) == key
    && Matches(s, key, s.clients[step.client].doc)
  }

  predicate FinalisesAt(s: State, step: Step, key: string)
    requires Enabled(s, step)
  {
    Replaces(s, step, key) && (s.clients[step.client].op.SetVerdict? || s.clients[step.client].op.MarkTimedOut?)
  }

  predicate DecrementsAt(s: State, step: Step, key: string)
    requires Enabled(s, step)
  {
    Replaces(s, step, key) && s.clients[step.client].op.DecrementRetries?
  }

  /** What one step does to a document that it does not delete. */
  lemma DocStep(s: State, step: Step, key: string)
    requires Inv(s) && Enabled(s, step) && step != Delete(key) && key in s.docs
    ensures key in Do(s, step).docs
    ensures Replaces(s, step, key) ==> Pending(s.docs[key].record)
    ensures !Replaces(s, step, key) ==> Do(s, step).docs[key] == s.docs[key]
    ensures FinalisesAt(s, step, key) ==>
              Finalized(Do(s, step).docs[key].record) && Do(s, step).docs[key].record.retries == s.docs[key].record.retries
    ensures DecrementsAt(s, step, key) ==>
              0 < s.docs[key].record.retries && Do(s, step).docs[key].record == WithRetry(s.docs[key].record)
  {
  }

  /** A finalised document keeps its record until it is deleted itself, whatever is done to others. */
  lemma {:induction false} FinalizedNeverOverwritten(r: Run, from: nat, to: nat, key: string)
    requires IsRun(r) && from <= to <= |r.steps| && Undeleted(r, from, to, key)
    requires key in r.states[from].docs && Finalized(r.states[from].docs[key].record)
    ensures key in r.states[to].docs && r.states[to].docs[key] == r.states[from].docs[key]
  {
    if from < to {
      FinalizedNeverOverwritten(r, from, to - 1, key);
      RunInv(r, to - 1);
      assert Follows(r, to - 1);
      DocStep(r.states[to - 1], r.steps[to - 1], key);
    }
  }

  /** Of the finalisations of a document at most one is stored before it is deleted. */
  lemma AtMostOneFinalisation(r: Run, i: nat, j: nat, key: string)
    requires IsRun(r) && i < j < |r.steps| && Undeleted(r, i, j, key)
    requires Enabled(r.states[i], r.steps[i]) && FinalisesAt(r.states[i], r.steps[i], key)
    ensures Enabled(r.states[j], r.steps[j]) ==> !FinalisesAt(r.states[j], r.steps[j], key)
  {
    RunInv(r, i);
    assert Follows(r, i);
    DocStep(r.states[i], r.steps[i], key);
    FinalizedNeverOverwritten(r, i + 1, j, key);
    RunInv(r, j);
    assert Follows(r, j);
    if FinalisesAt(r.states[j], r.steps[j], key) {
      DocStep(r.states[j], r.steps[j], key);
    }
  }

  /** The accepted decrements of the document between two states. */
  function DecrementsIn(r: Run, from: nat, to: nat, key: string): nat
    requires IsRun(r) && from <= to <= |r.steps|
  {
    if from == to then 0
    else
      assert Follows(r, to - 1);
      DecrementsIn(r, from, to - 1, key) + if DecrementsAt(r.states[to - 1], r.steps[to - 1], key) then 1 else 0
  }

  /** Until a document is deleted its retries remaining are the earlier ones minus the accepted
      decrements since, and never negative. */
  lemma {:induction false} RetriesKept(r: Run, from: nat, to: nat, key: string)
    requires IsRun(r) && from <= to <= |r.steps| && Undeleted(r, from, to, key)
    requires key in r.states[from].docs && r.states[from].docs[key].record.retries >= 0
    ensures key in r.states[to].docs
    ensures r.states[to].docs[key].record.retries == r.states[from].docs[key].record.retries - DecrementsIn(r, from, to, key)
    ensures r.states[to].docs[key].record.retries >= 0
  {
    if from < to {
      RetriesKept(r, from, to - 1, key);
      RunInv(r, to - 1);
      assert Follows(r, to - 1);
      DocStep(r.states[to - 1], r.steps[to - 1], key);
    }
  }

  /** Registering an existing pending case again merges on the map and does nothing here. */
  lemma SecondRegistrationDiffers(s: State, run: Record)
    requires var key := Mem.RecordKey(run.ref, run.testId);
             key in s.docs && Pending(s.docs[key].record)
    ensures Do(s, Create(run)) == s
    ensures Mem.Apply(Contents(s), Register(run)).0 == Contents(s)
            <==> Merge(s.docs[Mem.RecordKey(run.ref, run.testId)].record, run) == s.docs[Mem.RecordKey(run.ref, run.testId)].record
  {
    var key := Mem.RecordKey(run.ref, run.testId);
    var m, r := Contents(s), s.docs[key].record;
    assert Mem.Apply(m, Register(run)).0 == m[key := Merge(r, run)];
    assert m[key := Merge(r, run)][key] == Merge(r, run) && m[key] == r;
    if Merge(r, run) == r {
      assert m[key := r] == m;
    }
  }

  // ---------------------------------------------------------------- the client calls in place

  /** The container as an object, with the read and the replace as calls. */
  class Container {
    var docs: map<string, Doc>
    var nextEtag: nat

    constructor ()
      ensures docs == map[] && nextEtag == 0
    {
      docs, nextEtag := map[], 0;
    }

    /** replace_doc: accepted only under the etag of the stored document. */
    method ReplaceDoc(key: string, doc: Doc) returns (r: Result<(), bool>)
      modifies this
      ensures r.Ok? <==> key in old(docs) && old(docs)[key].etag == doc.etag
      ensures r.Ok? ==> docs == old(docs)[key := Doc(doc.record, old(nextEtag))] && nextEtag == old(nextEtag) + 1
      ensures r.Err? ==> docs == old(docs) && nextEtag == old(nextEtag) && (r.error <==> key in docs)
    {
      if key !in docs {
        return Err(false);
      }
      if docs[key].etag != doc.etag {
        return Err(true);
      }
      docs := docs[key := Doc(doc.record, nextEtag)];
      nextEtag := nextEtag + 1;
      return Ok(());
    }

    /** set_verdict, mark_timed_out and decrement_retries: read, change the copy, replace it.
        `meanwhile` are the documents that others have stored between the two requests. */
    method Update(op: Op, meanwhile: map<string, Doc>) returns (answer: Option<Reply>)
      requires Updating(op)
      modifies this
      ensures SettledByRead(op, if KeyOf(op) in old(docs) then Some(old(docs)[KeyOf(op)]) else None).Some? ==>
                && answer == SettledByRead(op, if KeyOf(op) in old(docs) then Some(old(docs)[KeyOf(op)]) else None)
                && docs == meanwhile
      ensures SettledByRead(op, if KeyOf(op) in old(docs) then Some(old(docs)[KeyOf(op)]) else None).None? ==>
                var doc := old(docs)[KeyOf(op)];
                if KeyOf(op) in meanwhile && meanwhile[KeyOf(op)].etag == doc.etag then
                  answer == Some(SuccessReply(op, doc.record))
                  && docs == meanwhile[KeyOf(op) := Doc(Updated(op, doc.record), old(nextEtag))]
                else answer == None && docs == meanwhile
    {
      var read := if KeyOf(op) in docs then Some(docs[KeyOf(op)]) else None;
      docs := meanwhile;
      answer := SettledByRead(op, read);
      if answer.None? {
        var doc := read.value;
        var replaced := ReplaceDoc(KeyOf(op), doc.(record := Updated(op, doc.record)));
        if replaced.Ok? {
          answer := Some(SuccessReply(op, doc.record));
        }
      }
    }
  }
}
