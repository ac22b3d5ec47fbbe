/** Service Bus queues under peek-lock. A message copy is an index into one sequence that only
    grows; what happens to a copy is recorded on it, so nothing is ever forgotten. */
module Queues {
  import opened Wrappers

  datatype Queue = Base | Green | Blue | GreenOut | BlueOut | Result

  /** A queue, its shadow queue, or the dead-letter sub-queue of either. */
  datatype Path = Path(queue: Queue, shadow: bool, dead: bool)

  function Active(q: Queue): Path {
    Path(q, false, false)
  }

  /** `Completed` keeps the destinations that the completing attempt had to serve. */
  datatype Fate = Ready | Locked | Completed(served: seq<Path>) | Consumed

  /** One delivery: the copy that was locked and how often it had been locked by then. */
  datatype Attempt = Attempt(copy: nat, try: nat)

  /** `source` is the attempt that sent this copy, None for a copy sent from outside. */
  datatype Copy = Copy(origin: nat, source: Option<Attempt>, sentTo: Path, path: Path, tries: nat, fate: Fate)

  type Bus = seq<Copy>

  predicate Present(c: Copy) {
    c.fate == Ready || c.fate == Locked
  }

  ghost predicate Empty(b: Bus, p: Path) {
    forall i | 0 <= i < |b| && b[i].path == p :: !Present(b[i])
  }

  /** The lock of attempt `a` has neither expired nor been settled. */
  predicate HoldsLock(b: Bus, a: Attempt) {
    a.copy < |b| && b[a.copy].fate == Locked && b[a.copy].tries == a.try
  }

  function LockCopy(b: Bus, i: nat): Bus
    requires i < |b|
  {
    b[i := b[i].(fate := Locked, tries := b[i].tries + 1)]
  }

  function Forward(b: Bus, a: Attempt, p: Path): Bus
    requires a.copy < |b|
  {
    b + [Copy(b[a.copy].origin, Some(a), p, p, 0, Ready)]
  }

  /** A complete request: it settles the copy only under a valid lock. */
  function CompleteCopy(b: Bus, a: Attempt, served: seq<Path>): Bus {
    if HoldsLock(b, a) then b[a.copy := b[a.copy].(fate := Completed(served))] else b
  }

  /** An unlock request. */
  function AbandonCopy(b: Bus, a: Attempt): Bus {
    if HoldsLock(b, a) then b[a.copy := b[a.copy].(fate := Ready)] else b
  }

  /** Attempt `a` has a copy accepted at `p`. */
  ghost predicate Delivered(b: Bus, a: Attempt, p: Path) {
    exists k | 0 <= k < |b| :: b[k].source == Some(a) && b[k].sentTo == p
  }

  ghost predicate AllDelivered(b: Bus, a: Attempt, ps: seq<Path>) {
    forall j | 0 <= j < |ps| :: Delivered(b, a, ps[j])
  }
}
