/** The same queue operations as calls that change one bus in place: the Service Bus client, the
    drain loop that moves messages back, and one pass of the input worker with its guard. */
module Plugin {
  import opened Wrappers
  import opened Queues
  import Relay
  import RelaySafety

  /** The copies waiting at `p`. */
  function ReadyAt(b: Bus, p: Path): set<nat> {
    set i: nat | i < |b| && b[i].path == p && b[i].fate == Ready
  }

  /** A message at `p` was locked, and nobody knows. */
  ghost predicate LockLost(b: Bus, b': Bus, p: Path) {
    exists i :: i in ReadyAt(b, p) && b' == LockCopy(b, i)
  }

  /** `b'` is `b` after some copies of `source` were moved to `target`, each completed under the
      attempt that also sent it on; nothing else changed. */
  ghost predicate Moved(b: Bus, b': Bus, source: Path, target: Path) {
    && RelaySafety.Extends(b, b')
    && forall i | 0 <= i < |b| && b'[i].fate != b[i].fate ::
         && b[i].fate == Ready && b[i].path == source
         && (b'[i].fate == Completed([target]) ==> Delivered(b', Attempt(i, b'[i].tries), target))
         && (b'[i].fate.Completed? ==> b'[i].fate == Completed([target]))
  }

  lemma DeliveredGrows(b: Bus, b': Bus, a: Attempt, p: Path)
    requires RelaySafety.Extends(b, b') && Delivered(b, a, p)
    ensures Delivered(b', a, p)
  {
    var k :| 0 <= k < |b| && b[k].source == Some(a) && b[k].sentTo == p;
    assert b'[k].source == Some(a);
  }

  /** The bus behind its client; `failures` counts the requests whose success was not reported. */
  class Client {
    var bus: Bus
    ghost var failures: nat

    constructor ()
      ensures bus == [] && failures == 0
    {
      bus, failures := [], 0;
    }

    /** receive_peek_lock: any waiting message, nothing, or an error; an error may leave a message
        locked whose answer was lost or incomplete. */
    method ReceivePeekLock(p: Path) returns (r: Result<Option<Attempt>, ()>)
      modifies this
      ensures r.Ok? && r.value.Some? ==>
                && r.value.value.copy in ReadyAt(old(bus), p)
                && bus == LockCopy(old(bus), r.value.value.copy)
                && r.value.value.try == bus[r.value.value.copy].tries
      ensures r == Ok(None) ==> ReadyAt(old(bus), p) == {}
      ensures r == Ok(None) ==> bus == old(bus)
      ensures r.Err? ==> bus == old(bus) || LockLost(old(bus), bus, p)
      ensures failures == old(failures) + if r.Ok? then 0 else 1
    {
      if * {
        failures := failures + 1;
        return Err(());
      }
      var waiting := ReadyAt(bus, p);
      if waiting == {} {
        return Ok(None);
      }
      var i :| i in waiting;
      bus := LockCopy(bus, i);
      if * {
        failures := failures + 1;
        return Err(());
      }
      return Ok(Some(Attempt(i, bus[i].tries)));
    }

    /** forward_message: an error may be reported although the message was accepted. */
    method ForwardMessage(p: Path, a: Attempt) returns (ok: bool)
      requires a.copy < |bus|
      modifies this
      ensures ok ==> bus == Forward(old(bus), a, p)
      ensures bus == old(bus) || bus == Forward(old(bus), a, p)
      ensures failures == old(failures) + if ok then 0 else 1
    {
      if * {
        bus := Forward(bus, a, p);
        ok := *;
      } else {
        ok := false;
      }
      failures := failures + if ok then 0 else 1;
    }

    /** complete: under a lost lock it fails; it may take effect and still be reported as failed. */
    method Complete(a: Attempt, served: seq<Path>) returns (ok: bool)
      modifies this
      ensures ok ==> HoldsLock(old(bus), a) && bus == CompleteCopy(old(bus), a, served)
      ensures bus == old(bus) || bus == CompleteCopy(old(bus), a, served)
      ensures failures == old(failures) + if ok then 0 else 1
    {
      ok := HoldsLock(bus, a);
      if ok {
        bus := CompleteCopy(bus, a, served);
        ok := *;
      }
      failures := failures + if ok then 0 else 1;
    }

    /** abandon: the outcome is not looked at by any caller. */
    method Abandon(a: Attempt)
      modifies this
      ensures bus == old(bus) || bus == AbandonCopy(old(bus), a)
      ensures old(failures) <= failures && (failures == old(failures) ==> bus == AbandonCopy(old(bus), a))
    {
      if * {
        bus := AbandonCopy(bus, a);
      } else {
        failures := failures + 1;
      }
    }

    /** What the drain loop does with one locked message: send it on, then complete it, or give
        the lock back when the send fails. */
    method MoveLocked(target: Path, a: Attempt) returns (ok: bool)
      requires HoldsLock(bus, a)
      modifies this
      ensures OneAttempt(old(bus), bus, a, target)
      ensures ok ==> |bus| == |old(bus)| + 1 && bus[a.copy].fate == Completed([target])
      ensures old(failures) <= failures && (ok <==> failures == old(failures))
    {
      var sent := ForwardMessage(target, a);
      if !sent {
        Abandon(a);
        return false;
      }
      assert bus[|old(bus)|].source == Some(a) && bus[|old(bus)|].sentTo == target;
      ok := Complete(a, [target]);
      assert bus[|old(bus)|].source == Some(a) && bus[|old(bus)|].sentTo == target;
    }

    /** One pass of the drain loop: one message moved, or none waiting, or an error. */
    method MoveNext(source: Path, target: Path) returns (r: Result<bool, ()>, ghost a: Attempt)
      requires source != target
      modifies this
      ensures r == Ok(false) ==> bus == old(bus) && ReadyAt(bus, source) == {}
      ensures r == Ok(true) ==> Tried(old(bus), bus, a, source, target) && bus[a.copy].fate == Completed([target]) && |bus| == |old(bus)| + 1
      ensures r.Err? ==> bus == old(bus) || LockLost(old(bus), bus, source) || Tried(old(bus), bus, a, source, target)
      ensures old(failures) <= failures && (r.Ok? <==> failures == old(failures))
    {
      a := Attempt(0, 0);
      var received := ReceivePeekLock(source);
      if received.Err? {
        return Err(()), a;
      }
      if received.value.None? {
        return Ok(false), a;
      }
      a := received.value.value;
      var ok := MoveLocked(target, received.value.value);
      return if ok then Ok(true) else Err(()), a;
    }

    /** move_available_messages_from_path: moves until nothing waits or a request fails. However
        it ends, no message has left `source` without having been accepted by `target`. */
    method MoveAvailable(source: Path, target: Path) returns (r: Result<nat, ()>)
      requires source != target
      modifies this
      ensures Moved(old(bus), bus, source, target)
      ensures r.Ok? ==> ReadyAt(bus, source) == {} && |bus| == |old(bus)| + r.value
      ensures r.Ok? ==> r.value == |ReadyAt(old(bus), source)|
      ensures r.Ok? ==> forall i | i in ReadyAt(old(bus), source) :: bus[i].fate == Completed([target])
      ensures r.Ok? <==> failures == old(failures)
    {
      var moved := 0;
      ghost var before := bus;
      while true
        invariant Moved(before, bus, source, target)
        invariant |bus| == |before| + moved
        invariant Progress(before, bus, source, target, moved)
        invariant failures == old(failures)
        decreases |ReadyAt(bus, source)|
      {
        ghost var start := bus;
        var one;
        ghost var a;
        one, a := MoveNext(source, target);
        if one.Err? {
          FailsMoved(before, start, bus, source, target, a);
          return Err(());
        }
        if !one.value {
          AllMoved(before, bus, source, target, moved);
          return Ok(moved);
        }
        assert one == Ok(true);
        MovesOne(before, start, bus, source, target, a, moved);
        moved := moved + 1;
      }
    }
  }

  /** From `b` to `b'` one waiting copy was locked and tried. */
  ghost predicate Tried(b: Bus, b': Bus, a: Attempt, source: Path, target: Path) {
    && a.copy in ReadyAt(b, source) && a.try == b[a.copy].tries + 1
    && OneAttempt(LockCopy(b, a.copy), b', a, target)
  }

  /** From `b` to `b'` nothing happened but attempt `a`, sending to `target`. */
  ghost predicate OneAttempt(b: Bus, b': Bus, a: Attempt, target: Path) {
    && a.copy < |b| <= |b'| <= |b| + 1
    && (forall i | 0 <= i < |b| && i != a.copy :: b'[i] == b[i])
    && (exists fate :: b'[a.copy] == b[a.copy].(fate := fate) && (fate == Locked || fate == Ready || fate == Completed([target])))
    && (b'[a.copy].fate.Completed? ==> Delivered(b', a, target))
    && (forall i | |b| <= i < |b'| :: b'[i].path == target)
  }

  /** `moved` of the messages that waited at `source` have been completed, the others wait. */
  ghost predicate Progress(before: Bus, b: Bus, source: Path, target: Path, moved: nat) {
    && |before| <= |b|
    && ReadyAt(b, source) <= ReadyAt(before, source)
    && moved == |ReadyAt(before, source) - ReadyAt(b, source)|
    && forall i | i in ReadyAt(before, source) - ReadyAt(b, source) :: b[i].fate == Completed([target])
  }

  lemma OneLessWaits(start: Bus, b: Bus, source: Path, target: Path, a: Attempt)
    requires source != target && a.copy in ReadyAt(start, source)
    requires OneAttempt(LockCopy(start, a.copy), b, a, target) && b[a.copy].fate != Ready
    ensures ReadyAt(b, source) == ReadyAt(start, source) - {a.copy}
  {
    forall i: nat | i < |b| && i != a.copy
      ensures i in ReadyAt(b, source) <==> i in ReadyAt(start, source)
    {
      assert i < |start| ==> b[i] == start[i];
    }
  }

  lemma OneMoreDone(all: set<nat>, waiting: set<nat>, i: nat)
    requires waiting <= all && i in waiting
    ensures all - (waiting - {i}) == (all - waiting) + {i}
    ensures |all - (waiting - {i})| == |all - waiting| + 1
  {
    assert all - (waiting - {i}) == (all - waiting) + {i};
  }

  lemma KeepsProgress(before: Bus, start: Bus, b: Bus, source: Path, target: Path, a: Attempt, moved: nat)
    requires source != target && Progress(before, start, source, target, moved)
    requires a.copy in ReadyAt(start, source) && OneAttempt(LockCopy(start, a.copy), b, a, target)
    requires b[a.copy].fate == Completed([target])
    ensures Progress(before, b, source, target, moved + 1)
    ensures ReadyAt(b, source) == ReadyAt(start, source) - {a.copy}
  {
    OneLessWaits(start, b, source, target, a);
    OneMoreDone(ReadyAt(before, source), ReadyAt(start, source), a.copy);
    forall i | i in ReadyAt(before, source) - ReadyAt(b, source)
      ensures b[i].fate == Completed([target])
    {
      assert i != a.copy ==> b[i] == start[i];
    }
  }

  /** One more attempt on a waiting copy keeps what has been moved so far. */
  lemma KeepsMoved(before: Bus, start: Bus, b: Bus, source: Path, target: Path, a: Attempt)
    requires Moved(before, start, source, target)
    requires a.copy in ReadyAt(start, source) && a.try == start[a.copy].tries + 1
    requires OneAttempt(LockCopy(start, a.copy), b, a, target)
    requires a.copy in ReadyAt(before, source)
    ensures Moved(before, b, source, target)
  {
    assert RelaySafety.Extends(start, b);
    forall i | 0 <= i < |before| && b[i].fate != before[i].fate && b[i].fate == Completed([target])
      ensures Delivered(b, Attempt(i, b[i].tries), target)
    {
      if i != a.copy {
        DeliveredGrows(start, b, Attempt(i, start[i].tries), target);
      }
    }
  }

  lemma KeepsMovedLost(before: Bus, start: Bus, b: Bus, source: Path, target: Path)
    requires Moved(before, start, source, target) && ReadyAt(start, source) <= ReadyAt(before, source)
    requires b == start || LockLost(start, b, source)
    ensures Moved(before, b, source, target)
  {
    if b != start {
      assert RelaySafety.Extends(start, b);
      forall i | 0 <= i < |before| && b[i].fate != before[i].fate && b[i].fate == Completed([target])
        ensures Delivered(b, Attempt(i, b[i].tries), target)
      {
        DeliveredGrows(start, b, Attempt(i, start[i].tries), target);
      }
    }
  }

  lemma AllMoved(before: Bus, b: Bus, source: Path, target: Path, moved: nat)
    requires Progress(before, b, source, target, moved) && ReadyAt(b, source) == {}
    ensures moved == |ReadyAt(before, source)| && forall i | i in ReadyAt(before, source) :: b[i].fate == Completed([target])
  {
    assert ReadyAt(before, source) - ReadyAt(b, source) == ReadyAt(before, source);
  }

  lemma MovesOne(before: Bus, start: Bus, b: Bus, source: Path, target: Path, a: Attempt, moved: nat)
    requires source != target && Moved(before, start, source, target) && Progress(before, start, source, target, moved)
    requires Tried(start, b, a, source, target) && b[a.copy].fate == Completed([target])
    ensures Moved(before, b, source, target) && Progress(before, b, source, target, moved + 1)
    ensures |ReadyAt(b, source)| < |ReadyAt(start, source)|
  {
    KeepsMoved(before, start, b, source, target, a);
    KeepsProgress(before, start, b, source, target, a, moved);
    assert ReadyAt(start, source) == ReadyAt(b, source) + {a.copy};
  }

  lemma FailsMoved(before: Bus, start: Bus, b: Bus, source: Path, target: Path, a: Attempt)
    requires Moved(before, start, source, target) && ReadyAt(start, source) <= ReadyAt(before, source)
    requires b == start || LockLost(start, b, source) || Tried(start, b, a, source, target)
    ensures Moved(before, b, source, target)
  {
    if Tried(start, b, a, source, target) {
      KeepsMoved(before, start, b, source, target, a);
    } else {
      KeepsMovedLost(before, start, b, source, target);
    }
  }

  /** AppState of the plugin process, with its client. */
  class AppState {
    const cfg: Relay.Config
    const client: Client
    var mode: Relay.Mode
    var traffic: nat
    var inFlight: int

    /** `percentFromEnv` is the parsed variable, if it is set to a number of eight bits. */
    constructor (cfg: Relay.Config, client: Client, percentFromEnv: Option<nat>)
      ensures this.cfg == cfg && this.client == client
      ensures mode == Relay.IdleMode && inFlight == 0
      ensures traffic <= 100 && (percentFromEnv.None? || percentFromEnv.value > 100 ==> traffic == 100)
      ensures percentFromEnv.Some? && percentFromEnv.value <= 100 ==> traffic == percentFromEnv.value
    {
      this.cfg, this.client := cfg, client;
      var percent := percentFromEnv.UnwrapOr(100);
      mode, traffic, inFlight := Relay.IdleMode, if percent > 100 then 100 else percent, 0;
    }

    /** Both sides for a duplicator, the side of the SDK's choice for a splitter, the result queue for a
        combiner. */
    ghost function Destinations(origin: nat): seq<Path>
      reads this
    {
      match cfg.role
      case Duplicator => [Path(Green, false, false), Path(Blue, false, false)]
      case Splitter => [Path(if cfg.routesToBlue(origin, traffic) then Blue else Green, false, false)]
      case Combiner => [Path(Queue.Result, false, false)]
    }

    /** process_input_message of the duplicator and the splitter, and the combiner's forward: the
        required destinations one after the other, up to the first that fails. */
    method ProcessMessage(a: Attempt) returns (ok: bool)
      requires HoldsLock(client.bus, a)
      modifies client
      ensures old(client.bus) <= client.bus && HoldsLock(client.bus, a)
      ensures forall k | |old(client.bus)| <= k < |client.bus| :: client.bus[k].source == Some(a)
      ensures ok ==> AllDelivered(client.bus, a, Relay.WorkerDests(cfg, old(client.bus)[a.copy].origin, traffic))
      ensures ok ==> forall k | |old(client.bus)| <= k < |client.bus| ::
                client.bus[k].sentTo in Relay.WorkerDests(cfg, old(client.bus)[a.copy].origin, traffic)
      ensures old(client.failures) <= client.failures && (ok <==> client.failures == old(client.failures))
      ensures ok ==> AllDelivered(client.bus, a, Destinations(old(client.bus)[a.copy].origin))
      ensures ok ==> |client.bus| == |old(client.bus)| + |Destinations(old(client.bus)[a.copy].origin)|
    {
      var dests := Relay.WorkerDests(cfg, client.bus[a.copy].origin, traffic);
      ok := client.ForwardMessage(dests[0], a);
      if !ok {
        return;
      }
      ghost var first := client.bus;
      assert first[|old(client.bus)|].source == Some(a) && first[|old(client.bus)|].sentTo == dests[0];
      if |dests| == 2 {
        ok := client.ForwardMessage(dests[1], a);
        if ok {
          assert client.bus[|first|].source == Some(a) && client.bus[|first|].sentTo == dests[1];
        }
      }
      assert ok ==> client.bus[|old(client.bus)|].source == Some(a) && client.bus[|old(client.bus)|].sentTo == dests[0];
    }

    /** One pass of the worker loop from a mode read as Active. `meanwhile` is the mode that a
        handler has set by the second look. The guard is dropped on every path; a message the
        pass has completed was accepted by every required destination; nothing is sent unless
        the second look still finds Active. */
    method RunOnce(source: Path, meanwhile: Relay.Mode) returns (taken: Option<Attempt>)
      requires Relay.WorkerSource(cfg, source)
      modifies this`mode, this`inFlight, client
      ensures mode == meanwhile && inFlight == old(inFlight)
      ensures RelaySafety.Extends(old(client.bus), client.bus)
      ensures taken == None ==> client.bus == old(client.bus) || LockLost(old(client.bus), client.bus, source)
      ensures taken.Some? ==> taken.value.copy in ReadyAt(old(client.bus), source)
      ensures taken.Some? ==> forall i | 0 <= i < |old(client.bus)| && i != taken.value.copy :: client.bus[i] == old(client.bus)[i]
      ensures taken.Some? && client.bus[taken.value.copy].fate.Completed? ==>
                && client.bus[taken.value.copy].fate.served == Relay.WorkerDests(cfg, old(client.bus)[taken.value.copy].origin, traffic)
                && AllDelivered(client.bus, taken.value, client.bus[taken.value.copy].fate.served)
      ensures meanwhile != Relay.ActiveMode ==> |client.bus| == |old(client.bus)|
      ensures client.failures == old(client.failures) ==>
                && (taken.None? <==> ReadyAt(old(client.bus), source) == {})
                && (taken.None? ==> client.bus == old(client.bus))
                && (taken.Some? && meanwhile == Relay.ActiveMode ==>
                      && client.bus[taken.value.copy].fate == Completed(Destinations(old(client.bus)[taken.value.copy].origin))
                      && AllDelivered(client.bus, taken.value, Destinations(old(client.bus)[taken.value.copy].origin))
                      && |client.bus| == |old(client.bus)| + |Destinations(old(client.bus)[taken.value.copy].origin)|)
                && (taken.Some? && meanwhile != Relay.ActiveMode ==>
                      client.bus[taken.value.copy]
                      == old(client.bus)[taken.value.copy].(tries := old(client.bus)[taken.value.copy].tries + 1))
    {
      var received := client.ReceivePeekLock(source);
      mode := meanwhile;
      if received.Err? || received.value.None? {
        return None;
      }
      var a := received.value.value;
      taken := Some(a);
      inFlight := inFlight + 1;
      if mode != Relay.ActiveMode {
        client.Abandon(a);
      } else {
        var ok := ProcessMessage(a);
        if ok {
          ghost var processed := client.bus;
          var _ := client.Complete(a, Relay.WorkerDests(cfg, client.bus[a.copy].origin, traffic));
          RelaySafety.DeliveredKept(processed, client.bus, a, Relay.WorkerDests(cfg, processed[a.copy].origin, traffic));
        } else {
          client.Abandon(a);
        }
      }
      inFlight := inFlight - 1;
    }
  }
}
