/** The reconcile lease as single calls see it: the tests on a lease spec, the specs an
    operator writes, and `TryAcquire` / `Renew` against the one stored Lease object.
    The interleavings of many operators are in LeaseProtocol. */
module Lease {
  import opened Wrappers

  /** Clock ticks; one shared clock. */
  type Time = int
  const SECOND: int := 1_000_000
  const I32_MAX: int := 0x7fff_ffff

  datatype LeaseSpec = LeaseSpec(
    holder: Option<string>,
    acquireTime: Option<Time>,
    renewTime: Option<Time>,
    durationSeconds: Option<int>,
    transitions: Option<int>)

  /** `duration` and `renewInterval` are whole seconds. */
  datatype Config = Config(identity: string, duration: nat, renewInterval: nat)

  /** Two's complement wrap-around of a 32-bit counter. */
  function Wrap32(n: int): int {
    (n + 0x8000_0000) % 0x1_0000_0000 - 0x8000_0000
  }

  function DurationSeconds(duration: nat): (r: int)
    ensures 1 <= r <= I32_MAX
  {
    if duration > I32_MAX then I32_MAX else if duration < 1 then 1 else duration
  }

  function Holder(spec: Option<LeaseSpec>): Option<string> {
    if spec.Some? then spec.value.holder else None
  }

  function Transitions(spec: Option<LeaseSpec>): int {
    if spec.Some? then spec.value.transitions.UnwrapOr(0) else 0
  }

  predicate Expired(spec: LeaseSpec, now: Time) {
    var since := if spec.renewTime.Some? then spec.renewTime else spec.acquireTime;
    since.None?
    || spec.durationSeconds.UnwrapOr(0) <= 0
    || now - since.value >= spec.durationSeconds.UnwrapOr(0) * SECOND
  }

  predicate CanBeAcquired(spec: Option<LeaseSpec>, cfg: Config, now: Time) {
    spec.None? || spec.value.holder == Some(cfg.identity) || Expired(spec.value, now)
  }

  function TransitionIncrement(spec: Option<LeaseSpec>, cfg: Config): int {
    if Holder(spec) == Some(cfg.identity) then 0 else 1
  }

  function NewSpec(cfg: Config, transitions: int, acquired: bool, now: Time): LeaseSpec {
    LeaseSpec(
      Some(cfg.identity),
      if acquired then Some(now) else None,
      Some(now),
      Some(DurationSeconds(cfg.duration)),
      Some(transitions))
  }

  /** What try_acquire_lease writes over a lease it has read; `None` outside is a missing object. */
  function AcquiredSpec(read: Option<Option<LeaseSpec>>, cfg: Config, now: Time): LeaseSpec {
    match read
    case None => NewSpec(cfg, 0, true, now)
    case Some(spec) => NewSpec(cfg, Wrap32(Transitions(spec) + TransitionIncrement(spec, cfg)), true, now)
  }

  /** What renew_lease writes: the acquire time is dropped, the transitions are kept. */
  function RenewedSpec(spec: Option<LeaseSpec>, cfg: Config, now: Time): LeaseSpec {
    NewSpec(cfg, Transitions(spec), false, now)
  }

  /** The settings read from the environment; zero and unparsable values are already None. */
  function ConfigFromEnv(identity: string, durationVar: Option<nat>, renewVar: Option<nat>): Config {
    var duration := durationVar.UnwrapOr(30);
    var renew := renewVar.UnwrapOr(10);
    Config(identity, duration,
           if renew < duration then renew else if duration / 3 > 1 then duration / 3 else 1)
  }

  /** The renewal interval is shorter than the duration written into the lease exactly when the
      configured duration is at least two seconds and neither value reaches the 32-bit clamp. */
  lemma RenewsBeforeExpiry(identity: string, durationVar: Option<nat>, renewVar: Option<nat>)
    requires durationVar.Some? ==> durationVar.value > 0
    requires renewVar.Some? ==> renewVar.value > 0
    ensures
      var cfg := ConfigFromEnv(identity, durationVar, renewVar);
      cfg.renewInterval < DurationSeconds(cfg.duration)
      <==> durationVar.UnwrapOr(30) >= 2
           && (if renewVar.UnwrapOr(10) < durationVar.UnwrapOr(30) then renewVar.UnwrapOr(10) < I32_MAX
               else durationVar.UnwrapOr(30) < 3 * I32_MAX)
  {
    var d := durationVar.UnwrapOr(30);
    assert d / 3 < I32_MAX <==> d < 3 * I32_MAX;
  }

  /** The identity is the given one, and so are the configured settings: 30 and 10 seconds by default,
      but a renewal interval that is not below the duration is replaced by a third of it. */
  lemma ConfiguredAsGiven(identity: string, durationVar: Option<nat>, renewVar: Option<nat>)
    requires durationVar.Some? ==> durationVar.value > 0
    requires renewVar.Some? ==> renewVar.value > 0
    ensures
      var cfg := ConfigFromEnv(identity, durationVar, renewVar);
      var asked := if renewVar.Some? then renewVar.value else 10;
      && cfg.identity == identity
      && (durationVar.None? ==> cfg.duration == 30) && (durationVar.Some? ==> cfg.duration == durationVar.value)
      && (asked < cfg.duration ==> cfg.renewInterval == asked)
      && (asked >= cfg.duration ==>
            cfg.renewInterval >= 1 && (3 * cfg.renewInterval <= cfg.duration < 3 * cfg.renewInterval + 3
                                       || (cfg.renewInterval == 1 && cfg.duration < 3)))
  {
  }

  /** `seconds` is the configured duration as far as 32 bits, and not less than one second, allow. */
  predicate LastsFor(cfg: Config, seconds: int) {
    && (1 <= cfg.duration <= I32_MAX ==> seconds == cfg.duration)
    && (cfg.duration == 0 ==> seconds == 1)
    && (cfg.duration > I32_MAX ==> seconds == I32_MAX)
  }

  /** What an acquisition and a renewal write can always be taken again under the same identity; under
      another one exactly from the expiry instant on, the configured duration after the stamp. */
  lemma AcquirableExactlyFromExpiry(written: Config, reader: Config, read: Option<Option<LeaseSpec>>, stamp: Time, now: Time, seconds: int)
    requires LastsFor(written, seconds)
    ensures CanBeAcquired(Some(AcquiredSpec(read, written, stamp)), reader, now)
            <==> written.identity == reader.identity || now >= stamp + seconds * SECOND
    ensures read.Some? ==>
              (CanBeAcquired(Some(RenewedSpec(read.value, written, stamp)), reader, now)
               <==> written.identity == reader.identity || now >= stamp + seconds * SECOND)
  {
  }

  /** A lease as anyone may have left it: an empty one, an own one and one without a positive duration
      can be taken; else the renew time counts, or the acquire time without it, or nothing does. */
  lemma AcquirableIff(spec: LeaseSpec, reader: Config, now: Time)
    ensures CanBeAcquired(None, reader, now)
    ensures CanBeAcquired(Some(spec), reader, now) <==>
            || spec.holder == Some(reader.identity)
            || spec.durationSeconds.None? || spec.durationSeconds.value <= 0
            || (spec.renewTime.None? && spec.acquireTime.None?)
            || (spec.renewTime.Some? && now >= spec.renewTime.value + spec.durationSeconds.value * SECOND)
            || (spec.renewTime.None? && spec.acquireTime.Some? && now >= spec.acquireTime.value + spec.durationSeconds.value * SECOND)
  {
  }

  /** The stored Lease object. Every version it has had is kept, newest last, so the resource
      version is the number of versions and 0 means that the object does not exist. */
  class LeaseObject {
    var versions: seq<Option<LeaseSpec>>

    constructor ()
      ensures versions == []
    {
      versions := [];
    }

    /** Create and replace in one: accepted only at the resource version the writer has read. */
    method Put(resourceVersion: nat, spec: LeaseSpec) returns (accepted: bool)
      modifies this
      ensures accepted <==> |old(versions)| == resourceVersion
      ensures versions == if accepted then old(versions) + [Some(spec)] else old(versions)
    {
      accepted := |versions| == resourceVersion;
      if accepted {
        versions := versions + [Some(spec)];
      }
    }

    /** try_acquire_lease. `others` is what other writers store between the read and the write. */
    method TryAcquire(cfg: Config, checkTime: Time, stamp: Time, others: seq<Option<LeaseSpec>>)
      returns (acquired: bool)
      modifies this
      ensures acquired <==> others == []
                            && (old(versions) == []
                                || CanBeAcquired(old(versions)[|old(versions)| - 1], cfg, checkTime))
      ensures acquired ==>
                && |versions| == |old(versions)| + 1
                && versions[..|old(versions)|] == old(versions)
                && versions[|old(versions)|] == Some(AcquiredSpec(
                     if old(versions) == [] then None else Some(old(versions)[|old(versions)| - 1]), cfg, stamp))
      ensures acquired ==>
                var spec := versions[|old(versions)|].value;
                && spec.holder == Some(cfg.identity) && spec.acquireTime == spec.renewTime == Some(stamp)
                && spec.durationSeconds.Some? && LastsFor(cfg, spec.durationSeconds.value)
                && spec.transitions.Some?
                && (old(versions) == [] ==> spec.transitions.value == 0)
                && (old(versions) != [] ==>
                      var read := old(versions)[|old(versions)| - 1];
                      var before := if read.Some? && read.value.transitions.Some? then read.value.transitions.value else 0;
                      var own := read.Some? && read.value.holder == Some(cfg.identity);
                      -0x8000_0000 <= before <= I32_MAX ==>
                        spec.transitions.value == if own then before else if before == I32_MAX then -0x8000_0000 else before + 1)
      ensures !acquired ==> versions == old(versions) + others
    {
      var resourceVersion := |versions|;
      var read := if resourceVersion == 0 then None else Some(versions[resourceVersion - 1]);
      if read.Some? && !CanBeAcquired(read.value, cfg, checkTime) {
        versions := versions + others;
        return false;
      }
      var spec := AcquiredSpec(read, cfg, stamp);
      versions := versions + others;
      acquired := Put(resourceVersion, spec);
    }

    /** renew_lease: refuses a missing lease, a lease held by someone else and a conflict. */
    method Renew(cfg: Config, stamp: Time, others: seq<Option<LeaseSpec>>) returns (renewed: bool)
      modifies this
      ensures renewed <==> others == [] && old(versions) != []
                           && Holder(old(versions)[|old(versions)| - 1]) == Some(cfg.identity)
      ensures versions == if renewed
                          then old(versions) + [Some(RenewedSpec(old(versions)[|old(versions)| - 1], cfg, stamp))]
                          else old(versions) + others
      ensures renewed ==>
                var spec := versions[|old(versions)|].value;
                && spec.holder == Some(cfg.identity) && spec.acquireTime == None && spec.renewTime == Some(stamp)
                && spec.durationSeconds.Some? && LastsFor(cfg, spec.durationSeconds.value)
                && var read := old(versions)[|old(versions)| - 1].value;
                   spec.transitions == if read.transitions.Some? then read.transitions else Some(0)
    {
      var resourceVersion := |versions|;
      if resourceVersion == 0 || Holder(versions[resourceVersion - 1]) != Some(cfg.identity) {
        versions := versions + others;
        return false;
      }
      var spec := RenewedSpec(versions[resourceVersion - 1], cfg, stamp);
      versions := versions + others;
      renewed := Put(resourceVersion, spec);
    }
  }
}
