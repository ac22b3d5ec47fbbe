/** Test-case records and what one atomic operation does to a record, shared by the stores. */
module TestCases {
  import opened Wrappers

  /** Nanoseconds, the resolution of the operator's clock. */
  type Time = int
  const MICRO: int := 1_000
  const SECOND: int := 1_000_000_000

  datatype Status = Triggered | Observing | Passed | Failed | TimedOut
  datatype Mode = Data | Custom

  datatype Record = Record(
    ref: string,
    testId: string,
    triggeredAt: Time,
    inceptionPoint: string,
    timeout: int,
    status: Status,
    verdict: Option<bool>,
    mode: Mode,
    verifyUrl: string,
    authToken: string,
    retries: int,
    failure: Option<string>)

  datatype Counts = Counts(passed: nat, failed: nat, timedOut: nat, pending: nat)

  predicate Pending(r: Record) {
    r.status == Triggered || r.status == Observing
  }

  predicate Finalized(r: Record) {
    r.status == Passed || r.status == Failed || r.status == TimedOut
  }

  function ExpiresAt(r: Record): Time {
    r.triggeredAt + r.timeout
  }

  /** A second registration of a pending case. */
  function Merge(existing: Record, run: Record): Record {
    existing.(
      verifyUrl := if existing.verifyUrl == "" then run.verifyUrl else existing.verifyUrl,
      authToken := if existing.authToken == "" then run.authToken else existing.authToken,
      triggeredAt := if run.triggeredAt < existing.triggeredAt then run.triggeredAt else existing.triggeredAt,
      timeout := if run.timeout > existing.timeout then run.timeout else existing.timeout,
      inceptionPoint := if existing.inceptionPoint == "" then run.inceptionPoint else existing.inceptionPoint)
  }

  function WithVerdict(r: Record, passed: bool, message: Option<string>): Record {
    r.(verdict := Some(passed), failure := message, status := if passed then Passed else Failed)
  }

  function WithTimeout(r: Record): Record {
    r.(status := TimedOut, verdict := None)
  }

  function WithRetry(r: Record): Record {
    r.(retries := r.retries - 1)
  }

  /** The operations of the store interface that the model covers. `now` is the clock reading. */
  datatype Op =
    | Register(run: Record)
    | Get(ref: string, testId: string)
    | SetVerdict(ref: string, testId: string, passed: bool, message: Option<string>)
    | MarkTimedOut(ref: string, testId: string)
    | DecrementRetries(ref: string, testId: string)
    | ListPending
    | ListRefs
    | CountCases(ref: string, only: Option<Mode>)
    | CleanupBlueGreen(ref: string)
    | CleanupExpired(now: Time)

  datatype Reply =
    | Done
    | NotFound
    | Found(record: Option<Record>)
    | Remaining(retries: Option<int>)
    | Records(records: set<Record>)
    | Refs(refs: set<string>)
    | Counted(counts: Counts)
    | Removed(number: nat)

  predicate Selected(r: Record, ref: string, only: Option<Mode>) {
    r.ref == ref && (only.None? || r.mode == only.value)
  }
}
