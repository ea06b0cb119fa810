/**
 * Jobs of the offline capture queue, and what one flush decides about one job.
 *
 * Times are whole milliseconds. `Id` stands for the random UUID a job gets when it is stored.
 */
module QueueJobs {
  import opened Wrappers

  type Id = nat

  datatype Kind = HrPunch | ShiftCheckIn | Pod | CodConfirm | GallonReturn | DeliveryFail | DeliveryReschedule

  /** `depotId` is read for two kinds only; `body` is everything else the payload carries. */
  datatype Payload = Payload(depotId: string, body: string)

  /** What was captured: this part of a job never changes once it is stored. */
  datatype Capture = Capture(kind: Kind, payload: Payload, at: int, owner: Option<string>)

  datatype Job = Job(id: Id, capture: Capture, error: Option<string>, attempts: nat, notBefore: Option<int>)

  /** The signed-in customer, and the one depot assigned to them. */
  datatype Session = Session(owner: Option<string>, depot: Option<string>)

  /** How `run` ends: a `Refusal` is an `ApiError` with its status, `Broken` any other error. */
  datatype Answer = Success | Refusal(status: int, message: string) | Broken(message: string)

  const MAX_ATTEMPTS: nat := 6
  const RETENTION_MS := 7 * 24 * 60 * 60 * 1000
  const STALE_DEPOT_MESSAGE :=
    "Anda sudah dipindahkan ke depot lain. Catatan ini dibuat untuk depot sebelumnya "
    + "dan tidak bisa dikirim; hapus lalu catat ulang."

  function Pow2(n: nat): nat {
    if n == 0 then 1 else 2 * Pow2(n - 1)
  }

  function BackoffMs(attempts: nat): int
    requires attempts >= 1
  {
    var raw := 30_000 * Pow2(attempts - 1);
    if raw <= 900_000 then raw else 900_000
  }

  /** The waits of attempts 1 to n, added up. */
  function BackoffSum(n: nat): int {
    if n == 0 then 0 else BackoffSum(n - 1) + BackoffMs(n)
  }

  /** A JavaScript string that counts as set: neither absent nor empty. */
  predicate Truthy(s: Option<string>) {
    s.Some? && s.value != ""
  }

  predicate Owned(job: Job, session: Session) {
    job.capture.owner.None? || job.capture.owner == session.owner
  }

  predicate Expired(job: Job, now: int) {
    now - job.capture.at > RETENTION_MS
  }

  predicate DepotIsStale(job: Job, session: Session) {
    && (job.capture.kind.ShiftCheckIn? || job.capture.kind.GallonReturn?)
    && job.capture.payload.depotId != ""
    && Truthy(session.depot)
    && session.depot.value != job.capture.payload.depotId
  }

  predicate IsRetryable(a: Answer) {
    match a
    case Success => false
    case Broken(_) => true
    case Refusal(status, _) => status == 0 || status == 408 || status == 429 || status >= 500
  }

  /** Offline, or signed out. */
  predicate EndsThePass(a: Answer) {
    a.Refusal? && (a.status == 0 || a.status == 401)
  }

  datatype Verdict = NotMine | TooOld | AlreadyRefused | WrongDepot | BackingOff | Send

  /** The checks of the flush loop, in the order of the loop. */
  function Judge(job: Job, session: Session, now: int, manual: bool): Verdict {
    if !Owned(job, session) then NotMine
    else if Expired(job, now) then TooOld
    else if Truthy(job.error) then AlreadyRefused
    else if DepotIsStale(job, session) then WrongDepot
    else if !manual && job.notBefore.Some? && job.notBefore.value > now then BackingOff
    else Send
  }

  function Message(a: Answer): string
    requires !a.Success?
  {
    a.message
  }

  /** What a failed send writes back, or nothing when it ends the pass instead. */
  function AfterFailure(job: Job, a: Answer, now: int): Option<Job>
    requires !a.Success?
  {
    if EndsThePass(a) then None
    else if !IsRetryable(a) then Some(job.(error := Some(Message(a))))
    else
      var n := job.attempts + 1;
      if n >= MAX_ATTEMPTS then Some(job.(attempts := n, error := Some(Message(a))))
      else Some(job.(attempts := n, notBefore := Some(now + BackoffMs(n))))
  }

  // ---- sequences of jobs ----

  ghost predicate UniqueIds(jobs: seq<Job>) {
    forall i, k :: 0 <= i < k < |jobs| ==> jobs[i].id != jobs[k].id
  }

  ghost predicate HasId(jobs: seq<Job>, id: Id) {
    exists j :: j in jobs && j.id == id
  }

  /** `jobs.filter((j) => j.id !== id)` */
  function Without(jobs: seq<Job>, id: Id): (r: seq<Job>)
    ensures forall j :: j in r <==> j in jobs && j.id != id
    ensures UniqueIds(jobs) ==> UniqueIds(r)
  {
    if jobs == [] then []
    else
      var rest := Without(jobs[1..], id);
      assert forall j :: j in jobs <==> j == jobs[0] || j in jobs[1..];
      if jobs[0].id == id then rest
      else
        assert forall j :: j in [jobs[0]] + rest <==> j == jobs[0] || j in rest;
        [jobs[0]] + rest
  }

  /** The cache after a stored write: the old copy leaves, the new one goes last. */
  function Replaced(jobs: seq<Job>, job: Job): (r: seq<Job>)
    ensures forall j :: j in r <==> j == job || (j in jobs && j.id != job.id)
    ensures UniqueIds(jobs) ==> UniqueIds(r)
  {
    Without(jobs, job.id) + [job]
  }

  /** The rows of the store as `getAll` and the sort by capture time return them. */
  ghost predicate IsListing(jobs: seq<Job>, store: map<Id, Job>) {
    && UniqueIds(jobs)
    && (forall j :: j in jobs ==> j.id in store && store[j.id] == j)
    && (forall id :: id in store ==> store[id] in jobs)
    && (forall i, k :: 0 <= i < k < |jobs| ==> jobs[i].capture.at <= jobs[k].capture.at)
  }

  lemma BackoffValues()
    ensures BackoffMs(1) == 30_000 && BackoffMs(2) == 60_000 && BackoffMs(3) == 120_000
    ensures BackoffMs(4) == 240_000 && BackoffMs(5) == 480_000
    ensures BackoffSum(0) == 0 && BackoffSum(5) == 930_000
  {
    assert Pow2(0) == 1 && Pow2(1) == 2 && Pow2(2) == 4 && Pow2(3) == 8 && Pow2(4) == 16;
    assert BackoffSum(1) == 30_000;
    assert BackoffSum(2) == 90_000;
    assert BackoffSum(3) == 210_000;
    assert BackoffSum(4) == 450_000;
  }
}
