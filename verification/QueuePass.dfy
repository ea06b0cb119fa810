/**
 * One flush pass as a function of the store, the cached jobs and how each transaction ends,
 * the properties of that function, and the proof that a pass is a run of the machine.
 */
module QueuePass {
  import opened Wrappers
  import opened QueueJobs
  import opened QueueMachine
  import opened QueueTraces

  datatype Memory = Memory(store: map<Id, Job>, cache: seq<Job>)

  /** How sending one job ends, and whether its delete and its write go through. */
  datatype Fate = Fate(answer: Answer, removed: bool, written: bool)

  /** `Stopped`: offline or signed out. `Rejected`: a write failed. `Underway`: not over yet. */
  datatype Ending = Finished | Stopped | Rejected | Underway

  function RemoveJob(mem: Memory, id: Id, ok: bool): Memory {
    Memory(if ok then mem.store - {id} else mem.store, Without(mem.cache, id))
  }

  function WriteJob(mem: Memory, next: Job): Memory {
    Memory(mem.store[next.id := next], Replaced(mem.cache, next))
  }

  /** Sending one job and what follows its answer. */
  function SendOne(mem: Memory, job: Job, now: int, fate: Fate): (Memory, Ending) {
    if fate.answer.Success? then (RemoveJob(mem, job.id, fate.removed), Underway)
    else
      match AfterFailure(job, fate.answer, now)
      case None => (mem, Stopped)
      case Some(next) => if fate.written then (WriteJob(mem, next), Underway) else (mem, Rejected)
  }

  function DrainOne(mem: Memory, job: Job, session: Session, now: int, manual: bool, fate: Fate): (Memory, Ending) {
    match Judge(job, session, now, manual)
    case TooOld => (RemoveJob(mem, job.id, fate.removed), Underway)
    case WrongDepot =>
      if fate.written then (WriteJob(mem, job.(error := Some(STALE_DEPOT_MESSAGE))), Underway) else (mem, Rejected)
    case Send => SendOne(mem, job, now, fate)
    case _ => (mem, Underway)
  }

  function Drain(mem: Memory, todo: seq<Job>, session: Session, now: int, manual: bool, fates: Id -> Fate)
    : (Memory, Ending)
    decreases |todo|
  {
    if todo == [] then (mem, Finished)
    else
      var (mem', ending) := DrainOne(mem, todo[0], session, now, manual, fates(todo[0].id));
      if ending.Underway? then Drain(mem', todo[1..], session, now, manual, fates) else (mem', ending)
  }

  // ---- memory agrees with disk ----

  /** The cached jobs have unique ids and are what the store holds under them. */
  ghost predicate Agrees(mem: Memory) {
    && (forall id :: id in mem.store ==> mem.store[id].id == id)
    && UniqueIds(mem.cache)
    && forall j :: j in mem.cache ==> j.id in mem.store && mem.store[j.id] == j
  }

  /** Every stored job is cached, but for those whose delete failed. */
  ghost predicate Covers(mem: Memory, stranded: set<Id>) {
    forall id :: id in mem.store && id !in stranded ==> mem.store[id] in mem.cache
  }

  /** Ids the pass tried to delete without success. */
  ghost predicate IsStranding(before: set<Id>, after: set<Id>, todo: seq<Job>, fates: Id -> Fate) {
    && before <= after
    && forall id :: id in after - before ==> HasId(todo, id) && !fates(id).removed
  }

  lemma RemoveAgrees(mem: Memory, id: Id, ok: bool, stranded: set<Id>)
    requires Agrees(mem) && Covers(mem, stranded)
    ensures Agrees(RemoveJob(mem, id, ok))
    ensures Covers(RemoveJob(mem, id, ok), if ok then stranded else stranded + {id})
  {}

  lemma WriteAgrees(mem: Memory, next: Job, stranded: set<Id>)
    requires Agrees(mem) && Covers(mem, stranded)
    ensures Agrees(WriteJob(mem, next)) && Covers(WriteJob(mem, next), stranded)
  {}

  lemma OneAgrees(mem: Memory, job: Job, session: Session, now: int, manual: bool, fate: Fate, stranded: set<Id>)
    returns (stranded': set<Id>)
    requires Agrees(mem) && Covers(mem, stranded)
    ensures var mem' := DrainOne(mem, job, session, now, manual, fate).0; Agrees(mem') && Covers(mem', stranded')
    ensures stranded' == stranded || (stranded' == stranded + {job.id} && !fate.removed)
  {
    stranded' := stranded;
    match Judge(job, session, now, manual)
    case TooOld =>
      RemoveAgrees(mem, job.id, fate.removed, stranded);
      stranded' := if fate.removed then stranded else stranded + {job.id};
    case WrongDepot => WriteAgrees(mem, job.(error := Some(STALE_DEPOT_MESSAGE)), stranded);
    case Send =>
      if fate.answer.Success? {
        RemoveAgrees(mem, job.id, fate.removed, stranded);
        stranded' := if fate.removed then stranded else stranded + {job.id};
      } else if AfterFailure(job, fate.answer, now).Some? {
        WriteAgrees(mem, AfterFailure(job, fate.answer, now).value, stranded);
      }
    case _ =>
  }

  /** A whole pass keeps memory and disk in agreement, up to the deletes that failed in it. */
  lemma {:induction false} DrainAgrees(
    mem: Memory, todo: seq<Job>, session: Session, now: int, manual: bool, fates: Id -> Fate, stranded: set<Id>)
    returns (stranded': set<Id>)
    requires Agrees(mem) && Covers(mem, stranded)
    ensures var mem' := Drain(mem, todo, session, now, manual, fates).0; Agrees(mem') && Covers(mem', stranded')
    ensures IsStranding(stranded, stranded', todo, fates)
    decreases |todo|
  {
    stranded' := stranded;
    if todo != [] {
      var job := todo[0];
      stranded' := OneAgrees(mem, job, session, now, manual, fates(job.id), stranded);
      var (mem', ending) := DrainOne(mem, job, session, now, manual, fates(job.id));
      assert HasId(todo, job.id);
      if ending.Underway? {
        var middle := stranded';
        stranded' := DrainAgrees(mem', todo[1..], session, now, manual, fates, middle);
        forall id | id in stranded' - stranded ensures HasId(todo, id) && !fates(id).removed {
          if id !in middle {
            assert HasId(todo[1..], id);
            var j :| j in todo[1..] && j.id == id;
            assert j in todo;
          }
        }
      }
    }
  }

  // ---- what a pass leaves alone ----

  /** Row `id` is as it was. */
  ghost predicate SameRow(before: map<Id, Job>, after: map<Id, Job>, id: Id) {
    (id in after <==> id in before) && (id in before ==> after[id] == before[id])
  }

  /** Jobs outside the list and jobs of another owner are exactly as they were. */
  lemma {:induction false} DrainLeavesOthers(
    mem: Memory, todo: seq<Job>, session: Session, now: int, manual: bool, fates: Id -> Fate, id: Id)
    requires forall j :: j in todo && j.id == id ==> !Owned(j, session)
    ensures SameRow(mem.store, Drain(mem, todo, session, now, manual, fates).0.store, id)
    decreases |todo|
  {
    if todo != [] {
      assert todo[0] in todo;
      var (mem', ending) := DrainOne(mem, todo[0], session, now, manual, fates(todo[0].id));
      if ending.Underway? {
        assert forall j :: j in todo[1..] ==> j in todo;
        DrainLeavesOthers(mem', todo[1..], session, now, manual, fates, id);
      }
    }
  }

  /** Captured for one depot by somebody who now belongs to another. */
  predicate IsForLeftDepot(job: Job, session: Session) {
    && job.capture.kind in {ShiftCheckIn, GallonReturn} && job.capture.payload.depotId != ""
    && session.depot.Some? && session.depot != Some("") && session.depot != Some(job.capture.payload.depotId)
  }

  /** A job a pass sends: owned, within seven days, unmarked, at its depot, and due or sent by hand. */
  predicate IsSent(job: Job, session: Session, now: int, manual: bool) {
    && (job.capture.owner.None? || job.capture.owner == session.owner)
    && now - job.capture.at <= 604_800_000
    && (job.error == None || job.error == Some(""))
    && !IsForLeftDepot(job, session)
    && (manual || job.notBefore.None? || job.notBefore.value <= now)
  }

  predicate IsOffline(a: Answer) {
    a.Refusal? && (a.status == 0 || a.status == 401)
  }

  /** A failure after which the server may still say yes. */
  predicate IsTransient(a: Answer) {
    a.Broken? || (a.Refusal? && (a.status == 408 || a.status == 429 || a.status >= 500))
  }

  lemma SentIffJudged(job: Job, session: Session, now: int, manual: bool)
    ensures IsSent(job, session, now, manual) <==> Judge(job, session, now, manual) == Send
  {}

  lemma OneLeavesOthers(mem: Memory, job: Job, session: Session, now: int, manual: bool, fate: Fate, id: Id)
    requires job.id != id
    ensures SameRow(mem.store, DrainOne(mem, job, session, now, manual, fate).0.store, id)
  {}

  lemma OfflineStops(mem: Memory, job: Job, session: Session, now: int, manual: bool, fate: Fate)
    requires IsSent(job, session, now, manual) && IsOffline(fate.answer)
    ensures DrainOne(mem, job, session, now, manual, fate) == (mem, Stopped)
  {
    SentIffJudged(job, session, now, manual);
  }

  /** When the answer to job `k` is "offline" or 401, it and every later job stay as they were. */
  lemma {:induction false} OfflineKeepsTheRest(
    mem: Memory, todo: seq<Job>, session: Session, now: int, manual: bool, fates: Id -> Fate, k: nat, i: nat)
    requires UniqueIds(todo) && k <= i < |todo|
    requires IsSent(todo[k], session, now, manual) && IsOffline(fates(todo[k].id).answer)
    ensures var (after, ending) := Drain(mem, todo, session, now, manual, fates);
            && ending != Finished
            && SameRow(mem.store, after.store, todo[i].id)
    decreases |todo|
  {
    var (mem', ending) := DrainOne(mem, todo[0], session, now, manual, fates(todo[0].id));
    if k == 0 {
      OfflineStops(mem, todo[0], session, now, manual, fates(todo[0].id));
    } else {
      OneLeavesOthers(mem, todo[0], session, now, manual, fates(todo[0].id), todo[i].id);
      if ending.Underway? {
        OfflineKeepsTheRest(mem', todo[1..], session, now, manual, fates, k - 1, i - 1);
      }
    }
  }

  /** What a step that did not end the pass has done to its job, among the rows of `before`. */
  ghost predicate Settled(before: map<Id, Job>, after: map<Id, Job>, job: Job, v: Verdict, now: int, fate: Fate) {
    match v
    case TooOld => if fate.removed then job.id !in after else SameRow(before, after, job.id)
    case WrongDepot => job.id in after && after[job.id] == job.(error := Some(STALE_DEPOT_MESSAGE))
    case Send =>
      if fate.answer.Success? then if fate.removed then job.id !in after else SameRow(before, after, job.id)
      else AfterFailure(job, fate.answer, now).Some? && job.id in after
           && after[job.id] == AfterFailure(job, fate.answer, now).value
    case _ => SameRow(before, after, job.id)
  }

  lemma OneSettles(mem: Memory, job: Job, session: Session, now: int, manual: bool, fate: Fate)
    requires DrainOne(mem, job, session, now, manual, fate).1.Underway?
    ensures Settled(mem.store, DrainOne(mem, job, session, now, manual, fate).0.store, job,
                    Judge(job, session, now, manual), now, fate)
  {}

  lemma SettledStays(
    before: map<Id, Job>, middle: map<Id, Job>, after: map<Id, Job>, job: Job, v: Verdict, now: int, fate: Fate)
    requires Settled(before, middle, job, v, now, fate) && SameRow(middle, after, job.id)
    ensures Settled(before, after, job, v, now, fate)
  {}

  lemma SettledFrom(
    before: map<Id, Job>, middle: map<Id, Job>, after: map<Id, Job>, job: Job, v: Verdict, now: int, fate: Fate)
    requires SameRow(before, middle, job.id) && Settled(middle, after, job, v, now, fate)
    ensures Settled(before, after, job, v, now, fate)
  {}

  /** A pass that came to its end has settled every job it was allowed to touch. */
  lemma {:induction false} FinishedSettles(
    mem: Memory, todo: seq<Job>, session: Session, now: int, manual: bool, fates: Id -> Fate, i: nat)
    requires UniqueIds(todo) && i < |todo| && Drain(mem, todo, session, now, manual, fates).1.Finished?
    ensures Settled(mem.store, Drain(mem, todo, session, now, manual, fates).0.store, todo[i],
                    Judge(todo[i], session, now, manual), now, fates(todo[i].id))
    decreases |todo|
  {
    var first, v, fate := todo[0], Judge(todo[i], session, now, manual), fates(todo[i].id);
    var mem' := DrainOne(mem, first, session, now, manual, fates(first.id)).0;
    var after := Drain(mem', todo[1..], session, now, manual, fates).0;
    if i > 0 {
      OneLeavesOthers(mem, first, session, now, manual, fates(first.id), todo[i].id);
      FinishedSettles(mem', todo[1..], session, now, manual, fates, i - 1);
      SettledFrom(mem.store, mem'.store, after.store, todo[i], v, now, fate);
    } else {
      OneSettles(mem, first, session, now, manual, fate);
      assert forall j :: j in todo[1..] ==> j.id != first.id;
      DrainLeavesOthers(mem', todo[1..], session, now, manual, fates, first.id);
      SettledStays(mem.store, mem'.store, after.store, first, v, now, fate);
    }
  }

  /**
   * What a finished pass has done to each of its jobs, said without the decision function:
   * deleted when delivered or too old and the delete goes through, marked when refused or out of
   * attempts, put off by its backoff after a transient failure, and otherwise untouched.
   */
  lemma FinishedPassMeans(
    mem: Memory, todo: seq<Job>, session: Session, now: int, manual: bool, fates: Id -> Fate, i: nat)
    requires Agrees(mem) && todo == mem.cache && i < |todo|
    requires Drain(mem, todo, session, now, manual, fates).1.Finished?
    ensures var after, job, fate := Drain(mem, todo, session, now, manual, fates).0.store, todo[i], fates(todo[i].id);
            var id, stays := job.id, job.id in after && after[job.id] == job;
            if IsSent(job, session, now, manual) then
              match fate.answer
              case Success => if fate.removed then id !in after else stays
              case _ =>
                && id in after && !IsOffline(fate.answer)
                && after[id] ==
                   if !IsTransient(fate.answer) then job.(error := Some(fate.answer.message))
                   else if job.attempts >= 5 then job.(attempts := job.attempts + 1, error := Some(fate.answer.message))
                   else
                     var wait := 30_000 * Pow2(job.attempts);
                     job.(attempts := job.attempts + 1,
                          notBefore := Some(now + if wait < 900_000 then wait else 900_000))
            else if job.capture.owner.Some? && job.capture.owner != session.owner then stays
            else if now - job.capture.at > 604_800_000 then if fate.removed then id !in after else stays
            else if job.error.Some? && job.error != Some("") then stays
            else if IsForLeftDepot(job, session) then
              id in after && after[id] == job.(error := Some(STALE_DEPOT_MESSAGE))
            else stays
  {
    FinishedSettles(mem, todo, session, now, manual, fates, i);
    var job, fate := todo[i], fates(todo[i].id);
    assert job in mem.cache;
    SentIffJudged(job, session, now, manual);
    if IsSent(job, session, now, manual) && !fate.answer.Success? {
      assert IsRetryable(fate.answer) && !EndsThePass(fate.answer) ==> IsTransient(fate.answer);
    }
  }

  /** A pass whose answers are not "offline" or 401 and whose writes go through comes to its end. */
  lemma {:induction false} PassComesToItsEnd(
    mem: Memory, todo: seq<Job>, session: Session, now: int, manual: bool, fates: Id -> Fate)
    requires forall j :: j in todo ==> !IsOffline(fates(j.id).answer) && fates(j.id).written
    ensures Drain(mem, todo, session, now, manual, fates).1.Finished?
    decreases |todo|
  {
    if todo != [] {
      assert todo[0] in todo && forall j :: j in todo[1..] ==> j in todo;
      var mem' := DrainOne(mem, todo[0], session, now, manual, fates(todo[0].id)).0;
      PassComesToItsEnd(mem', todo[1..], session, now, manual, fates);
    }
  }

  // ---- a pass is a run of the machine ----

  function TraceSend(t: nat, job: Job, now: int, fate: Fate): seq<Step> {
    [FlushAnswer(t, fate.answer)]
    + if fate.answer.Success? then [FlushRemoved(t, fate.removed)]
      else if AfterFailure(job, fate.answer, now).None? then []
      else [FlushWritten(t, fate.written)]
  }

  function TraceOne(t: nat, job: Job, session: Session, now: int, manual: bool, fate: Fate): seq<Step> {
    match Judge(job, session, now, manual)
    case TooOld => [FlushNext(t), FlushRemoved(t, fate.removed)]
    case WrongDepot => [FlushNext(t), FlushWritten(t, fate.written)]
    case Send => [FlushNext(t)] + TraceSend(t, job, now, fate)
    case _ => [FlushNext(t)]
  }

  function Trace(t: nat, mem: Memory, todo: seq<Job>, session: Session, now: int, manual: bool, fates: Id -> Fate)
    : seq<Step>
    decreases |todo|
  {
    if todo == [] then [FlushNext(t)]
    else
      var (mem', ending) := DrainOne(mem, todo[0], session, now, manual, fates(todo[0].id));
      TraceOne(t, todo[0], session, now, manual, fates(todo[0].id))
      + if ending.Underway? then Trace(t, mem', todo[1..], session, now, manual, fates) else []
  }

  /** Tab `t` and the store hold `mem`; everything else about them and the other tabs is as in `w`. */
  ghost predicate Holds(w: World, w': World, t: nat, mem: Memory, pc: Pc) {
    && t < |w.tabs| == |w'.tabs| && w'.store == mem.store && w'.locks == w.locks
    && w'.tabs[t] == w.tabs[t].(cache := mem.cache, pc := pc)
    && (forall i :: 0 <= i < |w.tabs| && i != t ==> w'.tabs[i] == w.tabs[i])
    && w'.lock == if pc.Idle? && w.lock == Some(t) then None else w.lock
  }

  lemma HoldsTwice(w: World, w1: World, w2: World, t: nat, mem: Memory, mem': Memory, pc: Pc, pc': Pc)
    requires Holds(w, w1, t, mem, pc) && !pc.Idle? && Holds(w1, w2, t, mem', pc')
    ensures Holds(w, w2, t, mem', pc')
  {}

  /** Where a flush waits once it has judged `job`. */
  function Judged(job: Job, session: Session, rest: Pass): Pc {
    match Judge(job, session, rest.now, rest.manual)
    case TooOld => Removing(job, Lapsed, session, rest)
    case WrongDepot => Writing(job, job.(error := Some(STALE_DEPOT_MESSAGE)), session, rest)
    case Send => Sending(job, session, rest)
    case _ => Looping(rest)
  }

  function MemoryOf(w: World, t: nat): Memory
    requires t < |w.tabs|
  {
    Memory(w.store, w.tabs[t].cache)
  }

  lemma NextHolds(w: World, t: nat, todo: seq<Job>, now: int, manual: bool)
    requires t < |w.tabs| && todo != [] && w.tabs[t].pc == Looping(Pass(todo, now, manual))
    ensures Holds(w, Next(w, FlushNext(t)), t, MemoryOf(w, t),
                  Judged(todo[0], w.tabs[t].session, Pass(todo[1..], now, manual)))
  {}

  lemma RemovedHolds(w: World, t: nat, ok: bool)
    requires t < |w.tabs| && w.tabs[t].pc.Removing?
    ensures Holds(w, Next(w, FlushRemoved(t, ok)), t, RemoveJob(MemoryOf(w, t), w.tabs[t].pc.job.id, ok),
                  Looping(w.tabs[t].pc.pass))
  {}

  lemma WrittenHolds(w: World, t: nat, ok: bool)
    requires t < |w.tabs| && w.tabs[t].pc.Writing? && w.tabs[t].pc.next.id == w.tabs[t].pc.job.id
    ensures Holds(w, Next(w, FlushWritten(t, ok)), t,
                  if ok then WriteJob(MemoryOf(w, t), w.tabs[t].pc.next) else MemoryOf(w, t),
                  if ok then Looping(w.tabs[t].pc.pass) else Idle)
  {}

  lemma AnsweredHolds(w: World, t: nat, a: Answer)
    requires t < |w.tabs| && w.tabs[t].pc.Sending?
    ensures var Sending(job, who, pass) := w.tabs[t].pc;
            Holds(w, Next(w, FlushAnswer(t, a)), t, MemoryOf(w, t),
                  if a.Success? then Removing(job, Delivered, who, pass)
                  else if AfterFailure(job, a, pass.now).None? then Idle
                  else Writing(job, AfterFailure(job, a, pass.now).value, who, pass))
  {}

  lemma SendIsRun(w: World, t: nat, fate: Fate)
    requires t < |w.tabs| && w.tabs[t].pc.Sending?
    ensures var Sending(job, who, pass) := w.tabs[t].pc;
            var (mem, ending) := SendOne(MemoryOf(w, t), job, pass.now, fate);
            Holds(w, Exec(w, TraceSend(t, job, pass.now, fate)), t, mem,
                  if ending.Underway? then Looping(pass) else Idle)
  {
    var job, pass := w.tabs[t].pc.job, w.tabs[t].pc.pass;
    var a := FlushAnswer(t, fate.answer);
    var w1 := Next(w, a);
    AnsweredHolds(w, t, fate.answer);
    ExecOne(w, a);
    assert [a] + [] == [a];
    if fate.answer.Success? {
      ExecSnoc(w, [a], FlushRemoved(t, fate.removed));
      RemovedHolds(w1, t, fate.removed);
    } else if AfterFailure(job, fate.answer, pass.now).Some? {
      ExecSnoc(w, [a], FlushWritten(t, fate.written));
      WrittenHolds(w1, t, fate.written);
    }
  }

  lemma JudgedSendIsRun(w: World, t: nat, todo: seq<Job>, now: int, manual: bool, fate: Fate)
    requires t < |w.tabs| && todo != [] && w.tabs[t].pc == Looping(Pass(todo, now, manual))
    requires Judge(todo[0], w.tabs[t].session, now, manual) == Send
    ensures var (mem, ending) := SendOne(MemoryOf(w, t), todo[0], now, fate);
            Holds(w, Exec(w, [FlushNext(t)] + TraceSend(t, todo[0], now, fate)), t, mem,
                  if ending.Underway? then Looping(Pass(todo[1..], now, manual)) else Idle)
  {
    var n, pass := FlushNext(t), Pass(todo[1..], now, manual);
    var w1 := Next(w, n);
    NextHolds(w, t, todo, now, manual);
    ExecOne(w, n);
    SendIsRun(w1, t, fate);
    ExecConcat(w, [n], TraceSend(t, todo[0], now, fate));
    var (mem, ending) := SendOne(MemoryOf(w, t), todo[0], now, fate);
    HoldsTwice(w, w1, Exec(w1, TraceSend(t, todo[0], now, fate)), t, MemoryOf(w, t), mem,
               Sending(todo[0], w.tabs[t].session, pass), if ending.Underway? then Looping(pass) else Idle);
  }

  lemma JudgedOtherwiseIsRun(w: World, t: nat, todo: seq<Job>, now: int, manual: bool, fate: Fate)
    requires t < |w.tabs| && todo != [] && w.tabs[t].pc == Looping(Pass(todo, now, manual))
    requires Judge(todo[0], w.tabs[t].session, now, manual) != Send
    ensures var (mem, ending) := DrainOne(MemoryOf(w, t), todo[0], w.tabs[t].session, now, manual, fate);
            Holds(w, Exec(w, TraceOne(t, todo[0], w.tabs[t].session, now, manual, fate)), t, mem,
                  if ending.Underway? then Looping(Pass(todo[1..], now, manual)) else Idle)
  {
    var n := FlushNext(t);
    var w1 := Next(w, n);
    NextHolds(w, t, todo, now, manual);
    ExecOne(w, n);
    match Judge(todo[0], w.tabs[t].session, now, manual)
    case TooOld =>
      ExecFew(w, n, FlushRemoved(t, fate.removed), n);
      RemovedHolds(w1, t, fate.removed);
    case WrongDepot =>
      ExecFew(w, n, FlushWritten(t, fate.written), n);
      WrittenHolds(w1, t, fate.written);
    case _ =>
  }

  lemma OneIsRun(w: World, t: nat, todo: seq<Job>, now: int, manual: bool, fate: Fate)
    requires t < |w.tabs| && todo != [] && w.tabs[t].pc == Looping(Pass(todo, now, manual))
    ensures var (mem, ending) := DrainOne(MemoryOf(w, t), todo[0], w.tabs[t].session, now, manual, fate);
            Holds(w, Exec(w, TraceOne(t, todo[0], w.tabs[t].session, now, manual, fate)), t, mem,
                  if ending.Underway? then Looping(Pass(todo[1..], now, manual)) else Idle)
  {
    if Judge(todo[0], w.tabs[t].session, now, manual) == Send {
      JudgedSendIsRun(w, t, todo, now, manual, fate);
    } else {
      JudgedOtherwiseIsRun(w, t, todo, now, manual, fate);
    }
  }

  /** A pass over `todo` is a run of tab `t` alone: what runs keep, a pass keeps. */
  lemma {:induction false} DrainIsRun(
    w: World, t: nat, todo: seq<Job>, now: int, manual: bool, fates: Id -> Fate)
    requires t < |w.tabs| && w.tabs[t].pc == Looping(Pass(todo, now, manual))
    ensures var mem, session := MemoryOf(w, t), w.tabs[t].session;
            Holds(w, Exec(w, Trace(t, mem, todo, session, now, manual, fates)), t,
                  Drain(mem, todo, session, now, manual, fates).0, Idle)
    decreases |todo|
  {
    var mem, session := MemoryOf(w, t), w.tabs[t].session;
    if todo == [] {
      ExecOne(w, FlushNext(t));
    } else {
      var fate := fates(todo[0].id);
      var one := TraceOne(t, todo[0], session, now, manual, fate);
      var (mem', ending) := DrainOne(mem, todo[0], session, now, manual, fate);
      OneIsRun(w, t, todo, now, manual, fate);
      var w1 := Exec(w, one);
      if ending.Underway? {
        DrainIsRun(w1, t, todo[1..], now, manual, fates);
        var rest := Trace(t, mem', todo[1..], session, now, manual, fates);
        ExecConcat(w, one, rest);
        HoldsTwice(w, w1, Exec(w1, rest), t, mem', Drain(mem', todo[1..], session, now, manual, fates).0,
                   Looping(Pass(todo[1..], now, manual)), Idle);
      } else {
        assert one + [] == one;
      }
    }
  }
}
