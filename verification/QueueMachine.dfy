/**
 * The offline queue as a machine of many tabs over one store, one server and one Web Lock.
 *
 * One step is what runs between two awaits: an IndexedDB transaction together with its
 * continuation, or the answer of one `run`. Steps of different tabs interleave freely, the
 * server answers as it likes, the clock is set to anything, and a tab may die at any point.
 * A step that is not enabled changes nothing, so a run is any sequence of steps.
 */
module QueueMachine {
  import opened Wrappers
  import opened QueueJobs

  /** What a flush still has to do. */
  datatype Pass = Pass(todo: seq<Job>, now: int, manual: bool)

  datatype Reason = Delivered | Lapsed

  /** Where a tab's flush is waiting. `who` is the session under which the job was judged. */
  datatype Pc =
    | Idle
    | Rereading(manual: bool)
    | Starting(manual: bool)
    | Looping(pass: Pass)
    | Sending(job: Job, who: Session, pass: Pass)
    | Removing(job: Job, why: Reason, who: Session, pass: Pass)
    | Writing(job: Job, next: Job, who: Session, pass: Pass)

  datatype Tab = Tab(session: Session, cache: seq<Job>, hydrated: bool, pc: Pc)

  /** A capture being sent live, and one whose live send failed and is being stored. */
  datatype Live = Attempt(tab: nat, kind: Kind, payload: Payload, at: int) | Keeping(tab: nat, job: Job)

  /**
   * What happened so far. `won` counts successful answers, `lost` counts deletes that should
   * have followed one and did not happen, `kept` holds what was stored, `refused` the jobs
   * marked with an error, `firstFail` and `gaveUp` the `now` of the pass that counted a job's
   * first failure and that ran out of attempts, `hurried` the jobs with a failure counted by
   * a pass that ignored backoff.
   */
  datatype History = History(
    won: multiset<Id>, lost: multiset<Id>, kept: map<Id, Capture>, refused: set<Id>,
    firstFail: map<Id, int>, gaveUp: map<Id, int>, hurried: set<Id>)

  datatype World = World(
    locks: bool, lock: Option<nat>, clock: int, store: map<Id, Job>, tabs: seq<Tab>,
    live: map<Id, Live>, next: Id, hist: History)

  /** How one `hydrate` ends: already hydrated, the rows read, or the read failed. */
  datatype Read = Skip | Rows(listing: seq<Job>) | Failed

  datatype Step =
    | Tick(now: int)
    | SignIn(tab: nat, session: Session)
    | Load(tab: nat, read: Read)
    | BeginCapture(tab: nat, kind: Kind, payload: Payload)
    | LiveAnswer(id: Id, answer: Answer)
    | LiveStored(id: Id, ok: bool)
    | UserDiscard(tab: nat, id: Id, ok: bool)
    | BeginFlush(tab: nat, manual: bool)
    | FlushLoad(tab: nat, read: Read)
    | FlushNext(tab: nat)
    | FlushAnswer(tab: nat, answer: Answer)
    | FlushRemoved(tab: nat, ok: bool)
    | FlushWritten(tab: nat, ok: bool)
    | Crash(tab: nat)

  ghost predicate ReadAllowed(w: World, tab: Tab, read: Read) {
    match read
    case Skip => tab.hydrated
    case Rows(listing) => IsListing(listing, w.store)
    case Failed => true
  }

  ghost predicate Enabled(w: World, st: Step) {
    match st
    case Tick(_) => true
    case LiveAnswer(id, _) => id in w.live && w.live[id].Attempt? && w.live[id].tab < |w.tabs|
    case LiveStored(id, _) => id in w.live && w.live[id].Keeping? && w.live[id].tab < |w.tabs|
    case Load(tab, read) => tab < |w.tabs| && ReadAllowed(w, w.tabs[tab], read)
    case BeginFlush(tab, _) => tab < |w.tabs| && w.tabs[tab].pc.Idle? && (w.locks ==> w.lock.None?)
    case FlushLoad(tab, read) =>
      && tab < |w.tabs| && (w.tabs[tab].pc.Rereading? || w.tabs[tab].pc.Starting?)
      && ReadAllowed(w, w.tabs[tab], read)
    case FlushNext(tab) => tab < |w.tabs| && w.tabs[tab].pc.Looping?
    case FlushAnswer(tab, _) => tab < |w.tabs| && w.tabs[tab].pc.Sending?
    case FlushRemoved(tab, _) => tab < |w.tabs| && w.tabs[tab].pc.Removing?
    case FlushWritten(tab, _) => tab < |w.tabs| && w.tabs[tab].pc.Writing?
    case _ => st.tab < |w.tabs|
  }

  function SetTab(w: World, t: nat, tab: Tab): World
    requires t < |w.tabs|
  {
    w.(tabs := w.tabs[t := tab])
  }

  /** The flush of tab `t` is over: its promise settles and the lock, if it held it, is free. */
  function Finish(w: World, t: nat): World
    requires t < |w.tabs|
  {
    SetTab(w, t, w.tabs[t].(pc := Idle)).(lock := if w.lock == Some(t) then None else w.lock)
  }

  function Hydrated(tab: Tab, read: Read): Tab {
    match read
    case Skip => tab
    case Rows(listing) => tab.(cache := listing, hydrated := true)
    case Failed => tab.(cache := [])
  }

  function NextJob(w: World, t: nat, pass: Pass): World
    requires t < |w.tabs|
  {
    if pass.todo == [] then Finish(w, t)
    else
      var job := pass.todo[0];
      var rest := pass.(todo := pass.todo[1..]);
      var tab := w.tabs[t];
      var pc := match Judge(job, tab.session, pass.now, pass.manual)
                case TooOld => Removing(job, Lapsed, tab.session, rest)
                case WrongDepot => Writing(job, job.(error := Some(STALE_DEPOT_MESSAGE)), tab.session, rest)
                case Send => Sending(job, tab.session, rest)
                case _ => Looping(rest);
      SetTab(w, t, tab.(pc := pc))
  }

  function Answered(w: World, t: nat, a: Answer): World
    requires t < |w.tabs| && w.tabs[t].pc.Sending?
  {
    var tab := w.tabs[t];
    var Sending(job, who, pass) := tab.pc;
    if a.Success? then
      SetTab(w, t, tab.(pc := Removing(job, Delivered, who, pass)))
      .(hist := w.hist.(won := w.hist.won + multiset{job.id}))
    else
      match AfterFailure(job, a, pass.now)
      case None => Finish(w, t)
      case Some(next) => SetTab(w, t, tab.(pc := Writing(job, next, who, pass)))
  }

  function Removed(w: World, t: nat, ok: bool): World
    requires t < |w.tabs| && w.tabs[t].pc.Removing?
  {
    var tab := w.tabs[t];
    var Removing(job, why, who, pass) := tab.pc;
    var w' := SetTab(w, t, tab.(cache := Without(tab.cache, job.id), pc := Looping(pass)));
    if ok then w'.(store := w.store - {job.id})
    else if why.Delivered? then w'.(hist := w.hist.(lost := w.hist.lost + multiset{job.id}))
    else w'
  }

  function Recorded(h: History, job: Job, next: Job, pass: Pass): History {
    var counted := next.attempts > job.attempts;
    h.(refused := if Truthy(next.error) then h.refused + {job.id} else h.refused,
       firstFail := if counted && job.id !in h.firstFail then h.firstFail[job.id := pass.now] else h.firstFail,
       gaveUp := if counted && next.attempts >= MAX_ATTEMPTS && job.id !in h.gaveUp
                 then h.gaveUp[job.id := pass.now] else h.gaveUp,
       hurried := if counted && pass.manual then h.hurried + {job.id} else h.hurried)
  }

  /** A write that fails rejects the flush: the rest of the pass does not happen. */
  function Written(w: World, t: nat, ok: bool): World
    requires t < |w.tabs| && w.tabs[t].pc.Writing?
  {
    var tab := w.tabs[t];
    var Writing(job, next, who, pass) := tab.pc;
    if ok then
      SetTab(w, t, tab.(cache := Replaced(tab.cache, next), pc := Looping(pass)))
      .(store := w.store[job.id := next], hist := Recorded(w.hist, job, next, pass))
    else Finish(w, t)
  }

  function LiveAnswered(w: World, id: Id, a: Answer): World
    requires id in w.live && w.live[id].Attempt? && w.live[id].tab < |w.tabs|
  {
    var Attempt(t, kind, payload, at) := w.live[id];
    if a.Success? then w.(live := w.live - {id}, hist := w.hist.(won := w.hist.won + multiset{id}))
    else if !IsRetryable(a) then w.(live := w.live - {id})
    else
      var capture := Capture(kind, payload, at, w.tabs[t].session.owner);
      w.(live := w.live[id := Keeping(t, Job(id, capture, None, 0, None))])
  }

  function LiveWritten(w: World, id: Id, ok: bool): World
    requires id in w.live && w.live[id].Keeping? && w.live[id].tab < |w.tabs|
  {
    var Keeping(t, job) := w.live[id];
    var w' := w.(live := w.live - {id});
    if ok then
      SetTab(w', t, w.tabs[t].(cache := Replaced(w.tabs[t].cache, job)))
      .(store := w.store[id := job], hist := w.hist.(kept := w.hist.kept[id := job.capture]))
    else w'
  }

  /** The tab is gone: its memory, its flush and its unsettled captures with it. */
  function Crashed(w: World, t: nat): World
    requires t < |w.tabs|
  {
    var tab := w.tabs[t];
    var lost := if tab.pc.Removing? && tab.pc.why.Delivered? then multiset{tab.pc.job.id} else multiset{};
    Finish(SetTab(w, t, tab.(cache := [], hydrated := false)), t)
    .(live := map id | id in w.live && w.live[id].tab != t :: w.live[id],
      hist := w.hist.(lost := w.hist.lost + lost))
  }

  function Apply(w: World, st: Step): World
    requires Enabled(w, st)
  {
    match st
    case Tick(now) => w.(clock := now)
    case SignIn(t, session) => SetTab(w, t, w.tabs[t].(session := session))
    case Load(t, read) => SetTab(w, t, Hydrated(w.tabs[t], read))
    case BeginCapture(t, kind, payload) =>
      w.(live := w.live[w.next := Attempt(t, kind, payload, w.clock)], next := w.next + 1)
    case LiveAnswer(id, a) => LiveAnswered(w, id, a)
    case LiveStored(id, ok) => LiveWritten(w, id, ok)
    case UserDiscard(t, id, ok) =>
      SetTab(w, t, w.tabs[t].(cache := Without(w.tabs[t].cache, id)))
      .(store := if ok then w.store - {id} else w.store)
    case BeginFlush(t, manual) =>
      if w.locks then
        SetTab(w, t, w.tabs[t].(hydrated := false, pc := Rereading(manual))).(lock := Some(t))
      else SetTab(w, t, w.tabs[t].(pc := Starting(manual)))
    case FlushLoad(t, read) =>
      var tab := Hydrated(w.tabs[t], read);
      var pc := if tab.pc.Rereading? then Starting(tab.pc.manual)
                else Looping(Pass(tab.cache, w.clock, tab.pc.manual));
      SetTab(w, t, tab.(pc := pc))
    case FlushNext(t) => NextJob(w, t, w.tabs[t].pc.pass)
    case FlushAnswer(t, a) => Answered(w, t, a)
    case FlushRemoved(t, ok) => Removed(w, t, ok)
    case FlushWritten(t, ok) => Written(w, t, ok)
    case Crash(t) => Crashed(w, t)
  }

  ghost function Next(w: World, st: Step): World {
    if Enabled(w, st) then Apply(w, st) else w
  }

  ghost function Exec(w: World, steps: seq<Step>): World
    decreases |steps|
  {
    if steps == [] then w else Next(Exec(w, steps[..|steps| - 1]), steps[|steps| - 1])
  }

  const NOTHING := History(multiset{}, multiset{}, map[], {}, map[], map[], {})

  /** No work captured yet and no flush running; memory, clock and sessions are arbitrary. */
  ghost predicate Initial(w: World) {
    && w.lock.None? && w.store == map[] && w.live == map[] && w.hist == NOTHING
    && (forall t :: 0 <= t < |w.tabs| ==> w.tabs[t].pc.Idle? && w.tabs[t].cache == [])
  }
}
