/**
 * What one flush at a time adds to the invariant of the queue machine. The Web Lock gives it to
 * any number of tabs; without locks the in-page guard gives it to a single tab.
 */
module QueueLock {
  import opened Wrappers
  import opened QueueJobs
  import opened QueueMachine
  import opened QueueSafety

  /** The jobs a running flush may still send or write. */
  function Hand(tab: Tab): seq<Job> {
    match tab.pc
    case Idle => []
    case Rereading(_) => if tab.hydrated then tab.cache else []
    case Starting(_) => if tab.hydrated then tab.cache else []
    case Looping(pass) => pass.todo
    case Sending(job, _, pass) => [job] + pass.todo
    case Removing(_, _, _, pass) => pass.todo
    case Writing(job, _, _, pass) => [job] + pass.todo
  }

  function Step5(n: nat): nat {
    if n <= 5 then n else 5
  }

  /** A job's timer lies at least its counted backoffs after its first counted failure. */
  ghost predicate Paced(h: History, j: Job) {
    j.attempts >= 1 && j.id !in h.hurried ==>
      && j.id in h.firstFail && j.notBefore.Some?
      && j.notBefore.value >= h.firstFail[j.id] + BackoffSum(Step5(j.attempts))
  }

  /** A copy no older than what the history says of the job. */
  ghost predicate Current(h: History, j: Job) {
    && Paced(h, j)
    && (j.id in h.firstFail ==> j.attempts >= 1)
    && (j.id in h.refused ==> Truthy(j.error))
  }

  ghost predicate Unspent(h: History, id: Id) {
    h.won[id] <= h.lost[id]
  }

  /** The tab whose flush may be under way: the lock's holder, or the only tab while it flushes. */
  function Holder(w: World): Option<nat> {
    if w.locks then w.lock
    else if |w.tabs| == 1 && !w.tabs[0].pc.Idle? then Some(0)
    else None
  }

  ghost predicate Delivering(w: World, id: Id) {
    && Holder(w).Some? && Holder(w).value < |w.tabs|
    && var pc := w.tabs[Holder(w).value].pc; pc.Removing? && pc.why.Delivered? && pc.job.id == id
  }

  ghost predicate Exclusive(w: World) {
    && (w.locks || |w.tabs| <= 1)
    && forall t :: 0 <= t < |w.tabs| ==> (w.tabs[t].pc.Idle? <==> Holder(w) != Some(t))
  }

  ghost predicate CurrentStore(w: World) {
    forall id :: id in w.store ==> Current(w.hist, w.store[id]) && (Unspent(w.hist, id) || Delivering(w, id))
  }

  ghost predicate CurrentHand(h: History, tab: Tab) {
    forall j :: j in Hand(tab) ==> Current(h, j) && Unspent(h, j.id)
  }

  ghost predicate LateSurrenders(h: History) {
    forall id :: id in h.gaveUp && id !in h.hurried ==>
      id in h.firstFail && h.gaveUp[id] - h.firstFail[id] >= BackoffSum(5)
  }

  ghost predicate OncePerLoss(h: History) {
    forall id :: h.won[id] <= h.lost[id] + 1
  }

  ghost predicate Guarded(w: World) {
    && Exclusive(w) && CurrentStore(w) && OncePerLoss(w.hist) && LateSurrenders(w.hist)
    && (forall t :: 0 <= t < |w.tabs| ==> CurrentHand(w.hist, w.tabs[t]))
  }

  /** Only tab `t` changed, and it is the holder exactly while its flush runs. */
  ghost predicate OnlyTab(w: World, w': World, t: nat) {
    && t < |w.tabs| == |w'.tabs| && w'.locks == w.locks
    && (forall i :: 0 <= i < |w.tabs| && i != t ==> w'.tabs[i] == w.tabs[i])
    && Holder(w') == if w'.tabs[t].pc.Idle? then None else Some(t)
  }

  lemma FlushStepsStayInTheirTab(w: World, st: Step)
    requires Enabled(w, st) && (st.FlushNext? || st.FlushAnswer? || st.FlushRemoved? || st.FlushWritten?)
    requires Exclusive(w) && Holder(w) == Some(st.tab)
    ensures OnlyTab(w, Apply(w, st), st.tab)
  {}

  lemma HolderFlushes(w: World, t: nat)
    requires Guarded(w) && t < |w.tabs| && !w.tabs[t].pc.Idle?
    ensures Holder(w) == Some(t)
  {}

  /** A step of tab `t` when no other tab is flushing. */
  lemma GuardedFrom(w: World, w': World, t: nat)
    requires Guarded(w) && OnlyTab(w, w', t) && (Holder(w).None? || Holder(w) == Some(t))
    requires CurrentStore(w') && CurrentHand(w'.hist, w'.tabs[t]) && OncePerLoss(w'.hist) && LateSurrenders(w'.hist)
    ensures Guarded(w')
  {
    forall i | 0 <= i < |w.tabs| && i != t ensures w'.tabs[i].pc.Idle? {
      assert w.tabs[i].pc.Idle? <==> Holder(w) != Some(i);
    }
  }

  /** A step of a page that leaves lock, history and flush program counters alone. */
  lemma GuardedBeside(w: World, w': World, t: nat)
    requires Guarded(w) && t < |w.tabs| == |w'.tabs|
    requires w'.locks == w.locks && Holder(w') == Holder(w) && w'.hist == w.hist
    requires forall i :: 0 <= i < |w.tabs| && i != t ==> w'.tabs[i] == w.tabs[i]
    requires w'.tabs[t].pc == w.tabs[t].pc
    requires forall id :: id in w'.store ==> id in w.store && w'.store[id] == w.store[id]
    requires CurrentHand(w'.hist, w'.tabs[t])
    ensures Guarded(w')
  {
    assert forall id :: Delivering(w', id) == Delivering(w, id);
  }

  /** Nobody's flush moved. */
  ghost predicate SamePcs(w: World, w': World) {
    && w'.locks == w.locks && w'.lock == w.lock && |w'.tabs| == |w.tabs|
    && forall t :: 0 <= t < |w.tabs| ==> w'.tabs[t].pc == w.tabs[t].pc
  }

  lemma SameHolder(w: World, w': World)
    requires SamePcs(w, w')
    ensures Holder(w') == Holder(w) && forall id :: Delivering(w', id) == Delivering(w, id)
    ensures Exclusive(w) ==> Exclusive(w')
  {}

  lemma HandShrinks(h: History, tab: Tab, tab': Tab)
    requires CurrentHand(h, tab) && forall j :: j in Hand(tab') ==> j in Hand(tab)
    ensures CurrentHand(h, tab')
  {}

  lemma NobodyDelivers(w: World, t: nat)
    requires Guarded(w) && t < |w.tabs| && Holder(w) == Some(t) && !w.tabs[t].pc.Removing?
    ensures forall id :: id in w.store ==> Unspent(w.hist, id)
  {
    assert forall id :: !Delivering(w, id);
  }

  lemma HydratedIsCurrent(w: World, t: nat, read: Read)
    requires Base(w) && Guarded(w) && t < |w.tabs| && ReadAllowed(w, w.tabs[t], read)
    ensures CurrentHand(w.hist, Hydrated(w.tabs[t], read))
  {
    var tab := w.tabs[t];
    assert CurrentHand(w.hist, tab);
    if read.Rows? && (tab.pc.Rereading? || tab.pc.Starting?) {
      forall j | j in read.listing ensures Current(w.hist, j) && Unspent(w.hist, j.id) {
        assert w.store[j.id] == j;
        assert !Delivering(w, j.id);
      }
    }
  }

  /** Every cached job is what the store holds under its id. */
  ghost predicate CacheAgrees(w: World) {
    forall t, j :: 0 <= t < |w.tabs| && j in w.tabs[t].cache ==> j.id in w.store && w.store[j.id] == j
  }

  /** A flush that starts finds no delivery under way, so what it may start from is unspent. */
  lemma NobodyBegins(w: World, t: nat)
    requires Guarded(w) && t < |w.tabs| && w.tabs[t].pc.Idle? && (w.locks ==> w.lock.None?)
    requires w.locks || CacheAgrees(w)
    ensures Holder(w).None? && forall id :: !Delivering(w, id)
    ensures !w.locks ==> forall j :: j in w.tabs[t].cache ==> Current(w.hist, j) && Unspent(w.hist, j.id)
  {}

  lemma CacheShrinks(w: World, w': World)
    requires |w.tabs| == 1 && |w'.tabs| == 1 && CacheAgrees(w) && w'.store == w.store
    requires forall j :: j in w'.tabs[0].cache ==> j in w.tabs[0].cache
    ensures CacheAgrees(w')
  {}

  lemma AnsweredLeaves(w: World, t: nat, a: Answer)
    requires t < |w.tabs| && w.tabs[t].pc.Sending?
    ensures var w' := Answered(w, t, a);
            && w'.hist.kept == w.hist.kept && w'.store == w.store && w'.live == w.live && w'.next == w.next
            && w'.locks == w.locks && |w'.tabs| == |w.tabs|
            && w'.tabs[t].cache == w.tabs[t].cache && w'.tabs[t].hydrated == w.tabs[t].hydrated
  {}

  lemma LiveKeepsCache(w: World, st: Step)
    requires Base(w) && |w.tabs| == 1 && CacheAgrees(w) && Enabled(w, st)
    requires st.LiveAnswer? || st.LiveStored? || st.BeginCapture? || st.Crash?
    ensures |Next(w, st).tabs| == 1 && CacheAgrees(Next(w, st))
  {
    if st.LiveStored? {
      assert w.live[st.id].job.id == st.id;
    } else {
      CacheShrinks(w, Next(w, st));
    }
  }

  lemma WrittenKeepsCache(w: World, t: nat, ok: bool)
    requires Base(w) && |w.tabs| == 1 && CacheAgrees(w) && t == 0 && w.tabs[t].pc.Writing?
    ensures |Written(w, t, ok).tabs| == 1 && CacheAgrees(Written(w, t, ok))
  {
    assert GoodTab(w.hist, w.tabs[t]);
    assert w.tabs[t].pc.next.id == w.tabs[t].pc.job.id;
  }

  lemma RemovedKeepsCache(w: World, t: nat, ok: bool)
    requires |w.tabs| == 1 && CacheAgrees(w) && t == 0 && w.tabs[t].pc.Removing?
    ensures |Removed(w, t, ok).tabs| == 1 && CacheAgrees(Removed(w, t, ok))
  {}

  lemma FlushKeepsCache(w: World, st: Step)
    requires Base(w) && |w.tabs| == 1 && CacheAgrees(w) && Enabled(w, st)
    requires st.FlushNext? || st.FlushAnswer? || st.FlushRemoved? || st.FlushWritten?
    ensures |Next(w, st).tabs| == 1 && CacheAgrees(Next(w, st))
  {
    match st
    case FlushNext(t) =>
      NextJobLeaves(w, t, w.tabs[t].pc.pass);
      CacheShrinks(w, Next(w, st));
    case FlushAnswer(t, a) =>
      AnsweredLeaves(w, t, a);
      CacheShrinks(w, Next(w, st));
    case FlushWritten(t, ok) => WrittenKeepsCache(w, t, ok);
    case FlushRemoved(t, ok) => RemovedKeepsCache(w, t, ok);
  }

  lemma QuietKeepsCache(w: World, st: Step)
    requires |w.tabs| == 1 && CacheAgrees(w) && Enabled(w, st) && Quiet(st)
    ensures |Next(w, st).tabs| == 1 && CacheAgrees(Next(w, st))
  {}

  lemma HasTab(w: World, st: Step)
    requires Enabled(w, st) && !st.Tick?
    ensures |w.tabs| >= 1
  {}

  /** With a single tab memory never runs ahead of the store. */
  lemma StepKeepsCache(w: World, st: Step)
    requires Base(w) && |w.tabs| <= 1 && CacheAgrees(w)
    ensures |Next(w, st).tabs| == |w.tabs| && CacheAgrees(Next(w, st))
  {
    if Enabled(w, st) && !st.Tick? {
      HasTab(w, st);
      if Quiet(st) {
        QuietKeepsCache(w, st);
      } else if st.LiveAnswer? || st.LiveStored? || st.BeginCapture? || st.Crash? {
        LiveKeepsCache(w, st);
      } else {
        FlushKeepsCache(w, st);
      }
    }
  }

  lemma BeginKeepsGuarded(w: World, t: nat, manual: bool)
    requires Guarded(w) && Enabled(w, BeginFlush(t, manual)) && (w.locks || CacheAgrees(w))
    ensures Guarded(Apply(w, BeginFlush(t, manual)))
  {
    NobodyBegins(w, t);
    GuardedFrom(w, Apply(w, BeginFlush(t, manual)), t);
  }

  lemma LoadKeepsGuarded(w: World, t: nat, read: Read)
    requires Base(w) && Guarded(w) && Enabled(w, FlushLoad(t, read))
    ensures Guarded(Apply(w, FlushLoad(t, read)))
  {
    HydratedIsCurrent(w, t, read);
    HolderFlushes(w, t);
    NobodyDelivers(w, t);
    LoadedHand(w, t, read);
    GuardedFrom(w, Apply(w, FlushLoad(t, read)), t);
  }

  lemma QuietKeepsGuarded(w: World, st: Step)
    requires Base(w) && Guarded(w) && Enabled(w, st) && Quiet(st) && (w.locks || CacheAgrees(w))
    ensures Guarded(Apply(w, st))
  {
    match st
    case Tick(_) => SameHolder(w, Apply(w, st));
    case SignIn(t, _) => PageKeepsGuarded(w, st);
    case Load(t, read) => PageKeepsGuarded(w, st);
    case UserDiscard(t, _, _) => PageKeepsGuarded(w, st);
    case BeginFlush(t, manual) => BeginKeepsGuarded(w, t, manual);
    case FlushLoad(t, read) => LoadKeepsGuarded(w, t, read);
  }

  lemma PageKeepsGuarded(w: World, st: Step)
    requires Base(w) && Guarded(w) && Enabled(w, st) && (st.SignIn? || st.Load? || st.UserDiscard?)
    ensures Guarded(Apply(w, st))
  {
    var w' := Apply(w, st);
    SameHolder(w, w');
    if st.Load? {
      HydratedIsCurrent(w, st.tab, st.read);
    } else {
      HandShrinks(w.hist, w.tabs[st.tab], w'.tabs[st.tab]);
    }
    GuardedBeside(w, w', st.tab);
  }

  lemma LoadedHand(w: World, t: nat, read: Read)
    requires Base(w) && Guarded(w) && Enabled(w, FlushLoad(t, read))
    requires CurrentHand(w.hist, Hydrated(w.tabs[t], read))
    ensures CurrentHand(w.hist, Apply(w, FlushLoad(t, read)).tabs[t])
  {
    HandShrinks(w.hist, Hydrated(w.tabs[t], read), Apply(w, FlushLoad(t, read)).tabs[t]);
  }

  lemma NextJobLeaves(w: World, t: nat, pass: Pass)
    requires t < |w.tabs|
    ensures var w' := NextJob(w, t, pass);
            && w'.hist == w.hist && w'.store == w.store && w'.live == w.live && w'.next == w.next
            && w'.locks == w.locks && |w'.tabs| == |w.tabs|
            && w'.tabs[t].cache == w.tabs[t].cache && w'.tabs[t].hydrated == w.tabs[t].hydrated
  {}

  lemma NextJobHand(w: World, t: nat)
    requires Guarded(w) && Enabled(w, FlushNext(t))
    ensures CurrentHand(w.hist, NextJob(w, t, w.tabs[t].pc.pass).tabs[t])
  {
    NextHandShrinks(w, t, w.tabs[t].pc.pass);
    HandShrinks(w.hist, w.tabs[t], NextJob(w, t, w.tabs[t].pc.pass).tabs[t]);
  }

  lemma NextHandShrinks(w: World, t: nat, pass: Pass)
    requires t < |w.tabs|
    ensures forall j :: j in Hand(NextJob(w, t, pass).tabs[t]) ==> j in pass.todo
  {
    if pass.todo != [] {
      assert [pass.todo[0]] + pass.todo[1..] == pass.todo;
    }
  }

  lemma NextJobKeepsGuarded(w: World, t: nat)
    requires Guarded(w) && Enabled(w, FlushNext(t))
    ensures Guarded(Apply(w, FlushNext(t)))
  {
    HolderFlushes(w, t);
    FlushStepsStayInTheirTab(w, FlushNext(t));
    NextJobHand(w, t);
    NextJobLeaves(w, t, w.tabs[t].pc.pass);
    NobodyDelivers(w, t);
    GuardedFrom(w, Apply(w, FlushNext(t)), t);
  }

  lemma DeliveredHand(w: World, t: nat)
    requires Enabled(w, FlushAnswer(t, Success)) && GoodTab(w.hist, w.tabs[t]) && CurrentHand(w.hist, w.tabs[t])
    ensures CurrentHand(Answered(w, t, Success).hist, Answered(w, t, Success).tabs[t])
    ensures Unspent(w.hist, w.tabs[t].pc.job.id)
  {
    var h', job, todo := Answered(w, t, Success).hist, w.tabs[t].pc.job, w.tabs[t].pc.pass.todo;
    TailsAreGood(w.hist, job, todo);
    assert job in Hand(w.tabs[t]);
    forall j | j in todo ensures Current(h', j) && Unspent(h', j.id) {
      assert j in Hand(w.tabs[t]);
    }
  }

  lemma DeliveredKeepsGuarded(w: World, t: nat)
    requires Base(w) && Guarded(w) && Enabled(w, FlushAnswer(t, Success))
    ensures Guarded(Apply(w, FlushAnswer(t, Success)))
  {
    var w', job := Apply(w, FlushAnswer(t, Success)), w.tabs[t].pc.job;
    HolderFlushes(w, t);
    FlushStepsStayInTheirTab(w, FlushAnswer(t, Success));
    DeliveredHand(w, t);
    assert CurrentStore(w') by {
      NobodyDelivers(w, t);
      assert Delivering(w', job.id);
    }
    GuardedFrom(w, w', t);
  }

  lemma FailedKeepsGuarded(w: World, t: nat, a: Answer)
    requires Guarded(w) && Enabled(w, FlushAnswer(t, a)) && !a.Success?
    ensures Guarded(Apply(w, FlushAnswer(t, a)))
  {
    var w' := Apply(w, FlushAnswer(t, a));
    HolderFlushes(w, t);
    FlushStepsStayInTheirTab(w, FlushAnswer(t, a));
    HandShrinks(w.hist, w.tabs[t], w'.tabs[t]);
    assert CurrentStore(w') by { NobodyDelivers(w, t); }
    GuardedFrom(w, w', t);
  }

  lemma RemovedKeepsStore(w: World, t: nat, ok: bool)
    requires Guarded(w) && Enabled(w, FlushRemoved(t, ok)) && Holder(w) == Some(t)
    ensures var w' := Removed(w, t, ok);
            CurrentStore(w') && OncePerLoss(w'.hist) && LateSurrenders(w'.hist) && CurrentHand(w'.hist, w'.tabs[t])
  {
    var job, why := w.tabs[t].pc.job, w.tabs[t].pc.why;
    assert CurrentHand(w.hist, w.tabs[t]);
    assert forall id :: Delivering(w, id) ==> id == job.id && why.Delivered?;
  }

  lemma RemovedKeepsGuarded(w: World, t: nat, ok: bool)
    requires Base(w) && Guarded(w) && Enabled(w, FlushRemoved(t, ok))
    ensures Guarded(Apply(w, FlushRemoved(t, ok)))
  {
    HolderFlushes(w, t);
    FlushStepsStayInTheirTab(w, FlushRemoved(t, ok));
    RemovedKeepsStore(w, t, ok);
    GuardedFrom(w, Apply(w, FlushRemoved(t, ok)), t);
  }

  lemma WrittenIsCurrent(h: History, job: Job, next: Job, pass: Pass)
    requires Current(h, job) && !Truthy(job.error) && Rewrites(job, next, pass) && LateSurrenders(h)
    ensures Current(Recorded(h, job, next, pass), next) && LateSurrenders(Recorded(h, job, next, pass))
  {
    var h' := Recorded(h, job, next, pass);
    BackoffValues();
    if next.attempts > job.attempts && job.id !in h'.hurried && job.attempts >= 1 {
      assert job.notBefore.value <= pass.now;
    }
  }

  lemma WrittenKeepsStore(w: World, t: nat)
    requires Guarded(w) && GoodStore(w.hist, w.store) && Enabled(w, FlushWritten(t, true))
    requires GoodTab(w.hist, w.tabs[t])
    ensures CurrentStore(Written(w, t, true)) && LateSurrenders(Written(w, t, true).hist)
  {
    var w' := Written(w, t, true);
    var Writing(job, next, who, pass) := w.tabs[t].pc;
    assert CurrentHand(w.hist, w.tabs[t]) && job in Hand(w.tabs[t]);
    NobodyDelivers(w, t);
    WrittenIsCurrent(w.hist, job, next, pass);
    forall id | id in w'.store ensures Current(w'.hist, w'.store[id]) && Unspent(w'.hist, id) {
      if id != job.id {
        CurrentElsewhere(w.hist, job, next, pass, w.store[id]);
      }
    }
  }

  lemma OthersStayCurrent(h: History, job: Job, next: Job, pass: Pass, jobs: seq<Job>)
    requires forall j :: j in jobs ==> j.id != job.id && Current(h, j)
    ensures forall j :: j in jobs ==> Current(Recorded(h, job, next, pass), j)
  {
    forall j | j in jobs ensures Current(Recorded(h, job, next, pass), j) {
      CurrentElsewhere(h, job, next, pass, j);
    }
  }

  lemma WrittenHand(w: World, t: nat)
    requires Enabled(w, FlushWritten(t, true)) && CurrentHand(w.hist, w.tabs[t])
    requires GoodCopies(w.hist, [w.tabs[t].pc.job] + w.tabs[t].pc.pass.todo)
    ensures CurrentHand(Written(w, t, true).hist, Written(w, t, true).tabs[t])
  {
    var pc := w.tabs[t].pc;
    TailsAreGood(w.hist, pc.job, pc.pass.todo);
    assert forall j :: j in pc.pass.todo ==> j in Hand(w.tabs[t]);
    OthersStayCurrent(w.hist, pc.job, pc.next, pc.pass, pc.pass.todo);
  }

  lemma WrittenKeepsGuarded(w: World, t: nat, ok: bool)
    requires Base(w) && Guarded(w) && Enabled(w, FlushWritten(t, ok))
    ensures Guarded(Apply(w, FlushWritten(t, ok)))
  {
    HolderFlushes(w, t);
    FlushStepsStayInTheirTab(w, FlushWritten(t, ok));
    if ok {
      assert GoodTab(w.hist, w.tabs[t]);
      WrittenKeepsStore(w, t);
      WrittenHand(w, t);
    } else {
      NobodyDelivers(w, t);
    }
    GuardedFrom(w, Apply(w, FlushWritten(t, ok)), t);
  }

  lemma CurrentElsewhere(h: History, job: Job, next: Job, pass: Pass, j: Job)
    requires j.id != job.id && Current(h, j)
    ensures Current(Recorded(h, job, next, pass), j)
  {}

  lemma LiveAnsweredChanges(w: World, id: Id, a: Answer)
    requires Enabled(w, LiveAnswer(id, a))
    ensures var w' := LiveAnswered(w, id, a);
            && SamePcs(w, w') && w'.tabs == w.tabs && w'.store == w.store && w'.hist == w.hist.(won := w'.hist.won)
            && (forall k :: k != id ==> w'.hist.won[k] == w.hist.won[k]) && w'.hist.won[id] <= w.hist.won[id] + 1
  {}

  lemma LiveAnsweredKeepsGuarded(w: World, id: Id, a: Answer)
    requires Base(w) && Guarded(w) && Enabled(w, LiveAnswer(id, a))
    ensures Guarded(LiveAnswered(w, id, a))
  {
    var w' := LiveAnswered(w, id, a);
    assert Untouched(w.hist, id);
    LiveAnsweredChanges(w, id, a);
    SameHolder(w, w');
    assert forall j :: Current(w.hist, j) ==> Current(w'.hist, j);
    forall t | 0 <= t < |w.tabs| ensures CurrentHand(w'.hist, w'.tabs[t]) {
      HandIsKept(w, t);
    }
  }

  lemma HandIsKept(w: World, t: nat)
    requires Base(w) && t < |w.tabs|
    ensures forall j :: j in Hand(w.tabs[t]) ==> j.id in w.hist.kept
  {
    assert GoodTab(w.hist, w.tabs[t]);
    match w.tabs[t].pc
    case Removing(job, _, _, pass) => TailsAreGood(w.hist, job, pass.todo);
    case _ =>
  }

  lemma LiveWrittenKeepsGuarded(w: World, id: Id, ok: bool)
    requires Base(w) && Guarded(w) && Enabled(w, LiveStored(id, ok))
    ensures Guarded(LiveWritten(w, id, ok))
  {
    var w' := LiveWritten(w, id, ok);
    var job := w.live[id].job;
    assert Untouched(w.hist, id) && job.id == id;
    assert Current(w.hist, job) && Unspent(w.hist, id);
    SameHolder(w, w');
    assert forall j :: Current(w.hist, j) ==> Current(w'.hist, j);
    forall t | 0 <= t < |w.tabs| ensures CurrentHand(w'.hist, w'.tabs[t]) {
      assert CurrentHand(w.hist, w.tabs[t]);
    }
  }

  lemma CrashKeepsGuarded(w: World, t: nat)
    requires Base(w) && Guarded(w) && t < |w.tabs|
    ensures Guarded(Crashed(w, t))
  {
    var w' := Crashed(w, t);
    if Holder(w) == Some(t) {
      assert forall id :: Delivering(w, id) ==> w.hist.won[id] <= w'.hist.lost[id];
      assert CurrentStore(w');
      GuardedFrom(w, w', t);
    } else {
      assert w.tabs[t].pc.Idle?;
      assert w'.hist == w.hist;
      GuardedBeside(w, w', t);
    }
  }

  lemma StepKeepsGuarded(w: World, st: Step)
    requires Base(w) && Guarded(w) && (w.locks || CacheAgrees(w))
    ensures Guarded(Next(w, st))
  {
    if Enabled(w, st) {
      if Quiet(st) {
        QuietKeepsGuarded(w, st);
      } else {
        match st
        case BeginCapture(t, _, _) => GuardedBeside(w, Apply(w, st), t);
        case LiveAnswer(id, a) => LiveAnsweredKeepsGuarded(w, id, a);
        case LiveStored(id, ok) => LiveWrittenKeepsGuarded(w, id, ok);
        case FlushNext(t) => NextJobKeepsGuarded(w, t);
        case FlushAnswer(t, a) =>
          if a.Success? { DeliveredKeepsGuarded(w, t); } else { FailedKeepsGuarded(w, t, a); }
        case FlushRemoved(t, ok) => RemovedKeepsGuarded(w, t, ok);
        case FlushWritten(t, ok) => WrittenKeepsGuarded(w, t, ok);
        case Crash(t) => CrashKeepsGuarded(w, t);
      }
    }
  }
}
