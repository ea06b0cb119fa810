/**
 * What every step of the queue machine keeps, however flushes overlap.
 *
 * `Base` holds with or without Web Locks; module QueueLock adds what one flush at a time buys.
 */
module QueueSafety {
  import opened Wrappers
  import opened QueueJobs
  import opened QueueMachine

  // ---- the invariant that needs no lock ----

  /** A copy of a job, wherever it is: what was captured is intact and attempts are bounded. */
  ghost predicate GoodCopy(h: History, j: Job) {
    && j.id in h.kept && h.kept[j.id] == j.capture
    && (j.error.None? ==> j.attempts < MAX_ATTEMPTS)
  }

  ghost predicate GoodCopies(h: History, jobs: seq<Job>) {
    && UniqueIds(jobs)
    && forall j :: j in jobs ==> GoodCopy(h, j)
  }

  ghost predicate Due(j: Job, pass: Pass) {
    !pass.manual && j.notBefore.Some? ==> j.notBefore.value <= pass.now
  }

  /** What a pass may write over `job`: a mark, a later attempt, or the last attempt. */
  ghost predicate Rewrites(job: Job, next: Job, pass: Pass) {
    && next.id == job.id && next.capture == job.capture
    && (|| (next.error.Some? && next.attempts == job.attempts && next.notBefore == job.notBefore)
        || (next.attempts == job.attempts + 1 && Due(job, pass)
            && (if next.attempts >= MAX_ATTEMPTS then next.error.Some? && next.notBefore == job.notBefore
                else next.notBefore == Some(pass.now + BackoffMs(next.attempts)) && next.error == job.error)))
  }

  ghost predicate GoodPc(h: History, pc: Pc) {
    match pc
    case Idle => true
    case Rereading(_) => true
    case Starting(_) => true
    case Looping(pass) => GoodCopies(h, pass.todo)
    case Sending(job, who, pass) =>
      GoodCopies(h, [job] + pass.todo) && Owned(job, who) && !Truthy(job.error) && Due(job, pass)
    case Removing(job, why, who, pass) =>
      && GoodCopies(h, [job] + pass.todo) && Owned(job, who)
      && (if why.Delivered? then h.won[job.id] > 0 else Expired(job, pass.now))
    case Writing(job, next, who, pass) =>
      && GoodCopies(h, [job] + pass.todo) && Owned(job, who) && !Truthy(job.error)
      && Rewrites(job, next, pass)
  }

  ghost predicate GoodTab(h: History, tab: Tab) {
    GoodCopies(h, tab.cache) && GoodPc(h, tab.pc)
  }

  ghost predicate GoodStore(h: History, store: map<Id, Job>) {
    forall id :: id in store ==> store[id].id == id && GoodCopy(h, store[id])
  }

  ghost predicate Untouched(h: History, id: Id) {
    id !in h.kept && h.won[id] == 0 && id !in h.refused && id !in h.firstFail && id !in h.gaveUp
  }

  /** Ids are fresh when they are first stored. */
  ghost predicate GoodIds(w: World) {
    && (forall id :: id >= w.next || id in w.live ==> Untouched(w.hist, id))
    && (forall id :: id in w.live ==> id < w.next)
    && (forall id :: id in w.live && w.live[id].Keeping? ==>
          var j := w.live[id].job; j.id == id && j.error.None? && j.attempts == 0 && j.notBefore.None?)
  }

  ghost predicate Base(w: World) {
    && GoodStore(w.hist, w.store)
    && (forall t :: 0 <= t < |w.tabs| ==> GoodTab(w.hist, w.tabs[t]))
    && GoodIds(w)
  }

  ghost predicate Grows(h: History, h': History) {
    && (forall id :: id in h.kept ==> id in h'.kept && h'.kept[id] == h.kept[id])
    && (forall id :: h.won[id] <= h'.won[id])
  }

  lemma GoodTabGrows(h: History, h': History, tab: Tab)
    requires Grows(h, h') && GoodTab(h, tab)
    ensures GoodTab(h', tab)
  {}

  /** A step that changes one tab keeps `Base` when what it changed is good. */
  lemma BaseFrom(w: World, w': World, t: nat)
    requires Base(w) && Grows(w.hist, w'.hist) && t < |w.tabs| == |w'.tabs|
    requires forall i :: 0 <= i < |w.tabs| && i != t ==> w'.tabs[i] == w.tabs[i]
    requires GoodTab(w'.hist, w'.tabs[t]) && GoodStore(w'.hist, w'.store) && GoodIds(w')
    ensures Base(w')
  {
    forall i | 0 <= i < |w.tabs| && i != t ensures GoodTab(w'.hist, w'.tabs[i]) {
      GoodTabGrows(w.hist, w'.hist, w.tabs[i]);
    }
  }

  /** Ids that are still fresh stay so when the history changes for `id` alone. */
  lemma IdsStayFresh(w: World, w': World, id: Id)
    requires GoodIds(w) && w'.next == w.next && w'.live == w.live && id in w.hist.kept
    requires forall k :: k != id && Untouched(w.hist, k) ==> Untouched(w'.hist, k)
    ensures GoodIds(w')
  {
    forall k | k >= w.next || k in w.live ensures Untouched(w'.hist, k) {
      assert Untouched(w.hist, k);
    }
  }

  lemma HydratedIsGood(w: World, t: nat, read: Read)
    requires Base(w) && t < |w.tabs| && ReadAllowed(w, w.tabs[t], read)
    ensures GoodTab(w.hist, Hydrated(w.tabs[t], read))
  {}

  lemma JudgedIsGood(h: History, job: Job, session: Session, pass: Pass)
    requires GoodCopies(h, pass.todo) && pass.todo != [] && job == pass.todo[0]
    ensures GoodCopies(h, pass.todo[1..])
    ensures GoodCopies(h, [job] + pass.todo[1..])
    ensures forall j :: j in pass.todo[1..] ==> j.id != job.id
  {
    assert [job] + pass.todo[1..] == pass.todo;
    forall j | j in pass.todo[1..] ensures j in pass.todo && j.id != job.id {
      var i :| 0 <= i < |pass.todo[1..]| && pass.todo[1..][i] == j;
      assert pass.todo[i + 1] == j;
    }
  }

  lemma AfterFailureRewrites(job: Job, a: Answer, pass: Pass)
    requires !a.Success? && Due(job, pass) && !Truthy(job.error)
    requires AfterFailure(job, a, pass.now).Some?
    ensures Rewrites(job, AfterFailure(job, a, pass.now).value, pass)
  {}

  lemma TailsAreGood(h: History, job: Job, todo: seq<Job>)
    requires GoodCopies(h, [job] + todo)
    ensures GoodCopies(h, todo) && GoodCopy(h, job)
    ensures forall j :: j in todo ==> j.id != job.id
  {
    var all := [job] + todo;
    assert job == all[0] && job in all;
    forall j | j in todo ensures j in all && j.id != job.id {
      var i :| 0 <= i < |todo| && todo[i] == j;
      assert all[i + 1] == j;
    }
    forall i, k | 0 <= i < k < |todo| ensures todo[i].id != todo[k].id {
      assert todo[i] == all[i + 1] && todo[k] == all[k + 1];
    }
  }

  lemma WrittenKeepsBase(w: World, t: nat, ok: bool)
    requires Base(w) && Enabled(w, FlushWritten(t, ok))
    ensures Base(Written(w, t, ok))
  {
    var w' := Written(w, t, ok);
    var Writing(job, next, who, pass) := w.tabs[t].pc;
    TailsAreGood(w.hist, job, pass.todo);
    if ok {
      assert GoodCopy(w'.hist, next);
      assert GoodCopies(w'.hist, w'.tabs[t].cache);
      IdsStayFresh(w, w', job.id);
      BaseFrom(w, w', t);
    } else {
      BaseFrom(w, w', t);
    }
  }

  lemma AnsweredKeepsBase(w: World, t: nat, a: Answer)
    requires Base(w) && Enabled(w, FlushAnswer(t, a))
    ensures Base(Answered(w, t, a))
  {
    var w' := Answered(w, t, a);
    var Sending(job, who, pass) := w.tabs[t].pc;
    assert GoodTab(w.hist, w.tabs[t]);
    TailsAreGood(w.hist, job, pass.todo);
    if !a.Success? && AfterFailure(job, a, pass.now).Some? {
      AfterFailureRewrites(job, a, pass);
    }
    IdsStayFresh(w, w', job.id);
    BaseFrom(w, w', t);
  }

  lemma NextJobKeepsBase(w: World, t: nat)
    requires Base(w) && Enabled(w, FlushNext(t))
    ensures Base(NextJob(w, t, w.tabs[t].pc.pass))
  {
    var pass := w.tabs[t].pc.pass;
    assert GoodTab(w.hist, w.tabs[t]);
    if pass.todo != [] {
      JudgedIsGood(w.hist, pass.todo[0], w.tabs[t].session, pass);
    }
    BaseFrom(w, NextJob(w, t, pass), t);
  }

  lemma RemovedKeepsBase(w: World, t: nat, ok: bool)
    requires Base(w) && Enabled(w, FlushRemoved(t, ok))
    ensures Base(Removed(w, t, ok))
  {
    assert GoodTab(w.hist, w.tabs[t]);
    TailsAreGood(w.hist, w.tabs[t].pc.job, w.tabs[t].pc.pass.todo);
    IdsStayFresh(w, Removed(w, t, ok), w.tabs[t].pc.job.id);
    BaseFrom(w, Removed(w, t, ok), t);
  }

  lemma LiveAnsweredIsFresh(w: World, id: Id, a: Answer)
    requires GoodIds(w) && Enabled(w, LiveAnswer(id, a))
    ensures GoodIds(LiveAnswered(w, id, a)) && Grows(w.hist, LiveAnswered(w, id, a).hist)
  {
    var w' := LiveAnswered(w, id, a);
    if a.Success? {
      forall k | k >= w'.next || k in w'.live ensures Untouched(w'.hist, k) {
        assert k != id && Untouched(w.hist, k);
      }
    } else {
      assert w'.hist == w.hist;
      assert forall k :: k in w'.live ==> k in w.live;
    }
  }

  lemma LiveAnsweredKeepsBase(w: World, id: Id, a: Answer)
    requires Base(w) && Enabled(w, LiveAnswer(id, a))
    ensures Base(LiveAnswered(w, id, a))
  {
    var w' := LiveAnswered(w, id, a);
    LiveAnsweredIsFresh(w, id, a);
    GoodTabGrows(w.hist, w'.hist, w.tabs[w.live[id].tab]);
    assert GoodStore(w'.hist, w'.store);
    BaseFrom(w, w', w.live[id].tab);
  }

  lemma LiveWrittenKeepsBase(w: World, id: Id, ok: bool)
    requires Base(w) && Enabled(w, LiveStored(id, ok))
    ensures Base(LiveWritten(w, id, ok))
  {
    var w' := LiveWritten(w, id, ok);
    var t := w.live[id].tab;
    assert Untouched(w.hist, id);
    forall k | k >= w'.next || k in w'.live ensures Untouched(w'.hist, k) {
      assert Untouched(w.hist, k);
    }
    GoodTabGrows(w.hist, w'.hist, w.tabs[t]);
    if ok {
      assert GoodCopies(w'.hist, w'.tabs[t].cache);
    }
    BaseFrom(w, w', t);
  }

  lemma BeginCaptureKeepsBase(w: World, t: nat, kind: Kind, payload: Payload)
    requires Base(w) && Enabled(w, BeginCapture(t, kind, payload))
    ensures Base(Apply(w, BeginCapture(t, kind, payload)))
  {
    var w' := Apply(w, BeginCapture(t, kind, payload));
    forall k | k >= w'.next || k in w'.live ensures Untouched(w'.hist, k) {
      assert Untouched(w.hist, k);
    }
    BaseFrom(w, w', t);
  }

  lemma CrashKeepsBase(w: World, t: nat)
    requires Base(w) && t < |w.tabs|
    ensures Base(Crashed(w, t))
  {
    var w' := Crashed(w, t);
    forall k | k >= w'.next || k in w'.live ensures Untouched(w'.hist, k) {
      assert Untouched(w.hist, k);
    }
    BaseFrom(w, w', t);
  }

  /** Steps that touch one tab's memory or its flush, and nothing the history speaks about. */
  ghost predicate Quiet(st: Step) {
    st.Tick? || st.SignIn? || st.Load? || st.UserDiscard? || st.BeginFlush? || st.FlushLoad?
  }

  lemma QuietKeepsBase(w: World, st: Step)
    requires Base(w) && Enabled(w, st) && Quiet(st)
    ensures Base(Apply(w, st))
  {
    if !st.Tick? {
      var w', t := Apply(w, st), st.tab;
      assert GoodTab(w.hist, w.tabs[t]);
      if st.Load? || st.FlushLoad? {
        HydratedIsGood(w, t, st.read);
      }
      assert GoodTab(w'.hist, w'.tabs[t]);
      BaseFrom(w, w', t);
    }
  }

  lemma StepKeepsBase(w: World, st: Step)
    requires Base(w)
    ensures Base(Next(w, st))
  {
    if Enabled(w, st) {
      if Quiet(st) {
        QuietKeepsBase(w, st);
      } else {
        match st
        case BeginCapture(t, kind, payload) => BeginCaptureKeepsBase(w, t, kind, payload);
        case LiveAnswer(id, a) => LiveAnsweredKeepsBase(w, id, a);
        case LiveStored(id, ok) => LiveWrittenKeepsBase(w, id, ok);
        case FlushNext(t) => NextJobKeepsBase(w, t);
        case FlushAnswer(t, a) => AnsweredKeepsBase(w, t, a);
        case FlushRemoved(t, ok) => RemovedKeepsBase(w, t, ok);
        case FlushWritten(t, ok) => WrittenKeepsBase(w, t, ok);
        case Crash(t) => CrashKeepsBase(w, t);
      }
    }
  }
}
