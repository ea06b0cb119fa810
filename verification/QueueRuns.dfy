/**
 * The promises of the offline queue over whole runs: any number of tabs, steps in any order.
 */
module QueueRuns {
  import opened Wrappers
  import opened QueueJobs
  import opened QueueMachine
  import opened QueueSafety
  import opened QueueLock
  import opened QueueTraces
  import opened QueueExamples

  lemma InitialIsGood(w: World)
    requires Initial(w)
    ensures Base(w) && CacheAgrees(w) && (OneFlusher(w) ==> Guarded(w))
  {}

  /** Web Locks, or no second tab. */
  predicate OneFlusher(w: World) {
    w.locks || |w.tabs| <= 1
  }

  lemma {:induction false} RunsKeepBase(w: World, steps: seq<Step>)
    requires Base(w)
    ensures Base(Exec(w, steps))
  {
    if steps != [] {
      var before := steps[..|steps| - 1];
      RunsKeepBase(w, before);
      StepKeepsBase(Exec(w, before), steps[|steps| - 1]);
    }
  }

  lemma StepKeepsShape(w: World, st: Step)
    ensures |Next(w, st).tabs| == |w.tabs| && Next(w, st).locks == w.locks
  {
    if Enabled(w, st) {
      match st
      case FlushNext(t) => NextJobLeaves(w, t, w.tabs[t].pc.pass);
      case FlushAnswer(t, a) => AnsweredLeaves(w, t, a);
      case FlushRemoved(t, ok) => assert |Removed(w, t, ok).tabs| == |w.tabs|;
      case FlushWritten(t, ok) => assert |Written(w, t, ok).tabs| == |w.tabs|;
      case _ =>
    }
  }

  lemma {:induction false} RunsKeepGuarded(w: World, steps: seq<Step>)
    requires Base(w) && Guarded(w) && (w.locks || CacheAgrees(w))
    ensures var w' := Exec(w, steps); Guarded(w') && w'.locks == w.locks && (w'.locks || CacheAgrees(w'))
  {
    if steps != [] {
      var before, st := Exec(w, steps[..|steps| - 1]), steps[|steps| - 1];
      RunsKeepBase(w, steps[..|steps| - 1]);
      RunsKeepGuarded(w, steps[..|steps| - 1]);
      StepKeepsGuarded(before, st);
      StepKeepsShape(before, st);
      if !w.locks {
        StepKeepsCache(before, st);
      }
    }
  }

  lemma RunsAreGood(w: World, steps: seq<Step>)
    requires Initial(w)
    ensures Base(Exec(w, steps)) && (OneFlusher(w) ==> Guarded(Exec(w, steps)))
  {
    InitialIsGood(w);
    RunsKeepBase(w, steps);
    if OneFlusher(w) {
      RunsKeepGuarded(w, steps);
    }
  }

  // ---- sent at most once ----

  /**
   * With Web Locks, or with one tab, a captured job gets at most one successful answer, plus one
   * for each time a delete that should have followed a success failed or its tab died first.
   */
  lemma AtMostOneSuccess(w: World, steps: seq<Step>, id: Id)
    requires Initial(w) && OneFlusher(w)
    ensures var h := Exec(w, steps).hist; h.won[id] <= h.lost[id] + 1
  {
    RunsAreGood(w, steps);
  }

  /** At most one tab is inside a flush at any time. */
  lemma OneFlushAtATime(w: World, steps: seq<Step>, s: nat, t: nat)
    requires Initial(w) && OneFlusher(w)
    requires s < |Exec(w, steps).tabs| && t < |Exec(w, steps).tabs|
    requires !Exec(w, steps).tabs[s].pc.Idle? && !Exec(w, steps).tabs[t].pc.Idle?
    ensures s == t
  {
    RunsAreGood(w, steps);
    HolderFlushes(Exec(w, steps), s);
    HolderFlushes(Exec(w, steps), t);
  }

  /** An id that is neither being captured nor was ever stored is stored at no later time. */
  lemma {:induction false} AbsentStaysAbsent(w: World, steps: seq<Step>, id: Id)
    requires Base(w) && id < w.next && id !in w.live && id !in w.hist.kept
    ensures var w' := Exec(w, steps); id < w'.next && id !in w'.live && id !in w'.hist.kept && id !in w'.store
  {
    RunsKeepBase(w, steps);
    if steps != [] {
      var before, st := steps[..|steps| - 1], steps[|steps| - 1];
      AbsentStaysAbsent(w, before, id);
      StillAbsent(Exec(w, before), st, id);
    }
  }

  /**
   * A capture whose live send succeeded or was refused is not stored at that moment, and in no
   * run that follows.
   */
  lemma SettledLiveIsNeverStored(w: World, before: seq<Step>, id: Id, a: Answer, after: seq<Step>)
    requires Initial(w) && Enabled(Exec(w, before), LiveAnswer(id, a)) && !IsRetryable(a)
    ensures var w' := Exec(w, before + [LiveAnswer(id, a)] + after);
            id !in w'.store && id !in w'.live && id !in w'.hist.kept
  {
    var now := Exec(w, before);
    RunsAreGood(w, before);
    assert id in now.live && Untouched(now.hist, id);
    ExecSnoc(w, before, LiveAnswer(id, a));
    var settled := LiveAnswered(now, id, a);
    LiveAnsweredKeepsBase(now, id, a);
    assert settled.live == now.live - {id} && settled.hist.kept == now.hist.kept && settled.next == now.next;
    AbsentStaysAbsent(settled, after, id);
    ExecConcat(w, before + [LiveAnswer(id, a)], after);
  }

  lemma StillAbsent(w: World, st: Step, id: Id)
    requires id < w.next && id !in w.live && id !in w.hist.kept
    ensures var w' := Next(w, st); id < w'.next && id !in w'.live && id !in w'.hist.kept
  {
    if st.LiveStored? || st.LiveAnswer? || st.BeginCapture? {
      assert st.BeginCapture? || st.id in w.live || Next(w, st) == w;
    } else {
      ElsewhereNothingIsKept(w, st);
    }
  }

  lemma ElsewhereNothingIsKept(w: World, st: Step)
    requires !st.LiveStored? && !st.LiveAnswer? && !st.BeginCapture?
    ensures var w' := Next(w, st); w'.next == w.next && w'.hist.kept == w.hist.kept
    ensures forall id :: id in Next(w, st).live ==> id in w.live
  {
    if Quiet(st) {
      QuietLeavesHistory(w, st);
    } else if !st.Crash? {
      FlushLeavesLive(w, st);
    }
  }

  lemma FlushLeavesLive(w: World, st: Step)
    requires st.FlushNext? || st.FlushAnswer? || st.FlushRemoved? || st.FlushWritten?
    ensures var w' := Next(w, st); w'.next == w.next && w'.hist.kept == w.hist.kept && w'.live == w.live
  {
    if Enabled(w, st) {
      match st
      case FlushNext(t) => NextJobLeaves(w, t, w.tabs[t].pc.pass);
      case FlushAnswer(t, a) => AnsweredLeaves(w, t, a);
      case FlushRemoved(_, _) =>
      case FlushWritten(t, ok) => WrittenLeavesLive(w, t, ok);
    }
  }

  lemma WrittenLeavesLive(w: World, t: nat, ok: bool)
    requires t < |w.tabs| && w.tabs[t].pc.Writing?
    ensures var w' := Written(w, t, ok); w'.next == w.next && w'.hist.kept == w.hist.kept && w'.live == w.live
  {}

  lemma QuietLeavesHistory(w: World, st: Step)
    requires Quiet(st)
    ensures var w' := Next(w, st); w'.next == w.next && w'.hist == w.hist && w'.live == w.live
  {}

  /** In no run from `w` is a job delivered more often than once and once more per lost delete. */
  ghost predicate SendsOnce(w: World) {
    forall steps, id :: Exec(w, steps).hist.won[id] <= Exec(w, steps).hist.lost[id] + 1
  }

  ghost predicate Setup(w: World, locks: bool, tabs: nat) {
    Initial(w) && w.locks == locks && |w.tabs| == tabs
  }

  /** The queue sends once in every run exactly when it has Web Locks or at most one tab. */
  lemma SendsOnceIffOneFlusher(locks: bool, tabs: nat)
    ensures (forall w :: Setup(w, locks, tabs) ==> SendsOnce(w)) <==> locks || tabs <= 1
  {
    if !locks && tabs >= 2 {
      var w, steps := TwoTabsWithoutLocks(tabs);
      assert Setup(w, locks, tabs) && Exec(w, steps).hist.won[0] > Exec(w, steps).hist.lost[0] + 1;
    } else {
      forall w, steps, id | Setup(w, locks, tabs)
        ensures Exec(w, steps).hist.won[id] <= Exec(w, steps).hist.lost[id] + 1
      {
        AtMostOneSuccess(w, steps, id);
      }
    }
  }

  // ---- a capture is stored as it was taken ----

  /** A capture under way stays what it is until it is answered, stored or lost with its tab. */
  lemma LiveStaysStep(w: World, st: Step, id: Id)
    requires id < w.next && id in w.live && id in Next(w, st).live
    ensures Next(w, st).live[id] == w.live[id]
            || (st.LiveAnswer? && st.id == id && w.live[id].Attempt? && Next(w, st).live[id].Keeping?)
    ensures id < Next(w, st).next
  {
    if st.LiveAnswer? || st.LiveStored? || st.BeginCapture? || st.Crash? {
    } else if Quiet(st) {
      QuietLeavesHistory(w, st);
    } else {
      FlushLeavesLive(w, st);
    }
  }

  lemma GoneStaysGone(w: World, st: Step, id: Id)
    requires id < w.next && id !in w.live
    ensures id !in Next(w, st).live && id < Next(w, st).next
  {
    if st.LiveAnswer? || st.LiveStored? || st.BeginCapture? || st.Crash? {
    } else if Quiet(st) {
      QuietLeavesHistory(w, st);
    } else {
      FlushLeavesLive(w, st);
    }
  }

  lemma {:induction false} LiveStays(w: World, steps: seq<Step>, id: Id)
    requires id < w.next
    ensures id < Exec(w, steps).next
    ensures id !in w.live ==> id !in Exec(w, steps).live
    ensures id in Exec(w, steps).live && (w.live[id].Keeping? || Exec(w, steps).live[id].Attempt?) ==>
              Exec(w, steps).live[id] == w.live[id]
    decreases |steps|
  {
    if steps != [] {
      var before, st := steps[..|steps| - 1], steps[|steps| - 1];
      LiveStays(w, before, id);
      if id in Exec(w, before).live {
        if id in Exec(w, steps).live {
          LiveStaysStep(Exec(w, before), st, id);
        } else {
          StepKeepsNext(Exec(w, before), st);
        }
      } else {
        GoneStaysGone(Exec(w, before), st, id);
      }
    }
  }

  lemma StepKeepsNext(w: World, st: Step)
    ensures w.next <= Next(w, st).next
  {
    if st.LiveAnswer? || st.LiveStored? || st.BeginCapture? || st.Crash? {
    } else if Quiet(st) {
      QuietLeavesHistory(w, st);
    } else {
      FlushLeavesLive(w, st);
    }
  }

  /**
   * A capture that is taken at the clock's time, answered by a failure worth trying again, and
   * stored, with anything in between: the row holds its kind, payload and time, the owner signed
   * in when the answer came, and no attempt yet.
   */
  lemma StoredAsTaken(
    w0: World, t: nat, kind: Kind, payload: Payload, sending: seq<Step>, a: Answer, storing: seq<Step>)
    requires t < |w0.tabs|
    requires var w2 := Exec(Next(w0, BeginCapture(t, kind, payload)), sending);
             && w0.next in w2.live && w2.live[w0.next].Attempt? && t < |w2.tabs|
             && (a.Broken? || (a.Refusal? && (a.status == 0 || a.status == 408 || a.status == 429 || a.status >= 500)))
             && var w4 := Exec(Next(w2, LiveAnswer(w0.next, a)), storing);
                w0.next in w4.live && t < |w4.tabs|
    ensures var w2 := Exec(Next(w0, BeginCapture(t, kind, payload)), sending);
            var w5 := Next(Exec(Next(w2, LiveAnswer(w0.next, a)), storing), LiveStored(w0.next, true));
            && w0.next in w5.store
            && w5.store[w0.next] ==
               Job(w0.next, Capture(kind, payload, w0.clock, w2.tabs[t].session.owner), None, 0, None)
            && w5.store[w0.next] in w5.tabs[t].cache
  {
    var id, w1 := w0.next, Next(w0, BeginCapture(t, kind, payload));
    assert w1.live[id] == Attempt(t, kind, payload, w0.clock);
    LiveStays(w1, sending, id);
    var w2 := Exec(w1, sending);
    var w3 := Next(w2, LiveAnswer(id, a));
    assert w3.live[id].Keeping?;
    LiveStays(w3, storing, id);
  }

  /** What the user discards is gone from the page, and from the store if the delete goes through. */
  lemma DiscardRemoves(w: World, t: nat, id: Id, ok: bool)
    requires t < |w.tabs|
    ensures var w' := Next(w, UserDiscard(t, id, ok));
            && |w'.tabs| == |w.tabs|
            && (forall j :: j in w'.tabs[t].cache <==> j in w.tabs[t].cache && j.id != id)
            && (forall k :: k in w'.store <==> k in w.store && (ok ==> k != id))
            && (forall k :: k in w'.store ==> w'.store[k] == w.store[k])
  {}

  /** A pass starts over everything the tab has cached, at the clock's time, by hand or not as asked. */
  lemma PassStarts(w: World, t: nat, manual: bool, read: Read)
    requires t < |w.tabs| && w.tabs[t].pc == Starting(manual) && ReadAllowed(w, w.tabs[t], read)
    ensures var tab' := Next(w, FlushLoad(t, read)).tabs[t];
            && tab'.pc == Looping(Pass(tab'.cache, w.clock, manual))
            && tab'.cache == match read case Skip => w.tabs[t].cache case Rows(rows) => rows case Failed => []
  {}

  // ---- nothing captured is lost ----

  /**
   * The step that takes job `id` out of the store: the user discards it, or a flush deletes
   * it after a successful answer, or because it is past retention, under its own owner.
   */
  ghost predicate Departure(w: World, st: Step, id: Id) {
    && Enabled(w, st)
    && match st
       case UserDiscard(_, gone, ok) => gone == id && ok
       case FlushRemoved(t, ok) =>
         && ok && w.tabs[t].pc.job.id == id && id in w.store
         && (w.store[id].capture.owner.None? || w.store[id].capture.owner == w.tabs[t].pc.who.owner)
         && (if w.tabs[t].pc.why.Delivered? then w.hist.won[id] >= 1
             else w.tabs[t].pc.pass.now - w.store[id].capture.at > 604_800_000)
       case _ => false
  }

  lemma LeavesByDeparture(w: World, st: Step, id: Id)
    requires Base(w) && id in w.store && id !in Next(w, st).store
    ensures Departure(w, st, id)
  {
    if st.FlushRemoved? {
      var pc := w.tabs[st.tab].pc;
      assert GoodTab(w.hist, w.tabs[st.tab]);
      TailsAreGood(w.hist, pc.job, pc.pass.todo);
    }
  }

  lemma {:induction false} NothingIsLost(w: World, steps: seq<Step>, id: Id)
    requires Base(w) && id in w.store && id !in Exec(w, steps).store
    ensures exists k :: 0 <= k < |steps| && Departure(Exec(w, steps[..k]), steps[k], id)
  {
    var n := |steps| - 1;
    var before := steps[..n];
    RunsKeepBase(w, before);
    if id in Exec(w, before).store {
      LeavesByDeparture(Exec(w, before), steps[n], id);
      assert Departure(Exec(w, steps[..n]), steps[n], id);
    } else {
      NothingIsLost(w, before, id);
      var k :| 0 <= k < n && Departure(Exec(w, before[..k]), before[k], id);
      assert before[..k] == steps[..k] && before[k] == steps[k];
      assert Departure(Exec(w, steps[..k]), steps[k], id);
    }
  }

  lemma KeptIsForever(w: World, st: Step, id: Id)
    requires Base(w) && id in w.hist.kept
    ensures id in Next(w, st).hist.kept && Next(w, st).hist.kept[id] == w.hist.kept[id]
  {
    if st.LiveStored? && st.id in w.live {
      assert Untouched(w.hist, st.id);
    }
  }

  /** Kind, payload, capture time and owner of a stored job are those it was stored with. */
  lemma {:induction false} CaptureNeverChanges(w: World, steps: seq<Step>, id: Id)
    requires Base(w) && id in w.store
    ensures var w' := Exec(w, steps);
            && id in w'.hist.kept && w'.hist.kept[id] == w.store[id].capture
            && (id in w'.store ==> w'.store[id].id == id && w'.store[id].capture == w.store[id].capture)
  {
    RunsKeepBase(w, steps);
    if steps != [] {
      var before := steps[..|steps| - 1];
      CaptureNeverChanges(w, before, id);
      RunsKeepBase(w, before);
      KeptIsForever(Exec(w, before), steps[|steps| - 1], id);
    }
  }

  /** A flush changes or deletes only jobs that belong to the session it judged them under. */
  lemma OthersAreLeftAlone(w: World, st: Step, id: Id)
    requires Base(w) && id in w.store && !st.UserDiscard?
    requires id !in Next(w, st).store || Next(w, st).store[id] != w.store[id]
    ensures Enabled(w, st) && (st.FlushRemoved? || st.FlushWritten?)
    ensures w.tabs[st.tab].pc.job.id == id && Owned(w.store[id], w.tabs[st.tab].pc.who)
  {
    if st.FlushRemoved? || st.FlushWritten? {
      var pc := w.tabs[st.tab].pc;
      assert GoodTab(w.hist, w.tabs[st.tab]);
      TailsAreGood(w.hist, pc.job, pc.pass.todo);
    }
  }

  // ---- retries ----

  /** A stored job without an error has fewer than six counted attempts. */
  lemma UnmarkedHasAttemptsLeft(w: World, steps: seq<Step>, id: Id)
    requires Initial(w) && id in Exec(w, steps).store
    ensures Exec(w, steps).store[id].error.None? ==> Exec(w, steps).store[id].attempts < MAX_ATTEMPTS
  {
    RunsAreGood(w, steps);
  }

  ghost predicate BeginsSend(w: World, st: Step, id: Id) {
    && st.FlushNext? && Enabled(w, st)
    && Next(w, st).tabs[st.tab].pc.Sending? && Next(w, st).tabs[st.tab].pc.job.id == id
  }

  /** With one flush at a time no flush sends a job again once a non-empty error was stored for it. */
  lemma RefusedIsNeverSent(w: World, steps: seq<Step>, st: Step, id: Id)
    requires Initial(w) && OneFlusher(w) && BeginsSend(Exec(w, steps), st, id)
    ensures id !in Exec(w, steps).hist.refused
  {
    RunsAreGood(w, steps);
    var now := Exec(w, steps);
    assert CurrentHand(now.hist, now.tabs[st.tab]);
    assert now.tabs[st.tab].pc.pass.todo[0] in Hand(now.tabs[st.tab]);
  }

  /** The answers after which a flush marks the job: a refusal, or a failure that spends its last attempt. */
  predicate LeavesMark(job: Job, a: Answer) {
    !a.Success? && !EndsThePass(a) && (IsRetryable(a) ==> job.attempts + 1 >= MAX_ATTEMPTS)
  }

  /**
   * Marked, a job is judged unfit to send by every later pass exactly when the answer had a
   * message: the mark is read as a boolean.
   */
  lemma MarkIsReadAsBoolean(job: Job, a: Answer, now: int)
    requires LeavesMark(job, a)
    ensures AfterFailure(job, a, now).Some?
    ensures (forall s, later, manual :: Judge(AfterFailure(job, a, now).value, s, later, manual) != Send)
            <==> Message(a) != ""
  {
    var next := AfterFailure(job, a, now).value;
    if Message(a) == "" {
      var s, later := Session(job.capture.owner, None), job.capture.at;
      assert Judge(next, s, later, true) == Send;
    }
  }

  /** The step by which a flush stores job `id` with error `m`. */
  ghost predicate Marks(w: World, st: Step, id: Id, m: string) {
    && st.FlushWritten? && st.ok && Enabled(w, st)
    && w.tabs[st.tab].pc.job.id == id && w.tabs[st.tab].pc.next.error == Some(m)
  }

  /** A run that marks job `id` with `m` and later begins to send it. */
  ghost predicate SentAfterMark(
    w: World, before: seq<Step>, mark: Step, after: seq<Step>, st: Step, id: Id, m: string)
  {
    && Initial(w) && OneFlusher(w)
    && Marks(Exec(w, before), mark, id, m) && BeginsSend(Exec(w, before + [mark] + after), st, id)
  }

  lemma RefusedStep(w: World, st: Step)
    ensures w.hist.refused <= Next(w, st).hist.refused
  {
    if Quiet(st) {
      QuietLeavesHistory(w, st);
    } else if st.FlushNext? && Enabled(w, st) {
      NextJobLeaves(w, st.tab, w.tabs[st.tab].pc.pass);
    }
  }

  lemma {:induction false} RefusedGrows(w: World, steps: seq<Step>)
    ensures w.hist.refused <= Exec(w, steps).hist.refused
    decreases |steps|
  {
    if steps != [] {
      RefusedGrows(w, steps[..|steps| - 1]);
      RefusedStep(Exec(w, steps[..|steps| - 1]), steps[|steps| - 1]);
    }
  }

  lemma MarkedIsNotSent(w: World, before: seq<Step>, mark: Step, after: seq<Step>, st: Step, id: Id, m: string)
    requires m != ""
    ensures !SentAfterMark(w, before, mark, after, st, id, m)
  {
    if SentAfterMark(w, before, mark, after, st, id, m) {
      ExecSnoc(w, before, mark);
      assert id in Exec(w, before + [mark]).hist.refused;
      ExecConcat(w, before + [mark], after);
      RefusedGrows(Exec(w, before + [mark]), after);
      RefusedIsNeverSent(w, before + [mark] + after, st, id);
    }
  }

  /**
   * Over all runs with one flush at a time a job marked with error `m`, by a refusal or by its
   * last attempt, is never sent again exactly when `m` is not empty.
   */
  lemma MarkIsFinalIffItHasAMessage(m: string)
    ensures (forall w, before, mark, after, st, id :: !SentAfterMark(w, before, mark, after, st, id, m)) <==> m != ""
  {
    if m == "" {
      var w, before, after := SilentRefusalIsSentAgain();
      var w', mark := Exec(w, before + [FlushWritten(0, true)] + after), FlushWritten(0, true);
      JudgesJob(w', 0, MARKED);
      assert Marks(Exec(w, before), mark, 0, m) && BeginsSend(w', FlushNext(0), 0);
      assert SentAfterMark(w, before, mark, after, FlushNext(0), 0, m);
    } else {
      forall w, before, mark, after, st, id ensures !SentAfterMark(w, before, mark, after, st, id, m) {
        MarkedIsNotSent(w, before, mark, after, st, id, m);
      }
    }
  }

  /**
   * With one flush at a time a job that ran out of attempts did so at least 930,000 ms after its first counted failure,
   * unless some pass that ignores backoff counted one of the failures. Both times are the
   * `now` a pass reads when it starts.
   */
  lemma SurrenderTakesTime(w: World, steps: seq<Step>, id: Id)
    requires Initial(w) && OneFlusher(w)
    requires var h := Exec(w, steps).hist; id in h.gaveUp && id !in h.hurried
    ensures var h := Exec(w, steps).hist; id in h.firstFail && h.gaveUp[id] - h.firstFail[id] >= 930_000
  {
    RunsAreGood(w, steps);
    BackoffValues();
  }
}
