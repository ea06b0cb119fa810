/**
 * Memory and disk of a page that is alone, while its calls interleave at every await: when the
 * cache holds the whole store, and which steps end that.
 */
module QueueMemory {
  import opened Wrappers
  import opened QueueJobs
  import opened QueueMachine
  import opened QueueSafety
  import opened QueueLock
  import opened QueueTraces
  import opened QueueExamples
  import opened QueueRuns

  /** Once a read of the store has succeeded, every stored job is cached. */
  ghost predicate Complete(w: World) {
    |w.tabs| == 1 && (w.tabs[0].hydrated ==> forall id :: id in w.store ==> w.store[id] in w.tabs[0].cache)
  }

  /**
   * The steps that hide a stored job from a hydrated page: a delete that fails, and a read that
   * fails after another read of the same page has succeeded.
   */
  ghost predicate HidesARow(w: World, st: Step) {
    && |w.tabs| == 1 && Enabled(w, st) && w.tabs[0].hydrated
    && match st
       case UserDiscard(_, id, ok) => !ok && id in w.store
       case FlushRemoved(_, ok) => !ok && w.tabs[0].pc.job.id in w.store
       case Load(_, read) => read.Failed? && w.store != map[]
       case FlushLoad(_, read) => read.Failed? && w.store != map[]
       case _ => false
  }

  lemma Unchanged(w: World, w': World)
    requires |w.tabs| == 1 && |w'.tabs| == 1 && w'.store == w.store
    requires w'.tabs[0].cache == w.tabs[0].cache && (w'.tabs[0].hydrated ==> w.tabs[0].hydrated)
    requires Complete(w)
    ensures Complete(w')
  {}

  lemma ReadComplete(w: World, st: Step)
    requires Complete(w) && Enabled(w, st) && (st.Load? || st.FlushLoad?)
    ensures Complete(Next(w, st)) <==> !HidesARow(w, st)
  {
    var w' := Next(w, st);
    if st.read.Failed? && w.tabs[0].hydrated && w.store != map[] {
      var id :| id in w.store;
      assert w'.tabs[0].cache == [] && id in w'.store;
    }
  }

  lemma DiscardComplete(w: World, st: Step)
    requires CacheAgrees(w) && GoodStore(w.hist, w.store) && Complete(w) && Enabled(w, st) && st.UserDiscard?
    ensures Complete(Next(w, st)) <==> !HidesARow(w, st)
  {
    var w' := Next(w, st);
    if HidesARow(w, st) {
      assert w'.store[st.id].id == st.id;
    }
  }

  lemma RemovedComplete(w: World, t: nat, ok: bool)
    requires CacheAgrees(w) && GoodStore(w.hist, w.store) && Complete(w) && Enabled(w, FlushRemoved(t, ok))
    ensures Complete(Removed(w, t, ok)) <==> !HidesARow(w, FlushRemoved(t, ok))
  {
    var w', id := Removed(w, t, ok), w.tabs[t].pc.job.id;
    if HidesARow(w, FlushRemoved(t, ok)) {
      assert w'.store[id].id == id;
    }
  }

  lemma WrittenComplete(w: World, t: nat, ok: bool)
    requires Base(w) && Complete(w) && Enabled(w, FlushWritten(t, ok))
    ensures Complete(Written(w, t, ok))
  {
    assert GoodTab(w.hist, w.tabs[t]);
    assert w.tabs[t].pc.next.id == w.tabs[t].pc.job.id;
  }

  lemma LiveComplete(w: World, st: Step)
    requires Base(w) && Complete(w) && Enabled(w, st)
    requires st.LiveAnswer? || st.LiveStored? || st.BeginCapture? || st.Crash?
    ensures Complete(Next(w, st))
  {
    if st.LiveStored? {
      assert w.live[st.id].job.id == st.id;
    } else {
      assert st.Crash? || Next(w, st).tabs[0] == w.tabs[0];
    }
  }

  /** One step ends the agreement exactly when it hides a row. */
  lemma StepCompleteIff(w: World, st: Step)
    requires Base(w) && CacheAgrees(w) && Complete(w)
    ensures Complete(Next(w, st)) <==> !HidesARow(w, st)
  {
    if Enabled(w, st) {
      match st
      case Tick(_) =>
      case SignIn(t, s) => Unchanged(w, Next(w, st));
      case Load(_, _) => ReadComplete(w, st);
      case FlushLoad(_, _) => ReadComplete(w, st);
      case UserDiscard(_, _, _) => DiscardComplete(w, st);
      case BeginFlush(_, _) => Unchanged(w, Next(w, st));
      case FlushNext(t) =>
        NextJobLeaves(w, t, w.tabs[t].pc.pass);
        Unchanged(w, Next(w, st));
      case FlushAnswer(t, a) =>
        AnsweredLeaves(w, t, a);
        Unchanged(w, Next(w, st));
      case FlushRemoved(t, ok) => RemovedComplete(w, t, ok);
      case FlushWritten(t, ok) => WrittenComplete(w, t, ok);
      case _ => LiveComplete(w, st);
    }
  }

  ghost predicate HidesNothing(w: World, steps: seq<Step>) {
    forall k :: 0 <= k < |steps| ==> !HidesARow(Exec(w, steps[..k]), steps[k])
  }

  /** With or without Web Locks, every job a lone page has cached is what the store holds. */
  lemma {:induction false} MemoryIsStored(w: World, steps: seq<Step>)
    requires Initial(w) && |w.tabs| == 1
    ensures |Exec(w, steps).tabs| == 1 && CacheAgrees(Exec(w, steps))
    decreases |steps|
  {
    if steps != [] {
      var n := |steps| - 1;
      MemoryIsStored(w, steps[..n]);
      RunsAreGood(w, steps[..n]);
      StepKeepsCache(Exec(w, steps[..n]), steps[n]);
    }
  }

  lemma {:induction false} RunsStayComplete(w: World, steps: seq<Step>)
    requires Initial(w) && |w.tabs| == 1 && HidesNothing(w, steps)
    ensures Complete(Exec(w, steps))
    decreases |steps|
  {
    if steps != [] {
      var n := |steps| - 1;
      var before := steps[..n];
      assert HidesNothing(w, before) by {
        forall k | 0 <= k < n ensures !HidesARow(Exec(w, before[..k]), before[k]) {
          assert before[..k] == steps[..k] && before[k] == steps[k];
        }
      }
      RunsStayComplete(w, before);
      MemoryIsStored(w, before);
      RunsAreGood(w, before);
      StepCompleteIff(Exec(w, before), steps[n]);
    }
  }

  /**
   * In every run of a lone page that hides no row, memory equals disk once a read has succeeded,
   * and what the page shows is exactly the stored jobs of its current owner.
   */
  lemma MemoryEqualsStore(w: World, steps: seq<Step>)
    requires Initial(w) && |w.tabs| == 1 && HidesNothing(w, steps)
    ensures var w' := Exec(w, steps);
            && |w'.tabs| == 1 && UniqueIds(w'.tabs[0].cache)
            && (w'.tabs[0].hydrated ==> forall j ::
                  j in w'.tabs[0].cache && Owned(j, w'.tabs[0].session)
                  <==> j.id in w'.store && w'.store[j.id] == j && Owned(j, w'.tabs[0].session))
            && (w'.tabs[0].hydrated ==> forall j :: j in w'.tabs[0].cache <==> j.id in w'.store && w'.store[j.id] == j)
  {
    MemoryIsStored(w, steps);
    RunsStayComplete(w, steps);
    RunsAreGood(w, steps);
    assert GoodTab(Exec(w, steps).hist, Exec(w, steps).tabs[0]);
  }

  /** The agreement ends at the first step that hides a row, and at no other. */
  lemma AgreementEndsAtFirstHiding(w: World, steps: seq<Step>, st: Step)
    requires Initial(w) && |w.tabs| == 1 && HidesNothing(w, steps)
    ensures Complete(Exec(w, steps + [st])) <==> !HidesARow(Exec(w, steps), st)
  {
    MemoryIsStored(w, steps);
    RunsStayComplete(w, steps);
    RunsAreGood(w, steps);
    ExecSnoc(w, steps, st);
    StepCompleteIff(Exec(w, steps), st);
  }

  lemma BlankedByRead(w: World, l: seq<Job>)
    requires |w.tabs| == 1 && IsListing(l, w.store)
    ensures var w' := Exec(w, [Load(0, Rows(l)), Load(0, Failed)]);
            w'.store == w.store && |w'.tabs| == 1 && w'.tabs[0].hydrated && w'.tabs[0].cache == []
  {
    ExecFew(w, Load(0, Rows(l)), Load(0, Failed), Tick(0));
  }

  /**
   * Two reads that overlap: both find the page not hydrated, the first succeeds and the second
   * fails. The page then counts as hydrated, shows nothing, and still has a job on disk.
   */
  lemma OverlappingReadsHideTheQueue(locks: bool) returns (w: World, steps: seq<Step>)
    ensures Initial(w) && w.locks == locks && |w.tabs| == 1
    ensures var w' := Exec(w, steps);
            |w'.tabs| == 1 && w'.tabs[0].hydrated && w'.tabs[0].cache == [] && 0 in w'.store
  {
    w, steps := CaptureOffline(locks, 1);
    var w0 := Exec(w, steps);
    assert IsListing([LEFT_OVER], w0.store);
    var loads := [Load(0, Rows([LEFT_OVER])), Load(0, Failed)];
    BlankedByRead(w0, [LEFT_OVER]);
    ExecConcat(w, steps, loads);
    steps := steps + loads;
  }
}
