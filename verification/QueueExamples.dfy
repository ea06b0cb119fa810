/** Concrete runs of the queue machine that show its bounds are reached and its conditions needed. */
module QueueExamples {
  import opened Wrappers
  import opened QueueJobs
  import opened QueueMachine
  import opened QueueTraces

  const PUNCH := Payload("", "frame")
  const NOBODY := Session(None, None)
  const LEFT_OVER := Job(0, Capture(HrPunch, PUNCH, 0, None), None, 0, None)
  /** The same job once the server has refused it without a message. */
  const MARKED := LEFT_OVER.(error := Some(""))
  const LAST := Pass([], 0, false)

  /** A job that a flush at time 0 sends, whoever is signed in. */
  predicate Sendable(job: Job) {
    job.id == 0 && Judge(job, NOBODY, 0, false) == Send
  }

  /** A world at time 0 whose store holds the one job. */
  ghost predicate OneWaits(w: World, job: Job) {
    && w.store == map[0 := job] && w.clock == 0 && w.lock.None?
    && |w.tabs| > 0 && (forall t :: 0 <= t < |w.tabs| ==> w.tabs[t].session == NOBODY && w.tabs[t].pc.Idle?)
  }

  /** The waiting job is stored by tab 0 once its live send has failed. */
  lemma StoresLeftOver(w: World)
    requires |w.tabs| > 0 && w.tabs[0] == Tab(NOBODY, [], false, Idle)
    requires w.live == map[0 := Keeping(0, LEFT_OVER)] && w.store == map[]
    ensures var w' := Next(w, LiveStored(0, true));
            && w' == SetTab(w, 0, Tab(NOBODY, w'.tabs[0].cache, false, Idle))
                     .(live := w'.live, store := map[0 := LEFT_OVER], hist := w'.hist)
            && w'.hist.won == w.hist.won && w'.hist.lost == w.hist.lost
  {}

  lemma AttemptsLeftOver(w: World)
    requires |w.tabs| > 0 && w.tabs[0].session == NOBODY && w.live == map[] && w.next == 0 && w.clock == 0
    ensures Next(Next(w, BeginCapture(0, HrPunch, PUNCH)), LiveAnswer(0, Refusal(0, "")))
         == w.(live := map[0 := Keeping(0, LEFT_OVER)], next := 1)
  {
    var w1 := w.(live := map[0 := Attempt(0, HrPunch, PUNCH, 0)], next := 1);
    assert Next(w, BeginCapture(0, HrPunch, PUNCH)) == w1;
    assert w1.live[0 := Keeping(0, LEFT_OVER)] == map[0 := Keeping(0, LEFT_OVER)];
  }

  /** One capture made while offline. */
  lemma CaptureOffline(locks: bool, tabs: nat) returns (w: World, steps: seq<Step>)
    requires tabs >= 1
    ensures Initial(w) && w.locks == locks && |w.tabs| == tabs
    ensures var w' := Exec(w, steps);
            && OneWaits(w', LEFT_OVER) && |w'.tabs| == tabs && w'.locks == locks
            && w'.hist.won == multiset{} && w'.hist.lost == multiset{}
  {
    w := World(locks, None, 0, map[], seq(tabs, i => Tab(NOBODY, [], false, Idle)), map[], 0, NOTHING);
    steps := [BeginCapture(0, HrPunch, PUNCH), LiveAnswer(0, Refusal(0, "")), LiveStored(0, true)];
    ExecFew(w, steps[0], steps[1], steps[2]);
    AttemptsLeftOver(w);
    StoresLeftOver(w.(live := map[0 := Keeping(0, LEFT_OVER)], next := 1));
  }

  function Sender(job: Job, pc: Pc): Tab {
    Tab(NOBODY, [job], true, pc)
  }

  function Loaded(job: Job): Tab {
    Sender(job, Looping(Pass([job], 0, false)))
  }

  function SendingTab(job: Job): Tab {
    Sender(job, Sending(job, NOBODY, LAST))
  }

  const REMOVING := Sender(LEFT_OVER, Removing(LEFT_OVER, Delivered, NOBODY, LAST))

  lemma LoadsJob(w: World, t: nat, job: Job)
    requires w.clock == 0 && t < |w.tabs| && w.tabs[t].session == NOBODY && w.tabs[t].pc == Starting(false)
    requires w.store == map[0 := job] && job.id == 0
    ensures Next(w, FlushLoad(t, Rows([job]))) == SetTab(w, t, Loaded(job))
  {
    assert IsListing([job], w.store);
  }

  lemma JudgesJob(w: World, t: nat, job: Job)
    requires t < |w.tabs| && w.tabs[t] == Loaded(job) && Sendable(job)
    ensures Next(w, FlushNext(t)) == SetTab(w, t, SendingTab(job))
  {
    assert [job][1..] == [];
  }

  /** What tab `t` does from the start of its pass to the send. */
  lemma SendsJob(w: World, t: nat, job: Job) returns (steps: seq<Step>)
    requires w.clock == 0 && t < |w.tabs| && w.tabs[t].session == NOBODY && w.tabs[t].pc == Starting(false)
    requires w.store == map[0 := job] && Sendable(job)
    ensures Exec(w, steps) == SetTab(w, t, SendingTab(job))
  {
    steps := [FlushLoad(t, Rows([job])), FlushNext(t)];
    ExecFew(w, steps[0], steps[1], Tick(0));
    LoadsJob(w, t, job);
    JudgesJob(SetTab(w, t, Loaded(job)), t, job);
    assert w.tabs[t := Loaded(job)][t := SendingTab(job)] == w.tabs[t := SendingTab(job)];
  }

  // ---- two tabs without locks ----

  lemma BothBegin(w: World) returns (steps: seq<Step>)
    requires OneWaits(w, LEFT_OVER) && !w.locks && |w.tabs| >= 2
    ensures var w' := Exec(w, steps);
            && w' == w.(tabs := w'.tabs) && |w'.tabs| == |w.tabs|
            && forall t :: 0 <= t < 2 ==> w'.tabs[t].session == NOBODY && w'.tabs[t].pc == Starting(false)
  {
    steps := [BeginFlush(0, false), BeginFlush(1, false)];
    ExecFew(w, steps[0], steps[1], Tick(0));
  }

  lemma BothDelivered(w: World) returns (steps: seq<Step>)
    requires |w.tabs| >= 2 && w.tabs[0] == SendingTab(LEFT_OVER) && w.tabs[1] == SendingTab(LEFT_OVER)
    ensures Exec(w, steps).hist == w.hist.(won := w.hist.won + multiset{0, 0})
  {
    steps := [FlushAnswer(0, Success), FlushAnswer(1, Success)];
    ExecFew(w, steps[0], steps[1], Tick(0));
    assert Next(w, steps[0]) == SetTab(w, 0, REMOVING).(hist := w.hist.(won := w.hist.won + multiset{0}));
    assert w.hist.won + multiset{0} + multiset{0} == w.hist.won + multiset{0, 0};
  }

  /** Without Web Locks two tabs can both deliver one job, with no delete failing. */
  lemma TwoTabsWithoutLocks(tabs: nat) returns (w: World, steps: seq<Step>)
    requires tabs >= 2
    ensures Initial(w) && !w.locks && |w.tabs| == tabs
    ensures Exec(w, steps).hist.won[0] == 2 && Exec(w, steps).hist.lost[0] == 0
  {
    w, steps := CaptureOffline(false, tabs);
    var w0 := Exec(w, steps);
    var begin := BothBegin(w0);
    ExecConcat(w, steps, begin);
    steps := steps + begin;
    var w1 := Exec(w, steps);
    var first := SendsJob(w1, 0, LEFT_OVER);
    ExecConcat(w, steps, first);
    steps := steps + first;
    var w2 := Exec(w, steps);
    var second := SendsJob(w2, 1, LEFT_OVER);
    ExecConcat(w, steps, second);
    steps := steps + second;
    var w3 := Exec(w, steps);
    assert w3.tabs[0] == SendingTab(LEFT_OVER) && w3.tabs[1] == SendingTab(LEFT_OVER);
    var answers := BothDelivered(w3);
    ExecConcat(w, steps, answers);
    steps := steps + answers;
  }

  // ---- one tab with locks ----

  lemma TakesTheLock(w: World, job: Job) returns (steps: seq<Step>)
    requires OneWaits(w, job) && w.locks && job.id == 0
    ensures Exec(w, steps) == SetTab(w, 0, Sender(job, Starting(false))).(lock := Some(0))
  {
    steps := [BeginFlush(0, false), FlushLoad(0, Rows([job]))];
    ExecFew(w, steps[0], steps[1], Tick(0));
    assert IsListing([job], w.store);
    var rereading, started := w.tabs[0].(hydrated := false, pc := Rereading(false)), Sender(job, Starting(false));
    assert Next(w, steps[0]) == SetTab(w, 0, rereading).(lock := Some(0));
    assert w.tabs[0 := rereading][0 := started] == w.tabs[0 := started];
  }

  /** A locked tab reads the waiting job and sends it. */
  lemma FlushSends(w: World, job: Job) returns (steps: seq<Step>)
    requires OneWaits(w, job) && w.locks && Sendable(job)
    ensures Exec(w, steps) == SetTab(w, 0, SendingTab(job)).(lock := Some(0))
  {
    var begin := TakesTheLock(w, job);
    var send := SendsJob(Exec(w, begin), 0, job);
    ExecConcat(w, begin, send);
    steps := begin + send;
    var started := Sender(job, Starting(false));
    assert w.tabs[0 := started][0 := SendingTab(job)] == w.tabs[0 := SendingTab(job)];
  }

  lemma AnswersLeftOver(w: World)
    requires |w.tabs| > 0 && w.tabs[0] == SendingTab(LEFT_OVER)
    ensures Next(w, FlushAnswer(0, Success)) ==
            SetTab(w, 0, REMOVING).(hist := w.hist.(won := w.hist.won + multiset{0}))
  {}

  /** A locked tab delivers the waiting job and its delete does not happen yet. */
  lemma DeliversLeftOver(w: World) returns (steps: seq<Step>)
    requires OneWaits(w, LEFT_OVER) && w.locks
    ensures Exec(w, steps) ==
            SetTab(w, 0, REMOVING).(lock := Some(0), hist := w.hist.(won := w.hist.won + multiset{0}))
  {
    var send := FlushSends(w, LEFT_OVER);
    ExecSnoc(w, send, FlushAnswer(0, Success));
    AnswersLeftOver(Exec(w, send));
    steps := send + [FlushAnswer(0, Success)];
    assert w.tabs[0 := SendingTab(LEFT_OVER)][0 := REMOVING] == w.tabs[0 := REMOVING];
  }

  lemma LosesDelete(w: World)
    requires w.tabs == [REMOVING]
    ensures var w' := Next(w, FlushRemoved(0, false));
            && w' == w.(tabs := w'.tabs, hist := w.hist.(lost := w.hist.lost + multiset{0}))
            && |w'.tabs| == 1 && w'.tabs[0].session == NOBODY && w'.tabs[0].pc == Looping(LAST)
  {}

  lemma PassEnds(w: World, job: Job)
    requires |w.tabs| == 1 && w.tabs[0].session == NOBODY && w.tabs[0].pc == Looping(LAST)
    requires w.store == map[0 := job] && w.lock == Some(0) && w.clock == 0
    ensures var w' := Next(w, FlushNext(0)); OneWaits(w', job) && w'.locks == w.locks && w'.hist == w.hist
  {}

  lemma FailsToDelete(w: World) returns (steps: seq<Step>)
    requires w.clock == 0 && w.store == map[0 := LEFT_OVER] && w.lock == Some(0) && w.tabs == [REMOVING]
    ensures var w' := Exec(w, steps);
            OneWaits(w', LEFT_OVER) && w'.locks == w.locks && w'.hist == w.hist.(lost := w.hist.lost + multiset{0})
  {
    steps := [FlushRemoved(0, false), FlushNext(0)];
    ExecFew(w, steps[0], steps[1], Tick(0));
    LosesDelete(w);
    PassEnds(Next(w, steps[0]), LEFT_OVER);
  }

  /** The bound is reached: after one failed delete a locked tab delivers the job again. */
  lemma FailedDeleteSendsAgain() returns (w: World, steps: seq<Step>)
    ensures Initial(w) && w.locks
    ensures Exec(w, steps).hist.won[0] == 2 && Exec(w, steps).hist.lost[0] == 1
  {
    w, steps := CaptureOffline(true, 1);
    var w0 := Exec(w, steps);
    var first := DeliversLeftOver(w0);
    ExecConcat(w, steps, first);
    steps := steps + first;
    var w1 := Exec(w, steps);
    assert w1.tabs == [REMOVING];
    var fail := FailsToDelete(w1);
    ExecConcat(w, steps, fail);
    steps := steps + fail;
    var w2 := Exec(w, steps);
    var second := DeliversLeftOver(w2);
    ExecConcat(w, steps, second);
    steps := steps + second;
  }

  // ---- a mark without a message ----

  const MARKING := Sender(LEFT_OVER, Writing(LEFT_OVER, MARKED, NOBODY, LAST))

  /** The server refuses the job and says nothing. */
  lemma RefusesSilently(w: World)
    requires |w.tabs| > 0 && w.tabs[0] == SendingTab(LEFT_OVER)
    ensures Next(w, FlushAnswer(0, Refusal(400, ""))) == SetTab(w, 0, MARKING)
  {}

  lemma StoresMark(w: World)
    requires w.tabs == [MARKING] && w.store == map[0 := LEFT_OVER] && w.lock == Some(0) && w.clock == 0
    ensures var w' := Next(w, FlushWritten(0, true));
            && |w'.tabs| == 1 && w'.tabs[0].session == NOBODY && w'.tabs[0].pc == Looping(LAST)
            && w'.store == map[0 := MARKED] && w'.lock == Some(0) && w'.clock == 0 && w'.locks == w.locks
  {
    assert w.store[0 := MARKED] == map[0 := MARKED];
  }

  /** One tab, with locks: the job is refused without a message, and the next flush is about to send it again. */
  lemma SilentRefusalIsSentAgain() returns (w: World, before: seq<Step>, after: seq<Step>)
    ensures Initial(w) && w.locks
    ensures |Exec(w, before).tabs| == 1 && Exec(w, before).tabs[0] == MARKING
    ensures var w' := Exec(w, before + [FlushWritten(0, true)] + after); w'.tabs == [Loaded(MARKED)]
  {
    w, before := CaptureOffline(true, 1);
    var w0 := Exec(w, before);
    var send := FlushSends(w0, LEFT_OVER);
    ExecConcat(w, before, send);
    before := before + send;
    var w1 := Exec(w, before);
    RefusesSilently(w1);
    ExecSnoc(w, before, FlushAnswer(0, Refusal(400, "")));
    before := before + [FlushAnswer(0, Refusal(400, ""))];
    var w2 := Exec(w, before);
    assert w2.tabs == [MARKING];
    var marked := before + [FlushWritten(0, true)];
    StoresMark(w2);
    ExecSnoc(w, before, FlushWritten(0, true));
    PassEnds(Exec(w, marked), MARKED);
    after := FlushesMarked(Exec(w, marked));
    ExecConcat(w, marked, after);
  }

  lemma FlushesMarked(w: World) returns (steps: seq<Step>)
    requires |w.tabs| == 1 && w.tabs[0].session == NOBODY && w.tabs[0].pc == Looping(LAST) && w.locks
    requires w.store == map[0 := MARKED] && w.lock == Some(0) && w.clock == 0
    ensures Exec(w, steps).tabs == [Loaded(MARKED)]
  {
    PassEnds(w, MARKED);
    var idle := Next(w, FlushNext(0));
    ExecOne(w, FlushNext(0));
    var begin := TakesTheLock(idle, MARKED);
    ExecConcat(w, [FlushNext(0)], begin);
    var load := FlushLoad(0, Rows([MARKED]));
    var w1 := Exec(idle, begin);
    ExecSnoc(w, [FlushNext(0)] + begin, load);
    LoadsJob(w1, 0, MARKED);
    steps := [FlushNext(0)] + begin + [load];
  }
}
