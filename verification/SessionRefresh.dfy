/**
 * Single-flight session refresh: callers that meet a 401 together share one refresh, a first
 * 409 is asked once more, and only a definite no signs the user out.
 */
module SessionRefresh {
  import opened Wrappers

  type Caller = nat

  /** How one refresh request ends: a session, a success without one in its body, or an error. */
  datatype Answer = Granted(session: nat) | Empty | Failed(status: int)

  datatype Phase = Resting | First | Retrying

  /** What a caller is told, and in which round it asked. `None` means nothing to retry with. */
  datatype Told = Told(round: nat, session: Option<nat>)

  datatype Gate = Gate(
    phase: Phase, session: Option<nat>, tokens: bool, waiters: set<Caller>,
    told: map<Caller, Told>, verdicts: map<nat, Option<nat>>, round: nat, sent: nat, answered: nat, inRound: nat)

  datatype Step = Call(caller: Caller, credential: bool) | Reply(answer: Answer)

  predicate Refused(a: Answer) {
    a.Failed? && (a.status == 401 || a.status == 403)
  }

  function Tell(told: map<Caller, Told>, waiters: set<Caller>, t: Told): map<Caller, Told> {
    map c | c in told.Keys + waiters :: if c in waiters then t else told[c]
  }

  /** The refresh is over: every waiting caller gets the same result. */
  function Conclude(g: Gate, session: Option<nat>, kept: Option<nat>, tokens: bool): Gate {
    Gate(Resting, kept, tokens, {},
         Tell(g.told, g.waiters, Told(g.round, session)),
         g.verdicts[g.round := session], g.round + 1, g.sent, g.answered + 1, 0)
  }

  /** A caller without a credential is turned away at once; the others wait for the one refresh. */
  function Called(g: Gate, caller: Caller, credential: bool): Gate {
    if !credential || caller in g.waiters || caller in g.told then g
    else if g.phase.Resting? then
      g.(phase := First, waiters := {caller}, sent := g.sent + 1, inRound := 1)
    else g.(waiters := g.waiters + {caller})
  }

  function Replied(g: Gate, a: Answer): Gate
    requires !g.phase.Resting?
  {
    if g.phase.First? && a == Failed(409) then
      g.(phase := Retrying, sent := g.sent + 1, answered := g.answered + 1, inRound := 2)
    else
      match a
      case Granted(s) => Conclude(g, Some(s), Some(s), g.tokens)
      case Empty => Conclude(g, None, None, g.tokens)
      case Failed(_) => Conclude(g, None, if Refused(a) then None else g.session, g.tokens && !Refused(a))
  }

  function Next(g: Gate, st: Step): Gate {
    match st
    case Call(c, credential) => Called(g, c, credential)
    case Reply(a) => if g.phase.Resting? then g else Replied(g, a)
  }

  function Exec(g: Gate, steps: seq<Step>): Gate
    decreases |steps|
  {
    if steps == [] then g else Next(Exec(g, steps[..|steps| - 1]), steps[|steps| - 1])
  }

  predicate Initial(g: Gate) {
    g.phase.Resting? && g.waiters == {} && g.told == map[] && g.verdicts == map[]
    && g.round == 0 && g.sent == 0 && g.answered == 0 && g.inRound == 0
  }

  /** The module state of the client that the refresh touches. */
  class RefreshGate {
    /** `refreshing` and which of its two requests is out. */
    var phase: Phase
    var session: Option<nat>
    var tokens: bool
    var waiters: set<Caller>
    var told: map<Caller, Told>
    ghost var verdicts: map<nat, Option<nat>>
    var round: nat
    ghost var sent: nat
    ghost var answered: nat
    ghost var inRound: nat

    ghost function State(): Gate
      reads this
    {
      Gate(phase, session, tokens, waiters, told, verdicts, round, sent, answered, inRound)
    }

    constructor (session: Option<nat>, tokens: bool)
      ensures Initial(State()) && this.session == session && this.tokens == tokens
    {
      this.phase, this.session, this.tokens, waiters, told := Resting, session, tokens, {}, map[];
      verdicts, round, sent, answered, inRound := map[], 0, 0, 0, 0;
    }

    method RefreshSession(caller: Caller, credential: bool)
      modifies this
      ensures State() == Next(old(State()), Call(caller, credential))
    {
      if !credential || caller in waiters || caller in told {
        return;
      }
      if phase.Resting? {
        phase, sent, inRound := First, sent + 1, 1;
        waiters := {};
      }
      waiters := waiters + {caller};
    }

    method OnAnswer(a: Answer)
      requires !phase.Resting?
      modifies this
      ensures State() == Next(old(State()), Reply(a))
    {
      answered := answered + 1;
      if phase.First? && a == Failed(409) {
        phase, sent, inRound := Retrying, sent + 1, 2;
        return;
      }
      var result: Option<nat> := None;
      if a.Granted? {
        session, result := Some(a.session), Some(a.session);
      } else if a.Empty? {
        session := None;
      } else if a.status == 401 || a.status == 403 {
        session, tokens := None, false;
      }
      told := Tell(told, waiters, Told(round, result));
      verdicts := verdicts[round := result];
      phase, waiters, round, inRound := Resting, {}, round + 1, 0;
    }
  }

  // ---- over whole runs ----

  ghost predicate Good(g: Gate) {
    && g.sent == g.answered + (if g.phase.Resting? then 0 else 1)
    && g.inRound == (match g.phase case Resting => 0 case First => 1 case Retrying => 2)
    && (g.waiters == {} <==> g.phase.Resting?)
    && (forall r :: r in g.verdicts ==> r < g.round)
    && (forall c :: c in g.told ==> g.told[c].round in g.verdicts && g.told[c].session == g.verdicts[g.told[c].round])
  }

  lemma StepKeepsGood(g: Gate, st: Step)
    requires Good(g)
    ensures Good(Next(g, st))
  {
    if st.Call? {
      assert st.caller in g.waiters + {st.caller};
    }
  }

  lemma {:induction false} RunsAreGood(g: Gate, steps: seq<Step>)
    requires Good(g)
    ensures Good(Exec(g, steps))
    decreases |steps|
  {
    if steps != [] {
      RunsAreGood(g, steps[..|steps| - 1]);
      StepKeepsGood(Exec(g, steps[..|steps| - 1]), steps[|steps| - 1]);
    }
  }

  /**
   * However many callers ask, at most one refresh request is unanswered, one refresh makes at
   * most two requests, and callers that were told together were told the same.
   */
  lemma SingleFlight(g: Gate, steps: seq<Step>, c1: Caller, c2: Caller)
    requires Initial(g)
    ensures var g' := Exec(g, steps);
            && g'.sent - g'.answered <= 1 && g'.inRound <= 2
            && (c1 in g'.told && c2 in g'.told && g'.told[c1].round == g'.told[c2].round ==> g'.told[c1] == g'.told[c2])
  {
    RunsAreGood(g, steps);
  }

  /**
   * A caller with a credential that is neither waiting nor told is taken up: at rest it starts
   * the refresh with one request, otherwise it joins the one under way and nothing is sent. A
   * caller without one changes nothing.
   */
  lemma CallersAreTakenUp(g: Gate, c: Caller)
    requires c !in g.waiters && c !in g.told
    ensures Next(g, Call(c, false)) == g
    ensures var g' := Next(g, Call(c, true));
            && c in g'.waiters && !g'.phase.Resting?
            && g'.session == g.session && g'.tokens == g.tokens && g'.told == g.told
            && if g.phase.Resting? then g'.phase.First? && g'.waiters == {c} && g'.sent == g.sent + 1
               else g'.phase == g.phase && g'.waiters == g.waiters + {c} && g'.sent == g.sent
  {}

  /** What an answer to a refresh under way leaves: the new session, the old one, or a second try. */
  lemma AnswersAreKept(g: Gate, a: Answer)
    requires !g.phase.Resting?
    ensures var g' := Next(g, Reply(a));
            && (a.Granted? ==> g'.phase.Resting? && g'.session == Some(a.session) && g'.tokens == g.tokens)
            && (a == Failed(409) && g.phase.First? ==>
                  && g'.phase.Retrying? && g'.sent == g.sent + 1
                  && g'.waiters == g.waiters && g'.session == g.session && g'.tokens == g.tokens)
            && (a.Failed? && a.status != 401 && a.status != 403 && !(a.status == 409 && g.phase.First?) ==>
                  g'.phase.Resting? && g'.session == g.session && g'.tokens == g.tokens && g'.sent == g.sent)
            && (a == Failed(401) || a == Failed(403) ==> g'.phase.Resting? && g'.session == None && !g'.tokens)
  {}

  /** Nobody who waited is forgotten: an answer that ends the refresh tells every waiter. */
  lemma AnswersReachEveryWaiter(g: Gate, steps: seq<Step>, a: Answer, c: Caller)
    requires Initial(g) && c in Exec(g, steps).waiters
    ensures var g', g'' := Exec(g, steps), Next(Exec(g, steps), Reply(a));
            if g'.phase.First? && a == Failed(409) then c in g''.waiters && g''.phase.Retrying?
            else c in g''.told && g''.told[c].session == (if a.Granted? then Some(a.session) else None)
  {
    RunsAreGood(g, steps);
  }

  /** A reply that ends the refresh with a 401 or 403, or with a success that carries no session. */
  predicate SignsOut(g: Gate, st: Step) {
    !g.phase.Resting? && st.Reply? && (Refused(st.answer) || st.answer.Empty?)
  }

  /** One step clears the session, or the tokens, in exactly these cases. */
  lemma WhatAStepClears(g: Gate, st: Step)
    ensures g.session.Some? ==> (Next(g, st).session.None? <==> SignsOut(g, st))
    ensures g.tokens ==> (!Next(g, st).tokens <==> SignsOut(g, st) && Refused(st.answer))
  {}

  /**
   * Over a run, a session that is gone was taken by a refusal, or by a success that carried no
   * session. A timeout, no network, a 5xx or a second 409 never takes it.
   */
  lemma {:induction false} OnlyANoSignsOut(g: Gate, steps: seq<Step>)
    requires g.session.Some? && Exec(g, steps).session.None?
    ensures exists k :: 0 <= k < |steps| && SignsOut(Exec(g, steps[..k]), steps[k])
    decreases |steps|
  {
    var n := |steps| - 1;
    var before := Exec(g, steps[..n]);
    if before.session.None? {
      OnlyANoSignsOut(g, steps[..n]);
      var k :| 0 <= k < n && SignsOut(Exec(g, steps[..n][..k]), steps[..n][k]);
      assert steps[..n][..k] == steps[..k];
      assert SignsOut(Exec(g, steps[..k]), steps[k]);
    } else {
      WhatAStepClears(before, steps[n]);
      assert SignsOut(Exec(g, steps[..n]), steps[n]);
    }
  }

  /** Tokens are dropped by a refusal alone. */
  lemma {:induction false} OnlyARefusalDropsTokens(g: Gate, steps: seq<Step>)
    requires g.tokens && !Exec(g, steps).tokens
    ensures exists k :: 0 <= k < |steps| && steps[k].Reply? && Refused(steps[k].answer)
    decreases |steps|
  {
    var n := |steps| - 1;
    if !Exec(g, steps[..n]).tokens {
      OnlyARefusalDropsTokens(g, steps[..n]);
      var k :| 0 <= k < n && steps[..n][k].Reply? && Refused(steps[..n][k].answer);
      assert steps[k].Reply?;
    } else {
      WhatAStepClears(Exec(g, steps[..n]), steps[n]);
    }
  }
}
