/**
 * Shared and cached GETs of the API client: one request in flight per key, and answers kept
 * for a reader's time to live until a mutation clears them.
 */
module SharedReads {
  import opened Wrappers

  type Value = int
  type Request = nat

  datatype Entry = Entry(at: int, value: Value)

  /** `settled`: the answer has been handled, the entry in `inflight` is not removed yet. */
  datatype Flight = Flight(key: string, ttl: int, settled: bool)

  /** A successful GET: which request, of which key, with which value, when, and under which mutation count. */
  datatype Settlement = Settlement(request: Request, key: string, value: Value, at: int, epoch: nat)

  datatype Client = Client(
    clock: int, cached: map<string, Entry>, inflight: map<string, Request>,
    flights: map<Request, Flight>, next: Request, epoch: nat, done: set<Settlement>)

  datatype Got = Hit(value: Value) | Joined(request: Request) | Started(request: Request)

  datatype Step =
    | Tick(now: int)
    | Get(key: string, ttl: int)
    | Settle(request: Request, answer: Option<Value>)
    | Clear(request: Request)
    | Invalidate

  function KeyOf(path: string, auth: bool): string {
    (if auth then "a" else "p") + ":" + path
  }

  /** What a read does: answer from the cache, join the request in flight, or start one. */
  function Read(c: Client, key: string, ttl: int): (Client, Got) {
    if ttl > 0 && key in c.cached && c.clock - c.cached[key].at < ttl then (c, Hit(c.cached[key].value))
    else if key in c.inflight then (c, Joined(c.inflight[key]))
    else
      (c.(inflight := c.inflight[key := c.next], flights := c.flights[c.next := Flight(key, ttl, false)],
          next := c.next + 1),
       Started(c.next))
  }

  /** The answer arrives: kept if it is a success and the starter gave a time to live. */
  function Settled(c: Client, r: Request, answer: Option<Value>): Client
    requires r in c.flights
  {
    var f := c.flights[r];
    var c' := c.(flights := c.flights[r := f.(settled := true)]);
    if answer.None? then c'
    else
      c'.(done := c.done + {Settlement(r, f.key, answer.value, c.clock, c.epoch)},
          cached := if f.ttl > 0 then c.cached[f.key := Entry(c.clock, answer.value)] else c.cached)
  }

  function Cleared(c: Client, r: Request): Client
    requires r in c.flights
  {
    c.(inflight := c.inflight - {c.flights[r].key}, flights := c.flights - {r})
  }

  predicate Enabled(c: Client, st: Step) {
    match st
    case Settle(r, _) => r in c.flights && !c.flights[r].settled
    case Clear(r) => r in c.flights && c.flights[r].settled
    case _ => true
  }

  function Next(c: Client, st: Step): Client {
    if !Enabled(c, st) then c
    else
      match st
      case Tick(now) => c.(clock := now)
      case Get(key, ttl) => Read(c, key, ttl).0
      case Settle(r, answer) => Settled(c, r, answer)
      case Clear(r) => Cleared(c, r)
      case Invalidate => c.(cached := map[], epoch := c.epoch + 1)
  }

  function Exec(c: Client, steps: seq<Step>): Client
    decreases |steps|
  {
    if steps == [] then c else Next(Exec(c, steps[..|steps| - 1]), steps[|steps| - 1])
  }

  const EMPTY := Client(0, map[], map[], map[], 0, 0, {})

  /** The module state of the client, as its functions update it in place. */
  class ReadCache {
    var clock: int
    var cached: map<string, Entry>
    var inflight: map<string, Request>
    /** The requests behind the promises in `inflight`. */
    var flights: map<Request, Flight>
    var next: Request
    ghost var epoch: nat
    ghost var done: set<Settlement>

    ghost function State(): Client
      reads this
    {
      Client(clock, cached, inflight, flights, next, epoch, done)
    }

    constructor ()
      ensures State() == EMPTY
    {
      clock, cached, inflight, flights, next, epoch, done := 0, map[], map[], map[], 0, 0, {};
    }

    method SharedGet(path: string, auth: bool, ttl: int) returns (got: Got)
      modifies this
      ensures (State(), got) == Read(old(State()), KeyOf(path, auth), ttl)
    {
      var key := KeyOf(path, auth);
      if ttl > 0 && key in cached && clock - cached[key].at < ttl {
        return Hit(cached[key].value);
      }
      if key in inflight {
        return Joined(inflight[key]);
      }
      got := Started(next);
      flights := flights[next := Flight(key, ttl, false)];
      inflight := inflight[key := next];
      next := next + 1;
    }

    method Answer(r: Request, answer: Option<Value>)
      requires r in flights && !flights[r].settled
      modifies this
      ensures State() == Next(old(State()), Settle(r, answer))
    {
      var f := flights[r];
      flights := flights[r := f.(settled := true)];
      if answer.Some? {
        done := done + {Settlement(r, f.key, answer.value, clock, epoch)};
        if f.ttl > 0 {
          cached := cached[f.key := Entry(clock, answer.value)];
        }
      }
    }

    method Finally(r: Request)
      requires r in flights && flights[r].settled
      modifies this
      ensures State() == Next(old(State()), Clear(r))
    {
      inflight := inflight - {flights[r].key};
      flights := flights - {r};
    }

    method InvalidateAll()
      modifies this
      ensures State() == Next(old(State()), Invalidate)
    {
      cached := map[];
      epoch := epoch + 1;
    }
  }

  lemma KeysAreInjective(p1: string, a1: bool, p2: string, a2: bool)
    requires KeyOf(p1, a1) == KeyOf(p2, a2)
    ensures p1 == p2 && a1 == a2
  {
    assert KeyOf(p1, a1)[0] == if a1 then 'a' else 'p';
    assert KeyOf(p2, a2)[0] == if a2 then 'a' else 'p';
    assert KeyOf(p1, a1)[2..] == p1 && KeyOf(p2, a2)[2..] == p2;
  }

  // ---- what every step keeps ----

  ghost predicate OneFlightPerKey(c: Client) {
    && (forall r :: r in c.flights ==>
          r < c.next && c.flights[r].key in c.inflight && c.inflight[c.flights[r].key] == r)
    && (forall k :: k in c.inflight ==> c.inflight[k] in c.flights && c.flights[c.inflight[k]].key == k)
  }

  /** The settlement a cached entry came from, with no invalidation since. */
  ghost predicate Backed(c: Client, key: string, e: Entry) {
    exists s :: s in c.done && s.key == key && s.value == e.value && s.at == e.at && s.epoch == c.epoch
  }

  ghost predicate CacheIsBacked(c: Client) {
    forall key :: key in c.cached ==> Backed(c, key, c.cached[key])
  }

  lemma StepKeepsBacking(c: Client, st: Step)
    requires CacheIsBacked(c)
    ensures CacheIsBacked(Next(c, st))
  {
    var c' := Next(c, st);
    forall key | key in c'.cached ensures Backed(c', key, c'.cached[key]) {
      if key in c.cached && c'.cached[key] == c.cached[key] {
        var s :| s in c.done && s.key == key && s.value == c.cached[key].value && s.at == c.cached[key].at
                 && s.epoch == c.epoch;
        assert s in c'.done && c'.epoch == c.epoch;
      } else {
        assert Settlement(st.request, key, c'.cached[key].value, c.clock, c.epoch) in c'.done;
      }
    }
  }

  lemma StepKeepsFlights(c: Client, st: Step)
    requires OneFlightPerKey(c)
    ensures OneFlightPerKey(Next(c, st))
  {}

  /** Every answered request was made before the next one. */
  ghost predicate DoneIsPast(c: Client) {
    forall s :: s in c.done ==> s.request < c.next
  }

  ghost predicate Sound(c: Client) {
    OneFlightPerKey(c) && CacheIsBacked(c) && DoneIsPast(c)
  }

  lemma StepKeepsSound(c: Client, st: Step)
    requires Sound(c)
    ensures Sound(Next(c, st)) && c.next <= Next(c, st).next
  {
    StepKeepsFlights(c, st);
    StepKeepsBacking(c, st);
  }

  lemma {:induction false} RunsKeepSound(c: Client, steps: seq<Step>)
    requires Sound(c)
    ensures Sound(Exec(c, steps)) && c.next <= Exec(c, steps).next
    decreases |steps|
  {
    if steps != [] {
      RunsKeepSound(c, steps[..|steps| - 1]);
      StepKeepsSound(Exec(c, steps[..|steps| - 1]), steps[|steps| - 1]);
    }
  }

  lemma RunsAreGood(steps: seq<Step>)
    ensures Sound(Exec(EMPTY, steps))
  {
    RunsKeepSound(EMPTY, steps);
  }

  // ---- over whole runs ----

  /** At most one shared GET of a key is outstanding. */
  lemma SharedOnce(steps: seq<Step>, r1: Request, r2: Request)
    requires var c := Exec(EMPTY, steps);
             r1 in c.flights && r2 in c.flights && c.flights[r1].key == c.flights[r2].key
    ensures r1 == r2
  {
    RunsAreGood(steps);
  }

  /**
   * Whatever a read returns belongs to its own key: a hit is the value of a successful GET that
   * settled less than the reader's time to live ago with no invalidation since, and a join is
   * the one outstanding request of that key.
   */
  lemma ReadsAreSound(steps: seq<Step>, key: string, ttl: int)
    ensures var c := Exec(EMPTY, steps);
            match Read(c, key, ttl).1
            case Hit(v) => exists s :: s in c.done && s.key == key && s.value == v && s.epoch == c.epoch
                                       && c.clock - s.at < ttl
            case Joined(r) => r in c.flights && c.flights[r].key == key
            case Started(r) => r !in c.flights && forall f :: f in c.flights ==> c.flights[f].key != key
  {
    RunsAreGood(steps);
    var c := Exec(EMPTY, steps);
    if Read(c, key, ttl).1.Hit? {
      var e := c.cached[key];
      var s :| s in c.done && s.key == key && s.value == e.value && s.at == e.at && s.epoch == c.epoch;
      assert c.clock - s.at < ttl;
    }
  }

  /** A failed GET leaves the cache as it was, and once cleared the next read asks again. */
  lemma FailureIsNotKept(steps: seq<Step>, r: Request, ttl: int)
    requires r in Exec(EMPTY, steps).flights && !Exec(EMPTY, steps).flights[r].settled
    ensures var c := Exec(EMPTY, steps);
            var key, c' := c.flights[r].key, Next(Next(c, Settle(r, None)), Clear(r));
            && c'.cached == c.cached && key !in c'.inflight
            && (key !in c.cached ==> Read(c', key, ttl).1.Started?)
  {
    RunsAreGood(steps);
  }

  // ---- reads and mutations ----

  /** A GET of `key` whose answer would be kept is still waiting. */
  predicate Leaky(c: Client, key: string) {
    key in c.inflight && c.inflight[key] in c.flights
    && !c.flights[c.inflight[key]].settled && c.flights[c.inflight[key]].ttl > 0
  }

  /** No cached value of `key`, and none still to be kept, was requested before request `from`. */
  ghost predicate Fenced(c: Client, key: string, from: Request) {
    && OneFlightPerKey(c) && CacheIsBacked(c) && from <= c.next
    && (forall r :: r in c.flights && r < from && c.flights[r].key == key ==>
          c.flights[r].settled || c.flights[r].ttl <= 0)
    && (key in c.cached ==>
          exists s :: s in c.done && s.key == key && s.value == c.cached[key].value && s.request >= from)
  }

  lemma StepKeepsFence(c: Client, st: Step, key: string, from: Request)
    requires Fenced(c, key, from)
    ensures Fenced(Next(c, st), key, from)
  {
    StepKeepsFlights(c, st);
    StepKeepsBacking(c, st);
    var c' := Next(c, st);
    if key in c'.cached {
      if key in c.cached && c'.cached[key] == c.cached[key] {
        var s :| s in c.done && s.key == key && s.value == c.cached[key].value && s.request >= from;
        assert s in c'.done;
      } else {
        assert Settlement(st.request, key, c'.cached[key].value, c.clock, c.epoch) in c'.done;
      }
    }
  }

  lemma {:induction false} FenceHolds(c: Client, steps: seq<Step>, key: string, from: Request)
    requires Fenced(c, key, from)
    ensures Fenced(Exec(c, steps), key, from)
    decreases |steps|
  {
    if steps != [] {
      FenceHolds(c, steps[..|steps| - 1], key, from);
      StepKeepsFence(Exec(c, steps[..|steps| - 1]), steps[|steps| - 1], key, from);
    }
  }

  /** A cached read, once `steps` have followed, of a value requested only before request `from`. */
  ghost predicate ReadsOldValue(c: Client, steps: seq<Step>, key: string, v: Value, from: Request) {
    var c' := Exec(c, steps);
    && (exists ttl :: Read(c', key, ttl).1 == Hit(v))
    && (forall s :: s in c'.done && s.key == key && s.value == v ==> s.request < from)
  }

  /** From `c` on, some run reads from the cache a value requested only before request `from`. */
  ghost predicate ServesOldValue(c: Client, key: string, from: Request) {
    exists steps, v :: ReadsOldValue(c, steps, key, v, from)
  }

  /** A value no settlement has had. */
  lemma NewValue(done: set<Settlement>) returns (v: Value)
    ensures forall s :: s in done ==> s.value != v
  {
    var rest: set<Settlement> := done;
    v := 0;
    while rest != {}
      invariant rest <= done && forall s :: s in done - rest ==> s.value < v
      decreases rest
    {
      var s :| s in rest;
      rest := rest - {s};
      if s.value >= v {
        v := s.value + 1;
      }
    }
  }

  lemma LateAnswerIsOld(c: Client, key: string, r: Request, from: Request)
    requires Sound(c) && r in c.flights && r < from && c.flights[r] == Flight(key, c.flights[r].ttl, false)
    requires c.flights[r].ttl > 0
    ensures ServesOldValue(c, key, from)
  {
    var v := NewValue(c.done);
    var st := Settle(r, Some(v));
    assert [st][..0] == [];
    assert Exec(c, [st]) == Next(c, st);
    assert Read(Next(c, st), key, 1).1 == Hit(v);
    assert ReadsOldValue(c, [st], key, v, from);
  }

  lemma CachedIsOld(c: Client, key: string, from: Request)
    requires key in c.cached
    requires forall s :: s in c.done && s.key == key && s.value == c.cached[key].value ==> s.request < from
    ensures ServesOldValue(c, key, from)
  {
    var e := c.cached[key];
    var ttl := if c.clock >= e.at then c.clock - e.at + 1 else 1;
    assert Read(c, key, ttl).1 == Hit(e.value);
    assert Exec(c, []) == c;
    assert ReadsOldValue(c, [], key, e.value, from);
  }

  /** An old value can be read from the cache exactly when the key is not fenced. */
  lemma ServesOldIffUnfenced(c: Client, key: string, from: Request)
    requires Sound(c) && from <= c.next
    ensures ServesOldValue(c, key, from) <==> !Fenced(c, key, from)
  {
    if Fenced(c, key, from) {
      forall steps, v ensures !ReadsOldValue(c, steps, key, v, from) {
        FenceHolds(c, steps, key, from);
      }
    } else if r :| r in c.flights && r < from && c.flights[r].key == key
                   && !c.flights[r].settled && c.flights[r].ttl > 0 {
      LateAnswerIsOld(c, key, r, from);
    } else {
      CachedIsOld(c, key, from);
    }
  }

  /** A mutation sent with `mutate` or `del`, up to its effect: the cache is cleared first, then `during` happens. */
  ghost function AtEffect(before: seq<Step>, during: seq<Step>): Client {
    Exec(Next(Exec(EMPTY, before), Invalidate), during)
  }

  lemma EffectIsSound(before: seq<Step>, during: seq<Step>)
    ensures Sound(AtEffect(before, during))
  {
    RunsAreGood(before);
    StepKeepsSound(Exec(EMPTY, before), Invalidate);
    RunsKeepSound(Next(Exec(EMPTY, before), Invalidate), during);
  }

  /**
   * A cached read can outlive a mutation made here exactly when, at the moment the mutation takes
   * effect, the key has been cached again or a GET of it whose answer is kept is in flight.
   */
  lemma MutationLeaksIff(before: seq<Step>, during: seq<Step>, key: string)
    ensures var mid := AtEffect(before, during);
            ServesOldValue(mid, key, mid.next) <==> key in mid.cached || Leaky(mid, key)
  {
    EffectIsSound(before, during);
    var mid := AtEffect(before, during);
    ServesOldIffUnfenced(mid, key, mid.next);
    if Leaky(mid, key) {
      assert mid.inflight[key] in mid.flights;
    }
  }

  /** With nothing between the clear and the effect, only a kept GET in flight at the clear leaks. */
  lemma OldValuesLeakIffInFlight(before: seq<Step>, key: string)
    ensures var c := Exec(EMPTY, before);
            ServesOldValue(Next(c, Invalidate), key, c.next) <==> Leaky(c, key)
  {
    MutationLeaksIff(before, [], key);
    assert AtEffect(before, []) == Next(Exec(EMPTY, before), Invalidate);
  }

  /**
   * An upload clears the cache only after its answer. An old value survives that exactly when a
   * kept GET requested before the effect is still in flight at the clear.
   */
  lemma UploadLeaksIff(before: seq<Step>, waiting: seq<Step>, key: string)
    ensures var from, c := Exec(EMPTY, before).next, Exec(Exec(EMPTY, before), waiting);
            ServesOldValue(Next(c, Invalidate), key, from) <==> Leaky(c, key) && c.inflight[key] < from
  {
    RunsAreGood(before);
    RunsKeepSound(Exec(EMPTY, before), waiting);
    var from, c := Exec(EMPTY, before).next, Exec(Exec(EMPTY, before), waiting);
    StepKeepsSound(c, Invalidate);
    ServesOldIffUnfenced(Next(c, Invalidate), key, from);
    if Leaky(c, key) {
      assert c.inflight[key] in c.flights;
    }
  }

  /** Reading again while the mutation is out: cleared, asked, answered with the old value, kept. */
  function ReadMeanwhile(key: string, v: Value): seq<Step> {
    [Get(key, 60_000), Settle(0, Some(v)), Clear(0)]
  }

  /** The run in which nothing is in flight at the clear and the old value is read after the effect. */
  lemma ReadDuringMutationLeaks(key: string, v: Value)
    ensures !Leaky(EMPTY, key)
    ensures var mid := AtEffect([], ReadMeanwhile(key, v));
            Read(mid, key, 60_000).1 == Hit(v) && ReadsOldValue(mid, [], key, v, mid.next)
  {
    var c0, steps := Next(EMPTY, Invalidate), ReadMeanwhile(key, v);
    assert steps[..3] == steps && steps[..3][..2] == steps[..2];
    assert steps[..2][..1] == steps[..1] && steps[..1][..0] == [];
    assert Exec(c0, steps[..1]) == Next(c0, steps[0]);
    assert Exec(c0, steps[..2]) == Next(Next(c0, steps[0]), steps[1]);
    assert Exec(c0, steps) == Next(Next(Next(c0, steps[0]), steps[1]), steps[2]);
    assert Exec(EMPTY, []) == EMPTY;
    var mid := AtEffect([], steps);
    assert Read(mid, key, 60_000).1 == Hit(v);
    assert Exec(mid, []) == mid;
  }

  /**
   * A read right after the clear is served by an older request exactly when one of its key is in
   * flight; otherwise it goes to the server.
   */
  lemma ReadAfterClear(before: seq<Step>, key: string, ttl: int)
    ensures var c := Exec(EMPTY, before);
            var got := Read(Next(c, Invalidate), key, ttl).1;
            && (got.Joined? && got.request < c.next <==> key in c.inflight)
            && (key !in c.inflight ==> got == Started(c.next))
  {
    RunsAreGood(before);
    var c := Exec(EMPTY, before);
    if key in c.inflight {
      assert c.inflight[key] < c.next;
    }
  }
}
