/**
 * The offline queue of one page: the module state of offline-queue.ts and the IndexedDB store
 * behind it, updated in place. Calls run one after the other; interleaving is the machine's.
 */
module OfflineQueueClass {
  import opened Wrappers
  import opened QueueJobs
  import opened QueuePass

  /** Web Locks are absent, held by another tab, or granted to this one. */
  datatype Lock = Missing | Taken | Granted

  datatype Outcome = Sent | Queued | Threw

  /** `hydrated` and `cache` after `hydrate`; `rows` is None when the read failed. */
  function AfterHydrate(hydrated: bool, cache: seq<Job>, rows: Option<seq<Job>>): (bool, seq<Job>) {
    if hydrated then (true, cache)
    else if rows.Some? then (true, rows.value)
    else (false, [])
  }

  /** The jobs a flush starts from. Under the lock the page forgets its copy and reads again. */
  function FlushStart(
    lock: Lock, hydrated: bool, cache: seq<Job>, first: Option<seq<Job>>, second: Option<seq<Job>>)
    : (bool, seq<Job>)
  {
    var (h, c) := if lock.Granted? then AfterHydrate(false, cache, first) else (hydrated, cache);
    AfterHydrate(h, c, second)
  }

  class OfflineQueue {
    var store: map<Id, Job>
    var cache: seq<Job>
    var hydrated: bool
    /** Stored rows a hydrated page does not hold: their delete failed, or a later read did. */
    ghost var stranded: set<Id>

    ghost function Mem(): Memory
      reads this
    {
      Memory(store, cache)
    }

    ghost predicate Valid()
      reads this
    {
      Agrees(Mem()) && (hydrated ==> Covers(Mem(), stranded))
    }

    constructor (store: map<Id, Job>)
      requires forall id :: id in store ==> store[id].id == id
      ensures Valid() && this.store == store && cache == [] && !hydrated && stranded == {}
    {
      this.store, cache, hydrated, stranded := store, [], false, {};
    }

    /**
     * What `hydrate` does when its read of the store ends. Another call may have ended first: a
     * failing read empties the cache all the same, and the page stays hydrated.
     */
    method ReadLands(rows: Option<seq<Job>>)
      requires Valid() && (rows.Some? ==> IsListing(rows.value, store))
      modifies `cache, `hydrated, `stranded
      ensures Valid()
      ensures cache == if rows.Some? then rows.value else []
      ensures hydrated == (old(hydrated) || rows.Some?)
      ensures stranded == if rows.None? && old(hydrated) then store.Keys else {}
    {
      stranded := if rows.None? && hydrated then store.Keys else {};
      if rows.Some? {
        cache := rows.value;
        hydrated := true;
      } else {
        cache := [];
      }
    }

    method Hydrate(rows: Option<seq<Job>>)
      requires Valid() && (rows.Some? ==> IsListing(rows.value, store))
      modifies `cache, `hydrated, `stranded
      ensures Valid()
      ensures (hydrated, cache) == AfterHydrate(old(hydrated), old(cache), rows)
      ensures old(hydrated) ==> hydrated && cache == old(cache) && stranded == old(stranded)
      ensures !old(hydrated) ==> hydrated == rows.Some? && cache == (if rows.Some? then rows.value else [])
      ensures !old(hydrated) ==> stranded == {}
      ensures hydrated && stranded == {} ==> forall id :: id in store ==> store[id] in cache
    {
      if hydrated {
        return;
      }
      ReadLands(rows);
    }

    method Put(job: Job, ok: bool)
      requires Valid()
      modifies `store, `cache
      ensures Valid()
      ensures Mem() == if ok then WriteJob(old(Mem()), job) else old(Mem())
    {
      if ok {
        WriteAgrees(Mem(), job, if hydrated then stranded else store.Keys);
        store := store[job.id := job];
        cache := Replaced(cache, job);
      }
    }

    /** A row that cannot be deleted leaves the page's view all the same. */
    method Discard(id: Id, ok: bool)
      requires Valid()
      modifies `store, `cache, `stranded
      ensures Valid() && Mem() == RemoveJob(old(Mem()), id, ok)
      ensures stranded == if ok then old(stranded) else old(stranded) + {id}
    {
      RemoveAgrees(Mem(), id, ok, if hydrated then stranded else store.Keys);
      if ok {
        store := store - {id};
      } else {
        stranded := stranded + {id};
      }
      cache := Without(cache, id);
    }

    /** The cached jobs that are the current owner's. */
    method Pending(session: Session) returns (mine: seq<Job>)
      requires Valid()
      ensures UniqueIds(mine)
      ensures forall j :: j in mine <==> j in cache && Owned(j, session)
      ensures hydrated && stranded == {} ==> forall id :: id in store && Owned(store[id], session) ==> store[id] in mine
    {
      mine := [];
      for i := 0 to |cache|
        invariant UniqueIds(mine)
        invariant forall j :: j in mine <==> j in cache[..i] && Owned(j, session)
      {
        assert cache[..i + 1] == cache[..i] + [cache[i]];
        if Owned(cache[i], session) {
          forall j | j in mine ensures j.id != cache[i].id {
            assert j in cache[..i];
          }
          mine := mine + [cache[i]];
        }
      }
      assert cache[..|cache|] == cache;
    }

    /** `id` is the fresh id the job gets if it has to be kept. */
    method RunOrQueue(kind: Kind, payload: Payload, session: Session, now: int,
                      rows: Option<seq<Job>>, answer: Answer, id: Id, stored: bool)
      returns (outcome: Outcome)
      requires Valid() && id !in store && (rows.Some? ==> IsListing(rows.value, store))
      modifies this
      ensures Valid()
      ensures outcome.Sent? <==> answer.Success?
      ensures outcome.Queued? <==> stored && (IsTransient(answer) || (answer.Refusal? && answer.status == 0))
      ensures outcome.Queued? ==>
                && store == old(store)[id := Job(id, Capture(kind, payload, now, session.owner), None, 0, None)]
                && store[id] in cache
      ensures !outcome.Queued? ==> store == old(store)
    {
      Hydrate(rows);
      if answer.Success? {
        return Sent;
      }
      if !IsRetryable(answer) {
        return Threw;
      }
      Put(Job(id, Capture(kind, payload, now, session.owner), None, 0, None), stored);
      return if stored then Queued else Threw;
    }

    /** The body of the flush loop for one job. */
    method FlushOne(job: Job, session: Session, now: int, manual: bool, fate: Fate) returns (ending: Ending)
      requires Valid()
      modifies `store, `cache, `stranded
      ensures Valid() && (Mem(), ending) == DrainOne(old(Mem()), job, session, now, manual, fate)
      ensures stranded == old(stranded) || (!fate.removed && stranded == old(stranded) + {job.id})
    {
      match Judge(job, session, now, manual) {
        case TooOld =>
          Discard(job.id, fate.removed);
        case WrongDepot =>
          Put(job.(error := Some(STALE_DEPOT_MESSAGE)), fate.written);
          return if fate.written then Underway else Rejected;
        case Send =>
          if fate.answer.Success? {
            Discard(job.id, fate.removed);
          } else {
            var next := AfterFailure(job, fate.answer, now);
            if next.None? {
              return Stopped;
            }
            Put(next.value, fate.written);
            return if fate.written then Underway else Rejected;
          }
        case _ =>
      }
      return Underway;
    }

    /** The reads before a pass: under the lock the page forgets its copy and reads again. */
    method LoadForFlush(granted: bool, first: Option<seq<Job>>, second: Option<seq<Job>>)
      requires Valid()
      requires first.Some? ==> IsListing(first.value, store)
      requires second.Some? ==> IsListing(second.value, store)
      modifies `cache, `hydrated, `stranded
      ensures Valid()
      ensures (hydrated, cache) ==
              FlushStart(if granted then Granted else Missing, old(hydrated), old(cache), first, second)
      ensures granted && first.Some? ==> hydrated && cache == first.value
      ensures !granted && old(hydrated) ==> hydrated && cache == old(cache)
      ensures (if granted then first.None? else !old(hydrated)) ==>
                hydrated == second.Some? && cache == (if second.Some? then second.value else [])
      ensures granted ==> stranded == {}
    {
      if granted {
        hydrated := false;
        Hydrate(first);
      }
      Hydrate(second);
    }

    /** The loop of a flush over the jobs that were cached when it began. */
    method RunPass(jobs: seq<Job>, session: Session, now: int, manual: bool, fates: Id -> Fate)
      returns (ending: Ending)
      requires Valid()
      modifies `store, `cache, `stranded
      ensures Valid()
      ensures (Mem(), ending) == Drain(old(Mem()), jobs, session, now, manual, fates)
      ensures IsStranding(old(stranded), stranded, jobs, fates)
    {
      ghost var start, before := Mem(), stranded;
      for i := 0 to |jobs|
        invariant Valid() && IsStranding(before, stranded, jobs, fates)
        invariant Drain(Mem(), jobs[i..], session, now, manual, fates)
               == Drain(start, jobs, session, now, manual, fates)
      {
        assert HasId(jobs, jobs[i].id);
        assert jobs[i..][0] == jobs[i] && jobs[i..][1..] == jobs[i + 1..];
        ending := FlushOne(jobs[i], session, now, manual, fates(jobs[i].id));
        if ending != Underway {
          return;
        }
      }
      return Finished;
    }

    /**
     * One flush. `first` and `second` are what the two reads of the store return, `fates` how
     * each job's transactions end. The result is that of the pass function on the same start,
     * and the only rows it strands are those whose delete failed.
     */
    method Flush(lock: Lock, first: Option<seq<Job>>, second: Option<seq<Job>>,
                 session: Session, now: int, manual: bool, fates: Id -> Fate)
      returns (ending: Ending)
      requires Valid()
      requires first.Some? ==> IsListing(first.value, store)
      requires second.Some? ==> IsListing(second.value, store)
      modifies this
      ensures Valid()
      ensures lock.Taken? ==> ending.Finished? && Mem() == old(Mem()) && hydrated == old(hydrated)
      ensures !lock.Taken? ==>
                var (h, start) := FlushStart(lock, old(hydrated), old(cache), first, second);
                && hydrated == h
                && (Mem(), ending) == Drain(Memory(old(store), start), start, session, now, manual, fates)
                && (lock.Granted? ==> IsStranding({}, stranded, start, fates))
    {
      if lock.Taken? {
        return Finished;
      }
      LoadForFlush(lock.Granted?, first, second);
      ending := RunPass(cache, session, now, manual, fates);
    }
  }
}
