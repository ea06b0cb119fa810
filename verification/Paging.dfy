/** Reading every page of a list, or refusing: never part of the answer. */
module Paging {
  import opened Wrappers

  const PAGE_SIZE: nat := 100
  const MAX_ITEMS: nat := 5000

  /** A page as the server answers it; `total` may be absent. */
  datatype Page<T> = Page(items: seq<T>, total: Option<int>)

  datatype Read<T> = Everything(items: seq<T>) | TooMany(total: int)

  function Ceil(total: int, limit: nat): int
    requires limit >= 1
  {
    (total + limit - 1) / limit
  }

  function AtLeastOne(n: int): int {
    if n < 1 then 1 else n
  }

  /** The items of the first `n` pages, in order. */
  function FirstPages<T>(server: nat -> Page<T>, n: nat): seq<T> {
    if n == 0 then [] else FirstPages(server, n - 1) + server(n).items
  }

  function Slice<T>(list: seq<T>, from: int, to: int): seq<T>
    requires 0 <= from
  {
    var end := if to < |list| then to else |list|;
    if from < end then list[from..end] else []
  }

  /** A server that serves one fixed list in pages of `limit`. */
  ghost predicate Serves<T(!new)>(server: nat -> Page<T>, list: seq<T>, limit: nat) {
    forall k: nat :: k >= 1 ==> server(k) == Page(Slice(list, (k - 1) * limit, k * limit), Some(|list|))
  }

  /** How many items the first page says there are: its total, or what it holds. */
  function Claimed<T>(server: nat -> Page<T>): int {
    match server(1).total
    case Some(n) => n
    case None => |server(1).items|
  }

  /** What a caller may set: how many items a page holds, and how many items are too many. */
  datatype Options = Options(pageSize: Option<nat>, max: Option<nat>)

  function LimitOf(o: Options): nat {
    if o.pageSize.Some? then o.pageSize.value else PAGE_SIZE
  }

  function MaxOf(o: Options): nat {
    if o.max.Some? then o.max.value else MAX_ITEMS
  }

  /** With nothing set, at most fifty calls are made, whatever the server answers. */
  method FetchAllPages<T(!new)>(server: nat -> Page<T>, options: Options) returns (read: Read<T>, calls: nat)
    requires LimitOf(options) >= 1
    ensures options == Options(None, None) ==> calls <= 50
    ensures var limit := if options.pageSize.Some? then options.pageSize.value else 100;
            var max := if options.max.Some? then options.max.value else 5000;
            && 1 <= calls <= AtLeastOne(Ceil(max, limit))
            && (Claimed(server) > max ==> read == TooMany(Claimed(server)) && calls == 1)
            && (read.Everything? ==> calls == AtLeastOne(Ceil(Claimed(server), limit)))
            && (read.Everything? ==> read.items == FirstPages(server, calls) && (calls > 1 ==> |read.items| <= max))
            && forall list :: Serves(server, list, limit) ==>
                 if |list| > max then read == TooMany(|list|) && calls == 1
                 else read == Everything(list) && calls == AtLeastOne(Ceil(|list|, limit))
  {
    read, calls := FetchPages(server, LimitOf(options), MaxOf(options));
  }

  /** The loop, once the options are settled. */
  method FetchPages<T(!new)>(server: nat -> Page<T>, limit: nat, max: nat) returns (read: Read<T>, calls: nat)
    requires limit >= 1
    ensures 1 <= calls <= AtLeastOne(Ceil(max, limit))
    ensures Claimed(server) > max ==> read == TooMany(Claimed(server)) && calls == 1
    ensures read.Everything? ==> calls == AtLeastOne(Ceil(Claimed(server), limit))
    ensures read.TooMany? && calls > 1 ==> max < read.total == |FirstPages(server, calls)|
    ensures read.Everything? ==> read.items == FirstPages(server, calls) && (calls > 1 ==> |read.items| <= max)
    ensures forall list :: Serves(server, list, limit) ==>
              if |list| > max then read == TooMany(|list|) && calls == 1
              else read == Everything(list) && calls == AtLeastOne(Ceil(|list|, limit))
  {
    var first := server(1);
    calls := 1;
    var total: int := if first.total.Some? then first.total.value else |first.items|;
    if total > max {
      ServedTotal(server, limit);
      return TooMany(total), 1;
    }
    var out := first.items;
    assert FirstPages(server, 0) == [] && FirstPages(server, 1) == [] + out;
    var pages := Ceil(total, limit);
    CeilIsMonotone(total, max, limit);
    var page := 2;
    while page <= pages
      invariant calls == page - 1 && 2 <= page && (page <= 2 || page <= pages + 1)
      invariant out == FirstPages(server, calls) && (calls > 1 ==> |out| <= max)
    {
      var next := server(page);
      calls := page;
      out := out + next.items;
      if |out| > max {
        ServedPagesFit(server, limit, calls, max);
        return TooMany(|out|), calls;
      }
      page := page + 1;
    }
    ServedPagesAreAll(server, limit, calls);
    return Everything(out), calls;
  }

  lemma CeilIsMonotone(a: int, b: int, limit: nat)
    requires limit >= 1 && a <= b
    ensures Ceil(a, limit) <= Ceil(b, limit)
  {
    var x, y := a + limit - 1, b + limit - 1;
    var p, q := x / limit, y / limit;
    assert p * limit <= x && y < q * limit + limit;
    Multiples(p, q + 1, limit);
    assert (q + 1) * limit == q * limit + limit;
  }

  lemma Multiples(p: int, r: int, d: nat)
    ensures p >= r ==> p * d >= r * d
  {}

  lemma ServedTotal<T(!new)>(server: nat -> Page<T>, limit: nat)
    ensures forall list :: Serves(server, list, limit) ==> server(1).total == Some(|list|)
  {}

  lemma {:induction false} PagesOfList<T(!new)>(server: nat -> Page<T>, list: seq<T>, limit: nat, n: nat)
    requires Serves(server, list, limit) && limit >= 1
    ensures FirstPages(server, n) == list[..if n * limit < |list| then n * limit else |list|]
    decreases n
  {
    if n > 0 {
      PagesOfList(server, list, limit, n - 1);
      assert server(n) == Page(Slice(list, (n - 1) * limit, n * limit), Some(|list|));
      assert n * limit == (n - 1) * limit + limit;
    }
  }

  lemma ServedPagesFit<T(!new)>(server: nat -> Page<T>, limit: nat, n: nat, max: nat)
    requires limit >= 1
    ensures forall list :: Serves(server, list, limit) && |list| <= max ==> |FirstPages(server, n)| <= max
  {
    forall list | Serves(server, list, limit) && |list| <= max ensures |FirstPages(server, n)| <= max {
      PagesOfList(server, list, limit, n);
    }
  }

  lemma CeilCovers(total: nat, limit: nat)
    requires limit >= 1
    ensures AtLeastOne(Ceil(total, limit)) * limit >= total
  {
    var q := Ceil(total, limit);
    assert q * limit >= total;
  }

  lemma ServedPagesAreAll<T(!new)>(server: nat -> Page<T>, limit: nat, n: nat)
    requires limit >= 1
    ensures forall list :: Serves(server, list, limit) && n == AtLeastOne(Ceil(|list|, limit)) ==>
              FirstPages(server, n) == list
  {
    forall list | Serves(server, list, limit) && n == AtLeastOne(Ceil(|list|, limit))
      ensures FirstPages(server, n) == list
    {
      CeilCovers(|list|, limit);
      PagesOfList(server, list, limit, n);
      assert list[..|list|] == list;
    }
  }
}
