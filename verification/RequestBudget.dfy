/**
 * What one `request()` of the API client may cost: network sends and time spent waiting on
 * Retry-After (section 10.2.3 of RFC 9110), whatever the server answers.
 */
module RequestBudget {
  import opened Paths

  const MAX_RETRY_AFTER_MS := 3_000.0

  /** A Retry-After header: a number of seconds, a date `ms` milliseconds from now, or neither. */
  datatype RetryAfter = Missing | Blank | Seconds(s: real) | Date(ms: real) | Unreadable

  /** `fetch` failed with status 0 or 408, or the server answered. `body`: whether it holds data. */
  datatype Reply = Unanswered(status: int) | Response(status: int, retryAfter: RetryAfter, body: bool)

  datatype Outcome = Ok(body: bool) | Failed(status: int)

  /** `sends` counts every send of the whole call so far. */
  datatype Trip = Trip(sends: nat, waited: real, outcome: Outcome)

  /** What answers the refresh: no credential, another caller's refresh, or one made here. */
  datatype Refresher = NoCredential | Joined(granted: bool) | Own

  predicate Present(h: RetryAfter) {
    !h.Missing? && !h.Blank?
  }

  function RetryAfterMs(h: RetryAfter): (ms: real)
    ensures 0.0 < ms <= MAX_RETRY_AFTER_MS
    ensures h.Seconds? && 0.0 < h.s <= 3.0 ==> ms == h.s * 1000.0
    ensures h.Date? && 0.0 < h.ms <= MAX_RETRY_AFTER_MS ==> ms == h.ms
    ensures (h.Seconds? && h.s > 3.0) || (h.Date? && h.ms > MAX_RETRY_AFTER_MS) ==> ms == MAX_RETRY_AFTER_MS
    ensures !(h.Seconds? && h.s > 0.0) && !(h.Date? && h.ms > 0.0) ==> ms == 500.0
  {
    match h
    case Missing => 500.0
    case Blank => 500.0
    case Unreadable => 500.0
    case Seconds(s) =>
      var ms := s * 1000.0;
      if ms <= 0.0 then 500.0 else if ms < MAX_RETRY_AFTER_MS then ms else MAX_RETRY_AFTER_MS
    case Date(ms) => if ms <= 0.0 then 500.0 else if ms < MAX_RETRY_AFTER_MS then ms else MAX_RETRY_AFTER_MS
  }

  /** An empty segment, or a trailing slash, before the query. */
  predicate MissingSegment(path: string) {
    var p := Before(path, '?');
    HasDoubleSlash(p) || (|p| > 1 && p[|p| - 1] == '/')
  }

  predicate HasDoubleSlash(p: string) {
    exists i :: 0 <= i < |p| - 1 && p[i] == '/' && p[i + 1] == '/'
  }

  /** One `rawRequest`: the reply, after at most one wait and repeat on a 429 that says when. */
  function Raw(server: nat -> Reply, sent: nat, path: string, rateRetry: bool): Trip
    decreases !rateRetry
  {
    if MissingSegment(path) then Trip(sent, 0.0, Failed(0))
    else
      match server(sent)
      case Unanswered(status) => Trip(sent + 1, 0.0, Failed(status))
      case Response(status, header, body) =>
        if status == 429 && !rateRetry && Present(header) then
          var again := Raw(server, sent + 1, path, true);
          again.(waited := RetryAfterMs(header) + again.waited)
        else if 200 <= status < 300 then Trip(sent + 1, 0.0, Ok(body && status != 204))
        else Trip(sent + 1, 0.0, Failed(status))
  }

  /** A refresh asks once more after a first 409. */
  function Refreshed(server: nat -> Reply, sent: nat, path: string): Trip {
    var first := Raw(server, sent, path, false);
    if first.outcome == Failed(409) then
      var second := Raw(server, first.sends, path, false);
      second.(waited := first.waited + second.waited)
    else first
  }

  /** The refresh a signed-in call makes after its own 401, from the sends made so far. */
  function RefreshAfter(server: nat -> Reply, first: Trip, refreshPath: string, refresher: Refresher): Trip {
    match refresher
    case Own => Refreshed(server, first.sends, refreshPath)
    case Joined(granted) => Trip(first.sends, 0.0, if granted then Ok(true) else Failed(0))
    case NoCredential => Trip(first.sends, 0.0, Failed(0))
  }

  /** One `request()`: a send, on 401 a refresh, and when that gives a session one more send. */
  function Request(
    server: nat -> Reply, path: string, refreshPath: string, auth: bool, locked: bool, refresher: Refresher): Trip
  {
    if auth && locked then Trip(0, 0.0, Failed(401))
    else
      var first := Raw(server, 0, path, false);
      if first.outcome == Failed(401) && auth then
        var refresh := RefreshAfter(server, first, refreshPath, refresher);
        var waited := first.waited + refresh.waited;
        if refresh.outcome == Ok(true) then
          var last := Raw(server, refresh.sends, path, false);
          last.(waited := waited + last.waited)
        else Trip(refresh.sends, waited, first.outcome)
      else first
  }

  /**
   * A raw request asks again exactly after a 429 that says when, and its outcome is that of its
   * last reply: data or none for 200 to 299, and the status otherwise.
   */
  lemma RawIsItsLastReply(server: nat -> Reply, sent: nat, path: string)
    requires !MissingSegment(path)
    ensures var t, first := Raw(server, sent, path, false), server(sent);
            && (t.sends == sent + 1 || t.sends == sent + 2)
            && (t.sends == sent + 2 <==>
                  first.Response? && first.status == 429 && first.retryAfter != Missing && first.retryAfter != Blank)
            && (t.sends == sent + 1 ==> t.waited == 0.0)
            && (t.sends == sent + 2 ==> t.waited == RetryAfterMs(first.retryAfter))
            && t.outcome == match server(t.sends - 1)
                            case Unanswered(status) => Failed(status)
                            case Response(status, _, body) =>
                              if 200 <= status <= 299 then Ok(body && status != 204) else Failed(status)
  {
    if server(sent).Response? {
      assert Raw(server, sent + 1, path, true).sends == sent + 2;
    }
  }

  /** A refresh asks a second time exactly when its first answer is 409, and ends with its last answer. */
  lemma RefreshIsItsLastAnswer(server: nat -> Reply, sent: nat, path: string)
    ensures var first, t := Raw(server, sent, path, false), Refreshed(server, sent, path);
            if first.outcome == Failed(409) then
              var second := Raw(server, first.sends, path, false);
              t.outcome == second.outcome && t.sends == second.sends && t.waited == first.waited + second.waited
            else t == first
  {}

  /** Only the path is looked at for empty segments, not what follows the question mark. */
  lemma OnlyThePathCounts(path: string, query: string)
    requires '?' !in path
    ensures MissingSegment(path + "?" + query) <==> MissingSegment(path)
    ensures MissingSegment(path) <==>
            || (exists i :: 0 <= i < |path| - 1 && path[i] == '/' && path[i + 1] == '/')
            || (|path| > 1 && path[|path| - 1] == '/')
  {
    SplitsAt(path, '?', query);
    assert path + ['?'] + query == path + "?" + query;
  }

  lemma RawCosts(server: nat -> Reply, sent: nat, path: string)
    ensures var t := Raw(server, sent, path, false);
            sent <= t.sends <= sent + 2 && 0.0 <= t.waited <= MAX_RETRY_AFTER_MS
  {
    if server(sent).Response? {
      var again := Raw(server, sent + 1, path, true);
      assert again.waited == 0.0 && again.sends <= sent + 2;
    }
  }

  /** At most eight sends and twelve seconds of waiting, for every server and every path. */
  lemma RequestIsBounded(
    server: nat -> Reply, path: string, refreshPath: string, auth: bool, locked: bool, refresher: Refresher)
    ensures var t := Request(server, path, refreshPath, auth, locked, refresher);
            t.sends <= 8 && 0.0 <= t.waited <= 12_000.0
  {
    var first := Raw(server, 0, path, false);
    RawCosts(server, 0, path);
    var refresh := Raw(server, first.sends, refreshPath, false);
    RawCosts(server, first.sends, refreshPath);
    RawCosts(server, refresh.sends, refreshPath);
    RawCosts(server, first.sends, path);
    RawCosts(server, refresh.sends, path);
    RawCosts(server, Refreshed(server, first.sends, refreshPath).sends, path);
  }

  /** A path with an empty segment costs nothing; without sign-in a call costs two sends at most. */
  lemma CheapRequests(
    server: nat -> Reply, path: string, refreshPath: string, auth: bool, locked: bool, refresher: Refresher)
    ensures var t := Request(server, path, refreshPath, auth, locked, refresher);
            && (MissingSegment(path) ==> t.sends == 0 && t.outcome.Failed?)
            && (!auth ==> t.sends <= 2)
            && (auth && locked ==> t.sends == 0)
  {
    RawCosts(server, 0, path);
  }

  /**
   * A refresh follows only a 401 of a signed-in call. One that gives a session is followed by a
   * second try, whose answer the caller gets; after one that does not, the caller gets its own
   * 401 and nothing more is sent. How the refresh itself failed is never reported.
   */
  lemma OutcomeIsItsOwn(
    server: nat -> Reply, path: string, refreshPath: string, auth: bool, refresher: Refresher)
    ensures var t, first := Request(server, path, refreshPath, auth, false, refresher), Raw(server, 0, path, false);
            var refresh := RefreshAfter(server, first, refreshPath, refresher);
            if !auth || first.outcome != Failed(401) then t == first
            else if refresh.outcome == Ok(true) then
              var last := Raw(server, refresh.sends, path, false);
              t == Trip(last.sends, first.waited + refresh.waited + last.waited, last.outcome)
            else t == Trip(refresh.sends, first.waited + refresh.waited, Failed(401))
    ensures refresher.NoCredential? || refresher == Joined(false) ==>
              Request(server, path, refreshPath, auth, false, refresher) == Raw(server, 0, path, false)
  {
    RawCosts(server, 0, path);
  }

  /** A server that spends the whole budget: every kind of answer is asked twice. */
  function Worst(k: nat): Reply {
    if k % 2 == 0 then Response(429, Seconds(60.0), true)
    else if k == 1 then Response(401, Missing, true)
    else if k == 3 then Response(409, Missing, true)
    else Response(200, Missing, true)
  }

  lemma RawAgainstWorst(sent: nat, path: string)
    requires sent % 2 == 0 && !MissingSegment(path)
    ensures Raw(Worst, sent, path, false) ==
            Trip(sent + 2, 3_000.0, if sent == 0 then Failed(401) else if sent == 2 then Failed(409) else Ok(true))
  {
    assert Worst(sent).Response?;
    assert Raw(Worst, sent + 1, path, true).sends == sent + 2;
  }

  /** The bound is reached. */
  lemma BoundIsReached(path: string, refreshPath: string)
    requires !MissingSegment(path) && !MissingSegment(refreshPath)
    ensures Request(Worst, path, refreshPath, true, false, Own) == Trip(8, 12_000.0, Ok(true))
  {
    RawAgainstWorst(0, path);
    RawAgainstWorst(2, refreshPath);
    RawAgainstWorst(4, refreshPath);
    RawAgainstWorst(6, path);
  }
}
