/**
 * Rewriting old links into routes this build has: `/products/x1` becomes
 * `/products/detail?id=x1`. Percent-encoding and the parsing of absolute URLs are parameters.
 */
module DeepLink {
  import opened Wrappers
  import opened Paths
  import opened Text

  const DYNAMIC_PARENTS: seq<string> := [
    "/dashboard/purchase-orders", "/dashboard/approvals", "/dashboard/customers",
    "/m/manager/approvals", "/driver/deliveries", "/hq/applications", "/hr/me/payroll",
    "/hr/employees", "/hr/payroll", "/hq/access", "/hq/depots", "/hq/orders", "/products", "/orders"]

  const NOT_AN_ID: set<string> := {"detail", "new", "import", "settings"}

  /** `encode` and `decode` percent-encode a segment, `decode` may fail; `urlOf` reads an absolute URL. */
  datatype Platform = Platform(
    encode: string -> string, decode: string -> Option<string>, urlOf: string -> Option<string>)

  function SafeDecode(pl: Platform, segment: string): string {
    match pl.decode(segment)
    case Some(text) => text
    case None => segment
  }

  function PathAndQuery(raw: string, pl: Platform): Option<string> {
    var trimmed := Trim(raw);
    if trimmed == "" then None
    else if trimmed[0] == '/' then if "//" <= trimmed then None else Some(trimmed)
    else pl.urlOf(trimmed)
  }

  function StripTrailingSlash(path: string): string {
    if |path| > 1 && path[|path| - 1] == '/' then path[..|path| - 1] else path
  }

  function PathOf(target: string): string {
    StripTrailingSlash(Before(target, '?'))
  }

  /** The folder or page a prune entry names; a final star makes it a subtree. */
  function EntryBase(entry: string): string {
    if IsSubtree(entry) then entry[..|entry| - 2] else entry
  }

  predicate IsSubtree(entry: string) {
    |entry| >= 2 && entry[|entry| - 2..] == "/*"
  }

  predicate Prunes(entry: string, path: string) {
    path == EntryBase(entry) || (IsSubtree(entry) && EntryBase(entry) + "/" <= path)
  }

  /** The text between the first two slashes, or nothing. */
  function FirstSegment(path: string): string {
    Before(After(path, '/'), '/')
  }

  predicate ServedHere(path: string, pruned: seq<string>, segments: seq<string>) {
    && (forall e :: e in pruned ==> !Prunes(e, path))
    && (segments == [] || FirstSegment(path) == "" || FirstSegment(path) in segments)
  }

  /** The first listed parent the path lies below. */
  function ParentOf(path: string, parents: seq<string>): Option<string> {
    if parents == [] then None
    else if parents[0] + "/" <= path then Some(parents[0])
    else ParentOf(path, parents[1..])
  }

  function WithQuery(path: string, query: string): string {
    if query != "" then path + "?" + query else path
  }

  /** The route of record `id` below `parent`; `child` is what followed the id. */
  function DetailPath(parent: string, child: string): string {
    parent + "/detail" + (if child != "" then "/" + child else "")
  }

  function DetailQuery(id: string, query: string, pl: Platform): string {
    "id=" + pl.encode(SafeDecode(pl, id)) + (if query != "" then "&" + query else "")
  }

  function Rewrite(path: string, query: string, pl: Platform): string {
    match ParentOf(path, DYNAMIC_PARENTS)
    case None => WithQuery(path, query)
    case Some(parent) =>
      if |path| <= |parent| then WithQuery(path, query)
      else
        var rest := path[|parent| + 1..];
        var id := Before(rest, '/');
        if id == "" || id in NOT_AN_ID then WithQuery(path, query)
        else DetailPath(parent, After(rest, '/')) + "?" + DetailQuery(id, query, pl)
  }

  function ResolveDeepLink(raw: string, pruned: seq<string>, segments: seq<string>, pl: Platform): Option<string> {
    match PathAndQuery(raw, pl)
    case None => None
    case Some(target) =>
      if !ServedHere(PathOf(target), pruned, segments) then Some("/")
      else Some(Rewrite(PathOf(target), After(target, '?'), pl))
  }
}
