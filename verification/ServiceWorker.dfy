/** The second copy of the link rewrite, in the service worker that handles browser taps. */
module ServiceWorker {
  import opened Wrappers
  import opened Paths
  import opened DeepLink

  const SW_DYNAMIC_PARENTS: seq<string> := [
    "/dashboard/purchase-orders", "/dashboard/approvals", "/dashboard/customers",
    "/m/manager/approvals", "/driver/deliveries", "/hq/applications", "/hr/me/payroll",
    "/hr/employees", "/hr/payroll", "/hq/access", "/hq/depots", "/hq/orders", "/products", "/orders"]

  const SW_NOT_AN_ID: seq<string> := ["detail", "new", "import", "settings"]

  /** `rewriteLegacyPath`, written as the worker writes it. */
  method RewriteLegacyPath(raw: string, pl: Platform) returns (url: string)
    ensures url == LegacyPath(raw, pl)
  {
    SplitIsWhole(raw, '?');
    var path, query := Before(raw, '?'), After(raw, '?');
    var parent := None;
    for i := 0 to |SW_DYNAMIC_PARENTS|
      invariant parent.None?
      invariant ParentOf(path, SW_DYNAMIC_PARENTS) == ParentOf(path, SW_DYNAMIC_PARENTS[i..])
    {
      assert SW_DYNAMIC_PARENTS[i..][1..] == SW_DYNAMIC_PARENTS[i + 1..];
      if SW_DYNAMIC_PARENTS[i] + "/" <= path {
        parent := Some(SW_DYNAMIC_PARENTS[i]);
        break;
      }
    }
    if parent.None? {
      return raw;
    }
    ParentIsPrefix(path, SW_DYNAMIC_PARENTS);
    var rest := path[|parent.value| + 1..];
    var id, child := Before(rest, '/'), After(rest, '/');
    if id == "" || id in SW_NOT_AN_ID {
      return raw;
    }
    var suffix := if child != "" then "/" + child else "";
    var extra := if query != "" then "&" + query else "";
    url := parent.value + "/detail" + suffix + "?id=" + pl.encode(SafeDecode(pl, id)) + extra;
  }

  /** The path a legacy link names, when it is one: a parent, an id and what follows it. */
  predicate IsLegacy(path: string) {
    match ParentOf(path, SW_DYNAMIC_PARENTS)
    case None => false
    case Some(parent) =>
      |path| > |parent| && var id := Before(path[|parent| + 1..], '/'); id != "" && id !in SW_NOT_AN_ID
  }

  function LegacyPath(raw: string, pl: Platform): string {
    var path, query := Before(raw, '?'), After(raw, '?');
    if !IsLegacy(path) then raw
    else
      var parent := ParentOf(path, SW_DYNAMIC_PARENTS).value;
      var rest := path[|parent| + 1..];
      var child := After(rest, '/');
      parent + "/detail" + (if child != "" then "/" + child else "") + "?id="
      + pl.encode(SafeDecode(pl, Before(rest, '/'))) + (if query != "" then "&" + query else "")
  }

  lemma {:induction false} ParentIsPrefix(path: string, parents: seq<string>)
    ensures var p := ParentOf(path, parents); p.Some? ==> p.value in parents && p.value + "/" <= path
    decreases |parents|
  {
    if parents != [] {
      ParentIsPrefix(path, parents[1..]);
    }
  }
}
