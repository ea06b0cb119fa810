/**
 * Who may do what: the compiled capability matrix with its runtime overrides, custom roles,
 * role settings and per-depot exceptions. The compiled matrix is a parameter.
 */
module Access {
  import opened Wrappers
  import opened Paths

  datatype Effect = GRANT | DENY

  datatype DepotOverride = DepotOverride(capability: string, roleKey: string, depotId: string, effect: Effect)

  datatype Snapshot = Snapshot(
    compiled: map<string, seq<string>>, overrides: map<string, seq<string>>,
    customRoles: set<string>, disabled: set<string>, depots: map<string, Effect>)

  const SEP: char := '\0'
  const SUPER_ADMIN := "SUPER_ADMIN"
  const UNDISABLEABLE_ROLES: set<string> := {"SUPER_ADMIN", "CUSTOMER"}
  const CUSTOM_FORBIDDEN: set<string> :=
    {"accessMatrixWrite", "staffAdmin", "staffDelete", "hierarchyAdmin", "settingsGlobal", "platformAdmin",
     "hrAdmin", "employeeAssign"}

  function DepotKey(capability: string, roleKey: string, depotId: string): string {
    capability + [SEP] + roleKey + [SEP] + depotId
  }

  /** The row a stored key stands for: the first three parts of the key split at SEP. */
  function RowOf(key: string, effect: Effect): DepotOverride {
    var rest := After(key, SEP);
    DepotOverride(Before(key, SEP), Before(rest, SEP), Before(After(rest, SEP), SEP), effect)
  }

  function KeyOfRow(row: DepotOverride): string {
    DepotKey(row.capability, row.roleKey, row.depotId)
  }

  /** The rows in order: of two rows for one triple the later wins. */
  function LoadRows(rows: seq<DepotOverride>): map<string, Effect> {
    if rows == [] then map[]
    else
      var last := rows[|rows| - 1];
      LoadRows(rows[..|rows| - 1])[KeyOfRow(last) := last.effect]
  }

  predicate IsCustomRole(role: string) {
    "C_" <= role
  }

  function RolesFor(s: Snapshot, capability: string): seq<string> {
    if capability in s.overrides then s.overrides[capability]
    else if capability in s.compiled then s.compiled[capability]
    else []
  }

  predicate IsRoleDisabled(s: Snapshot, role: string) {
    role !in UNDISABLEABLE_ROLES && role in s.disabled
  }

  /** A role that can hold `capability` at all. */
  predicate Eligible(s: Snapshot, capability: string, role: string) {
    && !IsRoleDisabled(s, role)
    && (IsCustomRole(role) ==> role in s.customRoles && capability !in CUSTOM_FORBIDDEN)
  }

  predicate HasEffect(s: Snapshot, capability: string, role: string, id: string, effect: Effect) {
    var key := DepotKey(capability, role, id);
    key in s.depots && s.depots[key] == effect
  }

  predicate Can(s: Snapshot, capability: string, role: Option<string>, ids: seq<string>) {
    if role == Some(SUPER_ADMIN) then true
    else if role.None? then false
    else if !Eligible(s, capability, role.value) then false
    else if |ids| > 0 && |s.depots| > 0 && exists id :: id in ids && HasEffect(s, capability, role.value, id, DENY)
    then false
    else if role.value in RolesFor(s, capability) then true
    else |ids| > 0 && forall id :: id in ids ==> HasEffect(s, capability, role.value, id, GRANT)
  }

  /** The module state of the access package, replaced piece by piece. */
  class AccessState {
    const compiled: map<string, seq<string>>
    var overrides: map<string, seq<string>>
    var customRoles: set<string>
    var disabled: set<string>
    var depots: map<string, Effect>

    ghost function State(): Snapshot
      reads this
    {
      Snapshot(compiled, overrides, customRoles, disabled, depots)
    }

    constructor (compiled: map<string, seq<string>>)
      ensures State() == Snapshot(compiled, map[], {}, {}, map[])
    {
      this.compiled := compiled;
      overrides, customRoles, disabled, depots := map[], {}, {}, map[];
    }

    method LoadOverrides(next: map<string, seq<string>>)
      modifies `overrides
      ensures State() == old(State()).(overrides := next)
    {
      overrides := next;
    }

    method LoadCustomRoles(keys: seq<string>)
      modifies `customRoles
      ensures State() == old(State()).(customRoles := set k | k in keys)
    {
      customRoles := set k | k in keys;
    }

    /** Each row is a role and whether it is disabled; the last row of a role counts. */
    method LoadRoleSettings(rows: seq<(string, bool)>)
      modifies `disabled
      ensures forall r :: r in disabled <==>
                exists i :: 0 <= i < |rows| && rows[i] == (r, true) && forall j :: i < j < |rows| ==> rows[j].0 != r
    {
      disabled := {};
      for n := 0 to |rows|
        invariant forall r :: r in disabled <==>
                    exists i :: 0 <= i < n && rows[i] == (r, true) && forall j :: i < j < n ==> rows[j].0 != r
      {
        ghost var before := disabled;
        disabled := if rows[n].1 then disabled + {rows[n].0} else disabled - {rows[n].0};
        forall r | r != rows[n].0
          ensures r in before <==>
            exists i :: 0 <= i < n + 1 && rows[i] == (r, true) && forall j :: i < j < n + 1 ==> rows[j].0 != r
        {
        }
      }
    }

    method LoadDepotOverrides(rows: seq<DepotOverride>)
      modifies `depots
      ensures State() == old(State()).(depots := LoadRows(rows))
    {
      var next: map<string, Effect> := map[];
      for i := 0 to |rows|
        invariant next == LoadRows(rows[..i])
      {
        assert rows[..i + 1][..i] == rows[..i];
        next := next[KeyOfRow(rows[i]) := rows[i].effect];
      }
      assert rows[..|rows|] == rows;
      depots := next;
    }

    /** One row for every stored key, in some order. */
    method CurrentDepotOverrides() returns (rows: seq<DepotOverride>)
      ensures ListsEntries(rows, depots)
    {
      rows := [];
      var todo := depots.Keys;
      ghost var keys := [];
      while todo != {}
        invariant todo <= depots.Keys && |keys| == |rows|
        invariant forall k :: k in keys <==> k in depots.Keys - todo
        invariant forall i, j :: 0 <= i < j < |keys| ==> keys[i] != keys[j]
        invariant forall i :: 0 <= i < |rows| ==> keys[i] in depots && rows[i] == RowOf(keys[i], depots[keys[i]])
        decreases todo
      {
        var k :| k in todo;
        assert k !in keys && forall i :: 0 <= i < |keys| ==> keys[i] in keys;
        rows := rows + [RowOf(k, depots[k])];
        keys := keys + [k];
        todo := todo - {k};
      }
      assert ListsKeys(rows, keys, depots);
    }

    /** The matrix in force: for every compiled capability, its roles. */
    method EffectiveMatrix() returns (matrix: map<string, seq<string>>)
      ensures matrix.Keys == compiled.Keys
      ensures forall c :: c in matrix ==> matrix[c] == RolesFor(State(), c)
    {
      matrix := map[];
      var todo := compiled.Keys;
      while todo != {}
        invariant todo <= compiled.Keys && matrix.Keys == compiled.Keys - todo
        invariant forall c :: c in matrix ==> matrix[c] == RolesFor(State(), c)
        decreases todo
      {
        var c :| c in todo;
        matrix := matrix[c := if c in overrides then overrides[c] else compiled[c]];
        todo := todo - {c};
      }
    }
  }

  // ---- the decision, depot by depot ----

  /** A question about several depots is the question about each of them. */
  lemma DecidesDepotByDepot(s: Snapshot, c: string, role: Option<string>, ids: seq<string>)
    requires ids != []
    ensures Can(s, c, role, ids) <==> forall id :: id in ids ==> Can(s, c, role, [id])
  {
    assert ids[0] in ids;
    if role.Some? && role.value != SUPER_ADMIN {
      forall id | id in ids
        ensures Can(s, c, role, [id]) <==>
                && Eligible(s, c, role.value) && !HasEffect(s, c, role.value, id, DENY)
                && (role.value in RolesFor(s, c) || HasEffect(s, c, role.value, id, GRANT))
      {
        assert id in [id];
      }
      if exists id :: id in ids && HasEffect(s, c, role.value, id, DENY) {
        assert |s.depots| > 0;
      }
    }
  }

  /** Order and repetition of the depots do not matter, and naming fewer never takes access away. */
  lemma FewerDepotsAskLess(s: Snapshot, c: string, role: Option<string>, ids: seq<string>, fewer: seq<string>)
    requires fewer != [] && (forall id :: id in fewer ==> id in ids) && Can(s, c, role, ids)
    ensures Can(s, c, role, fewer)
  {
    assert fewer[0] in fewer;
    DecidesDepotByDepot(s, c, role, ids);
    DecidesDepotByDepot(s, c, role, fewer);
  }

  /**
   * What the matrix, the roles and the rows say about no depot and about one: an override stands
   * for the whole compiled list, a disabled role holds nothing unless it is CUSTOMER, a custom
   * role must be active and the capability not forbidden to it, DENY closes, the list opens, and
   * GRANT opens one depot.
   */
  lemma CanMeans(s: Snapshot, c: string, r: string, d: string)
    requires r != "SUPER_ADMIN"
    ensures var list := if c in s.overrides then s.overrides[c] else if c in s.compiled then s.compiled[c] else [];
            var able := (r == "CUSTOMER" || r !in s.disabled)
                        && ("C_" <= r ==> r in s.customRoles && c !in {
                              "accessMatrixWrite", "staffAdmin", "staffDelete", "hierarchyAdmin", "settingsGlobal",
                              "platformAdmin", "hrAdmin", "employeeAssign"});
            var key := c + [SEP] + r + [SEP] + d;
            && (Can(s, c, Some(r), []) <==> able && r in list)
            && (Can(s, c, Some(r), [d]) <==>
                  && able && !(key in s.depots && s.depots[key] == DENY)
                  && (r in list || (key in s.depots && s.depots[key] == GRANT)))
  {
    assert d in [d] && forall id :: id in [d] ==> id == d;
    if HasEffect(s, c, r, d, DENY) {
      assert |s.depots| > 0;
    }
  }

  // ---- what one row changes ----

  predicate SepFree(s: string) {
    SEP !in s
  }

  /** Keys of parts without SEP are equal only when their parts are. */
  lemma KeysAreInjective(c: string, r: string, d: string, c': string, r': string, d': string)
    requires SepFree(c) && SepFree(r) && SepFree(d) && SepFree(c') && SepFree(r') && SepFree(d')
    requires DepotKey(c, r, d) == DepotKey(c', r', d')
    ensures c == c' && r == r' && d == d'
  {
    PartsAreJoined(DepotOverride(c, r, d, GRANT));
    PartsAreJoined(DepotOverride(c', r', d', GRANT));
  }

  function WithRow(s: Snapshot, row: DepotOverride): Snapshot {
    s.(depots := s.depots[KeyOfRow(row) := row.effect])
  }

  lemma LoadsLast(rows: seq<DepotOverride>, row: DepotOverride)
    ensures LoadRows(rows + [row]) == LoadRows(rows)[KeyOfRow(row) := row.effect]
  {
    assert (rows + [row])[..|rows|] == rows;
  }

  /**
   * The row loaded last decides about its own triple: DENY closes every question that names its
   * depot, GRANT opens the question about its depot to any role that can hold the capability.
   */
  lemma LastRowDecides(s: Snapshot, rows: seq<DepotOverride>, row: DepotOverride, ids: seq<string>)
    requires row.roleKey != SUPER_ADMIN && row.depotId in ids
    ensures var s' := s.(depots := LoadRows(rows + [row]));
            && (row.effect.DENY? ==> !Can(s', row.capability, Some(row.roleKey), ids))
            && (row.effect.GRANT? ==>
                  (Can(s', row.capability, Some(row.roleKey), [row.depotId])
                   <==> Eligible(s, row.capability, row.roleKey)))
  {
    LoadsLast(rows, row);
    var s' := s.(depots := LoadRows(rows + [row]));
    assert KeyOfRow(row) in s'.depots;
    assert HasEffect(s', row.capability, row.roleKey, row.depotId, row.effect);
    assert Eligible(s', row.capability, row.roleKey) == Eligible(s, row.capability, row.roleKey);
    assert forall id :: id in [row.depotId] ==> id == row.depotId;
  }

  /** Row `i` of the list is the last that names `key`. */
  predicate LastNaming(rows: seq<DepotOverride>, key: string, i: int) {
    0 <= i < |rows| && KeyOfRow(rows[i]) == key && forall j :: i < j < |rows| ==> KeyOfRow(rows[j]) != key
  }

  lemma {:induction false} LoadsLastNaming(rows: seq<DepotOverride>, key: string, e: Effect)
    ensures key in LoadRows(rows) && LoadRows(rows)[key] == e
            <==> exists i :: LastNaming(rows, key, i) && rows[i].effect == e
    decreases |rows|
  {
    if rows != [] {
      var n := |rows| - 1;
      var before := rows[..n];
      LoadsLastNaming(before, key, e);
      if KeyOfRow(rows[n]) == key {
        assert LastNaming(rows, key, n);
        assert forall i :: LastNaming(rows, key, i) ==> i == n;
      } else {
        assert forall i :: LastNaming(rows, key, i) <==> LastNaming(before, key, i);
        assert forall i :: LastNaming(before, key, i) ==> rows[i] == before[i];
      }
    }
  }

  /** Some row denies the triple, and no row after it grants it. */
  ghost predicate Denied(rows: seq<DepotOverride>, c: string, r: string, d: string) {
    exists i :: 0 <= i < |rows| && rows[i] == DepotOverride(c, r, d, DENY)
                && forall j :: i < j < |rows| ==> rows[j] != DepotOverride(c, r, d, GRANT)
  }

  predicate SepFreeRows(rows: seq<DepotOverride>) {
    forall row :: row in rows ==> SepFree(row.capability) && SepFree(row.roleKey) && SepFree(row.depotId)
  }

  lemma NamesTriple(row: DepotOverride, c: string, r: string, d: string)
    requires SepFree(row.capability) && SepFree(row.roleKey) && SepFree(row.depotId)
    requires SepFree(c) && SepFree(r) && SepFree(d)
    ensures KeyOfRow(row) == DepotKey(c, r, d) <==> row == DepotOverride(c, r, d, row.effect)
  {
    if KeyOfRow(row) == DepotKey(c, r, d) {
      KeysAreInjective(row.capability, row.roleKey, row.depotId, c, r, d);
    }
  }

  /** Of the rows of a list that deny or grant one triple, the last counts. */
  lemma DeniedIffLastDenies(rows: seq<DepotOverride>, c: string, r: string, d: string)
    requires SepFreeRows(rows) && SepFree(c) && SepFree(r) && SepFree(d)
    ensures Denied(rows, c, r, d)
            <==> exists i :: LastNaming(rows, DepotKey(c, r, d), i) && rows[i].effect == DENY
  {
    var key := DepotKey(c, r, d);
    forall i | 0 <= i < |rows| ensures KeyOfRow(rows[i]) == key <==> rows[i] == DepotOverride(c, r, d, rows[i].effect) {
      assert rows[i] in rows;
      NamesTriple(rows[i], c, r, d);
    }
    if Denied(rows, c, r, d) {
      var last := LastDenial(rows, c, r, d);
      forall j | last < j < |rows| ensures KeyOfRow(rows[j]) != key {
        assert rows[j].effect == DENY || rows[j].effect == GRANT;
      }
      assert LastNaming(rows, key, last);
    }
    if i :| LastNaming(rows, key, i) && rows[i].effect == DENY {
      assert rows[i] == DepotOverride(c, r, d, DENY);
    }
  }

  lemma LastDenial(rows: seq<DepotOverride>, c: string, r: string, d: string) returns (last: nat)
    requires Denied(rows, c, r, d)
    ensures last < |rows| && rows[last] == DepotOverride(c, r, d, DENY)
    ensures forall j :: last < j < |rows| ==>
              rows[j] != DepotOverride(c, r, d, DENY) && rows[j] != DepotOverride(c, r, d, GRANT)
  {
    var deny, grant := DepotOverride(c, r, d, DENY), DepotOverride(c, r, d, GRANT);
    var i :| 0 <= i < |rows| && rows[i] == deny && forall j :: i < j < |rows| ==> rows[j] != grant;
    last := i;
    for n := i + 1 to |rows|
      invariant i <= last < n && rows[last] == deny && forall j :: last < j < n ==> rows[j] != deny
    {
      if rows[n] == deny {
        last := n;
      }
    }
  }

  /**
   * In a list a caller loads, a role that holds the capability is refused at a depot exactly when
   * some row denies the triple and no later row grants it.
   */
  lemma DenyClosesIffNotGrantedLater(s: Snapshot, rows: seq<DepotOverride>, c: string, r: string, d: string)
    requires r != SUPER_ADMIN && Eligible(s, c, r) && r in RolesFor(s, c)
    requires SepFreeRows(rows) && SepFree(c) && SepFree(r) && SepFree(d)
    ensures !Can(s.(depots := LoadRows(rows)), c, Some(r), [d]) <==> Denied(rows, c, r, d)
  {
    var s' := s.(depots := LoadRows(rows));
    DeniedIffLastDenies(rows, c, r, d);
    LoadsLastNaming(rows, DepotKey(c, r, d), DENY);
    assert HasEffect(s', c, r, d, DENY) <==> Denied(rows, c, r, d);
    DecidesAlone(s', c, r, d);
  }

  lemma DecidesAlone(s: Snapshot, c: string, r: string, d: string)
    requires r != SUPER_ADMIN && Eligible(s, c, r) && r in RolesFor(s, c)
    ensures Can(s, c, Some(r), [d]) <==> !HasEffect(s, c, r, d, DENY)
  {
    assert d in [d] && forall id :: id in [d] ==> id == d;
    if HasEffect(s, c, r, d, DENY) {
      assert |s.depots| > 0;
    }
  }

  lemma EffectElsewhere(s: Snapshot, row: DepotOverride, c: string, r: string, id: string, e: Effect)
    requires SepFree(row.capability) && SepFree(row.roleKey) && SepFree(row.depotId)
    requires SepFree(c) && SepFree(r) && SepFree(id)
    requires !(row.capability == c && row.roleKey == r && row.depotId == id)
    ensures HasEffect(WithRow(s, row), c, r, id, e) == HasEffect(s, c, r, id, e)
  {
    if DepotKey(c, r, id) == KeyOfRow(row) {
      KeysAreInjective(c, r, id, row.capability, row.roleKey, row.depotId);
    }
  }

  /** A row changes no answer but those about its own capability, role and depot. */
  lemma OtherAnswersStay(s: Snapshot, row: DepotOverride, c: string, r: string, ids: seq<string>)
    requires SepFree(row.capability) && SepFree(row.roleKey) && SepFree(row.depotId)
    requires SepFree(c) && SepFree(r) && forall id :: id in ids ==> SepFree(id)
    requires !(row.capability == c && row.roleKey == r && row.depotId in ids)
    ensures Can(WithRow(s, row), c, Some(r), ids) == Can(s, c, Some(r), ids)
  {
    forall id, e | id in ids ensures HasEffect(WithRow(s, row), c, r, id, e) == HasEffect(s, c, r, id, e) {
      EffectElsewhere(s, row, c, r, id, e);
    }
    assert (exists id :: id in ids && HasEffect(s, c, r, id, DENY)) ==> |s.depots| > 0;
    assert |WithRow(s, row).depots| > 0 by { assert KeyOfRow(row) in WithRow(s, row).depots; }
  }

  /**
   * Who holds nothing whatever the matrix and the rows say: a disabled role, a custom role that
   * is not active, and any custom role for a forbidden capability. SUPER_ADMIN holds everything,
   * and nobody else is asked in its place.
   */
  lemma HoldsNothing(s: Snapshot, c: string, r: string, ids: seq<string>)
    ensures r == SUPER_ADMIN ==> Can(s, c, Some(r), ids)
    ensures r != SUPER_ADMIN && r != "CUSTOMER" && r in s.disabled ==> !Can(s, c, Some(r), ids)
    ensures "C_" <= r && (r !in s.customRoles || c in CUSTOM_FORBIDDEN) ==> !Can(s, c, Some(r), ids)
    ensures c !in s.overrides && c !in s.compiled && r != SUPER_ADMIN ==> !Can(s, c, Some(r), [])
    ensures !Can(s, c, None, ids)
  {
    assert SUPER_ADMIN[0] == 'S';
  }

  // ---- reloading what was read ----

  ghost predicate ListsKeys(rows: seq<DepotOverride>, keys: seq<string>, depots: map<string, Effect>) {
    && |keys| == |rows| && (forall i, j :: 0 <= i < j < |keys| ==> keys[i] != keys[j])
    && (forall k :: k in keys <==> k in depots)
    && (forall i :: 0 <= i < |rows| ==> keys[i] in depots && rows[i] == RowOf(keys[i], depots[keys[i]]))
  }

  ghost predicate ListsEntries(rows: seq<DepotOverride>, depots: map<string, Effect>) {
    exists keys :: ListsKeys(rows, keys, depots)
  }

  /** A key that splits into exactly the three parts it was joined from. */
  predicate ThreeParts(key: string) {
    KeyOfRow(RowOf(key, GRANT)) == key
  }

  lemma {:induction false} LoadedKeys(rows: seq<DepotOverride>)
    ensures forall k :: k in LoadRows(rows) ==>
              exists r :: r in rows && KeyOfRow(r) == k && LoadRows(rows)[k] == r.effect
    ensures forall r :: r in rows ==> KeyOfRow(r) in LoadRows(rows)
    decreases |rows|
  {
    if rows != [] {
      var before := rows[..|rows| - 1];
      LoadedKeys(before);
      assert rows == before + [rows[|rows| - 1]];
      forall k | k in LoadRows(rows)
        ensures exists r :: r in rows && KeyOfRow(r) == k && LoadRows(rows)[k] == r.effect
      {
        if k == KeyOfRow(rows[|rows| - 1]) {
          assert rows[|rows| - 1] in rows;
        } else {
          var r :| r in before && KeyOfRow(r) == k && LoadRows(before)[k] == r.effect;
          assert r in rows;
        }
      }
    }
  }

  lemma PartsAreJoined(row: DepotOverride)
    requires SEP !in row.capability && SEP !in row.roleKey && SEP !in row.depotId
    ensures RowOf(KeyOfRow(row), row.effect) == row && ThreeParts(KeyOfRow(row))
  {
    var rest := row.roleKey + [SEP] + row.depotId;
    SplitsAt(row.capability, SEP, rest);
    assert row.capability + [SEP] + rest == KeyOfRow(row);
    SplitsAt(row.roleKey, SEP, row.depotId);
    SplitsAt(row.depotId, SEP, "");
  }

  /** A row read back has three parts, whatever key it came from. */
  lemma RowsHaveThreeParts(key: string, effect: Effect)
    ensures ThreeParts(KeyOfRow(RowOf(key, effect)))
  {
    SplitIsWhole(key, SEP);
    SplitIsWhole(After(key, SEP), SEP);
    SplitIsWhole(After(After(key, SEP), SEP), SEP);
    PartsAreJoined(RowOf(key, effect));
  }

  lemma StoredKeysReload(depots: map<string, Effect>, rows: seq<DepotOverride>, keys: seq<string>, k: string)
    requires ListsKeys(rows, keys, depots) && (forall stored :: stored in depots ==> ThreeParts(stored)) && k in depots
    ensures k in LoadRows(rows) && LoadRows(rows)[k] == depots[k]
  {
    LoadedKeys(rows);
    var i :| 0 <= i < |keys| && keys[i] == k;
    assert rows[i] in rows && KeyOfRow(rows[i]) == k;
    var r :| r in rows && KeyOfRow(r) == k && LoadRows(rows)[k] == r.effect;
    RowHasItsEffect(rows, keys, depots, r, k);
  }

  lemma ReloadedKeysWereStored(depots: map<string, Effect>, rows: seq<DepotOverride>, keys: seq<string>, k: string)
    requires ListsKeys(rows, keys, depots) && (forall stored :: stored in depots ==> ThreeParts(stored))
    requires k in LoadRows(rows)
    ensures k in depots
  {
    LoadedKeys(rows);
    var r :| r in rows && KeyOfRow(r) == k && LoadRows(rows)[k] == r.effect;
    RowHasItsEffect(rows, keys, depots, r, k);
  }

  lemma ThreePartKeysReload(depots: map<string, Effect>, rows: seq<DepotOverride>, keys: seq<string>)
    requires ListsKeys(rows, keys, depots) && forall k :: k in depots ==> ThreeParts(k)
    ensures LoadRows(rows) == depots
  {
    forall k | k in depots ensures k in LoadRows(rows) && LoadRows(rows)[k] == depots[k] {
      StoredKeysReload(depots, rows, keys, k);
    }
    forall k | k in LoadRows(rows) ensures k in depots {
      ReloadedKeysWereStored(depots, rows, keys, k);
    }
  }

  lemma ReloadedKeysHaveThreeParts(depots: map<string, Effect>, rows: seq<DepotOverride>, keys: seq<string>)
    requires ListsKeys(rows, keys, depots)
    ensures forall k :: k in LoadRows(rows) ==> ThreeParts(k)
  {
    LoadedKeys(rows);
    forall k | k in LoadRows(rows) ensures ThreeParts(k) {
      var r :| r in rows && KeyOfRow(r) == k && LoadRows(rows)[k] == r.effect;
      var i :| 0 <= i < |rows| && rows[i] == r;
      RowsHaveThreeParts(keys[i], depots[keys[i]]);
    }
  }

  /**
   * Loading the rows that were read back gives the same exceptions exactly when every stored
   * key has three parts.
   */
  lemma ReloadIsIdentityIff(depots: map<string, Effect>, rows: seq<DepotOverride>)
    requires ListsEntries(rows, depots)
    ensures LoadRows(rows) == depots <==> forall k :: k in depots ==> ThreeParts(k)
  {
    var keys :| ListsKeys(rows, keys, depots);
    ReloadedKeysHaveThreeParts(depots, rows, keys);
    if forall k :: k in depots ==> ThreeParts(k) {
      ThreePartKeysReload(depots, rows, keys);
    }
  }

  lemma RowHasItsEffect(
    rows: seq<DepotOverride>, keys: seq<string>, depots: map<string, Effect>, r: DepotOverride, k: string)
    requires ListsKeys(rows, keys, depots) && r in rows && KeyOfRow(r) == k
    requires forall stored :: stored in depots ==> ThreeParts(stored)
    ensures k in depots && depots[k] == r.effect
  {
    var i :| 0 <= i < |rows| && rows[i] == r;
    assert ThreeParts(keys[i]) && KeyOfRow(rows[i]) == keys[i];
  }

  /** Rows without SEP in their fields survive being loaded, read back and loaded again. */
  lemma CleanRowsReload(first: seq<DepotOverride>, again: seq<DepotOverride>)
    requires forall r :: r in first ==> SEP !in r.capability && SEP !in r.roleKey && SEP !in r.depotId
    requires ListsEntries(again, LoadRows(first))
    ensures LoadRows(again) == LoadRows(first)
  {
    LoadedKeys(first);
    forall k | k in LoadRows(first) ensures ThreeParts(k) {
      var r :| r in first && KeyOfRow(r) == k;
      PartsAreJoined(r);
    }
    ReloadIsIdentityIff(LoadRows(first), again);
  }
}
