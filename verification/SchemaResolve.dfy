/** Which of several tables of one name the restored relationships and dictionary entries go to. */
module SchemaResolve {
  import opened Options
  import opened Sequences
  import opened SchemaStore
  import opened SchemaIntegrity

  // ----- the table map as a function of the listing ----------------------------------------------------

  /** The listing is of that schema and table name. */
  predicate IsOf(x: Listed, schema: string, name: string) {
    x.schema == schema && x.info.name == name
  }

  ghost predicate FirstOf(list: seq<Listed>, schema: string, name: string, i: nat) {
    i < |list| && IsOf(list[i], schema, name) && forall k :: 0 <= k < i ==> !IsOf(list[k], schema, name)
  }

  ghost predicate LastOf(list: seq<Listed>, schema: string, name: string, i: nat) {
    i < |list| && IsOf(list[i], schema, name) && forall k :: i < k < |list| ==> !IsOf(list[k], schema, name)
  }

  /** The id that the k-th table of the pass gets when ids start at `from`; its columns follow. */
  function IdOf(from: Id, list: seq<Listed>, k: nat): Id
    requires k <= |list|
  {
    from + k + TotalColumns(list[..k])
  }

  /** The entry is of a listed schema and name, and points to the last table listed as that. */
  ghost predicate EntryIs(from: Id, list: seq<Listed>, e: MapEntry, first: nat) {
    FirstOf(list, e.schema, e.name, first) &&
    exists i: nat :: LastOf(list, e.schema, e.name, i) && e.table == IdOf(from, list, i)
  }

  ghost predicate EntriesAre(from: Id, list: seq<Listed>, m: seq<MapEntry>, firsts: seq<nat>) {
    |firsts| == |m| && forall a :: 0 <= a < |m| ==> EntryIs(from, list, m[a], firsts[a])
  }

  predicate HasEntry(m: seq<MapEntry>, x: Listed) {
    exists a :: 0 <= a < |m| && IsOf(x, m[a].schema, m[a].name)
  }

  predicate Covered(list: seq<Listed>, m: seq<MapEntry>) {
    forall i :: 0 <= i < |list| ==> HasEntry(m, list[i])
  }

  predicate Rising(firsts: seq<nat>) {
    forall a, b :: 0 <= a < b < |firsts| ==> firsts[a] < firsts[b]
  }

  /** One entry for each listed schema and name, in the order in which these were first listed. */
  ghost predicate MapIs(from: Id, list: seq<Listed>, m: seq<MapEntry>, firsts: seq<nat>) {
    EntriesAre(from, list, m, firsts) && Rising(firsts) && Covered(list, m)
  }

  lemma {:induction false} PutAt(m: seq<MapEntry>, e: MapEntry, a: nat)
    requires a < |m| && m[a].schema == e.schema && m[a].name == e.name
    requires forall b :: 0 <= b < a ==> m[b].schema != e.schema || m[b].name != e.name
    ensures Put(m, e) == m[a := e]
  {
    if a == 0 {
      assert m[0 := e] == [e] + m[1..];
    } else {
      PutAt(m[1..], e, a - 1);
      assert [m[0]] + m[1..][a - 1 := e] == m[a := e];
    }
  }

  lemma {:induction false} PutNew(m: seq<MapEntry>, e: MapEntry)
    requires forall a :: 0 <= a < |m| ==> m[a].schema != e.schema || m[a].name != e.name
    ensures Put(m, e) == m + [e]
  {
    if m != [] {
      PutNew(m[1..], e);
      assert m == [m[0]] + m[1..];
    }
  }

  lemma FirstUnique(list: seq<Listed>, schema: string, name: string, i: nat, j: nat)
    requires FirstOf(list, schema, name, i) && FirstOf(list, schema, name, j)
    ensures i == j
  {
  }

  predicate SameName(d: MapEntry, e: MapEntry) {
    d.schema == e.schema && d.name == e.name
  }

  lemma EntryFirst(from: Id, list: seq<Listed>, m: seq<MapEntry>, firsts: seq<nat>, a: nat)
    requires EntriesAre(from, list, m, firsts) && a < |m|
    ensures FirstOf(list, m[a].schema, m[a].name, firsts[a])
  {
    hide IdOf, LastOf, FirstOf;
    assert EntryIs(from, list, m[a], firsts[a]);
  }

  lemma MapKeysDistinct(from: Id, list: seq<Listed>, m: seq<MapEntry>, firsts: seq<nat>, a: nat, b: nat)
    requires EntriesAre(from, list, m, firsts) && Rising(firsts) && a < |m| && b < |m| && a != b
    ensures !SameName(m[a], m[b])
  {
    hide EntryIs, FirstOf;
    EntryFirst(from, list, m, firsts, a);
    EntryFirst(from, list, m, firsts, b);
    if SameName(m[a], m[b]) {
      FirstUnique(list, m[a].schema, m[a].name, firsts[a], firsts[b]);
    }
  }

  lemma IdsStay(from: Id, list: seq<Listed>, x: Listed, k: nat)
    requires k <= |list|
    ensures IdOf(from, list + [x], k) == IdOf(from, list, k)
  {
    assert (list + [x])[..k] == list[..k];
  }

  /** One more listing of another key. */
  lemma EntryStays(from: Id, list: seq<Listed>, x: Listed, e: MapEntry, first: nat)
    requires EntryIs(from, list, e, first) && !IsOf(x, e.schema, e.name)
    ensures EntryIs(from, list + [x], e, first)
  {
    var list' := list + [x];
    var i: nat :| LastOf(list, e.schema, e.name, i) && e.table == IdOf(from, list, i);
    IdsStay(from, list, x, i);
    assert LastOf(list', e.schema, e.name, i) && FirstOf(list', e.schema, e.name, first);
  }

  lemma NewEntryIs(from: Id, list: seq<Listed>, x: Listed, first: nat)
    requires FirstOf(list + [x], x.schema, x.info.name, first)
    ensures EntryIs(from, list + [x], MapEntry(x.schema, x.info.name, IdOf(from, list, |list|)), first)
  {
    IdsStay(from, list, x, |list|);
    assert LastOf(list + [x], x.schema, x.info.name, |list|);
  }

  lemma OthersStay(from: Id, list: seq<Listed>, x: Listed, m: seq<MapEntry>, firsts: seq<nat>, b: nat)
    requires EntriesAre(from, list, m, firsts) && b < |m| && !IsOf(x, m[b].schema, m[b].name)
    ensures EntryIs(from, list + [x], m[b], firsts[b])
  {
    hide EntryIs;
    EntryStays(from, list, x, m[b], firsts[b]);
  }

  lemma CoveredMore(list: seq<Listed>, x: Listed, m: seq<MapEntry>, m': seq<MapEntry>)
    requires Covered(list, m) && |m| <= |m'| && HasEntry(m', x)
    requires forall a :: 0 <= a < |m| ==> SameName(m'[a], m[a])
    ensures Covered(list + [x], m')
  {
    var list' := list + [x];
    forall i | 0 <= i < |list'| ensures HasEntry(m', list'[i]) {
      if i < |list| {
        assert HasEntry(m, list[i]);
        var a :| 0 <= a < |m| && IsOf(list[i], m[a].schema, m[a].name);
        assert IsOf(list'[i], m'[a].schema, m'[a].name);
      }
    }
  }

  lemma FirstListed(list: seq<Listed>, x: Listed, m: seq<MapEntry>)
    requires Covered(list, m) && !HasEntry(m, x)
    ensures FirstOf(list + [x], x.schema, x.info.name, |list|)
  {
    forall k | 0 <= k < |list| ensures !IsOf(list[k], x.schema, x.info.name) {
      assert HasEntry(m, list[k]);
    }
  }

  lemma MapAppended(from: Id, list: seq<Listed>, x: Listed, m: seq<MapEntry>, firsts: seq<nat>)
    requires MapIs(from, list, m, firsts) && !HasEntry(m, x)
    ensures var e := MapEntry(x.schema, x.info.name, IdOf(from, list, |list|));
      Put(m, e) == m + [e] && MapIs(from, list + [x], Put(m, e), firsts + [|list|])
  {
    hide EntryIs, FirstOf, IdOf;
    var e := MapEntry(x.schema, x.info.name, IdOf(from, list, |list|));
    var m', firsts' := m + [e], firsts + [|list|];
    PutNew(m, e);
    FirstListed(list, x, m);
    NewEntryIs(from, list, x, |list|);
    forall b: nat | b < |m'| ensures EntryIs(from, list + [x], m'[b], firsts'[b]) {
      if b < |m| {
        OthersStay(from, list, x, m, firsts, b);
      }
    }
    assert IsOf(x, m'[|m|].schema, m'[|m|].name);
    CoveredMore(list, x, m, m');
    forall a: nat | a < |m| ensures firsts[a] < |list| {
      EntryFirst(from, list, m, firsts, a);
      FirstBound(list, m[a].schema, m[a].name, firsts[a]);
    }
  }

  lemma FirstBound(list: seq<Listed>, schema: string, name: string, i: nat)
    requires FirstOf(list, schema, name, i)
    ensures i < |list|
  {
  }

  lemma FirstStays(list: seq<Listed>, x: Listed, schema: string, name: string, i: nat)
    requires FirstOf(list, schema, name, i)
    ensures FirstOf(list + [x], schema, name, i)
  {
  }

  lemma MapReplaced(from: Id, list: seq<Listed>, x: Listed, m: seq<MapEntry>, firsts: seq<nat>, a: nat)
    requires MapIs(from, list, m, firsts) && a < |m| && IsOf(x, m[a].schema, m[a].name)
    ensures MapIs(from, list + [x], Put(m, MapEntry(x.schema, x.info.name, IdOf(from, list, |list|))), firsts)
  {
    hide EntryIs, FirstOf, IdOf;
    var e := MapEntry(x.schema, x.info.name, IdOf(from, list, |list|));
    var m' := m[a := e];
    forall b: nat | b < |m| && b != a ensures !SameName(m[b], e) {
      MapKeysDistinct(from, list, m, firsts, a, b);
    }
    PutAt(m, e, a);
    EntryFirst(from, list, m, firsts, a);
    FirstStays(list, x, m[a].schema, m[a].name, firsts[a]);
    NewEntryIs(from, list, x, firsts[a]);
    forall b: nat | b < |m'| ensures EntryIs(from, list + [x], m'[b], firsts[b]) {
      if b != a {
        OthersStay(from, list, x, m, firsts, b);
      }
    }
    assert IsOf(x, m'[a].schema, m'[a].name);
    CoveredMore(list, x, m, m');
  }

  lemma MapGrows(from: Id, list: seq<Listed>, x: Listed, m: seq<MapEntry>, firsts: seq<nat>) returns (firsts': seq<nat>)
    requires MapIs(from, list, m, firsts)
    ensures MapIs(from, list + [x], Put(m, MapEntry(x.schema, x.info.name, IdOf(from, list, |list|))), firsts')
  {
    hide MapIs, IdOf;
    if HasEntry(m, x) {
      var a: nat :| a < |m| && IsOf(x, m[a].schema, m[a].name);
      firsts' := firsts;
      MapReplaced(from, list, x, m, firsts, a);
    } else {
      firsts' := firsts + [|list|];
      MapAppended(from, list, x, m, firsts);
    }
  }

  /** The map after the first pass, exactly. */
  lemma NextIds(from: Id, list: seq<Listed>, n: nat)
    requires n < |list|
    ensures IdOf(from, list, n + 1) == IdOf(from, list, n) + 1 + |list[n].info.columns|
    ensures IdOf(from, list[..n], n) == IdOf(from, list, n)
  {
    assert list[..n + 1][..n] == list[..n] && list[..n][..n] == list[..n];
  }

  lemma OneTableMore(b: Build, conn: string, x: Listed)
    ensures AddTable(b, conn, x).tables == Put(b.tables, MapEntry(x.schema, x.info.name, b.store.nextId))
    ensures AddTable(b, conn, x).store.nextId == b.store.nextId + 1 + |x.info.columns|
  {
  }

  lemma NoTables(from: Id)
    ensures MapIs(from, [], [], []) && IdOf(from, [], 0) == from
  {
  }

  lemma {:induction false} TableMapIs(base: Store, conn: string, list: seq<Listed>) returns (firsts: seq<nat>)
    ensures MapIs(base.nextId, list, AddTables(Build(base, []), conn, list).tables, firsts)
    ensures AddTables(Build(base, []), conn, list).store.nextId == IdOf(base.nextId, list, |list|)
    decreases |list|
  {
    hide MapIs, Put, IdOf, AddTables, AddTable;
    var b := Build(base, []);
    if list == [] {
      firsts := [];
      AddTablesNone(b, conn);
      NoTables(base.nextId);
    } else {
      var n := |list| - 1;
      var init, x := list[..n], list[n];
      firsts := TableMapIs(base, conn, init);
      NextIds(base.nextId, list, n);
      AddTablesStep(b, conn, list);
      OneTableMore(AddTables(b, conn, init), conn, x);
      firsts := MapGrows(base.nextId, init, x, AddTables(b, conn, init).tables, firsts);
      assert init + [x] == list;
    }
  }

  // ----- where a table name leads ------------------------------------------------------------------------

  /** The schema that is tried first. */
  function Preferred(conn: Connection): string {
    if conn.sqlServer then "dbo" else ""
  }

  ghost predicate Lists(list: seq<Listed>, schema: string, name: string) {
    exists i :: 0 <= i < |list| && IsOf(list[i], schema, name)
  }

  /** The first table of that name in the listing, in whatever schema. */
  ghost predicate FirstNamed(list: seq<Listed>, name: string, k: nat) {
    k < |list| && list[k].info.name == name && forall j :: 0 <= j < k ==> list[j].info.name != name
  }

  ghost predicate LastIs(from: Id, list: seq<Listed>, schema: string, name: string, id: Id) {
    exists i: nat :: LastOf(list, schema, name, i) && id == IdOf(from, list, i)
  }

  /** The table of the preferred schema, or else of the schema in which the name is listed first. */
  ghost predicate Leads(from: Id, conn: Connection, list: seq<Listed>, name: string, id: Id) {
    if Lists(list, Preferred(conn), name) then LastIs(from, list, Preferred(conn), name, id)
    else exists k: nat :: FirstNamed(list, name, k) && LastIs(from, list, list[k].schema, name, id)
  }

  lemma EntryLast(from: Id, list: seq<Listed>, m: seq<MapEntry>, firsts: seq<nat>, a: nat)
    requires EntriesAre(from, list, m, firsts) && a < |m|
    ensures LastIs(from, list, m[a].schema, m[a].name, m[a].table)
  {
    hide IdOf, LastOf, FirstOf;
    assert EntryIs(from, list, m[a], firsts[a]);
  }

  lemma {:induction false} GetByNameFirst(m: seq<MapEntry>, name: string) returns (a: nat)
    requires GetByName(m, name).Some?
    ensures a < |m| && m[a].name == name && m[a].table == GetByName(m, name).value
    ensures forall b :: 0 <= b < a ==> m[b].name != name
  {
    if m[0].name == name {
      a := 0;
    } else {
      a := GetByNameFirst(m[1..], name);
      a := a + 1;
    }
  }

  lemma FirstEntryFirstNamed(from: Id, list: seq<Listed>, m: seq<MapEntry>, firsts: seq<nat>, a: nat)
    requires MapIs(from, list, m, firsts) && a < |m|
    requires forall b :: 0 <= b < a ==> m[b].name != m[a].name
    ensures FirstNamed(list, m[a].name, firsts[a]) && list[firsts[a]].schema == m[a].schema
  {
    hide EntryIs, IdOf;
    EntryFirst(from, list, m, firsts, a);
    forall j | 0 <= j < firsts[a] ensures list[j].info.name != m[a].name {
      if list[j].info.name == m[a].name {
        assert HasEntry(m, list[j]);
        var b: nat :| b < |m| && IsOf(list[j], m[b].schema, m[b].name);
        EntryFirst(from, list, m, firsts, b);
      }
    }
  }

  lemma ResolvedLeads(from: Id, conn: Connection, list: seq<Listed>, m: seq<MapEntry>, firsts: seq<nat>, name: string)
    requires MapIs(from, list, m, firsts) && ResolveTable(conn, m, name).Some?
    ensures Leads(from, conn, list, name, ResolveTable(conn, m, name).value)
  {
    hide EntryIs, IdOf, LastIs;
    var pref := Preferred(conn);
    GetMembers(m, pref, name);
    if Get(m, pref, name).Some? {
      var a :| 0 <= a < |m| && m[a] == MapEntry(pref, name, Get(m, pref, name).value);
      EntryFirst(from, list, m, firsts, a);
      EntryLast(from, list, m, firsts, a);
      assert IsOf(list[firsts[a]], pref, name);
    } else {
      forall i | 0 <= i < |list| ensures !IsOf(list[i], pref, name) {
        assert HasEntry(m, list[i]);
      }
      var a := GetByNameFirst(m, name);
      FirstEntryFirstNamed(from, list, m, firsts, a);
      EntryLast(from, list, m, firsts, a);
    }
  }

  // ----- the restored relationships -------------------------------------------------------------------------

  /** Both ends are the tables that their own names resolve to. */
  ghost predicate EndsResolve(s: Store, m: seq<MapEntry>, conn: Connection, r: RelationRow) {
    var source, target := FindTable(s.tables, r.source), FindTable(s.tables, r.target);
    source.Some? && ResolveTable(conn, m, source.value.name) == Some(r.source) &&
    target.Some? && ResolveTable(conn, m, target.value.name) == Some(r.target)
  }

  lemma OneRestored(b: Build, conn: Connection, r: NamedRelation)
    requires BuildOk(b, conn.id)
    ensures var s' := RestoreRelation(b, conn, r).store;
      s'.tables == b.store.tables &&
      forall row :: row in s'.relations ==> row in b.store.relations || EndsResolve(b.store, b.tables, conn, row)
  {
    hide ResolveTable, FindTable;
    ResolveSound(b, conn, r.sourceTable);
    ResolveSound(b, conn, r.targetTable);
  }

  lemma {:induction false} RestoredResolve(b: Build, conn: Connection, rows: seq<NamedRelation>)
    requires BuildOk(b, conn.id)
    ensures forall row :: row in RestoreRelations(b, conn, rows).store.relations ==>
      row in b.store.relations || EndsResolve(b.store, b.tables, conn, row)
    decreases |rows|
  {
    if rows != [] {
      var init := rows[..|rows| - 1];
      RestoredResolve(b, conn, init);
      RestoreRelationsExact(b, conn, init);
      hide BuildOk, EndsResolve, RestoreRelation;
      var mid := RestoreRelations(b, conn, init);
      OneRestored(mid, conn, rows[|rows| - 1]);
      forall row | EndsResolve(mid.store, mid.tables, conn, row) ensures EndsResolve(b.store, b.tables, conn, row) {
        SameEnds(mid, b, conn, row);
      }
    }
  }

  lemma SameEnds(mid: Build, b: Build, conn: Connection, row: RelationRow)
    requires mid.tables == b.tables && mid.store.tables == b.store.tables && EndsResolve(mid.store, mid.tables, conn, row)
    ensures EndsResolve(b.store, b.tables, conn, row)
  {
  }

  /** What the restoring loops leave of the rebuilt store. */
  lemma RestoredStore(b: Build, conn: Connection, relations: seq<NamedRelation>, entries: seq<NamedEntry>)
    requires BuildOk(b, conn.id)
    ensures var s' := Restored(b, conn, relations, entries);
      s'.tables == b.store.tables && s'.columns == b.store.columns &&
      s'.relations == RestoreRelations(b, conn, relations).store.relations
  {
    hide Consistent, MapOk, ColumnMapOf, RelationsOf, EntriesOf, RestoreRelations, RestoreEntries;
    RestoreRelationsExact(b, conn, relations);
    var linked := RestoreRelations(b, conn, relations);
    RestoreEntriesExact(linked.store, linked, conn.id, ColumnMapOf(linked.tables, linked.store.columns), entries);
  }

  /** Before restoring the connection has no manual relationship. */
  lemma NoManualYet(s: Store, conn: Connection, first: seq<Listing>, second: seq<Listing>, row: RelationRow)
    requires Consistent(s) && row in Rebuilt(Wipe(s, conn.id), conn, first, second).store.relations
    ensures !(row.connection == conn.id && row.manual)
  {
    var w := Wipe(s, conn.id);
    WipeConsistent(s, conn.id);
    hide Wipe, Consistent, Rebuilt, FindTable, FindColumn;
    RebuiltOk(w, conn, first, second);
  }

  lemma EndsLead(from: Id, conn: Connection, list: seq<Listed>, s: Store, m: seq<MapEntry>, firsts: seq<nat>, r: RelationRow)
    requires MapIs(from, list, m, firsts) && EndsResolve(s, m, conn, r)
    ensures var source, target := FindTable(s.tables, r.source), FindTable(s.tables, r.target);
      source.Some? && Leads(from, conn, list, source.value.name, r.source) &&
      target.Some? && Leads(from, conn, list, target.value.name, r.target)
  {
    hide MapIs, ResolveTable, Leads, FindTable;
    ResolvedLeads(from, conn, list, m, firsts, FindTable(s.tables, r.source).value.name);
    ResolvedLeads(from, conn, list, m, firsts, FindTable(s.tables, r.target).value.name);
  }

  /** After a re-introspection each manual relationship of the connection stands between the tables its
      names lead to: those of the preferred schema, or else of the first schema listed with the name. */
  lemma RelationsLead(s: Store, conn: Connection, first: seq<Listing>, second: seq<Listing>, row: RelationRow)
    requires Consistent(s)
    requires row in Introspect(s, conn, first, second).relations && row.connection == conn.id && row.manual
    ensures var s', list := Introspect(s, conn, first, second), Flatten(conn, first);
      var source, target := FindTable(s'.tables, row.source), FindTable(s'.tables, row.target);
      source.Some? && Leads(s.nextId, conn, list, source.value.name, row.source) &&
      target.Some? && Leads(s.nextId, conn, list, target.value.name, row.target)
  {
    hide Consistent, BuildOk, MapMatches, Rebuilt, Restored, RelationsOf, EntriesOf, RestoreRelations, Leads, MapIs,
      EndsResolve, FindTable;
    var w := Wipe(s, conn.id);
    var b := Rebuilt(w, conn, first, second);
    WipeConsistent(s, conn.id);
    RebuiltIsBare(s, conn, first, second);
    RestoredStore(b, conn, RelationsOf(s, conn.id), ByOrder(EntriesOf(s, conn.id)));
    if row in b.store.relations {
      NoManualYet(s, conn, first, second, row);
    }
    RestoredResolve(b, conn, RelationsOf(s, conn.id));
    var firsts := RebuiltMapIs(w, conn, first, second);
    EndsLead(s.nextId, conn, Flatten(conn, first), b.store, b.tables, firsts, row);
  }

  lemma RebuiltMapIs(w: Store, conn: Connection, first: seq<Listing>, second: seq<Listing>) returns (firsts: seq<nat>)
    requires Consistent(w)
    ensures MapIs(w.nextId, Flatten(conn, first), Rebuilt(w, conn, first, second).tables, firsts)
  {
    hide MapIs;
    var list := Flatten(conn, first);
    firsts := TableMapIs(w, conn.id, list);
    EmptyMatches(w, conn.id);
    AddTablesOk(Build(w, []), conn.id, list);
    LinkTablesOk(AddTables(Build(w, []), conn.id, list), conn.id, Flatten(conn, second));
  }

  // ----- the columns of the listing ---------------------------------------------------------------------------

  function TableIs(table: Id): ColumnRow -> bool {
    (x: ColumnRow) => x.table == table
  }

  /** The column rows that the first pass adds. */
  function ListedColumns(from: Id, list: seq<Listed>): seq<ColumnRow> {
    if list == [] then []
    else
      var n := |list| - 1; var id := IdOf(from, list, n);
      ListedColumns(from, list[..n]) + NewColumns(id, id + 1, list[n].info.columns)
  }

  lemma OneTableColumns(b: Build, conn: string, x: Listed)
    ensures AddTable(b, conn, x).store.columns ==
      b.store.columns + NewColumns(b.store.nextId, b.store.nextId + 1, x.info.columns)
  {
  }

  lemma ListedColumnsStep(from: Id, list: seq<Listed>, before: seq<ColumnRow>)
    requires list != []
    ensures var n := |list| - 1; var id := IdOf(from, list, n);
      (before + ListedColumns(from, list[..n])) + NewColumns(id, id + 1, list[n].info.columns) ==
      before + ListedColumns(from, list)
  {
  }

  lemma NoneListed(from: Id, before: seq<ColumnRow>)
    ensures before + ListedColumns(from, []) == before
  {
  }

  lemma {:induction false} TableColumnsAre(base: Store, conn: string, list: seq<Listed>)
    ensures AddTables(Build(base, []), conn, list).store.columns == base.columns + ListedColumns(base.nextId, list)
    decreases |list|
  {
    hide AddTables, AddTable, IdOf, MapIs, ListedColumns, NewColumns;
    var b := Build(base, []);
    if list == [] {
      AddTablesNone(b, conn);
      NoneListed(base.nextId, base.columns);
    } else {
      var n := |list| - 1;
      var before := AddTables(b, conn, list[..n]);
      TableColumnsAre(base, conn, list[..n]);
      var firsts := TableMapIs(base, conn, list[..n]);
      NextIds(base.nextId, list, n);
      AddTablesStep(b, conn, list);
      OneTableColumns(before, conn, list[n]);
      ListedColumnsStep(base.nextId, list, base.columns);
    }
  }

  lemma {:induction false} IdsRise(from: Id, list: seq<Listed>, j: nat, k: nat)
    requires j < k <= |list|
    ensures from <= IdOf(from, list, j) < IdOf(from, list, k)
    decreases k - j
  {
    NextIds(from, list, k - 1);
    hide IdOf;
    if j < k - 1 {
      IdsRise(from, list, j, k - 1);
    } else {
      IdsFrom(from, list, j);
    }
  }

  lemma IdsFrom(from: Id, list: seq<Listed>, j: nat)
    requires j <= |list|
    ensures from <= IdOf(from, list, j)
  {
  }

  lemma OwnRows(id: Id, columns: seq<ColumnInfo>, table: Id)
    ensures var rows := NewColumns(id, id + 1, columns); Filter(TableIs(table), rows) == if table == id then rows else []
  {
    if table == id {
      FilterAll(TableIs(table), NewColumns(id, id + 1, columns));
    } else {
      FilterNone(TableIs(table), NewColumns(id, id + 1, columns));
    }
  }

  lemma ListedColumnsSnoc(from: Id, list: seq<Listed>)
    requires list != []
    ensures var n := |list| - 1; var id := IdOf(from, list, n);
      ListedColumns(from, list) == ListedColumns(from, list[..n]) + NewColumns(id, id + 1, list[n].info.columns)
  {
  }

  /** A listed table's rows are its own columns, in order. */
  lemma {:induction false} RowsOfListed(from: Id, list: seq<Listed>, k: nat)
    requires k < |list|
    ensures Filter(TableIs(IdOf(from, list, k)), ListedColumns(from, list)) ==
      NewColumns(IdOf(from, list, k), IdOf(from, list, k) + 1, list[k].info.columns)
    decreases |list|
  {
    hide IdOf, Filter, ListedColumns, NewColumns;
    var n := |list| - 1;
    var id, last := IdOf(from, list, k), IdOf(from, list, n);
    var own := NewColumns(last, last + 1, list[n].info.columns);
    ListedColumnsSnoc(from, list);
    FilterAppend(TableIs(id), ListedColumns(from, list[..n]), own);
    OwnRows(last, list[n].info.columns, id);
    if k < n {
      IdsRise(from, list, k, n);
      SameIds(from, list, n, k);
      RowsOfListed(from, list[..n], k);
      assert Filter(TableIs(id), ListedColumns(from, list[..n])) + [] == Filter(TableIs(id), ListedColumns(from, list[..n]));
    } else {
      NoRowsYet(from, list, n);
      assert [] + own == own;
    }
  }

  lemma SameIds(from: Id, list: seq<Listed>, n: nat, k: nat)
    requires k <= n <= |list|
    ensures IdOf(from, list[..n], k) == IdOf(from, list, k)
  {
    assert list[..n][..k] == list[..k];
  }

  lemma {:induction false} NoRowsYet(from: Id, list: seq<Listed>, n: nat)
    requires n < |list|
    ensures Filter(TableIs(IdOf(from, list, n)), ListedColumns(from, list[..n])) == []
  {
    forall x | x in ListedColumns(from, list[..n]) ensures x.table < IdOf(from, list, n) {
      RowsBelow(from, list, n, x);
    }
    FilterNone(TableIs(IdOf(from, list, n)), ListedColumns(from, list[..n]));
  }

  lemma {:induction false} RowsBelow(from: Id, list: seq<Listed>, n: nat, x: ColumnRow)
    requires n <= |list| && x in ListedColumns(from, list[..n])
    ensures x.table < IdOf(from, list, n)
    decreases n
  {
    hide IdOf;
    var init := list[..n];
    assert init[..n - 1] == list[..n - 1];
    SameIds(from, list, n, n - 1);
    IdsRise(from, list, n - 1, n);
    if x in ListedColumns(from, list[..n - 1]) {
      RowsBelow(from, list, n - 1, x);
    }
  }

  lemma NoneBefore(base: Store, id: Id)
    requires Consistent(base) && base.nextId <= id
    ensures Filter(TableIs(id), base.columns) == []
  {
    forall x | x in base.columns ensures x.table != id {
      assert ColumnOk(base, x);
      LookupSound(TableId, base.tables, x.table);
    }
    FilterNone(TableIs(id), base.columns);
  }

  /** Also in the whole table of columns. */
  lemma RowsInStore(base: Store, list: seq<Listed>, k: nat)
    requires Consistent(base) && k < |list|
    ensures var id := IdOf(base.nextId, list, k);
      Filter(TableIs(id), base.columns + ListedColumns(base.nextId, list)) == NewColumns(id, id + 1, list[k].info.columns)
  {
    hide Filter, ListedColumns, NewColumns, Consistent, IdOf;
    var id := IdOf(base.nextId, list, k);
    var own := NewColumns(id, id + 1, list[k].info.columns);
    FilterAppend(TableIs(id), base.columns, ListedColumns(base.nextId, list));
    IdsFrom(base.nextId, list, k);
    NoneBefore(base, id);
    RowsOfListed(base.nextId, list, k);
    assert [] + own == own;
  }

  // ----- the column map -----------------------------------------------------------------------------------------

  predicate HasName(rows: seq<ColumnRow>, name: string) {
    exists i :: 0 <= i < |rows| && rows[i].name == name
  }

  ghost predicate LastNamed(rows: seq<ColumnRow>, name: string, i: nat) {
    i < |rows| && rows[i].name == name && forall j :: i < j < |rows| ==> rows[j].name != name
  }

  lemma {:induction false} PutColumnsLast(before: ColumnMap, name: string, table: Id, rows: seq<ColumnRow>,
      k: (string, string))
    ensures var after, own := PutColumns(before, name, table, rows), Filter(TableIs(table), rows);
      if k.0 == name && HasName(own, k.1)
      then k in after && exists i: nat :: LastNamed(own, k.1, i) && own[i].id == after[k]
      else (k in after <==> k in before) && (k in before ==> after[k] == before[k])
    decreases |rows|
  {
    if rows != [] {
      var n := |rows| - 1;
      var init, last := rows[..n], rows[n];
      PutColumnsLast(before, name, table, init, k);
      var was, own := Filter(TableIs(table), init), Filter(TableIs(table), rows);
      if last.table == table && k.0 == name {
        assert own == was + [last];
        if last.name == k.1 {
          assert LastNamed(own, k.1, |was|);
        } else if HasName(was, k.1) {
          var i: nat :| LastNamed(was, k.1, i) && was[i].id == PutColumns(before, name, table, init)[k];
          assert LastNamed(own, k.1, i);
        } else {
          assert !HasName(own, k.1);
        }
      }
    }
  }

  /** The last mapped table of that name that has the column, and its last row of that name. */
  ghost predicate MapsTo(m: seq<MapEntry>, rows: seq<ColumnRow>, table: string, column: string, id: Id, a: nat, i: nat) {
    a < |m| && m[a].name == table &&
    LastNamed(Filter(TableIs(m[a].table), rows), column, i) && Filter(TableIs(m[a].table), rows)[i].id == id &&
    forall b :: a < b < |m| && m[b].name == table ==> !HasName(Filter(TableIs(m[b].table), rows), column)
  }

  lemma {:induction false} ColumnMapLast(m: seq<MapEntry>, rows: seq<ColumnRow>, k: (string,
      string)) returns (a: nat, i: nat)
    requires k in ColumnMapOf(m, rows)
    ensures MapsTo(m, rows, k.0, k.1, ColumnMapOf(m, rows)[k], a, i)
    decreases |m|
  {
    var n := |m| - 1;
    PutColumnsLast(ColumnMapOf(m[..n], rows), m[n].name, m[n].table, rows, k);
    hide PutColumns, HasName, Filter;
    if m[n].name == k.0 && HasName(Filter(TableIs(m[n].table), rows), k.1) {
      a := n;
      i :| LastNamed(Filter(TableIs(m[n].table), rows), k.1, i) &&
        Filter(TableIs(m[n].table), rows)[i].id == ColumnMapOf(m, rows)[k];
    } else {
      a, i := ColumnMapLast(m[..n], rows, k);
    }
  }

  // ----- the restored dictionary entries ------------------------------------------------------------------------

  /** The entry's own names lead to its column. */
  ghost predicate EntryResolves(s: Store, m: ColumnMap, e: EntryRow) {
    var x := FindColumn(s.columns, e.column);
    x.Some? && var table := FindTable(s.tables, x.value.table);
    table.Some? && (table.value.name, x.value.name) in m && m[(table.value.name, x.value.name)] == e.column
  }

  lemma {:induction false} RestoredEntriesResolve(s: Store, b: Build, conn: string, m: ColumnMap, rows: seq<NamedEntry>)
    requires Consistent(s) && MapOk(b, conn) && b.store.tables == s.tables && m == ColumnMapOf(b.tables, s.columns)
    ensures forall e :: e in RestoreEntries(s, m, rows).entries ==> e in s.entries || EntryResolves(s, m, e)
    decreases |rows|
  {
    if rows != [] {
      hide Consistent, MapOk, ColumnMapOf, FindTable, FindColumn;
      var init, r := rows[..|rows| - 1], rows[|rows| - 1];
      RestoredEntriesResolve(s, b, conn, m, init);
      if (r.table, r.column) in m {
        MappedColumn(s, b, conn, m, r);
      }
    }
  }

  ghost predicate LastColumn(columns: seq<ColumnInfo>, name: string, p: nat) {
    p < |columns| && columns[p].name == name && forall q :: p < q < |columns| ==> columns[q].name != name
  }

  /** A listed schema of that table name, by its first and its last listing. */
  ghost predicate Spans(list: seq<Listed>, table: string, f: nat, k: nat) {
    f < |list| && FirstOf(list, list[f].schema, table, f) && LastOf(list, list[f].schema, table, k)
  }

  /** The column is in the last table listed for the f-th listing's schema and name, and no schema first
      listed later has a table of that name with such a column. */
  ghost predicate ColumnLeads(from: Id, list: seq<Listed>, table: string, column: string, id: Id, f: nat, k: nat, p: nat) {
    Spans(list, table, f, k) && k < |list| && LastColumn(list[k].info.columns, column, p) &&
    id == IdOf(from, list, k) + 1 + p &&
    forall f': nat, k': nat :: f < f' && Spans(list, table, f', k') ==> k' < |list| && !HasColumn(list[k'].info, column)
  }

  lemma NewColumnsNamed(id: Id, columns: seq<ColumnInfo>, name: string)
    ensures HasName(NewColumns(id, id + 1, columns), name) <==> exists q :: 0 <= q < |columns| && columns[q].name == name
    ensures forall p: nat :: LastNamed(NewColumns(id, id + 1, columns), name, p) ==>
      LastColumn(columns, name, p) && NewColumns(id, id + 1, columns)[p].id == id + 1 + p
  {
    var rows := NewColumns(id, id + 1, columns);
    assert forall q :: 0 <= q < |columns| ==> rows[q].name == columns[q].name && rows[q].id == id + 1 + q;
  }

  /** An entry of the map, by the listing. */
  lemma EntrySpans(from: Id, list: seq<Listed>, m: seq<MapEntry>, firsts: seq<nat>, a: nat) returns (k: nat)
    requires EntriesAre(from, list, m, firsts) && a < |m|
    ensures Spans(list, m[a].name, firsts[a], k) && k < |list| && m[a].table == IdOf(from, list, k)
  {
    hide IdOf;
    assert EntryIs(from, list, m[a], firsts[a]);
    k :| LastOf(list, m[a].schema, m[a].name, k) && m[a].table == IdOf(from, list, k);
  }

  /** And the other way round. */
  lemma SpanHasEntry(from: Id, list: seq<Listed>, m: seq<MapEntry>, firsts: seq<nat>, table: string, f: nat, k: nat)
    returns (a: nat)
    requires MapIs(from, list, m, firsts) && Spans(list, table, f, k)
    ensures a < |m| && m[a].name == table && firsts[a] == f && k < |list| && m[a].table == IdOf(from, list, k)
  {
    hide IdOf;
    assert HasEntry(m, list[f]);
    a :| a < |m| && IsOf(list[f], m[a].schema, m[a].name);
    EntryFirst(from, list, m, firsts, a);
    FirstUnique(list, m[a].schema, m[a].name, firsts[a], f);
    var k' := EntrySpans(from, list, m, firsts, a);
    LastUnique(list, m[a].schema, m[a].name, k, k');
  }

  lemma LastUnique(list: seq<Listed>, schema: string, name: string, i: nat, j: nat)
    requires LastOf(list, schema, name, i) && LastOf(list, schema, name, j)
    ensures i == j
  {
  }

  lemma OwnColumn(base: Store, list: seq<Listed>, rows: seq<ColumnRow>, i: nat, name: string, p: nat)
    requires Consistent(base) && i < |list| && rows == base.columns + ListedColumns(base.nextId, list)
    requires LastNamed(Filter(TableIs(IdOf(base.nextId, list, i)), rows), name, p)
    ensures var own := Filter(TableIs(IdOf(base.nextId, list, i)), rows);
      LastColumn(list[i].info.columns, name, p) && p < |own| && own[p].id == IdOf(base.nextId, list, i) + 1 + p
  {
    hide Filter, ListedColumns, Consistent, IdOf, NewColumns, LastColumn;
    RowsInStore(base, list, i);
    NewColumnsNamed(IdOf(base.nextId, list, i), list[i].info.columns, name);
  }

  lemma NoColumn(base: Store, list: seq<Listed>, rows: seq<ColumnRow>, i: nat, name: string)
    requires Consistent(base) && i < |list| && rows == base.columns + ListedColumns(base.nextId, list)
    requires !HasName(Filter(TableIs(IdOf(base.nextId, list, i)), rows), name)
    ensures !HasColumn(list[i].info, name)
  {
    hide Filter, ListedColumns, Consistent, IdOf, NewColumns, HasName;
    RowsInStore(base, list, i);
    NewColumnsNamed(IdOf(base.nextId, list, i), list[i].info.columns, name);
  }

  lemma LaterHasNone(base: Store, list: seq<Listed>, rows: seq<ColumnRow>, m: seq<MapEntry>, firsts: seq<nat>,
                     name: string, column: string, a: nat, f: nat, k: nat)
    requires Consistent(base) && MapIs(base.nextId, list, m, firsts) &&
      rows == base.columns + ListedColumns(base.nextId, list)
    requires a < |m| && firsts[a] < f && Spans(list, name, f, k)
    requires forall b :: a < b < |m| && m[b].name == name ==> !HasName(Filter(TableIs(m[b].table), rows), column)
    ensures k < |list| && !HasColumn(list[k].info, column)
  {
    hide Consistent, ListedColumns, IdOf, Filter, HasName, Spans, EntryIs, HasColumn, Covered;
    var b := SpanHasEntry(base.nextId, list, m, firsts, name, f, k);
    LaterEntry(firsts, a, b);
    NoColumn(base, list, rows, k, column);
  }

  lemma MappedLeads(base: Store, list: seq<Listed>, rows: seq<ColumnRow>, m: seq<MapEntry>, firsts: seq<nat>,
                    name: string, column: string, id: Id, a: nat, p: nat) returns (i: nat)
    requires Consistent(base) && MapIs(base.nextId, list, m, firsts) &&
      rows == base.columns + ListedColumns(base.nextId, list)
    requires MapsTo(m, rows, name, column, id, a, p)
    ensures a < |firsts| && ColumnLeads(base.nextId, list, name, column, id, firsts[a], i, p)
  {
    hide Consistent, ListedColumns, IdOf, Filter, LastNamed, HasName, LastColumn, Spans, EntryIs, HasColumn, Covered, Rising;
    i := EntrySpans(base.nextId, list, m, firsts, a);
    OwnColumn(base, list, rows, i, column, p);
    forall f: nat, k: nat | firsts[a] < f && Spans(list, name, f, k) ensures k < |list| && !HasColumn(list[k].info, column) {
      LaterHasNone(base, list, rows, m, firsts, name, column, a, f, k);
    }
  }

  lemma MapLeads(base: Store, list: seq<Listed>, rows: seq<ColumnRow>, m: seq<MapEntry>, firsts: seq<nat>,
      k: (string, string))
    returns (f: nat, i: nat, p: nat)
    requires Consistent(base) && MapIs(base.nextId, list, m, firsts) &&
      rows == base.columns + ListedColumns(base.nextId, list)
    requires k in ColumnMapOf(m, rows)
    ensures ColumnLeads(base.nextId, list, k.0, k.1, ColumnMapOf(m, rows)[k], f, i, p)
  {
    hide Consistent, ColumnMapOf, ListedColumns, MapIs, MapsTo, ColumnLeads;
    var a: nat;
    a, p := ColumnMapLast(m, rows, k);
    i := MappedLeads(base, list, rows, m, firsts, k.0, k.1, ColumnMapOf(m, rows)[k], a, p);
    f := firsts[a];
  }

  lemma LaterEntry(firsts: seq<nat>, a: nat, b: nat)
    requires Rising(firsts) && a < |firsts| && b < |firsts| && firsts[a] < firsts[b]
    ensures a < b
  {
  }

  /** Before restoring no entry is of the connection's columns. */
  lemma NoEntryYet(s: Store, conn: Connection, first: seq<Listing>, second: seq<Listing>, e: EntryRow)
    requires Consistent(s) && e in Rebuilt(Wipe(s, conn.id), conn, first, second).store.entries
    ensures var b := Rebuilt(Wipe(s, conn.id), conn, first, second).store;
      FindColumn(b.columns, e.column).Some? && !TableIn(b, FindColumn(b.columns, e.column).value.table, conn.id)
  {
    var w := Wipe(s, conn.id);
    WipeConsistent(s, conn.id);
    hide Wipe, Consistent, Rebuilt, FindTable, FindColumn;
    RebuiltOk(w, conn, first, second);
    WipedEntriesAreOthers(s, conn.id, e);
  }

  lemma RestoredEntriesOk(b: Build, conn: Connection, relations: seq<NamedRelation>, entries: seq<NamedEntry>, e: EntryRow)
    requires BuildOk(b, conn.id) && e in Restored(b, conn, relations, entries).entries
    ensures e in b.store.entries || EntryResolves(b.store, ColumnMapOf(b.tables, b.store.columns), e)
  {
    hide Consistent, MapOk, ColumnMapOf, RestoreRelations, RestoreEntries, RelationsOf, FindTable, FindColumn;
    RestoreRelationsExact(b, conn, relations);
    var linked := RestoreRelations(b, conn, relations);
    RestoredEntriesResolve(linked.store, linked, conn.id, ColumnMapOf(linked.tables, linked.store.columns), entries);
  }

  lemma RebuiltColumns(w: Store, conn: Connection, first: seq<Listing>, second: seq<Listing>)
    requires Consistent(w)
    ensures Rebuilt(w, conn, first, second).store.columns == w.columns + ListedColumns(w.nextId, Flatten(conn, first))
  {
    hide AddTables, LinkTables, ListedColumns;
    var list := Flatten(conn, first);
    TableColumnsAre(w, conn.id, list);
    EmptyMatches(w, conn.id);
    AddTablesOk(Build(w, []), conn.id, list);
    LinkTablesOk(AddTables(Build(w, []), conn.id, list), conn.id, Flatten(conn, second));
  }

  /** After a re-introspection each dictionary entry of the connection belongs to the column its names lead
      to: of the tables listed under that name with such a column, the one whose schema came last. */
  lemma EntriesLead(s: Store, conn: Connection, first: seq<Listing>, second: seq<Listing>, e: EntryRow)
    returns (f: nat, k: nat, p: nat)
    requires Consistent(s) && e in Introspect(s, conn, first, second).entries
    requires var s' := Introspect(s, conn, first, second); var x := FindColumn(s'.columns, e.column);
      x.Some? && TableIn(s', x.value.table, conn.id)
    ensures var s', list := Introspect(s, conn, first, second), Flatten(conn, first);
      var x := FindColumn(s'.columns, e.column).value;
      ColumnLeads(s.nextId, list, FindTable(s'.tables, x.table).value.name, x.name, e.column, f, k, p)
  {
    hide Consistent, BuildOk, MapMatches, Rebuilt, Restored, RelationsOf, EntriesOf, MapIs, FindTable, FindColumn,
      ColumnMapOf, ListedColumns, ColumnLeads, RestoreRelations;
    var w := Wipe(s, conn.id);
    var b := Rebuilt(w, conn, first, second);
    WipeConsistent(s, conn.id);
    RebuiltIsBare(s, conn, first, second);
    RestoredStore(b, conn, RelationsOf(s, conn.id), ByOrder(EntriesOf(s, conn.id)));
    RestoredEntriesOk(b, conn, RelationsOf(s, conn.id), ByOrder(EntriesOf(s, conn.id)), e);
    if e in b.store.entries {
      NoEntryYet(s, conn, first, second, e);
    }
    var firsts := RebuiltMapIs(w, conn, first, second);
    RebuiltColumns(w, conn, first, second);
    var x := FindColumn(b.store.columns, e.column).value;
    f, k, p := MapLeads(w, Flatten(conn, first), b.store.columns, b.tables, firsts, (FindTable(b.store.tables, x.table).value.name, x.name));
  }
}
