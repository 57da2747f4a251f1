/** The column cache of backend/app/semantic/schema_linker.py, and why re-introspection never
    makes it wrong although nothing invalidates it. */
module ColumnCache {
  import opened Options
  import opened Sequences
  import opened SchemaStore
  import opened SchemaIntegrity

  datatype Cached = Cached(stamp: real, columns: seq<ColumnRow>)

  type Cache = map<Id, Cached>

  function Ordinal(x: ColumnRow): int {
    x.ordinal
  }

  function OfTable(table: Id): ColumnRow -> bool {
    (x: ColumnRow) => x.table == table
  }

  function OfTables(tables: seq<Id>): ColumnRow -> bool {
    (x: ColumnRow) => x.table in tables
  }

  /** The stored columns of one table, in ordinal order. */
  function StoredColumns(rows: seq<ColumnRow>, table: Id): seq<ColumnRow> {
    SortBy(Ordinal, Filter(OfTable(table), rows))
  }

  predicate Fresh(cache: Cache, table: Id, ttl: real, now: real) {
    table in cache && now - cache[table].stamp < ttl
  }

  function Answer(cache: Cache, rows: seq<ColumnRow>, table: Id, ttl: real, now: real): seq<ColumnRow> {
    if Fresh(cache, table, ttl, now) then cache[table].columns else StoredColumns(rows, table)
  }

  function AfterLookup(cache: Cache, rows: seq<ColumnRow>, tables: seq<Id>, ttl: real, now: real): Cache {
    map t | t in cache.Keys + (set x | x in tables) ::
      if t in tables && !Fresh(cache, t, ttl, now) then Cached(now, StoredColumns(rows, t)) else cache[t]
  }

  /** One batch query, grouped by table, gives each table its own columns in order. */
  lemma BatchIsPerTable(rows: seq<ColumnRow>, tables: seq<Id>, table: Id)
    ensures Filter(OfTable(table), SortBy(Ordinal, Filter(OfTables(tables), rows))) ==
      if table in tables then StoredColumns(rows, table) else []
  {
    var batch := Filter(OfTables(tables), rows);
    FilterSort(Ordinal, OfTable(table), batch);
    var both := (x: ColumnRow) => x.table in tables && x.table == table;
    FilterFilter(OfTable(table), OfTables(tables), both, rows);
    if table in tables {
      FilterAgree(both, OfTable(table), rows);
    } else {
      FilterNone(both, rows);
    }
  }

  /** get_columns_for_tables, on the module-level dictionary it fills. */
  class Linker {
    const ttl: real
    var cache: Cache

    constructor (ttl: real)
      ensures this.ttl == ttl && cache == map[]
    {
      this.ttl := ttl;
      cache := map[];
    }

    method SplitCached(tableIds: seq<Id>, now: real) returns (result: map<Id, seq<ColumnRow>>, uncached: seq<Id>)
      ensures forall t :: t in uncached <==> t in tableIds && !Fresh(cache, t, ttl, now)
      ensures forall t :: t in result <==> t in tableIds && Fresh(cache, t, ttl, now)
      ensures forall t :: t in result ==> t in cache && result[t] == cache[t].columns
    {
      result, uncached := map[], [];
      for i := 0 to |tableIds|
        invariant forall t :: t in uncached <==> t in tableIds[..i] && !Fresh(cache, t, ttl, now)
        invariant forall t :: t in result <==> t in tableIds[..i] && Fresh(cache, t, ttl, now)
        invariant forall t :: t in result ==> t in cache && result[t] == cache[t].columns
      {
        var t := tableIds[i];
        assert tableIds[..i + 1] == tableIds[..i] + [t];
        if t in cache && now - cache[t].stamp < ttl {
          result := result[t := cache[t].columns];
        } else {
          uncached := uncached + [t];
        }
      }
      assert tableIds[..|tableIds|] == tableIds;
    }

    method Fetch(rows: seq<ColumnRow>, uncached: seq<Id>, now: real) returns (fetched: map<Id, seq<ColumnRow>>)
      modifies this
      ensures forall t :: t in fetched <==> t in uncached
      ensures forall t :: t in fetched ==> fetched[t] == StoredColumns(rows, t)
      ensures forall t :: t in cache <==> t in old(cache) || t in uncached
      ensures forall t :: t in cache ==>
        cache[t] == if t in uncached then Cached(now, StoredColumns(rows, t)) else old(cache)[t]
    {
      hide SortBy, Filter, StoredColumns;
      var found := SortBy(Ordinal, Filter(OfTables(uncached), rows));
      var byTable := GroupByTable(found);
      fetched := map[];
      for i := 0 to |uncached|
        invariant forall t :: t in fetched <==> t in uncached[..i]
        invariant forall t :: t in fetched ==> fetched[t] == StoredColumns(rows, t)
        invariant forall t :: t in cache <==> t in old(cache) || t in uncached[..i]
        invariant forall t :: t in cache ==>
          cache[t] == if t in uncached[..i] then Cached(now, StoredColumns(rows, t)) else old(cache)[t]
      {
        var t := uncached[i];
        assert uncached[..i + 1] == uncached[..i] + [t];
        BatchIsPerTable(rows, uncached, t);
        var columns := if t in byTable then byTable[t] else [];
        cache := cache[t := Cached(now, columns)];
        fetched := fetched[t := columns];
      }
      assert uncached[..|uncached|] == uncached;
    }

    method GetColumnsForTables(rows: seq<ColumnRow>, tableIds: seq<Id>, now: real)
      returns (result: map<Id, seq<ColumnRow>>)
      modifies this
      ensures result.Keys == set t | t in tableIds
      ensures forall t :: t in tableIds ==> result[t] == Answer(old(cache), rows, t, ttl, now)
      ensures cache == AfterLookup(old(cache), rows, tableIds, ttl, now)
    {
      var uncached: seq<Id>;
      result, uncached := SplitCached(tableIds, now);
      if uncached != [] {
        var fetched := Fetch(rows, uncached, now);
        result := result + fetched;
      }
    }

    method GroupByTable(found: seq<ColumnRow>) returns (byTable: map<Id, seq<ColumnRow>>)
      ensures forall t :: (if t in byTable then byTable[t] else []) == Filter(OfTable(t), found)
    {
      byTable := map[];
      for i := 0 to |found|
        invariant forall t :: (if t in byTable then byTable[t] else []) == Filter(OfTable(t), found[..i])
      {
        assert found[..i + 1][..i] == found[..i];
        var x := found[i];
        var before := if x.table in byTable then byTable[x.table] else [];
        byTable := byTable[x.table := before + [x]];
      }
      assert found[..|found|] == found;
    }
  }

  // ----- coherence over every sequence of introspections, lookups and clock steps ---------

  datatype State = State(store: Store, cache: Cache, now: real)

  datatype Step =
    | Reintrospect(conn: Connection, first: seq<Listing>, second: seq<Listing>)
    | LookUp(tables: seq<Id>)
    | Tick(elapsed: real)
    | Clear

  /** Callers look up ids they have read from some row, so ids already given out. */
  predicate Enabled(s: State, step: Step) {
    match step
    case LookUp(tables) => forall t :: t in tables ==> t < s.store.nextId
    case _ => true
  }

  function Apply(ttl: real, s: State, step: Step): State {
    match step
    case Reintrospect(conn, first, second) => s.(store := Introspect(s.store, conn, first, second))
    case LookUp(tables) => s.(cache := AfterLookup(s.cache, s.store.columns, tables, ttl, s.now))
    case Tick(elapsed) => s.(now := s.now + elapsed)
    case Clear => s.(cache := map[])
  }

  ghost predicate Legal(ttl: real, s: State, run: seq<Step>)
    decreases |run|
  {
    run == [] || (Enabled(s, run[0]) && Legal(ttl, Apply(ttl, s, run[0]), run[1..]))
  }

  ghost function Execute(ttl: real, s: State, run: seq<Step>): State
    decreases |run|
  {
    if run == [] then s else Execute(ttl, Apply(ttl, s, run[0]), run[1..])
  }

  ghost predicate Alive(s: Store, table: Id) {
    FindTable(s.tables, table).Some?
  }

  /** A cached table is an id already given out and, while it lives, cached with its columns. */
  ghost predicate Coherent(s: State) {
    Consistent(s.store) &&
    forall t :: t in s.cache ==>
      t < s.store.nextId && (Alive(s.store, t) ==> s.cache[t].columns == StoredColumns(s.store.columns, t))
  }

  // ----- re-introspection never edits a live table's columns -------------------------------

  lemma WipeKeepsLive(s: Store, conn: string, table: Id)
    requires Consistent(s) && Alive(Wipe(s, conn), table)
    ensures Alive(s, table)
    ensures Filter(OfTable(table), Wipe(s, conn).columns) == Filter(OfTable(table), s.columns)
  {
    LookupFilter(TableId, KeepTable(conn), s.tables, table);
    OwnedMeansFound(s, conn, table);
    var both := (x: ColumnRow) => KeepColumn(s, conn)(x) && OfTable(table)(x);
    FilterFilter(OfTable(table), KeepColumn(s, conn), both, s.columns);
    FilterAgree(both, OfTable(table), s.columns);
  }

  lemma {:induction false} AddTablesKeepsLive(b: Build, conn: string, list: seq<Listed>, table: Id)
    requires BuildOk(b, conn) && table < b.store.nextId
    ensures var b' := AddTables(b, conn, list);
      (Alive(b'.store, table) <==> Alive(b.store, table)) &&
      Filter(OfTable(table), b'.store.columns) == Filter(OfTable(table), b.store.columns)
    decreases |list|
  {
    if list != [] {
      hide AddTable, BuildOk, Alive, Filter, KeepsFound;
      var init := list[..|list| - 1];
      AddTablesOk(b, conn, init);
      IdsGrow(b.store, AddTables(b, conn, init).store);
      AddTablesKeepsLive(b, conn, init, table);
      AddTableKeepsLive(AddTables(b, conn, init), conn, list[|list| - 1], table);
    }
  }

  lemma IdsGrow(s: Store, s': Store)
    requires KeepsFound(s, s')
    ensures s.nextId <= s'.nextId
  {
  }

  lemma AddTableKeepsLive(b: Build, conn: string, x: Listed, table: Id)
    requires BuildOk(b, conn) && table < b.store.nextId
    ensures var s' := AddTable(b, conn, x).store;
      (Alive(s', table) <==> Alive(b.store, table)) &&
      Filter(OfTable(table), s'.columns) == Filter(OfTable(table), b.store.columns)
  {
    AddTableOk(b, conn, x);
    var id := b.store.nextId;
    var rows := NewColumns(id, id + 1, x.info.columns);
    hide Filter, Consistent;
    FilterAppend(OfTable(table), b.store.columns, rows);
    FilterNone(OfTable(table), rows);
  }

  /** Of the whole operation only the first pass adds columns. */
  lemma IntrospectedColumns(s: Store, conn: Connection, first: seq<Listing>, second: seq<Listing>)
    requires Consistent(s)
    ensures var a := AddTables(Build(Wipe(s, conn.id), []), conn.id, Flatten(conn, first)).store;
      BuildOk(Build(Wipe(s, conn.id), []), conn.id) &&
      Introspect(s, conn, first, second).columns == a.columns && Introspect(s, conn, first, second).tables == a.tables
  {
    var c, w := conn.id, Wipe(s, conn.id);
    WipeConsistent(s, c);
    var a := AddTables(Build(w, []), c, Flatten(conn, first));
    AddTablesOk(Build(w, []), c, Flatten(conn, first));
    hide BuildOk, Consistent, Wipe, AddTables;
    LinkTablesOk(a, c, Flatten(conn, second));
    var b := LinkTables(a, c, Flatten(conn, second));
    RestoreRelationsExact(b, conn, RelationsOf(s, c));
    var linked := RestoreRelations(b, conn, RelationsOf(s, c));
    RestoreEntriesExact(linked.store, linked, c, ColumnMapOf(linked.tables, linked.store.columns), ByOrder(EntriesOf(s, c)));
  }

  /** The ids only grow, and a live table whose id was already given out keeps its columns. */
  lemma IntrospectionKeepsLive(s: Store, conn: Connection, first: seq<Listing>, second: seq<Listing>, table: Id)
    requires Consistent(s) && table < s.nextId && Alive(Introspect(s, conn, first, second), table)
    ensures Alive(s, table)
    ensures StoredColumns(Introspect(s, conn, first, second).columns, table) == StoredColumns(s.columns, table)
  {
    var c, w := conn.id, Wipe(s, conn.id);
    IntrospectedColumns(s, conn, first, second);
    hide BuildOk, Introspect, AddTables, SortBy;
    AddTablesKeepsLive(Build(w, []), c, Flatten(conn, first), table);
    WipeKeepsLive(s, c, table);
  }

  lemma {:induction false} AddForeignKeysGrows(b: Build, conn: string, source: Id, fks: seq<ForeignKey>)
    ensures AddForeignKeys(b, conn, source, fks).store.nextId >= b.store.nextId
    decreases |fks|
  {
    if fks != [] {
      AddForeignKeysGrows(b, conn, source, fks[..|fks| - 1]);
    }
  }

  lemma {:induction false} LinkTablesGrows(b: Build, conn: string, list: seq<Listed>)
    ensures LinkTables(b, conn, list).store.nextId >= b.store.nextId
    decreases |list|
  {
    if list != [] {
      LinkTablesGrows(b, conn, list[..|list| - 1]);
      var mid, x := LinkTables(b, conn, list[..|list| - 1]), list[|list| - 1];
      var source := Get(mid.tables, x.schema, x.info.name);
      if source.Some? {
        AddForeignKeysGrows(mid, conn, source.value, x.info.foreignKeys);
      }
    }
  }

  lemma {:induction false} AddTablesGrows(b: Build, conn: string, list: seq<Listed>)
    ensures AddTables(b, conn, list).store.nextId >= b.store.nextId
    decreases |list|
  {
    if list != [] {
      AddTablesGrows(b, conn, list[..|list| - 1]);
    }
  }

  lemma {:induction false} RestoreRelationsGrows(b: Build, conn: Connection, rows: seq<NamedRelation>)
    ensures RestoreRelations(b, conn, rows).store.nextId >= b.store.nextId
    decreases |rows|
  {
    if rows != [] {
      RestoreRelationsGrows(b, conn, rows[..|rows| - 1]);
    }
  }

  lemma {:induction false} RestoreEntriesGrows(s: Store, m: ColumnMap, rows: seq<NamedEntry>)
    ensures RestoreEntries(s, m, rows).nextId >= s.nextId
    decreases |rows|
  {
    if rows != [] {
      RestoreEntriesGrows(s, m, rows[..|rows| - 1]);
    }
  }

  lemma IntrospectionGrows(s: Store, conn: Connection, first: seq<Listing>, second: seq<Listing>)
    ensures Introspect(s, conn, first, second).nextId >= s.nextId
  {
    var c, w := conn.id, Wipe(s, conn.id);
    AddTablesGrows(Build(w, []), c, Flatten(conn, first));
    LinkTablesGrows(AddTables(Build(w, []), c, Flatten(conn, first)), c, Flatten(conn, second));
    var b := Rebuilt(w, conn, first, second);
    RestoreRelationsGrows(b, conn, RelationsOf(s, c));
    var linked := RestoreRelations(b, conn, RelationsOf(s, c));
    RestoreEntriesGrows(linked.store, ColumnMapOf(linked.tables, linked.store.columns), ByOrder(EntriesOf(s, c)));
  }

  lemma StepCoherent(ttl: real, s: State, step: Step)
    requires Coherent(s) && Enabled(s, step)
    ensures Coherent(Apply(ttl, s, step))
  {
    if step.Reintrospect? {
      var s' := Apply(ttl, s, step);
      IntrospectionConserves(s.store, step.conn, step.first, step.second);
      IntrospectionGrows(s.store, step.conn, step.first, step.second);
      forall t | t in s'.cache && Alive(s'.store, t)
        ensures s'.cache[t].columns == StoredColumns(s'.store.columns, t)
      {
        IntrospectionKeepsLive(s.store, step.conn, step.first, step.second, t);
      }
    }
  }

  lemma {:induction false} RunCoherent(ttl: real, s: State, run: seq<Step>)
    requires Coherent(s) && Legal(ttl, s, run)
    ensures Coherent(Execute(ttl, s, run))
    decreases |run|
  {
    if run != [] {
      StepCoherent(ttl, s, run[0]);
      RunCoherent(ttl, Apply(ttl, s, run[0]), run[1..]);
    }
  }

  /** Each lookup of the run asks for ids that have been given out by then. */
  ghost predicate AsksGivenIds(ttl: real, s: State, run: seq<Step>) {
    forall k: nat, t: Id :: k < |run| && run[k].LookUp? && t in run[k].tables ==>
      t < Execute(ttl, s, run[..k]).store.nextId
  }

  lemma {:induction false} AskingIsLegal(ttl: real, s: State, run: seq<Step>)
    requires AsksGivenIds(ttl, s, run)
    ensures Legal(ttl, s, run)
    decreases |run|
  {
    if run != [] {
      assert run[..0] == [];
      forall k: nat, t: Id | k < |run[1..]| && run[1..][k].LookUp? && t in run[1..][k].tables
        ensures t < Execute(ttl, Apply(ttl, s, run[0]), run[1..][..k]).store.nextId
      {
        assert run[..k + 1][0] == run[0] && run[..k + 1][1..] == run[1..][..k];
      }
      AskingIsLegal(ttl, Apply(ttl, s, run[0]), run[1..]);
    }
  }

  /** After any sequence of introspections, lookups, clearings and clock steps in either direction, a lookup
      answers every live table with exactly its stored columns in ordinal order, cached or not. */
  lemma LookupsStayCorrect(ttl: real, s: Store, now: real, run: seq<Step>, table: Id)
    requires Consistent(s) && AsksGivenIds(ttl, State(s, map[], now), run)
    ensures var e := Execute(ttl, State(s, map[], now), run);
      Alive(e.store, table) ==>
      Answer(e.cache, e.store.columns, table, ttl, e.now) == StoredColumns(e.store.columns, table)
  {
    AskingIsLegal(ttl, State(s, map[], now), run);
    RunCoherent(ttl, State(s, map[], now), run);
  }

  /** The order is the ordinal order, and nothing is lost or doubled. */
  lemma StoredColumnsOrdered(rows: seq<ColumnRow>, table: Id)
    ensures Sorted(Ordinal, StoredColumns(rows, table))
    ensures multiset(StoredColumns(rows, table)) == multiset(Filter(OfTable(table), rows))
  {
    SortBySorts(Ordinal, Filter(OfTable(table), rows));
  }

  lemma IdsPass(b: Build, conn: string, list: seq<Listed>)
    requires list != []
    ensures AddTables(b, conn, list).store.nextId > b.store.nextId
  {
    AddTablesGrows(b, conn, list[..|list| - 1]);
  }

  lemma OwnColumns(b: Build, conn: string, x: Listed)
    requires x.info.columns != []
    ensures Filter(OfTable(b.store.nextId), AddTable(b, conn, x).store.columns) != []
  {
    var table := b.store.nextId;
    var rows := NewColumns(table, table + 1, x.info.columns);
    FilterAppend(OfTable(table), b.store.columns, rows);
    FilterAll(OfTable(table), rows);
  }

  /** The first table of a pass gets the next id, and its columns with it. */
  lemma {:induction false} FirstTableColumns(b: Build, conn: string, list: seq<Listed>)
    requires BuildOk(b, conn) && list != [] && list[0].info.columns != []
    ensures Filter(OfTable(b.store.nextId), AddTables(b, conn, list).store.columns) != []
    decreases |list|
  {
    hide AddTable, BuildOk, Filter, OfTable;
    var init := list[..|list| - 1];
    if init == [] {
      OwnColumns(b, conn, list[0]);
    } else {
      FirstTableColumns(b, conn, init);
      AddTablesOk(b, conn, init);
      IdsPass(b, conn, init);
      AddTableKeepsLive(AddTables(b, conn, init), conn, list[|list| - 1], b.store.nextId);
    }
  }

  lemma SortedNonempty(rows: seq<ColumnRow>, table: Id)
    requires Filter(OfTable(table), rows) != []
    ensures StoredColumns(rows, table) != []
  {
    SortBySorts(Ordinal, Filter(OfTable(table), rows));
    assert Filter(OfTable(table), rows)[0] in multiset(StoredColumns(rows, table));
  }

  /** The condition on lookups is needed: the answer for an id not yet given out is empty and
      stays cached, so it is wrong as soon as a re-introspection gives that id to a table with
      columns. */
  lemma UnmintedIdPoisons(ttl: real, s: State, conn: Connection, first: seq<Listing>, second: seq<Listing>)
    requires ttl > 0.0 && Consistent(s.store) && !Fresh(s.cache, s.store.nextId, ttl, s.now)
    requires Flatten(conn, first) != [] && Flatten(conn, first)[0].info.columns != []
    ensures var table := s.store.nextId;
      var e := Apply(ttl, Apply(ttl, s, LookUp([table])), Reintrospect(conn, first, second));
      !Enabled(s, LookUp([table])) &&
      Answer(e.cache, e.store.columns, table, ttl, e.now) == [] != StoredColumns(e.store.columns, table)
  {
    var table := s.store.nextId;
    assert table in [table];
    forall x | x in s.store.columns ensures !OfTable(table)(x) {
      assert ColumnOk(s.store, x);
      LookupSound(TableId, s.store.tables, x.table);
    }
    FilterNone(OfTable(table), s.store.columns);
    IntrospectedColumns(s.store, conn, first, second);
    hide Introspect, BuildOk, AddTables, Filter, Consistent;
    var base := Build(Wipe(s.store, conn.id), []);
    FirstTableColumns(base, conn.id, Flatten(conn, first));
    SortedNonempty(AddTables(base, conn.id, Flatten(conn, first)).store.columns, table);
  }
}
