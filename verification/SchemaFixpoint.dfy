/** Running introspect_and_cache again on an unchanged target changes nothing but the new ids. */
module SchemaFixpoint {
  import opened Options
  import opened Sequences
  import opened SchemaStore
  import opened SchemaIntegrity

  // ----- renaming the ids from `from` on --------------------------------------------

  function Rename(from: Id, shift: nat, id: Id): Id {
    if id >= from then id + shift else id
  }

  function RenameTable(from: Id, shift: nat): TableRow -> TableRow {
    (t: TableRow) => t.(id := Rename(from, shift, t.id))
  }

  function RenameColumn(from: Id, shift: nat): ColumnRow -> ColumnRow {
    (x: ColumnRow) => x.(id := Rename(from, shift, x.id), table := Rename(from, shift, x.table))
  }

  function RenameRelation(from: Id, shift: nat): RelationRow -> RelationRow {
    (r: RelationRow) => r.(id := Rename(from, shift, r.id),
      source := Rename(from, shift, r.source), target := Rename(from, shift, r.target))
  }

  function RenameEntry(from: Id, shift: nat): EntryRow -> EntryRow {
    (e: EntryRow) => e.(id := Rename(from, shift, e.id), column := Rename(from, shift, e.column))
  }

  function RenameMapEntry(from: Id, shift: nat): MapEntry -> MapEntry {
    (e: MapEntry) => e.(table := Rename(from, shift, e.table))
  }

  /** The store with every id from `from` on moved up, and nothing else changed. */
  function Renamed(from: Id, shift: nat, s: Store): Store {
    Store(Map(RenameTable(from, shift), s.tables), Map(RenameColumn(from, shift), s.columns),
      Map(RenameRelation(from, shift), s.relations), Map(RenameEntry(from, shift), s.entries), s.nextId + shift)
  }

  function RenamedMap(from: Id, shift: nat, m: seq<MapEntry>): seq<MapEntry> {
    Map(RenameMapEntry(from, shift), m)
  }

  function RenamedBuild(from: Id, shift: nat, b: Build): Build {
    Build(Renamed(from, shift, b.store), RenamedMap(from, shift, b.tables))
  }

  lemma MapAppend<T, U>(f: T -> U, xs: seq<T>, ys: seq<T>)
    ensures Map(f, xs + ys) == Map(f, xs) + Map(f, ys)
  {
  }

  lemma MapInit<T, U>(f: T -> U, xs: seq<T>)
    requires xs != []
    ensures Map(f, xs)[..|xs| - 1] == Map(f, xs[..|xs| - 1])
  {
  }

  lemma {:induction false} PutRenamed(from: Id, shift: nat, m: seq<MapEntry>, e: MapEntry)
    ensures Put(RenamedMap(from, shift, m), RenameMapEntry(from, shift)(e)) == RenamedMap(from, shift, Put(m, e))
  {
    if m != [] {
      var f := RenameMapEntry(from, shift);
      assert Map(f, m)[1..] == Map(f, m[1..]);
      PutRenamed(from, shift, m[1..], e);
      MapFirst(f, e, m[1..]);
      MapFirst(f, m[0], Put(m[1..], e));
      PutFirst(m, e);
      PutFirst(Map(f, m), f(e));
      hide Put, Map;
    }
  }

  lemma MapFirst(f: MapEntry -> MapEntry, x: MapEntry, rest: seq<MapEntry>)
    ensures Map(f, [x] + rest) == [f(x)] + Map(f, rest)
  {
  }

  lemma PutFirst(m: seq<MapEntry>, e: MapEntry)
    requires m != []
    ensures Put(m, e) == if m[0].schema == e.schema && m[0].name == e.name then [e] + m[1..] else [m[0]] + Put(m[1..], e)
  {
  }

  lemma {:induction false} GetRenamed(from: Id, shift: nat, m: seq<MapEntry>, schema: string, name: string)
    ensures var was, now := Get(m, schema, name), Get(RenamedMap(from, shift, m), schema, name);
      now == if was.Some? then Some(Rename(from, shift, was.value)) else None
    decreases |m|
  {
    if m != [] {
      MapInit(RenameMapEntry(from, shift), m);
      GetRenamed(from, shift, m[..|m| - 1], schema, name);
    }
  }

  lemma {:induction false} GetByNameRenamed(from: Id, shift: nat, m: seq<MapEntry>, name: string)
    ensures var was, now := GetByName(m, name), GetByName(RenamedMap(from, shift, m), name);
      now == if was.Some? then Some(Rename(from, shift, was.value)) else None
    decreases |m|
  {
    if m != [] {
      assert RenamedMap(from, shift, m)[1..] == RenamedMap(from, shift, m[1..]);
      GetByNameRenamed(from, shift, m[1..], name);
    }
  }

  lemma AddTableRenamed(from: Id, shift: nat, b: Build, conn: string, x: Listed)
    requires from <= b.store.nextId
    ensures AddTable(RenamedBuild(from, shift, b), conn, x) == RenamedBuild(from, shift, AddTable(b, conn, x))
  {
    var id := b.store.nextId;
    var row := TableRow(id, conn, x.info.schema, x.info.name, x.info.meta);
    var rows := NewColumns(id, id + 1, x.info.columns);
    MapAppend(RenameTable(from, shift), b.store.tables, [row]);
    MapAppend(RenameColumn(from, shift), b.store.columns, rows);
    assert Map(RenameColumn(from, shift), rows) == NewColumns(id + shift, id + shift + 1, x.info.columns);
    PutRenamed(from, shift, b.tables, MapEntry(x.schema, x.info.name, id));
  }

  lemma {:induction false} AddTablesRenamed(from: Id, shift: nat, b: Build, conn: string, list: seq<Listed>)
    requires from <= b.store.nextId
    ensures from <= AddTables(b, conn, list).store.nextId
    ensures AddTables(RenamedBuild(from, shift, b), conn, list) == RenamedBuild(from, shift, AddTables(b, conn, list))
    decreases |list|
  {
    if list != [] {
      var init := list[..|list| - 1];
      AddTablesRenamed(from, shift, b, conn, init);
      AddTableRenamed(from, shift, AddTables(b, conn, init), conn, list[|list| - 1]);
    }
  }

  lemma AddRelationRenamed(from: Id, shift: nat, s: Store, row: RelationRow, row': RelationRow)
    requires from <= s.nextId
    requires row' == row.(source := Rename(from, shift, row.source), target := Rename(from, shift, row.target))
    ensures AddRelation(Renamed(from, shift, s), row') == Renamed(from, shift, AddRelation(s, row))
  {
    MapAppend(RenameRelation(from, shift), s.relations, [row.(id := s.nextId)]);
  }

  lemma {:induction false} AddForeignKeysRenamed(from: Id, shift: nat, b: Build, conn: string, source: Id,
      fks: seq<ForeignKey>)
    requires from <= b.store.nextId
    ensures from <= AddForeignKeys(b, conn, source, fks).store.nextId
    ensures AddForeignKeys(RenamedBuild(from, shift, b), conn, Rename(from, shift, source), fks) ==
      RenamedBuild(from, shift, AddForeignKeys(b, conn, source, fks))
    decreases |fks|
  {
    if fks != [] {
      AddForeignKeysRenamed(from, shift, b, conn, source, fks[..|fks| - 1]);
      var mid, fk := AddForeignKeys(b, conn, source, fks[..|fks| - 1]), fks[|fks| - 1];
      GetRenamed(from, shift, mid.tables, fk.referredSchema, fk.referredTable);
      var target := Get(mid.tables, fk.referredSchema, fk.referredTable);
      if target.Some? {
        var row := RelationRow(0, conn, fk.constraint, false, None, source, fk.column, target.value, fk.referredColumn);
        AddRelationRenamed(from, shift, mid.store, row,
          row.(source := Rename(from, shift, source), target := Rename(from, shift, target.value)));
      }
    }
  }

  lemma {:induction false} LinkTablesRenamed(from: Id, shift: nat, b: Build, conn: string, list: seq<Listed>)
    requires from <= b.store.nextId
    ensures from <= LinkTables(b, conn, list).store.nextId
    ensures LinkTables(RenamedBuild(from, shift, b), conn, list) == RenamedBuild(from, shift, LinkTables(b, conn, list))
    decreases |list|
  {
    if list != [] {
      LinkTablesRenamed(from, shift, b, conn, list[..|list| - 1]);
      var mid, x := LinkTables(b, conn, list[..|list| - 1]), list[|list| - 1];
      GetRenamed(from, shift, mid.tables, x.schema, x.info.name);
      var source := Get(mid.tables, x.schema, x.info.name);
      if source.Some? {
        AddForeignKeysRenamed(from, shift, mid, conn, source.value, x.info.foreignKeys);
      }
    }
  }

  lemma ResolveRenamed(from: Id, shift: nat, conn: Connection, m: seq<MapEntry>, name: string)
    ensures var was, now := ResolveTable(conn, m, name), ResolveTable(conn, RenamedMap(from, shift, m), name);
      now == if was.Some? then Some(Rename(from, shift, was.value)) else None
  {
    GetRenamed(from, shift, m, if conn.sqlServer then "dbo" else "", name);
    GetByNameRenamed(from, shift, m, name);
  }

  lemma {:induction false} RestoreRelationsRenamed(from: Id, shift: nat, b: Build, conn: Connection,
      rows: seq<NamedRelation>)
    requires from <= b.store.nextId
    ensures from <= RestoreRelations(b, conn, rows).store.nextId
    ensures RestoreRelations(RenamedBuild(from, shift, b), conn, rows) ==
      RenamedBuild(from, shift, RestoreRelations(b, conn, rows))
    decreases |rows|
  {
    if rows != [] {
      RestoreRelationsRenamed(from, shift, b, conn, rows[..|rows| - 1]);
      var mid, r := RestoreRelations(b, conn, rows[..|rows| - 1]), rows[|rows| - 1];
      ResolveRenamed(from, shift, conn, mid.tables, r.sourceTable);
      ResolveRenamed(from, shift, conn, mid.tables, r.targetTable);
      var source, target := ResolveTable(conn, mid.tables, r.sourceTable), ResolveTable(conn, mid.tables, r.targetTable);
      if source.Some? && target.Some? {
        var row := RelationRow(0, conn.id, r.constraint, true, r.kind, source.value, r.sourceColumn, target.value, r.targetColumn);
        AddRelationRenamed(from, shift, mid.store, row,
          row.(source := Rename(from, shift, source.value), target := Rename(from, shift, target.value)));
      }
    }
  }

  ghost function RenamedColumnMap(from: Id, shift: nat, m: ColumnMap): ColumnMap {
    map k | k in m :: Rename(from, shift, m[k])
  }

  lemma {:induction false} PutColumnsRenamed(from: Id, shift: nat, m: ColumnMap, name: string, table: Id,
      rows: seq<ColumnRow>)
    ensures PutColumns(RenamedColumnMap(from, shift, m), name, Rename(from, shift, table), Map(RenameColumn(from, shift), rows)) ==
      RenamedColumnMap(from, shift, PutColumns(m, name, table, rows))
    decreases |rows|
  {
    if rows != [] {
      MapInit(RenameColumn(from, shift), rows);
      PutColumnsRenamed(from, shift, m, name, table, rows[..|rows| - 1]);
    }
  }

  lemma {:induction false} ColumnMapRenamed(from: Id, shift: nat, m: seq<MapEntry>, rows: seq<ColumnRow>)
    ensures ColumnMapOf(RenamedMap(from, shift, m), Map(RenameColumn(from, shift), rows)) ==
      RenamedColumnMap(from, shift, ColumnMapOf(m, rows))
    decreases |m|
  {
    if m != [] {
      MapInit(RenameMapEntry(from, shift), m);
      ColumnMapRenamed(from, shift, m[..|m| - 1], rows);
      PutColumnsRenamed(from, shift, ColumnMapOf(m[..|m| - 1], rows), m[|m| - 1].name, m[|m| - 1].table, rows);
    }
  }

  lemma {:induction false} RestoreEntriesRenamed(from: Id, shift: nat, s: Store, m: ColumnMap, rows: seq<NamedEntry>)
    requires from <= s.nextId
    ensures from <= RestoreEntries(s, m, rows).nextId
    ensures RestoreEntries(Renamed(from, shift, s), RenamedColumnMap(from, shift, m), rows) ==
      Renamed(from, shift, RestoreEntries(s, m, rows))
    decreases |rows|
  {
    if rows != [] {
      RestoreEntriesRenamed(from, shift, s, m, rows[..|rows| - 1]);
      var mid, e := RestoreEntries(s, m, rows[..|rows| - 1]), rows[|rows| - 1];
      if (e.table, e.column) in m {
        var row := EntryRow(mid.nextId, m[(e.table, e.column)], e.raw, e.display, e.description, e.order);
        MapAppend(RenameEntry(from, shift), mid.entries, [row]);
      }
    }
  }

  lemma RestoredRenamed(from: Id, shift: nat, b: Build, conn: Connection, relations: seq<NamedRelation>,
      entries: seq<NamedEntry>)
    requires from <= b.store.nextId
    ensures Restored(RenamedBuild(from, shift, b), conn, relations, entries) ==
      Renamed(from, shift, Restored(b, conn, relations, entries))
  {
    RestoreRelationsRenamed(from, shift, b, conn, relations);
    var linked := RestoreRelations(b, conn, relations);
    ColumnMapRenamed(from, shift, linked.tables, linked.store.columns);
    RestoreEntriesRenamed(from, shift, linked.store, ColumnMapOf(linked.tables, linked.store.columns), entries);
  }

  // ----- what is not restored makes no difference --------------------------------------

  lemma {:induction false} RestoreRelationsSkips(b: Build, conn: Connection, rows: seq<NamedRelation>)
    requires BuildOk(b, conn.id)
    ensures RestoreRelations(b, conn, Filter(ResolvableRule(b.tables), rows)) == RestoreRelations(b, conn, rows)
    decreases |rows|
  {
    if rows != [] {
      var init, r := rows[..|rows| - 1], rows[|rows| - 1];
      RestoreRelationsSkips(b, conn, init);
      RestoreRelationsExact(b, conn, init);
      var mid := RestoreRelations(b, conn, init);
      ResolveSound(mid, conn, r.sourceTable);
      ResolveSound(mid, conn, r.targetTable);
      var kept := Filter(ResolvableRule(b.tables), init);
      assert (kept + [r])[..|kept|] == kept;
    }
  }

  lemma {:induction false} RestoreEntriesSkips(s: Store, m: ColumnMap, rows: seq<NamedEntry>)
    ensures RestoreEntries(s, m, Filter(MappedRule(m), rows)) == RestoreEntries(s, m, rows)
    decreases |rows|
  {
    if rows != [] {
      var init, e := rows[..|rows| - 1], rows[|rows| - 1];
      RestoreEntriesSkips(s, m, init);
      var kept := Filter(MappedRule(m), init);
      assert (kept + [e])[..|kept|] == kept;
    }
  }

  // ----- wiping the result of a run gives back what the run started from ------------------

  /** The rows a wipe keeps, whatever the id counter says. */
  ghost function Erased(s: Store, conn: string): Store {
    Wipe(s, conn).(nextId := 0)
  }

  lemma EraseOldRows(s: Store, s': Store, conn: string)
    requires Consistent(s) && Consistent(s') && KeepsFound(s, s')
    ensures Filter(KeepColumn(s', conn), s.columns) == Filter(KeepColumn(s, conn), s.columns)
    ensures Filter(KeepRelation(s', conn), s.relations) == Filter(KeepRelation(s, conn), s.relations)
    ensures Filter(KeepEntry(s', conn), s.entries) == Filter(KeepEntry(s, conn), s.entries)
  {
    forall k: Id | FindTable(s.tables, k).Some? ensures Owned(s', conn, k) <==> Owned(s, conn, k) {
      LookupSound(TableId, s.tables, k);
      OwnedMeansFound(s, conn, k);
      OwnedMeansFound(s', conn, k);
    }
    forall y | y in s.columns ensures KeepColumn(s', conn)(y) == KeepColumn(s, conn)(y) {
      assert ColumnOk(s, y);
    }
    FilterAgree(KeepColumn(s', conn), KeepColumn(s, conn), s.columns);
    forall r | r in s.relations ensures KeepRelation(s', conn)(r) == KeepRelation(s, conn)(r) {
      assert RelationOk(s, r);
    }
    FilterAgree(KeepRelation(s', conn), KeepRelation(s, conn), s.relations);
    forall e | e in s.entries ensures KeepEntry(s', conn)(e) == KeepEntry(s, conn)(e) {
      assert EntryOk(s, e);
      LookupSound(ColumnId, s.columns, e.column);
      DroppedMeansFound(s, conn, e.column);
      DroppedMeansFound(s', conn, e.column);
      assert ColumnOk(s, FindColumn(s.columns, e.column).value);
    }
    FilterAgree(KeepEntry(s', conn), KeepEntry(s, conn), s.entries);
  }

  /** A wipe takes a new table of the connection and all its columns back out. */
  lemma EraseNewTable(s: Store, s': Store, conn: string, row: TableRow, rows: seq<ColumnRow>)
    requires Consistent(s) && Consistent(s') && KeepsFound(s, s') && row.connection == conn
    requires s'.tables == s.tables + [row] && s'.columns == s.columns + rows
    requires forall x :: x in rows ==> x.table == row.id
    ensures Erased(s', conn) == Erased(s, conn)
  {
    EraseOldRows(s, s', conn);
    FilterAppend(KeepTable(conn), s.tables, [row]);
    FilterNone(KeepTable(conn), [row]);
    FilterAppend(KeepColumn(s', conn), s.columns, rows);
    assert s'.tables[|s.tables|] == row;
    assert Owned(s', conn, row.id);
    FilterNone(KeepColumn(s', conn), rows);
  }

  lemma EraseTable(b: Build, conn: string, x: Listed)
    requires BuildOk(b, conn)
    ensures Erased(AddTable(b, conn, x).store, conn) == Erased(b.store, conn)
  {
    var id := b.store.nextId;
    AddTableOk(b, conn, x);
    EraseNewTable(b.store, AddTable(b, conn, x).store, conn,
      TableRow(id, conn, x.info.schema, x.info.name, x.info.meta), NewColumns(id, id + 1, x.info.columns));
  }

  lemma {:induction false} EraseTables(b: Build, conn: string, list: seq<Listed>)
    requires BuildOk(b, conn)
    ensures Erased(AddTables(b, conn, list).store, conn) == Erased(b.store, conn)
    decreases |list|
  {
    if list != [] {
      var init := list[..|list| - 1];
      AddTablesOk(b, conn, init);
      EraseTables(b, conn, init);
      EraseTable(AddTables(b, conn, init), conn, list[|list| - 1]);
    }
  }

  /** Rows added later that all belong to the connection are all erased. */
  lemma EraseAdded(s: Store, s': Store, conn: string, relations: seq<RelationRow>, entries: seq<EntryRow>)
    requires Consistent(s) && Consistent(s')
    requires s'.tables == s.tables && s'.columns == s.columns
    requires s'.relations == s.relations + relations && forall r :: r in relations ==> r.connection == conn
    requires s'.entries == s.entries + entries
    requires forall e :: e in entries ==>
      FindColumn(s.columns, e.column).Some? && TableIn(s, FindColumn(s.columns, e.column).value.table, conn)
    ensures Erased(s', conn) == Erased(s, conn)
  {
    FilterAgree(KeepColumn(s', conn), KeepColumn(s, conn), s.columns);
    FilterAgree(KeepRelation(s', conn), KeepRelation(s, conn), s.relations);
    FilterAgree(KeepEntry(s', conn), KeepEntry(s, conn), s.entries);
    FilterAppend(KeepRelation(s', conn), s.relations, relations);
    FilterAppend(KeepEntry(s', conn), s.entries, entries);
    forall r | r in relations ensures !KeepRelation(s', conn)(r) {
      assert r in s'.relations;
      assert RelationOk(s', r);
      OwnedMeansFound(s', conn, r.source);
    }
    FilterNone(KeepRelation(s', conn), relations);
    forall e | e in entries ensures !KeepEntry(s', conn)(e) {
      DroppedMeansFound(s', conn, e.column);
      OwnedMeansFound(s', conn, FindColumn(s.columns, e.column).value.table);
    }
    FilterNone(KeepEntry(s', conn), entries);
  }

  lemma {:induction false} RestoreRelationsAdds(b: Build, conn: Connection, rows: seq<NamedRelation>)
      returns (added: seq<RelationRow>)
    requires BuildOk(b, conn.id)
    ensures RestoreRelations(b, conn, rows).store.relations == b.store.relations + added
    ensures forall r :: r in added ==> r.connection == conn.id
    decreases |rows|
  {
    added := [];
    if rows != [] {
      added := RestoreRelationsAdds(b, conn, rows[..|rows| - 1]);
      var mid, now := RestoreRelations(b, conn, rows[..|rows| - 1]), RestoreRelations(b, conn, rows);
      if now != mid {
        added := added + [now.store.relations[|mid.store.relations|]];
      }
    }
  }

  lemma {:induction false} RestoreEntriesAdds(s: Store, b: Build, conn: string, m: ColumnMap, rows: seq<NamedEntry>)
      returns (added: seq<EntryRow>)
    requires Consistent(s) && MapOk(b, conn) && b.store.tables == s.tables
    requires m == ColumnMapOf(b.tables, s.columns)
    ensures RestoreEntries(s, m, rows).entries == s.entries + added
    ensures forall e :: e in added ==>
      FindColumn(s.columns, e.column).Some? && TableIn(s, FindColumn(s.columns, e.column).value.table, conn)
    decreases |rows|
  {
    added := [];
    if rows != [] {
      added := RestoreEntriesAdds(s, b, conn, m, rows[..|rows| - 1]);
      var mid, e := RestoreEntries(s, m, rows[..|rows| - 1]), rows[|rows| - 1];
      var k := (e.table, e.column);
      if k in m {
        ColumnMapExact(b.tables, s.columns, k);
        var entry :| entry in b.tables && entry.name == e.table && ColumnNamed(s.columns, entry.table, e.column, m[k]);
        var x :| x in s.columns && x.table == entry.table && x.name == e.column && x.id == m[k];
        LookupDistinct(ColumnId, s.columns, x);
        added := added + [EntryRow(mid.nextId, m[k], e.raw, e.display, e.description, e.order)];
      }
    }
  }

  lemma WipedTablesStay(s: Store, conn: string)
    requires Consistent(s)
    ensures Filter(KeepTable(conn), Wipe(s, conn).tables) == Wipe(s, conn).tables
  {
    WipeConsistent(s, conn);
    hide Consistent;
    FilterAll(KeepTable(conn), Wipe(s, conn).tables);
  }

  lemma WipedColumnsStay(s: Store, conn: string)
    requires Consistent(s)
    ensures Filter(KeepColumn(Wipe(s, conn), conn), Wipe(s, conn).columns) == Wipe(s, conn).columns
  {
    var w := Wipe(s, conn);
    WipeConsistent(s, conn);
    hide Wipe;
    FilterAll(KeepColumn(w, conn), w.columns);
  }

  lemma WipedRelationsStay(s: Store, conn: string)
    requires Consistent(s)
    ensures Filter(KeepRelation(Wipe(s, conn), conn), Wipe(s, conn).relations) == Wipe(s, conn).relations
  {
    var w := Wipe(s, conn);
    WipeConsistent(s, conn);
    hide Wipe;
    FilterAll(KeepRelation(w, conn), w.relations);
  }

  lemma WipedEntriesStay(s: Store, conn: string)
    requires Consistent(s)
    ensures Filter(KeepEntry(Wipe(s, conn), conn), Wipe(s, conn).entries) == Wipe(s, conn).entries
  {
    var w := Wipe(s, conn);
    WipeConsistent(s, conn);
    hide Wipe;
    FilterAll(KeepEntry(w, conn), w.entries);
  }

  lemma WipeTwice(s: Store, conn: string)
    requires Consistent(s)
    ensures Wipe(Wipe(s, conn), conn) == Wipe(s, conn)
  {
    hide Consistent, KeepTable, KeepColumn, KeepRelation, KeepEntry, Filter;
    WipedTablesStay(s, conn);
    WipedColumnsStay(s, conn);
    WipedRelationsStay(s, conn);
    WipedEntriesStay(s, conn);
  }

  lemma EraseLinks(a: Build, b: Build, conn: string)
    requires BuildOk(a, conn) && BuildOk(b, conn) && OnlyLinked(a, b, conn)
    ensures Erased(b.store, conn) == Erased(a.store, conn)
  {
    var n := |a.store.relations|;
    var links := b.store.relations[n..];
    assert b.store.relations == a.store.relations + links;
    assert b.store.entries == a.store.entries + [];
    EraseAdded(a.store, b.store, conn, links, []);
  }

  lemma EraseRestored(b: Build, conn: Connection, relations: seq<NamedRelation>, entries: seq<NamedEntry>)
    requires BuildOk(b, conn.id)
    ensures Erased(Restored(b, conn, relations, entries), conn.id) == Erased(b.store, conn.id)
  {
    RestoreRelationsExact(b, conn, relations);
    var linked := RestoreRelations(b, conn, relations);
    var rows := RestoreRelationsAdds(b, conn, relations);
    assert linked.store.entries == b.store.entries + [];
    EraseAdded(b.store, linked.store, conn.id, rows, []);
    var m := ColumnMapOf(linked.tables, linked.store.columns);
    RestoreEntriesExact(linked.store, linked, conn.id, m, entries);
    var more := RestoreEntriesAdds(linked.store, linked, conn.id, m, entries);
    var s' := RestoreEntries(linked.store, m, entries);
    assert s'.relations == linked.store.relations + [];
    EraseAdded(linked.store, s', conn.id, [], more);
  }

  /** A second run starts from the same rows as the first. */
  lemma WipeOfResult(s: Store, conn: Connection, first: seq<Listing>, second: seq<Listing>)
    requires Consistent(s)
    ensures var s' := Introspect(s, conn, first, second);
      Wipe(s', conn.id) == Wipe(s, conn.id).(nextId := s'.nextId)
  {
    var c, w := conn.id, Wipe(s, conn.id);
    WipeConsistent(s, c);
    WipeTwice(s, c);
    var list := Flatten(conn, first);
    AddTablesOk(Build(w, []), c, list);
    EraseTables(Build(w, []), c, list);
    var a := AddTables(Build(w, []), c, list);
    LinkTablesOk(a, c, Flatten(conn, second));
    var b := LinkTables(a, c, Flatten(conn, second));
    EraseLinks(a, b, c);
    EraseRestored(b, conn, RelationsOf(s, c), ByOrder(EntriesOf(s, c)));
  }

  // ----- the fixpoint -------------------------------------------------------------------------

  lemma RenameNothing(from: Id, shift: nat, s: Store)
    requires Consistent(s) && s.nextId == from
    ensures Renamed(from, shift, s) == s.(nextId := from + shift)
  {
    forall x | x in s.columns ensures RenameColumn(from, shift)(x) == x {
      assert ColumnOk(s, x);
      LookupSound(TableId, s.tables, x.table);
    }
    forall r | r in s.relations ensures RenameRelation(from, shift)(r) == r {
      assert RelationOk(s, r);
      LookupSound(TableId, s.tables, r.source);
      LookupSound(TableId, s.tables, r.target);
    }
    forall e | e in s.entries ensures RenameEntry(from, shift)(e) == e {
      assert EntryOk(s, e);
      LookupSound(ColumnId, s.columns, e.column);
      assert ColumnOk(s, FindColumn(s.columns, e.column).value);
    }
    assert Map(RenameTable(from, shift), s.tables) == s.tables;
    assert Map(RenameColumn(from, shift), s.columns) == s.columns;
    assert Map(RenameRelation(from, shift), s.relations) == s.relations;
    assert Map(RenameEntry(from, shift), s.entries) == s.entries;
  }

  /** What a run restores is unaffected by leaving out what it cannot restore. */
  lemma RestoredFromKept(s: Store, conn: Connection, first: seq<Listing>, second: seq<Listing>)
    requires Consistent(s)
    ensures var s' := Introspect(s, conn, first, second);
      Restored(Rebuilt(Wipe(s, conn.id), conn, first, second), conn,
        RelationsOf(s', conn.id), ByOrder(EntriesOf(s', conn.id))) == s'
  {
    var c, list := conn.id, Flatten(conn, first);
    var relations, entries := RelationsOf(s, c), ByOrder(EntriesOf(s, c));
    IntrospectionConserves(s, conn, first, second);
    RebuiltIsBare(s, conn, first, second);
    var b := Rebuilt(Wipe(s, c), conn, first, second);
    forall r | r in relations ensures ResolvableRule(b.tables)(r) == RelationSurvives(list)(r) {
      MappedMeansListed(b, list, r.sourceTable);
      MappedMeansListed(b, list, r.targetTable);
    }
    FilterAgree(ResolvableRule(b.tables), RelationSurvives(list), relations);
    RestoreRelationsSkips(b, conn, relations);
    RestoreRelationsExact(b, conn, relations);
    var linked := RestoreRelations(b, conn, relations);
    var m := ColumnMapOf(linked.tables, linked.store.columns);
    forall e | e in entries ensures MappedRule(m)(e) == EntrySurvives(list)(e) {
      ColumnMappedMeansListed(b, list, e.table, e.column);
    }
    FilterAgree(MappedRule(m), EntrySurvives(list), entries);
    RestoreEntriesSkips(linked.store, m, entries);
    SortBySorts(SortOrder, EntriesOf(s, c));
    FilterSorted(SortOrder, EntrySurvives(list), entries);
    SortOfSorted(SortOrder, Filter(EntrySurvives(list), entries));
  }

  /** Introspecting an unchanged target a second time gives the same store up to the new ids:
      each row made by the first run is made again, its id moved by one constant. */
  lemma SecondRunRenames(s: Store, conn: Connection, first: seq<Listing>, second: seq<Listing>)
    requires Consistent(s)
    ensures var s' := Introspect(s, conn, first, second);
      s'.nextId >= s.nextId &&
      Introspect(s', conn, first, second) == Renamed(s.nextId, s'.nextId - s.nextId, s')
  {
    var c, w, from := conn.id, Wipe(s, conn.id), s.nextId;
    var s' := Introspect(s, conn, first, second);
    WipeConsistent(s, c);
    AddTablesRenamed(from, 0, Build(w, []), c, Flatten(conn, first));
    var a := AddTables(Build(w, []), c, Flatten(conn, first));
    LinkTablesRenamed(from, 0, a, c, Flatten(conn, second));
    var b := Rebuilt(w, conn, first, second);
    RestoreRelationsRenamed(from, 0, b, conn, RelationsOf(s, c));
    var linked := RestoreRelations(b, conn, RelationsOf(s, c));
    RestoreEntriesRenamed(from, 0, linked.store, ColumnMapOf(linked.tables, linked.store.columns), ByOrder(EntriesOf(s, c)));

    var shift := s'.nextId - from;
    WipeOfResult(s, conn, first, second);
    RenameNothing(from, shift, w);
    assert RenamedBuild(from, shift, Build(w, [])) == Build(Wipe(s', c), []);
    AddTablesRenamed(from, shift, Build(w, []), c, Flatten(conn, first));
    LinkTablesRenamed(from, shift, a, c, Flatten(conn, second));
    RestoredRenamed(from, shift, b, conn, RelationsOf(s', c), ByOrder(EntriesOf(s', c)));
    RestoredFromKept(s, conn, first, second);
  }
}
