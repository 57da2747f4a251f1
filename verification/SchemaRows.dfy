/** Which rows belong to which connection before and after a re-introspection. */
module SchemaRows {
  import opened Options
  import opened Sequences
  import opened SchemaStore
  import opened SchemaIntegrity

  datatype Rows = Rows(
    tables: seq<TableRow>, columns: seq<ColumnRow>, relations: seq<RelationRow>, entries: seq<EntryRow>)

  ghost function TableOf(d: string): TableRow -> bool {
    (t: TableRow) => t.connection == d
  }

  ghost function ColumnOf(s: Store, d: string): ColumnRow -> bool {
    (x: ColumnRow) => TableIn(s, x.table, d)
  }

  ghost function RelationOf(d: string): RelationRow -> bool {
    (r: RelationRow) => r.connection == d
  }

  ghost predicate EntryIn(s: Store, e: EntryRow, d: string) {
    FindColumn(s.columns, e.column).Some? && TableIn(s, FindColumn(s.columns, e.column).value.table, d)
  }

  ghost function EntryOf(s: Store, d: string): EntryRow -> bool {
    (e: EntryRow) => EntryIn(s, e, d)
  }

  /** All rows of one connection. */
  ghost function RowsOf(s: Store, d: string): Rows {
    Rows(Filter(TableOf(d), s.tables), Filter(ColumnOf(s, d), s.columns),
      Filter(RelationOf(d), s.relations), Filter(EntryOf(s, d), s.entries))
  }

  ghost function Auto(): RelationRow -> bool {
    (r: RelationRow) => !r.manual
  }

  lemma {:induction false} FilterSnoc<T>(p: T -> bool, xs: seq<T>, x: T)
    ensures Filter(p, xs + [x]) == Filter(p, xs) + (if p(x) then [x] else [])
  {
    assert (xs + [x])[..|xs|] == xs;
  }

  lemma WipeRows(s: Store, conn: string, d: string)
    requires Consistent(s)
    ensures RowsOf(Wipe(s, conn), d) == if d == conn then Rows([], [], [], []) else RowsOf(s, d)
  {
    var w := Wipe(s, conn);
    WipeConsistent(s, conn);
    forall k: Id ensures TableIn(w, k, d) <==> TableIn(s, k, d) && d != conn {
      LookupFilter(TableId, KeepTable(conn), s.tables, k);
    }
    forall x | x in s.columns
      ensures (KeepColumn(s, conn)(x) && ColumnOf(w, d)(x)) == (d != conn && ColumnOf(s, d)(x))
    {
      OwnedMeansFound(s, conn, x.table);
    }
    forall r | r in s.relations
      ensures (KeepRelation(s, conn)(r) && RelationOf(d)(r)) == (d != conn && RelationOf(d)(r))
    {
      assert RelationOk(s, r);
      OwnedMeansFound(s, conn, r.source);
      OwnedMeansFound(s, conn, r.target);
    }
    forall e | e in s.entries
      ensures (KeepEntry(s, conn)(e) && EntryOf(w, d)(e)) == (d != conn && EntryOf(s, d)(e))
    {
      assert EntryOk(s, e);
      DroppedMeansFound(s, conn, e.column);
      LookupFilter(ColumnId, KeepColumn(s, conn), s.columns, e.column);
      OwnedMeansFound(s, conn, FindColumn(s.columns, e.column).value.table);
    }
    var none := (t: TableRow) => d != conn && TableOf(d)(t);
    FilterFilter(TableOf(d), KeepTable(conn), none, s.tables);
    var noColumn := (x: ColumnRow) => d != conn && ColumnOf(s, d)(x);
    FilterFilter(ColumnOf(w, d), KeepColumn(s, conn), noColumn, s.columns);
    var noRelation := (r: RelationRow) => d != conn && RelationOf(d)(r);
    FilterFilter(RelationOf(d), KeepRelation(s, conn), noRelation, s.relations);
    var noEntry := (e: EntryRow) => d != conn && EntryOf(s, d)(e);
    FilterFilter(EntryOf(w, d), KeepEntry(s, conn), noEntry, s.entries);
    if d == conn {
      FilterNone(none, s.tables);
      FilterNone(noColumn, s.columns);
      FilterNone(noRelation, s.relations);
      FilterNone(noEntry, s.entries);
    } else {
      FilterAgree(none, TableOf(d), s.tables);
      FilterAgree(noColumn, ColumnOf(s, d), s.columns);
      FilterAgree(noRelation, RelationOf(d), s.relations);
      FilterAgree(noEntry, EntryOf(s, d), s.entries);
    }
  }

  /** Rows with earlier ids keep their connection. */
  lemma OldRowsStay(s: Store, s': Store, d: string)
    requires Consistent(s) && KeepsFound(s, s')
    ensures Filter(ColumnOf(s', d), s.columns) == Filter(ColumnOf(s, d), s.columns)
    ensures Filter(EntryOf(s', d), s.entries) == Filter(EntryOf(s, d), s.entries)
  {
    forall y | y in s.columns ensures ColumnOf(s', d)(y) == ColumnOf(s, d)(y) {
      assert ColumnOk(s, y);
      LookupSound(TableId, s.tables, y.table);
    }
    FilterAgree(ColumnOf(s', d), ColumnOf(s, d), s.columns);
    forall e | e in s.entries ensures EntryOf(s', d)(e) == EntryOf(s, d)(e) {
      assert EntryOk(s, e);
      LookupSound(ColumnId, s.columns, e.column);
      var y := FindColumn(s.columns, e.column).value;
      assert ColumnOk(s, y);
      LookupSound(TableId, s.tables, y.table);
    }
    FilterAgree(EntryOf(s', d), EntryOf(s, d), s.entries);
  }

  lemma NewColumnsOwned(s: Store, d: string, conn: string, id: Id, rows: seq<ColumnRow>)
    requires TableIn(s, id, conn) && forall y :: y in rows ==> y.table == id
    ensures Filter(ColumnOf(s, d), rows) == if d == conn then rows else []
  {
    if d == conn {
      FilterAll(ColumnOf(s, d), rows);
    } else {
      FilterNone(ColumnOf(s, d), rows);
    }
  }

  lemma AddTableRows(b: Build, conn: string, x: Listed, d: string)
    requires BuildOk(b, conn)
    ensures var was, now := RowsOf(b.store, d), RowsOf(AddTable(b, conn, x).store, d);
      now.relations == was.relations && now.entries == was.entries &&
      |now.tables| == |was.tables| + (if d == conn then 1 else 0) &&
      |now.columns| == |was.columns| + (if d == conn then |x.info.columns| else 0) &&
      (d != conn ==> now == was)
  {
    var s, s', id := b.store, AddTable(b, conn, x).store, b.store.nextId;
    var row := TableRow(id, conn, x.info.schema, x.info.name, x.info.meta);
    var rows := NewColumns(id, id + 1, x.info.columns);
    AddTableOk(b, conn, x);
    OldRowsStay(s, s', d);
    FilterSnoc(TableOf(d), s.tables, row);
    FilterAppend(ColumnOf(s', d), s.columns, rows);
    assert row in s'.tables;
    LookupDistinct(TableId, s'.tables, row);
    NewColumnsOwned(s', d, conn, id, rows);
  }

  lemma {:induction false} AddTablesRows(b: Build, conn: string, list: seq<Listed>, d: string)
    requires BuildOk(b, conn)
    ensures var was, now := RowsOf(b.store, d), RowsOf(AddTables(b, conn, list).store, d);
      now.relations == was.relations && now.entries == was.entries &&
      |now.tables| == |was.tables| + (if d == conn then |list| else 0) &&
      |now.columns| == |was.columns| + (if d == conn then TotalColumns(list) else 0) &&
      (d != conn ==> now == was)
    decreases |list|
  {
    if list != [] {
      var init := list[..|list| - 1];
      AddTablesOk(b, conn, init);
      AddTablesRows(b, conn, init, d);
      AddTableRows(AddTables(b, conn, init), conn, list[|list| - 1], d);
    }
  }

  /** Adding one relationship shows up among its own connection's rows only. */
  lemma AddRelationRows(s: Store, row: RelationRow, d: string)
    ensures var was, now := RowsOf(s, d), RowsOf(AddRelation(s, row), d);
      now == was.(relations := was.relations + (if row.connection == d then [row.(id := s.nextId)] else [])) &&
      |Filter(Auto(), now.relations)| ==
        |Filter(Auto(), was.relations)| + (if row.connection == d && !row.manual then 1 else 0)
  {
    var s', added := AddRelation(s, row), row.(id := s.nextId);
    FilterSnoc(RelationOf(d), s.relations, added);
    FilterSnoc(Auto(), RowsOf(s, d).relations, added);
    FilterAgree(ColumnOf(s', d), ColumnOf(s, d), s.columns);
    FilterAgree(EntryOf(s', d), EntryOf(s, d), s.entries);
  }

  lemma {:induction false} AddForeignKeysRows(b: Build, conn: string, source: Id, fks: seq<ForeignKey>, d: string)
    ensures var b' := AddForeignKeys(b, conn, source, fks);
      var was, now := RowsOf(b.store, d), RowsOf(b'.store, d);
      b'.tables == b.tables && now.tables == was.tables && now.columns == was.columns && now.entries == was.entries &&
      |Filter(Auto(), now.relations)| ==
        |Filter(Auto(), was.relations)| + (if d == conn then ResolvedKeys(b.tables, fks) else 0) &&
      (d != conn ==> now == was)
    decreases |fks|
  {
    if fks != [] {
      AddForeignKeysRows(b, conn, source, fks[..|fks| - 1], d);
      var mid, fk := AddForeignKeys(b, conn, source, fks[..|fks| - 1]), fks[|fks| - 1];
      var target := Get(mid.tables, fk.referredSchema, fk.referredTable);
      if target.Some? {
        AddRelationRows(mid.store,
          RelationRow(0, conn, fk.constraint, false, None, source, fk.column, target.value, fk.referredColumn), d);
      }
    }
  }

  lemma {:induction false} LinkTablesRows(b: Build, conn: string, list: seq<Listed>, d: string)
    ensures var b' := LinkTables(b, conn, list);
      var was, now := RowsOf(b.store, d), RowsOf(b'.store, d);
      b'.tables == b.tables && now.tables == was.tables && now.columns == was.columns && now.entries == was.entries &&
      |Filter(Auto(), now.relations)| ==
        |Filter(Auto(), was.relations)| + (if d == conn then TotalLinks(b.tables, list) else 0) &&
      (d != conn ==> now == was)
    decreases |list|
  {
    if list != [] {
      LinkTablesRows(b, conn, list[..|list| - 1], d);
      var mid, x := LinkTables(b, conn, list[..|list| - 1]), list[|list| - 1];
      var source := Get(mid.tables, x.schema, x.info.name);
      if source.Some? {
        AddForeignKeysRows(mid, conn, source.value, x.info.foreignKeys, d);
      }
    }
  }

  lemma {:induction false} RestoreRelationsRows(b: Build, conn: Connection, rows: seq<NamedRelation>, d: string)
    ensures var b' := RestoreRelations(b, conn, rows);
      var was, now := RowsOf(b.store, d), RowsOf(b'.store, d);
      b'.tables == b.tables && now.tables == was.tables && now.columns == was.columns && now.entries == was.entries &&
      |Filter(Auto(), now.relations)| == |Filter(Auto(), was.relations)| &&
      (d != conn.id ==> now == was)
    decreases |rows|
  {
    if rows != [] {
      RestoreRelationsRows(b, conn, rows[..|rows| - 1], d);
      var mid, r := RestoreRelations(b, conn, rows[..|rows| - 1]), rows[|rows| - 1];
      var source, target := ResolveTable(conn, mid.tables, r.sourceTable), ResolveTable(conn, mid.tables, r.targetTable);
      if source.Some? && target.Some? {
        AddRelationRows(mid.store,
          RelationRow(0, conn.id, r.constraint, true, r.kind, source.value, r.sourceColumn, target.value, r.targetColumn), d);
      }
    }
  }

  lemma {:induction false} RestoreEntriesRows(s: Store, b: Build, conn: string, m: ColumnMap,
      rows: seq<NamedEntry>, d: string)
    requires Consistent(s) && MapOk(b, conn) && b.store.tables == s.tables
    requires m == ColumnMapOf(b.tables, s.columns)
    ensures var s' := RestoreEntries(s, m, rows);
      var was, now := RowsOf(s, d), RowsOf(s', d);
      now.tables == was.tables && now.columns == was.columns && now.relations == was.relations &&
      (d != conn ==> now == was)
    decreases |rows|
  {
    if rows != [] {
      var init, e := rows[..|rows| - 1], rows[|rows| - 1];
      RestoreEntriesRows(s, b, conn, m, init, d);
      RestoreEntriesExact(s, b, conn, m, init);
      var mid := RestoreEntries(s, m, init);
      var s' := RestoreEntry(mid, m, e);
      FilterAgree(ColumnOf(s', d), ColumnOf(mid, d), mid.columns);
      var k := (e.table, e.column);
      if k in m {
        ColumnMapExact(b.tables, s.columns, k);
        var entry :| entry in b.tables && entry.name == e.table && ColumnNamed(s.columns, entry.table, e.column, m[k]);
        var x :| x in s.columns && x.table == entry.table && x.name == e.column && x.id == m[k];
        LookupDistinct(ColumnId, s.columns, x);
        FilterSnoc(EntryOf(s', d), mid.entries, s'.entries[|mid.entries|]);
      }
      FilterAgree(EntryOf(s', d), EntryOf(mid, d), mid.entries);
    }
  }

  /** The wipe and the two passes. */
  lemma RebuiltRows(s: Store, conn: Connection, first: seq<Listing>, second: seq<Listing>, d: string)
    requires Consistent(s)
    ensures var b := Rebuilt(Wipe(s, conn.id), conn, first, second);
      var now, counts := RowsOf(b.store, d), CountsOf(s, conn, first, second);
      BuildOk(b, conn.id) && (d != conn.id ==> now == RowsOf(s, d)) &&
      (d == conn.id ==> counts == Counts(|now.tables|, |now.columns|, |Filter(Auto(), now.relations)|))
  {
    var c, w := conn.id, Wipe(s, conn.id);
    WipeConsistent(s, c);
    WipeRows(s, c, d);
    hide Consistent, MapOk, Wipe, RowsOf, AddTables, LinkTables, Auto;
    AddTablesOk(Build(w, []), c, Flatten(conn, first));
    AddTablesRows(Build(w, []), c, Flatten(conn, first), d);
    var a := AddTables(Build(w, []), c, Flatten(conn, first));
    LinkTablesOk(a, c, Flatten(conn, second));
    LinkTablesRows(a, c, Flatten(conn, second), d);
  }

  /** The rows of every other connection are exactly what they were; of the introspected one,
      the returned counts are the numbers of tables, columns and foreign-key relationships. */
  lemma IntrospectionRows(s: Store, conn: Connection, first: seq<Listing>, second: seq<Listing>, d: string)
    requires Consistent(s)
    ensures var now, counts := RowsOf(Introspect(s, conn, first, second), d), CountsOf(s, conn, first, second);
      (d != conn.id ==> now == RowsOf(s, d)) &&
      (d == conn.id ==>
        counts == Counts(|now.tables|, |now.columns|, |Filter(Auto(), now.relations)|))
  {
    hide Consistent, MapOk, Wipe, RowsOf, Rebuilt, RestoreRelations, RestoreEntries, CountsOf;
    var c, b := conn.id, Rebuilt(Wipe(s, conn.id), conn, first, second);
    RebuiltRows(s, conn, first, second, d);
    var relations, entries := RelationsOf(s, c), ByOrder(EntriesOf(s, c));
    RestoreRelationsExact(b, conn, relations);
    RestoreRelationsRows(b, conn, relations, d);
    var linked := RestoreRelations(b, conn, relations);
    RestoreEntriesRows(linked.store, linked, c, ColumnMapOf(linked.tables, linked.store.columns), entries, d);
  }
}
