/** What introspect_and_cache keeps: referential integrity, the rows of other connections,
    and the curated manual relationships and dictionary entries. */
module SchemaIntegrity {
  import opened Options
  import opened Sequences
  import opened SchemaStore

  // ----- referential integrity ----------------------------------------------------

  ghost predicate TableIn(s: Store, id: Id, conn: string) {
    FindTable(s.tables, id).Some? && FindTable(s.tables, id).value.connection == conn
  }

  ghost predicate ColumnOk(s: Store, x: ColumnRow) {
    x.id < s.nextId && FindTable(s.tables, x.table).Some?
  }

  /** A relationship and its two endpoints belong to one connection. */
  ghost predicate RelationOk(s: Store, r: RelationRow) {
    r.id < s.nextId && TableIn(s, r.source, r.connection) && TableIn(s, r.target, r.connection)
  }

  ghost predicate EntryOk(s: Store, e: EntryRow) {
    e.id < s.nextId && FindColumn(s.columns, e.column).Some?
  }

  ghost predicate Consistent(s: Store) {
    DistinctBy(TableId, s.tables) && DistinctBy(ColumnId, s.columns) &&
    (forall t :: t in s.tables ==> t.id < s.nextId) &&
    (forall x :: x in s.columns ==> ColumnOk(s, x)) &&
    (forall r :: r in s.relations ==> RelationOk(s, r)) &&
    (forall e :: e in s.entries ==> EntryOk(s, e))
  }

  lemma OwnedMeansFound(s: Store, conn: string, id: Id)
    requires DistinctBy(TableId, s.tables)
    ensures Owned(s, conn, id) <==> TableIn(s, id, conn)
  {
    if Owned(s, conn, id) {
      var i :| 0 <= i < |s.tables| && s.tables[i].id == id && s.tables[i].connection == conn;
      LookupDistinct(TableId, s.tables, s.tables[i]);
    }
    if TableIn(s, id, conn) {
      LookupSound(TableId, s.tables, id);
    }
  }

  lemma DroppedMeansFound(s: Store, conn: string, id: Id)
    requires DistinctBy(ColumnId, s.columns)
    ensures ColumnDropped(s, conn, id) <==>
      FindColumn(s.columns, id).Some? && Owned(s, conn, FindColumn(s.columns, id).value.table)
  {
    if ColumnDropped(s, conn, id) {
      var i :| 0 <= i < |s.columns| && s.columns[i].id == id && Owned(s, conn, s.columns[i].table);
      LookupDistinct(ColumnId, s.columns, s.columns[i]);
    }
    if FindColumn(s.columns, id).Some? {
      LookupSound(ColumnId, s.columns, id);
    }
  }

  /** Deleting a connection's tables, with the cascades, leaves every other reference intact. */
  lemma WipeConsistent(s: Store, conn: string)
    requires Consistent(s)
    ensures Consistent(Wipe(s, conn))
    ensures forall t :: t in Wipe(s, conn).tables ==> t.connection != conn
    ensures forall r :: r in Wipe(s, conn).relations ==> r.connection != conn
  {
    var w := Wipe(s, conn);
    FilterDistinct(TableId, KeepTable(conn), s.tables);
    FilterDistinct(ColumnId, KeepColumn(s, conn), s.columns);
    forall t | t in w.tables ensures t.id < w.nextId && t.connection != conn {
      FilterMember(KeepTable(conn), s.tables, t);
    }
    forall x | x in w.columns ensures ColumnOk(w, x) {
      FilterMember(KeepColumn(s, conn), s.columns, x);
      assert ColumnOk(s, x);
      OwnedMeansFound(s, conn, x.table);
      LookupFilter(TableId, KeepTable(conn), s.tables, x.table);
    }
    forall r | r in w.relations ensures RelationOk(w, r) && r.connection != conn {
      FilterMember(KeepRelation(s, conn), s.relations, r);
      assert RelationOk(s, r);
      OwnedMeansFound(s, conn, r.source);
      OwnedMeansFound(s, conn, r.target);
      LookupFilter(TableId, KeepTable(conn), s.tables, r.source);
      LookupFilter(TableId, KeepTable(conn), s.tables, r.target);
    }
    forall e | e in w.entries ensures EntryOk(w, e) {
      FilterMember(KeepEntry(s, conn), s.entries, e);
      assert EntryOk(s, e);
      DroppedMeansFound(s, conn, e.column);
      LookupFilter(ColumnId, KeepColumn(s, conn), s.columns, e.column);
    }
  }

  /** Every mapped name leads to a live table of the connection that carries it. */
  ghost predicate MapOk(b: Build, conn: string) {
    forall m :: m in b.tables ==>
      TableIn(b.store, m.table, conn) && FindTable(b.store.tables, m.table).value.name == m.name
  }

  ghost predicate BuildOk(b: Build, conn: string) {
    Consistent(b.store) && MapOk(b, conn)
  }

  lemma {:induction false} PutMembers(m: seq<MapEntry>, e: MapEntry, x: MapEntry)
    ensures x in Put(m, e) ==> x == e || x in m
    ensures e in Put(m, e)
  {
    if m != [] {
      PutMembers(m[1..], e, x);
      assert m == [m[0]] + m[1..];
    }
  }

  /** Rows with earlier ids are still found as they were. */
  ghost predicate KeepsFound(s: Store, s': Store) {
    s.nextId <= s'.nextId && s'.relations == s.relations && s'.entries == s.entries &&
    forall k :: 0 <= k < s.nextId ==>
      FindTable(s'.tables, k) == FindTable(s.tables, k) && FindColumn(s'.columns, k) == FindColumn(s.columns, k)
  }

  lemma AddTableFindsTables(b: Build, conn: string, x: Listed, k: Id)
    requires Consistent(b.store)
    ensures var was, now, id := b.store, AddTable(b, conn, x).store, b.store.nextId;
      (FindTable(was.tables, k).Some? ==> k < id) &&
      (k != id ==> FindTable(now.tables, k) == FindTable(was.tables, k)) &&
      FindTable(now.tables, id) == Some(TableRow(id, conn, x.info.schema, x.info.name, x.info.meta))
  {
    hide DistinctBy, ColumnOk, RelationOk, EntryOk;
    LookupSound(TableId, b.store.tables, k);
    if k != b.store.nextId {
      LookupAppend(TableId, b.store.tables,
        [TableRow(b.store.nextId, conn, x.info.schema, x.info.name, x.info.meta)], k);
    }
  }

  lemma AddTableFindsColumns(b: Build, conn: string, x: Listed, k: Id)
    requires Consistent(b.store)
    ensures var was, now, id := b.store, AddTable(b, conn, x).store, b.store.nextId;
      (FindColumn(was.columns, k).Some? ==> k < id) &&
      (k <= id ==> FindColumn(now.columns, k) == FindColumn(was.columns, k))
  {
    hide DistinctBy, RelationOk, EntryOk, FindTable;
    var id, was := b.store.nextId, b.store;
    LookupSound(ColumnId, was.columns, k);
    assert forall y :: y in was.columns ==> ColumnOk(was, y);
    if k <= id {
      LookupAppend(ColumnId, was.columns, NewColumns(id, id + 1, x.info.columns), k);
    }
  }

  /** The new table and its columns are found under their own ids, everything else as before. */
  lemma AddTableFinds(b: Build, conn: string, x: Listed, k: Id)
    requires Consistent(b.store)
    ensures var was, now, id := b.store, AddTable(b, conn, x).store, b.store.nextId;
      (FindTable(was.tables, k).Some? ==> k < id) && (FindColumn(was.columns, k).Some? ==> k < id) &&
      (k != id ==> FindTable(now.tables, k) == FindTable(was.tables, k)) &&
      (k <= id ==> FindColumn(now.columns, k) == FindColumn(was.columns, k)) &&
      FindTable(now.tables, id) == Some(TableRow(id, conn, x.info.schema, x.info.name, x.info.meta))
  {
    hide Consistent, FindTable, FindColumn;
    AddTableFindsTables(b, conn, x, k);
    AddTableFindsColumns(b, conn, x, k);
  }

  lemma AddTableDistinct(b: Build, conn: string, x: Listed)
    requires Consistent(b.store)
    ensures var now := AddTable(b, conn, x).store;
      DistinctBy(TableId, now.tables) && DistinctBy(ColumnId, now.columns) &&
      (forall t :: t in now.tables ==> t.id < now.nextId) && forall y :: y in now.columns ==> y.id < now.nextId
  {
    var id, was := b.store.nextId, b.store;
    hide RelationOk, EntryOk, FindTable;
    assert forall y :: y in was.columns ==> ColumnOk(was, y);
    DistinctAppend(TableId, was.tables, [TableRow(id, conn, x.info.schema, x.info.name, x.info.meta)]);
    DistinctAppend(ColumnId, was.columns, NewColumns(id, id + 1, x.info.columns));
  }

  lemma AddTableOk(b: Build, conn: string, x: Listed)
    requires BuildOk(b, conn)
    ensures BuildOk(AddTable(b, conn, x), conn) && KeepsFound(b.store, AddTable(b, conn, x).store)
  {
    var id, was, now := b.store.nextId, b.store, AddTable(b, conn, x).store;
    forall k: Id
      ensures (FindTable(was.tables, k).Some? ==> k < id) && (FindColumn(was.columns, k).Some? ==> k < id)
      ensures k != id ==> FindTable(now.tables, k) == FindTable(was.tables, k)
      ensures k <= id ==> FindColumn(now.columns, k) == FindColumn(was.columns, k)
    {
      AddTableFinds(b, conn, x, k);
    }
    AddTableFinds(b, conn, x, id);
    AddTableDistinct(b, conn, x);
    hide DistinctBy, FindTable, FindColumn;
    forall r | r in now.relations ensures RelationOk(now, r) {
      assert RelationOk(was, r);
    }
    forall e | e in now.entries ensures EntryOk(now, e) {
      assert EntryOk(was, e);
    }
    forall y | y in now.columns ensures ColumnOk(now, y) {
      assert y in was.columns ==> ColumnOk(was, y);
    }
    var b' := AddTable(b, conn, x);
    forall m | m in b'.tables ensures TableIn(now, m.table, conn) && FindTable(now.tables, m.table).value.name == m.name {
      PutMembers(b.tables, MapEntry(x.schema, x.info.name, id), m);
    }
  }

  lemma {:induction false} AddTablesOk(b: Build, conn: string, list: seq<Listed>)
    requires BuildOk(b, conn)
    ensures BuildOk(AddTables(b, conn, list), conn) && KeepsFound(b.store, AddTables(b, conn, list).store)
    decreases |list|
  {
    if list != [] {
      AddTablesOk(b, conn, list[..|list| - 1]);
      AddTableOk(AddTables(b, conn, list[..|list| - 1]), conn, list[|list| - 1]);
    }
  }

  lemma AddRelationOk(b: Build, conn: string, row: RelationRow)
    requires BuildOk(b, conn) && row.connection == conn
    requires TableIn(b.store, row.source, conn) && TableIn(b.store, row.target, conn)
    ensures BuildOk(b.(store := AddRelation(b.store, row)), conn)
  {
    var now := AddRelation(b.store, row);
    assert forall x :: x in b.store.columns ==> ColumnOk(b.store, x);
    forall r | r in now.relations ensures RelationOk(now, r) {
      assert r in b.store.relations ==> RelationOk(b.store, r);
    }
    assert forall e :: e in b.store.entries ==> EntryOk(b.store, e);
  }

  lemma {:induction false} GetMembers(m: seq<MapEntry>, schema: string, name: string)
    ensures Get(m, schema, name).Some? ==> MapEntry(schema, name, Get(m, schema, name).value) in m
    ensures Get(m, schema, name).None? ==> forall e :: e in m ==> e.schema != schema || e.name != name
    decreases |m|
  {
    if m != [] {
      GetMembers(m[..|m| - 1], schema, name);
      assert m == m[..|m| - 1] + [m[|m| - 1]];
    }
  }

  /** Nothing but foreign-key relationships of the connection was added. */
  ghost predicate OnlyLinked(b: Build, b': Build, conn: string) {
    var n := |b.store.relations|;
    b'.tables == b.tables && b'.store.tables == b.store.tables && b'.store.columns == b.store.columns &&
    b'.store.entries == b.store.entries && b.store.nextId <= b'.store.nextId &&
    n <= |b'.store.relations| && b'.store.relations[..n] == b.store.relations &&
    forall i :: n <= i < |b'.store.relations| ==>
      b'.store.relations[i].connection == conn && !b'.store.relations[i].manual
  }

  lemma {:induction false} AddForeignKeysOk(b: Build, conn: string, source: Id, fks: seq<ForeignKey>)
    requires BuildOk(b, conn) && TableIn(b.store, source, conn)
    ensures var b' := AddForeignKeys(b, conn, source, fks);
      BuildOk(b', conn) && OnlyLinked(b, b', conn)
    decreases |fks|
  {
    if fks != [] {
      AddForeignKeysOk(b, conn, source, fks[..|fks| - 1]);
      var mid, fk := AddForeignKeys(b, conn, source, fks[..|fks| - 1]), fks[|fks| - 1];
      GetMembers(mid.tables, fk.referredSchema, fk.referredTable);
      var target := Get(mid.tables, fk.referredSchema, fk.referredTable);
      if target.Some? {
        AddRelationOk(mid, conn,
          RelationRow(0, conn, fk.constraint, false, None, source, fk.column, target.value, fk.referredColumn));
      }
    }
  }

  lemma {:induction false} LinkTablesOk(b: Build, conn: string, list: seq<Listed>)
    requires BuildOk(b, conn)
    ensures var b' := LinkTables(b, conn, list);
      BuildOk(b', conn) && OnlyLinked(b, b', conn)
    decreases |list|
  {
    if list != [] {
      LinkTablesOk(b, conn, list[..|list| - 1]);
      var mid, x := LinkTables(b, conn, list[..|list| - 1]), list[|list| - 1];
      LinkTableOk(mid, conn, x);
      hide BuildOk, LinkTable;
    }
  }

  lemma LinkTableOk(b: Build, conn: string, x: Listed)
    requires BuildOk(b, conn)
    ensures BuildOk(LinkTable(b, conn, x), conn) && OnlyLinked(b, LinkTable(b, conn, x), conn)
  {
    GetMembers(b.tables, x.schema, x.info.name);
    var source := Get(b.tables, x.schema, x.info.name);
    if source.Some? {
      AddForeignKeysOk(b, conn, source.value, x.info.foreignKeys);
    }
  }

  lemma {:induction false} GetByNameMembers(m: seq<MapEntry>, name: string)
    ensures GetByName(m, name).Some? ==> exists e :: e in m && e.name == name && e.table == GetByName(m, name).value
    ensures GetByName(m, name).None? ==> forall e :: e in m ==> e.name != name
    decreases |m|
  {
    if m != [] {
      if m[0].name == name {
        assert m[0] in m;
      } else {
        GetByNameMembers(m[1..], name);
        assert m == [m[0]] + m[1..];
      }
    }
  }

  ghost predicate Mapped(m: seq<MapEntry>, name: string) {
    exists e :: e in m && e.name == name
  }

  /** A name resolves exactly when some mapped table carries it, and then to such a table. */
  lemma ResolveSound(b: Build, conn: Connection, name: string)
    requires BuildOk(b, conn.id)
    ensures var id := ResolveTable(conn, b.tables, name);
      (id.Some? <==> Mapped(b.tables, name)) &&
      (id.Some? ==> TableIn(b.store, id.value, conn.id) && FindTable(b.store.tables, id.value).value.name == name)
  {
    GetMembers(b.tables, if conn.sqlServer then "dbo" else "", name);
    GetByNameMembers(b.tables, name);
  }

  ghost predicate Resolvable(m: seq<MapEntry>, r: NamedRelation) {
    Mapped(m, r.sourceTable) && Mapped(m, r.targetTable)
  }

  ghost function ResolvableRule(m: seq<MapEntry>): NamedRelation -> bool {
    r => Resolvable(m, r)
  }

  lemma {:induction false} ManualAppend(tables: seq<TableRow>, conn: string, xs: seq<RelationRow>, row: RelationRow)
    ensures ManualRelations(tables, conn, xs + [row]) == ManualRelations(tables, conn, xs) + NameRelation(tables, conn, row)
  {
    assert (xs + [row])[..|xs|] == xs;
  }

  /** Restoring re-creates, in order, exactly the relationships whose two names resolve. */
  lemma {:induction false} RestoreRelationsExact(b: Build, conn: Connection, rows: seq<NamedRelation>)
    requires BuildOk(b, conn.id)
    ensures var b' := RestoreRelations(b, conn, rows);
      BuildOk(b', conn.id) && b'.tables == b.tables && b'.store.tables == b.store.tables &&
      b'.store.columns == b.store.columns && b'.store.entries == b.store.entries &&
      RelationsOf(b'.store, conn.id) == RelationsOf(b.store, conn.id) + Filter(ResolvableRule(b.tables), rows)
    decreases |rows|
  {
    if rows != [] {
      RestoreRelationsExact(b, conn, rows[..|rows| - 1]);
      var mid, r := RestoreRelations(b, conn, rows[..|rows| - 1]), rows[|rows| - 1];
      ResolveSound(mid, conn, r.sourceTable);
      ResolveSound(mid, conn, r.targetTable);
      if Resolvable(b.tables, r) {
        var row := RelationRow(0, conn.id, r.constraint, true, r.kind,
          ResolveTable(conn, mid.tables, r.sourceTable).value, r.sourceColumn,
          ResolveTable(conn, mid.tables, r.targetTable).value, r.targetColumn);
        AddRelationOk(mid, conn.id, row);
        ManualAppend(mid.store.tables, conn.id, mid.store.relations, row.(id := mid.store.nextId));
      }
    }
  }

  // ----- the column map ------------------------------------------------------------------

  ghost predicate ColumnNamed(rows: seq<ColumnRow>, table: Id, name: string, id: Id) {
    exists x :: x in rows && x.table == table && x.name == name && x.id == id
  }

  ghost predicate InMap(m: seq<MapEntry>, rows: seq<ColumnRow>, table: string, column: string, id: Id) {
    exists e :: e in m && e.name == table && ColumnNamed(rows, e.table, column, id)
  }

  lemma {:induction false} PutColumnsExact(m: ColumnMap, name: string, table: Id, rows: seq<ColumnRow>, k: (string, string))
    ensures var m' := PutColumns(m, name, table, rows);
      (k in m' <==> k in m || (k.0 == name && exists id :: ColumnNamed(rows, table, k.1, id))) &&
      (k in m' ==> (k in m && m'[k] == m[k]) || (k.0 == name && ColumnNamed(rows, table, k.1, m'[k])))
    decreases |rows|
  {
    if rows != [] {
      var init, last := rows[..|rows| - 1], rows[|rows| - 1];
      PutColumnsExact(m, name, table, init, k);
      assert rows == init + [last];
      if last.table == table {
        assert ColumnNamed(rows, table, last.name, last.id);
      }
      forall c, id | ColumnNamed(init, table, c, id) ensures ColumnNamed(rows, table, c, id) {
      }
      forall c, id | ColumnNamed(rows, table, c, id)
        ensures ColumnNamed(init, table, c, id) || (last.table == table && last.name == c)
      {
      }
    }
  }

  /** The map knows exactly the column names of the mapped tables, and leads to such a column. */
  lemma {:induction false} ColumnMapExact(m: seq<MapEntry>, rows: seq<ColumnRow>, k: (string, string))
    ensures k in ColumnMapOf(m, rows) <==> exists id :: InMap(m, rows, k.0, k.1, id)
    ensures k in ColumnMapOf(m, rows) ==> InMap(m, rows, k.0, k.1, ColumnMapOf(m, rows)[k])
    decreases |m|
  {
    if m != [] {
      var init, last := m[..|m| - 1], m[|m| - 1];
      ColumnMapExact(init, rows, k);
      PutColumnsExact(ColumnMapOf(init, rows), last.name, last.table, rows, k);
      assert m == init + [last];
      forall id | InMap(init, rows, k.0, k.1, id) ensures InMap(m, rows, k.0, k.1, id) {
      }
      forall id | k.0 == last.name && ColumnNamed(rows, last.table, k.1, id) ensures InMap(m, rows, k.0, k.1, id) {
      }
      forall id | InMap(m, rows, k.0, k.1, id)
        ensures InMap(init, rows, k.0, k.1, id) || (k.0 == last.name && ColumnNamed(rows, last.table, k.1, id))
      {
      }
    }
  }

  ghost predicate EntryMapped(m: ColumnMap, e: NamedEntry) {
    (e.table, e.column) in m
  }

  ghost function MappedRule(m: ColumnMap): NamedEntry -> bool {
    e => EntryMapped(m, e)
  }

  /** A mapped pair names a stored column of a table in the map. */
  lemma MappedColumn(s: Store, b: Build, conn: string, m: ColumnMap, e: NamedEntry)
    requires Consistent(s) && MapOk(b, conn) && b.store.tables == s.tables
    requires m == ColumnMapOf(b.tables, s.columns) && (e.table, e.column) in m
    ensures var found := FindColumn(s.columns, m[(e.table, e.column)]);
      found.Some? && found.value.name == e.column && TableIn(s, found.value.table, conn) &&
      FindTable(s.tables, found.value.table).value.name == e.table
  {
    var k := (e.table, e.column);
    ColumnMapExact(b.tables, s.columns, k);
    var entry :| entry in b.tables && entry.name == e.table && ColumnNamed(s.columns, entry.table, e.column, m[k]);
    var x :| x in s.columns && x.table == entry.table && x.name == e.column && x.id == m[k];
    hide ColumnMapOf, ColumnNamed;
    LookupDistinct(ColumnId, s.columns, x);
  }

  lemma EntryAdded(s: Store, row: EntryRow)
    requires Consistent(s) && row.id == s.nextId && FindColumn(s.columns, row.column).Some?
    ensures Consistent(s.(entries := s.entries + [row], nextId := s.nextId + 1))
  {
    var s' := s.(entries := s.entries + [row], nextId := s.nextId + 1);
    hide DistinctBy, FindTable, FindColumn;
    forall x | x in s'.columns ensures ColumnOk(s', x) {
      assert ColumnOk(s, x);
    }
    forall r | r in s'.relations ensures RelationOk(s', r) {
      assert RelationOk(s, r);
    }
    forall y | y in s'.entries ensures EntryOk(s', y) {
      assert y in s.entries ==> EntryOk(s, y);
    }
  }

  lemma RestoreEntryExact(s: Store, b: Build, conn: string, m: ColumnMap, e: NamedEntry)
    requires Consistent(s) && MapOk(b, conn) && b.store.tables == s.tables
    requires m == ColumnMapOf(b.tables, s.columns)
    ensures var s' := RestoreEntry(s, m, e);
      Consistent(s') && s'.tables == s.tables && s'.columns == s.columns && s'.relations == s.relations &&
      EntriesOf(s', conn) == EntriesOf(s, conn) + (if EntryMapped(m, e) then [e] else [])
  {
    var k := (e.table, e.column);
    if k in m {
      MappedColumn(s, b, conn, m, e);
      hide Consistent, MapOk, ColumnMapOf, FindTable, FindColumn;
      var row := EntryRow(s.nextId, m[k], e.raw, e.display, e.description, e.order);
      EntryAdded(s, row);
      assert (s.entries + [row])[..|s.entries|] == s.entries;
      assert NameEntry(s.tables, s.columns, conn, row) == [e];
    }
  }

  /** Restoring re-creates, in order, exactly the entries whose column is in the map. */
  lemma {:induction false} RestoreEntriesExact(s: Store, b: Build, conn: string, m: ColumnMap, rows: seq<NamedEntry>)
    requires Consistent(s) && MapOk(b, conn) && b.store.tables == s.tables
    requires m == ColumnMapOf(b.tables, s.columns)
    ensures var s' := RestoreEntries(s, m, rows);
      Consistent(s') && s'.tables == s.tables && s'.columns == s.columns && s'.relations == s.relations &&
      EntriesOf(s', conn) == EntriesOf(s, conn) + Filter(MappedRule(m), rows)
    decreases |rows|
  {
    if rows != [] {
      RestoreEntriesExact(s, b, conn, m, rows[..|rows| - 1]);
      RestoreEntryExact(RestoreEntries(s, m, rows[..|rows| - 1]), b, conn, m, rows[|rows| - 1]);
    }
  }

  // ----- what the target database listed -------------------------------------------------

  ghost predicate SameKey(x: Listed, y: Listed) {
    x.schema == y.schema && x.info.name == y.info.name
  }

  /** No later listing of the same schema and table name replaces this one. */
  ghost predicate Current(list: seq<Listed>, i: nat) {
    i < |list| && forall j :: i < j < |list| ==> !SameKey(list[i], list[j])
  }

  ghost predicate HasColumn(info: TableInfo, column: string) {
    exists k :: 0 <= k < |info.columns| && info.columns[k].name == column
  }

  ghost predicate TableListed(list: seq<Listed>, table: string) {
    exists i :: 0 <= i < |list| && list[i].info.name == table
  }

  ghost predicate ColumnListed(list: seq<Listed>, table: string, column: string) {
    exists i :: 0 <= i < |list| && Current(list, i) && list[i].info.name == table && HasColumn(list[i].info, column)
  }

  ghost function RelationSurvives(list: seq<Listed>): NamedRelation -> bool {
    (r: NamedRelation) => TableListed(list, r.sourceTable) && TableListed(list, r.targetTable)
  }

  ghost function EntrySurvives(list: seq<Listed>): NamedEntry -> bool {
    (e: NamedEntry) => ColumnListed(list, e.table, e.column)
  }

  ghost predicate KeysDistinct(m: seq<MapEntry>) {
    forall i, j :: 0 <= i < j < |m| ==> m[i].schema != m[j].schema || m[i].name != m[j].name
  }

  lemma {:induction false} PutExact(m: seq<MapEntry>, e: MapEntry)
    requires KeysDistinct(m)
    ensures KeysDistinct(Put(m, e))
    ensures forall x :: x in Put(m, e) <==> x == e || (x in m && (x.schema != e.schema || x.name != e.name))
  {
    if m != [] {
      assert m == [m[0]] + m[1..];
      PutExact(m[1..], e);
      if m[0].schema != e.schema || m[0].name != e.name {
        FrontDistinct(m[0], Put(m[1..], e));
      } else {
        FrontDistinct(e, m[1..]);
      }
    }
  }

  lemma FrontDistinct(x: MapEntry, rest: seq<MapEntry>)
    requires KeysDistinct(rest) && forall y :: y in rest ==> y.schema != x.schema || y.name != x.name
    ensures KeysDistinct([x] + rest)
    ensures forall y :: y in [x] + rest <==> y == x || y in rest
  {
    var m := [x] + rest;
    forall i, j | 0 <= i < j < |m| ensures m[i].schema != m[j].schema || m[i].name != m[j].name {
      assert m[j] == rest[j - 1] && m[j] in rest;
    }
  }

  ghost predicate ColumnsMatch(rows: seq<ColumnRow>, table: Id, info: TableInfo) {
    forall c :: (exists id :: ColumnNamed(rows, table, c, id)) <==> HasColumn(info, c)
  }

  ghost predicate Describes(rows: seq<ColumnRow>, list: seq<Listed>, i: nat, e: MapEntry) {
    Current(list, i) && list[i].schema == e.schema && list[i].info.name == e.name &&
    ColumnsMatch(rows, e.table, list[i].info)
  }

  ghost predicate Described(rows: seq<ColumnRow>, list: seq<Listed>, e: MapEntry) {
    exists i: nat :: Describes(rows, list, i, e)
  }

  ghost predicate Covers(m: seq<MapEntry>, x: Listed) {
    exists e :: e in m && e.schema == x.schema && e.name == x.info.name
  }

  /** The map holds one entry for every current listing, with that listing's columns. */
  ghost predicate MapMatches(b: Build, list: seq<Listed>) {
    KeysDistinct(b.tables) &&
    (forall e :: e in b.tables ==> Described(b.store.columns, list, e)) &&
    (forall i :: 0 <= i < |list| ==> Covers(b.tables, list[i]))
  }

  lemma NewColumnsMatch(was: seq<ColumnRow>, id: Id, firstId: Id, info: TableInfo)
    requires forall x :: x in was ==> x.table != id
    ensures ColumnsMatch(was + NewColumns(id, firstId, info.columns), id, info)
  {
    var rows := was + NewColumns(id, firstId, info.columns);
    forall c | HasColumn(info, c) ensures exists k :: ColumnNamed(rows, id, c, k) {
      var k :| 0 <= k < |info.columns| && info.columns[k].name == c;
      assert rows[|was| + k] in rows;
      assert ColumnNamed(rows, id, c, firstId + k);
    }
    forall c, k | ColumnNamed(rows, id, c, k) ensures HasColumn(info, c) {
      var x :| x in rows && x.table == id && x.name == c && x.id == k;
      assert x in NewColumns(id, firstId, info.columns);
    }
  }

  lemma OldColumnsMatch(was: seq<ColumnRow>, id: Id, firstId: Id, info: TableInfo, table: Id, other: TableInfo)
    requires table != id && ColumnsMatch(was, table, other)
    ensures ColumnsMatch(was + NewColumns(id, firstId, info.columns), table, other)
  {
    var rows := was + NewColumns(id, firstId, info.columns);
    forall c, k ensures ColumnNamed(rows, table, c, k) <==> ColumnNamed(was, table, c, k) {
    }
  }

  lemma DescribedKept(b: Build, conn: string, list: seq<Listed>, x: Listed, e: MapEntry)
    requires BuildOk(b, conn) && e in b.tables && Described(b.store.columns, list, e)
    requires e.schema != x.schema || e.name != x.info.name
    ensures Described(AddTable(b, conn, x).store.columns, list + [x], e)
  {
    var id := b.store.nextId;
    LookupSound(TableId, b.store.tables, e.table);
    var i: nat :| Describes(b.store.columns, list, i, e);
    OldColumnsMatch(b.store.columns, id, id + 1, x.info, e.table, list[i].info);
    assert Describes(AddTable(b, conn, x).store.columns, list + [x], i, e);
  }

  lemma NewDescribed(b: Build, conn: string, list: seq<Listed>, x: Listed)
    requires Consistent(b.store)
    ensures Described(AddTable(b, conn, x).store.columns, list + [x], MapEntry(x.schema, x.info.name, b.store.nextId))
  {
    var id := b.store.nextId;
    forall y | y in b.store.columns ensures y.table != id {
      assert ColumnOk(b.store, y);
      LookupSound(TableId, b.store.tables, y.table);
    }
    NewColumnsMatch(b.store.columns, id, id + 1, x.info);
    assert Describes(AddTable(b, conn, x).store.columns, list + [x], |list|, MapEntry(x.schema, x.info.name, id));
  }

  lemma CoversKept(m: seq<MapEntry>, e: MapEntry, x: Listed)
    requires KeysDistinct(m)
    requires Covers(m, x) || (e.schema == x.schema && e.name == x.info.name)
    ensures Covers(Put(m, e), x)
  {
    PutExact(m, e);
    if e.schema != x.schema || e.name != x.info.name {
      var y :| y in m && y.schema == x.schema && y.name == x.info.name;
      assert y in Put(m, e);
    } else {
      assert e in Put(m, e);
    }
  }

  lemma AddTableMatches(b: Build, conn: string, list: seq<Listed>, x: Listed)
    requires BuildOk(b, conn) && MapMatches(b, list)
    ensures MapMatches(AddTable(b, conn, x), list + [x])
  {
    var b', list' := AddTable(b, conn, x), list + [x];
    var added := MapEntry(x.schema, x.info.name, b.store.nextId);
    PutExact(b.tables, added);
    forall e | e in b'.tables ensures Described(b'.store.columns, list', e) {
      if e == added {
        NewDescribed(b, conn, list, x);
      } else {
        DescribedKept(b, conn, list, x, e);
      }
    }
    forall i | 0 <= i < |list'| ensures Covers(b'.tables, list'[i]) {
      CoversKept(b.tables, added, list'[i]);
    }
  }

  lemma EmptyMatches(base: Store, conn: string)
    requires Consistent(base)
    ensures BuildOk(Build(base, []), conn) && MapMatches(Build(base, []), [])
  {
  }

  lemma AddTablesStep(b: Build, conn: string, list: seq<Listed>)
    requires list != []
    ensures AddTables(b, conn, list) == AddTable(AddTables(b, conn, list[..|list| - 1]), conn, list[|list| - 1])
  {
  }

  lemma AddTablesNone(b: Build, conn: string)
    ensures AddTables(b, conn, []) == b
  {
  }

  lemma {:induction false} AddTablesMatches(base: Store, conn: string, list: seq<Listed>)
    requires Consistent(base)
    ensures MapMatches(AddTables(Build(base, []), conn, list), list)
    decreases |list|
  {
    hide Consistent, BuildOk, MapMatches, AddTable, AddTables, KeepsFound;
    EmptyMatches(base, conn);
    if list != [] {
      var init := list[..|list| - 1];
      AddTablesOk(Build(base, []), conn, init);
      AddTablesMatches(base, conn, init);
      AddTableMatches(AddTables(Build(base, []), conn, init), conn, init, list[|list| - 1]);
      AddTablesStep(Build(base, []), conn, list);
      assert list == init + [list[|list| - 1]];
    } else {
      AddTablesNone(Build(base, []), conn);
    }
  }

  lemma MappedMeansListed(b: Build, list: seq<Listed>, name: string)
    requires MapMatches(b, list)
    ensures Mapped(b.tables, name) <==> TableListed(list, name)
  {
    if Mapped(b.tables, name) {
      var e :| e in b.tables && e.name == name;
      var i: nat :| Describes(b.store.columns, list, i, e);
      assert 0 <= i < |list|;
    }
    if TableListed(list, name) {
      var i :| 0 <= i < |list| && list[i].info.name == name;
      assert Covers(b.tables, list[i]);
    }
  }

  lemma ColumnMappedMeansListed(b: Build, list: seq<Listed>, table: string, column: string)
    requires MapMatches(b, list)
    ensures (table, column) in ColumnMapOf(b.tables, b.store.columns) <==> ColumnListed(list, table, column)
  {
    var rows := b.store.columns;
    ColumnMapExact(b.tables, rows, (table, column));
    if (table, column) in ColumnMapOf(b.tables, rows) {
      var id :| InMap(b.tables, rows, table, column, id);
      var e :| e in b.tables && e.name == table && ColumnNamed(rows, e.table, column, id);
      var i: nat :| Describes(rows, list, i, e);
      assert HasColumn(list[i].info, column);
    }
    if ColumnListed(list, table, column) {
      var i :| 0 <= i < |list| && Current(list, i) && list[i].info.name == table && HasColumn(list[i].info, column);
      assert Covers(b.tables, list[i]);
      var e :| e in b.tables && e.schema == list[i].schema && e.name == list[i].info.name;
      var k: nat :| Describes(rows, list, k, e);
      assert SameKey(list[i], list[k]) && SameKey(list[k], list[i]);
      assert i == k;
      var id :| ColumnNamed(rows, e.table, column, id);
      assert InMap(b.tables, rows, table, column, id);
    }
  }

  // ----- conservation ----------------------------------------------------------------------

  lemma {:induction false} NoManual(tables: seq<TableRow>, conn: string, rows: seq<RelationRow>)
    requires forall r :: r in rows ==> r.connection != conn || !r.manual
    ensures ManualRelations(tables, conn, rows) == []
    decreases |rows|
  {
    if rows != [] {
      NoManual(tables, conn, rows[..|rows| - 1]);
    }
  }

  lemma {:induction false} NoEntries(s: Store, conn: string, rows: seq<EntryRow>)
    requires forall e :: e in rows ==>
      FindColumn(s.columns, e.column).Some? && !TableIn(s, FindColumn(s.columns, e.column).value.table, conn)
    ensures DictionaryEntries(s.tables, s.columns, conn, rows) == []
    decreases |rows|
  {
    if rows != [] {
      NoEntries(s, conn, rows[..|rows| - 1]);
    }
  }

  /** After the rebuild, and before anything is restored, the connection has no curated rows. */
  /** The entries a wipe leaves are of other connections' columns. */
  lemma WipedEntriesAreOthers(s: Store, conn: string, e: EntryRow)
    requires Consistent(s) && e in Wipe(s, conn).entries
    ensures Wipe(s, conn).nextId == s.nextId && e.column < s.nextId
    ensures var found := FindColumn(Wipe(s, conn).columns, e.column);
      found.Some? && found.value.table < s.nextId &&
      FindTable(Wipe(s, conn).tables, found.value.table).Some? && !TableIn(Wipe(s, conn), found.value.table, conn)
  {
    var w := Wipe(s, conn);
    WipeConsistent(s, conn);
    assert w.nextId == s.nextId;
    hide Wipe;
    assert EntryOk(w, e);
    LookupSound(ColumnId, w.columns, e.column);
    var x := FindColumn(w.columns, e.column).value;
    assert ColumnOk(w, x);
    LookupSound(TableId, w.tables, x.table);
  }

  /** What the two passes keep of the wiped store: its entries, and rows with earlier ids. */
  ghost predicate GrownFrom(w: Store, s: Store, conn: string) {
    w.nextId <= s.nextId && s.entries == w.entries &&
    (forall k :: 0 <= k < w.nextId ==>
      FindTable(s.tables, k) == FindTable(w.tables, k) && FindColumn(s.columns, k) == FindColumn(w.columns, k)) &&
    forall r :: r in s.relations ==> r in w.relations || (r.connection == conn && !r.manual)
  }

  lemma LinkedGrew(w: Store, a: Build, b: Build, conn: string)
    requires KeepsFound(w, a.store) && OnlyLinked(a, b, conn)
    ensures GrownFrom(w, b.store, conn)
  {
    hide FindTable, FindColumn;
    forall r | r in b.store.relations ensures r in w.relations || (r.connection == conn && !r.manual) {
      var i :| 0 <= i < |b.store.relations| && b.store.relations[i] == r;
      if i < |w.relations| {
        assert b.store.relations[..|w.relations|][i] == w.relations[i];
      }
    }
  }

  lemma DescribedSame(a: Build, b: Build, list: seq<Listed>)
    requires MapMatches(a, list) && b.tables == a.tables && b.store.columns == a.store.columns
    ensures MapMatches(b, list)
  {
  }

  lemma RebuiltOk(w: Store, conn: Connection, first: seq<Listing>, second: seq<Listing>)
    requires Consistent(w)
    ensures var b := Rebuilt(w, conn, first, second);
      BuildOk(b, conn.id) && MapMatches(b, Flatten(conn, first)) && GrownFrom(w, b.store, conn.id)
  {
    var list, bare := Flatten(conn, first), Build(w, []);
    EmptyMatches(w, conn.id);
    hide Consistent, BuildOk, KeepsFound, MapMatches, GrownFrom, AddTables, LinkTables;
    AddTablesMatches(w, conn.id, list);
    AddTablesOk(bare, conn.id, list);
    var a := AddTables(bare, conn.id, list);
    LinkTablesOk(a, conn.id, Flatten(conn, second));
    var b := LinkTables(a, conn.id, Flatten(conn, second));
    LinkedGrew(w, a, b, conn.id);
    DescribedSame(a, b, list);
  }

  lemma NoManualLeft(w: Store, s: Store, conn: string)
    requires GrownFrom(w, s, conn) && forall r :: r in w.relations ==> r.connection != conn
    ensures RelationsOf(s, conn) == []
  {
    hide FindTable, FindColumn;
    NoManual(s.tables, conn, s.relations);
  }

  lemma NoEntryLeft(s: Store, s': Store, conn: string)
    requires Consistent(s) && GrownFrom(Wipe(s, conn), s', conn)
    ensures EntriesOf(s', conn) == []
  {
    forall e | e in s'.entries
      ensures FindColumn(s'.columns, e.column).Some? && !TableIn(s', FindColumn(s'.columns, e.column).value.table, conn)
    {
      WipedEntriesAreOthers(s, conn, e);
      hide Wipe, Consistent;
    }
    hide Wipe, Consistent, GrownFrom, FindTable, FindColumn, TableIn;
    NoEntries(s', conn, s'.entries);
  }

  lemma RebuiltIsBare(s: Store, conn: Connection, first: seq<Listing>, second: seq<Listing>)
    requires Consistent(s)
    ensures var b := Rebuilt(Wipe(s, conn.id), conn, first, second);
      BuildOk(b, conn.id) && MapMatches(b, Flatten(conn, first)) &&
      RelationsOf(b.store, conn.id) == [] && EntriesOf(b.store, conn.id) == []
  {
    hide Consistent, BuildOk, MapMatches, GrownFrom, Wipe, Rebuilt, RelationsOf, EntriesOf;
    var b := Rebuilt(Wipe(s, conn.id), conn, first, second);
    WipeConsistent(s, conn.id);
    RebuiltOk(Wipe(s, conn.id), conn, first, second);
    NoManualLeft(Wipe(s, conn.id), b.store, conn.id);
    NoEntryLeft(s, b.store, conn.id);
  }

  lemma ResolvableMeansSurvives(b: Build, list: seq<Listed>, relations: seq<NamedRelation>)
    requires MapMatches(b, list)
    ensures Filter(ResolvableRule(b.tables), relations) == Filter(RelationSurvives(list), relations)
  {
    forall r | r in relations ensures ResolvableRule(b.tables)(r) == RelationSurvives(list)(r) {
      MappedMeansListed(b, list, r.sourceTable);
      MappedMeansListed(b, list, r.targetTable);
    }
    hide MapMatches, ResolvableRule, RelationSurvives;
    FilterAgree(ResolvableRule(b.tables), RelationSurvives(list), relations);
  }

  lemma MappedMeansSurvives(b: Build, list: seq<Listed>, m: ColumnMap, entries: seq<NamedEntry>)
    requires MapMatches(b, list) && m == ColumnMapOf(b.tables, b.store.columns)
    ensures Filter(MappedRule(m), entries) == Filter(EntrySurvives(list), entries)
  {
    forall e | e in entries ensures MappedRule(m)(e) == EntrySurvives(list)(e) {
      ColumnMappedMeansListed(b, list, e.table, e.column);
    }
    hide MapMatches, MappedRule, EntrySurvives, ColumnMapOf;
    FilterAgree(MappedRule(m), EntrySurvives(list), entries);
  }

  lemma RestoredConserves(b: Build, conn: Connection, list: seq<Listed>, relations: seq<NamedRelation>,
                          entries: seq<NamedEntry>)
    requires BuildOk(b, conn.id) && MapMatches(b, list)
    requires RelationsOf(b.store, conn.id) == [] && EntriesOf(b.store, conn.id) == []
    ensures var s' := Restored(b, conn, relations, entries);
      Consistent(s') && RelationsOf(s', conn.id) == Filter(RelationSurvives(list), relations) &&
      EntriesOf(s', conn.id) == Filter(EntrySurvives(list), entries)
  {
    hide Consistent, MapOk, MapMatches, RestoreRelations, RestoreEntries, ColumnMapOf, Filter, ManualRelations,
      DictionaryEntries, ResolvableRule, RelationSurvives, MappedRule, EntrySurvives;
    RestoreRelationsExact(b, conn, relations);
    var linked := RestoreRelations(b, conn, relations);
    ResolvableMeansSurvives(b, list, relations);
    var m := ColumnMapOf(linked.tables, linked.store.columns);
    RestoreEntriesExact(linked.store, linked, conn.id, m, entries);
    MappedMeansSurvives(b, list, m, entries);
  }

  /** Re-introspection keeps, by name and in order, exactly the manual relationships whose two
      tables, and the dictionary entries whose column, the target still lists; and whatever the
      two passes saw, every reference in the store is intact afterwards. */
  lemma IntrospectionConserves(s: Store, conn: Connection, first: seq<Listing>, second: seq<Listing>)
    requires Consistent(s)
    ensures var s', list := Introspect(s, conn, first, second), Flatten(conn, first);
      Consistent(s') &&
      RelationsOf(s', conn.id) == Filter(RelationSurvives(list), RelationsOf(s, conn.id)) &&
      EntriesOf(s', conn.id) == Filter(EntrySurvives(list), ByOrder(EntriesOf(s, conn.id)))
  {
    hide Consistent, BuildOk, MapMatches, Rebuilt, Restored, Filter, RelationsOf, EntriesOf;
    RebuiltIsBare(s, conn, first, second);
    RestoredConserves(Rebuilt(Wipe(s, conn.id), conn, first, second), conn, Flatten(conn, first),
      RelationsOf(s, conn.id), ByOrder(EntriesOf(s, conn.id)));
  }

  /** The dictionary as a multiset: nothing lost but what the target dropped, nothing doubled. */
  lemma DictionaryConserved(s: Store, conn: Connection, first: seq<Listing>, second: seq<Listing>)
    requires Consistent(s)
    ensures var s', list := Introspect(s, conn, first, second), Flatten(conn, first);
      multiset(EntriesOf(s', conn.id)) == multiset(Filter(EntrySurvives(list), EntriesOf(s, conn.id)))
  {
    IntrospectionConserves(s, conn, first, second);
    var keep, entries := EntrySurvives(Flatten(conn, first)), EntriesOf(s, conn.id);
    FilterSort(SortOrder, keep, entries);
    SortBySorts(SortOrder, Filter(keep, entries));
  }
}
