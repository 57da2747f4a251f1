/** What is stored of the target after a re-introspection: its tables and columns as the first
    pass listed them, and the foreign keys of the second pass between tables the first listed. */
module SchemaCatalog {
  import opened Options
  import opened Sequences
  import opened SchemaStore
  import opened SchemaIntegrity

  // ----- tables with their columns ----------------------------------------------------------

  datatype CatalogTable = CatalogTable(schema: string, name: string, meta: TableMeta, columns: seq<ColumnInfo>)

  function ColumnsOf(table: Id): ColumnRow -> bool {
    (x: ColumnRow) => x.table == table
  }

  function InfoOf(x: ColumnRow): ColumnInfo {
    ColumnInfo(x.name, x.meta, x.ordinal)
  }

  function EntryFor(columns: seq<ColumnRow>, t: TableRow): CatalogTable {
    CatalogTable(t.schema, t.name, t.meta, Map(InfoOf, Filter(ColumnsOf(t.id), columns)))
  }

  /** The stored tables of one connection, each with its stored columns. */
  function Catalog(tables: seq<TableRow>, columns: seq<ColumnRow>, conn: string): seq<CatalogTable> {
    if tables == [] then []
    else
      var last := tables[|tables| - 1];
      Catalog(tables[..|tables| - 1], columns, conn) + (if last.connection == conn then [EntryFor(columns, last)] else [])
  }

  function AsListed(x: Listed): CatalogTable {
    CatalogTable(x.info.schema, x.info.name, x.info.meta, x.info.columns)
  }

  lemma CatalogSnoc(tables: seq<TableRow>, row: TableRow, columns: seq<ColumnRow>, conn: string)
    ensures Catalog(tables + [row], columns, conn) ==
      Catalog(tables, columns, conn) + (if row.connection == conn then [EntryFor(columns, row)] else [])
  {
    assert (tables + [row])[..|tables|] == tables;
  }

  lemma OtherEntryKept(columns: seq<ColumnRow>, rows: seq<ColumnRow>, t: TableRow)
    requires forall y :: y in rows ==> y.table != t.id
    ensures EntryFor(columns + rows, t) == EntryFor(columns, t)
  {
    FilterAppend(ColumnsOf(t.id), columns, rows);
    FilterNone(ColumnsOf(t.id), rows);
    assert Filter(ColumnsOf(t.id), columns) + [] == Filter(ColumnsOf(t.id), columns);
  }

  lemma {:induction false} CatalogKeeps(tables: seq<TableRow>, columns: seq<ColumnRow>, rows: seq<ColumnRow>, conn: string)
    requires forall t, y :: t in tables && y in rows ==> y.table != t.id
    ensures Catalog(tables, columns + rows, conn) == Catalog(tables, columns, conn)
  {
    if tables != [] {
      hide EntryFor;
      CatalogKeeps(tables[..|tables| - 1], columns, rows, conn);
      OtherEntryKept(columns, rows, tables[|tables| - 1]);
    }
  }

  lemma NewEntry(columns: seq<ColumnRow>, t: TableRow, firstId: Id, infos: seq<ColumnInfo>)
    requires forall y :: y in columns ==> y.table != t.id
    ensures EntryFor(columns + NewColumns(t.id, firstId, infos), t) == CatalogTable(t.schema, t.name, t.meta, infos)
  {
    var rows := NewColumns(t.id, firstId, infos);
    FilterAppend(ColumnsOf(t.id), columns, rows);
    FilterNone(ColumnsOf(t.id), columns);
    FilterAll(ColumnsOf(t.id), rows);
    assert [] + rows == rows;
    assert Map(InfoOf, rows) == infos;
  }

  lemma AddTableCatalog(b: Build, conn: string, x: Listed)
    requires BuildOk(b, conn)
    ensures var s, s' := b.store, AddTable(b, conn, x).store;
      Catalog(s'.tables, s'.columns, conn) == Catalog(s.tables, s.columns, conn) + [AsListed(x)]
  {
    var s, id := b.store, b.store.nextId;
    var row := TableRow(id, conn, x.info.schema, x.info.name, x.info.meta);
    var rows := NewColumns(id, id + 1, x.info.columns);
    forall y | y in s.columns ensures y.table != id {
      assert ColumnOk(s, y);
      LookupSound(TableId, s.tables, y.table);
    }
    NewEntry(s.columns, row, id + 1, x.info.columns);
    CatalogSnoc(s.tables, row, s.columns + rows, conn);
    CatalogKeeps(s.tables, s.columns, rows, conn);
  }

  lemma NothingListed()
    ensures Map(AsListed, []) == []
  {
  }

  lemma JoinSnoc(a: seq<CatalogTable>, b: seq<CatalogTable>, x: CatalogTable)
    ensures (a + b) + [x] == a + (b + [x])
  {
  }

  lemma {:induction false} AddTablesCatalog(b: Build, conn: string, list: seq<Listed>)
    requires BuildOk(b, conn)
    ensures var s, s' := b.store, AddTables(b, conn, list).store;
      Catalog(s'.tables, s'.columns, conn) == Catalog(s.tables, s.columns, conn) + Map(AsListed, list)
    decreases |list|
  {
    hide BuildOk, AddTable, AddTables, Catalog, Map, AsListed, KeepsFound;
    if list != [] {
      var init, x := list[..|list| - 1], list[|list| - 1];
      AddTablesOk(b, conn, init);
      AddTablesCatalog(b, conn, init);
      AddTableCatalog(AddTables(b, conn, init), conn, x);
      AddTablesStep(b, conn, list);
      ListedSnoc(list);
      JoinSnoc(Catalog(b.store.tables, b.store.columns, conn), Map(AsListed, init), AsListed(x));
    } else {
      AddTablesNone(b, conn);
      NothingListed();
    }
  }

  lemma ListedSnoc(list: seq<Listed>)
    requires list != []
    ensures Map(AsListed, list) == Map(AsListed, list[..|list| - 1]) + [AsListed(list[|list| - 1])]
  {
  }

  lemma {:induction false} CatalogEmpty(tables: seq<TableRow>, columns: seq<ColumnRow>, conn: string)
    requires forall t :: t in tables ==> t.connection != conn
    ensures Catalog(tables, columns, conn) == []
  {
    if tables != [] {
      CatalogEmpty(tables[..|tables| - 1], columns, conn);
    }
  }

  // ----- relationships found in the target -----------------------------------------------------

  /** The foreign key a row stands for, by table names. */
  function NameLink(tables: seq<TableRow>, conn: string, r: RelationRow): seq<NamedRelation> {
    var source, target := FindTable(tables, r.source), FindTable(tables, r.target);
    if r.connection == conn && !r.manual && source.Some? && target.Some?
    then [NamedRelation(r.constraint, r.kind, source.value.name, r.sourceColumn, target.value.name, r.targetColumn)]
    else []
  }

  function Links(tables: seq<TableRow>, conn: string, rows: seq<RelationRow>): seq<NamedRelation> {
    if rows == [] then [] else Links(tables, conn, rows[..|rows| - 1]) + NameLink(tables, conn, rows[|rows| - 1])
  }

  function LinksOf(s: Store, conn: string): seq<NamedRelation> {
    Links(s.tables, conn, s.relations)
  }

  lemma LinksSnoc(tables: seq<TableRow>, conn: string, rows: seq<RelationRow>, row: RelationRow)
    ensures Links(tables, conn, rows + [row]) == Links(tables, conn, rows) + NameLink(tables, conn, row)
  {
    assert (rows + [row])[..|rows|] == rows;
  }

  lemma {:induction false} NoLinks(tables: seq<TableRow>, conn: string, rows: seq<RelationRow>)
    requires forall r :: r in rows ==> r.connection != conn
    ensures Links(tables, conn, rows) == []
  {
    if rows != [] {
      NoLinks(tables, conn, rows[..|rows| - 1]);
    }
  }

  /** The first pass asked for this schema and found this table. */
  ghost predicate KeyListed(list: seq<Listed>, schema: string, name: string) {
    exists i :: 0 <= i < |list| && list[i].schema == schema && list[i].info.name == name
  }

  ghost function KeysBetween(list: seq<Listed>, source: string, fks: seq<ForeignKey>): seq<NamedRelation> {
    if fks == [] then []
    else
      var fk := fks[|fks| - 1];
      KeysBetween(list, source, fks[..|fks| - 1]) +
      (if KeyListed(list, fk.referredSchema, fk.referredTable)
       then [NamedRelation(fk.constraint, None, source, fk.column, fk.referredTable, fk.referredColumn)] else [])
  }

  /** The foreign keys of the second pass whose two tables the first pass listed. */
  ghost function ListedLinks(list: seq<Listed>, second: seq<Listed>): seq<NamedRelation> {
    if second == [] then []
    else ListedLinks(list, second[..|second| - 1]) + ListedLink(list, second[|second| - 1])
  }

  ghost function ListedLink(list: seq<Listed>, x: Listed): seq<NamedRelation> {
    if KeyListed(list, x.schema, x.info.name) then KeysBetween(list, x.info.name, x.info.foreignKeys) else []
  }

  lemma GetMeansListed(b: Build, list: seq<Listed>, schema: string, name: string)
    requires MapMatches(b, list)
    ensures Get(b.tables, schema, name).Some? <==> KeyListed(list, schema, name)
  {
    GetMembers(b.tables, schema, name);
    if Get(b.tables, schema, name).Some? {
      var e := MapEntry(schema, name, Get(b.tables, schema, name).value);
      assert e in b.tables;
      var i: nat :| Describes(b.store.columns, list, i, e);
      assert list[i].schema == schema && list[i].info.name == name;
    }
    if KeyListed(list, schema, name) {
      var i :| 0 <= i < |list| && list[i].schema == schema && list[i].info.name == name;
      assert Covers(b.tables, list[i]);
    }
  }

  lemma GetNamed(b: Build, conn: string, schema: string, name: string)
    requires MapOk(b, conn) && Get(b.tables, schema, name).Some?
    ensures var id := Get(b.tables, schema, name).value;
      TableIn(b.store, id, conn) && FindTable(b.store.tables, id).value.name == name
  {
    GetMembers(b.tables, schema, name);
    assert MapEntry(schema, name, Get(b.tables, schema, name).value) in b.tables;
  }

  /** The map and the tables it leads to stay what they are while relationships are added. */
  ghost predicate SameTables(a: Build, b: Build) {
    b.tables == a.tables && b.store.tables == a.store.tables && b.store.columns == a.store.columns
  }

  lemma AddForeignKeyLink(a: Build, b: Build, conn: string, list: seq<Listed>, source: Id, fk: ForeignKey)
    requires MapOk(a, conn) && MapMatches(a, list) && SameTables(a, b) && TableIn(a.store, source, conn)
    ensures var b' := AddForeignKey(b, conn, source, fk);
      SameTables(a, b') &&
      LinksOf(b'.store, conn) == LinksOf(b.store, conn) +
        (if KeyListed(list, fk.referredSchema, fk.referredTable)
         then [NamedRelation(fk.constraint, None, FindTable(a.store.tables, source).value.name, fk.column,
                 fk.referredTable, fk.referredColumn)]
         else [])
  {
    hide MapMatches, MapOk, Links;
    GetMeansListed(a, list, fk.referredSchema, fk.referredTable);
    var target := Get(a.tables, fk.referredSchema, fk.referredTable);
    if target.Some? {
      GetNamed(a, conn, fk.referredSchema, fk.referredTable);
      var row := RelationRow(b.store.nextId, conn, fk.constraint, false, None, source, fk.column, target.value, fk.referredColumn);
      LinksSnoc(b.store.tables, conn, b.store.relations, row);
    }
  }

  lemma {:induction false} AddForeignKeysLinks(a: Build, b: Build, conn: string, list: seq<Listed>, source: Id,
      fks: seq<ForeignKey>)
    requires MapOk(a, conn) && MapMatches(a, list) && SameTables(a, b) && TableIn(a.store, source, conn)
    ensures var b' := AddForeignKeys(b, conn, source, fks);
      SameTables(a, b') &&
      LinksOf(b'.store, conn) ==
        LinksOf(b.store, conn) + KeysBetween(list, FindTable(a.store.tables, source).value.name, fks)
    decreases |fks|
  {
    if fks != [] {
      hide MapMatches, MapOk, LinksOf, AddForeignKey, SameTables;
      var init := fks[..|fks| - 1];
      AddForeignKeysLinks(a, b, conn, list, source, init);
      AddForeignKeyLink(a, AddForeignKeys(b, conn, source, init), conn, list, source, fks[|fks| - 1]);
    }
  }

  lemma LinkTableLinks(a: Build, b: Build, conn: string, list: seq<Listed>, x: Listed)
    requires MapOk(a, conn) && MapMatches(a, list) && SameTables(a, b)
    ensures var b' := LinkTable(b, conn, x);
      SameTables(a, b') &&
      LinksOf(b'.store, conn) == LinksOf(b.store, conn) + ListedLink(list, x)
  {
    hide MapMatches, MapOk, LinksOf, AddForeignKeys, KeyListed, KeysBetween;
    GetMeansListed(a, list, x.schema, x.info.name);
    var source := Get(a.tables, x.schema, x.info.name);
    if source.Some? {
      GetNamed(a, conn, x.schema, x.info.name);
      AddForeignKeysLinks(a, b, conn, list, source.value, x.info.foreignKeys);
    }
  }

  lemma {:induction false} LinkTablesLinks(a: Build, conn: string, list: seq<Listed>, second: seq<Listed>)
    requires MapOk(a, conn) && MapMatches(a, list)
    ensures var b := LinkTables(a, conn, second);
      SameTables(a, b) && LinksOf(b.store, conn) == LinksOf(a.store, conn) + ListedLinks(list, second)
    decreases |second|
  {
    if second != [] {
      hide MapMatches, MapOk, LinksOf, LinkTable, SameTables, LinkTables, ListedLinks;
      var init, x := second[..|second| - 1], second[|second| - 1];
      LinkTablesLinks(a, conn, list, init);
      LinkTableLinks(a, LinkTables(a, conn, init), conn, list, x);
      LinkedSnoc(a, conn, list, second);
      Regroup(LinksOf(a.store, conn), ListedLinks(list, init), ListedLink(list, x));
    }
  }

  lemma LinkedSnoc(a: Build, conn: string, list: seq<Listed>, second: seq<Listed>)
    requires second != []
    ensures LinkTables(a, conn, second) == LinkTable(LinkTables(a, conn, second[..|second| - 1]), conn, second[|second| - 1])
    ensures ListedLinks(list, second) == ListedLinks(list, second[..|second| - 1]) + ListedLink(list, second[|second| - 1])
  {
    hide LinkTable;
  }

  lemma Regroup<T>(x: seq<T>, y: seq<T>, z: seq<T>)
    ensures (x + y) + z == x + (y + z)
  {
  }

  lemma {:induction false} RestoreKeepsLinks(b: Build, conn: Connection, rows: seq<NamedRelation>)
    ensures var b' := RestoreRelations(b, conn, rows);
      SameTables(b, b') && LinksOf(b'.store, conn.id) == LinksOf(b.store, conn.id)
    decreases |rows|
  {
    if rows != [] {
      RestoreKeepsLinks(b, conn, rows[..|rows| - 1]);
      var mid, now := RestoreRelations(b, conn, rows[..|rows| - 1]), RestoreRelations(b, conn, rows);
      if now != mid {
        var row := now.store.relations[|mid.store.relations|];
        LinksSnoc(mid.store.tables, conn.id, mid.store.relations, row);
      }
    }
  }

  lemma {:induction false} EntriesKeepTheRest(s: Store, m: ColumnMap, rows: seq<NamedEntry>)
    ensures var s' := RestoreEntries(s, m, rows);
      s'.tables == s.tables && s'.columns == s.columns && s'.relations == s.relations
    decreases |rows|
  {
    if rows != [] {
      EntriesKeepTheRest(s, m, rows[..|rows| - 1]);
    }
  }

  /** After a re-introspection the connection's tables and columns are exactly what the first pass
      listed, in its order, and its foreign keys, by name, exactly those of the second pass between
      tables that the first pass listed. */
  lemma CatalogIsListing(s: Store, conn: Connection, first: seq<Listing>, second: seq<Listing>)
    requires Consistent(s)
    ensures var s', list := Introspect(s, conn, first, second), Flatten(conn, first);
      Catalog(s'.tables, s'.columns, conn.id) == Map(AsListed, list) &&
      LinksOf(s', conn.id) == ListedLinks(list, Flatten(conn, second))
  {
    hide Flatten, Catalog, Links, ListedLinks, MapMatches, MapOk;
    var c, list, list2 := conn.id, Flatten(conn, first), Flatten(conn, second);
    var w := Wipe(s, c);
    WipeConsistent(s, c);
    CatalogEmpty(w.tables, w.columns, c);
    NoLinks(w.tables, c, w.relations);
    EmptyBuildOk(w, c);
    AddTablesCatalog(Build(w, []), c, list);
    AddTablesOk(Build(w, []), c, list);
    AddTablesMatches(w, c, list);
    var a := AddTables(Build(w, []), c, list);
    assert [] + Map(AsListed, list) == Map(AsListed, list);
    AddTablesKeepsLinks(Build(w, []), c, list);
    LinkTablesLinks(a, c, list, list2);
    assert [] + ListedLinks(list, list2) == ListedLinks(list, list2);
    var b := LinkTables(a, c, list2);
    RestoreKeepsLinks(b, conn, RelationsOf(s, c));
    var linked := RestoreRelations(b, conn, RelationsOf(s, c));
    EntriesKeepTheRest(linked.store, ColumnMapOf(linked.tables, linked.store.columns), ByOrder(EntriesOf(s, c)));
  }

  lemma EmptyBuildOk(w: Store, conn: string)
    requires Consistent(w)
    ensures BuildOk(Build(w, []), conn)
  {
  }

  lemma {:induction false} AddTablesKeepsLinks(b: Build, conn: string, list: seq<Listed>)
    requires forall r :: r in b.store.relations ==> r.connection != conn
    ensures LinksOf(AddTables(b, conn, list).store, conn) == []
    decreases |list|
  {
    RelationsStay(b, conn, list);
    NoLinks(AddTables(b, conn, list).store.tables, conn, b.store.relations);
  }

  lemma {:induction false} RelationsStay(b: Build, conn: string, list: seq<Listed>)
    ensures AddTables(b, conn, list).store.relations == b.store.relations
    decreases |list|
  {
    if list != [] {
      RelationsStay(b, conn, list[..|list| - 1]);
    }
  }
}
