/** Schema re-introspection: introspect_and_cache of backend/app/services/schema_service.py.

    The four metadata tables are sequences of rows in insertion order.  Row ids come from a
    counter, standing for UUIDs that are never used twice.  The target database is what its
    two introspection passes return; the two may disagree. */
module SchemaStore {
  import opened Options
  import opened Sequences
  import PyText

  type Id = nat

  datatype TableMeta = TableMeta(kind: string, comment: Option<string>, rowEstimate: Option<int>)

  datatype ColumnMeta = ColumnMeta(
    dataType: string, nullable: bool, primaryKey: bool, defaultValue: Option<string>, comment: Option<string>)

  datatype TableRow = TableRow(id: Id, connection: string, schema: string, name: string, meta: TableMeta)

  datatype ColumnRow = ColumnRow(id: Id, table: Id, name: string, meta: ColumnMeta, ordinal: int)

  datatype RelationRow = RelationRow(
    id: Id, connection: string, constraint: Option<string>, manual: bool, kind: Option<string>,
    source: Id, sourceColumn: string, target: Id, targetColumn: string)

  datatype EntryRow = EntryRow(
    id: Id, column: Id, raw: string, display: string, description: Option<string>, order: int)

  datatype Store = Store(
    tables: seq<TableRow>, columns: seq<ColumnRow>, relations: seq<RelationRow>, entries: seq<EntryRow>, nextId: Id)

  datatype ForeignKey = ForeignKey(
    constraint: Option<string>, column: string, referredSchema: string, referredTable: string, referredColumn: string)

  datatype ColumnInfo = ColumnInfo(name: string, meta: ColumnMeta, ordinal: int)

  datatype TableInfo = TableInfo(
    schema: string, name: string, meta: TableMeta, columns: seq<ColumnInfo>, foreignKeys: seq<ForeignKey>)

  datatype Connection = Connection(id: string, sqlServer: bool, allowed: seq<string>)

  /** One pass over the target: what introspect_tables returned for each schema, in order. */
  datatype Listing = Listing(schema: string, tables: seq<TableInfo>)

  // ----- the SQL Server filters -------------------------------------------------

  function LowerChar(ch: char): char {
    if 'A' <= ch <= 'Z' then ((ch as int) + 32) as char else ch
  }

  function Lower(s: string): string {
    Map(LowerChar, s)
  }

  predicate Contains(s: string, part: string) {
    exists i :: 0 <= i <= |s| && PyText.OccursAt(s, part, i)
  }

  predicate InDbo(t: TableInfo) {
    Lower(t.schema) == "dbo"
  }

  predicate NotAutoExcluded(t: TableInfo) {
    !Contains(Lower(t.name), "backup") && !Contains(Lower(t.name), "bakup")
  }

  predicate Whitelisted(allowed: seq<string>, t: TableInfo) {
    exists i :: 0 <= i < |allowed| && Lower(allowed[i]) == Lower(t.schema + "." + t.name)
  }

  function WhitelistRule(allowed: seq<string>): TableInfo -> bool {
    t => Whitelisted(allowed, t)
  }

  function ApplySqlServerFilters(tables: seq<TableInfo>, allowed: seq<string>): seq<TableInfo> {
    var kept := Filter(NotAutoExcluded, Filter(InDbo, tables));
    if allowed == [] then kept else Filter(WhitelistRule(allowed), kept)
  }

  predicate Cacheable(conn: Connection, t: TableInfo) {
    conn.sqlServer ==> InDbo(t) && NotAutoExcluded(t) && (conn.allowed != [] ==> Whitelisted(conn.allowed, t))
  }

  function CacheableRule(conn: Connection): TableInfo -> bool {
    t => Cacheable(conn, t)
  }

  function Kept(conn: Connection, tables: seq<TableInfo>): seq<TableInfo> {
    if conn.sqlServer then ApplySqlServerFilters(tables, conn.allowed) else tables
  }

  /** The filters keep exactly the tables that pass every rule, in the order read. */
  lemma KeptExact(conn: Connection, tables: seq<TableInfo>)
    ensures Kept(conn, tables) == Filter(CacheableRule(conn), tables)
    ensures forall t :: t in Kept(conn, tables) <==> t in tables && Cacheable(conn, t)
  {
    var all := CacheableRule(conn);
    if conn.sqlServer {
      var both := (t: TableInfo) => InDbo(t) && NotAutoExcluded(t);
      FilterFilter(NotAutoExcluded, InDbo, both, tables);
      if conn.allowed != [] {
        FilterFilter(WhitelistRule(conn.allowed), both, all, tables);
      } else {
        FilterAgree(both, all, tables);
      }
    } else {
      FilterAll(all, tables);
    }
    forall t ensures t in Kept(conn, tables) <==> t in tables && Cacheable(conn, t) {
      FilterMember(all, tables, t);
    }
  }

  // ----- joins ----------------------------------------------------------------------

  function TableId(t: TableRow): Id {
    t.id
  }

  function ColumnId(x: ColumnRow): Id {
    x.id
  }

  function FindTable(tables: seq<TableRow>, id: Id): Option<TableRow> {
    Lookup(TableId, tables, id)
  }

  function FindColumn(columns: seq<ColumnRow>, id: Id): Option<ColumnRow> {
    Lookup(ColumnId, columns, id)
  }

  datatype NamedRelation = NamedRelation(
    constraint: Option<string>, kind: Option<string>,
    sourceTable: string, sourceColumn: string, targetTable: string, targetColumn: string)

  datatype NamedEntry = NamedEntry(
    table: string, column: string, raw: string, display: string, description: Option<string>, order: int)

  /** The manual relationship a row stands for, by table names. */
  function NameRelation(tables: seq<TableRow>, conn: string, r: RelationRow): seq<NamedRelation> {
    var source, target := FindTable(tables, r.source), FindTable(tables, r.target);
    if r.connection == conn && r.manual && source.Some? && target.Some?
    then [NamedRelation(r.constraint, r.kind, source.value.name, r.sourceColumn, target.value.name, r.targetColumn)]
    else []
  }

  function ManualRelations(tables: seq<TableRow>, conn: string, rows: seq<RelationRow>): seq<NamedRelation> {
    if rows == [] then []
    else ManualRelations(tables, conn, rows[..|rows| - 1]) + NameRelation(tables, conn, rows[|rows| - 1])
  }

  /** The dictionary entry a row stands for, by table and column name. */
  function NameEntry(tables: seq<TableRow>, columns: seq<ColumnRow>, conn: string, e: EntryRow): seq<NamedEntry> {
    var column := FindColumn(columns, e.column);
    if column.None? then []
    else
      var table := FindTable(tables, column.value.table);
      if table.Some? && table.value.connection == conn
      then [NamedEntry(table.value.name, column.value.name, e.raw, e.display, e.description, e.order)]
      else []
  }

  function DictionaryEntries(tables: seq<TableRow>, columns: seq<ColumnRow>, conn: string,
      rows: seq<EntryRow>): seq<NamedEntry> {
    if rows == [] then []
    else
      var before := DictionaryEntries(tables, columns, conn, rows[..|rows| - 1]);
      before + NameEntry(tables, columns, conn, rows[|rows| - 1])
  }

  function RelationsOf(s: Store, conn: string): seq<NamedRelation> {
    ManualRelations(s.tables, conn, s.relations)
  }

  function EntriesOf(s: Store, conn: string): seq<NamedEntry> {
    DictionaryEntries(s.tables, s.columns, conn, s.entries)
  }

  function SortOrder(e: NamedEntry): int {
    e.order
  }

  function ByOrder(entries: seq<NamedEntry>): seq<NamedEntry> {
    SortBy(SortOrder, entries)
  }

  // ----- DELETE FROM cached_tables WHERE connection_id = …, with its cascades --------------

  predicate Owned(s: Store, conn: string, table: Id) {
    exists i :: 0 <= i < |s.tables| && s.tables[i].id == table && s.tables[i].connection == conn
  }

  predicate ColumnDropped(s: Store, conn: string, column: Id) {
    exists i :: 0 <= i < |s.columns| && s.columns[i].id == column && Owned(s, conn, s.columns[i].table)
  }

  function KeepTable(conn: string): TableRow -> bool {
    (t: TableRow) => t.connection != conn
  }

  function KeepColumn(s: Store, conn: string): ColumnRow -> bool {
    (x: ColumnRow) => !Owned(s, conn, x.table)
  }

  function KeepRelation(s: Store, conn: string): RelationRow -> bool {
    (r: RelationRow) => !Owned(s, conn, r.source) && !Owned(s, conn, r.target)
  }

  function KeepEntry(s: Store, conn: string): EntryRow -> bool {
    (e: EntryRow) => !ColumnDropped(s, conn, e.column)
  }

  function Wipe(s: Store, conn: string): Store {
    Store(
      Filter(KeepTable(conn), s.tables),
      Filter(KeepColumn(s, conn), s.columns),
      Filter(KeepRelation(s, conn), s.relations),
      Filter(KeepEntry(s, conn), s.entries),
      s.nextId)
  }

  // ----- rebuilding -----------------------------------------------------------------------

  /** table_map: (schema, table name) to the new row's id, in the order of first insertion. */
  datatype MapEntry = MapEntry(schema: string, name: string, table: Id)

  /** Assignment keeps the place of a key that is already there. */
  function Put(m: seq<MapEntry>, e: MapEntry): seq<MapEntry> {
    if m == [] then [e]
    else if m[0].schema == e.schema && m[0].name == e.name then [e] + m[1..]
    else [m[0]] + Put(m[1..], e)
  }

  function Get(m: seq<MapEntry>, schema: string, name: string): Option<Id> {
    if m == [] then None
    else
      var last := m[|m| - 1];
      if last.schema == schema && last.name == name then Some(last.table) else Get(m[..|m| - 1], schema, name)
  }

  /** The first entry with that table name, whatever its schema. */
  function GetByName(m: seq<MapEntry>, name: string): Option<Id> {
    if m == [] then None
    else if m[0].name == name then Some(m[0].table)
    else GetByName(m[1..], name)
  }

  datatype Build = Build(store: Store, tables: seq<MapEntry>)

  datatype Listed = Listed(schema: string, info: TableInfo)

  function NewColumns(table: Id, firstId: Id, columns: seq<ColumnInfo>): (rows: seq<ColumnRow>)
    ensures |rows| == |columns|
  {
    seq(|columns|, i requires 0 <= i < |columns| =>
      ColumnRow(firstId + i, table, columns[i].name, columns[i].meta, columns[i].ordinal))
  }

  function AddTable(b: Build, conn: string, x: Listed): Build {
    var id := b.store.nextId;
    Build(
      b.store.(
        tables := b.store.tables + [TableRow(id, conn, x.info.schema, x.info.name, x.info.meta)],
        columns := b.store.columns + NewColumns(id, id + 1, x.info.columns),
        nextId := id + 1 + |x.info.columns|),
      Put(b.tables, MapEntry(x.schema, x.info.name, id)))
  }

  function AddTables(b: Build, conn: string, list: seq<Listed>): Build {
    if list == [] then b else AddTable(AddTables(b, conn, list[..|list| - 1]), conn, list[|list| - 1])
  }

  function AddRelation(s: Store, row: RelationRow): Store {
    s.(relations := s.relations + [row.(id := s.nextId)], nextId := s.nextId + 1)
  }

  function AddForeignKey(b: Build, conn: string, source: Id, fk: ForeignKey): Build {
    var target := Get(b.tables, fk.referredSchema, fk.referredTable);
    if target.None? then b
    else b.(store := AddRelation(b.store,
      RelationRow(0, conn, fk.constraint, false, None, source, fk.column, target.value, fk.referredColumn)))
  }

  function AddForeignKeys(b: Build, conn: string, source: Id, fks: seq<ForeignKey>): Build {
    if fks == [] then b
    else AddForeignKey(AddForeignKeys(b, conn, source, fks[..|fks| - 1]), conn, source, fks[|fks| - 1])
  }

  function LinkTable(b: Build, conn: string, x: Listed): Build {
    var source := Get(b.tables, x.schema, x.info.name);
    if source.None? then b else AddForeignKeys(b, conn, source.value, x.info.foreignKeys)
  }

  function LinkTables(b: Build, conn: string, list: seq<Listed>): Build {
    if list == [] then b else LinkTable(LinkTables(b, conn, list[..|list| - 1]), conn, list[|list| - 1])
  }

  function Tagged(schema: string, tables: seq<TableInfo>): seq<Listed> {
    Map((t: TableInfo) => Listed(schema, t), tables)
  }

  /** The tables a pass caches, each with the schema name it was asked for. */
  function Flatten(conn: Connection, pass: seq<Listing>): seq<Listed> {
    if pass == [] then []
    else
      var last := pass[|pass| - 1];
      Flatten(conn, pass[..|pass| - 1]) + Tagged(last.schema, Kept(conn, last.tables))
  }

  // ----- restoring -----------------------------------------------------------------------------

  function ResolveTable(conn: Connection, m: seq<MapEntry>, name: string): Option<Id> {
    var direct := Get(m, if conn.sqlServer then "dbo" else "", name);
    if direct.Some? then direct else GetByName(m, name)
  }

  function RestoreRelation(b: Build, conn: Connection, r: NamedRelation): Build {
    var source, target := ResolveTable(conn, b.tables, r.sourceTable), ResolveTable(conn, b.tables, r.targetTable);
    if source.Some? && target.Some? then
      b.(store := AddRelation(b.store,
        RelationRow(0, conn.id, r.constraint, true, r.kind, source.value, r.sourceColumn, target.value, r.targetColumn)))
    else b
  }

  function RestoreRelations(b: Build, conn: Connection, rows: seq<NamedRelation>): Build {
    if rows == [] then b
    else RestoreRelation(RestoreRelations(b, conn, rows[..|rows| - 1]), conn, rows[|rows| - 1])
  }

  type ColumnMap = map<(string, string), Id>

  function PutColumns(m: ColumnMap, name: string, table: Id, rows: seq<ColumnRow>): ColumnMap {
    if rows == [] then m
    else
      var before, last := PutColumns(m, name, table, rows[..|rows| - 1]), rows[|rows| - 1];
      if last.table == table then before[(name, last.name) := last.id] else before
  }

  /** col_map: the columns of the tables in table_map, a later one hiding an earlier namesake. */
  function ColumnMapOf(m: seq<MapEntry>, rows: seq<ColumnRow>): ColumnMap {
    if m == [] then map[]
    else PutColumns(ColumnMapOf(m[..|m| - 1], rows), m[|m| - 1].name, m[|m| - 1].table, rows)
  }

  function RestoreEntry(s: Store, m: ColumnMap, e: NamedEntry): Store {
    if (e.table, e.column) in m then
      s.(entries := s.entries + [EntryRow(s.nextId, m[(e.table, e.column)], e.raw, e.display, e.description, e.order)],
         nextId := s.nextId + 1)
    else s
  }

  function RestoreEntries(s: Store, m: ColumnMap, rows: seq<NamedEntry>): Store {
    if rows == [] then s else RestoreEntry(RestoreEntries(s, m, rows[..|rows| - 1]), m, rows[|rows| - 1])
  }

  // ----- the whole operation --------------------------------------------------------------------

  datatype Counts = Counts(tables: nat, columns: nat, relationships: nat)

  function TotalColumns(list: seq<Listed>): nat {
    if list == [] then 0 else TotalColumns(list[..|list| - 1]) + |list[|list| - 1].info.columns|
  }

  function ResolvedKeys(m: seq<MapEntry>, fks: seq<ForeignKey>): nat {
    if fks == [] then 0
    else
      var fk := fks[|fks| - 1];
      ResolvedKeys(m, fks[..|fks| - 1]) + (if Get(m, fk.referredSchema, fk.referredTable).Some? then 1 else 0)
  }

  function TotalLinks(m: seq<MapEntry>, list: seq<Listed>): nat {
    if list == [] then 0
    else
      var x := list[|list| - 1];
      TotalLinks(m, list[..|list| - 1]) +
      (if Get(m, x.schema, x.info.name).Some? then ResolvedKeys(m, x.info.foreignKeys) else 0)
  }

  /** What introspect_and_cache returns. */
  function CountsOf(s: Store, conn: Connection, first: seq<Listing>, second: seq<Listing>): Counts {
    var list := Flatten(conn, first);
    Counts(|list|, TotalColumns(list),
      TotalLinks(AddTables(Build(Wipe(s, conn.id), []), conn.id, list).tables, Flatten(conn, second)))
  }

  function Rebuilt(base: Store, conn: Connection, first: seq<Listing>, second: seq<Listing>): Build {
    LinkTables(AddTables(Build(base, []), conn.id, Flatten(conn, first)), conn.id, Flatten(conn, second))
  }

  function Restored(b: Build, conn: Connection, relations: seq<NamedRelation>, entries: seq<NamedEntry>): Store {
    var linked := RestoreRelations(b, conn, relations);
    RestoreEntries(linked.store, ColumnMapOf(linked.tables, linked.store.columns), entries)
  }

  function Introspect(s: Store, conn: Connection, first: seq<Listing>, second: seq<Listing>): Store {
    Restored(Rebuilt(Wipe(s, conn.id), conn, first, second), conn,
      RelationsOf(s, conn.id), ByOrder(EntriesOf(s, conn.id)))
  }
}
