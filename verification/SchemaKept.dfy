/** The curated rows before and after a re-introspection, field by field: which rows there are again, for
    what they stand, and that nothing of what a user entered is altered. */
module SchemaKept {
  import opened Options
  import opened Sequences
  import opened SchemaStore
  import opened SchemaIntegrity

  /** A stored table with this id has this name. */
  ghost predicate Called(s: Store, id: Id, name: string) {
    exists t :: t in s.tables && t.id == id && t.name == name
  }

  /** A stored column with this id has this name, and its table that name. */
  ghost predicate CalledColumn(s: Store, id: Id, table: string, column: string) {
    exists x :: x in s.columns && x.id == id && x.name == column && Called(s, x.table, table)
  }

  function ManualOf(conn: string): RelationRow -> bool {
    (r: RelationRow) => r.connection == conn && r.manual
  }

  ghost predicate EntryBelongs(s: Store, conn: string, e: EntryRow) {
    exists x, t :: x in s.columns && t in s.tables && x.id == e.column && t.id == x.table && t.connection == conn
  }

  ghost function EntryOfConnection(s: Store, conn: string): EntryRow -> bool {
    (e: EntryRow) => EntryBelongs(s, conn, e)
  }

  ghost predicate SaysRelation(s: Store, r: RelationRow, n: NamedRelation) {
    n.constraint == r.constraint && n.kind == r.kind && n.sourceColumn == r.sourceColumn &&
    n.targetColumn == r.targetColumn && Called(s, r.source, n.sourceTable) && Called(s, r.target, n.targetTable)
  }

  ghost function RelationSaid(s: Store): (RelationRow, NamedRelation) -> bool {
    (r: RelationRow, n: NamedRelation) => SaysRelation(s, r, n)
  }

  ghost predicate SaysEntry(s: Store, e: EntryRow, n: NamedEntry) {
    n.raw == e.raw && n.display == e.display && n.description == e.description && n.order == e.order &&
    CalledColumn(s, e.column, n.table, n.column)
  }

  ghost function EntrySaid(s: Store): (EntryRow, NamedEntry) -> bool {
    (e: EntryRow, n: NamedEntry) => SaysEntry(s, e, n)
  }

  lemma CalledOnce(s: Store, id: Id, a: string, b: string)
    requires DistinctBy(TableId, s.tables) && Called(s, id, a) && Called(s, id, b)
    ensures a == b
  {
    var t :| t in s.tables && t.id == id && t.name == a;
    var u :| u in s.tables && u.id == id && u.name == b;
    LookupDistinct(TableId, s.tables, t);
    LookupDistinct(TableId, s.tables, u);
  }

  lemma CalledColumnOnce(s: Store, id: Id, a: string, b: string, x: string, y: string)
    requires DistinctBy(TableId, s.tables) && DistinctBy(ColumnId, s.columns)
    requires CalledColumn(s, id, a, x) && CalledColumn(s, id, b, y)
    ensures a == b && x == y
  {
    var t :| t in s.columns && t.id == id && t.name == x && Called(s, t.table, a);
    var u :| u in s.columns && u.id == id && u.name == y && Called(s, u.table, b);
    LookupDistinct(ColumnId, s.columns, t);
    LookupDistinct(ColumnId, s.columns, u);
    CalledOnce(s, t.table, a, b);
  }

  // ----- a snapshot is its rows ---------------------------------------------------------------------

  lemma OneRelation(s: Store, conn: string, r: RelationRow)
    requires RelationOk(s, r)
    ensures var n := NameRelation(s.tables, conn, r);
      if ManualOf(conn)(r) then |n| == 1 && SaysRelation(s, r, n[0]) else n == []
  {
    LookupSound(TableId, s.tables, r.source);
    LookupSound(TableId, s.tables, r.target);
  }

  lemma {:induction false} RelationsSay(s: Store, conn: string, rows: seq<RelationRow>)
    requires forall r :: r in rows ==> RelationOk(s, r)
    ensures InStep(RelationSaid(s), Filter(ManualOf(conn), rows), ManualRelations(s.tables, conn, rows))
    decreases |rows|
  {
    hide RelationOk, NameRelation, SaysRelation;
    if rows != [] {
      var n := |rows| - 1;
      RelationsSay(s, conn, rows[..n]);
      OneRelation(s, conn, rows[n]);
      var before, name := ManualRelations(s.tables, conn, rows[..n]), NameRelation(s.tables, conn, rows[n]);
      if ManualOf(conn)(rows[n]) {
        InStepSnoc(RelationSaid(s), Filter(ManualOf(conn), rows[..n]), before, rows[n], name[0]);
        assert name == [name[0]];
      } else {
        assert before + [] == before;
      }
    }
  }

  /** The snapshot of manual relationships is the connection's manual rows, in order, each with its own fields
      and the names of its two tables. */
  lemma RelationsAreRows(s: Store, conn: string)
    requires Consistent(s)
    ensures InStep(RelationSaid(s), Filter(ManualOf(conn), s.relations), RelationsOf(s, conn))
  {
    RelationsSay(s, conn, s.relations);
  }

  lemma OneEntry(s: Store, conn: string, e: EntryRow)
    requires Consistent(s) && EntryOk(s, e)
    ensures var n := NameEntry(s.tables, s.columns, conn, e);
      if EntryBelongs(s, conn, e) then |n| == 1 && SaysEntry(s, e, n[0]) else n == []
  {
    LookupSound(ColumnId, s.columns, e.column);
    var x := FindColumn(s.columns, e.column).value;
    LookupSound(TableId, s.tables, x.table);
    if EntryBelongs(s, conn, e) {
      var y, t :| y in s.columns && t in s.tables && y.id == e.column && t.id == y.table && t.connection == conn;
      LookupDistinct(ColumnId, s.columns, y);
      LookupDistinct(TableId, s.tables, t);
    }
  }

  lemma {:induction false} EntriesSay(s: Store, conn: string, rows: seq<EntryRow>)
    requires Consistent(s) && forall e :: e in rows ==> EntryOk(s, e)
    ensures InStep(EntrySaid(s), Filter(EntryOfConnection(s, conn), rows), DictionaryEntries(s.tables, s.columns, conn, rows))
    decreases |rows|
  {
    hide Consistent, EntryOk, NameEntry, SaysEntry, EntryBelongs;
    if rows != [] {
      var n := |rows| - 1;
      EntriesSay(s, conn, rows[..n]);
      OneEntry(s, conn, rows[n]);
      var before, name := DictionaryEntries(s.tables, s.columns, conn, rows[..n]), NameEntry(s.tables, s.columns, conn, rows[n]);
      if EntryOfConnection(s, conn)(rows[n]) {
        InStepSnoc(EntrySaid(s), Filter(EntryOfConnection(s, conn), rows[..n]), before, rows[n], name[0]);
        assert name == [name[0]];
      } else {
        assert before + [] == before;
      }
    }
  }

  /** So is that of dictionary entries. */
  lemma EntriesAreRows(s: Store, conn: string)
    requires Consistent(s)
    ensures InStep(EntrySaid(s), Filter(EntryOfConnection(s, conn), s.entries), EntriesOf(s, conn))
  {
    EntriesSay(s, conn, s.entries);
  }

  // ----- the rows before and after ------------------------------------------------------------------

  /** Both ends are called what the target still lists. */
  ghost predicate EndsListed(s: Store, list: seq<Listed>, r: RelationRow) {
    exists a, b :: Called(s, r.source, a) && Called(s, r.target, b) && TableListed(list, a) && TableListed(list, b)
  }

  ghost function StillListed(s: Store, list: seq<Listed>): RelationRow -> bool {
    (r: RelationRow) => EndsListed(s, list, r)
  }

  /** The two rows differ in ids at most: the fields are the same, and so are the names of the tables. */
  ghost predicate SameRelation(s: Store, r: RelationRow, s': Store, r': RelationRow) {
    r'.constraint == r.constraint && r'.kind == r.kind && r'.sourceColumn == r.sourceColumn &&
    r'.targetColumn == r.targetColumn &&
    exists a, b :: Called(s, r.source, a) && Called(s', r'.source, a) && Called(s, r.target, b) && Called(s', r'.target, b)
  }

  lemma EndsListedSaid(s: Store, list: seq<Listed>, r: RelationRow, n: NamedRelation)
    requires Consistent(s) && SaysRelation(s, r, n)
    ensures EndsListed(s, list, r) <==> RelationSurvives(list)(n)
  {
    hide Called, TableListed;
    if a, b :| Called(s, r.source, a) && Called(s, r.target, b) && TableListed(list, a) && TableListed(list, b) {
      CalledOnce(s, r.source, a, n.sourceTable);
      CalledOnce(s, r.target, b, n.targetTable);
    }
  }

  /** After a re-introspection the connection's manual relationships are, in order, exactly those before
      whose two tables are listed again, unaltered: one row for each, with the same fields, between tables
      of the same names. */
  lemma ManualRowsKept(s: Store, conn: Connection, first: seq<Listing>, second: seq<Listing>)
    requires Consistent(s)
    ensures var s' := Introspect(s, conn, first, second);
      var kept := Filter(StillListed(s, Flatten(conn, first)), Filter(ManualOf(conn.id), s.relations));
      var rows := Filter(ManualOf(conn.id), s'.relations);
      |rows| == |kept| && forall i :: 0 <= i < |rows| ==> SameRelation(s, kept[i], s', rows[i])
  {
    hide Introspect, Consistent, Called, TableListed, RelationsOf, SaysRelation, EndsListed, SameRelation, ManualOf, Filter;
    var s', list := Introspect(s, conn, first, second), Flatten(conn, first);
    IntrospectionConserves(s, conn, first, second);
    RelationsAreRows(s, conn.id);
    RelationsAreRows(s', conn.id);
    var before, names := Filter(ManualOf(conn.id), s.relations), RelationsOf(s, conn.id);
    forall i | 0 <= i < |before| ensures StillListed(s, list)(before[i]) == RelationSurvives(list)(names[i]) {
      assert RelationSaid(s)(before[i], names[i]);
      EndsListedSaid(s, list, before[i], names[i]);
    }
    FilterInStep(RelationSaid(s), StillListed(s, list), RelationSurvives(list), before, names);
    var kept, rows := Filter(StillListed(s, list), before), Filter(ManualOf(conn.id), s'.relations);
    var said := RelationsOf(s', conn.id);
    forall i | 0 <= i < |rows| ensures SameRelation(s, kept[i], s', rows[i]) {
      assert RelationSaid(s)(kept[i], said[i]) && RelationSaid(s')(rows[i], said[i]);
      SameSaid(s, kept[i], s', rows[i], said[i]);
    }
  }

  lemma SameSaid(s: Store, r: RelationRow, s': Store, r': RelationRow, n: NamedRelation)
    requires SaysRelation(s, r, n) && SaysRelation(s', r', n)
    ensures SameRelation(s, r, s', r')
  {
  }

  /** The entry's column is listed again. */
  ghost predicate EntryListed(s: Store, list: seq<Listed>, e: EntryRow) {
    exists a, x :: CalledColumn(s, e.column, a, x) && ColumnListed(list, a, x)
  }

  ghost function StillHasColumn(s: Store, list: seq<Listed>): EntryRow -> bool {
    (e: EntryRow) => EntryListed(s, list, e)
  }

  ghost predicate SameEntry(s: Store, e: EntryRow, s': Store, e': EntryRow) {
    e'.raw == e.raw && e'.display == e.display && e'.description == e.description && e'.order == e.order &&
    exists a, x :: CalledColumn(s, e.column, a, x) && CalledColumn(s', e'.column, a, x)
  }

  function EntryOrder(e: EntryRow): int {
    e.order
  }

  lemma EntryListedSaid(s: Store, list: seq<Listed>, e: EntryRow, n: NamedEntry)
    requires Consistent(s) && SaysEntry(s, e, n)
    ensures EntryListed(s, list, e) <==> EntrySurvives(list)(n)
  {
    hide CalledColumn, ColumnListed;
    if a, x :| CalledColumn(s, e.column, a, x) && ColumnListed(list, a, x) {
      CalledColumnOnce(s, e.column, a, n.table, x, n.column);
    }
  }

  lemma SameEntrySaid(s: Store, e: EntryRow, s': Store, e': EntryRow, n: NamedEntry)
    requires SaysEntry(s, e, n) && SaysEntry(s', e', n)
    ensures SameEntry(s, e, s', e')
  {
  }

  /** The snapshot in its order is the connection's entries in theirs. */
  lemma SortedSnapshot(s: Store, conn: string)
    requires Consistent(s)
    ensures InStep(EntrySaid(s), SortBy(EntryOrder, Filter(EntryOfConnection(s, conn), s.entries)), ByOrder(EntriesOf(s, conn)))
  {
    EntriesAreRows(s, conn);
    hide EntriesOf, Filter, SortBy, Consistent;
    var rows, names := Filter(EntryOfConnection(s, conn), s.entries), EntriesOf(s, conn);
    forall i | 0 <= i < |rows| ensures EntryOrder(rows[i]) == SortOrder(names[i]) {
      assert EntrySaid(s)(rows[i], names[i]);
    }
    SortInStep(EntrySaid(s), EntryOrder, SortOrder, rows, names);
  }

  /** And its dictionary entries are, in their sort order, exactly those before whose column is listed
      again, unaltered. */
  lemma EntryRowsKept(s: Store, conn: Connection, first: seq<Listing>, second: seq<Listing>)
    requires Consistent(s)
    ensures var s' := Introspect(s, conn, first, second);
      var sorted := SortBy(EntryOrder, Filter(EntryOfConnection(s, conn.id), s.entries));
      var kept := Filter(StillHasColumn(s, Flatten(conn, first)), sorted);
      var rows := Filter(EntryOfConnection(s', conn.id), s'.entries);
      |rows| == |kept| && forall i :: 0 <= i < |rows| ==> SameEntry(s, kept[i], s', rows[i])
  {
    hide Introspect, Consistent, EntriesOf, SaysEntry, EntryListed, SameEntry, EntryBelongs, Filter, SortBy, ByOrder, ColumnListed;
    var s', list := Introspect(s, conn, first, second), Flatten(conn, first);
    IntrospectionConserves(s, conn, first, second);
    SortedSnapshot(s, conn.id);
    EntriesAreRows(s', conn.id);
    var sorted, names := SortBy(EntryOrder, Filter(EntryOfConnection(s, conn.id), s.entries)), ByOrder(EntriesOf(s, conn.id));
    forall i | 0 <= i < |sorted| ensures StillHasColumn(s, list)(sorted[i]) == EntrySurvives(list)(names[i]) {
      assert EntrySaid(s)(sorted[i], names[i]);
      EntryListedSaid(s, list, sorted[i], names[i]);
    }
    FilterInStep(EntrySaid(s), StillHasColumn(s, list), EntrySurvives(list), sorted, names);
    var kept, rows := Filter(StillHasColumn(s, list), sorted), Filter(EntryOfConnection(s', conn.id), s'.entries);
    var said := EntriesOf(s', conn.id);
    forall i | 0 <= i < |rows| ensures SameEntry(s, kept[i], s', rows[i]) {
      assert EntrySaid(s)(kept[i], said[i]) && EntrySaid(s')(rows[i], said[i]);
      SameEntrySaid(s, kept[i], s', rows[i], said[i]);
    }
  }
}
