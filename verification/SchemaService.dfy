/** introspect_and_cache as the service runs it: loops over rows that are added and deleted in
    place, proved to have exactly the effect `SchemaStore.Introspect` describes. */
module SchemaService {
  import opened Options
  import opened Sequences
  import opened SchemaStore

  lemma FlattenSnoc(conn: Connection, pass: seq<Listing>, k: nat)
    requires k < |pass|
    ensures Flatten(conn, pass[..k + 1]) ==
      Flatten(conn, pass[..k]) + Tagged(pass[k].schema, Kept(conn, pass[k].tables))
  {
    assert pass[..k + 1][..k] == pass[..k];
  }

  lemma TaggedSnoc(schema: string, tables: seq<TableInfo>, i: nat)
    requires i < |tables|
    ensures Tagged(schema, tables[..i + 1]) == Tagged(schema, tables[..i]) + [Listed(schema, tables[i])]
  {
  }

  lemma LinksNone(b: Build, conn: string, m: seq<MapEntry>)
    ensures LinkTables(b, conn, []) == b && TotalLinks(m, []) == 0
  {
  }

  lemma LinksSnoc(b: Build, conn: string, m: seq<MapEntry>, list: seq<Listed>, x: Listed)
    ensures LinkTables(b, conn, list + [x]) == LinkTable(LinkTables(b, conn, list), conn, x)
    ensures TotalLinks(m, list + [x]) == TotalLinks(m, list) +
      (if Get(m, x.schema, x.info.name).Some? then ResolvedKeys(m, x.info.foreignKeys) else 0)
  {
    hide LinkTable, Get, ResolvedKeys;
    SnocInit(list, x);
  }

  lemma TaggedNone(schema: string, tables: seq<TableInfo>)
    ensures Tagged(schema, tables[..0]) == []
  {
  }

  lemma FlattenNone(conn: Connection, pass: seq<Listing>)
    ensures Flatten(conn, pass[..0]) == []
  {
  }

  lemma SnocInit<T>(xs: seq<T>, x: T)
    ensures (xs + [x])[..|xs|] == xs
  {
  }

  class SchemaCache {
    var tables: seq<TableRow>
    var columns: seq<ColumnRow>
    var relations: seq<RelationRow>
    var entries: seq<EntryRow>
    var nextId: Id

    function Contents(): Store
      reads this
    {
      Store(tables, columns, relations, entries, nextId)
    }

    constructor ()
      ensures Contents() == Store([], [], [], [], 0)
    {
      tables, columns, relations, entries, nextId := [], [], [], [], 0;
    }

    method SnapshotRelations(conn: string) returns (rows: seq<NamedRelation>)
      ensures rows == RelationsOf(Contents(), conn)
    {
      rows := [];
      for i := 0 to |relations|
        invariant rows == ManualRelations(tables, conn, relations[..i])
      {
        assert relations[..i + 1][..i] == relations[..i];
        var r := relations[i];
        if r.connection == conn && r.manual {
          var source, target := FindTable(tables, r.source), FindTable(tables, r.target);
          if source.Some? && target.Some? {
            rows := rows + [NamedRelation(r.constraint, r.kind,
              source.value.name, r.sourceColumn, target.value.name, r.targetColumn)];
          }
        }
      }
      assert relations[..|relations|] == relations;
    }

    method SnapshotEntries(conn: string) returns (rows: seq<NamedEntry>)
      ensures rows == ByOrder(EntriesOf(Contents(), conn))
    {
      rows := [];
      for i := 0 to |entries|
        invariant rows == DictionaryEntries(tables, columns, conn, entries[..i])
      {
        assert entries[..i + 1][..i] == entries[..i];
        var e := entries[i];
        var column := FindColumn(columns, e.column);
        if column.Some? {
          var table := FindTable(tables, column.value.table);
          if table.Some? && table.value.connection == conn {
            rows := rows + [NamedEntry(table.value.name, column.value.name, e.raw, e.display, e.description, e.order)];
          }
        }
      }
      assert entries[..|entries|] == entries;
      rows := ByOrder(rows);
    }

    method DeleteTables(conn: string)
      modifies this
      ensures Contents() == Wipe(old(Contents()), conn)
    {
      var s := Contents();
      entries := Filter(KeepEntry(s, conn), entries);
      relations := Filter(KeepRelation(s, conn), relations);
      columns := Filter(KeepColumn(s, conn), columns);
      tables := Filter(KeepTable(conn), tables);
    }

    method CacheTable(conn: string, x: Listed, tableMap: seq<MapEntry>) returns (tableMap': seq<MapEntry>)
      modifies this
      ensures Build(Contents(), tableMap') == AddTable(Build(old(Contents()), tableMap), conn, x)
    {
      var id := nextId;
      tables := tables + [TableRow(id, conn, x.info.schema, x.info.name, x.info.meta)];
      nextId := nextId + 1;
      tableMap' := Put(tableMap, MapEntry(x.schema, x.info.name, id));
      ghost var was := columns;
      for i := 0 to |x.info.columns|
        invariant columns == was + NewColumns(id, id + 1, x.info.columns[..i])
        invariant nextId == id + 1 + i
        invariant tables == old(tables) + [TableRow(id, conn, x.info.schema, x.info.name, x.info.meta)]
        invariant relations == old(relations) && entries == old(entries)
      {
        var col := x.info.columns[i];
        columns := columns + [ColumnRow(nextId, id, col.name, col.meta, col.ordinal)];
        nextId := nextId + 1;
        assert NewColumns(id, id + 1, x.info.columns[..i + 1]) ==
          NewColumns(id, id + 1, x.info.columns[..i]) + [ColumnRow(id + 1 + i, id, col.name, col.meta, col.ordinal)];
      }
      assert x.info.columns[..|x.info.columns|] == x.info.columns;
    }

    method CacheListing(conn: string, schema: string, infos: seq<TableInfo>, tableMap: seq<MapEntry>,
        ghost start: Build, ghost done: seq<Listed>) returns (tableMap': seq<MapEntry>, columnCount: nat)
      requires Build(Contents(), tableMap) == AddTables(start, conn, done)
      modifies this
      ensures Build(Contents(), tableMap') == AddTables(start, conn, done + Tagged(schema, infos))
      ensures TotalColumns(done + Tagged(schema, infos)) == TotalColumns(done) + columnCount
    {
      hide Tagged, Map;
      tableMap', columnCount := tableMap, 0;
      TaggedNone(schema, infos);
      assert done + Tagged(schema, infos[..0]) == done;
      for i := 0 to |infos|
        invariant Build(Contents(), tableMap') == AddTables(start, conn, done + Tagged(schema, infos[..i]))
        invariant TotalColumns(done + Tagged(schema, infos[..i])) == TotalColumns(done) + columnCount
      {
        var x := Listed(schema, infos[i]);
        TaggedSnoc(schema, infos, i);
        SnocInit(done + Tagged(schema, infos[..i]), x);
        assert done + Tagged(schema, infos[..i + 1]) == done + Tagged(schema, infos[..i]) + [x];
        tableMap' := CacheTable(conn, x, tableMap');
        columnCount := columnCount + |infos[i].columns|;
      }
      assert infos[..|infos|] == infos;
    }

    method CacheTables(conn: Connection, pass: seq<Listing>)
      returns (tableMap: seq<MapEntry>, totalTables: nat, totalColumns: nat)
      modifies this
      ensures Build(Contents(), tableMap) == AddTables(Build(old(Contents()), []), conn.id, Flatten(conn, pass))
      ensures totalTables == |Flatten(conn, pass)| && totalColumns == TotalColumns(Flatten(conn, pass))
    {
      ghost var start := Build(Contents(), []);
      tableMap, totalTables, totalColumns := [], 0, 0;
      for k := 0 to |pass|
        invariant Build(Contents(), tableMap) == AddTables(start, conn.id, Flatten(conn, pass[..k]))
        invariant totalTables == |Flatten(conn, pass[..k])| && totalColumns == TotalColumns(Flatten(conn, pass[..k]))
      {
        FlattenSnoc(conn, pass, k);
        var toCache := Kept(conn, pass[k].tables);
        var columnCount: nat;
        tableMap, columnCount :=
          CacheListing(conn.id, pass[k].schema, toCache, tableMap, start, Flatten(conn, pass[..k]));
        totalTables := totalTables + |toCache|;
        totalColumns := totalColumns + columnCount;
      }
      assert pass[..|pass|] == pass;
    }

    method Relate(row: RelationRow)
      modifies this
      ensures Contents() == AddRelation(old(Contents()), row)
    {
      relations := relations + [row.(id := nextId)];
      nextId := nextId + 1;
    }

    method LinkOne(conn: string, x: Listed, tableMap: seq<MapEntry>) returns (links: nat)
      modifies this
      ensures Build(Contents(), tableMap) == LinkTable(Build(old(Contents()), tableMap), conn, x)
      ensures links == if Get(tableMap, x.schema, x.info.name).Some? then ResolvedKeys(tableMap, x.info.foreignKeys) else 0
    {
      links := 0;
      var source := Get(tableMap, x.schema, x.info.name);
      if source.None? {
        return;
      }
      ghost var start := Build(Contents(), tableMap);
      var fks := x.info.foreignKeys;
      for i := 0 to |fks|
        invariant Build(Contents(), tableMap) == AddForeignKeys(start, conn, source.value, fks[..i])
        invariant links == ResolvedKeys(tableMap, fks[..i])
      {
        assert fks[..i + 1][..i] == fks[..i];
        var target := Get(tableMap, fks[i].referredSchema, fks[i].referredTable);
        if target.Some? {
          Relate(RelationRow(0, conn, fks[i].constraint, false, None,
            source.value, fks[i].column, target.value, fks[i].referredColumn));
          links := links + 1;
        }
      }
      assert fks[..|fks|] == fks;
    }

    method LinkListing(conn: string, schema: string, infos: seq<TableInfo>, tableMap: seq<MapEntry>,
        ghost start: Build, ghost done: seq<Listed>) returns (links: nat)
      requires Build(Contents(), tableMap) == LinkTables(start, conn, done)
      modifies this
      ensures Build(Contents(), tableMap) == LinkTables(start, conn, done + Tagged(schema, infos))
      ensures TotalLinks(tableMap, done + Tagged(schema, infos)) == TotalLinks(tableMap, done) + links
    {
      hide Tagged, Get, ResolvedKeys, LinkTable, LinkTables, TotalLinks;
      links := 0;
      ghost var all := done;
      TaggedNone(schema, infos);
      assert done + [] == done;
      for i := 0 to |infos|
        invariant all == done + Tagged(schema, infos[..i])
        invariant Build(Contents(), tableMap) == LinkTables(start, conn, all)
        invariant TotalLinks(tableMap, all) == TotalLinks(tableMap, done) + links
      {
        TaggedSnoc(schema, infos, i);
        LinksSnoc(start, conn, tableMap, all, Listed(schema, infos[i]));
        var more := LinkOne(conn, Listed(schema, infos[i]), tableMap);
        links := links + more;
        all := all + [Listed(schema, infos[i])];
      }
      assert infos[..|infos|] == infos;
    }

    method LinkAll(conn: Connection, pass: seq<Listing>, tableMap: seq<MapEntry>) returns (links: nat)
      modifies this
      ensures Build(Contents(), tableMap) == LinkTables(Build(old(Contents()), tableMap), conn.id, Flatten(conn, pass))
      ensures links == TotalLinks(tableMap, Flatten(conn, pass))
    {
      ghost var start := Build(Contents(), tableMap);
      links := 0;
      FlattenNone(conn, pass);
      LinksNone(start, conn.id, tableMap);
      hide Flatten, Kept, Tagged, LinkTables, TotalLinks;
      for k := 0 to |pass|
        invariant Build(Contents(), tableMap) == LinkTables(start, conn.id, Flatten(conn, pass[..k]))
        invariant links == TotalLinks(tableMap, Flatten(conn, pass[..k]))
      {
        FlattenSnoc(conn, pass, k);
        var toLink := Kept(conn, pass[k].tables);
        var more := LinkListing(conn.id, pass[k].schema, toLink, tableMap, start, Flatten(conn, pass[..k]));
        links := links + more;
      }
      assert pass[..|pass|] == pass;
    }

    method RestoreManual(conn: Connection, rows: seq<NamedRelation>, tableMap: seq<MapEntry>)
      modifies this
      ensures Build(Contents(), tableMap) == RestoreRelations(Build(old(Contents()), tableMap), conn, rows)
    {
      ghost var start := Build(Contents(), tableMap);
      for i := 0 to |rows|
        invariant Build(Contents(), tableMap) == RestoreRelations(start, conn, rows[..i])
      {
        assert rows[..i + 1][..i] == rows[..i];
        var r := rows[i];
        var source := Get(tableMap, if conn.sqlServer then "dbo" else "", r.sourceTable);
        var target := Get(tableMap, if conn.sqlServer then "dbo" else "", r.targetTable);
        if source.None? {
          source := GetByName(tableMap, r.sourceTable);
        }
        if target.None? {
          target := GetByName(tableMap, r.targetTable);
        }
        if source.Some? && target.Some? {
          Relate(RelationRow(0, conn.id, r.constraint, true, r.kind, source.value, r.sourceColumn, target.value, r.targetColumn));
        }
      }
      assert rows[..|rows|] == rows;
    }

    method BuildColumnMap(tableMap: seq<MapEntry>) returns (m: ColumnMap)
      ensures m == ColumnMapOf(tableMap, columns)
    {
      m := map[];
      for k := 0 to |tableMap|
        invariant m == ColumnMapOf(tableMap[..k], columns)
      {
        assert tableMap[..k + 1][..k] == tableMap[..k];
        ghost var before := m;
        for i := 0 to |columns|
          invariant m == PutColumns(before, tableMap[k].name, tableMap[k].table, columns[..i])
        {
          assert columns[..i + 1][..i] == columns[..i];
          if columns[i].table == tableMap[k].table {
            m := m[(tableMap[k].name, columns[i].name) := columns[i].id];
          }
        }
        assert columns[..|columns|] == columns;
      }
      assert tableMap[..|tableMap|] == tableMap;
    }

    method RestoreDictionary(rows: seq<NamedEntry>, m: ColumnMap)
      modifies this
      ensures Contents() == RestoreEntries(old(Contents()), m, rows)
    {
      ghost var start := Contents();
      for i := 0 to |rows|
        invariant Contents() == RestoreEntries(start, m, rows[..i])
      {
        assert rows[..i + 1][..i] == rows[..i];
        var e := rows[i];
        if (e.table, e.column) in m {
          entries := entries + [EntryRow(nextId, m[(e.table, e.column)], e.raw, e.display, e.description, e.order)];
          nextId := nextId + 1;
        }
      }
      assert rows[..|rows|] == rows;
    }

    /** The whole of introspect_and_cache, given what the two passes over the target return. */
    method IntrospectAndCache(conn: Connection, first: seq<Listing>, second: seq<Listing>) returns (counts: Counts)
      modifies this
      ensures Contents() == Introspect(old(Contents()), conn, first, second)
      ensures counts == CountsOf(old(Contents()), conn, first, second)
    {
      var manual := SnapshotRelations(conn.id);
      var dictionary := SnapshotEntries(conn.id);
      DeleteTables(conn.id);
      var tableMap, totalTables, totalColumns := CacheTables(conn, first);
      var totalRelationships := LinkAll(conn, second, tableMap);
      RestoreManual(conn, manual, tableMap);
      var columnMap := BuildColumnMap(tableMap);
      RestoreDictionary(dictionary, columnMap);
      counts := Counts(totalTables, totalColumns, totalRelationships);
    }
  }
}
