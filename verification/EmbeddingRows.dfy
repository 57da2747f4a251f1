/** The rows behind the numbers of backend/app/services/embedding_service.py: what is counted, what a run
    embeds, and what it leaves alone. */
module EmbeddingRows {
  import opened Options
  import opened EmbeddingProgress

  /** Places of rows; the rows themselves may repeat. */
  type Places = set<nat>

  ghost function PlacesOf<T>(p: T -> bool, xs: seq<T>): Places {
    set i: nat | i < |xs| && p(xs[i])
  }

  lemma {:induction false} CountIsSize<T>(p: T -> bool, xs: seq<T>)
    ensures Count(p, xs) == |PlacesOf(p, xs)|
    decreases |xs|
  {
    if xs != [] {
      var n := |xs| - 1;
      CountIsSize(p, xs[..n]);
      PlacesUpTo(p, xs);
      hide PlacesOf;
    }
  }

  lemma PlacesUpTo<T>(p: T -> bool, xs: seq<T>)
    requires xs != []
    ensures var n: nat := |xs| - 1;
      n !in PlacesOf(p, xs[..n]) && PlacesOf(p, xs) == PlacesOf(p, xs[..n]) + if p(xs[n]) then {n} else {}
  {
    var n: nat := |xs| - 1;
    forall i: nat ensures i in PlacesOf(p, xs) <==> i in PlacesOf(p, xs[..n]) || (i == n && p(xs[n])) {
      if i < n {
        assert xs[..n][i] == xs[i];
      }
    }
  }

  ghost function TablesWanting(db: Db, connection: string): Places {
    set i: nat | i < |db.tables| && db.tables[i].connection == connection && !db.tables[i].embedded
  }

  ghost function ColumnsWanting(db: Db, connection: string): Places {
    set i: nat | i < |db.columns| && !db.columns[i].embedded &&
      (exists k :: 0 <= k < |db.tables| && db.tables[k].id == db.columns[i].table && db.tables[k].connection == connection)
  }

  ghost function ItemsWanting(items: seq<Item>, connection: string): Places {
    set i: nat | i < |items| && items[i].connection == connection && !items[i].embedded
  }

  ghost function ChunksWanting(db: Db, connection: string): Places {
    set i: nat | i < |db.chunks| && !db.chunks[i].embedded &&
      (exists k :: 0 <= k < |db.documents| && db.documents[k].id == db.chunks[i].document &&
        db.documents[k].connection == connection)
  }

  lemma TablesCounted(db: Db, connection: string)
    ensures Count(NeedyTable(connection), db.tables) == |TablesWanting(db, connection)|
  {
    CountIsSize(NeedyTable(connection), db.tables);
    assert PlacesOf(NeedyTable(connection), db.tables) == TablesWanting(db, connection);
  }

  lemma ColumnsCounted(db: Db, connection: string)
    ensures Count(NeedyColumn(db.tables, connection), db.columns) == |ColumnsWanting(db, connection)|
  {
    CountIsSize(NeedyColumn(db.tables, connection), db.columns);
    assert PlacesOf(NeedyColumn(db.tables, connection), db.columns) == ColumnsWanting(db, connection);
  }

  lemma ItemsCounted(items: seq<Item>, connection: string)
    ensures Count(NeedyItem(connection), items) == |ItemsWanting(items, connection)|
  {
    CountIsSize(NeedyItem(connection), items);
    assert PlacesOf(NeedyItem(connection), items) == ItemsWanting(items, connection);
  }

  lemma ChunksCounted(db: Db, connection: string)
    ensures Count(NeedyChunk(db.documents, connection), db.chunks) == |ChunksWanting(db, connection)|
  {
    CountIsSize(NeedyChunk(db.documents, connection), db.chunks);
    forall i: nat | i < |db.chunks|
      ensures NeedyChunk(db.documents, connection)(db.chunks[i]) <==> i in ChunksWanting(db, connection)
    {
      DocumentOwns(db, connection, i);
    }
    assert PlacesOf(NeedyChunk(db.documents, connection), db.chunks) == ChunksWanting(db, connection);
  }

  lemma DocumentOwns(db: Db, connection: string, i: nat)
    requires i < |db.chunks|
    ensures OwnedDocument(db.documents, connection, db.chunks[i].document) && !db.chunks[i].embedded <==>
      i in ChunksWanting(db, connection)
  {
    if k :| 0 <= k < |db.documents| && db.documents[k].id == db.chunks[i].document && db.documents[k].connection == connection {
      assert db.documents[k] == Document(db.chunks[i].document, connection);
    }
  }

  /** What is counted: of each of the six kinds the rows of the connection without an embedding, columns and
      chunks through the table or document they belong to. */
  lemma CountedRows(db: Db, connection: string)
    ensures CountItems(db, connection) ==
      |TablesWanting(db, connection)| + |ColumnsWanting(db, connection)| + |ItemsWanting(db.glossary, connection)| +
      |ItemsWanting(db.metrics, connection)| + |ItemsWanting(db.queries, connection)| + |ChunksWanting(db, connection)|
  {
    hide Count, TablesWanting, ColumnsWanting, ItemsWanting, ChunksWanting;
    TablesCounted(db, connection);
    ColumnsCounted(db, connection);
    ItemsCounted(db.glossary, connection);
    ItemsCounted(db.metrics, connection);
    ItemsCounted(db.queries, connection);
    ChunksCounted(db, connection);
  }

  // ----- what a run embeds --------------------------------------------------------------------------

  /** The columns that hang on a table without an embedding of its own. */
  ghost function ColumnsWithTable(db: Db, connection: string): Places {
    set i: nat | i < |db.columns| && !db.columns[i].embedded &&
      (exists k :: k in TablesWanting(db, connection) && db.tables[k].id == db.columns[i].table)
  }

  /** The run gave an embedding to the rows at these places, and changed nothing else. */
  ghost predicate TablesGot(before: seq<Table>, after: seq<Table>, places: Places) {
    |after| == |before| && forall i :: 0 <= i < |before| ==>
      after[i] == if i in places then Table(before[i].id, before[i].connection, true) else before[i]
  }

  ghost predicate ColumnsGot(before: seq<Column>, after: seq<Column>, places: Places) {
    |after| == |before| && forall i :: 0 <= i < |before| ==>
      after[i] == if i in places then Column(before[i].table, true) else before[i]
  }

  ghost predicate ItemsGot(before: seq<Item>, after: seq<Item>, places: Places) {
    |after| == |before| && forall i :: 0 <= i < |before| ==>
      after[i] == if i in places then Item(before[i].connection, true) else before[i]
  }

  ghost predicate ChunksGot(before: seq<Chunk>, after: seq<Chunk>, places: Places) {
    |after| == |before| && forall i :: 0 <= i < |before| ==>
      after[i] == if i in places then Chunk(before[i].document, true) else before[i]
  }

  /** A complete run gives every table, term, metric, query and chunk counted its embedding, of the columns
      counted those whose table it embeds, and no other row changes in any kind; the number it returns is the
      number of rows that got one. */
  lemma EmbeddedRows(db: Db, connection: string)
    ensures var after := Generated(db, connection);
      TablesGot(db.tables, after.tables, TablesWanting(db, connection)) &&
      ColumnsGot(db.columns, after.columns, ColumnsWithTable(db, connection)) &&
      ItemsGot(db.glossary, after.glossary, ItemsWanting(db.glossary, connection)) &&
      ItemsGot(db.metrics, after.metrics, ItemsWanting(db.metrics, connection)) &&
      ItemsGot(db.queries, after.queries, ItemsWanting(db.queries, connection)) &&
      ChunksGot(db.chunks, after.chunks, ChunksWanting(db, connection)) && after.documents == db.documents
    ensures Embedded(db, connection) ==
      |TablesWanting(db, connection)| + |ColumnsWithTable(db, connection)| + |ItemsWanting(db.glossary, connection)| +
      |ItemsWanting(db.metrics, connection)| + |ItemsWanting(db.queries, connection)| + |ChunksWanting(db, connection)|
  {
    hide Count, TablesGot, ColumnsGot, ItemsGot, ChunksGot, TablesWanting, ColumnsWithTable, ItemsWanting, ChunksWanting;
    TablesCounted(db, connection);
    ReachedCounted(db, connection);
    ItemsCounted(db.glossary, connection);
    ItemsCounted(db.metrics, connection);
    ItemsCounted(db.queries, connection);
    ChunksCounted(db, connection);
    TablesMarked(db, connection);
    ColumnsMarked(db, connection);
    ItemsMarked(db.glossary, connection);
    ItemsMarked(db.metrics, connection);
    ItemsMarked(db.queries, connection);
    ChunksMarked(db, connection);
  }

  lemma WithTable(db: Db, connection: string, i: nat)
    requires i < |db.columns|
    ensures Reached(db.tables, connection, db.columns[i].table) && !db.columns[i].embedded <==>
      i in ColumnsWithTable(db, connection)
  {
    if k :| 0 <= k < |db.tables| && db.tables[k].id == db.columns[i].table && TableNeeds(db.tables[k], connection) {
      assert k in TablesWanting(db, connection);
    }
  }

  lemma ReachedCounted(db: Db, connection: string)
    ensures Count(ReachedColumn(db.tables, connection), db.columns) == |ColumnsWithTable(db, connection)|
  {
    CountIsSize(ReachedColumn(db.tables, connection), db.columns);
    forall i: nat | i < |db.columns|
      ensures ReachedColumn(db.tables, connection)(db.columns[i]) <==> i in ColumnsWithTable(db, connection)
    {
      WithTable(db, connection, i);
    }
    assert PlacesOf(ReachedColumn(db.tables, connection), db.columns) == ColumnsWithTable(db, connection);
  }

  lemma TablesMarked(db: Db, connection: string)
    ensures TablesGot(db.tables, MarkTables(connection, db.tables), TablesWanting(db, connection))
  {
  }

  lemma ColumnsMarked(db: Db, connection: string)
    ensures ColumnsGot(db.columns, MarkColumns(db.tables, connection, db.columns), ColumnsWithTable(db, connection))
  {
    forall i: nat | i < |db.columns|
      ensures Reached(db.tables, connection, db.columns[i].table) && !db.columns[i].embedded <==>
        i in ColumnsWithTable(db, connection)
    {
      WithTable(db, connection, i);
    }
    hide ColumnsWithTable, Reached;
  }

  lemma ItemsMarked(items: seq<Item>, connection: string)
    ensures ItemsGot(items, MarkItems(connection, items), ItemsWanting(items, connection))
  {
  }

  lemma ChunksMarked(db: Db, connection: string)
    ensures ChunksGot(db.chunks, MarkChunks(db.documents, connection, db.chunks), ChunksWanting(db, connection))
  {
    forall i: nat | i < |db.chunks|
      ensures OwnedDocument(db.documents, connection, db.chunks[i].document) && !db.chunks[i].embedded <==>
        i in ChunksWanting(db, connection)
    {
      DocumentOwns(db, connection, i);
    }
    hide ChunksWanting, OwnedDocument;
  }

  // ----- how a run ends -----------------------------------------------------------------------------

  /** A tracker started with any total, after any number of increments, also more than the total: it is completed
      from the total on, but never when that is zero. */
  lemma {:induction false} IncrementsExactly(total: nat, n: nat)
    ensures IncrementedBy(Started(total), n) == Progress(total, n, if total > 0 && n >= total then Completed else Running)
  {
    if n > 0 {
      IncrementsExactly(total, n - 1);
    }
  }

  /** How many embeddings a run makes before it ends. */
  function Made(db: Db, connection: string, luck: Luck): nat {
    if Breaks(luck, Embedded(db, connection)) then luck.failsAfter.value else Embedded(db, connection)
  }

  function Ending(db: Db, connection: string, luck: Luck): Status {
    if Breaks(luck, Embedded(db, connection)) || !luck.commits then Failed
    else if Made(db, connection, luck) == CountItems(db, connection) then Completed
    else Running
  }

  /** The tracker of the run's connection, for every outcome: a run that cannot count only fails a tracker that is
      there; one that counts nothing leaves everything as it is; any other ends with its total, the number of
      embeddings made, and failed, completed at the total, or running. Rows change only in a run that commits. */
  lemma BackgroundEndsAs(db: Db, tracker: map<string, Progress>, connection: string, luck: Luck)
    ensures var (rows, after) := Background(db, tracker, connection, luck);
      var total, made := CountItems(db, connection), Made(db, connection, luck);
      (!luck.counts ==> rows == db && after.Keys == tracker.Keys) &&
      (!luck.counts && connection in tracker ==>
        after[connection] == Progress(tracker[connection].total, tracker[connection].completed, Failed)) &&
      (luck.counts && total == 0 ==> rows == db && after == tracker) &&
      (luck.counts && total > 0 ==> connection in after && after[connection] == Progress(total, made, Ending(db, connection, luck))) &&
      (luck.counts && total > 0 ==> rows == if Ending(db, connection, luck).Failed? then db else Generated(db, connection))
  {
    EmbeddedIsCountMinusStranded(db, connection);
    var total := CountItems(db, connection);
    if total > 0 {
      TrackerCounts(total, Made(db, connection, luck));
    }
  }
}
