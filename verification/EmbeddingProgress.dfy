/** Background embedding generation (embedding_service.py, setup_service.py) against its
    progress tracker (embedding_progress.py). */
module EmbeddingProgress {
  import opened Options

  datatype Table = Table(id: nat, connection: string, embedded: bool)
  datatype Column = Column(table: nat, embedded: bool)
  datatype Item = Item(connection: string, embedded: bool)
  datatype Document = Document(id: nat, connection: string)
  datatype Chunk = Chunk(document: nat, embedded: bool)

  /** The rows that carry embeddings; of a vector only its presence is kept. */
  datatype Db = Db(
    tables: seq<Table>,
    columns: seq<Column>,
    glossary: seq<Item>,
    metrics: seq<Item>,
    queries: seq<Item>,
    documents: seq<Document>,
    chunks: seq<Chunk>)

  ghost predicate KeysDistinct(db: Db) {
    forall i, j :: 0 <= i < j < |db.tables| ==> db.tables[i].id != db.tables[j].id
  }

  // ----- counting -----------------------------------------------------------------------------

  function Count<T>(p: T -> bool, xs: seq<T>): (n: nat)
    ensures n <= |xs|
  {
    if xs == [] then 0 else Count(p, xs[..|xs| - 1]) + (if p(xs[|xs| - 1]) then 1 else 0)
  }

  lemma CountSnoc<T>(p: T -> bool, xs: seq<T>, x: T)
    ensures Count(p, xs + [x]) == Count(p, xs) + (if p(x) then 1 else 0)
  {
    assert (xs + [x])[..|xs|] == xs;
  }

  lemma CountUpTo<T>(p: T -> bool, xs: seq<T>, n: nat)
    requires n < |xs|
    ensures Count(p, xs[..n + 1]) == Count(p, xs[..n]) + (if p(xs[n]) then 1 else 0)
  {
    assert xs[..n + 1] == xs[..n] + [xs[n]];
    CountSnoc(p, xs[..n], xs[n]);
  }

  /** Counting what satisfies exactly one of two conditions. */
  lemma {:induction false} CountSplit<T>(p: T -> bool, q: T -> bool, r: T -> bool, xs: seq<T>)
    requires forall i :: 0 <= i < |xs| ==> (p(xs[i]) <==> q(xs[i]) || r(xs[i])) && !(q(xs[i]) && r(xs[i]))
    ensures Count(p, xs) == Count(q, xs) + Count(r, xs)
  {
    if xs != [] {
      CountSplit(p, q, r, xs[..|xs| - 1]);
    }
  }

  lemma {:induction false} CountSame<T, U>(p: T -> bool, q: U -> bool, xs: seq<T>, ys: seq<U>)
    requires |xs| == |ys| && forall i :: 0 <= i < |xs| ==> p(xs[i]) == q(ys[i])
    ensures Count(p, xs) == Count(q, ys)
  {
    if xs != [] {
      CountSame(p, q, xs[..|xs| - 1], ys[..|ys| - 1]);
    }
  }

  lemma {:induction false} CountNone<T>(p: T -> bool, xs: seq<T>)
    requires forall i :: 0 <= i < |xs| ==> !p(xs[i])
    ensures Count(p, xs) == 0
  {
    if xs != [] {
      CountNone(p, xs[..|xs| - 1]);
    }
  }

  // ----- which rows need an embedding ------------------------------------------------------------

  predicate TableNeeds(t: Table, connection: string) {
    t.connection == connection && !t.embedded
  }

  predicate Owned(tables: seq<Table>, connection: string, id: nat) {
    exists k :: 0 <= k < |tables| && tables[k].id == id && tables[k].connection == connection
  }

  /** The table is one of those to be embedded. */
  predicate Reached(tables: seq<Table>, connection: string, id: nat) {
    exists k :: 0 <= k < |tables| && tables[k].id == id && TableNeeds(tables[k], connection)
  }

  predicate OwnedDocument(documents: seq<Document>, connection: string, id: nat) {
    exists k :: 0 <= k < |documents| && documents[k] == Document(id, connection)
  }

  function NeedyTable(connection: string): Table -> bool {
    (t: Table) => TableNeeds(t, connection)
  }

  function NeedyColumn(tables: seq<Table>, connection: string): Column -> bool {
    (c: Column) => !c.embedded && Owned(tables, connection, c.table)
  }

  function ReachedColumn(tables: seq<Table>, connection: string): Column -> bool {
    (c: Column) => !c.embedded && Reached(tables, connection, c.table)
  }

  /** Unembedded columns whose table has its embedding already. */
  function StrandedColumn(tables: seq<Table>, connection: string): Column -> bool {
    (c: Column) => !c.embedded && Owned(tables, connection, c.table) && !Reached(tables, connection, c.table)
  }

  function NeedyItem(connection: string): Item -> bool {
    (x: Item) => x.connection == connection && !x.embedded
  }

  function NeedyChunk(documents: seq<Document>, connection: string): Chunk -> bool {
    (x: Chunk) => !x.embedded && OwnedDocument(documents, connection, x.document)
  }

  function Others(db: Db, connection: string): nat {
    Count(NeedyItem(connection), db.glossary) + Count(NeedyItem(connection), db.metrics) +
    Count(NeedyItem(connection), db.queries) + Count(NeedyChunk(db.documents, connection), db.chunks)
  }

  /** count_items_needing_embeddings */
  function CountItems(db: Db, connection: string): nat {
    Count(NeedyTable(connection), db.tables) + Count(NeedyColumn(db.tables, connection), db.columns) +
    Others(db, connection)
  }

  /** How many embeddings generate_embeddings_for_connection makes. */
  function Embedded(db: Db, connection: string): nat {
    Count(NeedyTable(connection), db.tables) + Count(ReachedColumn(db.tables, connection), db.columns) +
    Others(db, connection)
  }

  function Stranded(db: Db, connection: string): nat {
    Count(StrandedColumn(db.tables, connection), db.columns)
  }

  /** Generation embeds what was counted except the stranded columns. */
  lemma EmbeddedIsCountMinusStranded(db: Db, connection: string)
    ensures Embedded(db, connection) + Stranded(db, connection) == CountItems(db, connection)
  {
    forall id ensures Reached(db.tables, connection, id) ==> Owned(db.tables, connection, id) {
    }
    CountSplit(NeedyColumn(db.tables, connection), ReachedColumn(db.tables, connection),
      StrandedColumn(db.tables, connection), db.columns);
  }

  // ----- the rows afterwards -------------------------------------------------------------------------

  function MarkTable(connection: string, t: Table): Table {
    if t.connection == connection then t.(embedded := true) else t
  }

  function MarkColumn(tables: seq<Table>, connection: string, c: Column): Column {
    if Reached(tables, connection, c.table) then c.(embedded := true) else c
  }

  function MarkItem(connection: string, x: Item): Item {
    if x.connection == connection then x.(embedded := true) else x
  }

  function MarkChunk(documents: seq<Document>, connection: string, x: Chunk): Chunk {
    if OwnedDocument(documents, connection, x.document) then x.(embedded := true) else x
  }

  function MarkItems(connection: string, xs: seq<Item>): (r: seq<Item>)
    ensures |r| == |xs| && forall i :: 0 <= i < |xs| ==> r[i] == MarkItem(connection, xs[i])
  {
    seq(|xs|, i requires 0 <= i < |xs| => MarkItem(connection, xs[i]))
  }

  function MarkTables(connection: string, xs: seq<Table>): (r: seq<Table>)
    ensures |r| == |xs| && forall i :: 0 <= i < |xs| ==> r[i] == MarkTable(connection, xs[i])
  {
    seq(|xs|, i requires 0 <= i < |xs| => MarkTable(connection, xs[i]))
  }

  function MarkColumns(tables: seq<Table>, connection: string, xs: seq<Column>): (r: seq<Column>)
    ensures |r| == |xs| && forall i :: 0 <= i < |xs| ==> r[i] == MarkColumn(tables, connection, xs[i])
  {
    seq(|xs|, i requires 0 <= i < |xs| => MarkColumn(tables, connection, xs[i]))
  }

  function MarkChunks(documents: seq<Document>, connection: string, xs: seq<Chunk>): (r: seq<Chunk>)
    ensures |r| == |xs| && forall i :: 0 <= i < |xs| ==> r[i] == MarkChunk(documents, connection, xs[i])
  {
    seq(|xs|, i requires 0 <= i < |xs| => MarkChunk(documents, connection, xs[i]))
  }

  /** The rows after a complete run. */
  function Generated(db: Db, connection: string): Db {
    Db(MarkTables(connection, db.tables), MarkColumns(db.tables, connection, db.columns),
       MarkItems(connection, db.glossary), MarkItems(connection, db.metrics), MarkItems(connection, db.queries),
       db.documents, MarkChunks(db.documents, connection, db.chunks))
  }

  lemma MarkedOwned(tables: seq<Table>, connection: string, id: nat)
    ensures Owned(MarkTables(connection, tables), connection, id) <==> Owned(tables, connection, id)
    ensures !Reached(MarkTables(connection, tables), connection, id)
  {
    var marked := MarkTables(connection, tables);
    if k :| 0 <= k < |tables| && tables[k].id == id && tables[k].connection == connection {
      assert marked[k].id == id && marked[k].connection == connection;
    }
  }

  /** After a complete run exactly the stranded columns are still counted, and a further run embeds
      none of them. */
  lemma StrandedForGood(db: Db, connection: string)
    ensures var after := Generated(db, connection);
      CountItems(after, connection) == Stranded(db, connection) &&
      Embedded(after, connection) == 0 && Stranded(after, connection) == Stranded(db, connection)
  {
    var after := Generated(db, connection);
    forall id
      ensures Owned(after.tables, connection, id) <==> Owned(db.tables, connection, id)
      ensures !Reached(after.tables, connection, id)
    {
      MarkedOwned(db.tables, connection, id);
    }
    CountNone(NeedyTable(connection), after.tables);
    CountNone(ReachedColumn(after.tables, connection), after.columns);
    CountNone(NeedyItem(connection), after.glossary);
    CountNone(NeedyItem(connection), after.metrics);
    CountNone(NeedyItem(connection), after.queries);
    CountNone(NeedyChunk(after.documents, connection), after.chunks);
    CountSame(StrandedColumn(db.tables, connection), StrandedColumn(after.tables, connection), db.columns, after.columns);
    EmbeddedIsCountMinusStranded(after, connection);
  }

  // ----- the tracker -------------------------------------------------------------------------------------

  datatype Status = Pending | Running | Completed | Failed

  datatype Progress = Progress(total: nat, completed: nat, status: Status)

  function Started(total: nat): Progress {
    Progress(total, 0, Running)
  }

  function Incremented(p: Progress): Progress {
    var q := p.(completed := p.completed + 1);
    if q.total > 0 && q.completed >= q.total then q.(status := Completed) else q
  }

  function IncrementedBy(p: Progress, n: nat): Progress {
    if n == 0 then p else Incremented(IncrementedBy(p, n - 1))
  }

  function MarkFailed(tracker: map<string, Progress>, connection: string): map<string, Progress> {
    if connection in tracker then tracker[connection := tracker[connection].(status := Failed)] else tracker
  }

  /** After n increments, no more than the total, the tracker has counted n and is completed exactly
      when they make up the total. */
  lemma {:induction false} TrackerCounts(total: nat, n: nat)
    requires total > 0 && n <= total
    ensures IncrementedBy(Started(total), n) == Progress(total, n, if n == total then Completed else Running)
  {
    if n > 0 {
      TrackerCounts(total, n - 1);
    }
  }

  // ----- the background task --------------------------------------------------------------------------------

  /** What fails: the count query, the embedding after so many successes, the commit. */
  datatype Luck = Luck(counts: bool, failsAfter: Option<nat>, commits: bool)

  predicate Breaks(luck: Luck, n: nat) {
    luck.failsAfter.Some? && luck.failsAfter.value < n
  }

  /** _generate_embeddings_background: the committed rows and the tracker it leaves. */
  function Background(db: Db, tracker: map<string, Progress>, connection: string, luck: Luck): (Db, map<string, Progress>) {
    if !luck.counts then (db, MarkFailed(tracker, connection))
    else
      var total := CountItems(db, connection);
      if total == 0 then (db, tracker)
      else
        var n := Embedded(db, connection);
        if Breaks(luck, n) then
          (db, MarkFailed(tracker[connection := IncrementedBy(Started(total), luck.failsAfter.value)], connection))
        else if !luck.commits then
          (db, MarkFailed(tracker[connection := IncrementedBy(Started(total), n)], connection))
        else (Generated(db, connection), tracker[connection := IncrementedBy(Started(total), n)])
  }

  predicate Succeeds(db: Db, connection: string, luck: Luck) {
    luck.counts && luck.commits && !Breaks(luck, Embedded(db, connection))
  }

  /** A run that does not fail ends with the tracker completed exactly when no column is stranded;
      otherwise it says running for good, short by the stranded columns. */
  lemma CompletedExactlyWhenNothingStranded(db: Db, tracker: map<string, Progress>, connection: string, luck: Luck)
    requires Succeeds(db, connection, luck) && CountItems(db, connection) > 0
    ensures var after := Background(db, tracker, connection, luck);
      after.0 == Generated(db, connection) && connection in after.1 &&
      var p := after.1[connection];
      p.total == CountItems(db, connection) && p.completed == p.total - Stranded(db, connection) &&
      p.status == (if Stranded(db, connection) == 0 then Completed else Running)
  {
    EmbeddedIsCountMinusStranded(db, connection);
    TrackerCounts(CountItems(db, connection), Embedded(db, connection));
  }

  /** Every run, failed or not, leaves completed at most total, other connections' progress alone, and
      on failure the rows as they were with the tracker failed. */
  lemma BackgroundSafe(db: Db, tracker: map<string, Progress>, connection: string, luck: Luck)
    requires forall c :: c in tracker ==> tracker[c].completed <= tracker[c].total
    ensures var after := Background(db, tracker, connection, luck);
      (forall c :: c in after.1 ==> after.1[c].completed <= after.1[c].total) &&
      (forall c :: c != connection ==> (c in after.1 <==> c in tracker) && (c in tracker ==> after.1[c] == tracker[c])) &&
      (!Succeeds(db, connection, luck) && CountItems(db, connection) > 0 ==>
        after.0 == db && (luck.counts || connection in tracker ==> connection in after.1 && after.1[connection].status == Failed))
  {
    EmbeddedIsCountMinusStranded(db, connection);
    var total, n := CountItems(db, connection), Embedded(db, connection);
    if total > 0 {
      TrackerCounts(total, n);
      if Breaks(luck, n) {
        TrackerCounts(total, luck.failsAfter.value);
      }
    }
  }

  /** Running it again after a success embeds nothing and never completes while columns are stranded. */
  lemma RerunNeverCompletes(db: Db, tracker: map<string, Progress>, connection: string, luck: Luck)
    requires Stranded(db, connection) > 0 && luck.counts && luck.commits
    ensures var first := Generated(db, connection);
      var after := Background(first, tracker, connection, luck);
      after.0 == first && connection in after.1 &&
      after.1[connection] == Progress(Stranded(db, connection), 0, Running)
  {
    var first := Generated(db, connection);
    StrandedForGood(db, connection);
    TrackerCounts(Stranded(db, connection), 0);
    assert Generated(first, connection) == first by {
      assert Generated(first, connection).tables == first.tables;
      forall id ensures !Reached(first.tables, connection, id) {
        MarkedOwned(db.tables, connection, id);
      }
      assert Generated(first, connection).columns == first.columns;
      assert Generated(first, connection).glossary == first.glossary;
      assert Generated(first, connection).metrics == first.metrics;
      assert Generated(first, connection).queries == first.queries;
      assert Generated(first, connection).chunks == first.chunks;
    }
  }
}
