/** The loops of background embedding generation, proved to do what EmbeddingProgress says. */
module EmbeddingJob {
  import opened Options
  import opened EmbeddingProgress

  // ----- one table more ---------------------------------------------------------------------

  lemma ReachedUpTo(tables: seq<Table>, connection: string, n: nat, id: nat)
    requires n < |tables|
    ensures Reached(tables[..n + 1], connection, id) <==>
      Reached(tables[..n], connection, id) || (tables[n].id == id && TableNeeds(tables[n], connection))
  {
    var p, q := tables[..n], tables[..n + 1];
    if k :| 0 <= k < |p| && p[k].id == id && TableNeeds(p[k], connection) {
      assert q[k] == p[k];
    }
    if tables[n].id == id && TableNeeds(tables[n], connection) {
      assert q[n] == tables[n];
    }
    if k :| 0 <= k < |q| && q[k].id == id && TableNeeds(q[k], connection) {
      if k < n {
        assert p[k] == q[k];
      }
    }
  }

  /** The unembedded columns of one table. */
  function ColumnOf(id: nat): Column -> bool {
    (c: Column) => !c.embedded && c.table == id
  }

  function Partial(db: Db, connection: string, n: nat): nat
    requires n <= |db.tables|
  {
    Count(NeedyTable(connection), db.tables[..n]) + Count(ReachedColumn(db.tables[..n], connection), db.columns)
  }

  lemma NotYetReached(db: Db, connection: string, n: nat)
    requires KeysDistinct(db) && n < |db.tables|
    ensures !Reached(db.tables[..n], connection, db.tables[n].id)
  {
  }

  lemma PartialNeedy(db: Db, connection: string, n: nat)
    requires KeysDistinct(db) && n < |db.tables| && TableNeeds(db.tables[n], connection)
    ensures Partial(db, connection, n + 1) == Partial(db, connection, n) + 1 + Count(ColumnOf(db.tables[n].id), db.columns)
  {
    CountUpTo(NeedyTable(connection), db.tables, n);
    NotYetReached(db, connection, n);
    forall id
      ensures Reached(db.tables[..n + 1], connection, id) <==>
        Reached(db.tables[..n], connection, id) || (db.tables[n].id == id && TableNeeds(db.tables[n], connection))
    {
      ReachedUpTo(db.tables, connection, n, id);
    }
    CountSplit(ReachedColumn(db.tables[..n + 1], connection), ReachedColumn(db.tables[..n], connection),
      ColumnOf(db.tables[n].id), db.columns);
  }

  lemma PartialOther(db: Db, connection: string, n: nat)
    requires n < |db.tables| && !TableNeeds(db.tables[n], connection)
    ensures Partial(db, connection, n + 1) == Partial(db, connection, n)
  {
    CountUpTo(NeedyTable(connection), db.tables, n);
    forall id
      ensures Reached(db.tables[..n + 1], connection, id) <==> Reached(db.tables[..n], connection, id)
    {
      ReachedUpTo(db.tables, connection, n, id);
    }
    CountSame(ReachedColumn(db.tables[..n + 1], connection), ReachedColumn(db.tables[..n], connection),
      db.columns, db.columns);
  }

  lemma {:induction false} CountPrefix<T>(p: T -> bool, xs: seq<T>, n: nat)
    requires n <= |xs|
    ensures Count(p, xs[..n]) <= Count(p, xs)
    ensures n < |xs| && p(xs[n]) ==> Count(p, xs[..n]) < Count(p, xs)
    decreases |xs| - n
  {
    if n == |xs| {
      assert xs[..n] == xs;
    } else {
      CountUpTo(p, xs, n);
      CountPrefix(p, xs, n + 1);
    }
  }

  lemma PartialGrows(db: Db, connection: string, n: nat)
    requires KeysDistinct(db) && n <= |db.tables|
    ensures Partial(db, connection, n) <= Partial(db, connection, |db.tables|)
    decreases |db.tables| - n
  {
    if n < |db.tables| {
      if TableNeeds(db.tables[n], connection) {
        PartialNeedy(db, connection, n);
      } else {
        PartialOther(db, connection, n);
      }
      PartialGrows(db, connection, n + 1);
    }
  }

  /** The rows of the first two kinds after n tables. */
  ghost predicate TablesDone(db: Db, now: Db, connection: string, n: nat)
    requires n <= |db.tables|
  {
    |now.tables| == |db.tables| && |now.columns| == |db.columns| &&
    (forall k :: 0 <= k < n ==> now.tables[k] == MarkTable(connection, db.tables[k])) &&
    (forall k :: n <= k < |db.tables| ==> now.tables[k] == db.tables[k]) &&
    forall k :: 0 <= k < |db.columns| ==> now.columns[k] == MarkColumn(db.tables[..n], connection, db.columns[k])
  }

  lemma AllTablesDone(db: Db, now: Db, connection: string)
    requires TablesDone(db, now, connection, |db.tables|)
    ensures now.tables == MarkTables(connection, db.tables)
    ensures now.columns == MarkColumns(db.tables, connection, db.columns)
  {
    assert db.tables[..|db.tables|] == db.tables;
  }

  lemma PartialIsEmbedded(db: Db, connection: string)
    ensures Partial(db, connection, |db.tables|) + Others(db, connection) == Embedded(db, connection)
  {
    assert db.tables[..|db.tables|] == db.tables;
  }

  predicate Answers(failsAfter: Option<nat>, count: nat) {
    failsAfter.None? || count < failsAfter.value
  }

  // ----- the tracker module ----------------------------------------------------------------------

  class Tracker {
    var progress: map<string, Progress>

    constructor ()
      ensures progress == map[]
    {
      progress := map[];
    }

    method StartTracking(connection: string, total: nat)
      modifies this
      ensures progress == old(progress)[connection := Started(total)]
    {
      progress := progress[connection := Progress(total, 0, Running)];
    }

    method Increment(connection: string)
      modifies this
      ensures progress == if connection in old(progress)
        then old(progress)[connection := Incremented(old(progress)[connection])] else old(progress)
    {
      if connection !in progress {
        return;
      }
      var p := progress[connection];
      progress := progress[connection := p.(completed := p.completed + 1)];
      if p.total > 0 && p.completed + 1 >= p.total {
        MarkCompleted(connection);
      }
    }

    method MarkCompleted(connection: string)
      modifies this
      ensures progress == if connection in old(progress)
        then old(progress)[connection := old(progress)[connection].(status := Completed)] else old(progress)
    {
      if connection in progress {
        progress := progress[connection := progress[connection].(status := Completed)];
      }
    }

    method MarkAsFailed(connection: string)
      modifies this
      ensures progress == MarkFailed(old(progress), connection)
    {
      if connection in progress {
        progress := progress[connection := progress[connection].(status := Failed)];
      }
    }
  }

  /** The tracker after n increments of one connection. */
  ghost function Advanced(progress: map<string, Progress>, connection: string, n: nat): map<string, Progress>
    requires connection in progress
  {
    progress[connection := IncrementedBy(progress[connection], n)]
  }

  lemma AdvancedMore(progress: map<string, Progress>, connection: string, n: nat)
    requires connection in progress
    ensures Advanced(progress, connection, 0) == progress
    ensures Advanced(Advanced(progress, connection, n), connection, 1) == Advanced(progress, connection, n + 1)
  {
    var p := IncrementedBy(progress[connection], n);
    assert IncrementedBy(p, 1) == Incremented(IncrementedBy(p, 0));
  }

  lemma {:induction false} IncrementedTwice(p: Progress, m: nat, n: nat)
    ensures IncrementedBy(IncrementedBy(p, m), n) == IncrementedBy(p, m + n)
  {
    if n > 0 {
      IncrementedTwice(p, m, n - 1);
    }
  }

  lemma AdvancedTwice(progress: map<string, Progress>, connection: string, m: nat, n: nat)
    requires connection in progress
    ensures Advanced(Advanced(progress, connection, m), connection, n) == Advanced(progress, connection, m + n)
  {
    IncrementedTwice(progress[connection], m, n);
  }

  lemma SameReach(db: Db, connection: string, n: nat)
    requires n < |db.tables| && !TableNeeds(db.tables[n], connection)
    ensures forall k :: 0 <= k < |db.columns| ==>
      MarkColumn(db.tables[..n + 1], connection, db.columns[k]) == MarkColumn(db.tables[..n], connection, db.columns[k])
  {
    forall k | 0 <= k < |db.columns|
      ensures MarkColumn(db.tables[..n + 1], connection, db.columns[k]) == MarkColumn(db.tables[..n], connection, db.columns[k])
    {
      ReachedUpTo(db.tables, connection, n, db.columns[k].table);
    }
  }

  lemma AdvancedHas(progress: map<string, Progress>, connection: string, n: nat)
    requires connection in progress
    ensures connection in Advanced(progress, connection, n)
  {
  }

  lemma CountNothing<T>(p: T -> bool, xs: seq<T>)
    ensures Count(p, xs[..0]) == 0
  {
  }

  /** The columns when the first j have been looked at for table n. */
  ghost predicate ColumnsDone(db: Db, now: seq<Column>, connection: string, n: nat, j: nat)
    requires n < |db.tables|
  {
    |now| == |db.columns| && j <= |now| &&
    (forall k :: 0 <= k < j ==> now[k] == MarkColumn(db.tables[..n + 1], connection, db.columns[k])) &&
    forall k :: j <= k < |now| ==> now[k] == MarkColumn(db.tables[..n], connection, db.columns[k])
  }

  lemma ColumnsLength(db: Db, now: seq<Column>, connection: string, n: nat, j: nat)
    requires n < |db.tables| && ColumnsDone(db, now, connection, n, j)
    ensures |now| == |db.columns|
  {
  }

  lemma ColumnStep(db: Db, now: seq<Column>, connection: string, n: nat, j: nat)
    requires KeysDistinct(db) && n < |db.tables| && TableNeeds(db.tables[n], connection)
    requires j < |now| == |db.columns| && ColumnsDone(db, now, connection, n, j)
    ensures ColumnOf(db.tables[n].id)(db.columns[j]) <==> now[j].table == db.tables[n].id && !now[j].embedded
    ensures var next := if now[j].table == db.tables[n].id &&
      !now[j].embedded then now[j := now[j].(embedded := true)] else now;
      |next| == |now| && ColumnsDone(db, next, connection, n, j + 1)
  {
    hide Reached;
    NotYetReached(db, connection, n);
    ReachedUpTo(db.tables, connection, n, db.columns[j].table);
  }

  lemma PartialNone(db: Db, connection: string)
    ensures Partial(db, connection, 0) == 0
  {
    CountNone(ReachedColumn(db.tables[..0], connection), db.columns);
  }

  lemma NoneDone(db: Db, connection: string)
    ensures TablesDone(db, db, connection, 0)
  {
  }

  lemma BeginTable(db: Db, now: Db, connection: string, n: nat)
    requires n < |db.tables| && TablesDone(db, now, connection, n)
    ensures |now.tables| == |db.tables| && now.tables[n] == db.tables[n]
    ensures ColumnsDone(db, now.columns, connection, n, 0)
  {
  }

  lemma FinishTable(db: Db, now: Db, columns: seq<Column>, connection: string, n: nat)
    requires n < |db.tables| == |now.tables| && TablesDone(db, now, connection, n)
    requires now.tables[n] == db.tables[n] && TableNeeds(db.tables[n], connection)
    requires ColumnsDone(db, columns, connection, n, |db.columns|)
    ensures TablesDone(db, now.(tables := now.tables[n := now.tables[n].(embedded := true)], columns := columns), connection, n + 1)
  {
    hide Reached;
  }

  lemma SkipTable(db: Db, now: Db, connection: string, n: nat)
    requires n < |db.tables| == |now.tables| && TablesDone(db, now, connection, n)
    requires now.tables[n] == db.tables[n] && !TableNeeds(db.tables[n], connection)
    ensures TablesDone(db, now, connection, n + 1)
  {
    SameReach(db, connection, n);
    hide Reached;
  }

  lemma AdvancedFrom(progress: map<string, Progress>, connection: string, total: nat, n: nat)
    ensures Advanced(progress[connection := Started(total)], connection, n) ==
      progress[connection := IncrementedBy(Started(total), n)]
  {
  }

  // ----- the service ---------------------------------------------------------------------------------

  class Generator {
    var committed: Db
    var rows: Db  // as the session sees them
    const tracker: Tracker

    constructor (rows: Db, tracker: Tracker)
      ensures this.committed == this.rows == rows && this.tracker == tracker
    {
      this.committed, this.rows, this.tracker := rows, rows, tracker;
    }

    /** One awaited embedding and the progress callback; false when the provider gives up. */
    method EmbedOne(connection: string, count: nat, failsAfter: Option<nat>) returns (ok: bool, count': nat)
      modifies tracker
      ensures ok == Answers(failsAfter, count) && count' == (if ok then count + 1 else count)
      ensures tracker.progress == if ok && connection in old(tracker.progress)
        then Advanced(old(tracker.progress), connection, 1) else old(tracker.progress)
    {
      if !(failsAfter.None? || count < failsAfter.value) {
        return false, count;
      }
      tracker.Increment(connection);
      assert forall p: Progress :: IncrementedBy(p, 1) == Incremented(IncrementedBy(p, 0)) == Incremented(p);
      return true, count + 1;
    }

    /** The unembedded columns of one table. */
    method EmbedColumns(connection: string, n: nat, count: nat, failsAfter: Option<nat>, ghost db: Db)
      returns (ok: bool, count': nat)
      requires connection in tracker.progress && KeysDistinct(db) && n < |db.tables| == |rows.tables|
      requires TableNeeds(db.tables[n], connection) && rows.tables[n].id == db.tables[n].id
      requires ColumnsDone(db, rows.columns, connection, n, 0)
      requires failsAfter.None? || count <= failsAfter.value
      modifies this`rows, tracker
      ensures rows == old(rows).(columns := rows.columns)
      ensures ok ==> ColumnsDone(db, rows.columns, connection, n, |db.columns|)
      ensures ok ==> count' == count + Count(ColumnOf(db.tables[n].id), db.columns)
      ensures !ok ==> failsAfter == Some(count') && count' < count + Count(ColumnOf(db.tables[n].id), db.columns)
      ensures failsAfter.None? || count' <= failsAfter.value
      ensures count <= count' && tracker.progress == Advanced(old(tracker.progress), connection, count' - count)
    {
      hide Count, ColumnsDone, Advanced;
      ghost var p := ColumnOf(db.tables[n].id);
      AdvancedMore(tracker.progress, connection, 0);
      ok, count' := true, count;
      var j := 0;
      CountNothing(p, db.columns);
      ColumnsLength(db, rows.columns, connection, n, 0);
      while j < |rows.columns|
        invariant 0 <= j <= |rows.columns| == |db.columns| && ok
        invariant rows == old(rows).(columns := rows.columns)
        invariant ColumnsDone(db, rows.columns, connection, n, j)
        invariant count' == count + Count(p, db.columns[..j])
        invariant failsAfter.None? || count' <= failsAfter.value
        invariant tracker.progress == Advanced(old(tracker.progress), connection, count' - count)
      {
        var c := rows.columns[j];
        ColumnStep(db, rows.columns, connection, n, j);
        CountUpTo(p, db.columns, j);
        CountPrefix(p, db.columns, j);
        if c.table == rows.tables[n].id && !c.embedded {
          AdvancedMore(old(tracker.progress), connection, count' - count);
          AdvancedHas(old(tracker.progress), connection, count' - count);
          ok, count' := EmbedOne(connection, count', failsAfter);
          if !ok {
            return;
          }
          rows := rows.(columns := rows.columns[j := c.(embedded := true)]);
        }
        j := j + 1;
      }
      assert db.columns[..j] == db.columns;
    }

    /** Tables and, for each table embedded now, its columns. */
    method EmbedTables(connection: string, failsAfter: Option<nat>) returns (ok: bool, count: nat)
      requires connection in tracker.progress && KeysDistinct(rows)
      modifies this`rows, tracker
      ensures rows == old(rows).(tables := rows.tables, columns := rows.columns)
      ensures ok ==> TablesDone(old(rows), rows, connection, |old(rows).tables|)
      ensures ok ==> count == Partial(old(rows), connection, |old(rows).tables|)
      ensures !ok ==> failsAfter == Some(count) && count < Partial(old(rows), connection, |old(rows).tables|)
      ensures failsAfter.None? || count <= failsAfter.value
      ensures tracker.progress == Advanced(old(tracker.progress), connection, count)
    {
      hide Count, Partial, ColumnsDone, TablesDone, Advanced, Reached;
      ghost var db := rows;
      ghost var start := tracker.progress;
      ok, count := true, 0;
      AdvancedMore(start, connection, 0);
      PartialNone(db, connection);
      NoneDone(db, connection);
      var i := 0;
      while i < |rows.tables|
        invariant 0 <= i <= |rows.tables| == |db.tables| && ok
        invariant rows == db.(tables := rows.tables, columns := rows.columns)
        invariant TablesDone(db, rows, connection, i)
        invariant count == Partial(db, connection, i)
        invariant failsAfter.None? || count <= failsAfter.value
        invariant tracker.progress == Advanced(start, connection, count)
      {
        var t := rows.tables[i];
        ghost var now := rows;
        BeginTable(db, rows, connection, i);
        PartialGrows(db, connection, i + 1);
        AdvancedHas(start, connection, count);
        if t.connection == connection && !t.embedded {
          PartialNeedy(db, connection, i);
          AdvancedMore(start, connection, count);
          ok, count := EmbedOne(connection, count, failsAfter);
          if !ok {
            return;
          }
          rows := rows.(tables := rows.tables[i := t.(embedded := true)]);
          ghost var before := count;
          AdvancedHas(start, connection, before);
          ok, count := EmbedColumns(connection, i, count, failsAfter, db);
          AdvancedTwice(start, connection, before, count - before);
          if !ok {
            return;
          }
          FinishTable(db, now, rows.columns, connection, i);
        } else {
          PartialOther(db, connection, i);
          SkipTable(db, rows, connection, i);
        }
        i := i + 1;
      }
    }

    /** Glossary terms, metrics and sample queries are embedded alike. */
    method EmbedItems(connection: string, items: seq<Item>, count: nat, failsAfter: Option<nat>)
      returns (ok: bool, count': nat, embedded: seq<Item>)
      requires connection in tracker.progress && (failsAfter.None? || count <= failsAfter.value)
      modifies tracker
      ensures ok ==> embedded == MarkItems(connection, items)
      ensures ok ==> count' == count + Count(NeedyItem(connection), items)
      ensures !ok ==> failsAfter == Some(count') && count' < count + Count(NeedyItem(connection), items)
      ensures failsAfter.None? || count' <= failsAfter.value
      ensures count <= count' && tracker.progress == Advanced(old(tracker.progress), connection, count' - count)
    {
      hide Count, Advanced;
      ghost var p := NeedyItem(connection);
      ghost var start := tracker.progress;
      AdvancedMore(start, connection, 0);
      CountNothing(p, items);
      ok, count', embedded := true, count, items;
      var i := 0;
      while i < |items|
        invariant 0 <= i <= |items| == |embedded| && ok
        invariant forall k :: 0 <= k < i ==> embedded[k] == MarkItem(connection, items[k])
        invariant forall k :: i <= k < |items| ==> embedded[k] == items[k]
        invariant count' == count + Count(p, items[..i])
        invariant failsAfter.None? || count' <= failsAfter.value
        invariant tracker.progress == Advanced(start, connection, count' - count)
      {
        CountUpTo(p, items, i);
        CountPrefix(p, items, i);
        if items[i].connection == connection && !items[i].embedded {
          AdvancedMore(start, connection, count' - count);
          AdvancedHas(start, connection, count' - count);
          ok, count' := EmbedOne(connection, count', failsAfter);
          if !ok {
            return;
          }
          embedded := embedded[i := items[i].(embedded := true)];
        }
        i := i + 1;
      }
      assert items[..i] == items;
    }

    /** Chunks of the connection's documents. */
    method EmbedChunks(connection: string, count: nat, failsAfter: Option<nat>) returns (ok: bool, count': nat)
      requires connection in tracker.progress && (failsAfter.None? || count <= failsAfter.value)
      modifies this`rows, tracker
      ensures rows == old(rows).(chunks := rows.chunks)
      ensures ok ==> rows.chunks == MarkChunks(rows.documents, connection, old(rows).chunks)
      ensures ok ==> count' == count + Count(NeedyChunk(rows.documents, connection), old(rows).chunks)
      ensures !ok ==> failsAfter == Some(count')
      ensures !ok ==> count' < count + Count(NeedyChunk(rows.documents, connection), old(rows).chunks)
      ensures failsAfter.None? || count' <= failsAfter.value
      ensures count <= count' && tracker.progress == Advanced(old(tracker.progress), connection, count' - count)
    {
      hide Count, Advanced, OwnedDocument;
      ghost var p := NeedyChunk(rows.documents, connection);
      ghost var chunks := rows.chunks;
      ghost var start := tracker.progress;
      AdvancedMore(start, connection, 0);
      CountNothing(p, chunks);
      ok, count' := true, count;
      var i := 0;
      while i < |rows.chunks|
        invariant 0 <= i <= |rows.chunks| == |chunks| && ok
        invariant rows == old(rows).(chunks := rows.chunks)
        invariant forall k :: 0 <= k < i ==> rows.chunks[k] == MarkChunk(rows.documents, connection, chunks[k])
        invariant forall k :: i <= k < |chunks| ==> rows.chunks[k] == chunks[k]
        invariant count' == count + Count(p, chunks[..i])
        invariant failsAfter.None? || count' <= failsAfter.value
        invariant tracker.progress == Advanced(start, connection, count' - count)
      {
        CountUpTo(p, chunks, i);
        CountPrefix(p, chunks, i);
        if !rows.chunks[i].embedded && OwnedDocument(rows.documents, connection, rows.chunks[i].document) {
          AdvancedMore(start, connection, count' - count);
          AdvancedHas(start, connection, count' - count);
          ok, count' := EmbedOne(connection, count', failsAfter);
          if !ok {
            return;
          }
          rows := rows.(chunks := rows.chunks[i := rows.chunks[i].(embedded := true)]);
        }
        i := i + 1;
      }
      assert chunks[..i] == chunks;
    }

    /** generate_embeddings_for_connection; false is the EmbeddingError that ends it early. */
    method GenerateEmbeddings(connection: string, failsAfter: Option<nat>) returns (ok: bool, count: nat)
      requires connection in tracker.progress && KeysDistinct(rows)
      modifies this`rows, tracker
      ensures ok <==> !(failsAfter.Some? && failsAfter.value < Embedded(old(rows), connection))
      ensures ok ==> rows == Generated(old(rows), connection) && count == Embedded(old(rows), connection)
      ensures !ok ==> failsAfter == Some(count)
      ensures tracker.progress == Advanced(old(tracker.progress), connection, count)
    {
      hide Count, Partial, TablesDone, Advanced, MarkTables, MarkColumns, MarkItems, MarkChunks;
      ghost var db := rows;
      ghost var start := tracker.progress;
      ghost var before: nat := 0;
      PartialIsEmbedded(db, connection);
      ok, count := EmbedTables(connection, failsAfter);
      if !ok {
        return;
      }
      AllTablesDone(db, rows, connection);
      before := count;
      AdvancedHas(start, connection, before);
      var glossary;
      ok, count, glossary := EmbedItems(connection, rows.glossary, count, failsAfter);
      AdvancedTwice(start, connection, before, count - before);
      if !ok {
        return;
      }
      rows := rows.(glossary := glossary);
      before := count;
      AdvancedHas(start, connection, before);
      var metrics;
      ok, count, metrics := EmbedItems(connection, rows.metrics, count, failsAfter);
      AdvancedTwice(start, connection, before, count - before);
      if !ok {
        return;
      }
      rows := rows.(metrics := metrics);
      before := count;
      AdvancedHas(start, connection, before);
      var queries;
      ok, count, queries := EmbedItems(connection, rows.queries, count, failsAfter);
      AdvancedTwice(start, connection, before, count - before);
      if !ok {
        return;
      }
      rows := rows.(queries := queries);
      before := count;
      AdvancedHas(start, connection, before);
      ok, count := EmbedChunks(connection, count, failsAfter);
      AdvancedTwice(start, connection, before, count - before);
    }

    /** _generate_embeddings_background: count, track, generate, commit; roll back on any failure. */
    method RunInBackground(connection: string, luck: Luck)
      requires rows == committed && KeysDistinct(rows)
      modifies this, tracker
      ensures rows == committed
      ensures (committed, tracker.progress) == Background(old(committed), old(tracker.progress), connection, luck)
    {
      hide CountItems, Embedded, Generated, IncrementedBy;
      if !luck.counts {
        tracker.MarkAsFailed(connection);
        return;
      }
      var total := CountItems(rows, connection);
      if total == 0 {
        return;
      }
      tracker.StartTracking(connection, total);
      var ok, count := GenerateEmbeddings(connection, luck.failsAfter);
      AdvancedFrom(old(tracker.progress), connection, total, count);
      if ok && luck.commits {
        committed := rows;
      } else {
        rows := committed;
        tracker.MarkAsFailed(connection);
      }
    }
  }
}
