/** How old the answers of the column cache in backend/app/semantic/schema_linker.py can be: told from a log
    of fetches, for tables that live and tables that are gone. */
module ColumnFreshness {
  import opened Options
  import opened SchemaStore
  import opened ColumnCache

  /** A table's columns were read from the database, or the cache was cleared. */
  datatype Note = Fetched(table: Id, at: real, columns: seq<ColumnRow>) | Cleared

  /** What was read last for a table, since the cache was last cleared. */
  function LastFetch(log: seq<Note>, table: Id): Option<Note> {
    if log == [] || log[|log| - 1].Cleared? then None
    else if log[|log| - 1].table == table then Some(log[|log| - 1])
    else LastFetch(log[..|log| - 1], table)
  }

  predicate Young(log: seq<Note>, table: Id, ttl: real, now: real) {
    LastFetch(log, table).Some? && LastFetch(log, table).value.Fetched? && now - LastFetch(log, table).value.at < ttl
  }

  /** The log after a lookup: what is asked for and was not read within the time to live is read. */
  function Looked(log: seq<Note>, rows: seq<ColumnRow>, tables: seq<Id>, ttl: real, now: real): seq<Note> {
    if tables == [] then log
    else
      var before, t := Looked(log, rows, tables[..|tables| - 1], ttl, now), tables[|tables| - 1];
      before + if Young(before, t, ttl, now) then [] else [Fetched(t, now, StoredColumns(rows, t))]
  }

  function Logged(ttl: real, s: State, log: seq<Note>, step: Step): seq<Note> {
    match step
    case LookUp(tables) => Looked(log, s.store.columns, tables, ttl, s.now)
    case Clear => log + [Cleared]
    case _ => log
  }

  ghost function Log(ttl: real, s: State, log: seq<Note>, run: seq<Step>): seq<Note>
    decreases |run|
  {
    if run == [] then log else Log(ttl, Apply(ttl, s, run[0]), Logged(ttl, s, log, run[0]), run[1..])
  }

  /** The cache holds what was read last. */
  ghost predicate Holds(cache: Cache, log: seq<Note>) {
    forall t :: if t in cache then LastFetch(log, t) == Some(Fetched(t, cache[t].stamp, cache[t].columns)) else LastFetch(log, t).None?
  }

  lemma FetchSnoc(log: seq<Note>, n: Note, table: Id)
    ensures LastFetch(log + [n], table) ==
      if n.Cleared? then None else if n.table == table then Some(n) else LastFetch(log, table)
  {
    assert (log + [n])[..|log|] == log;
  }

  /** After a lookup, table by table. */
  lemma {:induction false} LookedLast(log: seq<Note>, rows: seq<ColumnRow>, tables: seq<Id>, ttl: real, now: real, table: Id)
    ensures LastFetch(Looked(log, rows, tables, ttl, now), table) ==
      if table in tables && !Young(log, table, ttl, now) then Some(Fetched(table, now, StoredColumns(rows, table)))
      else LastFetch(log, table)
  {
    hide StoredColumns, LastFetch;
    if tables != [] {
      var front, t := tables[..|tables| - 1], tables[|tables| - 1];
      assert tables == front + [t];
      LookedLast(log, rows, front, ttl, now, table);
      var before := Looked(log, rows, front, ttl, now);
      FetchSnoc(before, Fetched(t, now, StoredColumns(rows, t)), table);
      assert before + [] == before;
    }
  }

  lemma StepHolds(ttl: real, s: State, log: seq<Note>, step: Step)
    requires Holds(s.cache, log)
    ensures Holds(Apply(ttl, s, step).cache, Logged(ttl, s, log, step))
  {
    hide StoredColumns, LastFetch, Introspect;
    match step
    case LookUp(tables) =>
      forall t {
        LookedLast(log, s.store.columns, tables, ttl, s.now, t);
      }
    case Clear =>
      forall t {
        FetchSnoc(log, Cleared, t);
      }
    case _ =>
  }

  lemma {:induction false} RunHolds(ttl: real, s: State, log: seq<Note>, run: seq<Step>)
    requires Holds(s.cache, log)
    ensures Holds(Execute(ttl, s, run).cache, Log(ttl, s, log, run))
    decreases |run|
  {
    hide Holds, Apply, Logged;
    if run != [] {
      StepHolds(ttl, s, log, run[0]);
      RunHolds(ttl, Apply(ttl, s, run[0]), Logged(ttl, s, log, run[0]), run[1..]);
    }
  }

  /** How far the clock has moved. */
  function Elapsed(run: seq<Step>): real {
    if run == [] then 0.0
    else Elapsed(run[1..]) + if run[0].Tick? then run[0].elapsed else 0.0
  }

  lemma {:induction false} ClockMoves(ttl: real, s: State, run: seq<Step>)
    ensures Execute(ttl, s, run).now == s.now + Elapsed(run)
    decreases |run|
  {
    if run != [] {
      hide Introspect, AfterLookup;
      ClockMoves(ttl, Apply(ttl, s, run[0]), run[1..]);
    }
  }

  /** After any sequence of introspections, lookups, clock steps and clearings a lookup answers a table,
      whether it still exists or not, with the columns read last for it when they were read less than the time to
      live ago and not cleared since, and with its present columns otherwise. */
  lemma AnswersAreYoung(ttl: real, s: Store, now: real, run: seq<Step>, table: Id)
    ensures Execute(ttl, State(s, map[], now), run).now == now + Elapsed(run)
    ensures var e := Execute(ttl, State(s, map[], now), run);
      var last := LastFetch(Log(ttl, State(s, map[], now), [], run), table);
      Answer(e.cache, e.store.columns, table, ttl, e.now) ==
        if last.Some? && last.value.Fetched? && e.now - last.value.at < ttl then last.value.columns
        else StoredColumns(e.store.columns, table)
  {
    var start := State(s, map[], now);
    assert Holds(map[], []);
    ClockMoves(ttl, start, run);
    RunHolds(ttl, start, [], run);
    hide LastFetch, Execute, Log, StoredColumns;
    var e := Execute(ttl, start, run);
    assert Holds(e.cache, Log(ttl, start, [], run));
  }
}
