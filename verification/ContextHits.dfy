/** Who is served from the context cache of backend/app/semantic/context_builder.py, and with what, told
    from the log of stores and evictions alone. */
module ContextHits {
  import opened Options
  import opened ContextCache

  /** The last store of a key that was not evicted since: the context and its timestamp. */
  function LastStored(log: seq<Event>, key: string): Option<Stamped<Context>> {
    if log == [] then None
    else
      var e, before := log[|log| - 1], LastStored(log[..|log| - 1], key);
      if e.key != key then before
      else if e.Stored? then Some(Stamped(e.context, e.stamp))
      else if e.Evicted? then None
      else before
  }

  function Entry(sh: Shared, key: string): Option<Stamped<Context>> {
    if key in sh.contexts then Some(sh.contexts[key]) else None
  }

  lemma StoredSnoc(log: seq<Event>, e: Event, key: string)
    ensures LastStored(log + [e], key) ==
      if e.key != key then LastStored(log, key)
      else if e.Stored? then Some(Stamped(e.context, e.stamp))
      else if e.Evicted? then None
      else LastStored(log, key)
  {
    assert (log + [e])[..|log|] == log;
  }

  lemma ActionStores(c: Config, s: State, r: RequestId, action: Action, key: string)
    requires Enabled(c, s, Act(r, action)) && Entry(s.shared, key) == LastStored(s.log, key)
    ensures var s' := Apply(c, s, Act(r, action)); Entry(s'.shared, key) == LastStored(s'.log, key)
  {
    hide VictimOk, ContextKey, QuestionKey, LastStored;
    var t := s.tasks[r];
    var e := Do(c, s.shared, s.clock, r, t, action);
    if action.FinishBuild? {
      var stored := Stored(ContextKey(c, t.request), t.phase.now, Context(t.request, t.phase.embedding, r));
      if action.victim.Some? {
        StoredSnoc(s.log, Evicted(action.victim.value), key);
        StoredSnoc(s.log + [Evicted(action.victim.value)], stored, key);
        assert s.log + e.events == s.log + [Evicted(action.victim.value)] + [stored];
      } else {
        StoredSnoc(s.log, stored, key);
        assert e.events == [stored];
      }
    } else {
      ContextsKept(c, s.shared, s.clock, r, t, action);
      if e.events == [] {
        assert s.log + e.events == s.log;
      } else {
        StoredSnoc(s.log, e.events[0], key);
        assert s.log + e.events == s.log + [e.events[0]];
      }
    }
  }

  lemma {:induction false} RunStores(c: Config, s: State, run: seq<Step>, key: string)
    requires Legal(c, s, run) && Entry(s.shared, key) == LastStored(s.log, key)
    ensures var s' := Execute(c, s, run); Entry(s'.shared, key) == LastStored(s'.log, key)
    decreases |run|
  {
    hide Entry, LastStored;
    if run != [] {
      if run[0].Act? {
        ActionStores(c, s, run[0].r, run[0].action, key);
      }
      RunStores(c, Apply(c, s, run[0]), run[1..], key);
    }
  }

  /** In every reachable state a request whose turn it is to check, at first or under the lock, returns at
      once exactly when the last store of its key was not evicted and is younger than the time to live; it
      returns that very context and leaves caches and locks alone.  Otherwise it goes on to its lock, or to a build
      that is logged. */
  lemma ServedExactlyFromLog(c: Config, clock: real, run: seq<Step>, r: RequestId, action: Action)
    requires Legal(c, Init(clock), run)
    requires Enabled(c, Execute(c, Init(clock), run), Act(r, action)) && (action.Check? || action.EnterContext?)
    ensures var s := Execute(c, Init(clock), run);
      var s', key := Apply(c, s, Act(r, action)), ContextKey(c, s.tasks[r].request);
      var stored := LastStored(s.log, key);
      if stored.Some? && s.clock - stored.value.stamp < c.contextTtl then
        s'.tasks[r].phase == Returned(stored.value.value, FromCache(stored.value.stamp, s.clock)) &&
        s'.shared == s.shared && s'.log == s.log
      else if action.Check? then
        s'.tasks[r].phase == AwaitContextLock && s'.log == s.log
      else
        HoldsContext(s'.tasks[r].phase) && s'.log == s.log + [BuildStarted(key, s.clock)]
  {
    var s := Execute(c, Init(clock), run);
    var key := ContextKey(c, s.tasks[r].request);
    RunStores(c, Init(clock), run, key);
    hide LastStored, Execute, ContextKey, QuestionKey;
    assert s.log + [] == s.log;
  }

  lemma KeysOfLocks(locks: Locks, key: string, holder: Option<RequestId>)
    ensures Register(locks, key).Keys == locks.Keys + {key}
    ensures key in locks ==> locks[key := holder].Keys == locks.Keys
  {
  }

  lemma ActionRegisters(c: Config, sh: Shared, now: real, r: RequestId, t: Task, action: Action)
    requires TaskOk(c, sh, r, t) && CanAct(c, sh, t, action)
    ensures var e := Do(c, sh, now, r, t, action);
      (e.shared.contextLocks.Keys ==
        if e.phase.AwaitContextLock? then sh.contextLocks.Keys + {ContextKey(c, t.request)} else sh.contextLocks.Keys) &&
      (e.shared.embeddingLocks.Keys ==
        if e.phase.AwaitEmbeddingLock? then sh.embeddingLocks.Keys + {QuestionKey(c, t.request)} else sh.embeddingLocks.Keys)
  {
    ContextLockRegisters(c, sh, now, r, t, action);
    EmbeddingLockRegisters(c, sh, now, r, t, action);
  }

  lemma ContextLockRegisters(c: Config, sh: Shared, now: real, r: RequestId, t: Task, action: Action)
    requires TaskOk(c, sh, r, t) && CanAct(c, sh, t, action)
    ensures var e := Do(c, sh, now, r, t, action);
      e.shared.contextLocks.Keys ==
        if e.phase.AwaitContextLock? then sh.contextLocks.Keys + {ContextKey(c, t.request)} else sh.contextLocks.Keys
  {
    hide ContextKey, QuestionKey, VictimOk, ContextOk, Register, FreshContext, FreshEmbedding;
    var key := ContextKey(c, t.request);
    KeysOfLocks(sh.contextLocks, key, Some(r));
    KeysOfLocks(sh.contextLocks, key, None);
  }

  lemma EmbeddingLockRegisters(c: Config, sh: Shared, now: real, r: RequestId, t: Task, action: Action)
    requires TaskOk(c, sh, r, t) && CanAct(c, sh, t, action)
    ensures var e := Do(c, sh, now, r, t, action);
      e.shared.embeddingLocks.Keys ==
        if e.phase.AwaitEmbeddingLock? then sh.embeddingLocks.Keys + {QuestionKey(c, t.request)} else sh.embeddingLocks.Keys
  {
    hide ContextKey, QuestionKey, VictimOk, ContextOk, Register, FreshContext, FreshEmbedding;
    var qkey := QuestionKey(c, t.request);
    KeysOfLocks(sh.embeddingLocks, qkey, Some(r));
    KeysOfLocks(sh.embeddingLocks, qkey, None);
  }

  /** In every reachable state a step registers the lock that its request is about to wait for, and no other. */
  lemma LocksRegistered(c: Config, s: State, r: RequestId, action: Action)
    requires c.maxSize >= 1 && Reachable(c, s) && Enabled(c, s, Act(r, action))
    ensures var s', q := Apply(c, s, Act(r, action)), s.tasks[r].request;
      var phase := s'.tasks[r].phase;
      (s'.shared.contextLocks.Keys ==
        if phase.AwaitContextLock? then s.shared.contextLocks.Keys + {ContextKey(c, q)} else s.shared.contextLocks.Keys) &&
      (s'.shared.embeddingLocks.Keys ==
        if phase.AwaitEmbeddingLock? then s.shared.embeddingLocks.Keys + {QuestionKey(c, q)} else s.shared.embeddingLocks.Keys)
  {
    ReachableInv(c, s);
    assert TaskOk(c, s.shared, r, s.tasks[r]);
    hide Reachable, Inv, TaskOk, Do;
    ActionRegisters(c, s.shared, s.clock, r, s.tasks[r], action);
  }

  /** A request can fail whenever it waits for the context lock or holds it, and at no other time. */
  lemma FailsWhileWaiting(c: Config, s: State, r: RequestId)
    requires r < |s.tasks|
    ensures Enabled(c, s, Act(r, Fail)) <==>
      s.tasks[r].phase.AwaitContextLock? || s.tasks[r].phase.AwaitEmbeddingLock? || s.tasks[r].phase.Embedding? ||
      s.tasks[r].phase.Building?
  {
  }
}
