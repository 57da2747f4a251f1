/** Which entry the context cache evicts: the comment in backend/app/semantic/context_builder.py calls it
    the least recently used, the code takes the smallest timestamp. */
module ContextUse {
  import opened Options
  import opened ContextCache
  import opened Recency

  // ----- uses ----------------------------------------------------------------------------------------

  /** A step uses an entry when it hits it or stores it. */
  function UseOf(c: Config, s: State, step: Step): Option<string>
    requires Enabled(c, s, step)
  {
    if step.Act? then
      var key := ContextKey(c, s.tasks[step.r].request);
      match step.action
      case Check => if FreshContext(c, s.shared, key, s.clock).Some? then Some(key) else None
      case EnterContext => if FreshContext(c, s.shared, key, s.clock).Some? then Some(key) else None
      case FinishBuild(_) => Some(key)
      case _ => None
    else None
  }

  function Listed(use: Option<string>): seq<string> {
    if use.Some? then [use.value] else []
  }

  ghost function Uses(c: Config, s: State, run: seq<Step>): seq<string>
    requires Legal(c, s, run)
    decreases |run|
  {
    if run == [] then [] else Listed(UseOf(c, s, run[0])) + Uses(c, Apply(c, s, run[0]), run[1..])
  }

  // ----- when timestamps tell the order of use --------------------------------------------------------

  ghost predicate AllUsed(contexts: map<string, Stamped<Context>>, uses: seq<string>) {
    forall k :: k in contexts ==> k in uses
  }

  /** Of two cached entries the one used earlier has the smaller timestamp. */
  ghost predicate InOrder(contexts: map<string, Stamped<Context>>, uses: seq<string>) {
    forall k, l :: k in contexts && l in contexts && k in uses && l in uses && LastUse(uses, k) < LastUse(uses, l) ==>
      contexts[k].stamp < contexts[l].stamp
  }

  /** No other entry has a timestamp as large. */
  predicate Tops(contexts: map<string, Stamped<Context>>, key: string) {
    key in contexts && forall k :: k in contexts && k != key ==> contexts[k].stamp < contexts[key].stamp
  }

  ghost predicate AlwaysInOrder(c: Config, s: State, uses: seq<string>, run: seq<Step>)
    requires Legal(c, s, run)
    decreases |run|
  {
    InOrder(s.shared.contexts, uses) &&
    (run != [] ==> AlwaysInOrder(c, Apply(c, s, run[0]), uses + Listed(UseOf(c, s, run[0])), run[1..]))
  }

  /** Every hit and every store is of the entry that then has the greatest timestamp. */
  ghost predicate EveryUseTops(c: Config, s: State, run: seq<Step>)
    requires Legal(c, s, run)
    decreases |run|
  {
    run != [] ==>
      (var use, s' := UseOf(c, s, run[0]), Apply(c, s, run[0]);
       (use.Some? ==> Tops(s'.shared.contexts, use.value)) && EveryUseTops(c, s', run[1..]))
  }

  /** A step leaves the entries as they are, except that a build's end may take one out and sets its own. */
  ghost predicate Touches(before: map<string, Stamped<Context>>, after: map<string, Stamped<Context>>, key: string) {
    key in after && forall k :: k in after && k != key ==> k in before && after[k] == before[k]
  }

  lemma StepTouches(c: Config, s: State, step: Step)
    requires Enabled(c, s, step)
    ensures var use := UseOf(c, s, step);
      if use.Some? then Touches(s.shared.contexts, Apply(c, s, step).shared.contexts, use.value)
      else Apply(c, s, step).shared.contexts == s.shared.contexts
  {
    hide ContextKey, QuestionKey, VictimOk, AfterFailure;
    if step.Act? && !step.action.FinishBuild? {
      ContextsKept(c, s.shared, s.clock, step.r, s.tasks[step.r], step.action);
    }
  }

  lemma LastIsLast(uses: seq<string>, key: string)
    ensures LastUse(uses + [key], key) == |uses|
  {
  }

  /** One use: the order goes on exactly when the used entry tops the others. */
  lemma UseKeepsOrder(before: map<string, Stamped<Context>>, after: map<string, Stamped<Context>>,
                      uses: seq<string>, key: string)
    requires Touches(before, after, key) && AllUsed(before, uses) && InOrder(before, uses)
    ensures AllUsed(after, uses + [key])
    ensures InOrder(after, uses + [key]) <==> Tops(after, key)
  {
    LastIsLast(uses, key);
    forall k | k in after && k != key ensures k in uses && LastUse(uses + [key], k) == LastUse(uses, k) {
      LastUseSnoc(uses, key, k);
    }
    if InOrder(after, uses + [key]) {
      forall k | k in after && k != key ensures after[k].stamp < after[key].stamp {
        assert k in uses + [key];
      }
    }
  }

  lemma {:induction false} OrderKept(c: Config, s: State, uses: seq<string>, run: seq<Step>)
    requires Legal(c, s, run) && AllUsed(s.shared.contexts, uses) && InOrder(s.shared.contexts, uses)
    ensures AlwaysInOrder(c, s, uses, run) <==> EveryUseTops(c, s, run)
    decreases |run|
  {
    if run != [] {
      hide InOrder, Tops, AllUsed, Touches, UseOf, Apply;
      var use, s' := UseOf(c, s, run[0]), Apply(c, s, run[0]);
      StepTouches(c, s, run[0]);
      if use.Some? {
        UseKeepsOrder(s.shared.contexts, s'.shared.contexts, uses, use.value);
        if Tops(s'.shared.contexts, use.value) {
          OrderKept(c, s', uses + Listed(use), run[1..]);
        }
      } else {
        assert uses + Listed(use) == uses;
        OrderKept(c, s', uses, run[1..]);
      }
    }
  }

  /** Timestamps order the entries by last use at every moment of a run exactly when each hit and each
      store of the run is of the entry with the greatest timestamp. */
  lemma StampsTellUseExactly(c: Config, clock: real, run: seq<Step>)
    requires Legal(c, Init(clock), run)
    ensures AlwaysInOrder(c, Init(clock), [], run) <==> EveryUseTops(c, Init(clock), run)
  {
    OrderKept(c, Init(clock), [], run);
  }

  lemma UsesStep(c: Config, s: State, uses: seq<string>, run: seq<Step>)
    requires Legal(c, s, run) && run != []
    ensures uses + Uses(c, s, run) == (uses + Listed(UseOf(c, s, run[0]))) + Uses(c, Apply(c, s, run[0]), run[1..])
  {
    hide UseOf, Apply;
  }

  lemma {:induction false} OrderAtEnd(c: Config, s: State, uses: seq<string>, run: seq<Step>)
    requires Legal(c, s, run) && AllUsed(s.shared.contexts, uses) && AlwaysInOrder(c, s, uses, run)
    ensures var s' := Execute(c, s, run);
      AllUsed(s'.shared.contexts, uses + Uses(c, s, run)) && InOrder(s'.shared.contexts, uses + Uses(c, s, run))
    decreases |run|
  {
    hide InOrder, AllUsed, Touches, UseOf, Apply, Enabled;
    if run == [] {
      assert uses + Uses(c, s, run) == uses;
    } else {
      hide Uses;
      var use, s' := UseOf(c, s, run[0]), Apply(c, s, run[0]);
      StepTouches(c, s, run[0]);
      if use.Some? {
        UsedStill(s.shared.contexts, s'.shared.contexts, uses, use.value);
      } else {
        assert uses + Listed(use) == uses;
      }
      UsesStep(c, s, uses, run);
      OrderAtEnd(c, s', uses + Listed(use), run[1..]);
    }
  }

  lemma UsedStill(before: map<string, Stamped<Context>>, after: map<string, Stamped<Context>>, uses: seq<string>,
      key: string)
    requires Touches(before, after, key) && AllUsed(before, uses)
    ensures AllUsed(after, uses + [key])
  {
  }

  /** After such a run every eviction takes the least recently used entry. */
  lemma EvictsLeastRecentlyUsed(c: Config, clock: real, run: seq<Step>, r: RequestId, victim: string)
    requires Legal(c, Init(clock), run) && EveryUseTops(c, Init(clock), run)
    requires Enabled(c, Execute(c, Init(clock), run), Act(r, FinishBuild(Some(victim))))
    ensures var s, uses := Execute(c, Init(clock), run), Uses(c, Init(clock), run);
      victim in s.shared.contexts && victim in uses &&
      forall other :: other in s.shared.contexts && other != victim ==>
        other in uses && LastUse(uses, victim) < LastUse(uses, other)
  {
    StampsTellUseExactly(c, clock, run);
    OrderAtEnd(c, Init(clock), [], run);
    var s, uses := Execute(c, Init(clock), run), Uses(c, Init(clock), run);
    assert [] + uses == uses;
    OldestIsLeastRecent(s.shared.contexts, uses, victim);
  }

  lemma OldestIsLeastRecent(contexts: map<string, Stamped<Context>>, uses: seq<string>, victim: string)
    requires AllUsed(contexts, uses) && InOrder(contexts, uses) && Oldest(contexts, victim)
    ensures victim in contexts && victim in uses
    ensures forall other :: other in contexts && other != victim ==>
      other in uses && LastUse(uses, victim) < LastUse(uses, other)
  {
    forall other | other in contexts && other != victim
      ensures other in uses && LastUse(uses, victim) < LastUse(uses, other)
    {
      assert uses[LastUse(uses, victim)] == victim && uses[LastUse(uses, other)] == other;
    }
  }

  // ----- a run in which they do not ---------------------------------------------------------------------

  lemma {:induction false} RunsJoin(c: Config, s: State, a: seq<Step>, b: seq<Step>)
    requires Legal(c, s, a) && Legal(c, Execute(c, s, a), b)
    ensures Legal(c, s, a + b) && Execute(c, s, a + b) == Execute(c, Execute(c, s, a), b)
    ensures Uses(c, s, a + b) == Uses(c, s, a) + Uses(c, Execute(c, s, a), b)
    decreases |a|
  {
    hide Apply, UseOf, Enabled;
    if a == [] {
      assert a + b == b;
    } else {
      assert (a + b)[0] == a[0] && (a + b)[1..] == a[1..] + b;
      RunsJoin(c, Apply(c, s, a[0]), a[1..], b);
    }
  }

  lemma OneStep(c: Config, s: State, step: Step)
    requires Enabled(c, s, step)
    ensures Legal(c, s, [step]) && Execute(c, s, [step]) == Apply(c, s, step)
    ensures Uses(c, s, [step]) == Listed(UseOf(c, s, step))
  {
    hide Apply, UseOf, Enabled;
    assert [step][1..] == [];
  }

  /** The run so far and the state and uses it leads to. */
  ghost predicate LeadsTo(c: Config, clock: real, run: seq<Step>, s: State, uses: seq<string>) {
    Legal(c, Init(clock), run) && Execute(c, Init(clock), run) == s && Uses(c, Init(clock), run) == uses
  }

  lemma Then(c: Config, clock: real, run: seq<Step>, s: State, uses: seq<string>, step: Step)
    requires LeadsTo(c, clock, run, s, uses) && Enabled(c, s, step)
    ensures LeadsTo(c, clock, run + [step], Apply(c, s, step), uses + Listed(UseOf(c, s, step)))
  {
    hide Apply, UseOf, Enabled;
    OneStep(c, s, step);
    RunsJoin(c, Init(clock), run, [step]);
  }

  lemma ThenQuietly(c: Config, clock: real, run: seq<Step>, s: State, uses: seq<string>, step: Step)
    requires LeadsTo(c, clock, run, s, uses) && Enabled(c, s, step) && UseOf(c, s, step).None?
    ensures LeadsTo(c, clock, run + [step], Apply(c, s, step), uses)
  {
    hide LeadsTo, Apply, UseOf, Enabled;
    Then(c, clock, run, s, uses, step);
    assert uses + [] == uses;
  }

  /** The task and the locks of a build whose embedding call failed. */
  function Begun(c: Config, s: State, q: Request): State {
    var key, qkey, r := ContextKey(c, q), QuestionKey(c, q), |s.tasks|;
    s.(shared := s.shared.(
         contextLocks := s.shared.contextLocks[key := Some(r)],
         embeddingLocks := s.shared.embeddingLocks[qkey := None]),
       tasks := s.tasks + [Task(q, Building(None, s.clock))],
       log := s.log + [BuildStarted(key, s.clock)])
  }

  predicate IsIdle(locks: Locks, key: string) {
    key in locks ==> locks[key].None?
  }

  /** The task waits for its context, both locks registered and free. */
  function Waiting(c: Config, s: State, q: Request): State {
    s.(shared := s.shared.(contextLocks := Register(s.shared.contextLocks, ContextKey(c, q))),
       tasks := s.tasks + [Task(q, AwaitContextLock)])
  }

  lemma Comes(c: Config, clock: real, before: seq<Step>, s: State, uses: seq<string>, q: Request) returns (run: seq<Step>)
    requires LeadsTo(c, clock, before, s, uses) && Plain(q) && ContextKey(c, q) !in s.shared.contexts
    ensures LeadsTo(c, clock, run, Waiting(c, s, q), uses)
  {
    hide LeadsTo, ContextKey;
    var r := |s.tasks|;
    ThenQuietly(c, clock, before, s, uses, Arrive(q));
    run := before + [Arrive(q)];
    var s' := Apply(c, s, Arrive(q));
    ThenQuietly(c, clock, run, s', uses, Act(r, Check));
    run := run + [Act(r, Check)];
    assert Apply(c, s', Act(r, Check)) == Waiting(c, s, q);
  }

  /** The context lock is taken, the embedding lock registered. */
  function Entered(c: Config, s: State, q: Request): State {
    var key, qkey, r := ContextKey(c, q), QuestionKey(c, q), |s.tasks|;
    s.(shared := s.shared.(
         contextLocks := s.shared.contextLocks[key := Some(r)],
         embeddingLocks := Register(s.shared.embeddingLocks, qkey)),
       tasks := s.tasks + [Task(q, AwaitEmbeddingLock)],
       log := s.log + [BuildStarted(key, s.clock)])
  }

  lemma Enters(c: Config, clock: real, before: seq<Step>, s: State, uses: seq<string>, q: Request) returns (run: seq<Step>)
    requires LeadsTo(c, clock, before, Waiting(c, s, q), uses)
    requires ContextKey(c, q) !in s.shared.contexts && QuestionKey(c, q) !in s.shared.embeddings
    requires IsIdle(s.shared.contextLocks, ContextKey(c, q))
    ensures LeadsTo(c, clock, run, Entered(c, s, q), uses)
  {
    hide LeadsTo, ContextKey, QuestionKey;
    var r, w := |s.tasks|, Waiting(c, s, q);
    ThenQuietly(c, clock, before, w, uses, Act(r, EnterContext));
    run := before + [Act(r, EnterContext)];
    assert Register(s.shared.contextLocks, ContextKey(c, q))[ContextKey(c, q) := Some(r)] ==
      s.shared.contextLocks[ContextKey(c, q) := Some(r)];
    assert Apply(c, w, Act(r, EnterContext)) == Entered(c, s, q);
  }

  lemma Embeds(c: Config, clock: real, before: seq<Step>, s: State, uses: seq<string>, q: Request) returns (run: seq<Step>)
    requires LeadsTo(c, clock, before, Entered(c, s, q), uses)
    requires QuestionKey(c, q) !in s.shared.embeddings && IsIdle(s.shared.embeddingLocks, QuestionKey(c, q))
    ensures LeadsTo(c, clock, run, Begun(c, s, q), uses)
  {
    hide LeadsTo, ContextKey, QuestionKey;
    var r, e := |s.tasks|, Entered(c, s, q);
    ThenQuietly(c, clock, before, e, uses, Act(r, EnterEmbedding));
    run := before + [Act(r, EnterEmbedding)];
    var s' := Apply(c, e, Act(r, EnterEmbedding));
    ThenQuietly(c, clock, run, s', uses, Act(r, EmbeddingUnavailable));
    run := run + [Act(r, EmbeddingUnavailable)];
    assert Apply(c, s', Act(r, EmbeddingUnavailable)) == Begun(c, s, q);
  }

  lemma Begins(c: Config, clock: real, before: seq<Step>, s: State, uses: seq<string>, q: Request) returns (run: seq<Step>)
    requires LeadsTo(c, clock, before, s, uses) && Plain(q)
    requires ContextKey(c, q) !in s.shared.contexts && QuestionKey(c, q) !in s.shared.embeddings
    requires IsIdle(s.shared.contextLocks, ContextKey(c, q)) && IsIdle(s.shared.embeddingLocks, QuestionKey(c, q))
    ensures LeadsTo(c, clock, run, Begun(c, s, q), uses)
  {
    hide LeadsTo, ContextKey, QuestionKey;
    run := Comes(c, clock, before, s, uses, q);
    run := Enters(c, clock, run, s, uses, q);
    run := Embeds(c, clock, run, s, uses, q);
  }

  function Asking(connectionId: string): Request {
    Request(connectionId, "", "")
  }

  lemma KeysApart(c: Config, p: string, q: string)
    requires p != q && ':' !in p && ':' !in q
    ensures ContextKey(c, Asking(p)) != ContextKey(c, Asking(q))
  {
    ContextKeyInjective(c, Asking(p), Asking(q));
  }

  /** Build a starts, the clock moves on, build b starts. */
  lemma TwoBuilds(c: Config) returns (run: seq<Step>, s: State)
    ensures LeadsTo(c, 0.0, run, s, []) && s.clock == c.contextTtl / 2.0
    ensures s.shared.contexts == map[] && s.shared.embeddings == map[]
    ensures s.shared.contextLocks == map[ContextKey(c, Asking("a")) := Some(0), ContextKey(c, Asking("b")) := Some(1)]
    ensures s.shared.embeddingLocks == map[c.normalize("") := None]
    ensures s.tasks == [Task(Asking("a"), Building(None, 0.0)), Task(Asking("b"), Building(None, c.contextTtl / 2.0))]
  {
    hide ContextKey;
    KeysApart(c, "a", "b");
    run, s := [], Init(0.0);
    run := Begins(c, 0.0, run, s, [], Asking("a"));
    s := Begun(c, s, Asking("a"));
    hide LeadsTo;
    ThenQuietly(c, 0.0, run, s, [], SetClock(c.contextTtl / 2.0));
    run, s := run + [SetClock(c.contextTtl / 2.0)], Apply(c, s, SetClock(c.contextTtl / 2.0));
    run := Begins(c, 0.0, run, s, [], Asking("b"));
    s := Begun(c, s, Asking("b"));
  }

  /** A build ends with room in the cache. */
  function Ended(c: Config, s: State, r: RequestId): State
    requires r < |s.tasks| && s.tasks[r].phase.Building?
  {
    var t := s.tasks[r];
    var key, built := ContextKey(c, t.request), Context(t.request, t.phase.embedding, r);
    s.(shared := AfterStore(s.shared, key, built, t.phase.now, None),
       tasks := s.tasks[r := t.(phase := Returned(built, JustBuilt))],
       log := s.log + [Stored(key, t.phase.now, built)])
  }

  lemma Ends(c: Config, before: seq<Step>, s: State, uses: seq<string>, r: RequestId) returns (run: seq<Step>)
    requires LeadsTo(c, 0.0, before, s, uses) && r < |s.tasks| && s.tasks[r].phase.Building?
    requires |s.shared.contexts| < c.maxSize
    ensures LeadsTo(c, 0.0, run, Ended(c, s, r), uses + [ContextKey(c, s.tasks[r].request)])
  {
    hide ContextKey, LeadsTo, AfterStore;
    Then(c, 0.0, before, s, uses, Act(r, FinishBuild(None)));
    run := before + [Act(r, FinishBuild(None))];
    assert Apply(c, s, Act(r, FinishBuild(None))) == Ended(c, s, r);
  }

  /** Both are stored, a last. */
  lemma StoredInTurn(c: Config) returns (run: seq<Step>, s: State)
    requires c.maxSize == 2 && c.contextTtl > 0.0
    ensures var a, b := ContextKey(c, Asking("a")), ContextKey(c, Asking("b"));
      LeadsTo(c, 0.0, run, s, [b, a]) && s.shared.contexts.Keys == {a, b} &&
      s.shared.contexts[a].stamp == 0.0 && s.shared.contexts[b].stamp == c.contextTtl / 2.0 &&
      s.shared.contextLocks == map[a := None, b := None]
    ensures s.shared.embeddings == map[] && s.shared.embeddingLocks == map[c.normalize("") := None]
    ensures |s.tasks| == 2 && s.clock == c.contextTtl / 2.0
  {
    run, s := TwoBuilds(c);
    KeysApart(c, "a", "b");
    var a, b := ContextKey(c, Asking("a")), ContextKey(c, Asking("b"));
    hide ContextKey, LeadsTo;
    run := Ends(c, run, s, [], 1);
    s := Ended(c, s, 1);
    assert s.tasks[0] == Task(Asking("a"), Building(None, 0.0)) && s.shared.contexts.Keys == {b};
    assert |s.shared.contexts| == |s.shared.contexts.Keys|;
    assert [] + [b] == [b];
    run := Ends(c, run, s, [b], 0);
    s := Ended(c, s, 0);
    assert [b] + [a] == [b, a];
  }

  /** a is then hit. */
  lemma LaterUsedFirstStamped(c: Config) returns (run: seq<Step>, s: State)
    requires c.maxSize == 2 && c.contextTtl > 0.0
    ensures var a, b := ContextKey(c, Asking("a")), ContextKey(c, Asking("b"));
      LeadsTo(c, 0.0, run, s, [b, a, a]) && s.shared.contexts.Keys == {a, b} &&
      s.shared.contexts[a].stamp == 0.0 && s.shared.contexts[b].stamp == c.contextTtl / 2.0 &&
      s.shared.contextLocks == map[a := None, b := None]
    ensures s.shared.embeddings == map[] && s.shared.embeddingLocks == map[c.normalize("") := None]
  {
    run, s := StoredInTurn(c);
    var a, b := ContextKey(c, Asking("a")), ContextKey(c, Asking("b"));
    hide ContextKey, LeadsTo;
    ThenQuietly(c, 0.0, run, s, [b, a], Arrive(Asking("a")));
    run, s := run + [Arrive(Asking("a"))], Apply(c, s, Arrive(Asking("a")));
    Then(c, 0.0, run, s, [b, a], Act(2, Check));
    run, s := run + [Act(2, Check)], Apply(c, s, Act(2, Check));
    assert [b, a] + [a] == [b, a, a];
  }

  /** With room for two, a run in which the entry stored last and hit last is the only one the code may
      evict: its build took its timestamp first. */
  lemma MostRecentlyUsedEvicted(c: Config) returns (run: seq<Step>, r: RequestId)
    requires c.maxSize == 2 && c.contextTtl > 0.0
    ensures Legal(c, Init(0.0), run)
    ensures var a, b := ContextKey(c, Asking("a")), ContextKey(c, Asking("b"));
      var s := Execute(c, Init(0.0), run);
      a != b && Uses(c, Init(0.0), run) == [b, a, a] && s.shared.contexts.Keys == {a, b} &&
      forall victim :: Enabled(c, s, Act(r, FinishBuild(victim))) <==> victim == Some(a)
  {
    var s: State;
    run, s := LaterUsedFirstStamped(c);
    r := |s.tasks|;
    KeysApart(c, "a", "b");
    KeysApart(c, "a", "c");
    KeysApart(c, "b", "c");
    var a, b := ContextKey(c, Asking("a")), ContextKey(c, Asking("b"));
    hide ContextKey, LeadsTo;
    run := Begins(c, 0.0, run, s, [b, a, a], Asking("c"));
    s := Begun(c, s, Asking("c"));
    LedTo(c, run, s, [b, a, a]);
    assert |s.shared.contexts| == |s.shared.contexts.Keys| == 2;
    assert Oldest(s.shared.contexts, a) && !Oldest(s.shared.contexts, b);
  }

  lemma LedTo(c: Config, run: seq<Step>, s: State, uses: seq<string>)
    requires LeadsTo(c, 0.0, run, s, uses)
    ensures Legal(c, Init(0.0), run) && Execute(c, Init(0.0), run) == s && Uses(c, Init(0.0), run) == uses
  {
  }
}
