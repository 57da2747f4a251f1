/** Which embedding vector a context is built with: backend/app/semantic/context_builder.py looks into its
    cache, asks the provider when nothing fresh is there, and goes on without a vector when that fails. */
module ContextVectors {
  import opened Options
  import opened ContextCache

  // ----- what a request reads -----------------------------------------------------------------------

  /** A look into the embedding cache, an answer of the provider, or none. */
  datatype Reading =
    | Looked(r: RequestId, at: real, found: Option<Stamped<Vector>>)
    | Answered(r: RequestId, question: string, values: seq<real>)
    | Unavailable(r: RequestId)

  function Found(sh: Shared, qkey: string): Option<Stamped<Vector>> {
    if qkey in sh.embeddings then Some(sh.embeddings[qkey]) else None
  }

  function ReadingsOf(c: Config, s: State, step: Step): seq<Reading>
    requires Enabled(c, s, step)
  {
    if !step.Act? then []
    else
      var q := s.tasks[step.r].request;
      match step.action
      case EnterContext =>
        if FreshContext(c, s.shared, ContextKey(c, q), s.clock).Some? then []
        else [Looked(step.r, s.clock, Found(s.shared, QuestionKey(c, q)))]
      case EnterEmbedding => [Looked(step.r, s.clock, Found(s.shared, QuestionKey(c, q)))]
      case EmbeddingReady(values) => [Answered(step.r, q.question, values)]
      case EmbeddingUnavailable => [Unavailable(step.r)]
      case _ => []
  }

  ghost function Readings(c: Config, s: State, run: seq<Step>): seq<Reading>
    requires Legal(c, s, run)
    decreases |run|
  {
    if run == [] then [] else ReadingsOf(c, s, run[0]) + Readings(c, Apply(c, s, run[0]), run[1..])
  }

  /** The last reading of a request. */
  function LastReading(log: seq<Reading>, r: RequestId): Option<Reading> {
    if log == [] then None
    else if log[|log| - 1].r == r then Some(log[|log| - 1])
    else LastReading(log[..|log| - 1], r)
  }

  /** When a request last looked. */
  function LastLook(log: seq<Reading>, r: RequestId): Option<real> {
    if log == [] then None
    else
      var last := log[|log| - 1];
      if last.r == r && last.Looked? then Some(last.at) else LastLook(log[..|log| - 1], r)
  }

  /** The provider's last answer for a question key, stamped when its request last looked before. */
  function LastAnswer(c: Config, log: seq<Reading>, qkey: string): Option<Stamped<Vector>> {
    if log == [] then None
    else
      var last, before := log[|log| - 1], log[..|log| - 1];
      if last.Answered? && c.normalize(last.question) == qkey && LastLook(before, last.r).Some?
      then Some(Stamped(Vector(last.question, last.values), LastLook(before, last.r).value))
      else LastAnswer(c, before, qkey)
  }

  // ----- what the readings say of the vector -----------------------------------------------------------

  predicate StillFresh(c: Config, found: Option<Stamped<Vector>>, at: real) {
    found.Some? && at - found.value.stamp < c.embeddingTtl
  }

  /** The vector is the one the provider answered to this very request, or the one found fresh when it
      last looked; there is none exactly when the provider was asked and gave none. */
  ghost predicate Told(c: Config, log: seq<Reading>, r: RequestId, q: Request, vector: Option<Vector>) {
    LastReading(log, r).Some? &&
    match LastReading(log, r).value
    case Looked(_, at, found) => StillFresh(c, found, at) && vector == Some(found.value.value)
    case Answered(_, question, values) => question == q.question && vector == Some(Vector(question, values))
    case Unavailable(_) => vector.None?
  }

  /** The request looked last, at that time, and found nothing fresh. */
  ghost predicate FoundNothing(c: Config, log: seq<Reading>, r: RequestId, at: real) {
    LastReading(log, r).Some? && var reading := LastReading(log, r).value;
    reading.Looked? && reading.at == at && !StillFresh(c, reading.found, at)
  }

  ghost predicate TaskTold(c: Config, log: seq<Reading>, r: RequestId, t: Task) {
    match t.phase
    case Arrived => LastReading(log, r).None?
    case AwaitContextLock => LastReading(log, r).None?
    case AwaitEmbeddingLock => exists at :: FoundNothing(c, log, r, at)
    case Embedding(now) => FoundNothing(c, log, r, now)
    case Building(vector, now) => Told(c, log, r, t.request, vector) && LastLook(log, r) == Some(now)
    case Returned(x, origin) =>
      origin.JustBuilt? ==> x.request == t.request && Told(c, log, r, t.request, x.embedding)
    case Raised => true
  }

  /** A logged store is its builder's, stamped when that looked last. */
  ghost predicate StoreTold(s: State, log: seq<Reading>, e: Event) {
    e.Stored? ==>
      e.context.builder < |s.tasks| && s.tasks[e.context.builder].phase == Returned(e.context, JustBuilt) &&
      LastLook(log, e.context.builder) == Some(e.stamp)
  }

  ghost predicate AllTold(c: Config, s: State, log: seq<Reading>) {
    (forall i :: 0 <= i < |log| ==> log[i].r < |s.tasks|) &&
    (forall r :: 0 <= r < |s.tasks| ==> TaskTold(c, log, r, s.tasks[r])) &&
    (forall e :: e in s.log ==> StoreTold(s, log, e)) &&
    (forall qkey :: Found(s.shared, qkey) == LastAnswer(c, log, qkey))
  }

  // ----- every step keeps it -----------------------------------------------------------------------------

  lemma LogSnoc(log: seq<Reading>, x: Reading, r: RequestId)
    ensures LastReading(log + [x], r) == if x.r == r then Some(x) else LastReading(log, r)
    ensures LastLook(log + [x], r) == if x.r == r && x.Looked? then Some(x.at) else LastLook(log, r)
  {
    assert (log + [x])[..|log|] == log;
  }

  lemma AnswerSnoc(c: Config, log: seq<Reading>, x: Reading, qkey: string)
    ensures LastAnswer(c, log + [x], qkey) ==
      if x.Answered? && c.normalize(x.question) == qkey && LastLook(log, x.r).Some?
      then Some(Stamped(Vector(x.question, x.values), LastLook(log, x.r).value))
      else LastAnswer(c, log, qkey)
  {
    assert (log + [x])[..|log|] == log;
  }

  lemma {:induction false} LookedLast(log: seq<Reading>, r: RequestId)
    ensures LastReading(log, r).Some? && LastReading(log, r).value.Looked? ==>
      LastLook(log, r) == Some(LastReading(log, r).value.at)
  {
    if log != [] && log[|log| - 1].r != r {
      LookedLast(log[..|log| - 1], r);
    }
  }

  lemma {:induction false} NoReadingYet(log: seq<Reading>, r: RequestId)
    requires forall i :: 0 <= i < |log| ==> log[i].r < r
    ensures LastReading(log, r).None?
  {
    if log != [] {
      NoReadingYet(log[..|log| - 1], r);
    }
  }

  /** Others' readings tell a task nothing. */
  lemma OtherTold(c: Config, log: seq<Reading>, x: Reading, r: RequestId, t: Task)
    requires TaskTold(c, log, r, t) && x.r != r
    ensures TaskTold(c, log + [x], r, t)
  {
    LogSnoc(log, x, r);
    if t.phase.AwaitEmbeddingLock? {
      var at :| FoundNothing(c, log, r, at);
      assert FoundNothing(c, log + [x], r, at);
    }
  }

  /** The acting task, after what it read. */
  lemma ActorTold(c: Config, s: State, log: seq<Reading>, r: RequestId, action: Action)
    requires Enabled(c, s, Act(r, action)) && TaskTold(c, log, r, s.tasks[r])
    ensures var t := s.tasks[r];
      TaskTold(c, log + ReadingsOf(c, s, Act(r, action)), r, t.(phase := Do(c, s.shared, s.clock, r, t, action).phase))
  {
    hide ContextKey, QuestionKey, VictimOk, LastReading, LastLook, LastAnswer;
    LookedLast(log, r);
    var readings := ReadingsOf(c, s, Act(r, action));
    if readings == [] {
      assert log + readings == log;
    } else {
      LogSnoc(log, readings[0], r);
      if action.EnterContext? && FreshEmbedding(c, s.shared, QuestionKey(c, s.tasks[r].request), s.clock).None? {
        assert FoundNothing(c, log + readings, r, s.clock);
      }
    }
  }

  /** Only an answer changes the embedding cache. */
  lemma EmbeddingsKept(c: Config, sh: Shared, now: real, r: RequestId, t: Task, action: Action)
    requires CanAct(c, sh, t, action) && !action.EmbeddingReady?
    ensures Do(c, sh, now, r, t, action).shared.embeddings == sh.embeddings
  {
  }

  lemma CacheTold(c: Config, s: State, log: seq<Reading>, r: RequestId, action: Action, qkey: string)
    requires Enabled(c, s, Act(r, action)) && TaskTold(c, log, r, s.tasks[r])
    requires Found(s.shared, qkey) == LastAnswer(c, log, qkey)
    ensures Found(Do(c, s.shared, s.clock, r, s.tasks[r], action).shared, qkey) ==
      LastAnswer(c, log + ReadingsOf(c, s, Act(r, action)), qkey)
  {
    hide ContextKey, VictimOk, LastReading, LastLook, LastAnswer;
    var readings := ReadingsOf(c, s, Act(r, action));
    LookedLast(log, r);
    if readings == [] {
      assert log + readings == log;
    } else {
      AnswerSnoc(c, log, readings[0], qkey);
    }
    if !action.EmbeddingReady? {
      EmbeddingsKept(c, s.shared, s.clock, r, s.tasks[r], action);
    }
  }

  /** The events of an action: at most one store, the actor's own. */
  lemma NewStores(c: Config, s: State, r: RequestId, action: Action, e: Event)
    requires Enabled(c, s, Act(r, action))
    requires e in Do(c, s.shared, s.clock, r, s.tasks[r], action).events && e.Stored?
    ensures action.FinishBuild? && e.context.builder == r && e.stamp == s.tasks[r].phase.now
    ensures Do(c, s.shared, s.clock, r, s.tasks[r], action).phase == Returned(e.context, JustBuilt)
    ensures ReadingsOf(c, s, Act(r, action)) == []
  {
    hide ContextKey, QuestionKey, VictimOk, AfterStore;
  }

  lemma StoresTold(c: Config, s: State, log: seq<Reading>, r: RequestId, action: Action, e: Event)
    requires Enabled(c, s, Act(r, action)) && TaskTold(c, log, r, s.tasks[r])
    requires forall past :: past in s.log ==> StoreTold(s, log, past)
    requires e in Apply(c, s, Act(r, action)).log
    ensures StoreTold(Apply(c, s, Act(r, action)), log + ReadingsOf(c, s, Act(r, action)), e)
  {
    hide ContextKey, QuestionKey, VictimOk, Do, LastReading, LastLook, LastAnswer;
    var readings := ReadingsOf(c, s, Act(r, action));
    if e.Stored? {
      if e in s.log {
        assert StoreTold(s, log, e);
        assert e.context.builder != r;
        if readings != [] {
          LogSnoc(log, readings[0], e.context.builder);
        } else {
          assert log + readings == log;
        }
      } else {
        NewStores(c, s, r, action, e);
        assert log + readings == log;
      }
    }
  }

  lemma TasksTold(c: Config, s: State, log: seq<Reading>, r: RequestId, action: Action, i: RequestId)
    requires Enabled(c, s, Act(r, action)) && i < |s.tasks| && TaskTold(c, log, i, s.tasks[i])
    ensures TaskTold(c, log + ReadingsOf(c, s, Act(r, action)), i, Apply(c, s, Act(r, action)).tasks[i])
  {
    hide TaskTold, Do, LastReading, LastLook, LastAnswer;
    if i == r {
      ActorTold(c, s, log, r, action);
    } else {
      var readings := ReadingsOf(c, s, Act(r, action));
      if readings != [] {
        OtherTold(c, log, readings[0], i, s.tasks[i]);
      } else {
        assert log + readings == log;
      }
    }
  }

  lemma StepTold(c: Config, s: State, log: seq<Reading>, step: Step)
    requires AllTold(c, s, log) && Enabled(c, s, step)
    ensures AllTold(c, Apply(c, s, step), log + ReadingsOf(c, s, step))
  {
    hide TaskTold, StoreTold, Found, LastAnswer, Do;
    var s', log' := Apply(c, s, step), log + ReadingsOf(c, s, step);
    match step
    case Act(r, action) =>
      forall i | 0 <= i < |s'.tasks| ensures TaskTold(c, log', i, s'.tasks[i]) {
        TasksTold(c, s, log, r, action, i);
      }
      forall e | e in s'.log ensures StoreTold(s', log', e) {
        StoresTold(c, s, log, r, action, e);
      }
      forall qkey ensures Found(s'.shared, qkey) == LastAnswer(c, log', qkey) {
        CacheTold(c, s, log, r, action, qkey);
      }
    case SetClock(time) =>
      assert log' == log;
      forall e | e in s.log ensures StoreTold(s', log, e) {
        SameTasks(s, s', log, e);
      }
    case Arrive(q) =>
      assert log' == log;
      Newcomer(c, s, log, q);
      forall e | e in s.log ensures StoreTold(s', log, e) {
        SameTasks(s, s', log, e);
      }
  }

  lemma SameTasks(s: State, s': State, log: seq<Reading>, e: Event)
    requires StoreTold(s, log, e) && s.tasks <= s'.tasks
    ensures StoreTold(s', log, e)
  {
  }

  lemma Newcomer(c: Config, s: State, log: seq<Reading>, q: Request)
    requires forall i :: 0 <= i < |log| ==> log[i].r < |s.tasks|
    ensures TaskTold(c, log, |s.tasks|, Task(q, Arrived))
  {
    NoReadingYet(log, |s.tasks|);
  }

  lemma {:induction false} RunTold(c: Config, s: State, log: seq<Reading>, run: seq<Step>)
    requires AllTold(c, s, log) && Legal(c, s, run)
    ensures AllTold(c, Execute(c, s, run), log + Readings(c, s, run))
    decreases |run|
  {
    hide AllTold, Apply, Enabled, ReadingsOf;
    if run == [] {
      assert log + Readings(c, s, run) == log;
    } else {
      StepTold(c, s, log, run[0]);
      RunTold(c, Apply(c, s, run[0]), log + ReadingsOf(c, s, run[0]), run[1..]);
      assert (log + ReadingsOf(c, s, run[0])) + Readings(c, Apply(c, s, run[0]), run[1..]) == log + Readings(c, s, run);
    }
  }

  lemma ReachesTold(c: Config, clock: real, run: seq<Step>)
    requires Legal(c, Init(clock), run)
    ensures AllTold(c, Execute(c, Init(clock), run), Readings(c, Init(clock), run))
  {
    RunTold(c, Init(clock), [], run);
    assert [] + Readings(c, Init(clock), run) == Readings(c, Init(clock), run);
  }

  // ----- over every run ------------------------------------------------------------------------------------

  /** A context just built holds the vector its own request was told. */
  lemma BuiltWithOwnVector(c: Config, clock: real, run: seq<Step>, r: RequestId)
    requires Legal(c, Init(clock), run)
    requires var s := Execute(c, Init(clock), run);
      r < |s.tasks| && s.tasks[r].phase.Returned? && s.tasks[r].phase.origin.JustBuilt?
    ensures var t, log := Execute(c, Init(clock), run).tasks[r], Readings(c, Init(clock), run);
      LastReading(log, r).Some? &&
      match LastReading(log, r).value
      case Looked(_, at, found) =>
        found.Some? && at - found.value.stamp < c.embeddingTtl && t.phase.context.embedding == Some(found.value.value)
      case Answered(_, _, values) => t.phase.context.embedding == Some(Vector(t.request.question, values))
      case Unavailable(_) => t.phase.context.embedding.None?
  {
    hide AllTold, Execute, Legal, Readings;
    ReachesTold(c, clock, run);
    TaskIsTold(c, Execute(c, Init(clock), run), Readings(c, Init(clock), run), r);
  }

  lemma TaskIsTold(c: Config, s: State, log: seq<Reading>, r: RequestId)
    requires AllTold(c, s, log) && r < |s.tasks|
    ensures TaskTold(c, log, r, s.tasks[r])
  {
  }

  /** So does a context that came from the cache: its builder was told its vector, and its stamp is the
      time at which the builder last looked. */
  lemma CachedWithBuildersVector(c: Config, clock: real, run: seq<Step>, r: RequestId)
    requires Legal(c, Init(clock), run)
    requires var s := Execute(c, Init(clock), run);
      r < |s.tasks| && s.tasks[r].phase.Returned? && s.tasks[r].phase.origin.FromCache?
    ensures var p, log := Execute(c, Init(clock), run).tasks[r].phase, Readings(c, Init(clock), run);
      Told(c, log, p.context.builder, p.context.request, p.context.embedding) &&
      LastLook(log, p.context.builder) == Some(p.origin.stamp)
  {
    var s, log := Execute(c, Init(clock), run), Readings(c, Init(clock), run);
    ReachesTold(c, clock, run);
    RunLogged(c, Init(clock), run);
    hide Execute, Legal, Readings, LastReading, LastLook, LastAnswer, Told, ContextKey;
    assert OriginLogged(c, s.log, s.tasks[r]);
    var x := s.tasks[r].phase.context;
    assert StoreTold(s, log, Stored(ContextKey(c, s.tasks[r].request), s.tasks[r].phase.origin.stamp, x));
    assert TaskTold(c, log, x.builder, s.tasks[x.builder]);
  }

  /** The embedding cache holds, for each question key, the provider's last answer with the time at which
      its request had looked; and the provider is asked only after nothing fresh was found. */
  lemma EmbeddingsAreLastAnswers(c: Config, clock: real, run: seq<Step>, qkey: string, r: RequestId)
    requires Legal(c, Init(clock), run)
    ensures var s, log := Execute(c, Init(clock), run), Readings(c, Init(clock), run);
      Found(s.shared, qkey) == LastAnswer(c, log, qkey) &&
      (r < |s.tasks| && s.tasks[r].phase.Embedding? ==> FoundNothing(c, log, r, s.tasks[r].phase.now))
  {
    ReachesTold(c, clock, run);
    hide Execute, Legal, Readings, LastReading, LastLook, LastAnswer;
    var s, log := Execute(c, Init(clock), run), Readings(c, Init(clock), run);
    if r < |s.tasks| {
      assert TaskTold(c, log, r, s.tasks[r]);
    }
  }
}
