/** The single-flight context cache of backend/app/semantic/context_builder.py.

    The four module dictionaries are the record `Shared`; a step of the machine is
    the code a request runs between two suspension points, so a run of the machine
    is one interleaving of any number of requests.  Everything a build reads from
    the database is left out: a built context remembers only what it was built for. */
module ContextCache {
  import opened ColonKeys
  import opened Options

  type RequestId = nat

  datatype Config = Config(
    contextTtl: real,
    embeddingTtl: real,
    maxSize: nat,
    normalize: string -> string)  // question.lower().strip()

  datatype Request = Request(connectionId: string, question: string, dialect: string)

  /** An embedding vector, tagged with the question text it was computed from. */
  datatype Vector = Vector(question: string, values: seq<real>)

  /** A built context, tagged with what it was built for and by whom. */
  datatype Context = Context(request: Request, embedding: Option<Vector>, builder: RequestId)

  datatype Stamped<T> = Stamped(value: T, stamp: real)

  /** A dictionary of locks: registered keys, each free (None) or held. */
  type Locks = map<string, Option<RequestId>>

  datatype Shared = Shared(
    contexts: map<string, Stamped<Context>>,
    contextLocks: Locks,
    embeddings: map<string, Stamped<Vector>>,
    embeddingLocks: Locks)

  datatype Origin = FromCache(stamp: real, checkedAt: real) | JustBuilt

  datatype Phase =
    | Arrived
    | AwaitContextLock
    | AwaitEmbeddingLock
    | Embedding(now: real)
    | Building(embedding: Option<Vector>, now: real)
    | Returned(context: Context, origin: Origin)
    | Raised

  datatype Task = Task(request: Request, phase: Phase)

  datatype Event =
    | BuildStarted(key: string, at: real)
    | BuildFailed(key: string)
    | Stored(key: string, stamp: real, context: Context)
    | Evicted(key: string)

  datatype State = State(clock: real, shared: Shared, tasks: seq<Task>, log: seq<Event>)

  datatype Action =
    | Check
    | EnterContext
    | EnterEmbedding
    | EmbeddingReady(values: seq<real>)
    | EmbeddingUnavailable
    | FinishBuild(victim: Option<string>)
    | Fail

  datatype Step = Arrive(request: Request) | SetClock(time: real) | Act(r: RequestId, action: Action)

  // ----- keys -------------------------------------------------------------

  function QuestionKey(c: Config, q: Request): string {
    c.normalize(q.question)
  }

  function ContextKey(c: Config, q: Request): string {
    q.connectionId + ":" + c.normalize(q.question) + ":" + q.dialect
  }

  /** Connection ids are UUID strings and dialects are connector names: no colon. */
  predicate Plain(q: Request) {
    ':' !in q.connectionId && ':' !in q.dialect
  }

  /** Two requests share a cache key only when they ask the same thing of the same connection. */
  lemma ContextKeyInjective(c: Config, p: Request, q: Request)
    requires Plain(p) && Plain(q)
    ensures ContextKey(c, p) == ContextKey(c, q) <==>
      p.connectionId == q.connectionId && p.dialect == q.dialect &&
      QuestionKey(c, p) == QuestionKey(c, q)
  {
    if ContextKey(c, p) == ContextKey(c, q) {
      var x := c.normalize(p.question) + ":" + p.dialect;
      var y := c.normalize(q.question) + ":" + q.dialect;
      assert ContextKey(c, p) == p.connectionId + ":" + x;
      assert ContextKey(c, q) == q.connectionId + ":" + y;
      SplitAtColon(p.connectionId, x, q.connectionId, y);
      SplitAtLast(c.normalize(p.question), p.dialect, c.normalize(q.question), q.dialect);
    }
  }

  // ----- the code between suspension points, on the shared dictionaries ----

  function FreshContext(c: Config, sh: Shared, key: string, now: real): Option<Context> {
    if key in sh.contexts && now - sh.contexts[key].stamp < c.contextTtl
    then Some(sh.contexts[key].value)
    else None
  }

  function FreshEmbedding(c: Config, sh: Shared, key: string, now: real): Option<Vector> {
    if key in sh.embeddings && now - sh.embeddings[key].stamp < c.embeddingTtl
    then Some(sh.embeddings[key].value)
    else None
  }

  function Register(locks: Locks, key: string): Locks {
    if key in locks then locks else locks[key := None]
  }

  function AfterCheck(c: Config, sh: Shared, key: string, now: real): Shared {
    if FreshContext(c, sh, key, now).Some? then sh
    else sh.(contextLocks := Register(sh.contextLocks, key))
  }

  /** The context lock was just granted to `r`: a hit gives it straight back, a miss keeps
      it and goes on to the embedding lookup. */
  function AfterEnterContext(c: Config, sh: Shared, key: string, qkey: string, r: RequestId, now: real): Shared {
    if FreshContext(c, sh, key, now).Some? then sh
    else
      var held := sh.(contextLocks := sh.contextLocks[key := Some(r)]);
      if FreshEmbedding(c, sh, qkey, now).Some? then held
      else held.(embeddingLocks := Register(held.embeddingLocks, qkey))
  }

  function AfterEnterEmbedding(c: Config, sh: Shared, qkey: string, r: RequestId, now: real): Shared {
    if FreshEmbedding(c, sh, qkey, now).Some? then sh
    else sh.(embeddingLocks := sh.embeddingLocks[qkey := Some(r)])
  }

  function AfterEmbedding(sh: Shared, qkey: string, result: Option<Vector>, now: real): Shared {
    sh.(embeddings := if result.Some? then sh.embeddings[qkey := Stamped(result.value, now)] else sh.embeddings,
        embeddingLocks := sh.embeddingLocks[qkey := None])
  }

  predicate Oldest(contexts: map<string, Stamped<Context>>, key: string) {
    key in contexts && forall k :: k in contexts ==> contexts[key].stamp <= contexts[k].stamp
  }

  function AfterStore(sh: Shared, key: string, built: Context, now: real, victim: Option<string>): Shared {
    var kept := if victim.Some? then sh.contexts - {victim.value} else sh.contexts;
    sh.(contexts := kept[key := Stamped(built, now)], contextLocks := sh.contextLocks[key := None])
  }

  function AfterFailure(sh: Shared, key: string, qkey: string, phase: Phase): Shared {
    if HoldsContext(phase) then
      var released := sh.(contextLocks := sh.contextLocks[key := None]);
      if phase.Embedding? then released.(embeddingLocks := released.embeddingLocks[qkey := None]) else released
    else sh
  }

  predicate HoldsContext(p: Phase) {
    p.AwaitEmbeddingLock? || p.Embedding? || p.Building?
  }

  predicate Finished(p: Phase) {
    p.Returned? || p.Raised?
  }

  // ----- the machine --------------------------------------------------------

  function Init(clock: real): State {
    State(clock, Shared(map[], map[], map[], map[]), [], [])
  }

  predicate VictimOk(c: Config, sh: Shared, victim: Option<string>) {
    if |sh.contexts| >= c.maxSize then victim.Some? && Oldest(sh.contexts, victim.value) else victim.None?
  }

  predicate CanAct(c: Config, sh: Shared, t: Task, action: Action) {
    match action
    case Check => t.phase.Arrived?
    case EnterContext =>
      t.phase.AwaitContextLock? &&
      ContextKey(c, t.request) in sh.contextLocks && sh.contextLocks[ContextKey(c, t.request)].None?
    case EnterEmbedding =>
      t.phase.AwaitEmbeddingLock? &&
      QuestionKey(c, t.request) in sh.embeddingLocks && sh.embeddingLocks[QuestionKey(c, t.request)].None?
    case EmbeddingReady(_) => t.phase.Embedding?
    case EmbeddingUnavailable => t.phase.Embedding?
    case FinishBuild(victim) => t.phase.Building? && VictimOk(c, sh, victim)
    case Fail => t.phase.AwaitContextLock? || HoldsContext(t.phase)
  }

  datatype Effect = Effect(shared: Shared, phase: Phase, events: seq<Event>)

  function Hit(c: Config, sh: Shared, key: string, now: real): Phase
    requires FreshContext(c, sh, key, now).Some?
  {
    Returned(sh.contexts[key].value, FromCache(sh.contexts[key].stamp, now))
  }

  function Do(c: Config, sh: Shared, now: real, r: RequestId, t: Task, action: Action): Effect
    requires CanAct(c, sh, t, action)
  {
    var key, qkey := ContextKey(c, t.request), QuestionKey(c, t.request);
    match action
    case Check =>
      Effect(AfterCheck(c, sh, key, now),
        if FreshContext(c, sh, key, now).Some? then Hit(c, sh, key, now) else AwaitContextLock, [])
    case EnterContext =>
      var vec := FreshEmbedding(c, sh, qkey, now);
      Effect(AfterEnterContext(c, sh, key, qkey, r, now),
        if FreshContext(c, sh, key, now).Some? then Hit(c, sh, key, now)
        else if vec.Some? then Building(vec, now)
        else AwaitEmbeddingLock,
        if FreshContext(c, sh, key, now).Some? then [] else [BuildStarted(key, now)])
    case EnterEmbedding =>
      var vec := FreshEmbedding(c, sh, qkey, now);
      Effect(AfterEnterEmbedding(c, sh, qkey, r, now), if vec.Some? then Building(vec, now) else Embedding(now), [])
    case EmbeddingReady(values) =>
      var vec := Vector(t.request.question, values);
      Effect(AfterEmbedding(sh, qkey, Some(vec), t.phase.now), Building(Some(vec), t.phase.now), [])
    case EmbeddingUnavailable =>
      Effect(AfterEmbedding(sh, qkey, None, t.phase.now), Building(None, t.phase.now), [])
    case FinishBuild(victim) =>
      var built := Context(t.request, t.phase.embedding, r);
      Effect(AfterStore(sh, key, built, t.phase.now, victim), Returned(built, JustBuilt),
        (if victim.Some? then [Evicted(victim.value)] else []) + [Stored(key, t.phase.now, built)])
    case Fail =>
      Effect(AfterFailure(sh, key, qkey, t.phase), Raised, if HoldsContext(t.phase) then [BuildFailed(key)] else [])
  }

  predicate Enabled(c: Config, s: State, step: Step) {
    match step
    case Arrive(q) => Plain(q)
    case SetClock(_) => true  // time.time() may be set to anything, even backwards
    case Act(r, action) => r < |s.tasks| && CanAct(c, s.shared, s.tasks[r], action)
  }

  function Apply(c: Config, s: State, step: Step): State
    requires Enabled(c, s, step)
  {
    match step
    case Arrive(q) => s.(tasks := s.tasks + [Task(q, Arrived)])
    case SetClock(t) => s.(clock := t)
    case Act(r, action) =>
      var e := Do(c, s.shared, s.clock, r, s.tasks[r], action);
      s.(shared := e.shared, tasks := s.tasks[r := s.tasks[r].(phase := e.phase)], log := s.log + e.events)
  }

  ghost predicate Legal(c: Config, s: State, run: seq<Step>)
    decreases |run|
  {
    run == [] || (Enabled(c, s, run[0]) && Legal(c, Apply(c, s, run[0]), run[1..]))
  }

  ghost function Execute(c: Config, s: State, run: seq<Step>): State
    requires Legal(c, s, run)
    decreases |run|
  {
    if run == [] then s else Execute(c, Apply(c, s, run[0]), run[1..])
  }

  // ----- reading the log ------------------------------------------------------

  /** How many builds of `key` the log shows as started and not yet ended. */
  function InFlight(log: seq<Event>, key: string): int {
    if log == [] then 0
    else
      var e, before := log[|log| - 1], InFlight(log[..|log| - 1], key);
      if e.key != key then before
      else if e.BuildStarted? then before + 1
      else if e.Evicted? then before
      else before - 1
  }

  /** The stamp of the last build of `key` stored and not evicted since. */
  function LiveStamp(log: seq<Event>, key: string): Option<real> {
    if log == [] then None
    else
      var e, before := log[|log| - 1], LiveStamp(log[..|log| - 1], key);
      if e.key != key then before
      else if e.Stored? then Some(e.stamp)
      else if e.Evicted? then None
      else before
  }

  /** The event is allowed after the log: one build at a time, and only when nothing fresh is live. */
  predicate EventOk(c: Config, log: seq<Event>, e: Event) {
    match e
    case BuildStarted(key, at) =>
      InFlight(log, key) == 0 &&
      (LiveStamp(log, key).Some? ==> at - LiveStamp(log, key).value >= c.contextTtl)
    case BuildFailed(key) => InFlight(log, key) == 1
    case Stored(key, _, _) => InFlight(log, key) == 1
    case Evicted(key) => LiveStamp(log, key).Some?
  }

  ghost predicate LogOk(c: Config, log: seq<Event>) {
    forall j :: 0 <= j < |log| ==> EventOk(c, log[..j], log[j])
  }

  lemma LogExtends(c: Config, log: seq<Event>, e: Event)
    requires LogOk(c, log) && EventOk(c, log, e)
    ensures LogOk(c, log + [e])
  {
    forall j | 0 <= j < |log + [e]| ensures EventOk(c, (log + [e])[..j], (log + [e])[j]) {
      assert (log + [e])[..j] == log[..j];
      assert j == |log| ==> log[..j] == log;
    }
  }

  // ----- the invariant ----------------------------------------------------------

  ghost predicate TaskOk(c: Config, sh: Shared, r: RequestId, t: Task) {
    var key, qkey := ContextKey(c, t.request), QuestionKey(c, t.request);
    Plain(t.request) &&
    (t.phase.AwaitContextLock? ==> key in sh.contextLocks) &&
    (HoldsContext(t.phase) ==> key in sh.contextLocks && sh.contextLocks[key] == Some(r)) &&
    (t.phase.AwaitEmbeddingLock? ==> qkey in sh.embeddingLocks) &&
    (t.phase.Embedding? ==> qkey in sh.embeddingLocks && sh.embeddingLocks[qkey] == Some(r)) &&
    (t.phase.Building? && t.phase.embedding.Some? ==> c.normalize(t.phase.embedding.value.question) == qkey) &&
    (t.phase.Returned? ==>
      ContextKey(c, t.phase.context.request) == key && ContextOk(c, t.phase.context) &&
      match t.phase.origin
      case FromCache(stamp, at) => at - stamp < c.contextTtl
      case JustBuilt => t.phase.context.builder == r && t.phase.context.request == t.request)
  }

  ghost predicate ContextOk(c: Config, x: Context) {
    Plain(x.request) &&
    (x.embedding.Some? ==> c.normalize(x.embedding.value.question) == QuestionKey(c, x.request))
  }

  ghost predicate TasksOk(c: Config, s: State) {
    forall r :: 0 <= r < |s.tasks| ==> TaskOk(c, s.shared, r, s.tasks[r])
  }

  ghost predicate ContextHolderOk(c: Config, s: State, key: string)
    requires key in s.shared.contextLocks
  {
    s.shared.contextLocks[key].Some? ==>
      var r := s.shared.contextLocks[key].value;
      r < |s.tasks| && HoldsContext(s.tasks[r].phase) && ContextKey(c, s.tasks[r].request) == key
  }

  ghost predicate EmbeddingHolderOk(c: Config, s: State, qkey: string)
    requires qkey in s.shared.embeddingLocks
  {
    s.shared.embeddingLocks[qkey].Some? ==>
      var r := s.shared.embeddingLocks[qkey].value;
      r < |s.tasks| && s.tasks[r].phase.Embedding? && QuestionKey(c, s.tasks[r].request) == qkey
  }

  ghost predicate LocksOk(c: Config, s: State) {
    (forall key :: key in s.shared.contextLocks ==> ContextHolderOk(c, s, key)) &&
    (forall qkey :: qkey in s.shared.embeddingLocks ==> EmbeddingHolderOk(c, s, qkey))
  }

  ghost predicate CachesOk(c: Config, sh: Shared) {
    |sh.contexts| <= c.maxSize &&
    (forall key :: key in sh.contexts ==>
      ContextKey(c, sh.contexts[key].value.request) == key && ContextOk(c, sh.contexts[key].value)) &&
    (forall qkey :: qkey in sh.embeddings ==> c.normalize(sh.embeddings[qkey].value.question) == qkey)
  }

  function Held(locks: Locks, key: string): int {
    if key in locks && locks[key].Some? then 1 else 0
  }

  function StampOf(contexts: map<string, Stamped<Context>>, key: string): Option<real> {
    if key in contexts then Some(contexts[key].stamp) else None
  }

  ghost predicate LogMatches(c: Config, s: State) {
    LogOk(c, s.log) &&
    (forall key :: InFlight(s.log, key) == Held(s.shared.contextLocks, key)) &&
    (forall key :: LiveStamp(s.log, key) == StampOf(s.shared.contexts, key))
  }

  ghost predicate Inv(c: Config, s: State) {
    TasksOk(c, s) && LocksOk(c, s) && CachesOk(c, s.shared) && LogMatches(c, s)
  }

  // ----- preservation, one part at a time ------------------------------------------

  lemma EntryGone(contexts: map<string, Stamped<Context>>, key: string)
    requires key in contexts
    ensures |contexts - {key}| == |contexts| - 1
  {
    var kept := contexts - {key};
    assert kept.Keys == contexts.Keys - {key};
    assert |kept| == |kept.Keys| && |contexts| == |contexts.Keys|;
  }

  lemma EntryAdded(contexts: map<string, Stamped<Context>>, key: string, entry: Stamped<Context>)
    ensures |contexts[key := entry]| <= |contexts| + 1
  {
    var after := contexts[key := entry];
    assert after.Keys == contexts.Keys + {key};
    assert |after| == |after.Keys| && |contexts| == |contexts.Keys|;
  }

  lemma StoreKeepsBound(c: Config, sh: Shared, key: string, built: Context, now: real, victim: Option<string>)
    requires c.maxSize >= 1 && |sh.contexts| <= c.maxSize && VictimOk(c, sh, victim)
    ensures |AfterStore(sh, key, built, now, victim).contexts| <= c.maxSize
  {
    if victim.Some? {
      EntryGone(sh.contexts, victim.value);
      EntryAdded(sh.contexts - {victim.value}, key, Stamped(built, now));
    } else {
      EntryAdded(sh.contexts, key, Stamped(built, now));
    }
  }

  /** Request `r` changes only locks that are free or its own, and takes them only for itself. */
  ghost predicate LocksMovedBy(before: Locks, after: Locks, r: RequestId) {
    (forall k :: k in before ==>
      k in after && (after[k] == before[k] || before[k].None? || before[k] == Some(r))) &&
    (forall k :: k in after && after[k].Some? ==>
      after[k] == Some(r) || (k in before && before[k] == after[k]))
  }

  lemma LocksMove(c: Config, sh: Shared, now: real, r: RequestId, t: Task, action: Action)
    requires TaskOk(c, sh, r, t) && CanAct(c, sh, t, action)
    ensures LocksMovedBy(sh.contextLocks, Do(c, sh, now, r, t, action).shared.contextLocks, r)
    ensures LocksMovedBy(sh.embeddingLocks, Do(c, sh, now, r, t, action).shared.embeddingLocks, r)
  {
    ContextLocksMove(c, sh, now, r, t, action);
    EmbeddingLocksMove(c, sh, now, r, t, action);
  }

  /** A table of locks stays as it is, gets a key, or has one free or own lock set. */
  lemma LockMoves(locks: Locks, key: string, r: RequestId, holder: Option<RequestId>)
    requires holder.None? || holder == Some(r)
    ensures LocksMovedBy(locks, locks, r)
    ensures LocksMovedBy(locks, Register(locks, key), r)
    ensures key in locks && (locks[key].None? || locks[key] == Some(r)) ==> LocksMovedBy(locks, locks[key := holder], r)
  {
  }

  lemma ContextLocksMove(c: Config, sh: Shared, now: real, r: RequestId, t: Task, action: Action)
    requires TaskOk(c, sh, r, t) && CanAct(c, sh, t, action)
    ensures LocksMovedBy(sh.contextLocks, Do(c, sh, now, r, t, action).shared.contextLocks, r)
  {
    hide ContextKey, QuestionKey, ContextOk, LocksMovedBy, VictimOk;
    LockMoves(sh.contextLocks, ContextKey(c, t.request), r, None);
    LockMoves(sh.contextLocks, ContextKey(c, t.request), r, Some(r));
  }

  lemma EmbeddingLocksMove(c: Config, sh: Shared, now: real, r: RequestId, t: Task, action: Action)
    requires TaskOk(c, sh, r, t) && CanAct(c, sh, t, action)
    ensures LocksMovedBy(sh.embeddingLocks, Do(c, sh, now, r, t, action).shared.embeddingLocks, r)
  {
    hide ContextKey, QuestionKey, ContextOk, LocksMovedBy, VictimOk;
    LockMoves(sh.embeddingLocks, QuestionKey(c, t.request), r, None);
    LockMoves(sh.embeddingLocks, QuestionKey(c, t.request), r, Some(r));
  }

  lemma ActorOk(c: Config, sh: Shared, now: real, r: RequestId, t: Task, action: Action)
    requires TaskOk(c, sh, r, t) && CachesOk(c, sh) && CanAct(c, sh, t, action)
    ensures var e := Do(c, sh, now, r, t, action); TaskOk(c, e.shared, r, t.(phase := e.phase))
  {
  }

  lemma BystanderOk(c: Config, sh: Shared, sh': Shared, r: RequestId, i: RequestId, t: Task)
    requires i != r && TaskOk(c, sh, i, t)
    requires LocksMovedBy(sh.contextLocks, sh'.contextLocks, r)
    requires LocksMovedBy(sh.embeddingLocks, sh'.embeddingLocks, r)
    ensures TaskOk(c, sh', i, t)
  {
  }

  lemma TasksPreserved(c: Config, s: State, step: Step)
    requires Inv(c, s) && Enabled(c, s, step)
    ensures TasksOk(c, Apply(c, s, step))
  {
    var s' := Apply(c, s, step);
    forall i | 0 <= i < |s'.tasks| ensures TaskOk(c, s'.shared, i, s'.tasks[i]) {
      if step.Act? {
        LocksMove(c, s.shared, s.clock, step.r, s.tasks[step.r], step.action);
        if i == step.r {
          ActorOk(c, s.shared, s.clock, step.r, s.tasks[step.r], step.action);
        } else {
          BystanderOk(c, s.shared, s'.shared, step.r, i, s.tasks[i]);
        }
      } else if i < |s.tasks| {
        assert s'.tasks[i] == s.tasks[i];
      }
    }
  }

  /** The locks a request holds are those of its own keys, while its phase needs them. */
  ghost predicate OwnsOnly(c: Config, sh: Shared, r: RequestId, t: Task, k: string) {
    (k in sh.contextLocks && sh.contextLocks[k] == Some(r) ==>
      HoldsContext(t.phase) && k == ContextKey(c, t.request)) &&
    (k in sh.embeddingLocks && sh.embeddingLocks[k] == Some(r) ==>
      t.phase.Embedding? && k == QuestionKey(c, t.request))
  }

  lemma ActorOwnsOnly(c: Config, sh: Shared, now: real, r: RequestId, t: Task, action: Action, k: string)
    requires TaskOk(c, sh, r, t) && CanAct(c, sh, t, action) && OwnsOnly(c, sh, r, t, k)
    ensures var e := Do(c, sh, now, r, t, action); OwnsOnly(c, e.shared, r, t.(phase := e.phase), k)
  {
  }

  lemma LocksPreserved(c: Config, s: State, step: Step)
    requires Inv(c, s) && Enabled(c, s, step)
    ensures LocksOk(c, Apply(c, s, step))
  {
    var s' := Apply(c, s, step);
    if step.Act? {
      LocksMove(c, s.shared, s.clock, step.r, s.tasks[step.r], step.action);
    }
    forall k | k in s'.shared.contextLocks ensures ContextHolderOk(c, s', k) {
      HolderPreserved(c, s, step, k);
    }
    forall k | k in s'.shared.embeddingLocks ensures EmbeddingHolderOk(c, s', k) {
      HolderPreserved(c, s, step, k);
    }
  }

  lemma HolderPreserved(c: Config, s: State, step: Step, k: string)
    requires Inv(c, s) && Enabled(c, s, step)
    ensures var s' := Apply(c, s, step);
      (k in s'.shared.contextLocks ==> ContextHolderOk(c, s', k)) &&
      (k in s'.shared.embeddingLocks ==> EmbeddingHolderOk(c, s', k))
  {
    assert k in s.shared.contextLocks ==> ContextHolderOk(c, s, k);
    assert k in s.shared.embeddingLocks ==> EmbeddingHolderOk(c, s, k);
    if step.Act? {
      var t := s.tasks[step.r];
      LocksMove(c, s.shared, s.clock, step.r, t, step.action);
      ActorOwnsOnly(c, s.shared, s.clock, step.r, t, step.action, k);
    }
  }

  /** Only the end of a build changes the context cache. */
  lemma ContextsKept(c: Config, sh: Shared, now: real, r: RequestId, t: Task, action: Action)
    requires CanAct(c, sh, t, action) && !action.FinishBuild?
    ensures Do(c, sh, now, r, t, action).shared.contexts == sh.contexts
  {
  }

  lemma EmbeddingsStayRight(c: Config, sh: Shared, now: real, r: RequestId, t: Task, action: Action)
    requires CanAct(c, sh, t, action) && CachesOk(c, sh)
    ensures var embeddings := Do(c, sh, now, r, t, action).shared.embeddings;
      forall qkey :: qkey in embeddings ==> c.normalize(embeddings[qkey].value.question) == qkey
  {
    hide ContextOk, ContextKey;
  }

  lemma StoredRight(c: Config, sh: Shared, r: RequestId, t: Task, victim: Option<string>)
    requires TaskOk(c, sh, r, t) && CachesOk(c, sh) && t.phase.Building?
    ensures var key := ContextKey(c, t.request);
      var after := AfterStore(sh, key, Context(t.request, t.phase.embedding, r), t.phase.now, victim).contexts;
      forall k :: k in after ==> ContextKey(c, after[k].value.request) == k && ContextOk(c, after[k].value)
  {
    hide ContextKey;
  }

  lemma CachesPreserved(c: Config, sh: Shared, now: real, r: RequestId, t: Task, action: Action)
    requires c.maxSize >= 1 && TaskOk(c, sh, r, t) && CachesOk(c, sh) && CanAct(c, sh, t, action)
    ensures CachesOk(c, Do(c, sh, now, r, t, action).shared)
  {
    EmbeddingsStayRight(c, sh, now, r, t, action);
    if action.FinishBuild? {
      StoreKeepsBound(c, sh, ContextKey(c, t.request), Context(t.request, t.phase.embedding, r), t.phase.now, action.victim);
      StoredRight(c, sh, r, t, action.victim);
      hide ContextKey, ContextOk, AfterStore, TaskOk;
    } else {
      hide ContextKey, ContextOk, Do, TaskOk;
      ContextsKept(c, sh, now, r, t, action);
    }
  }

  lemma AppendOne(log: seq<Event>, e: Event, key: string)
    ensures InFlight(log + [e], key) == InFlight(log, key) +
      (if e.key != key || e.Evicted? then 0 else if e.BuildStarted? then 1 else -1)
    ensures LiveStamp(log + [e], key) ==
      (if e.key != key then LiveStamp(log, key)
       else if e.Stored? then Some(e.stamp) else if e.Evicted? then None else LiveStamp(log, key))
  {
    assert (log + [e])[..|log|] == log;
  }

  /** Appending one allowed event whose effect on the counters is the effect on the dictionaries. */
  lemma LogStep(c: Config, s: State, e: Event, s': State)
    requires LogMatches(c, s) && EventOk(c, s.log, e) && s'.log == s.log + [e]
    requires forall key :: key != e.key ==>
      Held(s'.shared.contextLocks, key) == Held(s.shared.contextLocks, key) &&
      StampOf(s'.shared.contexts, key) == StampOf(s.shared.contexts, key)
    requires Held(s'.shared.contextLocks, e.key) == Held(s.shared.contextLocks, e.key) +
      (if e.Evicted? then 0 else if e.BuildStarted? then 1 else -1)
    requires StampOf(s'.shared.contexts, e.key) ==
      (if e.Stored? then Some(e.stamp) else if e.Evicted? then None else StampOf(s.shared.contexts, e.key))
    ensures LogMatches(c, s')
  {
    LogExtends(c, s.log, e);
    forall key ensures InFlight(s'.log, key) == Held(s'.shared.contextLocks, key)
    ensures LiveStamp(s'.log, key) == StampOf(s'.shared.contexts, key) {
      AppendOne(s.log, e, key);
    }
  }

  /** How one action moves the lock counters and what it logs. */
  lemma HeldMoves(c: Config, sh: Shared, now: real, r: RequestId, t: Task, action: Action, k: string)
    requires CanAct(c, sh, t, action) && TaskOk(c, sh, r, t)
    ensures var e := Do(c, sh, now, r, t, action);
      var key := ContextKey(c, t.request);
      Held(e.shared.contextLocks, k) ==
        (if k != key then Held(sh.contextLocks, k)
         else if HoldsContext(e.phase) then 1
         else if HoldsContext(t.phase) then 0
         else Held(sh.contextLocks, k)) &&
      (HoldsContext(t.phase) ==> Held(sh.contextLocks, key) == 1) &&
      (action.EnterContext? ==> Held(sh.contextLocks, key) == 0)
  {
  }

  lemma LogPreserved(c: Config, s: State, r: RequestId, action: Action)
    requires Inv(c, s) && Enabled(c, s, Act(r, action))
    ensures LogMatches(c, Apply(c, s, Act(r, action)))
  {
    var s' := Apply(c, s, Act(r, action));
    var t := s.tasks[r];
    var key := ContextKey(c, t.request);
    assert TaskOk(c, s.shared, r, t);
    forall k ensures Held(s'.shared.contextLocks, k) ==
        (if k != key then Held(s.shared.contextLocks, k)
         else if HoldsContext(s'.tasks[r].phase) then 1
         else if HoldsContext(t.phase) then 0
         else Held(s.shared.contextLocks, k))
    {
      HeldMoves(c, s.shared, s.clock, r, t, action, k);
    }
    HeldMoves(c, s.shared, s.clock, r, t, action, key);
    if action.FinishBuild? {
      StoreLogged(c, s, r, action.victim);
    } else {
      ContextsKept(c, s.shared, s.clock, r, t, action);
      if action.EnterContext? && FreshContext(c, s.shared, key, s.clock).None? {
        LogStep(c, s, BuildStarted(key, s.clock), s');
      } else if action.Fail? && HoldsContext(t.phase) {
        LogStep(c, s, BuildFailed(key), s');
      } else {
        assert s'.log == s.log;
      }
    }
  }

  lemma StoreLogged(c: Config, s: State, r: RequestId, victim: Option<string>)
    requires Inv(c, s) && Enabled(c, s, Act(r, FinishBuild(victim)))
    ensures LogMatches(c, Apply(c, s, Act(r, FinishBuild(victim))))
  {
    var s' := Apply(c, s, Act(r, FinishBuild(victim)));
    var t := s.tasks[r];
    var key, now := ContextKey(c, t.request), t.phase.now;
    assert TaskOk(c, s.shared, r, t);
    hide TasksOk, LocksOk, CachesOk, ContextOk, ContextKey, LogOk, TaskOk;
    var mid := s;
    if victim.Some? {
      mid := Without(s, victim.value);
      EvictionLogged(c, s, victim.value);
    }
    var stored := Stored(key, now, Context(t.request, t.phase.embedding, r));
    assert s'.log == mid.log + [stored];
    LogStep(c, mid, stored, s');
  }

  ghost function Without(s: State, victim: string): State {
    s.(shared := s.shared.(contexts := s.shared.contexts - {victim}), log := s.log + [Evicted(victim)])
  }

  lemma EvictionLogged(c: Config, s: State, victim: string)
    requires LogMatches(c, s) && victim in s.shared.contexts
    ensures LogMatches(c, Without(s, victim))
  {
    hide LogOk;
    LogStep(c, s, Evicted(victim), Without(s, victim));
  }

  lemma StepPreserves(c: Config, s: State, step: Step)
    requires c.maxSize >= 1 && Inv(c, s) && Enabled(c, s, step)
    ensures Inv(c, Apply(c, s, step))
  {
    TasksPreserved(c, s, step);
    LocksPreserved(c, s, step);
    if step.Act? {
      assert TaskOk(c, s.shared, step.r, s.tasks[step.r]);
      CachesPreserved(c, s.shared, s.clock, step.r, s.tasks[step.r], step.action);
      LogPreserved(c, s, step.r, step.action);
    }
  }

  lemma {:induction false} RunPreserves(c: Config, s: State, run: seq<Step>)
    requires c.maxSize >= 1 && Inv(c, s) && Legal(c, s, run)
    ensures Inv(c, Execute(c, s, run))
    decreases |run|
  {
    if run != [] {
      StepPreserves(c, s, run[0]);
      RunPreserves(c, Apply(c, s, run[0]), run[1..]);
    }
  }

  // ----- what holds of every interleaving --------------------------------------------

  ghost predicate Reachable(c: Config, s: State) {
    exists clock, run :: Legal(c, Init(clock), run) && s == Execute(c, Init(clock), run)
  }

  lemma ReachableInv(c: Config, s: State)
    requires c.maxSize >= 1 && Reachable(c, s)
    ensures Inv(c, s)
  {
    var clock, run :| Legal(c, Init(clock), run) && s == Execute(c, Init(clock), run);
    assert Inv(c, Init(clock));
    RunPreserves(c, Init(clock), run);
  }

  /** No two requests are ever inside the build of one cache key, nor inside the embedding
      call of one question. */
  lemma SingleFlight(c: Config, s: State, i: RequestId, j: RequestId)
    requires c.maxSize >= 1 && Reachable(c, s) && i < j < |s.tasks|
    ensures HoldsContext(s.tasks[i].phase) && HoldsContext(s.tasks[j].phase) ==>
      ContextKey(c, s.tasks[i].request) != ContextKey(c, s.tasks[j].request)
    ensures s.tasks[i].phase.Embedding? && s.tasks[j].phase.Embedding? ==>
      QuestionKey(c, s.tasks[i].request) != QuestionKey(c, s.tasks[j].request)
  {
    ReachableInv(c, s);
    assert TaskOk(c, s.shared, i, s.tasks[i]) && TaskOk(c, s.shared, j, s.tasks[j]);
  }

  /** At every moment of the past, the builds of a key started and not yet ended were 0 or 1. */
  lemma {:induction false} BuildsNeverOverlap(c: Config, s: State, key: string, m: nat)
    requires c.maxSize >= 1 && Reachable(c, s) && m <= |s.log|
    ensures 0 <= InFlight(s.log[..m], key) <= 1
    decreases m
  {
    ReachableInv(c, s);
    if m > 0 {
      BuildsNeverOverlap(c, s, key, m - 1);
      assert EventOk(c, s.log[..m - 1], s.log[m - 1]);
      assert s.log[..m] == s.log[..m - 1] + [s.log[m - 1]];
      AppendOne(s.log[..m - 1], s.log[m - 1], key);
    }
  }

  predicate Drops(e: Event, key: string) {
    e.key == key && (e.Evicted? || e.Stored?)
  }

  lemma {:induction false} StampStays(log: seq<Event>, key: string, i: nat, j: nat)
    requires i < j <= |log| && log[i].Stored? && log[i].key == key
    requires forall m :: i < m < j ==> !Drops(log[m], key)
    ensures LiveStamp(log[..j], key) == Some(log[i].stamp)
    decreases j
  {
    assert log[..j] == log[..j - 1] + [log[j - 1]];
    AppendOne(log[..j - 1], log[j - 1], key);
    if j > i + 1 {
      StampStays(log, key, i, j - 1);
    }
  }

  /** After a build of `key` was stored, the next one starts only if the entry was evicted
      or its stamp is at least the TTL old. */
  lemma RebuildOnlyWhenStale(c: Config, s: State, key: string, i: nat, j: nat)
    requires c.maxSize >= 1 && Reachable(c, s) && i < j < |s.log|
    requires s.log[i].Stored? && s.log[i].key == key
    requires s.log[j].BuildStarted? && s.log[j].key == key
    requires forall m :: i < m < j ==> !Drops(s.log[m], key)
    ensures s.log[j].at - s.log[i].stamp >= c.contextTtl
  {
    ReachableInv(c, s);
    assert EventOk(c, s.log[..j], s.log[j]);
    StampStays(s.log, key, i, j);
  }

  lemma CacheBounded(c: Config, s: State)
    requires c.maxSize >= 1 && Reachable(c, s)
    ensures |s.shared.contexts| <= c.maxSize
  {
    ReachableInv(c, s);
  }

  /** An entry leaves the cache only when the cache is full, and then no other entry is older. */
  lemma EvictionTakesOldest(c: Config, s: State, step: Step, key: string)
    requires Enabled(c, s, step)
    requires key in s.shared.contexts && key !in Apply(c, s, step).shared.contexts
    ensures |s.shared.contexts| >= c.maxSize && Oldest(s.shared.contexts, key)
  {
    if step.Act? && !step.action.FinishBuild? {
      ContextsKept(c, s.shared, s.clock, step.r, s.tasks[step.r], step.action);
    }
  }

  /** Every cached or returned context has its own store event in the log. */
  ghost predicate OriginLogged(c: Config, log: seq<Event>, t: Task) {
    t.phase.Returned? ==>
      match t.phase.origin
      case FromCache(stamp, _) => Stored(ContextKey(c, t.request), stamp, t.phase.context) in log
      case JustBuilt => exists stamp :: Stored(ContextKey(c, t.request), stamp, t.phase.context) in log
  }

  ghost predicate Logged(c: Config, s: State) {
    (forall key :: key in s.shared.contexts ==>
      Stored(key, s.shared.contexts[key].stamp, s.shared.contexts[key].value) in s.log) &&
    forall r :: 0 <= r < |s.tasks| ==> OriginLogged(c, s.log, s.tasks[r])
  }

  lemma StillLogged(c: Config, log: seq<Event>, more: seq<Event>, t: Task)
    requires OriginLogged(c, log, t)
    ensures OriginLogged(c, log + more, t)
  {
    hide ContextKey;
    if t.phase.Returned? && t.phase.origin.JustBuilt? {
      var stamp :| Stored(ContextKey(c, t.request), stamp, t.phase.context) in log;
      assert Stored(ContextKey(c, t.request), stamp, t.phase.context) in log + more;
    }
  }

  /** What one action leaves in the cache and what it returns is logged then or was before. */
  lemma ActionLogged(c: Config, s: State, r: RequestId, action: Action)
    requires Logged(c, s) && Enabled(c, s, Act(r, action))
    ensures var e := Do(c, s.shared, s.clock, r, s.tasks[r], action);
      OriginLogged(c, s.log + e.events, s.tasks[r].(phase := e.phase)) &&
      forall key :: key in e.shared.contexts ==>
        Stored(key, e.shared.contexts[key].stamp, e.shared.contexts[key].value) in s.log + e.events
  {
    hide ContextKey, QuestionKey, VictimOk;
    var t := s.tasks[r];
    var e := Do(c, s.shared, s.clock, r, t, action);
    if action.FinishBuild? {
      var stored := Stored(ContextKey(c, t.request), t.phase.now, Context(t.request, t.phase.embedding, r));
      assert e.events[|e.events| - 1] == stored;
      assert stored in s.log + e.events;
    } else {
      ContextsKept(c, s.shared, s.clock, r, t, action);
    }
  }

  lemma StepLogged(c: Config, s: State, step: Step)
    requires Logged(c, s) && Enabled(c, s, step)
    ensures Logged(c, Apply(c, s, step))
  {
    hide ContextKey, Do, OriginLogged, CanAct;
    if step.Act? {
      ActionLogged(c, s, step.r, step.action);
      var s', e := Apply(c, s, step), Do(c, s.shared, s.clock, step.r, s.tasks[step.r], step.action);
      forall i | 0 <= i < |s'.tasks| ensures OriginLogged(c, s'.log, s'.tasks[i]) {
        if i != step.r {
          StillLogged(c, s.log, e.events, s.tasks[i]);
        }
      }
    } else if step.Arrive? {
      NewcomerLogged(c, s.log, step.request);
    }
  }

  lemma NewcomerLogged(c: Config, log: seq<Event>, q: Request)
    ensures OriginLogged(c, log, Task(q, Arrived))
  {
  }

  lemma {:induction false} RunLogged(c: Config, s: State, run: seq<Step>)
    requires Logged(c, s) && Legal(c, s, run)
    ensures Logged(c, Execute(c, s, run))
    decreases |run|
  {
    if run != [] {
      hide Logged;
      StepLogged(c, s, run[0]);
      RunLogged(c, Apply(c, s, run[0]), run[1..]);
    }
  }

  lemma ReachableLogged(c: Config, s: State)
    requires Reachable(c, s)
    ensures Logged(c, s)
  {
    var clock, run :| Legal(c, Init(clock), run) && s == Execute(c, Init(clock), run);
    RunLogged(c, Init(clock), run);
  }

  /** A returned context answers the requester's own question on its own connection and dialect; it
      was stored under the requester's key, with the stamp that was fresh when looked up or by that
      very request. */
  lemma ReturnedContextIsOwn(c: Config, s: State, r: RequestId)
    requires c.maxSize >= 1 && Reachable(c, s) && r < |s.tasks| && s.tasks[r].phase.Returned?
    ensures var q, x := s.tasks[r].request, s.tasks[r].phase.context;
      x.request.connectionId == q.connectionId && x.request.dialect == q.dialect &&
      c.normalize(x.request.question) == c.normalize(q.question) &&
      (x.embedding.Some? ==> c.normalize(x.embedding.value.question) == c.normalize(q.question)) &&
      match s.tasks[r].phase.origin
      case FromCache(stamp, at) => at - stamp < c.contextTtl && Stored(ContextKey(c, q), stamp, x) in s.log
      case JustBuilt =>
        x.builder == r && x.request == q && exists stamp :: Stored(ContextKey(c, q), stamp, x) in s.log
  {
    ReachableInv(c, s);
    ReachableLogged(c, s);
    assert TaskOk(c, s.shared, r, s.tasks[r]) && OriginLogged(c, s.log, s.tasks[r]);
    ContextKeyInjective(c, s.tasks[r].phase.context.request, s.tasks[r].request);
  }

  lemma OwnLocksOnly(c: Config, s: State, r: RequestId, k: string)
    requires Inv(c, s) && r < |s.tasks|
    ensures OwnsOnly(c, s.shared, r, s.tasks[r], k)
  {
    hide TasksOk, CachesOk, LogMatches, ContextKey, QuestionKey;
    assert k in s.shared.contextLocks ==> ContextHolderOk(c, s, k);
    assert k in s.shared.embeddingLocks ==> EmbeddingHolderOk(c, s, k);
  }

  /** A request that fails inside its build stores nothing and leaves none of its locks held. */
  lemma FailureReleases(c: Config, s: State, r: RequestId, k: string)
    requires c.maxSize >= 1 && Reachable(c, s) && Enabled(c, s, Act(r, Fail))
    ensures var s' := Apply(c, s, Act(r, Fail));
      s'.shared.contexts == s.shared.contexts && s'.shared.embeddings == s.shared.embeddings &&
      (k in s'.shared.contextLocks ==> s'.shared.contextLocks[k] != Some(r)) &&
      (k in s'.shared.embeddingLocks ==> s'.shared.embeddingLocks[k] != Some(r))
  {
    hide Inv, Reachable, ContextKey, QuestionKey, OwnsOnly, AfterFailure;
    ReachableInv(c, s);
    OwnLocksOnly(c, s, r, k);
    AfterUnwind(c, s.shared, r, s.tasks[r], k);
  }

  lemma AfterUnwind(c: Config, sh: Shared, r: RequestId, t: Task, k: string)
    requires OwnsOnly(c, sh, r, t, k)
    ensures var after := AfterFailure(sh, ContextKey(c, t.request), QuestionKey(c, t.request), t.phase);
      after.contexts == sh.contexts && after.embeddings == sh.embeddings &&
      (k in after.contextLocks ==> after.contextLocks[k] != Some(r)) &&
      (k in after.embeddingLocks ==> after.embeddingLocks[k] != Some(r))
  {
    hide ContextKey, QuestionKey;
  }

  // ----- no deadlock, and every request ends ------------------------------------------

  lemma {:induction false} SomeOldest(contexts: map<string, Stamped<Context>>) returns (key: string)
    requires |contexts| > 0
    ensures Oldest(contexts, key)
    decreases |contexts|
  {
    key :| key in contexts;
    var rest := contexts - {key};
    assert rest.Keys == contexts.Keys - {key};
    if |rest| > 0 {
      var other := SomeOldest(rest);
      if contexts[other].stamp < contexts[key].stamp {
        forall k | k in contexts ensures contexts[other].stamp <= contexts[k].stamp {
          assert k != key ==> k in rest;
        }
        key := other;
      } else {
        forall k | k in contexts ensures contexts[key].stamp <= contexts[k].stamp {
          assert k != key ==> k in rest;
        }
      }
    } else {
      assert forall k :: k in contexts ==> k == key || k in rest;
    }
  }

  /** A request past both locks, or not yet at one, can always move on without failing. */
  lemma Unblocked(c: Config, s: State, r: RequestId) returns (action: Action)
    requires r < |s.tasks| && (s.tasks[r].phase.Arrived? || s.tasks[r].phase.Embedding? || s.tasks[r].phase.Building?)
    requires c.maxSize >= 1
    ensures action != Fail && Enabled(c, s, Act(r, action))
  {
    if s.tasks[r].phase.Arrived? {
      action := Check;
    } else if s.tasks[r].phase.Embedding? {
      action := EmbeddingUnavailable;
    } else if |s.shared.contexts| >= c.maxSize {
      var key := SomeOldest(s.shared.contexts);
      action := FinishBuild(Some(key));
    } else {
      action := FinishBuild(None);
    }
  }

  /** The nested context and embedding locks never deadlock: while some request is unfinished,
      some request can take a step other than failing. */
  lemma NoDeadlock(c: Config, s: State, r: RequestId) returns (i: RequestId, action: Action)
    requires c.maxSize >= 1 && Reachable(c, s) && r < |s.tasks| && !Finished(s.tasks[r].phase)
    ensures action != Fail && Enabled(c, s, Act(i, action))
  {
    ReachableInv(c, s);
    i := r;
    var key := ContextKey(c, s.tasks[i].request);
    assert TaskOk(c, s.shared, i, s.tasks[i]);
    if s.tasks[i].phase.AwaitContextLock? {
      if s.shared.contextLocks[key].None? {
        action := EnterContext;
        return;
      }
      assert ContextHolderOk(c, s, key);
      i := s.shared.contextLocks[key].value;
      assert TaskOk(c, s.shared, i, s.tasks[i]);
    }
    if s.tasks[i].phase.AwaitEmbeddingLock? {
      var qkey := QuestionKey(c, s.tasks[i].request);
      if s.shared.embeddingLocks[qkey].None? {
        action := EnterEmbedding;
        return;
      }
      assert EmbeddingHolderOk(c, s, qkey);
      i := s.shared.embeddingLocks[qkey].value;
    }
    action := Unblocked(c, s, i);
  }

  function Rank(p: Phase): nat {
    match p
    case Arrived => 5
    case AwaitContextLock => 4
    case AwaitEmbeddingLock => 3
    case Embedding(_) => 2
    case Building(_, _) => 1
    case Returned(_, _) => 0
    case Raised => 0
  }

  function Work(tasks: seq<Task>): nat {
    if tasks == [] then 0 else Work(tasks[..|tasks| - 1]) + Rank(tasks[|tasks| - 1].phase)
  }

  lemma {:induction false} WorkUpdate(tasks: seq<Task>, r: nat, t: Task)
    requires r < |tasks|
    ensures Work(tasks[r := t]) == Work(tasks) - Rank(tasks[r].phase) + Rank(t.phase)
    decreases |tasks|
  {
    var n := |tasks| - 1;
    if r < n {
      assert tasks[r := t][..n] == tasks[..n][r := t];
      WorkUpdate(tasks[..n], r, t);
    } else {
      assert tasks[r := t][..n] == tasks[..n];
    }
  }

  lemma ActionLowersRank(c: Config, sh: Shared, now: real, r: RequestId, t: Task, action: Action)
    requires CanAct(c, sh, t, action)
    ensures Rank(Do(c, sh, now, r, t, action).phase) < Rank(t.phase)
  {
  }

  lemma {:induction false} WorkBound(tasks: seq<Task>)
    ensures Work(tasks) <= 5 * |tasks|
    decreases |tasks|
  {
    if tasks != [] {
      WorkBound(tasks[..|tasks| - 1]);
    }
  }

  /** Whatever the scheduler does, requests take at most five steps each: a run of request
      steps from `s` is no longer than five times the requests in `s`. */
  lemma {:induction false} RunsEnd(c: Config, s: State, run: seq<Step>)
    requires Legal(c, s, run) && forall i :: 0 <= i < |run| ==> run[i].Act?
    ensures |run| + Work(Execute(c, s, run).tasks) <= Work(s.tasks) <= 5 * |s.tasks|
    decreases |run|
  {
    WorkBound(s.tasks);
    if run != [] {
      var r, action := run[0].r, run[0].action;
      ActionLowersRank(c, s.shared, s.clock, r, s.tasks[r], action);
      WorkUpdate(s.tasks, r, s.tasks[r].(phase := Do(c, s.shared, s.clock, r, s.tasks[r], action).phase));
      RunsEnd(c, Apply(c, s, run[0]), run[1..]);
    }
  }

  // ----- the module dictionaries themselves --------------------------------------------

  /** The four dictionaries, updated in place by the code between suspension points.  Each
      method is one such stretch of code and has exactly the effect the machine gives it. */
  class ContextBuilder {
    const config: Config
    var contexts: map<string, Stamped<Context>>
    var contextLocks: Locks
    var embeddings: map<string, Stamped<Vector>>
    var embeddingLocks: Locks

    ghost function Dictionaries(): Shared
      reads this
    {
      Shared(contexts, contextLocks, embeddings, embeddingLocks)
    }

    constructor (config: Config)
      ensures this.config == config && Dictionaries() == Init(0.0).shared
    {
      this.config := config;
      contexts, contextLocks, embeddings, embeddingLocks := map[], map[], map[], map[];
    }

    /** build_context up to the wait for the context lock. */
    method CheckCache(key: string, now: real) returns (hit: Option<Context>)
      modifies this
      ensures hit == FreshContext(config, old(Dictionaries()), key, now)
      ensures Dictionaries() == AfterCheck(config, old(Dictionaries()), key, now)
    {
      hit := None;
      if key in contexts {
        if now - contexts[key].stamp < config.contextTtl {
          hit := Some(contexts[key].value);
          return;
        }
      }
      if key !in contextLocks {
        contextLocks := contextLocks[key := None];
      }
    }

    /** From the grant of the context lock to the next suspension point. */
    method EnterContextLock(key: string, qkey: string, r: RequestId, now: real)
      returns (hit: Option<Context>, vector: Option<Vector>)
      requires key in contextLocks && contextLocks[key].None?
      modifies this
      ensures hit == FreshContext(config, old(Dictionaries()), key, now)
      ensures hit.None? ==> vector == FreshEmbedding(config, old(Dictionaries()), qkey, now)
      ensures Dictionaries() == AfterEnterContext(config, old(Dictionaries()), key, qkey, r, now)
    {
      hit, vector := None, None;
      contextLocks := contextLocks[key := Some(r)];
      if key in contexts {
        if now - contexts[key].stamp < config.contextTtl {
          hit := Some(contexts[key].value);
          contextLocks := contextLocks[key := None];
          assert contextLocks == old(contextLocks);
          return;
        }
      }
      if qkey in embeddings {
        if now - embeddings[qkey].stamp < config.embeddingTtl {
          vector := Some(embeddings[qkey].value);
        }
      }
      if vector.None? && qkey !in embeddingLocks {
        embeddingLocks := embeddingLocks[qkey := None];
      }
    }

    /** From the grant of the embedding lock to the next suspension point. */
    method EnterEmbeddingLock(qkey: string, r: RequestId, now: real) returns (vector: Option<Vector>)
      requires qkey in embeddingLocks && embeddingLocks[qkey].None?
      modifies this
      ensures vector == FreshEmbedding(config, old(Dictionaries()), qkey, now)
      ensures Dictionaries() == AfterEnterEmbedding(config, old(Dictionaries()), qkey, r, now)
    {
      vector := None;
      embeddingLocks := embeddingLocks[qkey := Some(r)];
      if qkey in embeddings {
        if now - embeddings[qkey].stamp < config.embeddingTtl {
          vector := Some(embeddings[qkey].value);
          embeddingLocks := embeddingLocks[qkey := None];
          assert embeddingLocks == old(embeddingLocks);
        }
      }
    }

    /** The embedding call answered, or timed out or failed. */
    method FinishEmbedding(qkey: string, result: Option<Vector>, now: real)
      modifies this
      ensures Dictionaries() == AfterEmbedding(old(Dictionaries()), qkey, result, now)
    {
      if result.Some? {
        embeddings := embeddings[qkey := Stamped(result.value, now)];
      }
      embeddingLocks := embeddingLocks[qkey := None];
    }

    /** min(_CONTEXT_CACHE, key=timestamp): some key no entry of the cache is older than. */
    method OldestKey() returns (oldest: string)
      requires contexts != map[]
      ensures Oldest(contexts, oldest)
    {
      oldest :| oldest in contexts;
      var left := contexts.Keys - {oldest};
      while left != {}
        invariant left <= contexts.Keys && oldest in contexts
        invariant forall k :: k in contexts && k !in left ==> contexts[oldest].stamp <= contexts[k].stamp
        decreases left
      {
        var k :| k in left;
        if contexts[k].stamp < contexts[oldest].stamp {
          oldest := k;
        }
        left := left - {k};
      }
    }

    /** The end of a build: make room, store, release the lock. */
    method StoreContext(key: string, built: Context, now: real) returns (victim: Option<string>)
      requires config.maxSize >= 1
      modifies this
      ensures VictimOk(config, old(Dictionaries()), victim)
      ensures Dictionaries() == AfterStore(old(Dictionaries()), key, built, now, victim)
    {
      victim := None;
      if |contexts| >= config.maxSize {
        var oldest := OldestKey();
        victim := Some(oldest);
        contexts := contexts - {oldest};
      }
      contexts := contexts[key := Stamped(built, now)];
      contextLocks := contextLocks[key := None];
    }

    /** An exception or a cancellation unwinds through the `async with` blocks. */
    method Unwind(key: string, qkey: string, phase: Phase)
      modifies this
      ensures Dictionaries() == AfterFailure(old(Dictionaries()), key, qkey, phase)
    {
      if phase.Embedding? {
        embeddingLocks := embeddingLocks[qkey := None];
      }
      if HoldsContext(phase) {
        contextLocks := contextLocks[key := None];
      }
    }
  }
}
