/** Leader/follower request coalescing and the SQL cache: backend/app/core/query_cache.py as
    driven by execute_nl_query in backend/app/services/query_service.py.

    Redis is a map from keys to values with an expiry time; a step of the machine is one Redis
    command, one pipeline run or one reply of one request.  A command may also be lost before or
    after it took effect, which the caller sees as an exception.  The LLM pipeline is an
    arbitrary final state, the database an arbitrary result. */
module Coalescing {
  import opened Options
  import opened QueryKeys

  type RequestId = nat

  datatype Config = Config(
    hash: string -> string,
    coalesceTtl: real,
    sqlTtl: real,
    pollInterval: real,
    maxWait: real)

  datatype Request = Request(identity: Identity, skipCache: bool)

  datatype QueryResult = QueryResult(rowCount: nat, data: nat)

  /** The fields of the graph's final state that decide what happens next; `details` stands
      for the ones that are only copied into the reply. */
  datatype FinalState = FinalState(
    action: Option<string>,
    sql: Option<string>,
    error: Option<string>,
    retryCount: nat,
    result: Option<QueryResult>,
    details: nat)

  datatype Payload =
    | Answer(fs: FinalState)
    | Clarification(fs: FinalState)
    | CachedAnswer(sql: string, result: QueryResult)
    | ErrorReport(message: string)

  /** What Redis holds, tagged with where it came from. */
  datatype Value =
    | Lock
    | Published(payload: Payload, writer: RequestId, at: real)
    | CachedSql(sql: string, fs: FinalState, writer: RequestId)

  datatype Entry = Entry(value: Value, expires: real)

  type Store = map<string, Entry>

  datatype Reply = Answered | LostBefore | LostAfter

  /** (is_leader, coalesce_result_key) */
  datatype Role = Role(isLeader: bool, resultKey: string)

  datatype Origin = Own | FromLeader(leader: RequestId, publishedAt: real, readAt: real)

  /** Whether a cached statement that failed still has to be deleted. */
  datatype Debt = NoDebt | Owed | Settled

  datatype Phase =
    | Connecting
    | Polling(waited: real, polls: nat)
    | CacheCheck
    | RunningCached(sql: string, writer: RequestId)
    | Dropping
    | Generating
    | Caching(fs: FinalState)
    | Replying(fs: FinalState)
    | Publishing(payload: Payload)
    | Returned(result: Payload, origin: Origin)
    | Raised(error: Option<string>)

  datatype Task = Task(
    request: Request,
    phase: Phase,
    role: Option<Role>,
    lockedAt: Option<real>,
    attempted: Option<Payload>,
    final: Option<FinalState>,
    debt: Debt)

  datatype Acquisition = Acquisition(key: string, writer: RequestId, at: real)

  datatype State = State(now: real, store: Store, tasks: seq<Task>, acquisitions: seq<Acquisition>)

  datatype Action =
    | Acquire(reply: Reply)
    | Poll(answered: bool)
    | GiveUp
    | CheckCache(answered: bool)
    | CachedOk(result: QueryResult)
    | CachedFailed
    | Drop(reply: Reply)
    | Generate(fs: FinalState)
    | StoreSql(reply: Reply)
    | Respond
    | Publish(reply: Reply)
    | Abort

  datatype Step = Arrive(request: Request) | Tick(elapsed: real) | Act(r: RequestId, action: Action)

  // ----- Redis commands ------------------------------------------------------

  predicate Live(store: Store, key: string, now: real) {
    key in store && now < store[key].expires
  }

  /** SET key "1" NX EX ttl */
  function AfterSetNx(store: Store, key: string, ttl: real, now: real, reply: Reply): Store {
    if reply != LostBefore && !Live(store, key, now) then store[key := Entry(Lock, now + ttl)] else store
  }

  /** SETEX key ttl value */
  function AfterSetEx(store: Store, key: string, value: Value, ttl: real, now: real, reply: Reply): Store {
    if reply != LostBefore then store[key := Entry(value, now + ttl)] else store
  }

  function AfterDelete(store: Store, key: string, reply: Reply): Store {
    if reply != LostBefore then store - {key} else store
  }

  function LeaderRole(c: Config, store: Store, id: Identity, now: real, reply: Reply): Role {
    if reply != Answered then Role(true, "")
    else Role(!Live(store, LockKey(c.hash, id), now), ResultKey(c.hash, id))
  }

  // ----- decisions of execute_nl_query -----------------------------------------

  predicate Truthy(text: Option<string>) {
    text.Some? && text.value != ""
  }

  function ActionOf(fs: FinalState): string {
    if Truthy(fs.action) then fs.action.value else "query"
  }

  predicate ShouldCache(fs: FinalState) {
    ActionOf(fs) == "query" && Truthy(fs.sql) && !Truthy(fs.error) && fs.retryCount == 0 &&
    fs.result.Some? && fs.result.value.rowCount > 0
  }

  /** What may be cached: a query, with a statement, no error, no retry and at least one row. */
  predicate Cacheable(fs: FinalState) {
    fs.action in {None, Some(""), Some("query")} && fs.sql.Some? && fs.sql.value != "" &&
    fs.error in {None, Some("")} && fs.retryCount == 0 && fs.result.Some? && fs.result.value.rowCount >= 1
  }

  lemma CacheableIsCached(fs: FinalState)
    ensures ShouldCache(fs) <==> Cacheable(fs)
  {
  }

  function ReplyOf(fs: FinalState): Payload {
    if ActionOf(fs) == "clarification" then Clarification(fs)
    else if Truthy(fs.error) && fs.result.None? then ErrorReport(fs.error.value)
    else Answer(fs)
  }

  predicate Publishes(role: Option<Role>) {
    role.Some? && role.value.isLeader && role.value.resultKey != ""
  }

  // ----- the machine -------------------------------------------------------------

  predicate CanAct(c: Config, store: Store, now: real, t: Task, action: Action) {
    match action
    case Acquire(_) => t.phase.Connecting?
    case Poll(_) => t.phase.Polling? && t.phase.waited < c.maxWait
    case GiveUp => t.phase.Polling? && t.phase.waited >= c.maxWait
    case CheckCache(_) => t.phase.CacheCheck?
    case CachedOk(_) => t.phase.RunningCached?
    case CachedFailed => t.phase.RunningCached?
    case Drop(_) => t.phase.Dropping?
    case Generate(_) => t.phase.Generating?
    case StoreSql(_) => t.phase.Caching?
    case Respond => t.phase.Replying?
    case Publish(_) => t.phase.Publishing? && t.role.Some?
    case Abort => !t.phase.Returned? && !t.phase.Raised?
  }

  datatype Effect = Effect(store: Store, task: Task, locked: bool)

  function Do(c: Config, store: Store, now: real, r: RequestId, t: Task, action: Action): Effect
    requires CanAct(c, store, now, t, action)
  {
    var id := t.request.identity;
    match action
    case Acquire(reply) =>
      var role := LeaderRole(c, store, id, now, reply);
      var locked := reply != LostBefore && !Live(store, LockKey(c.hash, id), now);
      Effect(AfterSetNx(store, LockKey(c.hash, id), c.coalesceTtl, now, reply),
        t.(role := Some(role),
           lockedAt := if locked then Some(now) else None,
           phase := if role.isLeader then CacheCheck else Polling(0.0, 0)),
        locked)
    case Poll(answered) =>
      var key := ResultKey(c.hash, id);
      Effect(store,
        t.(phase :=
          if !answered then CacheCheck
          else if Live(store, key, now) && store[key].value.Published? then
            Returned(store[key].value.payload, FromLeader(store[key].value.writer, store[key].value.at, now))
          else Polling(t.phase.waited + c.pollInterval, t.phase.polls + 1)),
        false)
    case GiveUp => Effect(store, t.(phase := CacheCheck), false)
    case CheckCache(answered) =>
      var key := SqlKey(c.hash, id);
      Effect(store,
        t.(phase :=
          if !t.request.skipCache && answered && Live(store, key, now) && store[key].value.CachedSql?
          then RunningCached(store[key].value.sql, store[key].value.writer)
          else Generating),
        false)
    case CachedOk(result) => Effect(store, t.(phase := Publishing(CachedAnswer(t.phase.sql, result))), false)
    case CachedFailed => Effect(store, t.(phase := Dropping, debt := Owed), false)
    case Drop(reply) =>
      Effect(AfterDelete(store, SqlKey(c.hash, id), reply), t.(phase := Generating, debt := Settled), false)
    case Generate(fs) => Effect(store, t.(phase := Caching(fs), final := Some(fs)), false)
    case StoreSql(reply) =>
      var fs := t.phase.fs;
      Effect(
        if ShouldCache(fs)
        then AfterSetEx(store, SqlKey(c.hash, id), CachedSql(fs.sql.value, fs, r), c.sqlTtl, now, reply)
        else store,
        t.(phase := Replying(fs)), false)
    case Respond => Effect(store, t.(phase := Publishing(ReplyOf(t.phase.fs))), false)
    case Publish(reply) =>
      var payload := t.phase.payload;
      var done :=
        if payload.ErrorReport? then t.(phase := Raised(Some(payload.message)))
        else t.(phase := Returned(payload, Own));
      if Publishes(t.role) then
        Effect(AfterSetEx(store, t.role.value.resultKey, Published(payload, r, now), c.coalesceTtl, now, reply),
          done.(attempted := Some(payload)), false)
      else Effect(store, done, false)
    case Abort => Effect(store, t.(phase := Raised(None)), false)
  }

  predicate Enabled(c: Config, s: State, step: Step) {
    match step
    case Arrive(_) => true
    case Tick(elapsed) => elapsed >= 0.0
    case Act(r, action) => r < |s.tasks| && CanAct(c, s.store, s.now, s.tasks[r], action)
  }

  function Apply(c: Config, s: State, step: Step): State
    requires Enabled(c, s, step)
  {
    match step
    case Arrive(q) => s.(tasks := s.tasks + [Task(q, Connecting, None, None, None, None, NoDebt)])
    case Tick(elapsed) => s.(now := s.now + elapsed)
    case Act(r, action) =>
      var e := Do(c, s.store, s.now, r, s.tasks[r], action);
      s.(store := e.store, tasks := s.tasks[r := e.task],
         acquisitions := if e.locked
           then s.acquisitions + [Acquisition(LockKey(c.hash, s.tasks[r].request.identity), r, s.now)]
           else s.acquisitions)
  }

  function Init(now: real): State {
    State(now, map[], [], [])
  }

  ghost predicate Legal(c: Config, s: State, run: seq<Step>)
    decreases |run|
  {
    run == [] || (Enabled(c, s, run[0]) && Legal(c, Apply(c, s, run[0]), run[1..]))
  }

  ghost function Execute(c: Config, s: State, run: seq<Step>): State
    requires Legal(c, s, run)
    decreases |run|
  {
    if run == [] then s else Execute(c, Apply(c, s, run[0]), run[1..])
  }

  // ----- the invariant --------------------------------------------------------------

  ghost predicate LeaderOf(c: Config, s: State, writer: RequestId, key: string, payload: Payload, at: real) {
    writer < |s.tasks| && Publishes(s.tasks[writer].role) &&
    s.tasks[writer].role.value.resultKey == key == ResultKey(c.hash, s.tasks[writer].request.identity) &&
    s.tasks[writer].attempted == Some(payload) &&
    s.tasks[writer].lockedAt.Some? && s.tasks[writer].lockedAt.value <= at
  }

  /** The statement is the one a run of the key's own question generated and may cache. */
  ghost predicate WriterOf(c: Config, s: State, writer: RequestId, key: string, sql: string) {
    writer < |s.tasks| && key == SqlKey(c.hash, s.tasks[writer].request.identity) &&
    s.tasks[writer].final.Some? && ShouldCache(s.tasks[writer].final.value) &&
    s.tasks[writer].final.value.sql == Some(sql)
  }

  ghost predicate EntryOk(c: Config, s: State, key: string)
    requires key in s.store
  {
    var e := s.store[key];
    match e.value
    case Lock => exists id :: key == LockKey(c.hash, id)
    case Published(payload, writer, at) =>
      LeaderOf(c, s, writer, key, payload, at) && e.expires == at + c.coalesceTtl && at <= s.now
    case CachedSql(sql, fs, writer) => WriterOf(c, s, writer, key, sql) && s.tasks[writer].final == Some(fs)
  }

  ghost predicate StoreOk(c: Config, s: State) {
    forall key :: key in s.store ==> EntryOk(c, s, key)
  }

  ghost predicate BeforeReply(p: Phase) {
    !p.Returned? && !p.Raised?
  }

  ghost predicate RoleOk(c: Config, t: Task) {
    var key := ResultKey(c.hash, t.request.identity);
    (t.role.Some? ==> t.role.value.resultKey in {"", key} && (!t.role.value.isLeader ==> t.role.value.resultKey == key)) &&
    (t.role.None? ==> t.phase.Connecting? || t.phase.Raised?) &&
    (t.phase.Connecting? ==> t.role.None?) &&
    (t.phase.Polling? ==>
      t.role == Some(Role(false, key)) && t.phase.waited == t.phase.polls as real * c.pollInterval &&
      (t.phase.polls > 0 ==> (t.phase.polls - 1) as real * c.pollInterval < c.maxWait))
  }

  ghost predicate LockOk(c: Config, s: State, r: RequestId, t: Task) {
    (Publishes(t.role) ==> t.lockedAt.Some?) &&
    (t.lockedAt.Some? ==>
      t.lockedAt.value <= s.now &&
      Acquisition(LockKey(c.hash, t.request.identity), r, t.lockedAt.value) in s.acquisitions)
  }

  ghost predicate PublishOk(t: Task) {
    (!Publishes(t.role) ==> t.attempted.None?) &&
    (BeforeReply(t.phase) ==> t.attempted.None?) &&
    (t.attempted.Some? && t.attempted.value.ErrorReport? ==> t.phase == Raised(Some(t.attempted.value.message))) &&
    (t.phase.Returned? && t.phase.origin.Own? ==>
      !t.phase.result.ErrorReport? && (Publishes(t.role) ==> t.attempted == Some(t.phase.result))) &&
    (t.phase.Raised? && t.phase.error.Some? && Publishes(t.role) ==>
      t.attempted == Some(ErrorReport(t.phase.error.value)))
  }

  ghost predicate FollowOk(c: Config, s: State, t: Task) {
    t.phase.Returned? && t.phase.origin.FromLeader? ==>
      var o := t.phase.origin;
      t.role.Some? && !t.role.value.isLeader &&
      LeaderOf(c, s, o.leader, ResultKey(c.hash, t.request.identity), t.phase.result, o.publishedAt) &&
      o.publishedAt <= o.readAt < o.publishedAt + c.coalesceTtl
  }

  ghost predicate DebtOk(t: Task) {
    (t.debt.Owed? ==> t.phase.Dropping? || t.phase == Raised(None)) &&
    (t.phase.Caching? ==> t.final == Some(t.phase.fs)) &&
    (t.phase.Replying? ==> t.final == Some(t.phase.fs))
  }

  ghost predicate RerunOk(c: Config, s: State, t: Task) {
    t.phase.RunningCached? ==> WriterOf(c, s, t.phase.writer, SqlKey(c.hash, t.request.identity), t.phase.sql)
  }

  /** A request reaches its generation only once. */
  ghost predicate FinalFresh(t: Task) {
    (t.phase.Connecting? || t.phase.Polling? || t.phase.CacheCheck? || t.phase.RunningCached? ||
     t.phase.Dropping? || t.phase.Generating?) ==> t.final.None?
  }

  ghost predicate TaskOk(c: Config, s: State, r: RequestId) {
    r < |s.tasks| && var t := s.tasks[r];
    RoleOk(c, t) && LockOk(c, s, r, t) && PublishOk(t) && FollowOk(c, s, t) && DebtOk(t) && RerunOk(c, s, t) && FinalFresh(t)
  }

  ghost predicate AcquisitionOk(c: Config, s: State, a: Acquisition) {
    a.key in s.store && s.store[a.key].value.Lock? && s.store[a.key].expires >= a.at + c.coalesceTtl
  }

  ghost predicate Spaced(c: Config, log: seq<Acquisition>) {
    forall i, j :: 0 <= i < j < |log| && log[i].key == log[j].key ==> log[j].at >= log[i].at + c.coalesceTtl
  }

  ghost predicate Inv(c: Config, s: State) {
    StoreOk(c, s) && (forall r :: 0 <= r < |s.tasks| ==> TaskOk(c, s, r)) &&
    (forall a :: a in s.acquisitions ==> AcquisitionOk(c, s, a)) && Spaced(c, s.acquisitions)
  }

  // ----- preservation ---------------------------------------------------------------

  /** What other records may rely on in a task never changes once set. */
  ghost predicate Grows(t: Task, t': Task) {
    t'.request == t.request && (t.role.Some? ==> t'.role == t.role) &&
    (Publishes(t.role) ==> t'.lockedAt == t.lockedAt) &&
    (t.attempted.Some? ==> t'.attempted == t.attempted) && (t.final.Some? ==> t'.final == t.final)
  }

  lemma ActorGrows(c: Config, s: State, r: RequestId, action: Action)
    requires r < |s.tasks| && TaskOk(c, s, r)
    requires CanAct(c, s.store, s.now, s.tasks[r], action)
    ensures var t' := Do(c, s.store, s.now, r, s.tasks[r], action).task; Grows(s.tasks[r], t')
  {
  }

  lemma TasksGrow(c: Config, s: State, step: Step)
    requires Inv(c, s) && Enabled(c, s, step)
    ensures var s' := Apply(c, s, step);
      |s.tasks| <= |s'.tasks| &&
      forall r :: 0 <= r < |s.tasks| ==> Grows(s.tasks[r], s'.tasks[r])
  {
    if step.Act? {
      assert TaskOk(c, s, step.r);
      ActorGrows(c, s, step.r, step.action);
    }
  }

  lemma LockEntry(c: Config, s: State, r: RequestId, action: Action, key: string)
    requires Enabled(c, s, Act(r, action)) && action.Acquire?
    requires key in Apply(c, s, Act(r, action)).store
    ensures var s' := Apply(c, s, Act(r, action));
      (key in s.store && s'.store[key] == s.store[key]) || EntryOk(c, s', key)
  {
    hide ResultKey, SqlKey;
    var s' := Apply(c, s, Act(r, action));
    assert key !in s.store || s'.store[key] != s.store[key] ==> key == LockKey(c.hash, s.tasks[r].request.identity);
  }

  lemma WrittenEntry(c: Config, s: State, r: RequestId, action: Action, key: string)
    requires Enabled(c, s, Act(r, action)) && TaskOk(c, s, r) && (action.StoreSql? || action.Publish?)
    requires key in Apply(c, s, Act(r, action)).store
    ensures var s' := Apply(c, s, Act(r, action));
      (key in s.store && s'.store[key] == s.store[key]) || EntryOk(c, s', key)
  {
    hide ResultKey, SqlKey, LockKey, ReplyOf, FollowOk, RerunOk;
  }

  /** The keys a step can touch, and what it leaves there. */
  lemma StoreMoves(c: Config, s: State, r: RequestId, action: Action, key: string)
    requires Inv(c, s) && Enabled(c, s, Act(r, action))
    requires key in Apply(c, s, Act(r, action)).store
    ensures var s' := Apply(c, s, Act(r, action));
      (key in s.store && s'.store[key] == s.store[key]) || EntryOk(c, s', key)
  {
    assert TaskOk(c, s, r);
    if action.Acquire? {
      LockEntry(c, s, r, action, key);
    } else if action.StoreSql? || action.Publish? {
      WrittenEntry(c, s, r, action, key);
    } else {
      hide EntryOk, Inv, TaskOk, ResultKey, SqlKey, LockKey, ReplyOf;
      assert key in s.store && Apply(c, s, Act(r, action)).store[key] == s.store[key];
    }
  }

  lemma EntryKept(c: Config, s: State, s': State, key: string)
    requires key in s.store && key in s'.store && s'.store[key] == s.store[key] && EntryOk(c, s, key)
    requires |s.tasks| <= |s'.tasks| && s.now <= s'.now
    requires forall r :: 0 <= r < |s.tasks| ==> Grows(s.tasks[r], s'.tasks[r])
    ensures EntryOk(c, s', key)
  {
  }

  lemma StorePreserved(c: Config, s: State, step: Step)
    requires Inv(c, s) && Enabled(c, s, step)
    ensures StoreOk(c, Apply(c, s, step))
  {
    var s' := Apply(c, s, step);
    TasksGrow(c, s, step);
    forall key | key in s'.store ensures EntryOk(c, s', key) {
      if step.Act? {
        StoreMoves(c, s, step.r, step.action, key);
      }
      if key in s.store && s'.store[key] == s.store[key] {
        EntryKept(c, s, s', key);
      }
    }
  }

  lemma ActorRoleOk(c: Config, store: Store, now: real, r: RequestId, t: Task, action: Action)
    requires CanAct(c, store, now, t, action) && RoleOk(c, t)
    ensures RoleOk(c, Do(c, store, now, r, t, action).task)
  {
    hide ResultKey, LockKey, Live;
  }

  lemma ActorPublishOk(c: Config, store: Store, now: real, r: RequestId, t: Task, action: Action)
    requires CanAct(c, store, now, t, action) && RoleOk(c, t) && PublishOk(t)
    ensures PublishOk(Do(c, store, now, r, t, action).task)
  {
    hide LockKey, Live;
    assert ResultKey(c.hash, t.request.identity) != "";
  }

  lemma ActorDebtOk(c: Config, store: Store, now: real, r: RequestId, t: Task, action: Action)
    requires CanAct(c, store, now, t, action) && DebtOk(t) && FinalFresh(t)
    ensures var t' := Do(c, store, now, r, t, action).task; DebtOk(t') && FinalFresh(t')
  {
    hide ResultKey, LockKey, Live, Publishes, ShouldCache;
  }

  lemma ActorLocalOk(c: Config, s: State, r: RequestId, action: Action)
    requires Inv(c, s) && Enabled(c, s, Act(r, action))
    ensures var t' := Do(c, s.store, s.now, r, s.tasks[r], action).task;
      RoleOk(c, t') && PublishOk(t') && DebtOk(t') && FinalFresh(t')
  {
    assert TaskOk(c, s, r);
    hide Do, RoleOk, PublishOk, DebtOk, FinalFresh;
    ActorRoleOk(c, s.store, s.now, r, s.tasks[r], action);
    ActorPublishOk(c, s.store, s.now, r, s.tasks[r], action);
    ActorDebtOk(c, s.store, s.now, r, s.tasks[r], action);
  }

  lemma ActorLockOk(c: Config, s: State, r: RequestId, action: Action)
    requires Inv(c, s) && Enabled(c, s, Act(r, action))
    ensures var s' := Apply(c, s, Act(r, action)); LockOk(c, s', r, s'.tasks[r])
  {
    assert TaskOk(c, s, r);
    var s' := Apply(c, s, Act(r, action));
    assert forall a :: a in s.acquisitions ==> a in s'.acquisitions;
  }

  /** What a request learns from Redis is what the store's invariant says of the key it read. */
  lemma PollReadOk(c: Config, s: State, r: RequestId, action: Action)
    requires Inv(c, s) && Enabled(c, s, Act(r, action)) && action.Poll?
    ensures var t' := Do(c, s.store, s.now, r, s.tasks[r], action).task; FollowOk(c, s, t') && RerunOk(c, s, t')
  {
    assert TaskOk(c, s, r);
    var key := ResultKey(c.hash, s.tasks[r].request.identity);
    assert key in s.store ==> EntryOk(c, s, key);
  }

  lemma CacheReadOk(c: Config, s: State, r: RequestId, action: Action)
    requires Inv(c, s) && Enabled(c, s, Act(r, action)) && action.CheckCache?
    ensures var t' := Do(c, s.store, s.now, r, s.tasks[r], action).task; FollowOk(c, s, t') && RerunOk(c, s, t')
  {
    assert TaskOk(c, s, r);
    var key := SqlKey(c.hash, s.tasks[r].request.identity);
    assert key in s.store ==> EntryOk(c, s, key);
  }

  /** Nothing else returns a leader's result or runs a cached statement. */
  lemma NothingRead(c: Config, store: Store, now: real, r: RequestId, t: Task, action: Action)
    requires CanAct(c, store, now, t, action) && !action.Poll? && !action.CheckCache?
    ensures var p := Do(c, store, now, r, t, action).task.phase;
      !p.RunningCached? && !(p.Returned? && p.origin.FromLeader?)
  {
    hide ResultKey, LockKey, SqlKey, AfterSetNx, AfterSetEx, AfterDelete, LeaderRole, Live, ShouldCache, Publishes;
  }

  lemma ActorReadOk(c: Config, s: State, r: RequestId, action: Action)
    requires Inv(c, s) && Enabled(c, s, Act(r, action))
    ensures var t' := Do(c, s.store, s.now, r, s.tasks[r], action).task;
      FollowOk(c, s, t') && RerunOk(c, s, t')
  {
    hide Inv, Do;
    if action.Poll? {
      PollReadOk(c, s, r, action);
    } else if action.CheckCache? {
      CacheReadOk(c, s, r, action);
    } else {
      NothingRead(c, s.store, s.now, r, s.tasks[r], action);
    }
  }

  lemma ActorOk(c: Config, s: State, r: RequestId, action: Action)
    requires Inv(c, s) && Enabled(c, s, Act(r, action))
    ensures TaskOk(c, Apply(c, s, Act(r, action)), r)
  {
    TasksGrow(c, s, Act(r, action));
    ActorLocalOk(c, s, r, action);
    ActorLockOk(c, s, r, action);
    ActorReadOk(c, s, r, action);
    var s' := Apply(c, s, Act(r, action));
    ReadingsLast(c, s, s', s'.tasks[r]);
  }

  lemma ReadingsLast(c: Config, s: State, s': State, t: Task)
    requires FollowOk(c, s, t) && RerunOk(c, s, t) && |s.tasks| <= |s'.tasks|
    requires forall i :: 0 <= i < |s.tasks| ==> Grows(s.tasks[i], s'.tasks[i])
    ensures FollowOk(c, s', t) && RerunOk(c, s', t)
  {
  }

  lemma BystanderOk(c: Config, s: State, s': State, r: RequestId)
    requires TaskOk(c, s, r) && |s.tasks| <= |s'.tasks| && s'.tasks[r] == s.tasks[r] && s.now <= s'.now
    requires forall i :: 0 <= i < |s.tasks| ==> Grows(s.tasks[i], s'.tasks[i])
    requires forall a :: a in s.acquisitions ==> a in s'.acquisitions
    ensures TaskOk(c, s', r)
  {
  }

  lemma TasksPreserved(c: Config, s: State, step: Step)
    requires Inv(c, s) && Enabled(c, s, step)
    ensures forall r :: 0 <= r < |Apply(c, s, step).tasks| ==> TaskOk(c, Apply(c, s, step), r)
  {
    var s' := Apply(c, s, step);
    TasksGrow(c, s, step);
    forall r | 0 <= r < |s'.tasks| ensures TaskOk(c, s', r) {
      if step.Act? && step.r == r {
        ActorOk(c, s, r, step.action);
      } else if r < |s.tasks| {
        BystanderOk(c, s, s', r);
      }
    }
  }

  /** Only an acquisition writes outside the request's own result and SQL keys, and it only
      renews an expired lock. */
  lemma StoreTouches(c: Config, s: State, r: RequestId, action: Action, key: string)
    requires Enabled(c, s, Act(r, action)) && RoleOk(c, s.tasks[r])
    requires key in s.store
    requires key != ResultKey(c.hash, s.tasks[r].request.identity)
    requires key != SqlKey(c.hash, s.tasks[r].request.identity)
    ensures var s' := Apply(c, s, Act(r, action));
      key in s'.store &&
      (s'.store[key] == s.store[key] ||
       (s'.store[key] == Entry(Lock, s.now + c.coalesceTtl) && s.now >= s.store[key].expires))
  {
  }

  lemma LocksKept(c: Config, s: State, step: Step, a: Acquisition)
    requires Inv(c, s) && Enabled(c, s, step) && c.coalesceTtl >= 0.0
    requires a in s.acquisitions
    ensures AcquisitionOk(c, Apply(c, s, step), a)
  {
    assert AcquisitionOk(c, s, a);
    if step.Act? {
      assert EntryOk(c, s, a.key);
      assert TaskOk(c, s, step.r);
      var id :| a.key == LockKey(c.hash, id);
      FamiliesDisjoint(c.hash, s.tasks[step.r].request.identity, id);
      FamiliesDisjoint(c.hash, id, s.tasks[step.r].request.identity);
      StoreTouches(c, s, step.r, step.action, a.key);
    }
  }

  lemma AcquisitionsPreserved(c: Config, s: State, step: Step)
    requires Inv(c, s) && Enabled(c, s, step) && c.coalesceTtl >= 0.0
    ensures var s' := Apply(c, s, step);
      (forall a :: a in s'.acquisitions ==> AcquisitionOk(c, s', a)) && Spaced(c, s'.acquisitions)
  {
    var s' := Apply(c, s, step);
    forall a | a in s'.acquisitions ensures AcquisitionOk(c, s', a) {
      if a in s.acquisitions {
        LocksKept(c, s, step, a);
      }
    }
    forall i, j | 0 <= i < j < |s'.acquisitions| && s'.acquisitions[i].key == s'.acquisitions[j].key
      ensures s'.acquisitions[j].at >= s'.acquisitions[i].at + c.coalesceTtl
    {
      assert s'.acquisitions[i] == s.acquisitions[i];
      assert s.acquisitions[i] in s.acquisitions;
      assert AcquisitionOk(c, s, s.acquisitions[i]);
    }
  }

  lemma StepPreserves(c: Config, s: State, step: Step)
    requires c.coalesceTtl >= 0.0 && Inv(c, s) && Enabled(c, s, step)
    ensures Inv(c, Apply(c, s, step))
  {
    hide Apply, EntryOk, TaskOk;
    StorePreserved(c, s, step);
    TasksPreserved(c, s, step);
    AcquisitionsPreserved(c, s, step);
    TasksGrow(c, s, step);
  }

  lemma {:induction false} RunPreserves(c: Config, s: State, run: seq<Step>)
    requires c.coalesceTtl >= 0.0 && Inv(c, s) && Legal(c, s, run)
    ensures Inv(c, Execute(c, s, run))
    decreases |run|
  {
    if run != [] {
      StepPreserves(c, s, run[0]);
      RunPreserves(c, Apply(c, s, run[0]), run[1..]);
    }
  }

  // ----- what holds of every run ------------------------------------------------------

  ghost predicate Reachable(c: Config, s: State) {
    exists now, run :: Legal(c, Init(now), run) && s == Execute(c, Init(now), run)
  }

  lemma ReachableInv(c: Config, s: State)
    requires c.coalesceTtl >= 0.0 && Reachable(c, s)
    ensures Inv(c, s)
  {
    var now, run :| Legal(c, Init(now), run) && s == Execute(c, Init(now), run);
    assert Inv(c, Init(now));
    RunPreserves(c, Init(now), run);
  }

  /** What a follower returns was published, less than the coalesce timeout before it was read,
      by a leader of the same audience that had acquired the same lock. */
  lemma FollowerProvenance(c: Config, s: State, r: RequestId)
    requires c.coalesceTtl >= 0.0 && Reachable(c, s) && r < |s.tasks|
    requires s.tasks[r].phase.Returned? && s.tasks[r].phase.origin.FromLeader?
    requires forall i :: 0 <= i < |s.tasks| ==> Joinable(c.hash, s.tasks[i].request.identity)
    ensures var o := s.tasks[r].phase.origin;
      o.leader < |s.tasks| && var leader := s.tasks[o.leader];
      SameAudience(c.hash, leader.request.identity, s.tasks[r].request.identity) &&
      leader.attempted == Some(s.tasks[r].phase.result) &&
      leader.lockedAt.Some? && leader.lockedAt.value <= o.publishedAt &&
      Acquisition(LockKey(c.hash, s.tasks[r].request.identity), o.leader, leader.lockedAt.value) in s.acquisitions &&
      o.publishedAt <= o.readAt < o.publishedAt + c.coalesceTtl
  {
    ReachableInv(c, s);
    assert TaskOk(c, s, r);
    var l := s.tasks[r].phase.origin.leader;
    assert TaskOk(c, s, l);
    KeysInjective(c.hash, s.tasks[l].request.identity, s.tasks[r].request.identity);
  }

  /** Two acquisitions of one lock are at least the coalesce timeout apart. */
  lemma AcquisitionsSpaced(c: Config, s: State, i: nat, j: nat)
    requires c.coalesceTtl >= 0.0 && Reachable(c, s)
    requires i < j < |s.acquisitions| && s.acquisitions[i].key == s.acquisitions[j].key
    ensures s.acquisitions[j].at >= s.acquisitions[i].at + c.coalesceTtl
  {
    ReachableInv(c, s);
  }

  /** A leader that returns or reports an error has tried to publish exactly that; a request
      that is not the leader, or could not reach Redis to become it, publishes nothing. */
  lemma LeaderPublishesItsReply(c: Config, s: State, r: RequestId)
    requires c.coalesceTtl >= 0.0 && Reachable(c, s) && r < |s.tasks|
    ensures var t := s.tasks[r];
      (t.role.Some? && t.role.value.isLeader && t.role.value.resultKey != "" ==>
        (t.phase.Returned? ==> t.phase.origin.Own? && t.attempted == Some(t.phase.result)) &&
        (t.phase.Raised? && t.phase.error.Some? ==> t.attempted == Some(ErrorReport(t.phase.error.value)))) &&
      (t.role.Some? && (!t.role.value.isLeader || t.role.value.resultKey == "") ==> t.attempted.None?)
  {
    ReachableInv(c, s);
    assert TaskOk(c, s, r);
  }

  /** An error report is returned only to followers; the leader it came from raised it. */
  lemma ErrorReportsSplit(c: Config, s: State, r: RequestId)
    requires c.coalesceTtl >= 0.0 && Reachable(c, s) && r < |s.tasks|
    requires s.tasks[r].phase.Returned? && s.tasks[r].phase.result.ErrorReport?
    ensures var o := s.tasks[r].phase.origin;
      o.FromLeader? && o.leader < |s.tasks| &&
      s.tasks[o.leader].phase == Raised(Some(s.tasks[r].phase.result.message))
  {
    ReachableInv(c, s);
    assert TaskOk(c, s, r);
    var o := s.tasks[r].phase.origin;
    if o.FromLeader? {
      assert TaskOk(c, s, o.leader);
    }
  }

  /** A statement in the SQL cache, or taken from it to be run again, was generated by a run of
      the same audience that was a query without error or retry and found rows. */
  lemma SqlCacheSound(c: Config, s: State, id: Identity, writer: RequestId, sql: string)
    requires c.coalesceTtl >= 0.0 && Reachable(c, s) && Joinable(c.hash, id)
    requires forall i :: 0 <= i < |s.tasks| ==> Joinable(c.hash, s.tasks[i].request.identity)
    requires
      (SqlKey(c.hash, id) in s.store && var v := s.store[SqlKey(c.hash, id)].value;
        v.CachedSql? && v.writer == writer && v.sql == sql) ||
      (exists r :: 0 <= r < |s.tasks| && s.tasks[r].request.identity == id &&
        s.tasks[r].phase == RunningCached(sql, writer))
    ensures writer < |s.tasks| && SameAudience(c.hash, s.tasks[writer].request.identity, id)
    ensures s.tasks[writer].final.Some? && var fs := s.tasks[writer].final.value;
      fs.sql == Some(sql) && Cacheable(fs)
  {
    hide ShouldCache, Cacheable, Publishes, Live;
    ReachableInv(c, s);
    var key := SqlKey(c.hash, id);
    if key in s.store && s.store[key].value.CachedSql? && s.store[key].value.writer == writer &&
       s.store[key].value.sql == sql {
      assert EntryOk(c, s, key);
    } else {
      var r :| 0 <= r < |s.tasks| && s.tasks[r].request.identity == id &&
        s.tasks[r].phase == RunningCached(sql, writer);
      assert TaskOk(c, s, r);
    }
    CacheableIsCached(s.tasks[writer].final.value);
    KeysInjective(c.hash, s.tasks[writer].request.identity, id);
  }

  /** What sits at a SQL key is always such a statement, never a lock or a result. */
  lemma SqlKeysHoldSql(c: Config, s: State, id: Identity)
    requires c.coalesceTtl >= 0.0 && Reachable(c, s) && SqlKey(c.hash, id) in s.store
    ensures s.store[SqlKey(c.hash, id)].value.CachedSql?
  {
    ReachableInv(c, s);
    var key := SqlKey(c.hash, id);
    assert EntryOk(c, s, key);
    match s.store[key].value
    case Lock =>
      var other :| key == LockKey(c.hash, other);
      FamiliesDisjoint(c.hash, id, other);
    case Published(_, w, _) => FamiliesDisjoint(c.hash, id, s.tasks[w].request.identity);
    case CachedSql(_, _, _) =>
  }

  /** After its cached statement failed, a request generates, replies or returns only once the
      deletion was issued; and unless the command was lost on the way, it removed the entry. */
  lemma FailedSqlIsDropped(c: Config, s: State, r: RequestId, reply: Reply)
    requires c.coalesceTtl >= 0.0 && Reachable(c, s) && r < |s.tasks|
    ensures s.tasks[r].debt.Owed? ==> s.tasks[r].phase.Dropping? || s.tasks[r].phase == Raised(None)
    ensures Enabled(c, s, Act(r, CachedFailed)) ==>
      var s' := Apply(c, s, Act(r, CachedFailed));
      s'.tasks[r].debt.Owed? && Enabled(c, s', Act(r, Drop(reply))) &&
      var s'' := Apply(c, s', Act(r, Drop(reply)));
      s''.tasks[r].phase.Generating? &&
      (reply != LostBefore ==> SqlKey(c.hash, s.tasks[r].request.identity) !in s''.store)
  {
    ReachableInv(c, s);
    assert TaskOk(c, s, r);
  }

  // ----- the poll loop ends, and so does every request ----------------------------------

  /** Rounded-up quotient. */
  function Ceiling(x: real): int {
    -((-x).Floor)
  }

  function MaxPolls(c: Config): nat
    requires c.pollInterval > 0.0
  {
    if c.maxWait <= 0.0 then 0 else PollsPositive(c); Ceiling(c.maxWait / c.pollInterval)
  }

  lemma PollsPositive(c: Config)
    requires c.pollInterval > 0.0 && c.maxWait > 0.0
    ensures Ceiling(c.maxWait / c.pollInterval) >= 0
  {
    assert c.maxWait / c.pollInterval > 0.0;
  }

  lemma PollCount(n: nat, interval: real, wait: real)
    requires interval > 0.0
    ensures n as real * interval < wait <==> (n as real) < wait / interval
  {
    var q := wait / interval;
    assert q * interval == wait;
    if (n as real) < q {
      assert n as real * interval < q * interval;
    } else {
      assert n as real * interval >= q * interval;
    }
  }

  lemma PollsWhile(c: Config, n: nat)
    requires c.pollInterval > 0.0
    ensures n as real * c.pollInterval < c.maxWait <==> n < MaxPolls(c)
  {
    PollCount(n, c.pollInterval, c.maxWait);
    if c.maxWait > 0.0 {
      var q := c.maxWait / c.pollInterval;
      assert (-q).Floor as real <= -q < (-q).Floor as real + 1.0;
    } else {
      assert n as real * c.pollInterval >= 0.0;
    }
  }

  function Rank(c: Config, t: Task): int
    requires c.pollInterval > 0.0
  {
    match t.phase
    case Connecting => 10 + MaxPolls(c)
    case Polling(_, polls) => 9 + MaxPolls(c) - polls
    case CacheCheck => 8
    case RunningCached(_, _) => 7
    case Dropping => 6
    case Generating => 5
    case Caching(_) => 4
    case Replying(_) => 3
    case Publishing(_) => 2
    case Returned(_, _) => 0
    case Raised(_) => 0
  }

  lemma ActionLowersRank(c: Config, s: State, r: RequestId, action: Action)
    requires c.pollInterval > 0.0 && Enabled(c, s, Act(r, action)) && TaskOk(c, s, r)
    ensures var t' := Do(c, s.store, s.now, r, s.tasks[r], action).task;
      0 <= Rank(c, t') < Rank(c, s.tasks[r])
  {
    hide ResultKey, LockKey, SqlKey, Live, Publishes, ShouldCache, MaxPolls;
    var t := s.tasks[r];
    if t.phase.Polling? {
      PollsWhile(c, t.phase.polls);
      if t.phase.polls > 0 {
        PollsWhile(c, t.phase.polls - 1);
      }
    }
  }

  lemma RankBound(c: Config, s: State, r: RequestId)
    requires c.pollInterval > 0.0 && TaskOk(c, s, r)
    ensures 0 <= Rank(c, s.tasks[r]) <= 10 + MaxPolls(c)
  {
    var t := s.tasks[r];
    if t.phase.Polling? && t.phase.polls > 0 {
      PollsWhile(c, t.phase.polls - 1);
    }
  }

  /** The steps of one request in a run. */
  function OwnSteps(run: seq<Step>, r: RequestId): nat {
    if run == [] then 0
    else OwnSteps(run[1..], r) + if run[0].Act? && run[0].r == r then 1 else 0
  }

  /** What a request may still do, or will be able to once it arrives. */
  function Left(c: Config, s: State, r: RequestId): int
    requires c.pollInterval > 0.0
  {
    if r < |s.tasks| then Rank(c, s.tasks[r]) else 10 + MaxPolls(c)
  }

  lemma StepTakesLeft(c: Config, s: State, step: Step, r: RequestId)
    requires c.pollInterval > 0.0 && Inv(c, s) && Enabled(c, s, step)
    ensures Left(c, Apply(c, s, step), r) <= Left(c, s, r) - if step.Act? && step.r == r then 1 else 0
  {
    hide MaxPolls, Do, TaskOk;
    match step
    case Tick(_) =>
    case Arrive(_) =>
    case Act(i, action) =>
      assert TaskOk(c, s, i);
      ActionLowersRank(c, s, i, action);
  }

  lemma {:induction false} RunTakesLeft(c: Config, s: State, run: seq<Step>, r: RequestId)
    requires c.coalesceTtl >= 0.0 && c.pollInterval > 0.0 && Inv(c, s) && Legal(c, s, run)
    ensures OwnSteps(run, r) + Left(c, Execute(c, s, run), r) <= Left(c, s, r)
    decreases |run|
  {
    if run != [] {
      hide Inv, Left, Apply, Enabled;
      StepTakesLeft(c, s, run[0], r);
      StepPreserves(c, s, run[0]);
      RunTakesLeft(c, Apply(c, s, run[0]), run[1..], r);
    }
  }

  lemma LeftBound(c: Config, s: State, r: RequestId)
    requires c.pollInterval > 0.0 && Inv(c, s)
    ensures 0 <= Left(c, s, r) <= 10 + MaxPolls(c)
  {
    if r < |s.tasks| {
      assert TaskOk(c, s, r);
      RankBound(c, s, r);
    }
  }

  /** Where in the run the request acts. */
  ghost function OwnPlaces(run: seq<Step>, r: RequestId): set<nat> {
    set j: nat | j < |run| && run[j].Act? && run[j].r == r
  }

  lemma {:induction false} OwnStepsSnoc(run: seq<Step>, x: Step, r: RequestId)
    ensures OwnSteps(run + [x], r) == OwnSteps(run, r) + if x.Act? && x.r == r then 1 else 0
  {
    if run == [] {
      assert ([] + [x])[1..] == [];
    } else {
      assert (run + [x])[1..] == run[1..] + [x];
      OwnStepsSnoc(run[1..], x, r);
    }
  }

  lemma {:induction false} OwnStepsCount(run: seq<Step>, r: RequestId)
    ensures OwnSteps(run, r) == |OwnPlaces(run, r)|
    decreases |run|
  {
    if run != [] {
      var n := |run| - 1;
      OwnStepsCount(run[..n], r);
      OwnStepsSnoc(run[..n], run[n], r);
      assert run == run[..n] + [run[n]];
      if run[n].Act? && run[n].r == r {
        assert OwnPlaces(run, r) == OwnPlaces(run[..n], r) + {n};
      } else {
        assert OwnPlaces(run, r) == OwnPlaces(run[..n], r);
      }
    }
  }

  /** No request waits for ever: in every run, whatever arrives meanwhile and however many leaders fail
      without publishing, each takes at most ten steps beside its polls, and until it is finished it
      always has a step to take. */
  lemma EveryRequestEnds(c: Config, start: State, run: seq<Step>, r: RequestId) returns (action: Action)
    requires c.coalesceTtl >= 0.0 && c.pollInterval > 0.0 && Reachable(c, start) && Legal(c, start, run)
    ensures |OwnPlaces(run, r)| <= 10 + MaxPolls(c)
    ensures var s := Execute(c, start, run);
      r < |s.tasks| && BeforeReply(s.tasks[r].phase) ==> action != Abort && Enabled(c, s, Act(r, action))
  {
    ReachableInv(c, start);
    RunTakesLeft(c, start, run, r);
    OwnStepsCount(run, r);
    RunPreserves(c, start, run);
    var s := Execute(c, start, run);
    LeftBound(c, start, r);
    LeftBound(c, s, r);
    action := Abort;
    if r < |s.tasks| {
      action := NextStep(c, s, r);
    }
  }

  lemma NextStep(c: Config, s: State, r: RequestId) returns (action: Action)
    requires c.pollInterval > 0.0 && Inv(c, s) && r < |s.tasks|
    ensures BeforeReply(s.tasks[r].phase) ==> action != Abort && Enabled(c, s, Act(r, action))
  {
    assert TaskOk(c, s, r);
    match s.tasks[r].phase
    case Connecting => action := Acquire(Answered);
    case Polling(waited, _) => action := if waited < c.maxWait then Poll(true) else GiveUp;
    case CacheCheck => action := CheckCache(true);
    case RunningCached(_, _) => action := CachedFailed;
    case Dropping => action := Drop(Answered);
    case Generating => action := Generate(FinalState(None, None, None, 0, None, 0));
    case Caching(_) => action := StoreSql(Answered);
    case Replying(_) => action := Respond;
    case Publishing(_) => action := Publish(Answered);
    case Returned(_, _) => action := Abort;
    case Raised(_) => action := Abort;
  }

  /** A follower reads the result key at most ceil(max_wait / poll_interval) times. */
  lemma PollsBounded(c: Config, s: State, r: RequestId)
    requires c.coalesceTtl >= 0.0 && c.pollInterval > 0.0 && Reachable(c, s) && r < |s.tasks|
    requires s.tasks[r].phase.Polling?
    ensures s.tasks[r].phase.polls <= MaxPolls(c)
    ensures Enabled(c, s, Act(r, GiveUp)) <==> s.tasks[r].phase.polls == MaxPolls(c)
  {
    ReachableInv(c, s);
    assert TaskOk(c, s, r);
    var n := s.tasks[r].phase.polls;
    PollsWhile(c, n);
    if n > 0 {
      PollsWhile(c, n - 1);
    }
  }

  // ----- the functions of query_cache.py themselves --------------------------------------

  /** What one GET of the result key shows a polling follower. */
  datatype PollReply = Nothing | Found(payload: Payload) | Broken

  /** wait_for_coalesce_result: between two polls anyone may change Redis, so what the i-th
      poll sees is an arbitrary function of i. */
  method WaitForCoalesceResult(c: Config, poll: nat -> PollReply) returns (result: Option<Payload>, polls: nat)
    requires c.pollInterval > 0.0
    ensures polls <= MaxPolls(c)
    ensures forall i :: 0 <= i < polls - 1 ==> poll(i).Nothing?
    ensures result.Some? ==> polls > 0 && poll(polls - 1) == Found(result.value)
    ensures result.None? ==>
      (polls == MaxPolls(c) && (polls > 0 ==> poll(polls - 1).Nothing?)) || (polls > 0 && poll(polls - 1).Broken?)
  {
    var waited := 0.0;
    polls := 0;
    PollsWhile(c, 0);
    while waited < c.maxWait
      invariant waited == polls as real * c.pollInterval
      invariant polls <= MaxPolls(c) && (waited < c.maxWait <==> polls < MaxPolls(c))
      invariant forall i :: 0 <= i < polls ==> poll(i).Nothing?
      decreases MaxPolls(c) - polls
    {
      var raw := poll(polls);
      polls := polls + 1;
      match raw
      case Found(payload) => return Some(payload), polls;
      case Broken => return None, polls;
      case Nothing =>
        PollsWhile(c, polls);
        assert polls as real == (polls - 1) as real + 1.0;
        waited := waited + c.pollInterval;
    }
    result := None;
  }

  /** The other functions, as commands on the one Redis store. */
  class QueryCache {
    const c: Config
    var store: Store

    constructor (c: Config)
      ensures this.c == c && store == map[]
    {
      this.c := c;
      store := map[];
    }

    method TryCoalesceLeader(id: Identity, now: real, reply: Reply) returns (isLeader: bool, resultKey: string)
      modifies this
      ensures Role(isLeader, resultKey) == LeaderRole(c, old(store), id, now, reply)
      ensures store == AfterSetNx(old(store), LockKey(c.hash, id), c.coalesceTtl, now, reply)
    {
      var key := LockKey(c.hash, id);
      var acquired := false;
      if reply != LostBefore {
        if !Live(store, key, now) {
          store := store[key := Entry(Lock, now + c.coalesceTtl)];
          acquired := true;
        }
      }
      if reply != Answered {
        return true, "";
      }
      return acquired, ResultKey(c.hash, id);
    }

    method PublishCoalesceResult(resultKey: string, payload: Payload, r: RequestId, now: real, reply: Reply)
      modifies this
      ensures store == AfterSetEx(old(store), resultKey, Published(payload, r, now), c.coalesceTtl, now, reply)
    {
      if reply != LostBefore {
        store := store[resultKey := Entry(Published(payload, r, now), now + c.coalesceTtl)];
      }
    }

    method GetCachedSql(id: Identity, now: real, answered: bool) returns (sql: Option<string>)
      ensures sql ==
        if answered && Live(store, SqlKey(c.hash, id), now) && store[SqlKey(c.hash, id)].value.CachedSql?
        then Some(store[SqlKey(c.hash, id)].value.sql)
        else None
    {
      sql := None;
      var key := SqlKey(c.hash, id);
      if answered && key in store && now < store[key].expires {
        match store[key].value
        case CachedSql(text, _, _) => sql := Some(text);
        case Lock =>
        case Published(_, _, _) =>
      }
    }

    method SetCachedSql(id: Identity, fs: FinalState, r: RequestId, now: real, reply: Reply)
      requires fs.sql.Some?
      modifies this
      ensures store ==
        AfterSetEx(old(store), SqlKey(c.hash, id), CachedSql(fs.sql.value, fs, r), c.sqlTtl, now, reply)
    {
      if reply != LostBefore {
        store := store[SqlKey(c.hash, id) := Entry(CachedSql(fs.sql.value, fs, r), now + c.sqlTtl)];
      }
    }

    method DeleteCachedSql(id: Identity, reply: Reply)
      modifies this
      ensures store == AfterDelete(old(store), SqlKey(c.hash, id), reply)
    {
      if reply != LostBefore {
        store := store - {SqlKey(c.hash, id)};
      }
    }
  }
}
