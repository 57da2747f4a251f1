/** One call of execute_nl_query from beginning to end with nothing lost on the way: what it answers, and
    what Redis holds afterwards. */
module CoalescingAlone {
  import opened Options
  import opened QueryKeys
  import opened Coalescing
  import opened CoalescingReplies

  // ----- runs, step by step ---------------------------------------------------------------------------

  ghost predicate Leads(c: Config, s: State, run: seq<Step>, s': State) {
    Legal(c, s, run) && Execute(c, s, run) == s'
  }

  lemma {:induction false} Joined(c: Config, s: State, a: seq<Step>, m: State, b: seq<Step>, s': State)
    requires Leads(c, s, a, m) && Leads(c, m, b, s')
    ensures Leads(c, s, a + b, s')
    decreases |a|
  {
    hide Apply, Enabled;
    if a == [] {
      assert a + b == b;
    } else {
      assert (a + b)[0] == a[0] && (a + b)[1..] == a[1..] + b;
      Joined(c, Apply(c, s, a[0]), a[1..], m, b, s');
    }
  }

  lemma Then(c: Config, s: State, run: seq<Step>, m: State, step: Step)
    requires Leads(c, s, run, m) && Enabled(c, m, step)
    ensures Leads(c, s, run + [step], Apply(c, m, step))
  {
    hide Apply, Enabled;
    OneStep(c, m, step);
    Joined(c, s, run, m, [step], Apply(c, m, step));
  }

  lemma OneStep(c: Config, s: State, step: Step)
    requires Enabled(c, s, step)
    ensures Leads(c, s, [step], Apply(c, s, step))
  {
    hide Apply, Enabled;
    var rest := [step][1..];
    assert rest == [];
    assert Legal(c, Apply(c, s, step), rest) && Execute(c, Apply(c, s, step), rest) == Apply(c, s, step);
  }

  // ----- what is expected -------------------------------------------------------------------------------

  /** The cached statement that a request finds, unless it skips the cache. */
  function Hit(c: Config, s: State, q: Request): Option<string> {
    var key := SqlKey(c.hash, q.identity);
    if !q.skipCache && key in s.store && s.now < s.store[key].expires && s.store[key].value.CachedSql?
    then Some(s.store[key].value.sql) else None
  }

  ghost predicate SameAt(before: Store, after: Store, key: string) {
    (key in before <==> key in after) && (key in before ==> after[key] == before[key])
  }

  /** The reply is published to last the coalesce timeout, or not at all. */
  ghost predicate PublishedTo(c: Config, s: State, after: Store, r: RequestId, role: Role, p: Payload) {
    role.isLeader && role.resultKey != "" ==>
      role.resultKey in after && after[role.resultKey] == Entry(Published(p, r, s.now), s.now + c.coalesceTtl)
  }

  /** Where nothing is written nothing changes. */
  ghost predicate OnlyAt(before: Store, after: Store, role: Role, sqlKey: string) {
    forall key :: key != sqlKey && !(role.isLeader && key == role.resultKey && key != "") ==> SameAt(before, after, key)
  }

  /** The one task that acted, by how it ended. */
  ghost predicate Ended(s: State, s': State, r: RequestId, p: Payload) {
    r < |s.tasks| && |s'.tasks| == |s.tasks| && s'.now == s.now &&
    s'.tasks[r].phase == (if p.ErrorReport? then Raised(Some(p.message)) else Returned(p, Own)) &&
    forall i :: 0 <= i < |s.tasks| && i != r ==> s'.tasks[i] == s.tasks[i]
  }

  ghost predicate HasRole(c: Config, t: Task, role: Role) {
    t.role == Some(role) && role.resultKey in {"", ResultKey(c.hash, t.request.identity)}
  }

  // ----- from the reply on ---------------------------------------------------------------------------------

  lemma Publishes(c: Config, s: State, r: RequestId, role: Role, p: Payload) returns (run: seq<Step>, s': State)
    requires r < |s.tasks| && HasRole(c, s.tasks[r], role) && s.tasks[r].phase == Publishing(p)
    ensures Leads(c, s, run, s') && Ended(s, s', r, p) && PublishedTo(c, s, s'.store, r, role, p)
    ensures s'.tasks[r].final == s.tasks[r].final
    ensures forall key :: !(role.isLeader && key == role.resultKey && key != "") ==> SameAt(s.store, s'.store, key)
  {
    var step := Act(r, Publish(Reply.Answered));
    run, s' := [step], Apply(c, s, step);
    OneStep(c, s, step);
  }

  // ----- from the pipeline on --------------------------------------------------------------------------------

  /** What the SQL key holds after the pipeline ran: the statement, when it may be cached. */
  ghost predicate SqlAfter(c: Config, s: State, after: Store, r: RequestId, key: string, fs: FinalState) {
    if Cacheable(fs) then key in after && after[key] == Entry(CachedSql(fs.sql.value, fs, r), s.now + c.sqlTtl)
    else SameAt(s.store, after, key)
  }

  /** The reply is being published and the statement is stored. */
  ghost predicate Replied(c: Config, s: State, s': State, r: RequestId, key: string, fs: FinalState, p: Payload) {
    r < |s.tasks| && s'.now == s.now && RightReply(fs, p) && SqlAfter(c, s, s'.store, r, key, fs) &&
    s'.tasks == s.tasks[r := s.tasks[r].(final := Some(fs), phase := Publishing(p))] &&
    forall other :: other != key ==> SameAt(s.store, s'.store, other)
  }

  lemma RunsPipeline(c: Config, s: State, r: RequestId, fs: FinalState)
    returns (run: seq<Step>, s': State, p: Payload)
    requires r < |s.tasks| && s.tasks[r].phase.Generating?
    ensures Leads(c, s, run, s') && Replied(c, s, s', r, SqlKey(c.hash, s.tasks[r].request.identity), fs, p)
  {
    hide Leads, SqlKey, ReplyOf, RightReply, ShouldCache, Cacheable;
    ReplyIsRight(fs);
    CacheableIsCached(fs);
    p := ReplyOf(fs);
    OneStep(c, s, Act(r, Generate(fs)));
    run, s' := [Act(r, Generate(fs))], Apply(c, s, Act(r, Generate(fs)));
    Then(c, s, run, s', Act(r, StoreSql(Reply.Answered)));
    run, s' := run + [Act(r, StoreSql(Reply.Answered))], Apply(c, s', Act(r, StoreSql(Reply.Answered)));
    Then(c, s, run, s', Act(r, Respond));
    run, s' := run + [Act(r, Respond)], Apply(c, s', Act(r, Respond));
  }

  /** The pipeline ran and its reply was published: the whole effect. */
  ghost predicate Generated(c: Config, s: State, s': State, r: RequestId, role: Role, fs: FinalState, p: Payload) {
    Ended(s, s', r, p) && RightReply(fs, p) && s'.tasks[r].final == Some(fs) &&
    var key := SqlKey(c.hash, s.tasks[r].request.identity);
    SqlAfter(c, s, s'.store, r, key, fs) && PublishedTo(c, s, s'.store, r, role, p) && OnlyAt(s.store, s'.store, role, key)
  }

  lemma Generates(c: Config, s: State, r: RequestId, role: Role, fs: FinalState)
    returns (run: seq<Step>, s': State, p: Payload)
    requires r < |s.tasks| && HasRole(c, s.tasks[r], role) && s.tasks[r].phase.Generating?
    ensures Leads(c, s, run, s') && Generated(c, s, s', r, role, fs, p)
  {
    var m: State;
    var id := s.tasks[r].request.identity;
    FamiliesDisjoint(c.hash, id, id);
    run, m, p := RunsPipeline(c, s, r, fs);
    var last: seq<Step>;
    last, s' := Publishes(c, m, r, role, p);
    hide Leads, SqlKey, ResultKey, RightReply, Cacheable;
    Joined(c, s, run, m, last, s');
    run := run + last;
    var key := SqlKey(c.hash, id);
    assert SameAt(m.store, s'.store, key);
    forall other | other != key && !(role.isLeader && other == role.resultKey && other != "")
      ensures SameAt(s.store, s'.store, other)
    {
      assert SameAt(s.store, m.store, other) && SameAt(m.store, s'.store, other);
    }
  }

  // ----- from the SQL cache on ---------------------------------------------------------------------------------

  /** A hit whose statement runs is answered with it, and nothing is generated. */
  ghost predicate Reran(c: Config, s: State, s': State, r: RequestId, role: Role, sql: string, result: QueryResult) {
    Ended(s, s', r, CachedAnswer(sql, result)) && s'.tasks[r].final == s.tasks[r].final &&
    var key := SqlKey(c.hash, s.tasks[r].request.identity);
    SameAt(s.store, s'.store, key) && PublishedTo(c, s, s'.store, r, role, CachedAnswer(sql, result)) &&
    OnlyAt(s.store, s'.store, role, key)
  }

  /** A hit whose statement fails is removed before the pipeline runs. */
  ghost predicate Regenerated(c: Config, s: State, s': State, r: RequestId, role: Role, fs: FinalState, p: Payload) {
    r < |s.tasks| &&
    var key := SqlKey(c.hash, s.tasks[r].request.identity);
    Generated(c, s.(store := s.store - {key}), s', r, role, fs, p)
  }

  /** What the call does from its look into the SQL cache on, when the cached statement gives `db` (or
      fails) and the pipeline ends in `fs`. */
  ghost predicate Served(c: Config, s: State, s': State, r: RequestId, role: Role, db: Option<QueryResult>,
                         fs: FinalState, p: Payload)
    requires r < |s.tasks|
  {
    var hit := Hit(c, s, s.tasks[r].request);
    if hit.None? then Generated(c, s, s', r, role, fs, p)
    else if db.Some? then p == CachedAnswer(hit.value, db.value) && Reran(c, s, s', r, role, hit.value, db.value)
    else Regenerated(c, s, s', r, role, fs, p)
  }

  lemma Looks(c: Config, s: State, r: RequestId)
    requires r < |s.tasks| && s.tasks[r].phase.CacheCheck?
    ensures var step := Act(r, CheckCache(true)); var hit := Hit(c, s, s.tasks[r].request);
      Enabled(c, s, step) && Apply(c, s, step).store == s.store && Apply(c, s, step).now == s.now &&
      |Apply(c, s, step).tasks| == |s.tasks| &&
      Apply(c, s, step) == s.(tasks := s.tasks[r := s.tasks[r].(phase := Apply(c, s, step).tasks[r].phase)]) &&
      var phase := Apply(c, s, step).tasks[r].phase;
      if hit.Some? then phase.RunningCached? && phase.sql == hit.value else phase.Generating?
  {
    hide SqlKey;
  }

  lemma RunsAgain(c: Config, s: State, r: RequestId, role: Role, result: QueryResult)
    returns (run: seq<Step>, s': State)
    requires r < |s.tasks| && HasRole(c, s.tasks[r], role) && s.tasks[r].phase.RunningCached?
    ensures Leads(c, s, run, s') && Reran(c, s, s', r, role, s.tasks[r].phase.sql, result)
  {
    hide Leads, ResultKey;
    var id := s.tasks[r].request.identity;
    FamiliesDisjoint(c.hash, id, id);
    OneStep(c, s, Act(r, CachedOk(result)));
    var m := Apply(c, s, Act(r, CachedOk(result)));
    var last: seq<Step>;
    last, s' := Publishes(c, m, r, role, CachedAnswer(s.tasks[r].phase.sql, result));
    hide SqlKey;
    Joined(c, s, [Act(r, CachedOk(result))], m, last, s');
    run := [Act(r, CachedOk(result))] + last;
  }

  lemma Drops(c: Config, s: State, r: RequestId) returns (run: seq<Step>, s': State)
    requires r < |s.tasks| && s.tasks[r].phase.RunningCached?
    ensures Leads(c, s, run, s') && r < |s'.tasks| && s'.tasks[r].phase.Generating?
    ensures s' == s.(store := s.store - {SqlKey(c.hash, s.tasks[r].request.identity)},
      tasks := s.tasks[r := s.tasks[r].(phase := Generating, debt := Settled)])
  {
    hide Leads, SqlKey;
    OneStep(c, s, Act(r, CachedFailed));
    run, s' := [Act(r, CachedFailed)], Apply(c, s, Act(r, CachedFailed));
    Then(c, s, run, s', Act(r, Drop(Reply.Answered)));
    run, s' := run + [Act(r, Drop(Reply.Answered))], Apply(c, s', Act(r, Drop(Reply.Answered)));
  }

  lemma Serves(c: Config, s: State, r: RequestId, role: Role, db: Option<QueryResult>, fs: FinalState)
    returns (run: seq<Step>, s': State, p: Payload)
    requires r < |s.tasks| && HasRole(c, s.tasks[r], role) && s.tasks[r].phase.CacheCheck?
    ensures Leads(c, s, run, s') && Served(c, s, s', r, role, db, fs, p)
  {
    hide Leads, SqlKey, ResultKey, RightReply, Cacheable, Do;
    var step, hit := Act(r, CheckCache(true)), Hit(c, s, s.tasks[r].request);
    Looks(c, s, r);
    OneStep(c, s, step);
    var m := Apply(c, s, step);
    hide Apply, Hit;
    var more: seq<Step>;
    if hit.None? {
      more, s', p := Generates(c, m, r, role, fs);
    } else if db.Some? {
      p := CachedAnswer(hit.value, db.value);
      more, s' := RunsAgain(c, m, r, role, db.value);
    } else {
      var d: State;
      more, d := Drops(c, m, r);
      var last: seq<Step>;
      last, s', p := Generates(c, d, r, role, fs);
      Joined(c, m, more, d, last, s');
      more := more + last;
    }
    Joined(c, s, [step], m, more, s');
    run := [step] + more;
  }

  // ----- whole calls -------------------------------------------------------------------------------------------

  predicate LockFree(c: Config, s: State, q: Request) {
    var key := LockKey(c.hash, q.identity);
    !(key in s.store && s.now < s.store[key].expires)
  }

  /** The call has come and holds the lock. */
  function Led(c: Config, s: State, q: Request): State {
    var lock, role := LockKey(c.hash, q.identity), Role(true, ResultKey(c.hash, q.identity));
    s.(store := s.store[lock := Entry(Lock, s.now + c.coalesceTtl)],
       tasks := s.tasks + [Task(q, CacheCheck, Some(role), Some(s.now), None, None, NoDebt)],
       acquisitions := s.acquisitions + [Acquisition(lock, |s.tasks|, s.now)])
  }

  /** The call has come and found the lock taken. */
  function Queued(c: Config, s: State, q: Request): State {
    s.(tasks := s.tasks + [Task(q, Polling(0.0, 0), Some(Role(false, ResultKey(c.hash, q.identity))), None, None, None, NoDebt)])
  }

  lemma ComesFirst(c: Config, s: State, q: Request) returns (run: seq<Step>)
    requires LockFree(c, s, q)
    ensures Leads(c, s, run, Led(c, s, q))
  {
    hide Leads, LockKey, ResultKey;
    OneStep(c, s, Arrive(q));
    var m, step := Apply(c, s, Arrive(q)), Act(|s.tasks|, Acquire(Reply.Answered));
    Then(c, s, [Arrive(q)], m, step);
    run := [Arrive(q)] + [step];
    assert Apply(c, m, step).tasks == Led(c, s, q).tasks;
  }

  lemma ComesLater(c: Config, s: State, q: Request) returns (run: seq<Step>)
    requires !LockFree(c, s, q)
    ensures Leads(c, s, run, Queued(c, s, q)) && |run| == 2
  {
    hide Leads, LockKey, ResultKey;
    OneStep(c, s, Arrive(q));
    var m, step := Apply(c, s, Arrive(q)), Act(|s.tasks|, Acquire(Reply.Answered));
    Then(c, s, [Arrive(q)], m, step);
    run := [Arrive(q)] + [step];
    assert Apply(c, m, step).tasks == Queued(c, s, q).tasks;
  }

  /** A call that finds the lock free leads: it is served from the SQL cache or by the pipeline, and
      publishes its reply. */
  lemma LeaderIsServed(c: Config, s: State, q: Request, db: Option<QueryResult>, fs: FinalState)
    returns (run: seq<Step>, s': State, p: Payload)
    requires LockFree(c, s, q)
    ensures Leads(c, s, run, s') && Hit(c, Led(c, s, q), q) == Hit(c, s, q)
    ensures Served(c, Led(c, s, q), s', |s.tasks|, Role(true, ResultKey(c.hash, q.identity)), db, fs, p)
  {
    FamiliesDisjoint(c.hash, q.identity, q.identity);
    hide Leads, Served;
    var m := Led(c, s, q);
    run := ComesFirst(c, s, q);
    var more: seq<Step>;
    more, s', p := Serves(c, m, |s.tasks|, Role(true, ResultKey(c.hash, q.identity)), db, fs);
    Joined(c, s, run, m, more, s');
    run := run + more;
  }

  /** When Redis cannot be reached the call leads as well, and publishes nothing. */
  lemma LostRedisIsServed(c: Config, s: State, q: Request, db: Option<QueryResult>, fs: FinalState)
    returns (run: seq<Step>, s': State, p: Payload)
    ensures Leads(c, s, run, s')
    ensures var m := s.(tasks := s.tasks + [Task(q, CacheCheck, Some(Role(true, "")), None, None, None, NoDebt)]);
      Served(c, m, s', |s.tasks|, Role(true, ""), db, fs, p)
  {
    hide Served, LockKey, ResultKey, SqlKey;
    var step := Act(|s.tasks|, Acquire(LostBefore));
    OneStep(c, s, Arrive(q));
    var a := Apply(c, s, Arrive(q));
    Then(c, s, [Arrive(q)], a, step);
    var m := s.(tasks := s.tasks + [Task(q, CacheCheck, Some(Role(true, "")), None, None, None, NoDebt)]);
    assert Apply(c, a, step).tasks == m.tasks;
    hide Leads;
    var more: seq<Step>;
    more, s', p := Serves(c, m, |s.tasks|, Role(true, ""), db, fs);
    Joined(c, s, [Arrive(q)] + [step], m, more, s');
    run := [Arrive(q)] + [step] + more;
  }

  /** A result that is published and has not expired. */
  ghost predicate Shown(c: Config, s: State, q: Request, p: Payload, writer: RequestId, at: real) {
    var key := ResultKey(c.hash, q.identity);
    key in s.store && s.store[key].value == Published(p, writer, at) && s.now < s.store[key].expires
  }

  /** A call that finds the lock taken and a result published returns that result and changes nothing. */
  lemma FollowerIsShown(c: Config, s: State, q: Request, p: Payload, writer: RequestId, at: real)
    returns (run: seq<Step>, s': State)
    requires !LockFree(c, s, q) && c.maxWait > 0.0 && Shown(c, s, q, p, writer, at)
    ensures Leads(c, s, run, s') && s'.store == s.store && |s'.tasks| == |s.tasks| + 1 && s.tasks <= s'.tasks
    ensures s'.tasks[|s.tasks|].phase == Returned(p, FromLeader(writer, at, s.now))
  {
    run := ComesLater(c, s, q);
    hide Leads, LockKey, ResultKey;
    var m, step := Queued(c, s, q), Act(|s.tasks|, Poll(true));
    Then(c, s, run, m, step);
    run, s' := run + [step], Apply(c, m, step);
  }

  /** So a call that comes after one for the same audience, before the coalesce timeout has passed, is
      answered with that one's reply. */
  lemma NextCallSharesReply(c: Config, s: State, q: Request, db: Option<QueryResult>, fs: FinalState,
                            q': Request, elapsed: real)
    returns (run: seq<Step>, s': State, p: Payload)
    requires LockFree(c, s, q) && c.maxWait > 0.0 && 0.0 <= elapsed < c.coalesceTtl
    requires LockKey(c.hash, q'.identity) == LockKey(c.hash, q.identity)
    ensures Leads(c, s, run, s') && |s'.tasks| == |s.tasks| + 2
    ensures s'.tasks[|s.tasks|].phase == (if p.ErrorReport? then Raised(Some(p.message)) else Returned(p, Own))
    ensures s'.tasks[|s.tasks| + 1].phase == Returned(p, FromLeader(|s.tasks|, s.now, s.now + elapsed))
  {
    KeysMeetTogether(c.hash, q'.identity, q.identity);
    FamiliesDisjoint(c.hash, q.identity, q.identity);
    var m, t: State;
    run, m, p := LeaderIsServed(c, s, q, db, fs);
    PublishedWhenServed(c, Led(c, s, q), m, |s.tasks|, Role(true, ResultKey(c.hash, q.identity)), db, fs, p);
    assert SameAt(Led(c, s, q).store, m.store, LockKey(c.hash, q.identity));
    hide Leads, Served, LockKey, ResultKey, SqlKey;
    Then(c, s, run, m, Tick(elapsed));
    run, t := run + [Tick(elapsed)], Apply(c, m, Tick(elapsed));
    var more: seq<Step>;
    more, s' := FollowerIsShown(c, t, q', p, |s.tasks|, s.now);
    Joined(c, s, run, t, more, s');
    run := run + more;
  }

  /** However it was served, the reply stands at the result key and other keys are as they were. */
  lemma PublishedWhenServed(c: Config, s: State, s': State, r: RequestId, role: Role, db: Option<QueryResult>,
                            fs: FinalState, p: Payload)
    requires r < |s.tasks| && Served(c, s, s', r, role, db, fs, p)
    ensures Ended(s, s', r, p) && PublishedTo(c, s, s'.store, r, role, p)
    ensures OnlyAt(s.store, s'.store, role, SqlKey(c.hash, s.tasks[r].request.identity))
  {
    hide SqlKey, RightReply;
    var key := SqlKey(c.hash, s.tasks[r].request.identity);
    forall other | other != key && !(role.isLeader && other == role.resultKey && other != "")
      ensures SameAt(s.store, s'.store, other)
    {
      assert SameAt(s.store - {key}, s'.store, other) || SameAt(s.store, s'.store, other);
    }
  }

  // ----- a follower that is shown nothing ------------------------------------------------------------------------

  /** The call has polled that often. */
  function Polled(c: Config, s: State, q: Request, n: nat): State {
    s.(tasks := s.tasks + [Task(q, Polling(n as real * c.pollInterval, n),
      Some(Role(false, ResultKey(c.hash, q.identity))), None, None, None, NoDebt)])
  }

  ghost predicate NothingShown(c: Config, s: State, q: Request) {
    var key := ResultKey(c.hash, q.identity);
    !(key in s.store && s.now < s.store[key].expires && s.store[key].value.Published?)
  }

  lemma OnceMore(n: nat, interval: real)
    ensures (n + 1) as real * interval == n as real * interval + interval
  {
    var x := n as real;
    assert (n + 1) as real == x + 1.0;
    assert (x + 1.0) * interval == x * interval + interval;
  }

  lemma PollsOnce(c: Config, s: State, q: Request, n: nat)
    requires c.pollInterval > 0.0 && NothingShown(c, s, q) && n < MaxPolls(c)
    ensures Enabled(c, Polled(c, s, q, n), Act(|s.tasks|, Poll(true)))
    ensures Apply(c, Polled(c, s, q, n), Act(|s.tasks|, Poll(true))) == Polled(c, s, q, n + 1)
  {
    PollsWhile(c, n);
    OnceMore(n, c.pollInterval);
    hide MaxPolls, ResultKey;
    var m := Apply(c, Polled(c, s, q, n), Act(|s.tasks|, Poll(true)));
    assert m.tasks == Polled(c, s, q, n + 1).tasks;
  }

  lemma PollsOut(c: Config, s: State, q: Request) returns (run: seq<Step>)
    requires c.pollInterval > 0.0 && !LockFree(c, s, q) && NothingShown(c, s, q)
    ensures Leads(c, s, run, Polled(c, s, q, MaxPolls(c))) && |run| == 2 + MaxPolls(c)
  {
    hide Leads, LockFree, ResultKey, MaxPolls;
    run := ComesLater(c, s, q);
    assert Queued(c, s, q).tasks == Polled(c, s, q, 0).tasks;
    for n := 0 to MaxPolls(c)
      invariant Leads(c, s, run, Polled(c, s, q, n)) && |run| == 2 + n
    {
      PollsOnce(c, s, q, n);
      Then(c, s, run, Polled(c, s, q, n), Act(|s.tasks|, Poll(true)));
      run := run + [Act(|s.tasks|, Poll(true))];
    }
  }

  /** A follower that no leader shows a result polls the most it may, then serves itself and publishes
      nothing. */
  lemma FollowerServesItself(c: Config, s: State, q: Request, db: Option<QueryResult>, fs: FinalState)
    returns (run: seq<Step>, s': State, p: Payload)
    requires c.pollInterval > 0.0 && !LockFree(c, s, q) && NothingShown(c, s, q)
    ensures Leads(c, s, run, s') && |run| >= 2 + MaxPolls(c)
    ensures var role := Role(false, ResultKey(c.hash, q.identity));
      var m := s.(tasks := s.tasks + [Task(q, CacheCheck, Some(role), None, None, None, NoDebt)]);
      Hit(c, m, q) == Hit(c, s, q) && Served(c, m, s', |s.tasks|, role, db, fs, p)
  {
    run := PollsOut(c, s, q);
    PollsWhile(c, MaxPolls(c));
    hide Leads, Served, LockFree, ResultKey, MaxPolls, SqlKey;
    var r, role := |s.tasks|, Role(false, ResultKey(c.hash, q.identity));
    Then(c, s, run, Polled(c, s, q, MaxPolls(c)), Act(r, GiveUp));
    var m := s.(tasks := s.tasks + [Task(q, CacheCheck, Some(role), None, None, None, NoDebt)]);
    assert Apply(c, Polled(c, s, q, MaxPolls(c)), Act(r, GiveUp)).tasks == m.tasks;
    var more: seq<Step>;
    more, s', p := Serves(c, m, r, role, db, fs);
    Joined(c, s, run + [Act(r, GiveUp)], m, more, s');
    run := run + [Act(r, GiveUp)] + more;
  }
}
