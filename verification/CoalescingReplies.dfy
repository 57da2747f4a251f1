/** What a request is answered, and what one call of execute_nl_query does from beginning to end. */
module CoalescingReplies {
  import opened Options
  import opened QueryKeys
  import opened Coalescing

  // ----- the reply a final state gets ----------------------------------------------------------------

  /** A clarification exactly for that action; otherwise the error when it says something and there is
      no result; otherwise the answer. */
  ghost predicate RightReply(fs: FinalState, p: Payload) {
    match p
    case Clarification(f) => f == fs && fs.action == Some("clarification")
    case ErrorReport(message) =>
      fs.action != Some("clarification") && fs.error == Some(message) && message != "" && fs.result.None?
    case Answer(f) =>
      f == fs && fs.action != Some("clarification") && (fs.result.Some? || fs.error in {None, Some("")})
    case CachedAnswer(_, _) => false
  }

  /** A cached statement that ran, and what the database gave. */
  datatype Rerun = Rerun(r: RequestId, sql: string, result: QueryResult)

  function RerunsOf(c: Config, s: State, step: Step): seq<Rerun>
    requires Enabled(c, s, step)
  {
    if step.Act? && step.action.CachedOk? then
      [Rerun(step.r, s.tasks[step.r].phase.sql, step.action.result)]
    else []
  }

  ghost function Reruns(c: Config, s: State, run: seq<Step>): seq<Rerun>
    requires Legal(c, s, run)
    decreases |run|
  {
    if run == [] then [] else RerunsOf(c, s, run[0]) + Reruns(c, Apply(c, s, run[0]), run[1..])
  }

  /** From the task's final state when the pipeline ran, from the cached statement otherwise. */
  ghost predicate OwnReply(log: seq<Rerun>, r: RequestId, t: Task, p: Payload) {
    if t.final.Some? then RightReply(t.final.value, p)
    else p.CachedAnswer? && Rerun(r, p.sql, p.result) in log
  }

  ghost predicate ReplyOk(log: seq<Rerun>, r: RequestId, t: Task) {
    match t.phase
    case Publishing(p) => OwnReply(log, r, t, p)
    case Returned(p, origin) => origin.Own? ==> OwnReply(log, r, t, p)
    case Raised(error) => error.Some? ==> t.final.Some? && RightReply(t.final.value, ErrorReport(error.value))
    case _ => true
  }

  lemma ReplyIsRight(fs: FinalState)
    ensures RightReply(fs, ReplyOf(fs))
  {
  }

  lemma MoreReruns(log: seq<Rerun>, more: seq<Rerun>, r: RequestId, t: Task)
    requires ReplyOk(log, r, t)
    ensures ReplyOk(log + more, r, t)
  {
  }

  lemma ActorReplies(c: Config, s: State, log: seq<Rerun>, r: RequestId, action: Action)
    requires Enabled(c, s, Act(r, action)) && ReplyOk(log, r, s.tasks[r])
    requires DebtOk(s.tasks[r]) && FinalFresh(s.tasks[r])
    ensures ReplyOk(log + RerunsOf(c, s, Act(r, action)), r, Do(c, s.store, s.now, r, s.tasks[r], action).task)
  {
    hide ResultKey, LockKey, SqlKey, AfterSetNx, AfterSetEx, AfterDelete, LeaderRole, Live, ShouldCache, RightReply,
      ReplyOf, Publishes;
    var log' := log + RerunsOf(c, s, Act(r, action));
    MoreReruns(log, RerunsOf(c, s, Act(r, action)), r, s.tasks[r]);
    if action.Respond? {
      ReplyIsRight(s.tasks[r].phase.fs);
    } else if action.CachedOk? {
      var rerun := Rerun(r, s.tasks[r].phase.sql, action.result);
      assert log'[|log|] == rerun;
    } else if action.Publish? && s.tasks[r].phase.payload.ErrorReport? {
      OnlyGeneratedErrors(log', r, s.tasks[r]);
    }
  }

  lemma OnlyGeneratedErrors(log: seq<Rerun>, r: RequestId, t: Task)
    requires t.phase.Publishing? && ReplyOk(log, r, t) && t.phase.payload.ErrorReport?
    ensures t.final.Some? && RightReply(t.final.value, ErrorReport(t.phase.payload.message))
  {
  }

  ghost predicate RepliesOk(s: State, log: seq<Rerun>) {
    forall r :: 0 <= r < |s.tasks| ==> ReplyOk(log, r, s.tasks[r])
  }

  lemma StepReplies(c: Config, s: State, log: seq<Rerun>, step: Step)
    requires Inv(c, s) && RepliesOk(s, log) && Enabled(c, s, step)
    ensures RepliesOk(Apply(c, s, step), log + RerunsOf(c, s, step))
  {
    hide ReplyOk, Do, StoreOk, RoleOk, LockOk, FollowOk, RerunOk, PublishOk, CanAct;
    var s', more := Apply(c, s, step), RerunsOf(c, s, step);
    forall r | 0 <= r < |s'.tasks| ensures ReplyOk(log + more, r, s'.tasks[r]) {
      if step.Act? && step.r == r {
        assert TaskOk(c, s, r);
        ActorReplies(c, s, log, r, step.action);
      } else if r < |s.tasks| {
        MoreReruns(log, more, r, s.tasks[r]);
      } else {
        NewcomerReplies(log + more, r, step.request);
      }
    }
  }

  lemma NewcomerReplies(log: seq<Rerun>, r: RequestId, q: Request)
    ensures ReplyOk(log, r, Task(q, Connecting, None, None, None, None, NoDebt))
  {
  }

  lemma {:induction false} RunReplies(c: Config, s: State, log: seq<Rerun>, run: seq<Step>)
    requires c.coalesceTtl >= 0.0 && Inv(c, s) && RepliesOk(s, log) && Legal(c, s, run)
    ensures Inv(c, Execute(c, s, run)) && RepliesOk(Execute(c, s, run), log + Reruns(c, s, run))
    decreases |run|
  {
    hide Inv, RepliesOk, Apply, Enabled, RerunsOf;
    if run == [] {
      assert log + Reruns(c, s, run) == log;
    } else {
      StepReplies(c, s, log, run[0]);
      StepPreserves(c, s, run[0]);
      RunReplies(c, Apply(c, s, run[0]), log + RerunsOf(c, s, run[0]), run[1..]);
      assert (log + RerunsOf(c, s, run[0])) + Reruns(c, Apply(c, s, run[0]), run[1..]) == log + Reruns(c, s, run);
    }
  }

  /** In every run a request's own result is what its final state calls for, or the cached statement that
      it ran with what the database gave; and it raises an error exactly when the final state does. */
  lemma RepliesAreRight(c: Config, now: real, run: seq<Step>, r: RequestId)
    requires c.coalesceTtl >= 0.0 && Legal(c, Init(now), run) && r < |Execute(c, Init(now), run).tasks|
    ensures var t := Execute(c, Init(now), run).tasks[r];
      match t.phase
      case Returned(p, origin) => origin.Own? ==>
        !p.ErrorReport? &&
        if t.final.Some? then RightReply(t.final.value, p)
        else p.CachedAnswer? && Rerun(r, p.sql, p.result) in Reruns(c, Init(now), run)
      case Raised(error) => error.Some? ==> t.final.Some? && RightReply(t.final.value, ErrorReport(error.value))
      case _ => true
  {
    var s, log := Execute(c, Init(now), run), Reruns(c, Init(now), run);
    hide Execute, Reruns, Legal;
    RunReplies(c, Init(now), [], run);
    assert [] + log == log;
    assert TaskOk(c, s, r) && ReplyOk(log, r, s.tasks[r]);
  }

  // ----- commands that do not arrive, and answers that do not ---------------------------------------

  /** The Redis command of an action, with another fate. */
  function WithReply(action: Action, reply: Reply): Action {
    match action
    case Acquire(_) => Acquire(reply)
    case Drop(_) => Drop(reply)
    case StoreSql(_) => StoreSql(reply)
    case Publish(_) => Publish(reply)
    case _ => action
  }

  predicate IsCommand(action: Action) {
    action.Acquire? || action.Drop? || action.StoreSql? || action.Publish?
  }

  /** A command lost on the way changes nothing in Redis; one whose answer is lost does what an answered one
      does. Either way the request goes on as if it were answered, except that whoever asked for the lock then
      leads without a key to publish under. */
  lemma LostCommands(c: Config, s: State, r: RequestId, action: Action)
    requires Enabled(c, s, Act(r, action)) && IsCommand(action)
    ensures var answered := Apply(c, s, Act(r, WithReply(action, Answered)));
      var late := Apply(c, s, Act(r, WithReply(action, LostAfter)));
      var never := Apply(c, s, Act(r, WithReply(action, LostBefore)));
      never.store == s.store && late.store == answered.store &&
      (!action.Acquire? ==> never.tasks == late.tasks == answered.tasks) &&
      (action.Acquire? ==>
        never.tasks[r].phase == late.tasks[r].phase == CacheCheck &&
        never.tasks[r].role == late.tasks[r].role == Some(Role(true, "")))
  {
    hide ShouldCache, Live, ReplyOf, Publishes, ResultKey, LockKey, SqlKey;
  }

  /** A read that fails counts as nothing found: a follower stops waiting at once and serves itself, and a request
      that looks for cached SQL generates it. */
  lemma LostReads(c: Config, s: State, r: RequestId, action: Action)
    requires Enabled(c, s, Act(r, action)) && action in {Poll(false), CheckCache(false)}
    ensures var s' := Apply(c, s, Act(r, action));
      s'.store == s.store &&
      s'.tasks[r] == s.tasks[r].(phase := if action.Poll? then CacheCheck else Generating)
  {
    hide Live, ResultKey, SqlKey;
  }
}
