/** A call of backend/app/connectors/connector_registry.py that nothing overlaps, run in the machine that
    switches at every await, does what the uninterrupted call does. */
module ConnectorAlone {
  import opened Options
  import opened Recency
  import opened ConnectorRegistry
  import opened ConnectorInterleaving

  type Machine = ConnectorInterleaving.State

  /** The dictionaries, the counter and the account of instances agree. */
  predicate Same(s: Shared, r: Registry) {
    s.active == r.active && s.lastAccessed == r.lastAccessed && s.callCount == r.callCount &&
    s.unused == r.unused && s.connected == r.connected && s.disconnected == r.disconnected
  }

  predicate Ends(a: (Shared, Phase), b: (Registry, Option<nat>)) {
    Same(a.0, b.0) && a.1 == if b.1.Some? then Returned(b.1.value) else Raised
  }

  /** What each await answers, when the outside events are those of the uninterrupted call. */
  function Answer(phase: Phase, luck: Luck, stale: seq<string>): Reply {
    var ok := match phase
      case Probing(_) => !luck.probe.ProbeRaises?
      case Disconnecting => luck.disconnects
      case Connecting(_) => luck.connects
      case _ => true;
    Reply(ok, luck.probe.Alive?, luck.known, luck.later, luck.victim, stale)
  }

  /** The call's next n stretches. */
  function Stretches(c: Config, at: (Shared, Phase), id: string, luck: Luck, stale: seq<string>, n: nat): (Shared, Phase)
    requires c.cleanupEvery >= 1
    decreases n
  {
    if n == 0 then at
    else Stretches(c, ResumeGet(c, at.0, id, at.1, Answer(at.1, luck, stale)), id, luck, stale, n - 1)
  }

  lemma Stretch(c: Config, at: (Shared, Phase), id: string, luck: Luck, stale: seq<string>, n: nat)
    requires c.cleanupEvery >= 1 && n > 0
    ensures Stretches(c, at, id, luck, stale, n) ==
      Stretches(c, ResumeGet(c, at.0, id, at.1, Answer(at.1, luck, stale)), id, luck, stale, n - 1)
  {
  }

  lemma {:induction false} StretchesOver(c: Config, at: (Shared, Phase), id: string, luck: Luck, stale: seq<string>, n: nat)
    requires c.cleanupEvery >= 1 && (at.1.Returned? || at.1.Raised?)
    ensures Stretches(c, at, id, luck, stale, n) == at
    decreases n
  {
    if n > 0 {
      Stretch(c, at, id, luck, stale, n);
      StretchesOver(c, at, id, luck, stale, n - 1);
    }
  }

  // ----- from the last await to the first -----------------------------------------------------------

  lemma FromConnecting(c: Config, s: Shared, r: Registry, id: string, luck: Luck, stale: seq<string>, n: nat)
    requires c.cleanupEvery >= 1 && n >= 1 && Same(s, r)
    ensures var started := StartConnect(s, Answer(Evicting, luck, stale));
      Ends(Stretches(c, started, id, luck, stale, n),
        if !luck.known then (r, None)
        else if !luck.connects then (r.(unused := r.unused + 1), None)
        else (Touch(Connected(r, id), id, luck.later), Some(r.unused)))
  {
    hide Stretches;
    var started := StartConnect(s, Answer(Evicting, luck, stale));
    if luck.known {
      Stretch(c, started, id, luck, stale, n);
      StretchesOver(c, ResumeGet(c, started.0, id, started.1, Answer(started.1, luck, stale)), id, luck, stale, n - 1);
    } else {
      StretchesOver(c, started, id, luck, stale, n);
    }
  }

  lemma PopIsDrop(s: Shared, r: Registry, id: string)
    requires Same(s, r)
    ensures Same(Pop(s, id), Drop(r, {id}))
  {
    if id in r.active {
      assert InstancesOf(r.active, {id}) == {r.active[id]};
    }
  }

  lemma FromCapacity(c: Config, s: Shared, r: Registry, id: string, luck: Luck, stale: seq<string>, reply: Reply, n: nat)
    requires c.cleanupEvery >= 1 && n >= 2 && Same(s, r) && reply.known == luck.known && reply.victim == luck.victim
    ensures Ends(Stretches(c, CheckRoom(c, s, reply), id, luck, stale, n), Create(c, r, id, luck))
  {
    hide Stretches, Pop, Drop, StartConnect;
    var known := Answer(Evicting, luck, stale);
    OnlyKnown(s, reply, known);
    if |s.active| >= c.maxCached && s.lastAccessed != map[] {
      PopIsDrop(s, r, luck.victim);
      OnlyKnown(Pop(s, luck.victim), reply, known);
      if luck.victim in s.active {
        Stretch(c, (Pop(s, luck.victim), Evicting), id, luck, stale, n);
        FromConnecting(c, Pop(s, luck.victim), Drop(r, {luck.victim}), id, luck, stale, n - 1);
      } else {
        FromConnecting(c, Pop(s, luck.victim), Drop(r, {luck.victim}), id, luck, stale, n);
      }
    } else {
      FromConnecting(c, s, r, id, luck, stale, n);
    }
  }

  lemma OnlyKnown(s: Shared, a: Reply, b: Reply)
    requires a.known == b.known
    ensures StartConnect(s, a) == StartConnect(s, b)
  {
  }

  /** The rest of the uninterrupted call after it entered and cleaned up. */
  function AfterEnter(c: Config, e: Registry, id: string, luck: Luck): (Registry, Option<nat>) {
    if id !in e.active then Create(c, e, id, luck)
    else if luck.probe.Alive? then (Touch(e, id, luck.later), Some(e.active[id]))
    else if luck.probe.ProbeRaises? then (e, None)
    else if !luck.disconnects then (e.(disconnected := e.disconnected + {e.active[id]}), None)
    else Create(c, Drop(e, {id}), id, luck)
  }

  lemma FromProbe(c: Config, s: Shared, r: Registry, id: string, luck: Luck, stale: seq<string>, n: nat)
    requires c.cleanupEvery >= 1 && n >= 4 && Same(s, r) && id in s.active
    ensures Ends(Stretches(c, (s, Probing(s.active[id])), id, luck, stale, n), AfterEnter(c, r, id, luck))
  {
    hide Stretches, CheckRoom, Create;
    var at := (s, Probing(s.active[id]));
    Stretch(c, at, id, luck, stale, n);
    var probed := ResumeGet(c, s, id, at.1, Answer(at.1, luck, stale));
    if luck.probe.Dead? {
      Stretch(c, probed, id, luck, stale, n - 1);
      var reply := Answer(Disconnecting, luck, stale);
      if luck.disconnects {
        var gone := probed.0.(active := s.active - {id}, lastAccessed := s.lastAccessed - {id});
        PopIsDrop(s, r, id);
        FromCapacity(c, gone, Drop(r, {id}), id, luck, stale, reply, n - 2);
      } else {
        StretchesOver(c, (probed.0, Raised), id, luck, stale, n - 2);
      }
    } else {
      StretchesOver(c, probed, id, luck, stale, n - 1);
    }
  }

  lemma FromLookUp(c: Config, s: Shared, r: Registry, id: string, luck: Luck, stale: seq<string>, phase: Phase, n: nat)
    requires c.cleanupEvery >= 1 && n >= 4 && Same(s, r)
    ensures Ends(Stretches(c, CheckCache(c, s, id, Answer(phase, luck, stale)), id, luck, stale, n), AfterEnter(c, r, id, luck))
  {
    hide Stretches, CheckRoom, Create;
    if id in s.active {
      FromProbe(c, s, r, id, luck, stale, n);
    } else {
      FromCapacity(c, s, r, id, luck, stale, Answer(phase, luck, stale), n);
    }
  }

  function SetOf(ids: seq<string>): set<string> {
    set id | id in ids
  }

  lemma DropTwice(r: Registry, a: set<string>, b: set<string>)
    ensures Drop(Drop(r, a), b) == Drop(r, a + b)
  {
    assert r.active - a - b == r.active - (a + b);
    assert r.lastAccessed - a - b == r.lastAccessed - (a + b);
    var both, first, second := InstancesOf(r.active, a + b), InstancesOf(r.active, a), InstancesOf(r.active - a, b);
    forall i ensures i in both <==> i in first || i in second {
      if i in both {
        var k :| k in a + b && k in r.active && r.active[k] == i;
        assert k in a || (k in b && k in r.active - a);
      }
    }
  }

  /** Cleaning up one id after another, whether or not each has an instance to wait for. */
  lemma {:induction false} FromCleanUp(c: Config, s: Shared, r: Registry, id: string, luck: Luck, stale: seq<string>,
                                       left: seq<string>, phase: Phase, n: nat)
    requires c.cleanupEvery >= 1 && n >= |left| + 4 && Same(s, r)
    ensures Ends(Stretches(c, CleanUp(c, s, id, left, Answer(phase, luck, stale)), id, luck, stale, n),
      AfterEnter(c, Drop(r, SetOf(left)), id, luck))
    decreases |left|
  {
    hide Stretches, Same, Ends, AfterEnter, Drop, Pop, CheckCache;
    if left == [] {
      assert SetOf(left) == {};
      DropNone(r);
      FromLookUp(c, s, r, id, luck, stale, phase, n);
    } else {
      var rest := left[1..];
      PopIsDrop(s, r, left[0]);
      DropTwice(r, {left[0]}, SetOf(rest));
      assert left == [left[0]] + rest;
      assert {left[0]} + SetOf(rest) == SetOf(left);
      SameActive(s, r);
      if left[0] in s.active {
        var waiting := CleaningUp(rest);
        Stretch(c, (Pop(s, left[0]), waiting), id, luck, stale, n);
        FromCleanUp(c, Pop(s, left[0]), Drop(r, {left[0]}), id, luck, stale, rest, waiting, n - 1);
      } else {
        FromCleanUp(c, Pop(s, left[0]), Drop(r, {left[0]}), id, luck, stale, rest, phase, n);
      }
    }
  }

  lemma SameActive(s: Shared, r: Registry)
    requires Same(s, r)
    ensures s.active == r.active
  {
  }

  /** The stale ids, listed in any order. */
  ghost predicate ListsStale(c: Config, r: Registry, now: real, stale: seq<string>) {
    SetOf(stale) == StaleIds(r, now - c.maxAge)
  }

  lemma FromArrival(c: Config, s: Shared, r: Registry, id: string, luck: Luck, stale: seq<string>, n: nat)
    requires c.cleanupEvery >= 1 && n >= |stale| + 5 && Same(s, r) && ListsStale(c, r, luck.now, stale)
    ensures Ends(Stretches(c, (s, Arrived), id, luck, stale, n), GetOrCreate(c, r, id, luck))
  {
    hide Stretches, CleanUp, Create, Drop, Touch;
    var entered := r.(callCount := r.callCount + 1, clock := luck.now);
    Stretch(c, (s, Arrived), id, luck, stale, n);
    var left := ToCleanUp(c, Entered(s), Answer(Arrived, luck, stale));
    FromCleanUp(c, Entered(s), entered, id, luck, stale, left, Arrived, n - 1);
    if left == [] {
      assert SetOf(left) == {};
      DropNone(entered);
    }
    assert StaleIds(entered, luck.now - c.maxAge) == StaleIds(r, luck.now - c.maxAge);
    assert entered.callCount % c.cleanupEvery != 0 ==> left == [];
    assert entered.callCount % c.cleanupEvery == 0 ==> SetOf(left) == StaleIds(entered, luck.now - c.maxAge);
    assert Drop(entered, SetOf(left)) == Enter(c, r, luck.now);
  }

  // ----- in the machine -------------------------------------------------------------------------------

  /** The steps of those stretches, for the request that arrived last. */
  function StretchSteps(c: Config, at: (Shared, Phase), id: string, luck: Luck, stale: seq<string>, i: nat,
      n: nat): seq<Step>
    requires c.cleanupEvery >= 1
    decreases n
  {
    if n == 0 then []
    else
      var reply := Answer(at.1, luck, stale);
      [Resume(i, reply)] + StretchSteps(c, ResumeGet(c, at.0, id, at.1, reply), id, luck, stale, i, n - 1)
  }

  lemma {:induction false} StretchesRun(c: Config, steps: seq<Step>, tasks: seq<Task>, at: (Shared, Phase), id: string,
                                        luck: Luck, stale: seq<string>, n: nat)
    requires c.cleanupEvery >= 1
    requires ConnectorInterleaving.Execute(c, steps) == State(at.0, tasks + [Task(Getting(id), at.1)])
    ensures var end := Stretches(c, at, id, luck, stale, n);
      ConnectorInterleaving.Execute(c, steps + StretchSteps(c, at, id, luck, stale, |tasks|, n)) ==
        State(end.0, tasks + [Task(Getting(id), end.1)])
    decreases n
  {
    hide ConnectorInterleaving.Execute, ResumeGet;
    if n == 0 {
      assert steps + [] == steps;
    } else {
      var reply := Answer(at.1, luck, stale);
      var next := ResumeGet(c, at.0, id, at.1, reply);
      Extend(c, steps, Resume(|tasks|, reply));
      LastResumes(c, at, tasks, id, reply);
      StretchesRun(c, steps + [Resume(|tasks|, reply)], tasks, next, id, luck, stale, n - 1);
      var rest := StretchSteps(c, next, id, luck, stale, |tasks|, n - 1);
      assert steps + ([Resume(|tasks|, reply)] + rest) == steps + [Resume(|tasks|, reply)] + rest;
    }
  }

  lemma LastResumes(c: Config, at: (Shared, Phase), tasks: seq<Task>, id: string, reply: Reply)
    requires c.cleanupEvery >= 1
    ensures var next := ResumeGet(c, at.0, id, at.1, reply);
      ConnectorInterleaving.Do(c, State(at.0, tasks + [Task(Getting(id), at.1)]), Resume(|tasks|, reply)) ==
        State(next.0, tasks + [Task(Getting(id), next.1)])
  {
    hide ResumeGet;
    var next := ResumeGet(c, at.0, id, at.1, reply);
    assert (tasks + [Task(Getting(id), at.1)])[|tasks| := Task(Getting(id), next.1)] == tasks + [Task(Getting(id), next.1)];
  }

  /** After any run, whatever calls are waiting in it, a call that is then resumed until it is over, with no step
      of another between, ends as the uninterrupted call does and leaves what that leaves; no other
      call moves. */
  lemma AloneIsAtomic(c: Config, steps: seq<Step>, r: Registry, id: string, luck: Luck, stale: seq<string>, n: nat)
    requires c.cleanupEvery >= 1 && n >= |stale| + 5
    requires Same(ConnectorInterleaving.Execute(c, steps).shared, r) && ListsStale(c, r, luck.now, stale)
    ensures var s := ConnectorInterleaving.Execute(c, steps);
      var more := [Arrive(Getting(id))] + StretchSteps(c, (s.shared, Arrived), id, luck, stale, |s.tasks|, n);
      var after, atomic := ConnectorInterleaving.Execute(c, steps + more), GetOrCreate(c, r, id, luck);
      Same(after.shared, atomic.0) &&
      after.tasks == s.tasks + [Task(Getting(id), if atomic.1.Some? then Returned(atomic.1.value) else Raised)]
  {
    hide ConnectorInterleaving.Execute, Stretches, GetOrCreate, ResumeGet, ListsStale;
    var s := ConnectorInterleaving.Execute(c, steps);
    var arrive := Arrive(Getting(id));
    var rest := StretchSteps(c, (s.shared, Arrived), id, luck, stale, |s.tasks|, n);
    Extend(c, steps, arrive);
    StretchesRun(c, steps + [arrive], s.tasks, (s.shared, Arrived), id, luck, stale, n);
    FromArrival(c, s.shared, r, id, luck, stale, n);
    assert steps + ([arrive] + rest) == steps + [arrive] + rest;
  }

  /** So does a removal, in its two stretches. */
  lemma RemovalAloneIsAtomic(c: Config, steps: seq<Step>, r: Registry, id: string, first: Reply, second: Reply)
    requires c.cleanupEvery >= 1 && Same(ConnectorInterleaving.Execute(c, steps).shared, r)
    ensures var s := ConnectorInterleaving.Execute(c, steps);
      var i := |s.tasks|;
      var after := ConnectorInterleaving.Execute(c, steps + [Arrive(Removing(id)), Resume(i, first), Resume(i, second)]);
      Same(after.shared, RemoveConnector(r, id, second.ok)) &&
      after.tasks == s.tasks + [Task(Removing(id), if id in r.active && !second.ok then Raised else Finished)]
  {
    hide ConnectorInterleaving.Execute;
    var s := ConnectorInterleaving.Execute(c, steps);
    var i := |s.tasks|;
    var arrive := Arrive(Removing(id));
    Extend(c, steps, arrive);
    Extend(c, steps + [arrive], Resume(i, first));
    Extend(c, steps + [arrive] + [Resume(i, first)], Resume(i, second));
    assert steps + [arrive, Resume(i, first), Resume(i, second)] == steps + [arrive] + [Resume(i, first)] + [Resume(i, second)];
    RemovalEnds(c, s, r, id, first, second);
  }

  lemma RemovalEnds(c: Config, s: Machine, r: Registry, id: string, first: Reply, second: Reply)
    requires c.cleanupEvery >= 1 && Same(s.shared, r)
    ensures var i := |s.tasks|;
      var a := ConnectorInterleaving.Do(c, s, Arrive(Removing(id)));
      var after := ConnectorInterleaving.Do(c, ConnectorInterleaving.Do(c, a, Resume(i, first)), Resume(i, second));
      Same(after.shared, RemoveConnector(r, id, second.ok)) &&
      after.tasks == s.tasks + [Task(Removing(id), if id in r.active && !second.ok then Raised else Finished)]
  {
    hide Same;
    SameActive(s.shared, r);
    RemovalLast(c, s.shared, s.tasks, id, Arrived, first);
    var begun := ResumeRemove(s.shared, id, Arrived, first);
    RemovalLast(c, begun.0, s.tasks, id, begun.1, second);
    RemovalShared(s.shared, r, id, first, second);
  }

  lemma RemovalLast(c: Config, sh: Shared, tasks: seq<Task>, id: string, phase: Phase, reply: Reply)
    requires c.cleanupEvery >= 1
    ensures var next := ResumeRemove(sh, id, phase, reply);
      ConnectorInterleaving.Do(c, State(sh, tasks + [Task(Removing(id), phase)]), Resume(|tasks|, reply)) ==
        State(next.0, tasks + [Task(Removing(id), next.1)])
  {
    hide ResumeRemove;
    var next := ResumeRemove(sh, id, phase, reply);
    assert (tasks + [Task(Removing(id), phase)])[|tasks| := Task(Removing(id), next.1)] == tasks + [Task(Removing(id), next.1)];
  }

  lemma RemovalShared(sh: Shared, r: Registry, id: string, first: Reply, second: Reply)
    requires Same(sh, r)
    ensures var begun := ResumeRemove(sh, id, Arrived, first);
      var ended := ResumeRemove(begun.0, id, begun.1, second);
      Same(ended.0, RemoveConnector(r, id, second.ok)) &&
      ended.1 == if id in r.active && !second.ok then Raised else Finished
  {
    if id in r.active {
      assert InstancesOf(r.active, {id}) == {r.active[id]};
    }
  }

  // ----- whole runs --------------------------------------------------------------------------------------

  lemma ListIds(ids: set<string>) returns (list: seq<string>)
    ensures SetOf(list) == ids
    decreases ids
  {
    if ids == {} {
      list := [];
    } else {
      var id :| id in ids;
      var rest := ListIds(ids - {id});
      list := [id] + rest;
      assert SetOf(list) == {id} + SetOf(rest);
    }
  }

  /** How a call ends. */
  function EndOf(c: Config, r: Registry, call: Call): Task
    requires c.cleanupEvery >= 1
  {
    match call
    case Get(id, luck) =>
      var v := GetOrCreate(c, r, id, luck).1;
      Task(Getting(id), if v.Some? then Returned(v.value) else Raised)
    case Remove(id, disconnects) => Task(Removing(id), if id in r.active && !disconnects then Raised else Finished)
  }

  /** The tasks are those calls, each ended as it does after the ones before it. */
  ghost predicate EndedInTurn(c: Config, calls: seq<Call>, tasks: seq<Task>)
    requires c.cleanupEvery >= 1
  {
    |tasks| == |calls| &&
    forall k :: 0 <= k < |calls| ==> tasks[k] == EndOf(c, ConnectorRegistry.Execute(c, calls[..k]), calls[k])
  }

  lemma OneCall(c: Config, steps: seq<Step>, r: Registry, call: Call) returns (more: seq<Step>)
    requires c.cleanupEvery >= 1 && Same(ConnectorInterleaving.Execute(c, steps).shared, r)
    ensures var s, after := ConnectorInterleaving.Execute(c, steps), ConnectorInterleaving.Execute(c, steps + more);
      Same(after.shared, ConnectorRegistry.Do(c, r, call)) && after.tasks == s.tasks + [EndOf(c, r, call)]
  {
    hide ConnectorInterleaving.Execute, Same, GetOrCreate, ResumeGet, RemoveConnector;
    match call
    case Get(id, luck) =>
      var stale := ListIds(StaleIds(r, luck.now - c.maxAge));
      assert ListsStale(c, r, luck.now, stale);
      AloneIsAtomic(c, steps, r, id, luck, stale, |stale| + 5);
      var s := ConnectorInterleaving.Execute(c, steps);
      more := [Arrive(Getting(id))] + StretchSteps(c, (s.shared, Arrived), id, luck, stale, |s.tasks|, |stale| + 5);
    case Remove(id, disconnects) =>
      var i := |ConnectorInterleaving.Execute(c, steps).tasks|;
      var reply := GOOD.(ok := disconnects);
      RemovalAloneIsAtomic(c, steps, r, id, GOOD, reply);
      more := [Arrive(Removing(id)), Resume(i, GOOD), Resume(i, reply)];
  }

  /** Every sequence of uninterrupted calls is a run of the machine: it leaves the same dictionaries, and
      every call ends the same. */
  lemma {:induction false} AtomicRunsAreRuns(c: Config, calls: seq<Call>) returns (steps: seq<Step>)
    requires c.cleanupEvery >= 1
    ensures Same(ConnectorInterleaving.Execute(c, steps).shared, ConnectorRegistry.Execute(c, calls))
    ensures EndedInTurn(c, calls, ConnectorInterleaving.Execute(c, steps).tasks)
  {
    if calls == [] {
      steps := [];
    } else {
      var n := |calls| - 1;
      var r := ConnectorRegistry.Execute(c, calls[..n]);
      var before := AtomicRunsAreRuns(c, calls[..n]);
      var more := OneCall(c, before, r, calls[n]);
      steps := before + more;
      hide ConnectorInterleaving.Execute, Same, ConnectorRegistry.Do, EndOf, EndedInTurn;
      OneMoreEnded(c, calls, ConnectorInterleaving.Execute(c, before).tasks);
    }
  }

  lemma OneMoreEnded(c: Config, calls: seq<Call>, tasks: seq<Task>)
    requires c.cleanupEvery >= 1 && calls != [] && EndedInTurn(c, calls[..|calls| - 1], tasks)
    ensures var n := |calls| - 1;
      EndedInTurn(c, calls, tasks + [EndOf(c, ConnectorRegistry.Execute(c, calls[..n]), calls[n])])
  {
    hide EndOf, ConnectorRegistry.Execute;
    var n := |calls| - 1;
    forall k | 0 <= k < n ensures calls[..n][..k] == calls[..k] && calls[..n][k] == calls[k] {
    }
  }
}
