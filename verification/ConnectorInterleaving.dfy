/** The connector cache when calls overlap: they switch at every await of
    backend/app/connectors/connector_registry.py. Only the weak half of the dictionaries'
    agreement survives; the bound and the accounting of instances do not. */
module ConnectorInterleaving {
  import opened Options
  import opened ConnectorRegistry
  import opened Recency

  datatype Op = Getting(id: string) | Removing(id: string)

  datatype Phase =
    | Arrived
    | CleaningUp(left: seq<string>)
    | Probing(instance: nat)
    | Disconnecting
    | Evicting
    | Connecting(instance: nat)
    | Returned(instance: nat)
    | Finished
    | Raised

  datatype Task = Task(op: Op, phase: Phase)

  datatype Shared = Shared(
    active: map<string, nat>,
    lastAccessed: map<string, real>,
    callCount: nat,
    unused: nat,
    connected: set<nat>,
    disconnected: set<nat>)

  datatype State = State(shared: Shared, tasks: seq<Task>)

  /** How the awaited operation ended, and what the code after it reads from outside. */
  datatype Reply = Reply(ok: bool, alive: bool, known: bool, now: real, victim: string, stale: seq<string>)

  datatype Step = Arrive(op: Op) | Resume(i: nat, reply: Reply)

  const START := State(Shared(map[], map[], 0, 0, {}, {}), [])

  // ----- the code between awaits ------------------------------------------------------------------

  function Pop(s: Shared, id: string): Shared {
    s.(active := s.active - {id}, lastAccessed := s.lastAccessed - {id},
       disconnected := if id in s.active then s.disconnected + {s.active[id]} else s.disconnected)
  }

  function StartConnect(s: Shared, reply: Reply): (Shared, Phase) {
    if reply.known then (s.(unused := s.unused + 1), Connecting(s.unused)) else (s, Raised)
  }

  function CheckRoom(c: Config, s: Shared, reply: Reply): (Shared, Phase) {
    if |s.active| >= c.maxCached && s.lastAccessed != map[] then
      if reply.victim in s.active then (Pop(s, reply.victim), Evicting)
      else StartConnect(Pop(s, reply.victim), reply)
    else StartConnect(s, reply)
  }

  function CheckCache(c: Config, s: Shared, id: string, reply: Reply): (Shared, Phase) {
    if id in s.active then (s, Probing(s.active[id])) else CheckRoom(c, s, reply)
  }

  function CleanUp(c: Config, s: Shared, id: string, left: seq<string>, reply: Reply): (Shared, Phase)
    decreases |left|
  {
    if left == [] then CheckCache(c, s, id, reply)
    else if left[0] in s.active then (Pop(s, left[0]), CleaningUp(left[1..]))
    else CleanUp(c, Pop(s, left[0]), id, left[1..], reply)
  }

  /** get_or_create_connector up to its next await. */
  function ResumeGet(c: Config, s: Shared, id: string, phase: Phase, reply: Reply): (Shared, Phase)
    requires c.cleanupEvery >= 1
  {
    match phase
    case Arrived =>
      CleanUp(c, Entered(s), id, ToCleanUp(c, Entered(s), reply), reply)
    case CleaningUp(left) => CleanUp(c, s, id, left, reply)
    case Probing(instance) =>
      if !reply.ok then (s, Raised)
      else if reply.alive then (s.(lastAccessed := s.lastAccessed[id := reply.now]), Returned(instance))
      else (s.(disconnected := s.disconnected + {instance}), Disconnecting)
    case Disconnecting =>
      if !reply.ok || id !in s.active then (s, Raised)
      else CheckRoom(c, s.(active := s.active - {id}, lastAccessed := s.lastAccessed - {id}), reply)
    case Evicting => StartConnect(s, reply)
    case Connecting(instance) =>
      if !reply.ok then (s, Raised)
      else
        (s.(active := s.active[id := instance], lastAccessed := s.lastAccessed[id := reply.now],
            connected := s.connected + {instance}), Returned(instance))
    case Returned(_) => (s, phase)
    case Finished => (s, phase)
    case Raised => (s, phase)
  }

  /** remove_connector up to its next await. */
  function ResumeRemove(s: Shared, id: string, phase: Phase, reply: Reply): (Shared, Phase) {
    if phase.Arrived? then
      if id in s.active then (s.(disconnected := s.disconnected + {s.active[id]}), Disconnecting) else (s, Finished)
    else if phase.Disconnecting? then
      if !reply.ok || id !in s.active then (s, Raised)
      else (s.(active := s.active - {id}, lastAccessed := s.lastAccessed - {id}), Finished)
    else (s, phase)
  }

  function Do(c: Config, s: State, step: Step): State
    requires c.cleanupEvery >= 1
  {
    match step
    case Arrive(op) => s.(tasks := s.tasks + [Task(op, Arrived)])
    case Resume(i, reply) =>
      if i >= |s.tasks| then s
      else
        var t := s.tasks[i];
        var r := if t.op.Getting? then ResumeGet(c, s.shared, t.op.id, t.phase, reply)
                 else ResumeRemove(s.shared, t.op.id, t.phase, reply);
        State(r.0, s.tasks[i := t.(phase := r.1)])
  }

  function Execute(c: Config, steps: seq<Step>): State
    requires c.cleanupEvery >= 1
  {
    if steps == [] then START else Do(c, Execute(c, steps[..|steps| - 1]), steps[|steps| - 1])
  }

  // ----- the capacity check -------------------------------------------------------------------------

  /** The registry as the capacity check finds it, when cleaning up gets that far without a wait. */
  function RoomAfterCleanUp(s: Shared, id: string, left: seq<string>): Option<Shared>
    decreases |left|
  {
    if left == [] then if id in s.active then None else Some(s)
    else if left[0] in s.active then None
    else RoomAfterCleanUp(Pop(s, left[0]), id, left[1..])
  }

  function Entered(s: Shared): Shared {
    s.(callCount := s.callCount + 1)
  }

  function ToCleanUp(c: Config, s: Shared, reply: Reply): seq<string>
    requires c.cleanupEvery >= 1
  {
    if s.callCount % c.cleanupEvery == 0 then reply.stale else []
  }

  /** The same for a task's next stretch. */
  function RoomAt(c: Config, s: Shared, t: Task, reply: Reply): Option<Shared>
    requires c.cleanupEvery >= 1
  {
    if t.op.Removing? then None
    else
      match t.phase
      case Arrived => RoomAfterCleanUp(Entered(s), t.op.id, ToCleanUp(c, Entered(s), reply))
      case CleaningUp(left) => RoomAfterCleanUp(s, t.op.id, left)
      case Disconnecting =>
        if reply.ok && t.op.id in s.active then
          Some(s.(active := s.active - {t.op.id}, lastAccessed := s.lastAccessed - {t.op.id}))
        else None
      case _ => None
  }

  // ----- what survives ------------------------------------------------------------------------------

  /** Every cached id has a timestamp, so every cached id can be evicted or cleaned up. */
  ghost predicate Stamped(s: Shared) {
    forall id :: id in s.active ==> id in s.lastAccessed
  }

  lemma PopKeeps(s: Shared, id: string)
    requires Stamped(s)
    ensures Stamped(Pop(s, id))
  {
  }

  lemma CheckRoomKeeps(c: Config, s: Shared, reply: Reply)
    requires Stamped(s)
    ensures Stamped(CheckRoom(c, s, reply).0)
  {
    PopKeeps(s, reply.victim);
  }

  lemma {:induction false} CleanUpKeeps(c: Config, s: Shared, id: string, left: seq<string>, reply: Reply)
    requires Stamped(s)
    ensures Stamped(CleanUp(c, s, id, left, reply).0)
    decreases |left|
  {
    hide Stamped, Pop, CheckRoom;
    if left == [] {
      CheckRoomKeeps(c, s, reply);
    } else {
      PopKeeps(s, left[0]);
      if left[0] !in s.active {
        CleanUpKeeps(c, Pop(s, left[0]), id, left[1..], reply);
      }
    }
  }

  lemma GetKeeps(c: Config, s: Shared, id: string, phase: Phase, reply: Reply)
    requires c.cleanupEvery >= 1 && Stamped(s)
    ensures Stamped(ResumeGet(c, s, id, phase, reply).0)
  {
    hide CleanUp, CheckRoom;
    match phase
    case Arrived => CleanUpKeeps(c, Entered(s), id, ToCleanUp(c, Entered(s), reply), reply);
    case CleaningUp(left) => CleanUpKeeps(c, s, id, left, reply);
    case Disconnecting =>
      CheckRoomKeeps(c, s.(active := s.active - {id}, lastAccessed := s.lastAccessed - {id}), reply);
    case _ =>
  }

  lemma StepKeeps(c: Config, s: State, step: Step)
    requires c.cleanupEvery >= 1 && Stamped(s.shared)
    ensures Stamped(Do(c, s, step).shared)
  {
    if step.Resume? && step.i < |s.tasks| && s.tasks[step.i].op.Getting? {
      hide Stamped, ResumeGet;
      var t := s.tasks[step.i];
      GetKeeps(c, s.shared, t.op.id, t.phase, step.reply);
    }
  }

  /** In every interleaving every cached id keeps a timestamp. */
  lemma {:induction false} CachedIdsStamped(c: Config, steps: seq<Step>)
    requires c.cleanupEvery >= 1
    ensures Stamped(Execute(c, steps).shared)
  {
    if steps != [] {
      CachedIdsStamped(c, steps[..|steps| - 1]);
      StepKeeps(c, Execute(c, steps[..|steps| - 1]), steps[|steps| - 1]);
    }
  }

  // ----- what does not --------------------------------------------------------------------------------

  const GOOD := Reply(true, true, true, 0.0, "", [])

  lemma Extend(c: Config, steps: seq<Step>, step: Step)
    requires c.cleanupEvery >= 1
    ensures Execute(c, steps + [step]) == Do(c, Execute(c, steps), step)
  {
    assert (steps + [step])[..|steps|] == steps;
  }

  function Waiting(ids: seq<string>, k: nat): (tasks: seq<Task>)
    requires k <= |ids|
    ensures |tasks| == k && forall i :: 0 <= i < k ==> tasks[i] == Task(Getting(ids[i]), Connecting(i))
  {
    seq(k, i requires 0 <= i < k => Task(Getting(ids[i]), Connecting(i)))
  }

  function Counted(k: nat): Shared {
    Shared(map[], map[], k, k, {}, {})
  }

  lemma FreshPass(c: Config, k: nat, id: string)
    requires ConfigOk(c)
    ensures ResumeGet(c, Counted(k), id, Arrived, GOOD) == (Counted(k + 1), Connecting(k))
  {
  }

  lemma OneMorePasses(c: Config, ids: seq<string>, k: nat, before: seq<Step>) returns (steps: seq<Step>)
    requires ConfigOk(c) && k < |ids|
    requires Execute(c, before) == State(Counted(k), Waiting(ids, k))
    ensures Execute(c, steps) == State(Counted(k + 1), Waiting(ids, k + 1))
  {
    hide Execute, ResumeGet;
    Extend(c, before, Arrive(Getting(ids[k])));
    steps := before + [Arrive(Getting(ids[k]))];
    FreshPass(c, k, ids[k]);
    Extend(c, steps, Resume(k, GOOD));
    steps := steps + [Resume(k, GOOD)];
    assert Execute(c, steps).tasks == Waiting(ids, k + 1);
  }

  /** Calls for all the ids arrive at the empty cache: none of them sees another's entry. */
  lemma AllPassTheCheck(c: Config, ids: seq<string>) returns (steps: seq<Step>)
    requires ConfigOk(c)
    ensures Execute(c, steps) == State(Counted(|ids|), Waiting(ids, |ids|))
  {
    steps := [];
    for k := 0 to |ids|
      invariant Execute(c, steps) == State(Counted(k), Waiting(ids, k))
    {
      steps := OneMorePasses(c, ids, k, steps);
    }
  }

  ghost predicate Stored(s: State, ids: seq<string>, k: nat)
    requires k <= |ids|
  {
    s.shared.active.Keys == Elements(ids[..k]) && |s.tasks| == |ids| &&
    forall i :: k <= i < |ids| ==> s.tasks[i] == Task(Getting(ids[i]), Connecting(i))
  }

  /** The bound is not kept when calls overlap: for any number of distinct ids some run ends with all
      of them cached, whatever the capacity. */
  lemma BoundNotKept(c: Config, ids: seq<string>) returns (steps: seq<Step>)
    requires ConfigOk(c) && NoDups(ids)
    ensures |Execute(c, steps).shared.active| == |ids|
  {
    steps := AllPassTheCheck(c, ids);
    for k := 0 to |ids|
      invariant Stored(Execute(c, steps), ids, k)
    {
      Extend(c, steps, Resume(k, GOOD));
      assert ids[..k + 1] == ids[..k] + [ids[k]];
      steps := steps + [Resume(k, GOOD)];
    }
    assert ids[..|ids|] == ids;
    SetOfNoDups(ids);
    var active := Execute(c, steps).shared.active;
    assert |active| == |active.Keys|;
  }

  /** Two overlapping calls for one id both connect; the second store overwrites the first instance,
      which is then neither cached nor ever told to disconnect. */
  lemma InstanceLost(c: Config, id: string) returns (steps: seq<Step>)
    requires ConfigOk(c)
    ensures var s := Execute(c, steps).shared;
      0 in s.connected && 0 !in s.active.Values && 0 !in s.disconnected
  {
    steps := AllPassTheCheck(c, [id, id]);
    Extend(c, steps, Resume(0, GOOD));
    steps := steps + [Resume(0, GOOD)];
    Extend(c, steps, Resume(1, GOOD));
    steps := steps + [Resume(1, GOOD)];
    assert Execute(c, steps).shared.active == map[id := 1];
  }

  /** A call for an id that is not cached, run by itself while there is room. */
  lemma OneGet(c: Config, before: seq<Step>, id: string) returns (steps: seq<Step>)
    requires ConfigOk(c)
    requires var s := Execute(c, before).shared; id !in s.active && |s.active| < c.maxCached
    ensures var s, r := Execute(c, before), Execute(c, steps);
      r.shared.active == s.shared.active[id := s.shared.unused] &&
      r.shared.lastAccessed == s.shared.lastAccessed[id := 0.0] &&
      r.shared.connected == s.shared.connected + {s.shared.unused} &&
      r.shared.disconnected == s.shared.disconnected &&
      r.tasks == s.tasks + [Task(Getting(id), Returned(s.shared.unused))]
  {
    var s := Execute(c, before);
    var i := |s.tasks|;
    Extend(c, before, Arrive(Getting(id)));
    steps := before + [Arrive(Getting(id))];
    Extend(c, steps, Resume(i, GOOD));
    steps := steps + [Resume(i, GOOD)];
    assert Execute(c, steps) == State(
      Entered(s.shared).(unused := s.shared.unused + 1),
      s.tasks + [Task(Getting(id), Connecting(s.shared.unused))]);
    hide CleanUp;
    Extend(c, steps, Resume(i, GOOD));
    steps := steps + [Resume(i, GOOD)];
  }

  /** A call for a cached id begins its probe. */
  lemma ProbeBegins(c: Config, before: seq<Step>, id: string) returns (steps: seq<Step>)
    requires ConfigOk(c) && id in Execute(c, before).shared.active
    ensures var s, r := Execute(c, before), Execute(c, steps);
      r == State(Entered(s.shared), s.tasks + [Task(Getting(id), Probing(s.shared.active[id]))])
  {
    var i := |Execute(c, before).tasks|;
    Extend(c, before, Arrive(Getting(id)));
    steps := before + [Arrive(Getting(id))];
    Extend(c, steps, Resume(i, GOOD));
    steps := steps + [Resume(i, GOOD)];
  }

  /** A removal of a cached id, run by itself. */
  lemma OneRemoval(c: Config, before: seq<Step>, id: string) returns (steps: seq<Step>)
    requires ConfigOk(c) && id in Execute(c, before).shared.active
    ensures var s, r := Execute(c, before), Execute(c, steps);
      r.shared.active == s.shared.active - {id} && r.shared.lastAccessed == s.shared.lastAccessed - {id} &&
      r.tasks == s.tasks + [Task(Removing(id), Finished)]
  {
    hide ResumeGet;
    var s := Execute(c, before);
    var i := |s.tasks|;
    Extend(c, before, Arrive(Removing(id)));
    steps := before + [Arrive(Removing(id))];
    Extend(c, steps, Resume(i, GOOD));
    steps := steps + [Resume(i, GOOD)];
    assert Execute(c, steps) == State(
      s.shared.(disconnected := s.shared.disconnected + {s.shared.active[id]}),
      s.tasks + [Task(Removing(id), Disconnecting)]);
    Extend(c, steps, Resume(i, GOOD));
    steps := steps + [Resume(i, GOOD)];
  }

  /** A call that is probing an instance while it is removed writes a timestamp for an id that is no
      longer cached: the dictionaries' keys come apart. */
  lemma TimestampWithoutEntry(c: Config, id: string) returns (steps: seq<Step>)
    requires ConfigOk(c)
    ensures var s := Execute(c, steps).shared; s.lastAccessed == map[id := 0.0] && s.active == map[]
    ensures forall t :: t in Execute(c, steps).tasks ==> t.phase.Returned? || t.phase.Finished?
  {
    assert Execute(c, []) == START;
    steps := OneGet(c, [], id);
    steps := ProbeBegins(c, steps, id);
    steps := OneRemoval(c, steps, id);
    var s := Execute(c, steps);
    assert s.tasks[1] == Task(Getting(id), Probing(0));
    Extend(c, steps, Resume(1, GOOD));
    steps := steps + [Resume(1, GOOD)];
  }

  /** Once an id has a timestamp without an entry, one call by itself breaks the bound of a full cache:
      evicting that id makes no room. */
  lemma OrphanBreaksBound(c: Config, before: seq<Step>, orphan: string, id: string) returns (steps: seq<Step>)
    requires ConfigOk(c)
    requires var s := Execute(c, before).shared;
      |s.active| == c.maxCached && IsOldest(s.lastAccessed, orphan) && orphan !in s.active && id !in s.active
    ensures var i, reply := |Execute(c, before).tasks|, GOOD.(victim := orphan);
      steps == before + [Arrive(Getting(id))] + [Resume(i, reply)] + [Resume(i, reply)]
    ensures |Execute(c, steps).shared.active| == c.maxCached + 1
  {
    var s := Execute(c, before);
    var i, reply := |s.tasks|, GOOD.(victim := orphan);
    Extend(c, before, Arrive(Getting(id)));
    steps := before + [Arrive(Getting(id))];
    Extend(c, steps, Resume(i, reply));
    steps := steps + [Resume(i, reply)];
    assert s.shared.active - {orphan} == s.shared.active;
    var m := Execute(c, steps);
    assert m.shared.active == s.shared.active && m.tasks[i] == Task(Getting(id), Connecting(s.shared.unused));
    hide CleanUp;
    Extend(c, steps, Resume(i, reply));
    steps := steps + [Resume(i, reply)];
    OneEntryMore(s.shared.active, id, s.shared.unused);
  }

  lemma OneEntryMore(active: map<string, nat>, id: string, instance: nat)
    requires id !in active
    ensures |active[id := instance]| == |active| + 1
  {
    assert active[id := instance].Keys == active.Keys + {id};
    assert |active[id := instance]| == |active[id := instance].Keys| && |active| == |active.Keys|;
  }

  /** The first k ids are cached, nothing is stamped later than they are. */
  ghost predicate Filled(s: Shared, orphan: string, ids: seq<string>, k: nat)
    requires k <= |ids|
  {
    s.active.Keys == Elements(ids[..k]) && orphan in s.lastAccessed && |s.active| == k &&
    forall id :: id in s.lastAccessed ==> s.lastAccessed[id] == 0.0
  }

  lemma OneMoreCached(c: Config, before: seq<Step>, orphan: string, ids: seq<string>, k: nat) returns (steps: seq<Step>)
    requires ConfigOk(c) && NoDups(ids) && k < |ids| && k < c.maxCached
    requires Filled(Execute(c, before).shared, orphan, ids, k)
    ensures Filled(Execute(c, steps).shared, orphan, ids, k + 1)
  {
    hide Execute;
    var s := Execute(c, before).shared;
    assert ids[k] !in ids[..k];
    assert ids[..k + 1] == ids[..k] + [ids[k]];
    OneEntryMore(s.active, ids[k], s.unused);
    steps := OneGet(c, before, ids[k]);
  }

  /** Such a run from the empty cache: a removal overlaps a probe, then calls one after another break
      the bound. At equal timestamps min() takes the first key written, which is the orphan's. */
  lemma OrphanOverflows(c: Config, orphan: string, ids: seq<string>) returns (steps: seq<Step>)
    requires ConfigOk(c) && NoDups(ids) && |ids| == c.maxCached + 1 && orphan !in ids
    ensures |Execute(c, steps).shared.active| == c.maxCached + 1
  {
    hide Execute;
    steps := TimestampWithoutEntry(c, orphan);
    assert Elements(ids[..0]) == {};
    for k := 0 to c.maxCached
      invariant Filled(Execute(c, steps).shared, orphan, ids, k)
    {
      steps := OneMoreCached(c, steps, orphan, ids, k);
    }
    var last := ids[c.maxCached];
    assert last !in ids[..c.maxCached];
    assert orphan !in ids[..c.maxCached];
    steps := OrphanBreaksBound(c, steps, orphan, last);
  }
}
