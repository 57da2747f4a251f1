/** What overlapping calls can do to the connector cache, exactly: how far the bound is exceeded,
    which steps lose an instance and which part the keys of the two dictionaries. */
module ConnectorAccounts {
  import opened Options
  import R = ConnectorRegistry
  import opened ConnectorInterleaving

  // ----- one stretch of get_or_create_connector --------------------------------------------------

  /** Instances that are cached or were told to disconnect. */
  ghost function Held(s: Shared): set<nat> {
    s.active.Values + s.disconnected
  }

  /** Timestamps without an entry. */
  ghost function Orphans(s: Shared): set<string> {
    s.lastAccessed.Keys - s.active.Keys
  }

  /** Entries may have gone, each told to disconnect. */
  ghost predicate SameInstances(s: Shared, r: Shared) {
    (forall id :: id in r.active ==> id in s.active && r.active[id] == s.active[id]) &&
    Held(r) == Held(s) && r.connected == s.connected
  }

  ghost predicate Trims(s: Shared, r: Shared) {
    SameInstances(s, r) && Orphans(r) <= Orphans(s)
  }

  /** At most the task's own new instance was made. */
  predicate Starts(s: Shared, r: (Shared, Phase)) {
    match r.1
    case Connecting(instance) => instance == s.unused && r.0.unused == s.unused + 1
    case _ => r.0.unused == s.unused
  }

  lemma PopTrims(s: Shared, id: string)
    ensures Trims(s, Pop(s, id)) && Pop(s, id).unused == s.unused
  {
    var r := Pop(s, id);
    forall i | i in Held(s) ensures i in Held(r) {
      if i !in s.disconnected {
        var k :| k in s.active && s.active[k] == i;
        if k != id {
          assert r.active[k] == i;
        }
      }
    }
  }

  lemma TrimsTwice(s: Shared, m: Shared, r: Shared)
    requires Trims(s, m) && Trims(m, r)
    ensures Trims(s, r)
  {
  }

  lemma RoomTrims(c: R.Config, s: Shared, reply: Reply)
    ensures Trims(s, CheckRoom(c, s, reply).0) && Starts(s, CheckRoom(c, s, reply))
  {
    hide Trims, Pop;
    TrimsNot(s);
    PopTrims(s, reply.victim);
    TrimsStart(s, s, reply);
    TrimsStart(s, Pop(s, reply.victim), reply);
  }

  lemma TrimsStart(s: Shared, r: Shared, reply: Reply)
    requires Trims(s, r)
    ensures Trims(s, StartConnect(r, reply).0)
  {
  }

  lemma TrimsNot(s: Shared)
    ensures Trims(s, s)
  {
  }

  lemma {:induction false} CleanUpTrims(c: R.Config, s: Shared, id: string, left: seq<string>, reply: Reply)
    ensures Trims(s, CleanUp(c, s, id, left, reply).0) && Starts(s, CleanUp(c, s, id, left, reply))
    decreases |left|
  {
    hide Trims, Pop, CheckRoom;
    if left == [] {
      RoomTrims(c, s, reply);
      TrimsNot(s);
    } else {
      PopTrims(s, left[0]);
      if left[0] !in s.active {
        CleanUpTrims(c, Pop(s, left[0]), id, left[1..], reply);
        TrimsTwice(s, Pop(s, left[0]), CleanUp(c, s, id, left, reply).0);
      }
    }
  }

  // ----- the bound ----------------------------------------------------------------------------------

  predicate IsMakingRoom(phase: Phase) {
    phase.Evicting? || phase.Connecting?
  }

  /** The tasks past the capacity check that have not stored yet. */
  function Busy(tasks: seq<Task>): nat {
    if tasks == [] then 0
    else Busy(tasks[..|tasks| - 1]) + if IsMakingRoom(tasks[|tasks| - 1].phase) then 1 else 0
  }

  /** The step passes the capacity check on the way to a new entry, and finds room that the tasks past
      the check will need, or makes none: the id it evicts has no entry. */
  predicate Slips(c: R.Config, s: State, step: Step)
    requires c.cleanupEvery >= 1
  {
    step.Resume? && step.reply.known && step.i < |s.tasks| &&
    var room := RoomAt(c, s.shared, s.tasks[step.i], step.reply);
    room.Some? &&
    var n := |room.value.active|;
    if n < c.maxCached then n + Busy(s.tasks) >= c.maxCached else step.reply.victim !in room.value.active
  }

  function SlipCount(c: R.Config, steps: seq<Step>): nat
    requires c.cleanupEvery >= 1
  {
    if steps == [] then 0
    else
      var before := steps[..|steps| - 1];
      SlipCount(c, before) + if Slips(c, Execute(c, before), steps[|steps| - 1]) then 1 else 0
  }

  lemma {:induction false} BusyAfter(tasks: seq<Task>, i: nat, t: Task)
    requires i < |tasks|
    ensures Busy(tasks[i := t]) ==
      Busy(tasks) - (if IsMakingRoom(tasks[i].phase) then 1 else 0) + (if IsMakingRoom(t.phase) then 1 else 0)
  {
    var last := |tasks| - 1;
    if i == last {
      assert tasks[i := t][..last] == tasks[..last];
    } else {
      assert tasks[i := t][..last] == tasks[..last][i := t];
      BusyAfter(tasks[..last], i, t);
    }
  }

  lemma BusyArrival(tasks: seq<Task>, op: Op)
    ensures Busy(tasks + [Task(op, Arrived)]) == Busy(tasks)
  {
    assert (tasks + [Task(op, Arrived)])[..|tasks|] == tasks;
  }

  lemma FewerEntries(s: Shared, r: Shared)
    requires forall id :: id in r.active ==> id in s.active && r.active[id] == s.active[id]
    ensures |r.active| <= |s.active|
  {
    assert r.active.Keys <= s.active.Keys;
    CardSubset(r.active.Keys, s.active.Keys);
    assert |r.active| == |r.active.Keys| && |s.active| == |s.active.Keys|;
  }

  lemma {:induction false} CardSubset<T>(a: set<T>, b: set<T>)
    requires a <= b
    ensures |a| <= |b|
  {
    if x :| x in a {
      CardSubset(a - {x}, b - {x});
    }
  }

  /** What one stretch adds to the entries and to the tasks past the check. */
  ghost predicate Adds(s: Shared, phase: Phase, r: (Shared, Phase), more: int) {
    |r.0.active| + (if IsMakingRoom(r.1) then 1 else 0) <= |s.active| + (if IsMakingRoom(phase) then 1 else 0) + more
  }

  /** What the capacity check makes of the entries it finds. */
  lemma RoomAdds(c: R.Config, b: Shared, reply: Reply)
    requires R.ConfigOk(c) && Stamped(b)
    ensures var r := CheckRoom(c, b, reply);
      if |b.active| >= c.maxCached && reply.victim in b.active
      then |r.0.active| < |b.active| && IsMakingRoom(r.1)
      else r.0.active == b.active && (IsMakingRoom(r.1) <==> reply.known)
  {
    if b.lastAccessed == map[] {
      assert b.active == map[];
    }
    R.SmallerMap(b.active, {reply.victim});
    if reply.victim !in b.active {
      assert b.active - {reply.victim} == b.active;
    }
  }

  /** Up to the room the entries stay as they are. */
  lemma {:induction false} CleanUpToRoom(c: R.Config, s: Shared, id: string, left: seq<string>, reply: Reply)
    requires Stamped(s)
    ensures var room := RoomAfterCleanUp(s, id, left);
      match room
      case Some(b) => CleanUp(c, s, id, left, reply) == CheckRoom(c, b, reply) && b.active == s.active && Stamped(b)
      case None => !IsMakingRoom(CleanUp(c, s, id, left, reply).1)
    decreases |left|
  {
    hide CheckRoom, Stamped;
    if left != [] {
      PopKeeps(s, left[0]);
      if left[0] !in s.active {
        CleanUpToRoom(c, Pop(s, left[0]), id, left[1..], reply);
        PopAbsent(s, left[0]);
      }
    }
  }

  lemma PopAbsent(s: Shared, id: string)
    requires id !in s.active
    ensures Pop(s, id).active == s.active
  {
  }

  /** A stretch that does not reach the capacity check adds nothing; one that does adds what the check does. */
  lemma GetAdds(c: R.Config, s: Shared, t: Task, reply: Reply)
    requires R.ConfigOk(c) && Stamped(s) && t.op.Getting?
    ensures var r := ResumeGet(c, s, t.op.id, t.phase, reply);
      match RoomAt(c, s, t, reply)
      case Some(b) => r == CheckRoom(c, b, reply) && |b.active| <= |s.active| && Stamped(b) && !IsMakingRoom(t.phase)
      case None => Adds(s, t.phase, r, 0)
  {
    var id := t.op.id;
    match t.phase
    case Arrived =>
      hide CleanUp, CheckRoom, RoomAfterCleanUp;
      CleanUpAdds(c, Entered(s), id, ToCleanUp(c, Entered(s), reply), reply);
    case CleaningUp(left) =>
      hide CleanUp, CheckRoom, RoomAfterCleanUp;
      CleanUpAdds(c, s, id, left, reply);
    case Disconnecting =>
      R.SmallerMap(s.active, {id});
    case Connecting(instance) => StoreAdds(s, id, instance);
    case _ =>
  }

  lemma StoreAdds(s: Shared, id: string, instance: nat)
    ensures |s.active[id := instance]| <= |s.active| + 1
  {
    var active := s.active[id := instance];
    assert active.Keys == s.active.Keys + {id};
    assert |active| == |active.Keys| && |s.active| == |s.active.Keys|;
  }

  lemma CleanUpAdds(c: R.Config, s: Shared, id: string, left: seq<string>, reply: Reply)
    requires Stamped(s)
    ensures var r := CleanUp(c, s, id, left, reply);
      match RoomAfterCleanUp(s, id, left)
      case Some(b) => r == CheckRoom(c, b, reply) && |b.active| <= |s.active| && Stamped(b)
      case None => |r.0.active| <= |s.active| && !IsMakingRoom(r.1)
  {
    hide CleanUp, CheckRoom, RoomAfterCleanUp;
    CleanUpToRoom(c, s, id, left, reply);
    CleanUpTrims(c, s, id, left, reply);
    FewerEntries(s, CleanUp(c, s, id, left, reply).0);
  }

  lemma RemoveAdds(s: Shared, id: string, phase: Phase, reply: Reply)
    ensures Adds(s, phase, ResumeRemove(s, id, phase, reply), 0)
  {
    R.SmallerMap(s.active, {id});
  }

  /** Entries and tasks past the check, together. */
  function Load(s: State): nat {
    |s.shared.active| + Busy(s.tasks)
  }

  /** A step that does not slip never takes the load above the maximum or above what it was; one that
      slips takes it above the maximum, and one further than it was at most. */
  lemma StepLoads(c: R.Config, s: State, step: Step)
    requires R.ConfigOk(c) && Stamped(s.shared)
    ensures var load := Load(Do(c, s, step));
      if Slips(c, s, step) then c.maxCached < load <= Load(s) + 1 else load <= Load(s) || load <= c.maxCached
  {
    hide Busy, ResumeGet, ResumeRemove, RoomAt, CheckRoom, Stamped;
    match step
    case Arrive(op) => BusyArrival(s.tasks, op);
    case Resume(i, reply) =>
      if i < |s.tasks| {
        var t := s.tasks[i];
        var r := if t.op.Getting? then ResumeGet(c, s.shared, t.op.id, t.phase, reply)
                 else ResumeRemove(s.shared, t.op.id, t.phase, reply);
        BusyAfter(s.tasks, i, t.(phase := r.1));
        if t.op.Removing? {
          NoRoomToRemove(c, s.shared, t, reply);
          RemoveAdds(s.shared, t.op.id, t.phase, reply);
        } else {
          GetAdds(c, s.shared, t, reply);
          var room := RoomAt(c, s.shared, t, reply);
          if room.Some? {
            RoomAdds(c, room.value, reply);
          }
        }
      }
  }

  lemma NoRoomToRemove(c: R.Config, s: Shared, t: Task, reply: Reply)
    requires c.cleanupEvery >= 1 && t.op.Removing?
    ensures RoomAt(c, s, t, reply).None?
  {
  }

  /** The bound for every run: entries and tasks past the capacity check together exceed the maximum
      by no more than the steps that slipped. */
  lemma {:induction false} BoundedBySlips(c: R.Config, steps: seq<Step>)
    requires R.ConfigOk(c)
    ensures Load(Execute(c, steps)) <= c.maxCached + SlipCount(c, steps)
  {
    if steps != [] {
      var before := steps[..|steps| - 1];
      BoundedBySlips(c, before);
      CachedIdsStamped(c, before);
      hide Slips, Load;
      StepLoads(c, Execute(c, before), steps[|steps| - 1]);
    }
  }

  /** At no moment of the run the load is above the maximum. */
  ghost predicate AlwaysBounded(c: R.Config, steps: seq<Step>)
    requires c.cleanupEvery >= 1
  {
    Load(Execute(c, steps)) <= c.maxCached && (steps != [] ==> AlwaysBounded(c, steps[..|steps| - 1]))
  }

  /** The load stays within the maximum all along exactly in the runs in which no step slips. */
  lemma {:induction false} BoundedExactly(c: R.Config, steps: seq<Step>)
    requires R.ConfigOk(c)
    ensures AlwaysBounded(c, steps) <==> SlipCount(c, steps) == 0
  {
    if steps != [] {
      var before := steps[..|steps| - 1];
      BoundedExactly(c, before);
      CachedIdsStamped(c, before);
      hide Slips, Load;
      StepLoads(c, Execute(c, before), steps[|steps| - 1]);
      BoundedNow(c, before);
    }
  }

  lemma BoundedNow(c: R.Config, steps: seq<Step>)
    requires c.cleanupEvery >= 1
    ensures AlwaysBounded(c, steps) ==> Load(Execute(c, steps)) <= c.maxCached
  {
  }

  // ----- lost instances -----------------------------------------------------------------------------

  /** Connected, but neither cached nor ever told to disconnect. */
  ghost function Lost(s: Shared): set<nat> {
    s.connected - Held(s)
  }

  /** The step takes an entry out of the cache without telling its instance: it stores over the entry
      or deletes it after a wait in which the entry was replaced. */
  predicate TakesUntold(s: State, step: Step) {
    step.Resume? && step.reply.ok && step.i < |s.tasks| &&
    var t := s.tasks[step.i];
    t.op.id in s.shared.active && s.shared.active[t.op.id] !in s.shared.disconnected &&
    (t.phase.Disconnecting? || (t.op.Getting? && t.phase.Connecting?))
  }

  function Loses(s: State, step: Step): set<nat> {
    if TakesUntold(s, step) then {s.shared.active[s.tasks[step.i].op.id]} else {}
  }

  /** A probe that finds its instance dead tells it, cached or not. */
  function Tells(s: State, step: Step): set<nat> {
    if step.Resume? && step.i < |s.tasks| then
      var t := s.tasks[step.i];
      if t.op.Getting? && t.phase.Probing? && step.reply.ok && !step.reply.alive then {t.phase.instance} else {}
    else {}
  }

  ghost predicate OneEntryEach(s: Shared) {
    (forall id, other :: id in s.active && other in s.active && s.active[id] == s.active[other] ==> id == other) &&
    forall id :: id in s.active ==> s.active[id] in s.connected
  }

  /** An instance being connected is nobody else's and not connected yet. */
  ghost predicate OwnInstances(s: State) {
    (forall n :: n in s.shared.connected ==> n < s.shared.unused) &&
    (forall i :: 0 <= i < |s.tasks| && s.tasks[i].phase.Connecting? ==>
      s.tasks[i].phase.instance < s.shared.unused && s.tasks[i].phase.instance !in s.shared.connected) &&
    forall i, j :: 0 <= i < j < |s.tasks| && s.tasks[i].phase.Connecting? && s.tasks[j].phase.Connecting? ==>
      s.tasks[i].phase.instance != s.tasks[j].phase.instance
  }

  ghost predicate InstancesOk(s: State) {
    OneEntryEach(s.shared) && OwnInstances(s)
  }

  /** What a stretch does to instances, by the kind of stretch. */
  datatype Effect = Trimmed | Deleted | Stored(instance: nat) | Told(instance: nat)

  function EffectOf(s: Shared, t: Task, reply: Reply): Effect {
    if t.phase.Disconnecting? && reply.ok && t.op.id in s.active then Deleted
    else if t.op.Removing? && t.phase.Arrived? && t.op.id in s.active then Told(s.active[t.op.id])
    else if t.op.Getting? && t.phase.Connecting? && reply.ok then Stored(t.phase.instance)
    else if t.op.Getting? && t.phase.Probing? && reply.ok && !reply.alive then Told(t.phase.instance)
    else Trimmed
  }

  function Apply(s: Shared, id: string, e: Effect): Shared {
    match e
    case Trimmed => s
    case Deleted => s.(active := s.active - {id}, lastAccessed := s.lastAccessed - {id})
    case Stored(instance) => s.(active := s.active[id := instance], connected := s.connected + {instance})
    case Told(instance) => s.(disconnected := s.disconnected + {instance})
  }

  function Resumed(c: R.Config, s: Shared, t: Task, reply: Reply): (Shared, Phase)
    requires c.cleanupEvery >= 1
  {
    if t.op.Getting? then ResumeGet(c, s, t.op.id, t.phase, reply) else ResumeRemove(s, t.op.id, t.phase, reply)
  }

  /** Every stretch has its effect and may trim besides. */
  lemma StretchEffect(c: R.Config, s: Shared, t: Task, reply: Reply)
    requires c.cleanupEvery >= 1
    ensures var r := Resumed(c, s, t, reply);
      SameInstances(Apply(s, t.op.id, EffectOf(s, t, reply)), r.0) &&
      (t.phase.Connecting? && t.op.Getting? ==> !r.1.Connecting?) &&
      (r == (s, t.phase) || Starts(s, r))
  {
    hide CleanUp, CheckRoom, SameInstances, Orphans;
    var id := t.op.id;
    var start := Apply(s, id, EffectOf(s, t, reply));
    SameBooks(start, Resumed(c, s, t, reply).0);
    if t.op.Getting? {
      match t.phase
      case Arrived =>
        CleanUpTrims(c, Entered(s), id, ToCleanUp(c, Entered(s), reply), reply);
        SameBooksFirst(s, Entered(s), CleanUp(c, Entered(s), id, ToCleanUp(c, Entered(s), reply), reply).0);
      case CleaningUp(left) => CleanUpTrims(c, s, id, left, reply);
      case Disconnecting => RoomTrims(c, start, reply);
      case _ =>
    }
  }

  predicate SameFields(s: Shared, r: Shared) {
    r.active == s.active && r.connected == s.connected && r.disconnected == s.disconnected
  }

  lemma SameBooks(s: Shared, r: Shared)
    ensures SameFields(s, r) ==> SameInstances(s, r)
  {
  }

  lemma SameBooksFirst(s: Shared, m: Shared, r: Shared)
    requires SameFields(s, m) && SameInstances(m, r)
    ensures SameInstances(s, r)
  {
  }

  lemma SameEntryEach(s: Shared, r: Shared)
    requires OneEntryEach(s) && SameInstances(s, r)
    ensures OneEntryEach(r)
  {
    hide Held;
  }

  lemma EffectEntryEach(s: Shared, id: string, e: Effect)
    requires OneEntryEach(s) && (e.Stored? ==> e.instance !in s.connected)
    ensures OneEntryEach(Apply(s, id, e))
  {
  }

  lemma TakenOut(s: Shared, id: string)
    requires OneEntryEach(s) && id in s.active
    ensures (s.active - {id}).Values == s.active.Values - {s.active[id]}
  {
    var rest, x := s.active - {id}, s.active[id];
    forall i | i in s.active.Values && i != x ensures i in rest.Values {
      var k :| k in s.active && s.active[k] == i;
      assert rest[k] == i;
    }
  }

  lemma PutIn(active: map<string, nat>, id: string, instance: nat)
    ensures active[id := instance].Values == (active - {id}).Values + {instance}
  {
    var after, rest := active[id := instance], active - {id};
    assert after[id] == instance;
    forall i | i in rest.Values ensures i in after.Values {
      var k :| k in rest && rest[k] == i;
      assert after[k] == i;
    }
    forall i | i in after.Values && i != instance ensures i in rest.Values {
      var k :| k in after && after[k] == i;
      assert rest[k] == i;
    }
  }

  /** What an effect takes out of the cache untold, and what it tells. */
  lemma EffectLoses(s: Shared, id: string, e: Effect)
    requires OneEntryEach(s) && (e.Stored? ==> e.instance !in s.connected)
    requires e.Deleted? ==> id in s.active
    ensures Lost(Apply(s, id, e)) ==
      Lost(s) - (if e.Told? then {e.instance} else {}) +
      (if (e.Stored? || e.Deleted?) && id in s.active && s.active[id] !in s.disconnected then {s.active[id]} else {})
  {
    if id in s.active {
      TakenOut(s, id);
    } else {
      assert s.active - {id} == s.active;
    }
    if e.Stored? {
      PutIn(s.active, id, e.instance);
    }
  }

  lemma SameLost(s: Shared, r: Shared)
    requires SameInstances(s, r)
    ensures Lost(r) == Lost(s)
  {
  }

  lemma OwnAfter(s: State, i: nat, r: (Shared, Phase))
    requires OwnInstances(s) && i < |s.tasks| && r.0.unused >= s.shared.unused
    requires forall n :: n in r.0.connected <==>
      n in s.shared.connected || (s.tasks[i].phase.Connecting? && !r.1.Connecting? && n == s.tasks[i].phase.instance && n in r.0.connected)
    requires r.1.Connecting? ==> r.1 == s.tasks[i].phase || (r.1.instance == s.shared.unused && r.0.unused == s.shared.unused + 1)
    ensures OwnInstances(State(r.0, s.tasks[i := s.tasks[i].(phase := r.1)]))
  {
  }

  lemma StepInstances(c: R.Config, s: State, step: Step)
    requires c.cleanupEvery >= 1 && InstancesOk(s)
    ensures InstancesOk(Do(c, s, step))
    ensures Lost(Do(c, s, step).shared) == Lost(s.shared) - Tells(s, step) + Loses(s, step)
  {
    hide OneEntryEach, SameInstances, Lost, ResumeGet, ResumeRemove;
    if step.Resume? && step.i < |s.tasks| {
      var t := s.tasks[step.i];
      var e := EffectOf(s.shared, t, step.reply);
      var m, r := Apply(s.shared, t.op.id, e), Resumed(c, s.shared, t, step.reply);
      StretchEffect(c, s.shared, t, step.reply);
      EffectEntryEach(s.shared, t.op.id, e);
      SameEntryEach(m, r.0);
      SameConnected(m, r.0);
      OwnAfter(s, step.i, r);
      SameLost(m, r.0);
      EffectLoses(s.shared, t.op.id, e);
      CachedIsHeld(s.shared, t.op.id);
    }
  }

  lemma CachedIsHeld(s: Shared, id: string)
    ensures id in s.active ==> s.active[id] !in Lost(s)
  {
  }

  lemma SameConnected(s: Shared, r: Shared)
    requires SameInstances(s, r)
    ensures r.connected == s.connected
  {
  }

  lemma {:induction false} RunInstances(c: R.Config, steps: seq<Step>)
    requires c.cleanupEvery >= 1
    ensures InstancesOk(Execute(c, steps))
  {
    if steps != [] {
      RunInstances(c, steps[..|steps| - 1]);
      StepInstances(c, Execute(c, steps[..|steps| - 1]), steps[|steps| - 1]);
    } else {
      assert Execute(c, []) == START;
    }
  }

  /** In every run a step loses exactly the instance it takes out untold, and tells a lost one exactly
      when a probe finds it dead. */
  lemma StepLosesExactly(c: R.Config, steps: seq<Step>, step: Step)
    requires c.cleanupEvery >= 1
    ensures var s := Execute(c, steps);
      Lost(Execute(c, steps + [step]).shared) == Lost(s.shared) - Tells(s, step) + Loses(s, step)
  {
    hide Execute, Lost;
    RunInstances(c, steps);
    Extend(c, steps, step);
    StepInstances(c, Execute(c, steps), step);
  }

  /** At no moment of the run an instance is lost. */
  ghost predicate NeverLost(c: R.Config, steps: seq<Step>)
    requires c.cleanupEvery >= 1
  {
    Lost(Execute(c, steps).shared) == {} && (steps != [] ==> NeverLost(c, steps[..|steps| - 1]))
  }

  predicate NeverTakesUntold(c: R.Config, steps: seq<Step>)
    requires c.cleanupEvery >= 1
  {
    steps == [] ||
    (NeverTakesUntold(c, steps[..|steps| - 1]) &&
     !TakesUntold(Execute(c, steps[..|steps| - 1]), steps[|steps| - 1]))
  }

  /** No instance is ever lost exactly in the runs in which no step takes one out untold. */
  lemma {:induction false} NothingLostExactly(c: R.Config, steps: seq<Step>)
    requires c.cleanupEvery >= 1
    ensures NeverLost(c, steps) <==> NeverTakesUntold(c, steps)
  {
    if steps != [] {
      var before, step := steps[..|steps| - 1], steps[|steps| - 1];
      NothingLostExactly(c, before);
      assert before + [step] == steps;
      hide Execute, Lost;
      StepLosesExactly(c, before, step);
      NowLost(c, before);
    } else {
      assert Execute(c, []) == START;
    }
  }

  lemma NowLost(c: R.Config, steps: seq<Step>)
    requires c.cleanupEvery >= 1
    ensures NeverLost(c, steps) ==> Lost(Execute(c, steps).shared) == {}
  {
  }

  // ----- timestamps without entry --------------------------------------------------------------------

  /** A live probe answers for an id that is no longer cached. */
  predicate Strays(s: State, step: Step) {
    step.Resume? && step.i < |s.tasks| &&
    var t := s.tasks[step.i];
    t.op.Getting? && t.phase.Probing? && step.reply.ok && step.reply.alive && t.op.id !in s.shared.active
  }

  lemma StretchOrphans(c: R.Config, s: Shared, t: Task, reply: Reply)
    requires c.cleanupEvery >= 1
    ensures Orphans(Resumed(c, s, t, reply).0) <=
      Orphans(s) + if t.op.Getting? && t.phase.Probing? && reply.ok && reply.alive then {t.op.id} else {}
  {
    hide CleanUp, CheckRoom, SameInstances;
    var id := t.op.id;
    if t.op.Getting? {
      match t.phase
      case Arrived => CleanUpTrims(c, Entered(s), id, ToCleanUp(c, Entered(s), reply), reply);
      case CleaningUp(left) => CleanUpTrims(c, s, id, left, reply);
      case Disconnecting =>
        RoomTrims(c, s.(active := s.active - {id}, lastAccessed := s.lastAccessed - {id}), reply);
      case _ =>
    }
  }

  /** A step makes new timestamps without entry exactly when it strays, and then the one of its id. */
  lemma StepStraysExactly(c: R.Config, s: State, step: Step)
    requires c.cleanupEvery >= 1
    ensures Orphans(Do(c, s, step).shared) <=
      Orphans(s.shared) + if Strays(s, step) then {s.tasks[step.i].op.id} else {}
    ensures Strays(s, step) ==> s.tasks[step.i].op.id in Orphans(Do(c, s, step).shared)
  {
    if step.Resume? && step.i < |s.tasks| {
      var t := s.tasks[step.i];
      StretchOrphans(c, s.shared, t, step.reply);
      if t.op.Getting? && t.phase.Probing? {
        assert Orphans(Do(c, s, step).shared) <= Orphans(s.shared) + if Strays(s, step) then {t.op.id} else {};
      }
    }
  }

  /** At no moment of the run the two dictionaries have different keys. */
  ghost predicate AlwaysSameKeys(c: R.Config, steps: seq<Step>)
    requires c.cleanupEvery >= 1
  {
    var s := Execute(c, steps).shared;
    s.active.Keys == s.lastAccessed.Keys && (steps != [] ==> AlwaysSameKeys(c, steps[..|steps| - 1]))
  }

  predicate NeverStrays(c: R.Config, steps: seq<Step>)
    requires c.cleanupEvery >= 1
  {
    steps == [] ||
    (NeverStrays(c, steps[..|steps| - 1]) && !Strays(Execute(c, steps[..|steps| - 1]), steps[|steps| - 1]))
  }

  lemma SameKeysNoOrphans(s: Shared)
    requires Stamped(s)
    ensures s.active.Keys == s.lastAccessed.Keys <==> Orphans(s) == {}
  {
    if Orphans(s) == {} {
      assert forall id :: id in s.lastAccessed && id !in s.active ==> id in Orphans(s);
    }
  }

  /** The keys agree all along exactly in the runs in which no step strays. */
  lemma {:induction false} SameKeysExactly(c: R.Config, steps: seq<Step>)
    requires c.cleanupEvery >= 1
    ensures AlwaysSameKeys(c, steps) <==> NeverStrays(c, steps)
  {
    CachedIdsStamped(c, steps);
    SameKeysNoOrphans(Execute(c, steps).shared);
    if steps != [] {
      var before, step := steps[..|steps| - 1], steps[|steps| - 1];
      SameKeysExactly(c, before);
      CachedIdsStamped(c, before);
      SameKeysNoOrphans(Execute(c, before).shared);
      hide Orphans, Strays, Stamped;
      StepStraysExactly(c, Execute(c, before), step);
      KeysNow(c, before);
    }
  }

  lemma KeysNow(c: R.Config, steps: seq<Step>)
    requires c.cleanupEvery >= 1
    ensures AlwaysSameKeys(c, steps) ==>
      Execute(c, steps).shared.active.Keys == Execute(c, steps).shared.lastAccessed.Keys
  {
  }
}
