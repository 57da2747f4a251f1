/** The connector cache of backend/app/connectors/connector_registry.py, each call run without
    interruption; probing, connecting and disconnecting may fail in every way. */
module ConnectorRegistry {
  import opened Options
  import Recency

  datatype Config = Config(maxCached: nat, maxAge: real, cleanupEvery: nat)

  predicate ConfigOk(c: Config) {
    c.maxCached >= 1 && c.cleanupEvery >= 1
  }

  /** The two dictionaries and the counter; then what happened so far: instance numbers handed
      out, connected and told to disconnect, and which id was returned when. */
  datatype Registry = Registry(
    active: map<string, nat>,
    lastAccessed: map<string, real>,
    callCount: nat,
    unused: nat,
    connected: set<nat>,
    disconnected: set<nat>,
    returned: seq<(string, real)>,
    clock: real)

  const EMPTY := Registry(map[], map[], 0, 0, {}, {}, [], 0.0)

  datatype Probe = Alive | Dead | ProbeRaises

  /** What the outside world does during one get_or_create_connector call, and the clock when it
      cleans up and when it returns. */
  datatype Luck = Luck(known: bool, probe: Probe, disconnects: bool, connects: bool, victim: string, now: real, later: real)

  datatype Call = Get(id: string, luck: Luck) | Remove(id: string, disconnects: bool)

  // ----- the steps of a call ------------------------------------------------------------------

  function InstancesOf(active: map<string, nat>, ids: set<string>): set<nat> {
    set id | id in ids && id in active :: active[id]
  }

  /** Entries popped from both dictionaries, their instances told to disconnect. */
  function Drop(r: Registry, ids: set<string>): Registry {
    r.(active := r.active - ids, lastAccessed := r.lastAccessed - ids,
       disconnected := r.disconnected + InstancesOf(r.active, ids))
  }

  function StaleIds(r: Registry, cutoff: real): set<string> {
    set id | id in r.lastAccessed && r.lastAccessed[id] < cutoff
  }

  function Cleanup(c: Config, r: Registry, now: real): Registry {
    Drop(r, StaleIds(r, now - c.maxAge))
  }

  predicate IsOldest(stamps: map<string, real>, id: string) {
    id in stamps && forall other :: other in stamps ==> stamps[id] <= stamps[other]
  }

  function Evict(r: Registry, victim: string): Registry {
    if r.lastAccessed == map[] then r else Drop(r, {victim})
  }

  function Touch(r: Registry, id: string, at: real): Registry {
    r.(lastAccessed := r.lastAccessed[id := at], returned := r.returned + [(id, at)], clock := at)
  }

  /** A new instance, connected and cached. */
  function Connected(r: Registry, id: string): Registry {
    r.(active := r.active[id := r.unused], connected := r.connected + {r.unused}, unused := r.unused + 1)
  }

  function Enter(c: Config, r: Registry, now: real): Registry
    requires c.cleanupEvery >= 1
  {
    var entered := r.(callCount := r.callCount + 1, clock := now);
    if entered.callCount % c.cleanupEvery == 0 then Cleanup(c, entered, now) else entered
  }

  /** The capacity check. */
  function RoomFor(c: Config, r: Registry, victim: string): Registry {
    if |r.active| >= c.maxCached then Evict(r, victim) else r
  }

  /** From the capacity check on. */
  function Create(c: Config, r: Registry, id: string, luck: Luck): (Registry, Option<nat>) {
    var room := RoomFor(c, r, luck.victim);
    if !luck.known then (room, None)
    else if !luck.connects then (room.(unused := room.unused + 1), None)
    else
      (Touch(Connected(room, id), id, luck.later), Some(room.unused))
  }

  /** get_or_create_connector; None stands for the exception. */
  function GetOrCreate(c: Config, r: Registry, id: string, luck: Luck): (Registry, Option<nat>)
    requires c.cleanupEvery >= 1
  {
    var e := Enter(c, r, luck.now);
    if id !in e.active then Create(c, e, id, luck)
    else if luck.probe.Alive? then (Touch(e, id, luck.later), Some(e.active[id]))
    else if luck.probe.ProbeRaises? then (e, None)
    else if !luck.disconnects then (e.(disconnected := e.disconnected + {e.active[id]}), None)
    else Create(c, Drop(e, {id}), id, luck)
  }

  function RemoveConnector(r: Registry, id: string, disconnects: bool): Registry {
    if id !in r.active then r
    else if disconnects then Drop(r, {id})
    else r.(disconnected := r.disconnected + {r.active[id]})
  }

  /** The registry as the capacity check finds it, when this call reaches it. */
  function BeforeCreate(c: Config, r: Registry, id: string, luck: Luck): Option<Registry>
    requires c.cleanupEvery >= 1
  {
    var e := Enter(c, r, luck.now);
    if id !in e.active then Some(e)
    else if luck.probe.Dead? && luck.disconnects then Some(Drop(e, {id}))
    else None
  }

  function Do(c: Config, r: Registry, call: Call): Registry
    requires c.cleanupEvery >= 1
  {
    match call
    case Get(id, luck) => GetOrCreate(c, r, id, luck).0
    case Remove(id, disconnects) => RemoveConnector(r, id, disconnects)
  }

  /** The clock never runs backwards, and min() names an entry of smallest timestamp. */
  ghost predicate Legal(c: Config, r: Registry, call: Call)
    requires c.cleanupEvery >= 1
  {
    call.Get? ==>
      r.clock <= call.luck.now <= call.luck.later &&
      var b := BeforeCreate(c, r, call.id, call.luck);
      (b.Some? && b.value.lastAccessed != map[] ==> IsOldest(b.value.lastAccessed, call.luck.victim))
  }

  function Execute(c: Config, calls: seq<Call>): Registry
    requires c.cleanupEvery >= 1
  {
    if calls == [] then EMPTY else Do(c, Execute(c, calls[..|calls| - 1]), calls[|calls| - 1])
  }

  ghost predicate LegalRun(c: Config, calls: seq<Call>)
    requires c.cleanupEvery >= 1
  {
    calls == [] ||
    (LegalRun(c, calls[..|calls| - 1]) && Legal(c, Execute(c, calls[..|calls| - 1]), calls[|calls| - 1]))
  }

  // ----- what every call keeps ------------------------------------------------------------------

  /** Whether and when an id was last returned. */
  function LastReturn(returned: seq<(string, real)>, id: string): Option<real> {
    if returned == [] then None
    else
      var last := returned[|returned| - 1];
      if last.0 == id then Some(last.1) else LastReturn(returned[..|returned| - 1], id)
  }

  ghost predicate SameKeys(r: Registry) {
    forall id :: id in r.active <==> id in r.lastAccessed
  }

  /** Connected instances are cached or have been told to disconnect. */
  ghost predicate NothingLost(r: Registry) {
    (forall i :: i in r.connected ==> i in r.active.Values || i in r.disconnected) &&
    (forall i :: i in r.connected ==> i < r.unused) &&
    (forall id :: id in r.active ==> r.active[id] in r.connected)
  }

  /** A timestamp is the time its id was last returned. */
  ghost predicate StampsTell(r: Registry) {
    forall id :: id in r.lastAccessed ==> LastReturn(r.returned, id) == Some(r.lastAccessed[id])
  }

  ghost predicate Inv(c: Config, r: Registry) {
    SameKeys(r) && |r.active| <= c.maxCached && NothingLost(r) && StampsTell(r)
  }

  lemma SmallerMap(m: map<string, nat>, ids: set<string>)
    ensures |m - ids| <= |m|
    ensures (exists id :: id in ids && id in m) ==> |m - ids| < |m|
  {
    var rest := m - ids;
    assert rest.Keys == m.Keys - ids;
    assert |rest| == |rest.Keys| && |m| == |m.Keys|;
    assert m.Keys == rest.Keys + (m.Keys * ids);
    if id :| id in ids && id in m {
      assert id in m.Keys * ids;
    }
  }

  lemma DropKeeps(c: Config, r: Registry, ids: set<string>)
    requires Inv(c, r)
    ensures Inv(c, Drop(r, ids))
    ensures (exists id :: id in ids && id in r.active) ==> |Drop(r, ids).active| < |r.active|
  {
    SmallerMap(r.active, ids);
    var d := Drop(r, ids);
    forall i | i in r.connected ensures i in d.active.Values || i in d.disconnected {
      if i !in r.disconnected {
        var id :| id in r.active && r.active[id] == i;
        if id in ids {
          assert i in InstancesOf(r.active, ids);
        } else {
          assert id in d.active && d.active[id] == i;
        }
      }
    }
  }

  lemma TouchTells(r: Registry, id: string, at: real)
    requires forall other :: other in r.lastAccessed && other != id ==>
      LastReturn(r.returned, other) == Some(r.lastAccessed[other])
    ensures StampsTell(Touch(r, id, at))
  {
    var t := Touch(r, id, at);
    assert t.returned[..|t.returned| - 1] == r.returned;
  }

  lemma StoreKeepsInstances(r: Registry, id: string)
    requires NothingLost(r) && id !in r.active
    ensures NothingLost(Connected(r, id))
  {
    var active := r.active[id := r.unused];
    assert active[id] == r.unused;
    forall i | i in r.connected && i !in r.disconnected ensures i in active.Values {
      var other :| other in r.active && r.active[other] == i;
      assert active[other] == i;
    }
  }

  lemma SomeStamp(r: Registry)
    requires SameKeys(r) && |r.active| > 0
    ensures r.lastAccessed != map[]
  {
    var id :| id in r.active;
  }

  lemma Room(c: Config, r: Registry, victim: string)
    requires ConfigOk(c) && Inv(c, r)
    requires r.lastAccessed != map[] ==> IsOldest(r.lastAccessed, victim)
    ensures var room := RoomFor(c, r, victim);
      Inv(c, room) && |room.active| < c.maxCached && room.active.Keys <= r.active.Keys
  {
    if |r.active| >= c.maxCached {
      SomeStamp(r);
      assert victim in r.active;
      DropKeeps(c, r, {victim});
    }
  }

  lemma CreateKeeps(c: Config, r: Registry, id: string, luck: Luck)
    requires ConfigOk(c) && Inv(c, r) && id !in r.active
    requires r.lastAccessed != map[] ==> IsOldest(r.lastAccessed, luck.victim)
    ensures Inv(c, Create(c, r, id, luck).0)
  {
    hide RoomFor, IsOldest, Inv, Touch, Connected;
    Room(c, r, luck.victim);
    var room := RoomFor(c, r, luck.victim);
    assert id !in room.active.Keys;
    if luck.known && luck.connects {
      StoreKeeps(c, room, id, luck.later);
    } else {
      UnusedGrows(c, room);
    }
  }

  lemma UnusedGrows(c: Config, r: Registry)
    requires Inv(c, r)
    ensures Inv(c, r.(unused := r.unused + 1))
  {
  }

  lemma StoreKeeps(c: Config, r: Registry, id: string, at: real)
    requires Inv(c, r) && |r.active| < c.maxCached && id !in r.active
    ensures Inv(c, Touch(Connected(r, id), id, at))
  {
    StoreKeepsInstances(r, id);
    TouchTells(Connected(r, id), id, at);
    hide LastReturn, NothingLost, StampsTell;
    StoreCounts(r, id);
    TouchKeepsInstances(Connected(r, id), id, at);
  }

  lemma StoreCounts(r: Registry, id: string)
    ensures |Connected(r, id).active| <= |r.active| + 1
  {
    assert Connected(r, id).active.Keys == r.active.Keys + {id};
    assert |Connected(r, id).active.Keys| <= |r.active.Keys| + 1;
  }

  lemma TouchKeepsInstances(r: Registry, id: string, at: real)
    requires NothingLost(r)
    ensures NothingLost(Touch(r, id, at))
  {
  }

  lemma EnterKeeps(c: Config, r: Registry, now: real)
    requires ConfigOk(c) && Inv(c, r)
    ensures Inv(c, Enter(c, r, now))
  {
    hide Drop;
    var entered := r.(callCount := r.callCount + 1, clock := now);
    assert Inv(c, entered);
    DropKeeps(c, entered, StaleIds(entered, now - c.maxAge));
  }

  lemma TouchKeeps(c: Config, r: Registry, id: string, at: real)
    requires Inv(c, r) && id in r.active
    ensures Inv(c, Touch(r, id, at))
  {
    TouchTells(r, id, at);
  }

  lemma MarkKeeps(c: Config, r: Registry, i: nat)
    requires Inv(c, r)
    ensures Inv(c, r.(disconnected := r.disconnected + {i}))
  {
  }

  lemma CallKeeps(c: Config, r: Registry, call: Call)
    requires ConfigOk(c) && Inv(c, r) && Legal(c, r, call)
    ensures Inv(c, Do(c, r, call))
  {
    hide Inv, Drop, Enter, Touch, Create, IsOldest;
    match call
    case Remove(id, _) =>
      DropKeeps(c, r, {id});
      if id in r.active {
        MarkKeeps(c, r, r.active[id]);
      }
    case Get(id, luck) =>
      EnterKeeps(c, r, luck.now);
      var e := Enter(c, r, luck.now);
      if id !in e.active {
        CreateKeeps(c, e, id, luck);
      } else {
        TouchKeeps(c, e, id, luck.later);
        MarkKeeps(c, e, e.active[id]);
        DropKeeps(c, e, {id});
        DropRemoves(e, id);
        if luck.probe.Dead? && luck.disconnects {
          CreateKeeps(c, Drop(e, {id}), id, luck);
        }
      }
  }

  lemma DropRemoves(r: Registry, id: string)
    ensures id !in Drop(r, {id}).active
  {
  }

  /** After every sequence of calls both dictionaries have the same keys, at most maxCached of them;
      no connected instance is lost; timestamps are the times of last return. */
  lemma {:induction false} RegistryHolds(c: Config, calls: seq<Call>)
    requires ConfigOk(c) && LegalRun(c, calls)
    ensures Inv(c, Execute(c, calls))
  {
    if calls != [] {
      RegistryHolds(c, calls[..|calls| - 1]);
      CallKeeps(c, Execute(c, calls[..|calls| - 1]), calls[|calls| - 1]);
    }
  }

  // ----- eviction and cleanup --------------------------------------------------------------------

  predicate NoLater(a: Option<real>, b: Option<real>) {
    a.Some? && b.Some? && a.value <= b.value
  }

  /** What one eviction does to a registry in good order. */
  ghost predicate DropsOnlyOldest(b: Registry, after: Registry, victim: string) {
    victim in b.active &&
    (forall other :: other in b.active ==> NoLater(LastReturn(b.returned, victim), LastReturn(b.returned, other))) &&
    (forall other :: other in b.active && other != victim ==>
      other in after.active && after.active[other] == b.active[other]) &&
    victim !in after.active && b.active[victim] in after.disconnected
  }

  lemma BeforeCreateHolds(c: Config, r: Registry, id: string, luck: Luck)
    requires ConfigOk(c) && Inv(c, r) && BeforeCreate(c, r, id, luck).Some?
    ensures var b := BeforeCreate(c, r, id, luck).value;
      Inv(c, b) && id !in b.active && GetOrCreate(c, r, id, luck) == Create(c, b, id, luck)
  {
    hide Inv, Drop, Enter, Create;
    EnterKeeps(c, r, luck.now);
    DropKeeps(c, Enter(c, r, luck.now), {id});
    DropRemoves(Enter(c, r, luck.now), id);
  }

  lemma FullCreate(c: Config, b: Registry, id: string, luck: Luck)
    requires ConfigOk(c) && Inv(c, b) && |b.active| == c.maxCached && id !in b.active
    requires IsOldest(b.lastAccessed, luck.victim)
    ensures DropsOnlyOldest(b, Create(c, b, id, luck).0, luck.victim)
  {
    var victim := luck.victim;
    SomeStamp(b);
    forall other | other in b.active ensures NoLater(LastReturn(b.returned, victim), LastReturn(b.returned, other)) {
      assert other in b.lastAccessed;
    }
    assert b.active[victim] in InstancesOf(b.active, {victim});
  }

  /** A call that finds the cache full drops one entry, the one returned longest ago, and no other. */
  lemma EvictsLeastRecentlyReturned(c: Config, calls: seq<Call>, id: string, luck: Luck)
    requires ConfigOk(c) && LegalRun(c, calls) && Legal(c, Execute(c, calls), Get(id, luck))
    requires var b := BeforeCreate(c, Execute(c, calls), id, luck); b.Some? && |b.value.active| == c.maxCached
    ensures DropsOnlyOldest(BeforeCreate(c, Execute(c, calls), id, luck).value,
      GetOrCreate(c, Execute(c, calls), id, luck).0, luck.victim)
  {
    var r := Execute(c, calls);
    RegistryHolds(c, calls);
    BeforeCreateHolds(c, r, id, luck);
    var b := BeforeCreate(c, r, id, luck).value;
    SomeStamp(b);
    FullCreate(c, b, id, luck);
  }

  /** With a clock that advances between returns, earlier is earlier in the history. */
  ghost predicate StrictTimes(returned: seq<(string, real)>) {
    forall i, j :: 0 <= i < j < |returned| ==> returned[i].1 < returned[j].1
  }

  lemma {:induction false} LastReturnIndex(returned: seq<(string, real)>, id: string) returns (k: nat)
    requires LastReturn(returned, id).Some?
    ensures k < |returned| && returned[k] == (id, LastReturn(returned, id).value)
    ensures forall i :: k < i < |returned| ==> returned[i].0 != id
  {
    if returned[|returned| - 1].0 == id {
      k := |returned| - 1;
    } else {
      k := LastReturnIndex(returned[..|returned| - 1], id);
    }
  }

  /** The clock moves on between any two returns. */
  ghost predicate Ticking(c: Config, calls: seq<Call>)
    requires c.cleanupEvery >= 1
  {
    calls == [] ||
    (var before, call := calls[..|calls| - 1], calls[|calls| - 1];
     Ticking(c, before) && (call.Get? ==> Execute(c, before).clock < call.luck.later))
  }

  ghost predicate TimesOk(r: Registry) {
    StrictTimes(r.returned) && forall i :: 0 <= i < |r.returned| ==> r.returned[i].1 <= r.clock
  }

  ghost predicate SameTimes(r: Registry, after: Registry) {
    after.returned == r.returned && after.clock == r.clock
  }

  lemma DropTimes(r: Registry, ids: set<string>)
    ensures SameTimes(r, Drop(r, ids))
  {
  }

  lemma EnterTimes(c: Config, r: Registry, now: real)
    requires c.cleanupEvery >= 1
    ensures SameTimes(r.(clock := now), Enter(c, r, now))
  {
    hide Drop;
    var entered := r.(callCount := r.callCount + 1, clock := now);
    DropTimes(entered, StaleIds(entered, now - c.maxAge));
  }

  lemma CreateTimes(c: Config, r: Registry, id: string, luck: Luck)
    ensures var after := Create(c, r, id, luck).0;
      SameTimes(r, after) || (after.returned == r.returned + [(id, luck.later)] && after.clock == luck.later)
  {
    hide Drop;
    DropTimes(r, {luck.victim});
  }

  /** A call adds at most its own return to the history. */
  lemma CallReturns(c: Config, r: Registry, call: Call)
    requires c.cleanupEvery >= 1
    ensures var after := Do(c, r, call);
      match call
      case Get(id, luck) =>
        (after.returned == r.returned && after.clock == luck.now) ||
        (after.returned == r.returned + [(id, luck.later)] && after.clock == luck.later)
      case Remove(_, _) => after.returned == r.returned && after.clock == r.clock
  {
    hide Drop, Enter, Create;
    match call
    case Remove(id, _) => DropTimes(r, {id});
    case Get(id, luck) =>
      EnterTimes(c, r, luck.now);
      var e := Enter(c, r, luck.now);
      CreateTimes(c, e, id, luck);
      DropTimes(e, {id});
      CreateTimes(c, Drop(e, {id}), id, luck);
  }

  lemma {:induction false} TimesAscend(c: Config, calls: seq<Call>)
    requires ConfigOk(c) && LegalRun(c, calls) && Ticking(c, calls)
    ensures TimesOk(Execute(c, calls))
  {
    if calls != [] {
      var before, call := calls[..|calls| - 1], calls[|calls| - 1];
      TimesAscend(c, before);
      CallReturns(c, Execute(c, before), call);
    }
  }

  /** The ids in the order in which they were returned. */
  function ReturnedIds(r: Registry): (ids: seq<string>)
    ensures |ids| == |r.returned| && forall i :: 0 <= i < |ids| ==> ids[i] == r.returned[i].0
  {
    seq(|r.returned|, i requires 0 <= i < |r.returned| => r.returned[i].0)
  }

  lemma LastReturnIsLastUse(r: Registry, id: string)
    requires LastReturn(r.returned, id).Some?
    ensures id in ReturnedIds(r)
    ensures var k := Recency.LastUse(ReturnedIds(r), id); r.returned[k] == (id, LastReturn(r.returned, id).value)
  {
    var k := LastReturnIndex(r.returned, id);
    assert ReturnedIds(r)[k] == id;
  }

  lemma EarlierIsFurtherBack(r: Registry, victim: string, other: string)
    requires StrictTimes(r.returned) && victim != other
    requires NoLater(LastReturn(r.returned, victim), LastReturn(r.returned, other))
    ensures victim in ReturnedIds(r) && other in ReturnedIds(r)
    ensures Recency.LastUse(ReturnedIds(r), victim) < Recency.LastUse(ReturnedIds(r), other)
  {
    LastReturnIsLastUse(r, victim);
    LastReturnIsLastUse(r, other);
  }

  /** Of all the ids cached when a full cache makes room, the one dropped was returned furthest back. */
  ghost predicate DropsLeastRecent(b: Registry, after: Registry, victim: string) {
    victim in b.active && victim !in after.active && victim in ReturnedIds(b) &&
    forall other :: other in b.active && other != victim ==>
      other in after.active && other in ReturnedIds(b) &&
      Recency.LastUse(ReturnedIds(b), victim) < Recency.LastUse(ReturnedIds(b), other)
  }

  /** In every run whose clock moves on between returns, a full cache evicts the least recently used. */
  lemma EvictsLeastRecentlyUsed(c: Config, calls: seq<Call>, id: string, luck: Luck)
    requires ConfigOk(c) && LegalRun(c, calls) && Legal(c, Execute(c, calls), Get(id, luck)) && Ticking(c, calls)
    requires var b := BeforeCreate(c, Execute(c, calls), id, luck); b.Some? && |b.value.active| == c.maxCached
    ensures var r := Execute(c, calls); var b := BeforeCreate(c, r, id, luck).value;
      b.returned == r.returned && DropsLeastRecent(b, GetOrCreate(c, r, id, luck).0, luck.victim)
  {
    hide LegalRun, Ticking, Legal, GetOrCreate, LastReturn, Execute;
    var r := Execute(c, calls);
    var b := BeforeCreate(c, r, id, luck).value;
    EvictsLeastRecentlyReturned(c, calls, id, luck);
    TimesAscend(c, calls);
    SameHistory(c, r, id, luck);
    var victim := luck.victim;
    forall other | other in b.active && other != victim
      ensures victim in ReturnedIds(b) && other in ReturnedIds(b) &&
              Recency.LastUse(ReturnedIds(b), victim) < Recency.LastUse(ReturnedIds(b), other)
    {
      EarlierIsFurtherBack(b, victim, other);
    }
    LastReturnIsLastUse(b, victim);
  }

  lemma SameHistory(c: Config, r: Registry, id: string, luck: Luck)
    requires c.cleanupEvery >= 1
    ensures var b := BeforeCreate(c, r, id, luck); b.Some? ==> b.value.returned == r.returned
  {
    hide Drop, Enter;
    EnterTimes(c, r, luck.now);
    DropTimes(Enter(c, r, luck.now), {id});
  }

  /** Cleanup removes exactly the ids not returned for maxAge. */
  lemma CleanupRemovesStale(c: Config, calls: seq<Call>, now: real, id: string)
    requires ConfigOk(c) && LegalRun(c, calls)
    ensures var r := Execute(c, calls);
      id in r.active ==>
        (LastReturn(r.returned, id).Some? &&
         (id !in Cleanup(c, r, now).active <==> LastReturn(r.returned, id).value < now - c.maxAge))
  {
    RegistryHolds(c, calls);
  }

  lemma DropNone(r: Registry)
    ensures Drop(r, {}) == r
  {
    assert r.active - {} == r.active && r.lastAccessed - {} == r.lastAccessed;
    assert InstancesOf(r.active, {}) == {};
  }

  lemma DropMore(r: Registry, gone: set<string>, id: string)
    requires id !in gone
    ensures Drop(Drop(r, gone), {id}) == Drop(r, gone + {id})
  {
    assert r.active - gone - {id} == r.active - (gone + {id});
    assert r.lastAccessed - gone - {id} == r.lastAccessed - (gone + {id});
    var both, first, second := InstancesOf(r.active, gone + {id}), InstancesOf(r.active, gone), InstancesOf(r.active - gone, {id});
    forall i ensures i in both <==> i in first || i in second {
      if i in both {
        var k :| k in gone + {id} && k in r.active && r.active[k] == i;
      }
    }
  }

  // ----- the module itself ----------------------------------------------------------------------------

  class Connectors {
    var active: map<string, nat>
    var lastAccessed: map<string, real>
    var callCount: nat
    var unused: nat
    ghost var connected: set<nat>
    ghost var disconnected: set<nat>
    ghost var returned: seq<(string, real)>
    ghost var clock: real
    const config: Config

    ghost function Now(): Registry
      reads this
    {
      Registry(active, lastAccessed, callCount, unused, connected, disconnected, returned, clock)
    }

    constructor (config: Config)
      ensures this.config == config && Now() == EMPTY
    {
      this.config := config;
      active, lastAccessed, callCount := map[], map[], 0;
      unused, connected, disconnected, returned, clock := 0, {}, {}, [], 0.0;
    }

    /** min(_last_accessed, key=...) */
    method OldestId() returns (id: string)
      requires lastAccessed != map[]
      ensures IsOldest(lastAccessed, id)
    {
      var left := lastAccessed.Keys;
      id :| id in left;
      left := left - {id};
      while left != {}
        invariant left <= lastAccessed.Keys && id in lastAccessed
        invariant forall k :: k in lastAccessed && k !in left ==> lastAccessed[id] <= lastAccessed[k]
        decreases |left|
      {
        var k :| k in left;
        if lastAccessed[k] < lastAccessed[id] {
          id := k;
        }
        left := left - {k};
      }
    }

    /** _evict_lru; a failing disconnect is logged and swallowed. */
    method EvictLru() returns (ghost victim: string)
      modifies this
      ensures old(lastAccessed) != map[] ==> IsOldest(old(lastAccessed), victim)
      ensures Now() == Evict(old(Now()), victim)
    {
      victim := "";
      if lastAccessed == map[] {
        return;
      }
      var lruId := OldestId();
      victim := lruId;
      disconnected := disconnected + InstancesOf(active, {lruId});
      active, lastAccessed := active - {lruId}, lastAccessed - {lruId};
    }

    /** cleanup_stale_connectors */
    method CleanupStale(now: real)
      modifies this
      ensures Now() == Cleanup(config, old(Now()), now)
    {
      hide Drop;
      var stale := set id | id in lastAccessed && lastAccessed[id] < now - config.maxAge;
      var left := stale;
      ghost var gone: set<string> := {};
      DropNone(Now());
      while left != {}
        invariant left == stale - gone && gone <= stale
        invariant Now() == Drop(old(Now()), gone)
        decreases |left|
      {
        var id :| id in left;
        DropMore(old(Now()), gone, id);
        PopOne(id);
        left := left - {id};
        gone := gone + {id};
      }
      assert gone == stale;
    }

    /** Pop both entries and disconnect. */
    method PopOne(id: string)
      modifies this
      ensures Now() == Drop(old(Now()), {id})
    {
      disconnected := disconnected + InstancesOf(active, {id});
      active, lastAccessed := active - {id}, lastAccessed - {id};
    }

    method EnterCall(now: real)
      requires config.cleanupEvery >= 1
      modifies this
      ensures Now() == Enter(config, old(Now()), now)
    {
      callCount := callCount + 1;
      clock := now;
      if callCount % config.cleanupEvery == 0 {
        CleanupStale(now);
      }
    }

    method CreateConnector(id: string, luck: Luck) returns (connector: Option<nat>, ghost victim: string)
      modifies this
      ensures (Now(), connector) == Create(config, old(Now()), id, luck.(victim := victim))
      ensures |old(active)| >= config.maxCached && old(lastAccessed) != map[] ==> IsOldest(old(lastAccessed), victim)
    {
      hide Drop;
      victim := "";
      if |active| >= config.maxCached {
        victim := EvictLru();
      }
      if !luck.known {
        return None, victim;
      }
      var instance := unused;
      unused := unused + 1;
      if !luck.connects {
        return None, victim;
      }
      connected := connected + {instance};
      active := active[id := instance];
      lastAccessed := lastAccessed[id := luck.later];
      returned, clock := returned + [(id, luck.later)], luck.later;
      return Some(instance), victim;
    }

    /** get_or_create_connector; the victim of an eviction is the one min() picks. */
    method GetOrCreateConnector(id: string, luck: Luck) returns (connector: Option<nat>, ghost victim: string)
      requires config.cleanupEvery >= 1
      modifies this
      ensures (Now(), connector) == GetOrCreate(config, old(Now()), id, luck.(victim := victim))
      ensures var b := BeforeCreate(config, old(Now()), id, luck);
        b.Some? && |b.value.active| >= config.maxCached && b.value.lastAccessed != map[] ==>
          IsOldest(b.value.lastAccessed, victim)
    {
      hide Enter, Create, Drop, IsOldest;
      victim := "";
      EnterCall(luck.now);
      if id in active {
        connector := Some(active[id]);
        if luck.probe.Alive? {
          lastAccessed := lastAccessed[id := luck.later];
          returned, clock := returned + [(id, luck.later)], luck.later;
          return connector, victim;
        }
        if luck.probe.ProbeRaises? {
          return None, victim;
        }
        if !luck.disconnects {
          disconnected := disconnected + {active[id]};
          return None, victim;
        }
        PopOne(id);
      }
      connector, victim := CreateConnector(id, luck);
    }

    /** remove_connector; a failing disconnect is raised with the entry still in place. */
    method RemoveById(id: string, disconnects: bool)
      modifies this
      ensures Now() == RemoveConnector(old(Now()), id, disconnects)
    {
      if id in active {
        disconnected := disconnected + {active[id]};
        if disconnects {
          assert InstancesOf(active, {id}) == {active[id]};
          active, lastAccessed := active - {id}, lastAccessed - {id};
        }
      }
    }
  }
}
