/** What one call of backend/app/connectors/connector_registry.py returns and leaves behind, read off the
    dictionaries before it and the outside events alone. */
module ConnectorOutcome {
  import opened Options
  import opened ConnectorRegistry

  /** This call cleans up, and the id was not returned for longer than the maximum age. */
  ghost predicate Expires(c: Config, r: Registry, now: real, id: string)
    requires c.cleanupEvery >= 1
  {
    (r.callCount + 1) % c.cleanupEvery == 0 &&
    id in r.active && LastReturn(r.returned, id).Some? && LastReturn(r.returned, id).value < now - c.maxAge
  }

  /** The call finds a connector under its id. */
  ghost predicate Finds(c: Config, r: Registry, id: string, luck: Luck)
    requires c.cleanupEvery >= 1
  {
    id in r.active && !Expires(c, r, luck.now, id)
  }

  /** It comes to making a new one: nothing found, or what was found is dead and disconnects. */
  ghost predicate Makes(c: Config, r: Registry, id: string, luck: Luck)
    requires c.cleanupEvery >= 1
  {
    Finds(c, r, id, luck) ==> luck.probe.Dead? && luck.disconnects
  }

  /** The other ids that stay after cleaning up. */
  ghost function OthersLeft(c: Config, r: Registry, id: string, now: real): set<string>
    requires c.cleanupEvery >= 1
  {
    set other | other in r.active && other != id && !Expires(c, r, now, other)
  }

  /** The entry goes to make room. */
  ghost predicate MakesRoom(c: Config, r: Registry, id: string, luck: Luck, other: string)
    requires c.cleanupEvery >= 1
  {
    Makes(c, r, id, luck) && |OthersLeft(c, r, id, luck.now)| >= c.maxCached && other == luck.victim
  }

  /** The id is cached with one instance and one timestamp in both. */
  ghost predicate SameEntry(r: Registry, after: Registry, id: string) {
    id in r.active && id in after.active && after.active[id] == r.active[id] &&
    id in r.lastAccessed && id in after.lastAccessed && after.lastAccessed[id] == r.lastAccessed[id]
  }

  lemma EnterIs(c: Config, r: Registry, id: string, now: real)
    requires ConfigOk(c) && Inv(c, r)
    ensures var e := Enter(c, r, now);
      (id in e.active <==> id in r.active && !Expires(c, r, now, id)) &&
      (id in e.active ==> e.active[id] == r.active[id]) &&
      (id in e.lastAccessed ==> id in r.active && e.lastAccessed[id] == r.lastAccessed[id]) &&
      e.unused == r.unused && e.connected == r.connected && e.callCount == r.callCount + 1 && e.returned == r.returned
  {
  }

  lemma DropTells(r: Registry, ids: set<string>, i: nat)
    ensures i in Drop(r, ids).disconnected <==>
      i in r.disconnected || exists id :: id in ids && id in r.active && r.active[id] == i
  {
  }

  lemma EnterTells(c: Config, r: Registry, now: real, i: nat)
    requires ConfigOk(c) && Inv(c, r)
    ensures i in Enter(c, r, now).disconnected <==>
      i in r.disconnected || exists id :: Expires(c, r, now, id) && r.active[id] == i
  {
    if (r.callCount + 1) % c.cleanupEvery == 0 {
      ExpiredAreStale(c, r, now);
      EnterDrops(c, r, now);
      hide Inv, Expires, StaleIds, Drop, Enter;
      DropTells(r, StaleIds(r, now - c.maxAge), i);
    }
  }

  lemma EnterDrops(c: Config, r: Registry, now: real)
    requires c.cleanupEvery >= 1 && (r.callCount + 1) % c.cleanupEvery == 0
    ensures Enter(c, r, now).disconnected == Drop(r, StaleIds(r, now - c.maxAge)).disconnected
  {
    hide StaleIds;
    SameStale(r, r.(callCount := r.callCount + 1, clock := now), now - c.maxAge);
  }

  lemma SameStale(r: Registry, s: Registry, cutoff: real)
    requires s.lastAccessed == r.lastAccessed
    ensures StaleIds(s, cutoff) == StaleIds(r, cutoff)
  {
  }

  lemma ExpiredAreStale(c: Config, r: Registry, now: real)
    requires ConfigOk(c) && Inv(c, r) && (r.callCount + 1) % c.cleanupEvery == 0
    ensures forall id :: Expires(c, r, now, id) <==> id in StaleIds(r, now - c.maxAge) && id in r.active
  {
  }

  /** The instance returned: the one found when it answers, a new number when one is made and the type is
      known and connects, and otherwise none; what is returned is cached under the id, logged, and stamped. */
  lemma ReturnsExactly(c: Config, calls: seq<Call>, id: string, luck: Luck)
    requires c.maxCached >= 1 && c.cleanupEvery >= 1 && LegalRun(c, calls)
    ensures var r := Execute(c, calls);
      var (after, v) := GetOrCreate(c, r, id, luck);
      v == (if Finds(c, r, id, luck) && luck.probe.Alive? then Some(r.active[id])
            else if Makes(c, r, id, luck) && luck.known && luck.connects then Some(r.unused)
            else None) &&
      r.unused !in r.connected &&
      after.connected == r.connected + (if v == Some(r.unused) then {r.unused} else {}) &&
      (v.Some? ==> id in after.active && after.active[id] == v.value && after.lastAccessed[id] == luck.later) &&
      after.returned == r.returned + (if v.Some? then [(id, luck.later)] else []) &&
      after.callCount == r.callCount + 1
  {
    hide Execute, LegalRun, Enter, LastReturn, Drop, Create, Expires, Inv;
    var r := Execute(c, calls);
    RegistryHolds(c, calls);
    EnterIs(c, r, id, luck.now);
    assert r.returned + [] == r.returned;
    assert r.connected + {} == r.connected;
    var e := Enter(c, r, luck.now);
    MadeIs(c, e, id, luck);
    DropKeepsRest(e, id);
    MadeIs(c, Drop(e, {id}), id, luck);
    InUse(c, r);
  }

  lemma InUse(c: Config, r: Registry)
    requires Inv(c, r)
    ensures r.unused !in r.connected
    ensures forall id :: id in r.active ==> r.active[id] < r.unused
  {
  }

  lemma DropKeepsRest(r: Registry, id: string)
    ensures var d := Drop(r, {id});
      d.unused == r.unused && d.connected == r.connected && d.returned == r.returned && d.callCount == r.callCount
  {
  }

  lemma MadeIs(c: Config, b: Registry, id: string, luck: Luck)
    ensures var (after, v) := Create(c, b, id, luck);
      v == (if luck.known && luck.connects then Some(b.unused) else None) &&
      after.connected == b.connected + (if v.Some? then {b.unused} else {}) &&
      (v.Some? ==> id in after.active && after.active[id] == v.value && after.lastAccessed[id] == luck.later) &&
      after.returned == b.returned + (if v.Some? then [(id, luck.later)] else []) &&
      after.callCount == b.callCount
  {
    assert b.returned + [] == b.returned;
    assert b.connected + {} == b.connected;
  }

  /** Every other entry stays as it is unless it expires or makes room, and nothing else appears; the
      call's own id is cached afterwards unless a new connector was to be made and could not be. */
  lemma OthersStay(c: Config, calls: seq<Call>, id: string, luck: Luck, other: string)
    requires c.maxCached >= 1 && c.cleanupEvery >= 1 && LegalRun(c, calls) &&
      Legal(c, Execute(c, calls), Get(id, luck)) && other != id
    ensures var r := Execute(c, calls);
      var after := GetOrCreate(c, r, id, luck).0;
      (other in after.active <==>
        other in r.active && !Expires(c, r, luck.now, other) && !MakesRoom(c, r, id, luck, other)) &&
      (other in after.active ==> SameEntry(r, after, other)) &&
      (id in after.active <==> (Makes(c, r, id, luck) ==> luck.known && luck.connects))
  {
    hide Execute, LegalRun, Enter, Legal, Create, Inv, Expires, Drop, GetOrCreate, BeforeCreate;
    var r := Execute(c, calls);
    RegistryHolds(c, calls);
    EnterIs(c, r, id, luck.now);
    EnterIs(c, r, other, luck.now);
    StillStamped(c, r, luck.now);
    CapacityIs(c, r, id, luck);
    if !Makes(c, r, id, luck) {
      FoundKeeps(c, r, id, luck);
    } else {
      var b := BeforeCreate(c, r, id, luck).value;
      BeforeCreateHolds(c, r, id, luck);
      VictimIsOldest(c, r, id, luck);
      BeforeIs(c, r, id, luck, other);
      CreateOthers(c, b, id, luck, other);
    }
  }

  lemma BeforeIs(c: Config, r: Registry, id: string, luck: Luck, other: string)
    requires c.cleanupEvery >= 1 && BeforeCreate(c, r, id, luck).Some? && other != id
    ensures var e, b := Enter(c, r, luck.now), BeforeCreate(c, r, id, luck).value;
      (other in b.active <==> other in e.active) && (other in b.lastAccessed <==> other in e.lastAccessed) &&
      (other in b.active ==> b.active[other] == e.active[other]) &&
      (other in b.lastAccessed ==> b.lastAccessed[other] == e.lastAccessed[other])
  {
    hide Enter;
  }

  lemma FoundKeeps(c: Config, r: Registry, id: string, luck: Luck)
    requires ConfigOk(c) && Inv(c, r) && !Makes(c, r, id, luck)
    ensures var e, after := Enter(c, r, luck.now), GetOrCreate(c, r, id, luck).0;
      after.active == e.active &&
      (after.lastAccessed == e.lastAccessed || after.lastAccessed == e.lastAccessed[id := luck.later])
  {
    hide Enter, Create, Inv, Expires;
    EnterIs(c, r, id, luck.now);
  }

  lemma VictimIsOldest(c: Config, r: Registry, id: string, luck: Luck)
    requires c.cleanupEvery >= 1 && Legal(c, r, Get(id, luck)) && BeforeCreate(c, r, id, luck).Some?
    ensures var b := BeforeCreate(c, r, id, luck).value; b.lastAccessed != map[] ==> IsOldest(b.lastAccessed, luck.victim)
  {
  }

  lemma CreateOthers(c: Config, b: Registry, id: string, luck: Luck, other: string)
    requires ConfigOk(c) && Inv(c, b) && id !in b.active && other != id
    requires b.lastAccessed != map[] ==> IsOldest(b.lastAccessed, luck.victim)
    ensures var after := Create(c, b, id, luck).0;
      (other in after.active <==> other in b.active && !(|b.active| >= c.maxCached && other == luck.victim)) &&
      (other in after.active ==> SameEntry(b, after, other)) &&
      (id in after.active <==> luck.known && luck.connects)
  {
    hide NothingLost, StampsTell;
    if |b.active| >= c.maxCached {
      SomeStamp(b);
    }
  }

  lemma StillStamped(c: Config, r: Registry, now: real)
    requires ConfigOk(c) && Inv(c, r)
    ensures SameKeys(Enter(c, r, now)) && SameKeys(r)
  {
    EnterKeeps(c, r, now);
  }

  /** The capacity check counts the other ids left. */
  lemma CapacityIs(c: Config, r: Registry, id: string, luck: Luck)
    requires ConfigOk(c) && Inv(c, r)
    ensures var b := BeforeCreate(c, r, id, luck);
      (b.Some? <==> Makes(c, r, id, luck)) &&
      (b.Some? ==> b.value.active.Keys == OthersLeft(c, r, id, luck.now)) &&
      (b.Some? ==> |b.value.active| == |OthersLeft(c, r, id, luck.now)|)
  {
    hide Enter, Expires, Inv;
    EnterIs(c, r, id, luck.now);
    var b := BeforeCreate(c, r, id, luck);
    if b.Some? {
      forall other ensures other in b.value.active.Keys <==> other in OthersLeft(c, r, id, luck.now) {
        EnterIs(c, r, other, luck.now);
      }
      assert b.value.active.Keys == OthersLeft(c, r, id, luck.now);
      assert |b.value.active| == |b.value.active.Keys|;
    }
  }

  /** Told to disconnect are the instances of the entries that expire or make room, and the one found dead. */
  lemma TellsExactly(c: Config, calls: seq<Call>, id: string, luck: Luck, i: nat)
    requires c.maxCached >= 1 && c.cleanupEvery >= 1 && LegalRun(c, calls) && Legal(c, Execute(c, calls), Get(id, luck))
    ensures var r := Execute(c, calls);
      i in GetOrCreate(c, r, id, luck).0.disconnected <==>
        i in r.disconnected ||
        (exists other :: Expires(c, r, luck.now, other) && r.active[other] == i) ||
        (Finds(c, r, id, luck) && luck.probe.Dead? && r.active[id] == i) ||
        (luck.victim in OthersLeft(c, r, id, luck.now) && MakesRoom(c, r, id, luck, luck.victim) && r.active[luck.victim] == i)
  {
    hide Execute, LegalRun, Enter, Legal, Create, Inv, Expires;
    var r := Execute(c, calls);
    RegistryHolds(c, calls);
    EnterIs(c, r, id, luck.now);
    EnterIs(c, r, luck.victim, luck.now);
    EnterTells(c, r, luck.now, i);
    CapacityIs(c, r, id, luck);
    var e := Enter(c, r, luck.now);
    if id in e.active {
      assert InstancesOf(e.active, {id}) == {e.active[id]};
    }
    if Makes(c, r, id, luck) {
      var b := BeforeCreate(c, r, id, luck).value;
      BeforeCreateHolds(c, r, id, luck);
      VictimIsOldest(c, r, id, luck);
      CreateTells(c, b, id, luck);
      assert luck.victim in b.active.Keys <==> luck.victim in OthersLeft(c, r, id, luck.now);
    }
  }

  lemma CreateTells(c: Config, b: Registry, id: string, luck: Luck)
    requires ConfigOk(c) && Inv(c, b)
    requires b.lastAccessed != map[] ==> IsOldest(b.lastAccessed, luck.victim)
    ensures |b.active| >= c.maxCached ==> luck.victim in b.active
    ensures Create(c, b, id, luck).0.disconnected ==
      if |b.active| >= c.maxCached then b.disconnected + {b.active[luck.victim]} else b.disconnected
  {
    hide NothingLost, StampsTell;
    if |b.active| >= c.maxCached {
      SomeStamp(b);
      assert InstancesOf(b.active, {luck.victim}) == {b.active[luck.victim]};
    }
  }

  /** A removal tells the instance cached under the id, and takes the entry away exactly when that
      disconnects; no other entry changes and nothing is connected, counted or returned. */
  lemma RemovesExactly(c: Config, r: Registry, id: string, disconnects: bool, other: string)
    requires Inv(c, r)
    ensures var after := RemoveConnector(r, id, disconnects);
      (other in after.active <==> other in r.active && !(other == id && disconnects)) &&
      (other in after.active ==> SameEntry(r, after, other)) &&
      (forall i :: i in after.disconnected <==> i in r.disconnected || (id in r.active && r.active[id] == i)) &&
      after.connected == r.connected && after.unused == r.unused && after.returned == r.returned &&
      after.callCount == r.callCount
  {
    hide NothingLost, StampsTell;
    if id in r.active {
      assert InstancesOf(r.active, {id}) == {r.active[id]};
    }
  }
}
