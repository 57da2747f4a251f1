/** The two-tier embedding cache of backend/app/services/embedding_service.py: an ordered
    dictionary per process in front of Redis in front of the provider. */
module EmbeddingLru {
  import opened Options
  import opened Recency

  type Vector = seq<real>

  /** The OrderedDict: its keys in order, and its values. */
  datatype Lru = Lru(order: seq<string>, vectors: map<string, Vector>)

  const EMPTY := Lru([], map[])

  ghost predicate Sound(c: Lru, cap: nat) {
    NoDups(c.order) && |c.order| <= cap && forall k :: k in c.vectors <==> k in c.order
  }

  function MoveToEnd(c: Lru, k: string): Lru {
    c.(order := Without(c.order, k) + [k])
  }

  /** Assignment keeps the place of a key that is already there; popitem(last=False) after it. */
  function Store(c: Lru, k: string, v: Vector, cap: nat): Lru {
    var order := if k in c.vectors then c.order else c.order + [k];
    if |order| > cap then Lru(order[1..], c.vectors[k := v] - {order[0]}) else Lru(order, c.vectors[k := v])
  }

  lemma PopOldest(order: seq<string>)
    requires NoDups(order) && order != []
    ensures NoDups(order[1..]) && forall x :: x in order[1..] <==> x in order && x != order[0]
  {
    assert order == [order[0]] + order[1..];
  }

  lemma AppendNew(order: seq<string>, k: string)
    requires NoDups(order) && k !in order
    ensures NoDups(order + [k]) && forall x :: x in order + [k] <==> x in order || x == k
  {
  }

  lemma StoreSound(c: Lru, k: string, v: Vector, cap: nat)
    requires Sound(c, cap)
    ensures Sound(Store(c, k, v, cap), cap)
  {
    hide NoDups;
    if k !in c.vectors {
      AppendNew(c.order, k);
      if |c.order + [k]| > cap {
        PopOldest(c.order + [k]);
      }
    }
  }

  lemma StoreOrder(c: Lru, k: string, v: Vector, cap: nat)
    requires |c.order| <= cap && k !in c.vectors
    ensures Store(c, k, v, cap).order == LastOf(c.order + [k], cap)
  {
  }

  lemma StoreValues(c: Lru, k: string, v: Vector, cap: nat, x: string)
    requires x in Store(c, k, v, cap).vectors
    ensures x == k || x in c.vectors
    ensures Store(c, k, v, cap).vectors[x] == if x == k then v else c.vectors[x]
  {
  }

  lemma MoveToEndSound(c: Lru, k: string, cap: nat)
    requires Sound(c, cap) && k in c.vectors
    ensures Sound(MoveToEnd(c, k), cap)
  {
    WithoutNoDups(c.order, k);
    forall x ensures x in MoveToEnd(c, k).order <==> x in c.order {
      WithoutMember(c.order, k, x);
    }
  }

  // ----- one call at a time -------------------------------------------------------------------

  /** One embed_text call, and what Redis or the provider offers when it misses. */
  datatype Call = Call(text: string, offered: Option<Vector>)

  function Embed(hash: string -> string, cap: nat, c: Lru, call: Call): (Lru, Option<Vector>) {
    var k := hash(call.text);
    if k in c.vectors then (MoveToEnd(c, k), Some(c.vectors[k]))
    else if call.offered.None? then (c, None)
    else (Store(c, k, call.offered.value, cap), call.offered)
  }

  function Run(hash: string -> string, cap: nat, calls: seq<Call>): Lru {
    if calls == [] then EMPTY
    else Embed(hash, cap, Run(hash, cap, calls[..|calls| - 1]), calls[|calls| - 1]).0
  }

  /** The keys of the calls that returned a vector, in order. */
  function Served(hash: string -> string, cap: nat, calls: seq<Call>): seq<string> {
    if calls == [] then []
    else
      var before, call := calls[..|calls| - 1], calls[|calls| - 1];
      Served(hash, cap, before) + (if Embed(hash, cap, Run(hash, cap, before), call).1.Some? then [hash(call.text)] else [])
  }

  lemma ServedOnce(history: seq<string>, k: string)
    ensures ByLastUse(history + [k]) == Without(ByLastUse(history), k) + [k]
  {
    assert (history + [k])[..|history|] == history;
  }

  /** The dictionary always holds the last distinct keys that were served, in order of last use. */
  lemma {:induction false} SequentialIsLru(hash: string -> string, cap: nat, calls: seq<Call>)
    ensures Sound(Run(hash, cap, calls), cap)
    ensures Run(hash, cap, calls).order == LastOf(ByLastUse(Served(hash, cap, calls)), cap)
  {
    if calls == [] {
      assert Sound(EMPTY, cap);
    } else {
      hide ByLastUse, LastOf, Store;
      var before, call := calls[..|calls| - 1], calls[|calls| - 1];
      var c, history, k := Run(hash, cap, before), Served(hash, cap, before), hash(call.text);
      SequentialIsLru(hash, cap, before);
      ByLastUseHolds(history);
      ServedOnce(history, k);
      if k in c.vectors {
        MoveToEndSound(c, k, cap);
        BoundedHit(ByLastUse(history), cap, k);
      } else if call.offered.Some? {
        StoreSound(c, k, call.offered.value, cap);
        StoreOrder(c, k, call.offered.value, cap);
        BoundedMiss(ByLastUse(history), cap, k);
      } else {
        assert history + [] == history;
      }
    }
  }

  lemma LastOfMember(r: seq<string>, n: nat, k: string)
    ensures k in LastOf(r, n) ==> k in r
  {
  }

  /** A key is in memory exactly when it was served and fewer than the capacity of other keys
      have been served since. */
  lemma CachedExactlyWhenRecent(hash: string -> string, cap: nat, calls: seq<Call>, k: string)
    ensures var served := Served(hash, cap, calls);
      k in Run(hash, cap, calls).vectors <==> k in served && |UsedSince(served, k)| < cap
  {
    hide ByLastUse, LastOf, UsedSince, Run;
    var served := Served(hash, cap, calls);
    SequentialIsLru(hash, cap, calls);
    ByLastUseHolds(served);
    LastOfMember(ByLastUse(served), cap, k);
    if k in served {
      AmongLast(served, cap, k);
    }
  }

  // ----- any number of calls at once --------------------------------------------------------------

  /** The key function, the provider, and the capacity. */
  datatype World = World(hash: string -> string, vectorOf: string -> Vector, cap: nat)

  datatype Phase =
    | Arrived
    | AtRedis
    | AtProvider
    | WritingBack(vector: Vector)
    | Returned(vector: Vector)
    | Raised

  datatype Task = Task(text: string, phase: Phase)

  datatype State = State(memory: Lru, redis: map<string, Vector>, tasks: seq<Task>)

  /** What a call runs between two awaits; entries of Redis may also vanish at any time, and
      other workers write their own. */
  datatype Step =
    | Arrive(text: string)
    | LookUp(i: nat)
    | RedisAnswers(i: nat, reachable: bool)
    | ProviderAnswers(i: nat, ok: bool)
    | WriteBack(i: nat, reachable: bool)
    | Vanish(key: string)
    | OtherWorker(text: string)

  const START := State(EMPTY, map[], [])

  function Become(s: State, i: nat, phase: Phase): State
    requires i < |s.tasks|
  {
    s.(tasks := s.tasks[i := s.tasks[i].(phase := phase)])
  }

  function Do(w: World, s: State, step: Step): State {
    match step
    case Arrive(text) => s.(tasks := s.tasks + [Task(text, Arrived)])
    case Vanish(key) => s.(redis := s.redis - {key})
    case OtherWorker(text) => s.(redis := s.redis[w.hash(text) := w.vectorOf(text)])
    case LookUp(i) =>
      if i >= |s.tasks| || !s.tasks[i].phase.Arrived? then s
      else
        var k := w.hash(s.tasks[i].text);
        if k in s.memory.vectors then
          Become(s, i, Returned(s.memory.vectors[k])).(memory := MoveToEnd(s.memory, k))
        else Become(s, i, AtRedis)
    case RedisAnswers(i, reachable) =>
      if i >= |s.tasks| || !s.tasks[i].phase.AtRedis? then s
      else
        var k := w.hash(s.tasks[i].text);
        if reachable && k in s.redis then
          Become(s, i, Returned(s.redis[k])).(memory := Store(s.memory, k, s.redis[k], w.cap))
        else Become(s, i, AtProvider)
    case ProviderAnswers(i, ok) =>
      if i >= |s.tasks| || !s.tasks[i].phase.AtProvider? then s
      else if !ok then Become(s, i, Raised)
      else
        var k, v := w.hash(s.tasks[i].text), w.vectorOf(s.tasks[i].text);
        Become(s, i, WritingBack(v)).(memory := Store(s.memory, k, v, w.cap))
    case WriteBack(i, reachable) =>
      if i >= |s.tasks| || !s.tasks[i].phase.WritingBack? then s
      else
        var k, v := w.hash(s.tasks[i].text), s.tasks[i].phase.vector;
        Become(s, i, Returned(v)).(redis := if reachable then s.redis[k := v] else s.redis)
  }

  function Execute(w: World, steps: seq<Step>): State {
    if steps == [] then START else Do(w, Execute(w, steps[..|steps| - 1]), steps[|steps| - 1])
  }

  /** Texts with one key have one vector: true of an injective hash. */
  ghost predicate HashSound(w: World) {
    forall t, u :: w.hash(t) == w.hash(u) ==> w.vectorOf(t) == w.vectorOf(u)
  }

  /** Some text with this key has this vector. */
  ghost predicate Provided(w: World, k: string, v: Vector) {
    exists t :: w.hash(t) == k && w.vectorOf(t) == v
  }

  ghost predicate TaskRight(w: World, t: Task) {
    t.phase.WritingBack? || t.phase.Returned? ==> Provided(w, w.hash(t.text), t.phase.vector)
  }

  ghost predicate Inv(w: World, s: State) {
    Sound(s.memory, w.cap) &&
    (forall k :: k in s.memory.vectors ==> Provided(w, k, s.memory.vectors[k])) &&
    (forall k :: k in s.redis ==> Provided(w, k, s.redis[k])) &&
    forall i :: 0 <= i < |s.tasks| ==> TaskRight(w, s.tasks[i])
  }

  lemma StepKeeps(w: World, s: State, step: Step)
    requires Inv(w, s)
    ensures Inv(w, Do(w, s, step))
  {
    hide Sound, Store, MoveToEnd;
    match step
    case LookUp(i) =>
      if i < |s.tasks| && w.hash(s.tasks[i].text) in s.memory.vectors {
        MoveKeeps(w, s.memory, w.hash(s.tasks[i].text));
      }
    case RedisAnswers(i, _) =>
      if i < |s.tasks| && w.hash(s.tasks[i].text) in s.redis {
        StoreKeeps(w, s.memory, w.hash(s.tasks[i].text), s.redis[w.hash(s.tasks[i].text)]);
      }
    case ProviderAnswers(i, _) =>
      if i < |s.tasks| {
        var t := s.tasks[i].text;
        assert Provided(w, w.hash(t), w.vectorOf(t));
        StoreKeeps(w, s.memory, w.hash(t), w.vectorOf(t));
      }
    case OtherWorker(text) => assert Provided(w, w.hash(text), w.vectorOf(text));
    case Arrive(_) =>
    case Vanish(_) =>
    case WriteBack(i, _) =>
      if i < |s.tasks| {
        assert TaskRight(w, s.tasks[i]);
      }
  }

  ghost predicate MemoryRight(w: World, c: Lru) {
    Sound(c, w.cap) && forall k :: k in c.vectors ==> Provided(w, k, c.vectors[k])
  }

  lemma StoreKeeps(w: World, c: Lru, k: string, v: Vector)
    requires MemoryRight(w, c) && Provided(w, k, v)
    ensures MemoryRight(w, Store(c, k, v, w.cap))
  {
    hide Store, Sound, Provided;
    StoreSound(c, k, v, w.cap);
    forall x | x in Store(c, k, v, w.cap).vectors ensures Provided(w, x, Store(c, k, v, w.cap).vectors[x]) {
      StoreValues(c, k, v, w.cap, x);
    }
  }

  lemma MoveKeeps(w: World, c: Lru, k: string)
    requires MemoryRight(w, c) && k in c.vectors
    ensures MemoryRight(w, MoveToEnd(c, k))
  {
    hide Sound, Provided;
    MoveToEndSound(c, k, w.cap);
  }

  lemma {:induction false} RunKeeps(w: World, steps: seq<Step>)
    ensures Inv(w, Execute(w, steps))
  {
    if steps == [] {
      assert Sound(EMPTY, w.cap);
    } else {
      RunKeeps(w, steps[..|steps| - 1]);
      StepKeeps(w, Execute(w, steps[..|steps| - 1]), steps[|steps| - 1]);
    }
  }

  /** Under every interleaving the dictionary stays within its capacity, without duplicates. */
  lemma SizeBounded(w: World, steps: seq<Step>)
    ensures Sound(Execute(w, steps).memory, w.cap)
  {
    RunKeeps(w, steps);
  }

  ghost predicate RightAt(w: World, s: State) {
    forall i :: 0 <= i < |s.tasks| && s.tasks[i].phase.Returned? ==> s.tasks[i].phase.vector == w.vectorOf(s.tasks[i].text)
  }

  /** Every vector ever returned is the provider's for the text asked. */
  ghost predicate AlwaysRight(w: World) {
    forall steps :: RightAt(w, Execute(w, steps))
  }

  lemma HashSoundIsRight(w: World, steps: seq<Step>)
    requires HashSound(w)
    ensures RightAt(w, Execute(w, steps))
  {
    RunKeeps(w, steps);
    var s := Execute(w, steps);
    forall i | 0 <= i < |s.tasks| && s.tasks[i].phase.Returned?
      ensures s.tasks[i].phase.vector == w.vectorOf(s.tasks[i].text)
    {
      assert TaskRight(w, s.tasks[i]);
    }
  }

  // ----- two runs, step by step ------------------------------------------------------------------

  lemma Extend(w: World, steps: seq<Step>, step: Step)
    ensures Execute(w, steps + [step]) == Do(w, Execute(w, steps), step)
  {
    assert (steps + [step])[..|steps|] == steps;
  }

  /** After a text with a key was embedded and written back, a second text with the same key gets
      the first one's vector. */
  lemma CollisionShared(w: World, t: string, u: string) returns (steps: seq<Step>)
    requires w.hash(t) == w.hash(u)
    ensures var s := Execute(w, steps);
      |s.tasks| == 2 && s.tasks[1].text == u && s.tasks[1].phase == Returned(w.vectorOf(t))
  {
    var k, v := w.hash(t), w.vectorOf(t);
    steps := [];
    Extend(w, steps, Arrive(t));
    steps := steps + [Arrive(t)];
    Extend(w, steps, LookUp(0));
    steps := steps + [LookUp(0)];
    Extend(w, steps, RedisAnswers(0, true));
    steps := steps + [RedisAnswers(0, true)];
    assert Execute(w, steps) == State(EMPTY, map[], [Task(t, AtProvider)]);
    Extend(w, steps, ProviderAnswers(0, true));
    steps := steps + [ProviderAnswers(0, true)];
    Extend(w, steps, WriteBack(0, true));
    steps := steps + [WriteBack(0, true)];
    Extend(w, steps, Arrive(u));
    steps := steps + [Arrive(u)];
    var memory := Store(EMPTY, k, v, w.cap);
    assert Execute(w, steps) == State(memory, map[k := v], [Task(t, Returned(v)), Task(u, Arrived)]);
    Extend(w, steps, LookUp(1));
    steps := steps + [LookUp(1)];
    if k !in memory.vectors {
      Extend(w, steps, RedisAnswers(1, true));
      steps := steps + [RedisAnswers(1, true)];
    }
  }

  /** Under all interleavings, failures and expiries, every answer is the provider's vector for the
      text asked exactly when no two texts with one key embed differently. */
  lemma RightExactlyWhenHashSound(w: World)
    ensures AlwaysRight(w) <==> HashSound(w)
  {
    if HashSound(w) {
      forall steps ensures RightAt(w, Execute(w, steps)) {
        HashSoundIsRight(w, steps);
      }
    } else {
      var t, u :| w.hash(t) == w.hash(u) && w.vectorOf(t) != w.vectorOf(u);
      var steps := CollisionShared(w, t, u);
      assert !RightAt(w, Execute(w, steps));
    }
  }

  // ----- the order under overlap -------------------------------------------------------------------

  /** The key a step finds in memory or stores. */
  function UseOf(w: World, s: State, step: Step): Option<string> {
    match step
    case LookUp(i) =>
      if i < |s.tasks| && s.tasks[i].phase.Arrived? && w.hash(s.tasks[i].text) in s.memory.vectors
      then Some(w.hash(s.tasks[i].text)) else None
    case RedisAnswers(i, reachable) =>
      if i < |s.tasks| && s.tasks[i].phase.AtRedis? && reachable && w.hash(s.tasks[i].text) in s.redis
      then Some(w.hash(s.tasks[i].text)) else None
    case ProviderAnswers(i, ok) =>
      if i < |s.tasks| && s.tasks[i].phase.AtProvider? && ok then Some(w.hash(s.tasks[i].text)) else None
    case _ => None
  }

  /** The step stores a key that another call has put into memory meanwhile. */
  predicate StoresAgain(w: World, s: State, step: Step) {
    !step.LookUp? && UseOf(w, s, step).Some? && UseOf(w, s, step).value in s.memory.vectors
  }

  function Listed(use: Option<string>): seq<string> {
    if use.Some? then [use.value] else []
  }

  /** Every hit and every store, in order. */
  function Uses(w: World, steps: seq<Step>): seq<string> {
    if steps == [] then []
    else
      var before, step := steps[..|steps| - 1], steps[|steps| - 1];
      Uses(w, before) + Listed(UseOf(w, Execute(w, before), step))
  }

  /** Every hit, and every store of a key that memory did not have. */
  function Touched(w: World, steps: seq<Step>): seq<string> {
    if steps == [] then []
    else
      var before, step := steps[..|steps| - 1], steps[|steps| - 1];
      var s := Execute(w, before);
      Touched(w, before) + if StoresAgain(w, s, step) then [] else Listed(UseOf(w, s, step))
  }

  /** A step reorders memory by its use alone. */
  lemma StepOrder(w: World, s: State, step: Step)
    requires Sound(s.memory, w.cap)
    ensures var use, order := UseOf(w, s, step), Do(w, s, step).memory.order;
      if use.None? || StoresAgain(w, s, step) then order == s.memory.order
      else if step.LookUp? then use.value in s.memory.order && order == Without(s.memory.order, use.value) + [use.value]
      else use.value !in s.memory.order && order == LastOf(s.memory.order + [use.value], w.cap)
  {
    hide Without, LastOf, NoDups;
    var use := UseOf(w, s, step);
    if use.Some? && !step.LookUp? && use.value !in s.memory.vectors {
      StoreOrder(s.memory, use.value, if step.RedisAnswers? then s.redis[use.value] else w.vectorOf(s.tasks[step.i].text), w.cap);
    }
  }

  /** One more use of a key, found at the end of the bounded order or put there. */
  lemma OrderAfterUse(order: seq<string>, history: seq<string>, cap: nat, k: string)
    requires order == LastOf(ByLastUse(history), cap)
    ensures LastOf(ByLastUse(history + [k]), cap) ==
      if k in order then Without(order, k) + [k] else LastOf(order + [k], cap)
  {
    hide ByLastUse, LastOf, Without;
    ByLastUseHolds(history);
    ServedOnce(history, k);
    if k in order {
      BoundedHit(ByLastUse(history), cap, k);
    } else {
      BoundedMiss(ByLastUse(history), cap, k);
    }
  }

  /** In every interleaving the dictionary's order is that of the last hits and first stores. */
  lemma {:induction false} OrderIsByLastTouch(w: World, steps: seq<Step>)
    ensures Execute(w, steps).memory.order == LastOf(ByLastUse(Touched(w, steps)), w.cap)
  {
    if steps != [] {
      hide ByLastUse, LastOf, Without, UseOf, StoresAgain, Do, Sound;
      var before, step := steps[..|steps| - 1], steps[|steps| - 1];
      var s, touched := Execute(w, before), Touched(w, before);
      OrderIsByLastTouch(w, before);
      SizeBounded(w, before);
      StepOrder(w, s, step);
      if UseOf(w, s, step).Some? && !StoresAgain(w, s, step) {
        OrderAfterUse(s.memory.order, touched, w.cap, UseOf(w, s, step).value);
      } else {
        assert touched + [] == touched;
      }
    }
  }

  ghost predicate ByUse(w: World, steps: seq<Step>) {
    Execute(w, steps).memory.order == LastOf(ByLastUse(Uses(w, steps)), w.cap)
  }

  /** At every moment of the run the order is by last use. */
  ghost predicate AlwaysByUse(w: World, steps: seq<Step>) {
    ByUse(w, steps) && (steps != [] ==> AlwaysByUse(w, steps[..|steps| - 1]))
  }

  predicate IsLast(order: seq<string>, k: string) {
    order != [] && order[|order| - 1] == k
  }

  /** A key stored again is the one used last. */
  predicate AgainOnlyLast(w: World, steps: seq<Step>) {
    steps == [] ||
    (var before, step := steps[..|steps| - 1], steps[|steps| - 1];
     var s := Execute(w, before);
     AgainOnlyLast(w, before) && (StoresAgain(w, s, step) ==> IsLast(s.memory.order, UseOf(w, s, step).value)))
  }

  lemma MoveLast(order: seq<string>, k: string)
    requires NoDups(order) && k in order
    ensures Without(order, k) + [k] == order <==> IsLast(order, k)
  {
    var i :| 0 <= i < |order| && order[i] == k;
    WithoutAt(order, i);
    if IsLast(order, k) {
      assert i == |order| - 1;
      assert order[..i] + order[i + 1..] + [k] == order;
    } else {
      assert (Without(order, k) + [k])[|order| - 1] == k;
    }
  }

  /** The order is by last use, counting every hit and every store, all along exactly in the runs in
      which a key stored again is always the one used last. */
  lemma {:induction false} OrderIsByUseExactly(w: World, steps: seq<Step>)
    ensures AlwaysByUse(w, steps) <==> AgainOnlyLast(w, steps)
  {
    if steps != [] {
      var before, step := steps[..|steps| - 1], steps[|steps| - 1];
      var s, uses := Execute(w, before), Uses(w, before);
      OrderIsByUseExactly(w, before);
      SizeBounded(w, before);
      hide ByLastUse, LastOf, Without, UseOf, Do, NoDups, Execute;
      StepOrder(w, s, step);
      ByUseNow(w, before);
      if ByUse(w, before) {
        StepByUse(w, steps);
      }
    }
  }

  lemma ByUseNow(w: World, steps: seq<Step>)
    ensures AlwaysByUse(w, steps) ==> ByUse(w, steps)
  {
  }

  lemma StepByUse(w: World, steps: seq<Step>)
    requires steps != [] && ByUse(w, steps[..|steps| - 1])
    ensures var before, step := steps[..|steps| - 1], steps[|steps| - 1];
      var s := Execute(w, before);
      ByUse(w, steps) <==> (StoresAgain(w, s, step) ==> IsLast(s.memory.order, UseOf(w, s, step).value))
  {
    var before, step := steps[..|steps| - 1], steps[|steps| - 1];
    var s, uses := Execute(w, before), Uses(w, before);
    SizeBounded(w, before);
    hide ByLastUse, LastOf, Without, UseOf, Do, NoDups, IsLast;
    StepOrder(w, s, step);
    if UseOf(w, s, step).Some? {
      var k := UseOf(w, s, step).value;
      OrderAfterUse(s.memory.order, uses, w.cap, k);
      if StoresAgain(w, s, step) {
        MoveLast(s.memory.order, k);
      }
    } else {
      assert uses + [] == uses;
    }
  }

  /** Two calls for one text that both miss before either stores: the second store leaves the key
      where the first put it, before a key stored between them. */
  lemma OverlapKeepsOldPlace(w: World, t: string, u: string) returns (steps: seq<Step>)
    requires w.hash(t) != w.hash(u) && w.cap >= 2
    ensures Execute(w, steps).memory.order == [w.hash(t), w.hash(u)]
    ensures |steps| > 0 && steps[|steps| - 1] == ProviderAnswers(1, true)
    ensures |Execute(w, steps).tasks| == 3 && Execute(w, steps).tasks[1] == Task(t, WritingBack(w.vectorOf(t)))
  {
    var k, l := w.hash(t), w.hash(u);
    steps := [];
    Extend(w, steps, Arrive(t));
    steps := steps + [Arrive(t)];
    Extend(w, steps, Arrive(t));
    steps := steps + [Arrive(t)];
    Extend(w, steps, Arrive(u));
    steps := steps + [Arrive(u)];
    assert Execute(w, steps) == State(EMPTY, map[], [Task(t, Arrived), Task(t, Arrived), Task(u, Arrived)]);
    steps := BothMiss(w, steps, t, u);
    Extend(w, steps, ProviderAnswers(0, true));
    steps := steps + [ProviderAnswers(0, true)];
    assert Execute(w, steps).memory == Lru([k], map[k := w.vectorOf(t)]);
    Extend(w, steps, ProviderAnswers(2, true));
    steps := steps + [ProviderAnswers(2, true)];
    assert Execute(w, steps).memory == Lru([k, l], map[k := w.vectorOf(t), l := w.vectorOf(u)]);
    Extend(w, steps, ProviderAnswers(1, true));
    steps := steps + [ProviderAnswers(1, true)];
  }

  lemma BothMiss(w: World, before: seq<Step>, t: string, u: string) returns (steps: seq<Step>)
    requires Execute(w, before) == State(EMPTY, map[], [Task(t, Arrived), Task(t, Arrived), Task(u, Arrived)])
    ensures Execute(w, steps) == State(EMPTY, map[], [Task(t, AtProvider), Task(t, AtProvider), Task(u, AtProvider)])
  {
    steps := before;
    for i := 0 to 3
      invariant Execute(w, steps) == State(EMPTY, map[], seq(3, j requires 0 <= j < 3 =>
        Task(if j < 2 then t else u, if j < i then AtProvider else Arrived)))
    {
      Extend(w, steps, LookUp(i));
      steps := steps + [LookUp(i)];
      Extend(w, steps, RedisAnswers(i, true));
      steps := steps + [RedisAnswers(i, true)];
    }
  }

  // ----- the dictionary itself ------------------------------------------------------------------------

  class EmbeddingCache {
    var order: seq<string>
    var vectors: map<string, Vector>
    const cap: nat

    ghost function Contents(): Lru
      reads this
    {
      Lru(order, vectors)
    }

    constructor (cap: nat)
      ensures this.cap == cap && Contents() == EMPTY
    {
      this.cap := cap;
      order, vectors := [], map[];
    }

    /** The first tier: a hit moves its key to the end. */
    method LookUp(k: string) returns (v: Option<Vector>)
      modifies this
      ensures v == if k in old(vectors) then Some(old(vectors)[k]) else None
      ensures Contents() == if k in old(vectors) then MoveToEnd(old(Contents()), k) else old(Contents())
    {
      if k in vectors {
        order := Without(order, k) + [k];
        return Some(vectors[k]);
      }
      return None;
    }

    /** Storing what Redis or the provider gave. */
    method Insert(k: string, v: Vector)
      modifies this
      ensures Contents() == Store(old(Contents()), k, v, cap)
    {
      if k !in vectors {
        order := order + [k];
      }
      vectors := vectors[k := v];
      if |order| > cap {
        vectors := vectors - {order[0]};
        order := order[1..];
      }
    }

    /** embed_text without interruption; offered is what the tiers behind would answer. */
    method EmbedText(hash: string -> string, call: Call) returns (v: Option<Vector>)
      modifies this
      ensures (Contents(), v) == Embed(hash, cap, old(Contents()), call)
    {
      var k := hash(call.text);
      v := LookUp(k);
      if v.None? && call.offered.Some? {
        Insert(k, call.offered.value);
        v := call.offered;
      }
    }
  }
}
