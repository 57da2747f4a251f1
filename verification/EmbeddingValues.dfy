/** Which vector embed_text answers with: the reference is a log of answered calls without any
    dictionary, order or eviction. */
module EmbeddingValues {
  import opened Options
  import opened Recency
  import opened EmbeddingLru

  /** One answered call: its key and its vector. */
  datatype Answer = Answer(key: string, vector: Vector)

  function KeysOf(log: seq<Answer>): seq<string> {
    if log == [] then [] else KeysOf(log[..|log| - 1]) + [log[|log| - 1].key]
  }

  /** The vector of the last answer with this key. */
  function LastAnswer(log: seq<Answer>, k: string): Option<Vector> {
    if log == [] then None
    else if log[|log| - 1].key == k then Some(log[|log| - 1].vector)
    else LastAnswer(log[..|log| - 1], k)
  }

  /** The key was answered, and fewer than the capacity of other keys have been answered since. */
  ghost predicate Recent(log: seq<Answer>, cap: nat, k: string) {
    k in KeysOf(log) && |UsedSince(KeysOf(log), k)| < cap
  }

  /** The answer as the log alone gives it: the last one for a recent key, else what Redis or the
      provider offers. */
  ghost function Reply(log: seq<Answer>, cap: nat, k: string, offered: Option<Vector>): Option<Vector> {
    if Recent(log, cap, k) then LastAnswer(log, k) else offered
  }

  ghost function Log(hash: string -> string, cap: nat, calls: seq<Call>): seq<Answer> {
    if calls == [] then []
    else
      var before, call := Log(hash, cap, calls[..|calls| - 1]), calls[|calls| - 1];
      var answer := Reply(before, cap, hash(call.text), call.offered);
      before + if answer.Some? then [Answer(hash(call.text), answer.value)] else []
  }

  lemma OneMoreAnswer(log: seq<Answer>, a: Answer)
    ensures KeysOf(log + [a]) == KeysOf(log) + [a.key]
    ensures forall k :: LastAnswer(log + [a], k) == if k == a.key then Some(a.vector) else LastAnswer(log, k)
  {
    assert (log + [a])[..|log|] == log;
  }

  /** What memory holds are last answers. */
  ghost predicate HoldsLastAnswers(c: Lru, log: seq<Answer>) {
    forall k :: k in c.vectors ==> LastAnswer(log, k) == Some(c.vectors[k])
  }

  lemma StoreHolds(c: Lru, log: seq<Answer>, k: string, v: Vector, cap: nat)
    requires HoldsLastAnswers(c, log)
    ensures HoldsLastAnswers(Store(c, k, v, cap), log + [Answer(k, v)])
  {
    hide Store;
    OneMoreAnswer(log, Answer(k, v));
    forall x | x in Store(c, k, v, cap).vectors
      ensures LastAnswer(log + [Answer(k, v)], x) == Some(Store(c, k, v, cap).vectors[x])
    {
      StoreValues(c, k, v, cap, x);
    }
  }

  /** Calls one at a time: the dictionary and the log serve the same keys, and memory holds exactly
      the last answers of the recent ones. */
  lemma {:induction false} MemoryIsLog(hash: string -> string, cap: nat, calls: seq<Call>)
    ensures var c, log := Run(hash, cap, calls), Log(hash, cap, calls);
      Served(hash, cap, calls) == KeysOf(log) && HoldsLastAnswers(c, log) &&
      forall k :: k in c.vectors <==> Recent(log, cap, k)
  {
    hide UsedSince, Store, LastAnswer;
    var log := Log(hash, cap, calls);
    if calls != [] {
      var before, call := calls[..|calls| - 1], calls[|calls| - 1];
      MemoryIsLog(hash, cap, before);
      StepIsLogged(hash, cap, Run(hash, cap, before), Log(hash, cap, before), call);
      assert Served(hash, cap, before) + [] == Served(hash, cap, before);
      assert Log(hash, cap, before) + [] == Log(hash, cap, before);
    }
    assert Served(hash, cap, calls) == KeysOf(log);
    forall k ensures k in Run(hash, cap, calls).vectors <==> Recent(log, cap, k) {
      CachedExactlyWhenRecent(hash, cap, calls, k);
    }
  }

  lemma StepIsLogged(hash: string -> string, cap: nat, c: Lru, log: seq<Answer>, call: Call)
    requires HoldsLastAnswers(c, log)
    requires forall k :: k in c.vectors <==> Recent(log, cap, k)
    ensures var (after, v) := Embed(hash, cap, c, call); var k := hash(call.text);
      v == Reply(log, cap, k, call.offered) &&
      (v.Some? ==> HoldsLastAnswers(after, log + [Answer(k, v.value)])) &&
      (v.Some? ==> KeysOf(log + [Answer(k, v.value)]) == KeysOf(log) + [k]) &&
      (v.None? ==> after == c)
  {
    hide Store, Recent;
    var (after, v) := Embed(hash, cap, c, call);
    var k := hash(call.text);
    if v.Some? {
      OneMoreAnswer(log, Answer(k, v.value));
      if k !in c.vectors {
        StoreHolds(c, log, k, v.value, cap);
      }
    }
  }

  /** Each call, asked alone after any others, gets the vector of the last answer for its key when
      fewer than the capacity of other keys were answered since, and otherwise what is offered. */
  lemma AnswersAreLogged(hash: string -> string, cap: nat, calls: seq<Call>, call: Call)
    ensures Embed(hash, cap, Run(hash, cap, calls), call).1 ==
      Reply(Log(hash, cap, calls), cap, hash(call.text), call.offered)
  {
    MemoryIsLog(hash, cap, calls);
    StepIsLogged(hash, cap, Run(hash, cap, calls), Log(hash, cap, calls), call);
  }

  // ----- a call that nothing overlaps, in the machine ------------------------------------------------

  /** What the tiers behind memory offer: the entry of a reachable Redis, else the provider's. */
  function Offered(w: World, redis: map<string, Vector>, text: string, readable: bool, ok: bool): Option<Vector> {
    if readable && w.hash(text) in redis then Some(redis[w.hash(text)])
    else if ok then Some(w.vectorOf(text))
    else None
  }

  /** The steps of one call, from its arrival; a step that is not due does nothing. */
  function Alone(text: string, i: nat, readable: bool, ok: bool, writable: bool): seq<Step> {
    [Arrive(text), LookUp(i), RedisAnswers(i, readable), ProviderAnswers(i, ok), WriteBack(i, writable)]
  }

  lemma FiveMore(w: World, steps: seq<Step>, a: Step, b: Step, c: Step, d: Step, e: Step)
    ensures Execute(w, steps + [a, b, c, d, e]) == Do(w, Do(w, Do(w, Do(w, Do(w, Execute(w, steps), a), b), c), d), e)
  {
    hide Do, Execute;
    Extend(w, steps, a);
    Extend(w, steps + [a], b);
    Extend(w, steps + [a] + [b], c);
    Extend(w, steps + [a] + [b] + [c], d);
    Extend(w, steps + [a] + [b] + [c] + [d], e);
    assert steps + [a, b, c, d, e] == steps + [a] + [b] + [c] + [d] + [e];
  }

  lemma Settled(tasks: seq<Task>, t: Task, u: Task)
    ensures (tasks + [t])[|tasks|] == t && (tasks + [t])[|tasks| := u] == tasks + [u]
  {
  }

  function Last(memory: Lru, redis: map<string, Vector>, tasks: seq<Task>, text: string, phase: Phase): State {
    State(memory, redis, tasks + [Task(text, phase)])
  }

  lemma LookUpLast(w: World, memory: Lru, redis: map<string, Vector>, tasks: seq<Task>, text: string)
    ensures Do(w, Last(memory, redis, tasks, text, Arrived), LookUp(|tasks|)) ==
      var k := w.hash(text);
      if k in memory.vectors then Last(MoveToEnd(memory, k), redis, tasks, text, Returned(memory.vectors[k]))
      else Last(memory, redis, tasks, text, AtRedis)
  {
    hide MoveToEnd;
    Settled(tasks, Task(text, Arrived), Task(text, AtRedis));
    if w.hash(text) in memory.vectors {
      Settled(tasks, Task(text, Arrived), Task(text, Returned(memory.vectors[w.hash(text)])));
    }
  }

  lemma RedisLast(w: World, memory: Lru, redis: map<string, Vector>, tasks: seq<Task>, text: string, readable: bool)
    ensures Do(w, Last(memory, redis, tasks, text, AtRedis), RedisAnswers(|tasks|, readable)) ==
      var k := w.hash(text);
      if readable && k in redis then Last(Store(memory, k, redis[k], w.cap), redis, tasks, text, Returned(redis[k]))
      else Last(memory, redis, tasks, text, AtProvider)
  {
    hide Store;
    Settled(tasks, Task(text, AtRedis), Task(text, AtProvider));
    if readable && w.hash(text) in redis {
      Settled(tasks, Task(text, AtRedis), Task(text, Returned(redis[w.hash(text)])));
    }
  }

  lemma ProviderLast(w: World, memory: Lru, redis: map<string, Vector>, tasks: seq<Task>, text: string, ok: bool)
    ensures Do(w, Last(memory, redis, tasks, text, AtProvider), ProviderAnswers(|tasks|, ok)) ==
      var v := w.vectorOf(text);
      if ok then Last(Store(memory, w.hash(text), v, w.cap), redis, tasks, text, WritingBack(v))
      else Last(memory, redis, tasks, text, Raised)
  {
    hide Store;
    Settled(tasks, Task(text, AtProvider), if ok then Task(text, WritingBack(w.vectorOf(text))) else Task(text, Raised));
  }

  lemma WriteLast(w: World, memory: Lru, redis: map<string, Vector>, tasks: seq<Task>, text: string, v: Vector,
      writable: bool)
    ensures Do(w, Last(memory, redis, tasks, text, WritingBack(v)), WriteBack(|tasks|, writable)) ==
      Last(memory, if writable then redis[w.hash(text) := v] else redis, tasks, text, Returned(v))
  {
    Settled(tasks, Task(text, WritingBack(v)), Task(text, Returned(v)));
  }

  /** A call that is over has no step left. */
  lemma OverLast(w: World, memory: Lru, redis: map<string, Vector>, tasks: seq<Task>, text: string, phase: Phase, b: bool)
    requires phase.Returned? || phase.Raised?
    ensures var s := Last(memory, redis, tasks, text, phase);
      Do(w, s, RedisAnswers(|tasks|, b)) == s && Do(w, s, ProviderAnswers(|tasks|, b)) == s &&
      Do(w, s, WriteBack(|tasks|, b)) == s
  {
    Settled(tasks, Task(text, phase), Task(text, phase));
  }

  /** Neither memory nor Redis had the key, and the provider answered. */
  predicate FromProvider(w: World, s: State, text: string, readable: bool, ok: bool) {
    w.hash(text) !in s.memory.vectors && !(readable && w.hash(text) in s.redis) && ok
  }

  /** After any run, however many calls are under way in it, a call whose steps nothing comes between
      leaves memory and answers as the atomic call does, given what is behind; a vector from the provider is
      written to a reachable Redis, and no other call is touched. */
  lemma AloneIsAtomic(w: World, steps: seq<Step>, text: string, readable: bool, ok: bool, writable: bool)
    ensures var s := Execute(w, steps);
      var after := Execute(w, steps + Alone(text, |s.tasks|, readable, ok, writable));
      var (memory, v) := Embed(w.hash, w.cap, s.memory, Call(text, Offered(w, s.redis, text, readable, ok)));
      after.memory == memory &&
      after.tasks == s.tasks + [Task(text, if v.Some? then Returned(v.value) else Raised)] &&
      after.redis == if FromProvider(w, s, text, readable, ok) && writable
                     then s.redis[w.hash(text) := w.vectorOf(text)] else s.redis
  {
    hide Store, MoveToEnd, Do, Execute;
    var s := Execute(w, steps);
    var i, k, m, r, v := |s.tasks|, w.hash(text), s.memory, s.redis, w.vectorOf(text);
    FiveMore(w, steps, Arrive(text), LookUp(i), RedisAnswers(i, readable), ProviderAnswers(i, ok), WriteBack(i, writable));
    ArriveLast(w, s, text);
    LookUpLast(w, m, r, s.tasks, text);
    if k in m.vectors {
      OverAll(w, MoveToEnd(m, k), r, s.tasks, text, Returned(m.vectors[k]), readable, ok, writable);
    } else {
      RedisLast(w, m, r, s.tasks, text, readable);
      if readable && k in r {
        OverLast(w, Store(m, k, r[k], w.cap), r, s.tasks, text, Returned(r[k]), ok);
        OverLast(w, Store(m, k, r[k], w.cap), r, s.tasks, text, Returned(r[k]), writable);
      } else {
        ProviderLast(w, m, r, s.tasks, text, ok);
        if ok {
          WriteLast(w, Store(m, k, v, w.cap), r, s.tasks, text, v, writable);
        } else {
          OverLast(w, m, r, s.tasks, text, Raised, writable);
        }
      }
    }
  }

  lemma ArriveLast(w: World, s: State, text: string)
    ensures Do(w, s, Arrive(text)) == Last(s.memory, s.redis, s.tasks, text, Arrived)
  {
  }

  lemma OverAll(w: World, memory: Lru, redis: map<string, Vector>, tasks: seq<Task>, text: string, phase: Phase,
                a: bool, b: bool, c: bool)
    requires phase.Returned?
    ensures var s := Last(memory, redis, tasks, text, phase);
      Do(w, Do(w, Do(w, s, RedisAnswers(|tasks|, a)), ProviderAnswers(|tasks|, b)), WriteBack(|tasks|, c)) == s
  {
    hide Do;
    OverLast(w, memory, redis, tasks, text, phase, a);
    OverLast(w, memory, redis, tasks, text, phase, b);
    OverLast(w, memory, redis, tasks, text, phase, c);
  }

  /** What the task of that call says in the end. */
  function EndsAs(w: World, s: State, text: string): Option<Phase> {
    if s.tasks == [] || s.tasks[|s.tasks| - 1].text != text then None else Some(s.tasks[|s.tasks| - 1].phase)
  }

  /** A key that memory does not have is answered with what another worker wrote last, without asking the
      provider, and is not found behind memory once its entry has vanished. */
  lemma SharedAmongWorkers(w: World, steps: seq<Step>, theirs: string, text: string)
    requires w.hash(theirs) == w.hash(text) && w.hash(text) !in Execute(w, steps).memory.vectors
    ensures var n := |Execute(w, steps).tasks|;
      EndsAs(w, Execute(w, steps + [OtherWorker(theirs)] + Alone(text, n, true, false, false)), text) ==
        Some(Returned(w.vectorOf(theirs))) &&
      EndsAs(w, Execute(w, steps + [Vanish(w.hash(text))] + Alone(text, n, true, false, false)), text) == Some(Raised)
  {
    Extend(w, steps, OtherWorker(theirs));
    Extend(w, steps, Vanish(w.hash(text)));
    hide Execute, Store;
    AloneIsAtomic(w, steps + [OtherWorker(theirs)], text, true, false, false);
    AloneIsAtomic(w, steps + [Vanish(w.hash(text))], text, true, false, false);
  }
}
