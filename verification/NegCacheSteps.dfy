/** The negative assertion cache under concurrency. Every operation on a structure with its own mutex (the LRU
    cache, the counter, the zone index) is one step, and so is every stretch of code between two of them that
    runs under a value's lock. Threads interleave in any order.
 */
module NegCacheSteps {
  import opened Names

  type Tid = nat
  type Vid = nat

  /** A cached value; `lock` is the thread that holds its mutex for writing. */
  datatype Value = Value(key: string, zone: string, sections: map<string, int>, deleted: bool, lock: Option<Tid>)

  datatype Request = Request(key: string, zone: string, hash: string, expiration: int, internal: bool)

  /** Where a thread stands in `add`, `Get` or `RemoveExpiredValues`. */
  datatype Pc =
    | Idle
    | AddStart(r: Request)
    | AddGot(r: Request, v: Vid, isNew: bool)
    | AddLocked(r: Request, v: Vid, isNew: bool)
    | AddIndexed(r: Request, v: Vid)
    | AddStored(r: Request, v: Vid)
    | AddCounted(r: Request, v: Vid)
    | EvictCheck
    | EvictPick
    | EvictGot(v: Vid)
    | EvictLocked(v: Vid)
    | EvictMarked(v: Vid)
    | EvictRemoved(v: Vid)
    | EvictUnindexed(v: Vid)
    | EvictCounted(v: Vid)
    | GetStart(key: string)
    | GetGot(v: Vid)
    | ReapStart
    | Reap(todo: seq<Vid>)
    | ReapLocked(v: Vid, todo: seq<Vid>)
    | ReapSwept(v: Vid, todo: seq<Vid>, n: nat)
    | ReapMarked(v: Vid, todo: seq<Vid>, n: nat)
    | ReapRemoved(v: Vid, todo: seq<Vid>, n: nat)
    | ReapUnindexed(v: Vid, todo: seq<Vid>, n: nat)
    | ReapOwing(todo: seq<Vid>, n: nat)

  /** `index` maps a zone and a key listed under it to the value for which the key was listed. `lost` collects the live
      values whose listing was taken out on behalf of another value; the code keeps no such record. */
  datatype State = State(
    vals: seq<Value>,
    cache: map<string, Vid>,
    pinned: set<string>,
    index: map<(string, string), Vid>,
    counter: int,
    max: int,
    threads: seq<Pc>,
    lost: set<Vid>)

  /** What the environment decides: the call an idle thread makes, the order of eviction and of the values swept,
      and the clock as it is read for each section. */
  datatype Choice = Choice(call: Pc, victim: string, order: seq<Vid>, clock: string -> int)

  function Init(max: int, n: nat): State {
    State([], map[], {}, map[], 0, max, seq(n, _ => Idle), {})
  }

  predicate IsCall(pc: Pc) {
    pc.AddStart? || pc.GetStart? || pc.ReapStart?
  }

  function Go(s: State, t: Tid, pc: Pc): State
    requires t < |s.threads|
  {
    s.(threads := s.threads[t := pc])
  }

  function Put(s: State, v: Vid, value: Value): State
    requires v < |s.vals|
  {
    s.(vals := s.vals[v := value])
  }

  /** Taking the lock of `v`, which has to be free. */
  function Lock(s: State, t: Tid, v: Vid, pc: Pc): State
    requires t < |s.threads| && v < |s.vals|
  {
    if s.vals[v].lock.Some? then s else Go(Put(s, v, s.vals[v].(lock := Some(t))), t, pc)
  }

  function Unlock(s: State, t: Tid, v: Vid, pc: Pc): State
    requires t < |s.threads| && v < |s.vals|
  {
    Go(Put(s, v, s.vals[v].(lock := None)), t, pc)
  }

  function Losing(s: State, e: (string, string)): set<Vid> {
    if e in s.index && s.index[e] < |s.vals| && !s.vals[s.index[e]].deleted then {s.index[e]} else {}
  }

  /** Taking the key of `v` out of the zone index, whichever value it was listed for. */
  function Unlist(s: State, t: Tid, v: Vid, pc: Pc): State
    requires t < |s.threads| && v < |s.vals|
  {
    var e := (s.vals[v].zone, s.vals[v].key);
    Go(s.(index := s.index - {e}, lost := s.lost + Losing(s, e)), t, pc)
  }

  /** The value a thread is working on. */
  function Target(pc: Pc): Option<Vid> {
    match pc
    case AddGot(_, v, _) => Some(v)
    case EvictGot(v) => Some(v)
    case GetGot(v) => Some(v)
    case _ => Holds(pc)
  }

  /** The value whose lock a thread holds. */
  function Holds(pc: Pc): Option<Vid> {
    match pc
    case AddLocked(_, v, _) => Some(v)
    case AddIndexed(_, v) => Some(v)
    case AddStored(_, v) => Some(v)
    case AddCounted(_, v) => Some(v)
    case EvictLocked(v) => Some(v)
    case EvictMarked(v) => Some(v)
    case EvictRemoved(v) => Some(v)
    case EvictUnindexed(v) => Some(v)
    case EvictCounted(v) => Some(v)
    case ReapLocked(v, _) => Some(v)
    case ReapSwept(v, _, _) => Some(v)
    case ReapMarked(v, _, _) => Some(v)
    case ReapRemoved(v, _, _) => Some(v)
    case ReapUnindexed(v, _, _) => Some(v)
    case _ => None
  }

  /** The values a sweep has yet to visit. */
  function Todo(pc: Pc): seq<Vid> {
    match pc
    case Reap(todo) => todo
    case ReapLocked(_, todo) => todo
    case ReapSwept(_, todo, _) => todo
    case ReapMarked(_, todo, _) => todo
    case ReapRemoved(_, todo, _) => todo
    case ReapUnindexed(_, todo, _) => todo
    case ReapOwing(todo, _) => todo
    case _ => []
  }

  /** The values a thread refers to exist. */
  predicate RefsOk(n: nat, pc: Pc) {
    (Target(pc).Some? ==> Target(pc).value < n) && AllBelow(Todo(pc), n)
  }

  predicate AllBelow(vs: seq<Vid>, n: nat) {
    forall i :: 0 <= i < |vs| ==> vs[i] < n
  }

  // ---- the steps ----

  function StepAdd(s: State, t: Tid, pc: Pc): State
    requires t < |s.threads| && s.threads[t] == pc
    requires RefsOk(|s.vals|, pc)
  {
    match pc
    case AddStart(r) =>
      if r.key in s.cache then
        Go(s, t, AddGot(r, s.cache[r.key], false))
      else
        var v := |s.vals|;
        Go(s.(vals := s.vals + [Value(r.key, r.zone, map[], false, None)], cache := s.cache[r.key := v],
              pinned := if r.internal then s.pinned + {r.key} else s.pinned - {r.key}), t, AddGot(r, v, true))
    case AddGot(r, v, isNew) =>
      Lock(s, t, v, AddLocked(r, v, isNew))
    case AddLocked(r, v, isNew) =>
      if s.vals[v].deleted then Unlock(s, t, v, AddStart(r))
      else if isNew then
        Go(s.(index := s.index[(r.zone, r.key) := v]), t, AddIndexed(r, v))
      else Go(s, t, AddIndexed(r, v))
    case AddIndexed(r, v) =>
      if r.hash in s.vals[v].sections then Unlock(s, t, v, EvictCheck)
      else Go(Put(s, v, s.vals[v].(sections := s.vals[v].sections[r.hash := r.expiration])), t, AddStored(r, v))
    case AddStored(r, v) =>
      Go(s.(counter := s.counter + 1), t, AddCounted(r, v))
    case AddCounted(_, v) =>
      Unlock(s, t, v, EvictCheck)
    case _ => s
  }

  function StepEvict(s: State, t: Tid, pc: Pc, victim: string): State
    requires t < |s.threads| && s.threads[t] == pc
    requires RefsOk(|s.vals|, pc)
  {
    match pc
    case EvictCheck =>
      Go(s, t, if s.counter >= s.max then EvictPick else Idle)
    case EvictPick =>
      if victim in s.cache && victim !in s.pinned then Go(s, t, EvictGot(s.cache[victim]))
      else if s.cache.Keys <= s.pinned then Go(s, t, Idle)
      else s
    case EvictGot(v) =>
      Lock(s, t, v, EvictLocked(v))
    case EvictLocked(v) =>
      if s.vals[v].deleted then Unlock(s, t, v, EvictCheck)
      else Go(Put(s, v, s.vals[v].(deleted := true)), t, EvictMarked(v))
    case EvictMarked(v) =>
      Go(s.(cache := s.cache - {s.vals[v].key}), t, EvictRemoved(v))
    case EvictRemoved(v) =>
      Unlist(s, t, v, EvictUnindexed(v))
    case EvictUnindexed(v) =>
      Go(s.(counter := s.counter - |s.vals[v].sections|), t, EvictCounted(v))
    case EvictCounted(v) =>
      Unlock(s, t, v, EvictCheck)
    case _ => s
  }

  /** How many sections the sweep drops. */
  function Expired(sections: map<string, int>, gone: set<string>): nat {
    assert (sections - gone).Keys == sections.Keys - gone;
    |sections| - |sections - gone|
  }

  function StepReap(s: State, t: Tid, pc: Pc, order: seq<Vid>, gone: set<string>): State
    requires t < |s.threads| && s.threads[t] == pc
    requires RefsOk(|s.vals|, pc)
  {
    match pc
    case ReapStart =>
      if (forall i :: 0 <= i < |order| ==> order[i] in s.cache.Values) then Go(s, t, Reap(order)) else s
    case Reap(todo) =>
      if todo == [] then Go(s, t, Idle) else Lock(s, t, todo[0], ReapLocked(todo[0], todo[1..]))
    case ReapLocked(v, todo) =>
      if s.vals[v].deleted then Unlock(s, t, v, Reap(todo))
      else
        var left := s.vals[v].sections - gone;
        Go(Put(s, v, s.vals[v].(sections := left)), t, ReapSwept(v, todo, Expired(s.vals[v].sections, gone)))
    case ReapSwept(v, todo, n) =>
      if s.vals[v].sections == map[] then Go(Put(s, v, s.vals[v].(deleted := true)), t, ReapMarked(v, todo, n))
      else Unlock(s, t, v, ReapOwing(todo, n))
    case ReapMarked(v, todo, n) =>
      Go(s.(cache := s.cache - {s.vals[v].key}), t, ReapRemoved(v, todo, n))
    case ReapRemoved(v, todo, n) =>
      Unlist(s, t, v, ReapUnindexed(v, todo, n))
    case ReapUnindexed(v, todo, n) =>
      Unlock(s, t, v, ReapOwing(todo, n))
    case ReapOwing(todo, n) =>
      Go(s.(counter := s.counter - n), t, Reap(todo))
    case _ => s
  }

  /** `Get` looks the value up, and reads it once no thread holds it for writing. */
  function StepGet(s: State, t: Tid, pc: Pc): State
    requires t < |s.threads| && s.threads[t] == pc
    requires RefsOk(|s.vals|, pc)
  {
    match pc
    case GetStart(key) => Go(s, t, if key in s.cache then GetGot(s.cache[key]) else Idle)
    case GetGot(v) => if s.vals[v].lock.Some? then s else Go(s, t, Idle)
    case _ => s
  }

  predicate IsAdd(pc: Pc) {
    pc.AddStart? || pc.AddGot? || pc.AddLocked? || pc.AddIndexed? || pc.AddStored? || pc.AddCounted?
  }

  predicate IsEvict(pc: Pc) {
    pc.EvictCheck? || pc.EvictPick? || pc.EvictGot? || pc.EvictLocked? || pc.EvictMarked? || pc.EvictRemoved?
    || pc.EvictUnindexed? || pc.EvictCounted?
  }

  predicate IsReap(pc: Pc) {
    pc.ReapStart? || pc.Reap? || pc.ReapLocked? || pc.ReapSwept? || pc.ReapMarked? || pc.ReapRemoved?
    || pc.ReapUnindexed? || pc.ReapOwing?
  }

  /** The sections that a sweep finds expired, each by the clock as it is read for it. */
  function Gone(s: State, pc: Pc, clock: string -> int): set<string> {
    if pc.ReapLocked? && pc.v < |s.vals| then
      var sections := s.vals[pc.v].sections;
      set h | h in sections && sections[h] < clock(h)
    else {}
  }

  /** One step of thread `t`; a thread that waits for a lock, or does not exist, leaves the state alone. */
  function Step(s: State, t: Tid, ch: Choice): State {
    if t >= |s.threads| || !RefsOk(|s.vals|, s.threads[t]) then s
    else
      var pc := s.threads[t];
      if IsAdd(pc) then StepAdd(s, t, pc)
      else if IsEvict(pc) then StepEvict(s, t, pc, ch.victim)
      else if IsReap(pc) then StepReap(s, t, pc, ch.order, Gone(s, pc, ch.clock))
      else if pc.Idle? then (if IsCall(ch.call) then Go(s, t, ch.call) else s)
      else StepGet(s, t, pc)
  }

  // ---- what every step keeps ----

  predicate Marked(pc: Pc) {
    pc.EvictMarked? || pc.ReapMarked?
  }

  predicate Removed(pc: Pc) {
    pc.EvictRemoved? || pc.ReapRemoved?
  }

  ghost predicate Refs(s: State) {
    forall t :: 0 <= t < |s.threads| ==> RefsOk(|s.vals|, s.threads[t])
  }

  /** Locks and holders match. */
  ghost predicate Locks(s: State) {
    && (forall t :: 0 <= t < |s.threads| && Holds(s.threads[t]).Some? ==>
          var v := Holds(s.threads[t]).value; v < |s.vals| && s.vals[v].lock == Some(t))
    && (forall v :: 0 <= v < |s.vals| && s.vals[v].lock.Some? ==>
          var t := s.vals[v].lock.value; t < |s.threads| && Holds(s.threads[t]) == Some(v))
  }

  /** What a thread knows about the value it holds. */
  ghost predicate Knows(pc: Pc, value: Value) {
    && ((pc.AddIndexed? || pc.AddStored? || pc.AddCounted? || pc.ReapSwept?) ==> !value.deleted)
    && ((Marked(pc) || Removed(pc) || pc.EvictUnindexed? || pc.EvictCounted? || pc.ReapUnindexed?) ==> value.deleted)
    && ((pc.ReapMarked? || pc.ReapRemoved? || pc.ReapUnindexed?) ==> value.sections == map[])
  }

  ghost predicate Knowledge(s: State) {
    forall t :: 0 <= t < |s.threads| && Holds(s.threads[t]).Some? && Holds(s.threads[t]).value < |s.vals|
      ==> Knows(s.threads[t], s.vals[Holds(s.threads[t]).value])
  }

  predicate InCache(s: State, v: Vid)
    requires v < |s.vals|
  {
    s.vals[v].key in s.cache && s.cache[s.vals[v].key] == v
  }

  /** The cache holds every value that is not deleted, and nothing under a wrong key. */
  ghost predicate Reach(s: State) {
    && (forall v :: 0 <= v < |s.vals| && !s.vals[v].deleted ==> InCache(s, v))
    && (forall k :: k in s.cache ==> s.cache[k] < |s.vals| && s.vals[s.cache[k]].key == k)
  }

  /** A deleted value is in the cache exactly while the thread that deleted it has yet to take it out. */
  ghost predicate Dying(s: State) {
    && (forall v :: 0 <= v < |s.vals| && s.vals[v].deleted && InCache(s, v) ==>
          var l := s.vals[v].lock; l.Some? && l.value < |s.threads| && Marked(s.threads[l.value]))
    && (forall t :: 0 <= t < |s.threads| && Marked(s.threads[t]) ==>
          var h := Holds(s.threads[t]); h.Some? && h.value < |s.vals| ==> InCache(s, h.value))
  }

  ghost predicate Base(s: State) {
    Refs(s) && Locks(s) && Knowledge(s) && Reach(s) && Dying(s)
  }

  /** Thread `t` goes on to `pc` and, holding the lock of `v` or finding it free, may rewrite `v`, take or leave
      its lock and take its key out of the cache. */
  ghost predicate Moves(s: State, s': State, t: Tid, v: Vid, pc: Pc) {
    && t < |s.threads| && v < |s.vals| && |s'.vals| == |s.vals|
    && s'.threads == s.threads[t := pc]
    && (forall w :: 0 <= w < |s.vals| && w != v ==> s'.vals[w] == s.vals[w])
    && s'.vals[v].key == s.vals[v].key && s'.vals[v].zone == s.vals[v].zone
    && (s.vals[v].deleted ==> s'.vals[v].deleted)
    && (Holds(s.threads[t]) == Some(v) || (Holds(s.threads[t]) == None && s.vals[v].lock == None))
    && (if Holds(pc) == Some(v) then s'.vals[v].lock == Some(t) else Holds(pc) == None && s'.vals[v].lock == None)
    && (s'.cache == s.cache || (InCache(s, v) && s'.cache == s.cache - {s.vals[v].key} && s'.vals[v].deleted))
  }

  lemma MoveKeepsLocks(s: State, s': State, t: Tid, v: Vid, pc: Pc)
    requires Base(s) && Moves(s, s', t, v, pc) && RefsOk(|s.vals|, pc)
    ensures Refs(s') && Locks(s')
  {
    hide Holds, RefsOk, Knows, Target, Todo;
  }

  lemma MoveKeepsKnowledge(s: State, s': State, t: Tid, v: Vid, pc: Pc)
    requires Base(s) && Moves(s, s', t, v, pc) && (Holds(pc).Some? ==> Knows(pc, s'.vals[v]))
    ensures Knowledge(s')
  {
    hide Holds, RefsOk, Knows, Target, Todo;
  }

  lemma MoveKeepsReach(s: State, s': State, t: Tid, v: Vid, pc: Pc)
    requires Base(s) && Moves(s, s', t, v, pc)
    ensures Reach(s')
  {
    hide Holds, RefsOk, Knows, Target, Todo, Marked, Locks, Dying, Knowledge;
  }

  lemma MoveKeepsDying(s: State, s': State, t: Tid, v: Vid, pc: Pc)
    requires Base(s) && Moves(s, s', t, v, pc)
    requires s'.vals[v].deleted && InCache(s', v) ==> Marked(pc)
    requires Marked(pc) ==> Holds(pc) == Some(v) && InCache(s', v)
    ensures Dying(s')
  {
    hide Holds, RefsOk, Knows, Target, Todo, Marked, Knowledge;
  }

  /** Thread `t`, holding no lock before or after, goes on to `pc`; it may add a value under a key not cached. */
  ghost predicate Strolls(s: State, s': State, t: Tid, pc: Pc) {
    && t < |s.threads| && s'.threads == s.threads[t := pc]
    && Holds(s.threads[t]) == None && Holds(pc) == None && !Marked(pc)
    && if |s'.vals| > |s.vals| then
         && |s'.vals| == |s.vals| + 1 && s'.vals[..|s.vals|] == s.vals
         && var value := s'.vals[|s.vals|];
         && !value.deleted && value.lock == None && value.key !in s.cache && s'.cache == s.cache[value.key := |s.vals|]
       else s'.vals == s.vals && s'.cache == s.cache
  }

  lemma StrollKeepsLocks(s: State, s': State, t: Tid, pc: Pc)
    requires Base(s) && Strolls(s, s', t, pc) && RefsOk(|s'.vals|, pc)
    ensures Refs(s') && Locks(s') && Knowledge(s')
  {
    hide Holds, Knows, Target, Todo, Marked, Reach, Dying;
    assert forall v :: 0 <= v < |s.vals| ==> s'.vals[v] == s.vals[v];
  }

  lemma StrollKeepsCache(s: State, s': State, t: Tid, pc: Pc)
    requires Base(s) && Strolls(s, s', t, pc)
    ensures Reach(s') && Dying(s')
  {
    hide Holds, Knows, Target, Todo, Marked, RefsOk, Knowledge;
    assert forall v :: 0 <= v < |s.vals| ==> s'.vals[v] == s.vals[v];
  }

  /** What Base says about a thread and the value it holds. */
  ghost predicate Local(s: State, pc: Pc, t: Tid) {
    && RefsOk(|s.vals|, pc)
    && (Holds(pc).Some? ==>
          var v := Holds(pc).value;
          && v < |s.vals| && s.vals[v].lock == Some(t) && Knows(pc, s.vals[v])
          && (!s.vals[v].deleted ==> InCache(s, v))
          && (s.vals[v].deleted ==> (Marked(pc) <==> InCache(s, v))))
  }

  lemma BaseIsLocal(s: State, t: Tid)
    requires Base(s) && t < |s.threads|
    ensures Local(s, s.threads[t], t)
  {
    hide Holds, Knows, Target, Todo, Marked, RefsOk;
  }

  lemma MoveKeepsBase(s: State, s': State, t: Tid, v: Vid, pc: Pc)
    requires Base(s) && Moves(s, s', t, v, pc) && Local(s', pc, t)
    requires Holds(pc) == None && s'.vals[v].deleted ==> !InCache(s', v)
    ensures Base(s')
  {
    MoveKeepsLocks(s, s', t, v, pc);
    MoveKeepsKnowledge(s, s', t, v, pc);
    MoveKeepsReach(s, s', t, v, pc);
    assert Marked(pc) ==> Holds(pc).Some?;
    hide Holds, Knows, Target, Todo, Marked, RefsOk;
    MoveKeepsDying(s, s', t, v, pc);
  }

  lemma FreeIsSettled(s: State, v: Vid)
    requires Base(s) && v < |s.vals| && s.vals[v].lock == None
    ensures InCache(s, v) <==> !s.vals[v].deleted
  {
    hide Holds, Knows, Target, Todo, Marked, RefsOk, Locks, Knowledge, Refs;
  }

  lemma StrollKeepsBase(s: State, s': State, t: Tid, pc: Pc)
    requires Base(s) && Strolls(s, s', t, pc) && RefsOk(|s'.vals|, pc)
    ensures Base(s')
  {
    hide Holds, Knows, Target, Todo, Marked, RefsOk, Locks, Knowledge, Refs, Reach, Dying, Strolls;
    StrollKeepsLocks(s, s', t, pc);
    StrollKeepsCache(s, s', t, pc);
  }

  /** Thread `t`, holding no lock before or after, goes on to `pc` and leaves values and cache alone. */
  lemma WalkKeepsBase(s: State, s': State, t: Tid, pc: Pc)
    requires Base(s) && t < |s.threads| && Holds(s.threads[t]) == None && Holds(pc) == None && RefsOk(|s.vals|, pc)
    requires s'.threads == s.threads[t := pc] && s'.vals == s.vals && s'.cache == s.cache
    ensures Base(s')
  {
    hide Base, Refs, Locks, Knowledge, Reach, Dying;
    assert !Marked(pc);
    hide Holds, Target, Todo, Marked, RefsOk, Knows;
    StrollKeepsBase(s, s', t, pc);
  }

  lemma CachedExists(s: State, k: string)
    requires Base(s) && k in s.cache
    ensures s.cache[k] < |s.vals|
  {
    hide Refs, Locks, Knowledge, Dying;
  }

  lemma LockKeepsBase(s: State, t: Tid, v: Vid, pc: Pc)
    requires Base(s) && t < |s.threads| && v < |s.vals|
    requires Holds(s.threads[t]) == None && (pc.AddLocked? || pc.EvictLocked? || pc.ReapLocked?) && Holds(pc) == Some(v)
    requires RefsOk(|s.vals|, pc)
    ensures Base(Lock(s, t, v, pc))
  {
    hide Base, Refs, Locks, Knowledge, Reach, Dying;
    assert !Marked(pc) && Knows(pc, s.vals[v].(lock := Some(t)));
    hide Holds, Knows, Target, Todo, Marked, RefsOk;
    if s.vals[v].lock == None {
      FreeIsSettled(s, v);
      MoveKeepsBase(s, Lock(s, t, v, pc), t, v, pc);
    }
  }

  lemma UnlockKeepsBase(s: State, t: Tid, v: Vid, pc: Pc)
    requires Base(s) && t < |s.threads| && v < |s.vals|
    requires Holds(s.threads[t]) == Some(v) && Holds(pc) == None && !Marked(s.threads[t]) && RefsOk(|s.vals|, pc)
    ensures Base(Unlock(s, t, v, pc))
  {
    hide Base, Refs, Locks, Knowledge, Reach, Dying, Holds, Knows, Target, Todo, Marked, RefsOk;
    BaseIsLocal(s, t);
    MoveKeepsBase(s, Unlock(s, t, v, pc), t, v, pc);
  }

  /** Thread `t`, holding the lock of `v` before and after, goes on to `pc`. */
  lemma HeldKeepsBase(s: State, s': State, t: Tid, v: Vid, pc: Pc)
    requires Base(s) && t < |s.threads| && v < |s.vals| && |s'.vals| == |s.vals|
    requires Holds(s.threads[t]) == Some(v) == Holds(pc) && RefsOk(|s.vals|, pc)
    requires s'.threads == s.threads[t := pc] && Knows(pc, s'.vals[v])
    requires forall w :: 0 <= w < |s.vals| && w != v ==> s'.vals[w] == s.vals[w]
    requires s'.vals[v].(sections := s.vals[v].sections) == s.vals[v].(deleted := s'.vals[v].deleted)
    requires s.vals[v].deleted ==> s'.vals[v].deleted
    requires if Marked(s.threads[t]) then s.vals[v].deleted && !Marked(pc) && s'.cache == s.cache - {s.vals[v].key}
      else s'.cache == s.cache
    requires !s.vals[v].deleted && s'.vals[v].deleted <==> Marked(pc)
    ensures Base(s')
  {
    hide Base, Refs, Locks, Knowledge, Reach, Dying, Holds, Knows, Target, Todo, Marked, RefsOk;
    BaseIsLocal(s, t);
    MoveKeepsBase(s, s', t, v, pc);
  }

  lemma AddLockedKeepsBase(s: State, t: Tid, r: Request, v: Vid, isNew: bool)
    requires Base(s) && t < |s.threads| && s.threads[t] == AddLocked(r, v, isNew) && RefsOk(|s.vals|, s.threads[t])
    ensures Base(StepAdd(s, t, s.threads[t]))
  {
    hide Base, Refs, Locks, Knowledge, Reach, Dying;
    if s.vals[v].deleted {
      UnlockKeepsBase(s, t, v, AddStart(r));
    } else {
      HeldKeepsBase(s, StepAdd(s, t, s.threads[t]), t, v, AddIndexed(r, v));
    }
  }

  lemma AddIndexedKeepsBase(s: State, t: Tid, r: Request, v: Vid)
    requires Base(s) && t < |s.threads| && s.threads[t] == AddIndexed(r, v) && Local(s, s.threads[t], t)
    ensures Base(StepAdd(s, t, s.threads[t]))
  {
    hide Base, Refs, Locks, Knowledge, Reach, Dying;
    if r.hash in s.vals[v].sections {
      UnlockKeepsBase(s, t, v, EvictCheck);
    } else {
      HeldKeepsBase(s, StepAdd(s, t, s.threads[t]), t, v, AddStored(r, v));
    }
  }

  lemma AddStartKeepsBase(s: State, t: Tid, r: Request)
    requires Base(s) && t < |s.threads| && s.threads[t] == AddStart(r)
    ensures Base(StepAdd(s, t, s.threads[t]))
  {
    hide Base, Refs, Locks, Knowledge, Reach, Dying;
    var s' := StepAdd(s, t, s.threads[t]);
    if r.key in s.cache { CachedExists(s, r.key); }
    StrollKeepsBase(s, s', t, s'.threads[t]);
  }

  lemma AddStoredKeepsBase(s: State, t: Tid, r: Request, v: Vid)
    requires Base(s) && t < |s.threads| && s.threads[t] == AddStored(r, v) && Local(s, s.threads[t], t)
    ensures Base(StepAdd(s, t, s.threads[t]))
  {
    hide Base, Refs, Locks, Knowledge, Reach, Dying;
    HeldKeepsBase(s, StepAdd(s, t, s.threads[t]), t, v, AddCounted(r, v));
  }

  lemma AddKeepsBase(s: State, t: Tid)
    requires Base(s) && t < |s.threads| && IsAdd(s.threads[t]) && Local(s, s.threads[t], t)
    ensures Base(StepAdd(s, t, s.threads[t]))
  {
    hide Base, Refs, Locks, Knowledge, Reach, Dying, Knows;
    match s.threads[t]
    case AddStart(r) => AddStartKeepsBase(s, t, r);
    case AddGot(r, v, isNew) => LockKeepsBase(s, t, v, AddLocked(r, v, isNew));
    case AddLocked(r, v, isNew) => AddLockedKeepsBase(s, t, r, v, isNew);
    case AddIndexed(r, v) => AddIndexedKeepsBase(s, t, r, v);
    case AddStored(r, v) => AddStoredKeepsBase(s, t, r, v);
    case AddCounted(_, v) => UnlockKeepsBase(s, t, v, EvictCheck);
  }

  lemma EvictLockedKeepsBase(s: State, t: Tid, v: Vid, victim: string)
    requires Base(s) && t < |s.threads| && s.threads[t] == EvictLocked(v) && Local(s, s.threads[t], t)
    ensures Base(StepEvict(s, t, s.threads[t], victim))
  {
    hide Base, Refs, Locks, Knowledge, Reach, Dying;
    if s.vals[v].deleted {
      UnlockKeepsBase(s, t, v, EvictCheck);
    } else {
      HeldKeepsBase(s, StepEvict(s, t, s.threads[t], victim), t, v, EvictMarked(v));
    }
  }

  lemma EvictHeldKeepsBase(s: State, t: Tid, pc': Pc, victim: string)
    requires Base(s) && t < |s.threads| && Local(s, s.threads[t], t)
    requires var pc := s.threads[t];
      || (pc.EvictMarked? && pc' == EvictRemoved(pc.v))
      || (pc.EvictRemoved? && pc' == EvictUnindexed(pc.v))
      || (pc.EvictUnindexed? && pc' == EvictCounted(pc.v))
    ensures Base(StepEvict(s, t, s.threads[t], victim))
  {
    hide Base, Refs, Locks, Knowledge, Reach, Dying;
    HeldKeepsBase(s, StepEvict(s, t, s.threads[t], victim), t, s.threads[t].v, pc');
  }

  lemma EvictPickKeepsBase(s: State, t: Tid, victim: string)
    requires Base(s) && t < |s.threads| && (s.threads[t].EvictCheck? || s.threads[t].EvictPick?)
    ensures Base(StepEvict(s, t, s.threads[t], victim))
  {
    hide Base, Refs, Locks, Knowledge, Reach, Dying;
    var s' := StepEvict(s, t, s.threads[t], victim);
    if victim in s.cache { CachedExists(s, victim); }
    WalkKeepsBase(s, s', t, s'.threads[t]);
  }

  lemma EvictKeepsBase(s: State, t: Tid, victim: string)
    requires Base(s) && t < |s.threads| && IsEvict(s.threads[t]) && Local(s, s.threads[t], t)
    ensures Base(StepEvict(s, t, s.threads[t], victim))
  {
    hide Base, Refs, Locks, Knowledge, Reach, Dying, Knows;
    match s.threads[t]
    case EvictCheck => EvictPickKeepsBase(s, t, victim);
    case EvictPick => EvictPickKeepsBase(s, t, victim);
    case EvictGot(v) => LockKeepsBase(s, t, v, EvictLocked(v));
    case EvictLocked(v) => EvictLockedKeepsBase(s, t, v, victim);
    case EvictMarked(v) => EvictHeldKeepsBase(s, t, EvictRemoved(v), victim);
    case EvictRemoved(v) => EvictHeldKeepsBase(s, t, EvictUnindexed(v), victim);
    case EvictUnindexed(v) => EvictHeldKeepsBase(s, t, EvictCounted(v), victim);
    case EvictCounted(v) => UnlockKeepsBase(s, t, v, EvictCheck);
  }

  lemma ReapSweepKeepsBase(s: State, t: Tid, v: Vid, todo: seq<Vid>, order: seq<Vid>, gone: set<string>)
    requires Base(s) && t < |s.threads| && s.threads[t] == ReapLocked(v, todo) && Local(s, s.threads[t], t)
    requires !s.vals[v].deleted
    ensures Base(StepReap(s, t, s.threads[t], order, gone))
  {
    hide Base, Refs, Locks, Knowledge, Reach, Dying, Expired, AllBelow;
    var n := Expired(s.vals[v].sections, gone);
    HeldKeepsBase(s, StepReap(s, t, s.threads[t], order, gone), t, v, ReapSwept(v, todo, n));
  }

  lemma ReapSweptKeepsBase(s: State, t: Tid, v: Vid, todo: seq<Vid>, n: nat, order: seq<Vid>, gone: set<string>)
    requires Base(s) && t < |s.threads| && s.threads[t] == ReapSwept(v, todo, n) && Local(s, s.threads[t], t)
    ensures Base(StepReap(s, t, s.threads[t], order, gone))
  {
    hide Base, Refs, Locks, Knowledge, Reach, Dying;
    if s.vals[v].sections == map[] {
      HeldKeepsBase(s, StepReap(s, t, s.threads[t], order, gone), t, v, ReapMarked(v, todo, n));
    } else {
      UnlockKeepsBase(s, t, v, ReapOwing(todo, n));
    }
  }

  lemma ReapHeldKeepsBase(s: State, t: Tid, pc': Pc, order: seq<Vid>, gone: set<string>)
    requires Base(s) && t < |s.threads| && Local(s, s.threads[t], t)
    requires var pc := s.threads[t];
      || (pc.ReapMarked? && pc' == ReapRemoved(pc.v, pc.todo, pc.n))
      || (pc.ReapRemoved? && pc' == ReapUnindexed(pc.v, pc.todo, pc.n))
    ensures Base(StepReap(s, t, s.threads[t], order, gone))
  {
    hide Base, Refs, Locks, Knowledge, Reach, Dying;
    HeldKeepsBase(s, StepReap(s, t, s.threads[t], order, gone), t, s.threads[t].v, pc');
  }

  lemma CachedAllExist(s: State, vs: seq<Vid>)
    requires Base(s) && forall i :: 0 <= i < |vs| ==> vs[i] in s.cache.Values
    ensures AllBelow(vs, |s.vals|)
  {
    hide Refs, Locks, Knowledge, Dying;
  }

  lemma ReapWalkKeepsBase(s: State, t: Tid, order: seq<Vid>, gone: set<string>)
    requires Base(s) && t < |s.threads|
    requires (s.threads[t].ReapStart? || s.threads[t] == Reap([]) || s.threads[t].ReapOwing?)
    requires Local(s, s.threads[t], t)
    ensures Base(StepReap(s, t, s.threads[t], order, gone))
  {
    hide Base, Refs, Locks, Knowledge, Reach, Dying, Knows;
    var s' := StepReap(s, t, s.threads[t], order, gone);
    if s' != s {
      if s.threads[t].ReapStart? { CachedAllExist(s, order); }
      hide AllBelow;
      WalkKeepsBase(s, s', t, s'.threads[t]);
    }
  }

  lemma ReapKeepsBase(s: State, t: Tid, order: seq<Vid>, gone: set<string>)
    requires Base(s) && t < |s.threads| && IsReap(s.threads[t]) && Local(s, s.threads[t], t)
    ensures Base(StepReap(s, t, s.threads[t], order, gone))
  {
    hide Base, Refs, Locks, Knowledge, Reach, Dying, Knows;
    match s.threads[t]
    case ReapStart => ReapWalkKeepsBase(s, t, order, gone);
    case Reap(todo) =>
      if todo == [] {
        ReapWalkKeepsBase(s, t, order, gone);
      } else {
        LockKeepsBase(s, t, todo[0], ReapLocked(todo[0], todo[1..]));
      }
    case ReapLocked(v, todo) =>
      if s.vals[v].deleted {
        UnlockKeepsBase(s, t, v, Reap(todo));
      } else {
        ReapSweepKeepsBase(s, t, v, todo, order, gone);
      }
    case ReapSwept(v, todo, n) => ReapSweptKeepsBase(s, t, v, todo, n, order, gone);
    case ReapMarked(v, todo, n) => ReapHeldKeepsBase(s, t, ReapRemoved(v, todo, n), order, gone);
    case ReapRemoved(v, todo, n) => ReapHeldKeepsBase(s, t, ReapUnindexed(v, todo, n), order, gone);
    case ReapUnindexed(v, todo, n) => UnlockKeepsBase(s, t, v, ReapOwing(todo, n));
    case ReapOwing(_, _) => ReapWalkKeepsBase(s, t, order, gone);
  }

  lemma GetKeepsBase(s: State, t: Tid)
    requires Base(s) && t < |s.threads| && (s.threads[t].GetStart? || s.threads[t].GetGot?)
    requires RefsOk(|s.vals|, s.threads[t])
    ensures Base(StepGet(s, t, s.threads[t]))
  {
    hide Base, Refs, Locks, Knowledge, Reach, Dying;
    var s' := StepGet(s, t, s.threads[t]);
    if s' != s {
      if s.threads[t].GetStart? && s.threads[t].key in s.cache { CachedExists(s, s.threads[t].key); }
      WalkKeepsBase(s, s', t, s'.threads[t]);
    }
  }

  lemma StepKeepsBase(s: State, t: Tid, ch: Choice)
    requires Base(s)
    ensures Base(Step(s, t, ch))
  {
    if t < |s.threads| {
      BaseIsLocal(s, t);
      var pc := s.threads[t];
      hide Base, Refs, Locks, Knowledge, Reach, Dying, Knows, Marked;
      if IsAdd(pc) { AddKeepsBase(s, t); }
      else if IsEvict(pc) { EvictKeepsBase(s, t, ch.victim); }
      else if IsReap(pc) { ReapKeepsBase(s, t, ch.order, Gone(s, pc, ch.clock)); }
      else if pc.Idle? { if IsCall(ch.call) { WalkKeepsBase(s, Go(s, t, ch.call), t, ch.call); } }
      else { GetKeepsBase(s, t); }
    }
  }
}
