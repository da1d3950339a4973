/** The counter of the negative assertion cache, over every interleaving: it is the number of stored sections,
    give or take what threads in the middle of an operation still owe it.
 */
module NegCacheCount {
  import opened Names
  import opened NegCacheSteps

  /** Sections of a value that are still in the cache's books. */
  function Weight(value: Value): nat {
    if value.deleted then 0 else |value.sections|
  }

  /** Sum over the first `n` values. */
  function Total(vals: seq<Value>, n: nat): nat
    requires n <= |vals|
  {
    if n == 0 then 0 else Total(vals, n - 1) + Weight(vals[n - 1])
  }

  function SectionsOf(vals: seq<Value>, v: Vid): nat {
    if v < |vals| then |vals[v].sections| else 0
  }

  /** What the counter will still lose through a thread. */
  function Owes(vals: seq<Value>, pc: Pc): int {
    match pc
    case AddStored(_, _) => -1
    case EvictMarked(v) => SectionsOf(vals, v)
    case EvictRemoved(v) => SectionsOf(vals, v)
    case EvictUnindexed(v) => SectionsOf(vals, v)
    case ReapSwept(_, _, n) => n
    case ReapMarked(_, _, n) => n
    case ReapRemoved(_, _, n) => n
    case ReapUnindexed(_, _, n) => n
    case ReapOwing(_, n) => n
    case _ => 0
  }

  /** Sum over the first `n` threads. */
  function Owed(vals: seq<Value>, threads: seq<Pc>, n: nat): int
    requires n <= |threads|
  {
    if n == 0 then 0 else Owed(vals, threads, n - 1) + Owes(vals, threads[n - 1])
  }

  ghost predicate Count(s: State) {
    s.counter == Total(s.vals, |s.vals|) + Owed(s.vals, s.threads, |s.threads|)
  }

  lemma {:induction false} TotalMoves(vals: seq<Value>, vals': seq<Value>, v: Vid, n: nat)
    requires |vals| == |vals'| && v < |vals| && n <= |vals|
    requires forall w :: 0 <= w < |vals| && w != v ==> vals'[w] == vals[w]
    ensures Total(vals', n) == Total(vals, n) + if v < n then Weight(vals'[v]) - Weight(vals[v]) else 0
  {
    if n > 0 { TotalMoves(vals, vals', v, n - 1); }
  }

  lemma {:induction false} OwedMoves(vals: seq<Value>, vals': seq<Value>, threads: seq<Pc>, t: Tid, pc: Pc, n: nat)
    requires t < |threads| && n <= |threads|
    requires forall u :: 0 <= u < |threads| && u != t ==> Owes(vals', threads[u]) == Owes(vals, threads[u])
    ensures Owed(vals', threads[t := pc], n)
         == Owed(vals, threads, n) + if t < n then Owes(vals', pc) - Owes(vals, threads[t]) else 0
  {
    if n > 0 { OwedMoves(vals, vals', threads, t, pc, n - 1); }
  }

  /** Only the holder of `v` owes anything on account of `v`. */
  lemma OthersOweTheSame(s: State, vals': seq<Value>, t: Tid, v: Vid, u: Tid)
    requires Base(s) && v < |s.vals| && u < |s.threads| && u != t && |vals'| == |s.vals|
    requires s.vals[v].lock == None || s.vals[v].lock == Some(t)
    requires forall w :: 0 <= w < |s.vals| && w != v ==> vals'[w] == s.vals[w]
    ensures Owes(vals', s.threads[u]) == Owes(s.vals, s.threads[u])
  {
    BaseIsLocal(s, u);
    hide Base, RefsOk, Knows, Marked, InCache;
  }

  lemma CountMoves(s: State, s': State, t: Tid, v: Vid, pc: Pc)
    requires Base(s) && Count(s) && t < |s.threads| && v < |s.vals| && |s'.vals| == |s.vals|
    requires s.vals[v].lock == None || s.vals[v].lock == Some(t)
    requires s'.threads == s.threads[t := pc]
    requires forall w :: 0 <= w < |s.vals| && w != v ==> s'.vals[w] == s.vals[w]
    requires s'.counter - s.counter
      == Weight(s'.vals[v]) - Weight(s.vals[v]) + Owes(s'.vals, pc) - Owes(s.vals, s.threads[t])
    ensures Count(s')
  {
    hide Base, Weight, Owes;
    forall u | 0 <= u < |s.threads| && u != t ensures Owes(s'.vals, s.threads[u]) == Owes(s.vals, s.threads[u]) {
      OthersOweTheSame(s, s'.vals, t, v, u);
    }
    TotalMoves(s.vals, s'.vals, v, |s.vals|);
    OwedMoves(s.vals, s'.vals, s.threads, t, pc, |s.threads|);
  }

  lemma CountWalks(s: State, s': State, t: Tid, pc: Pc)
    requires Count(s) && t < |s.threads| && s'.threads == s.threads[t := pc] && s'.vals == s.vals
    requires s'.counter - s.counter == Owes(s.vals, pc) - Owes(s.vals, s.threads[t])
    ensures Count(s')
  {
    hide Owes;
    OwedMoves(s.vals, s.vals, s.threads, t, pc, |s.threads|);
  }

  lemma {:induction false} TotalGrows(vals: seq<Value>, value: Value, n: nat)
    requires n <= |vals|
    ensures Total(vals + [value], n) == Total(vals, n)
  {
    if n > 0 { TotalGrows(vals, value, n - 1); }
  }

  lemma OthersOweAsMuch(s: State, value: Value, u: Tid)
    requires Base(s) && u < |s.threads|
    ensures Owes(s.vals + [value], s.threads[u]) == Owes(s.vals, s.threads[u])
  {
    BaseIsLocal(s, u);
    hide Base, Knows, Marked, InCache;
  }

  lemma NewcomersOweNothing(s: State, vals: seq<Value>, t: Tid, pc: Pc)
    requires t < |s.threads| && s.threads[t].AddStart? && pc.AddGot?
    ensures Owes(s.vals, s.threads[t]) == 0 == Owes(vals, pc)
  {
  }

  lemma CountGrows(s: State, s': State, t: Tid, value: Value, pc: Pc)
    requires Base(s) && Count(s) && t < |s.threads| && s'.threads == s.threads[t := pc] && s'.vals == s.vals + [value]
    requires Weight(value) == 0 && s'.counter == s.counter && s.threads[t].AddStart? && pc.AddGot?
    ensures Count(s')
  {
    hide Base, Weight, Owes;
    forall u | 0 <= u < |s.threads| && u != t ensures Owes(s'.vals, s.threads[u]) == Owes(s.vals, s.threads[u]) {
      OthersOweAsMuch(s, value, u);
    }
    NewcomersOweNothing(s, s'.vals, t, pc);
    TotalGrows(s.vals, value, |s.vals|);
    OwedMoves(s.vals, s'.vals, s.threads, t, pc, |s.threads|);
  }

  lemma AddStartKeepsCount(s: State, t: Tid)
    requires Base(s) && Count(s) && t < |s.threads| && s.threads[t].AddStart?
    ensures Count(StepAdd(s, t, s.threads[t]))
  {
    hide Base, Count;
    var pc := s.threads[t];
    var s' := StepAdd(s, t, pc);
    if pc.r.key in s.cache {
      CountWalks(s, s', t, s'.threads[t]);
    } else {
      CountGrows(s, s', t, Value(pc.r.key, pc.r.zone, map[], false, None), s'.threads[t]);
    }
  }

  lemma AddHeldKeepsCount(s: State, t: Tid)
    requires Base(s) && Count(s) && t < |s.threads| && Local(s, s.threads[t], t)
    requires IsAdd(s.threads[t]) && !s.threads[t].AddStart?
    ensures Count(StepAdd(s, t, s.threads[t]))
  {
    hide Base, Count, InCache, Marked, AllBelow;
    var s' := StepAdd(s, t, s.threads[t]);
    if s' != s { CountMoves(s, s', t, s.threads[t].v, s'.threads[t]); }
  }

  lemma AddKeepsCount(s: State, t: Tid)
    requires Base(s) && Count(s) && t < |s.threads| && IsAdd(s.threads[t]) && Local(s, s.threads[t], t)
    ensures Count(StepAdd(s, t, s.threads[t]))
  {
    hide Base, Count, StepAdd, Local;
    if s.threads[t].AddStart? { AddStartKeepsCount(s, t); } else { AddHeldKeepsCount(s, t); }
  }

  lemma EvictWalksCount(s: State, t: Tid, victim: string)
    requires Count(s) && t < |s.threads| && RefsOk(|s.vals|, s.threads[t])
    requires var pc := s.threads[t]; pc.EvictCheck? || pc.EvictPick? || pc.EvictMarked? || pc.EvictRemoved?
    ensures Count(StepEvict(s, t, s.threads[t], victim))
  {
    hide Count, Losing, AllBelow, SectionsOf;
    var s' := StepEvict(s, t, s.threads[t], victim);
    CountWalks(s, s', t, s'.threads[t]);
  }

  lemma EvictPaysCount(s: State, t: Tid, victim: string)
    requires Count(s) && t < |s.threads| && RefsOk(|s.vals|, s.threads[t]) && s.threads[t].EvictUnindexed?
    ensures Count(StepEvict(s, t, s.threads[t], victim))
  {
    hide Count, Losing, AllBelow;
    var s' := StepEvict(s, t, s.threads[t], victim);
    CountWalks(s, s', t, s'.threads[t]);
  }

  lemma EvictMovesCount(s: State, t: Tid, victim: string)
    requires Base(s) && Count(s) && t < |s.threads| && Local(s, s.threads[t], t)
    requires var pc := s.threads[t]; pc.EvictGot? || pc.EvictLocked? || pc.EvictCounted?
    ensures Count(StepEvict(s, t, s.threads[t], victim))
  {
    hide Base, Count, InCache, Marked, AllBelow;
    var s' := StepEvict(s, t, s.threads[t], victim);
    if s' != s { CountMoves(s, s', t, s.threads[t].v, s'.threads[t]); }
  }

  lemma EvictKeepsCount(s: State, t: Tid, victim: string)
    requires Base(s) && Count(s) && t < |s.threads| && IsEvict(s.threads[t]) && Local(s, s.threads[t], t)
    ensures Count(StepEvict(s, t, s.threads[t], victim))
  {
    hide Base, Count, StepEvict, RefsOk, InCache, Knows, Marked;
    var pc := s.threads[t];
    if pc.EvictGot? || pc.EvictLocked? || pc.EvictCounted? {
      EvictMovesCount(s, t, victim);
    } else if pc.EvictUnindexed? {
      EvictPaysCount(s, t, victim);
    } else {
      EvictWalksCount(s, t, victim);
    }
  }

  lemma SweepKeepsCount(s: State, t: Tid, left: map<string, int>, n: nat)
    requires Base(s) && Count(s) && t < |s.threads| && s.threads[t].ReapLocked? && Local(s, s.threads[t], t)
    requires !s.vals[s.threads[t].v].deleted && n == |s.vals[s.threads[t].v].sections| - |left|
    ensures var v := s.threads[t].v;
      Count(Go(Put(s, v, s.vals[v].(sections := left)), t, ReapSwept(v, s.threads[t].todo, n)))
  {
    hide Base, Count, InCache, Marked, Knows, Losing;
    var v := s.threads[t].v;
    var s' := Go(Put(s, v, s.vals[v].(sections := left)), t, ReapSwept(v, s.threads[t].todo, n));
    CountMoves(s, s', t, v, s'.threads[t]);
  }

  lemma MarkKeepsCount(s: State, t: Tid, order: seq<Vid>, gone: set<string>)
    requires Base(s) && Count(s) && t < |s.threads| && s.threads[t].ReapSwept? && Local(s, s.threads[t], t)
    ensures Count(StepReap(s, t, s.threads[t], order, gone))
  {
    hide Base, Count, InCache, Marked;
    var s' := StepReap(s, t, s.threads[t], order, gone);
    CountMoves(s, s', t, s.threads[t].v, s'.threads[t]);
  }

  lemma UnindexedKeepsCount(s: State, t: Tid)
    requires Base(s) && Count(s) && t < |s.threads| && s.threads[t].ReapUnindexed? && Local(s, s.threads[t], t)
    ensures var pc := s.threads[t]; Count(Unlock(s, t, pc.v, ReapOwing(pc.todo, pc.n)))
  {
    hide Base, Count, InCache, Marked, Knows, AllBelow, SectionsOf;
    var pc := s.threads[t];
    UnlockKeepsCount(s, t, pc.v, ReapOwing(pc.todo, pc.n));
  }

  lemma UnreapKeepsCount(s: State, t: Tid, order: seq<Vid>, gone: set<string>)
    requires Base(s) && Count(s) && t < |s.threads| && Local(s, s.threads[t], t)
    requires var pc := s.threads[t]; pc.ReapMarked? || pc.ReapRemoved? || pc.ReapUnindexed?
    ensures Count(StepReap(s, t, s.threads[t], order, gone))
  {
    hide Base, Count, InCache, Marked, Knows, AllBelow, Expired, Losing;
    var pc := s.threads[t];
    if pc.ReapUnindexed? {
      hide Unlock;
      UnindexedKeepsCount(s, t);
    } else {
      var s' := StepReap(s, t, pc, order, gone);
      CountWalks(s, s', t, s'.threads[t]);
    }
  }

  /** Letting go of a value changes no book where the thread owes as much before as after. */
  lemma UnlockKeepsCount(s: State, t: Tid, v: Vid, pc: Pc)
    requires Base(s) && Count(s) && t < |s.threads| && v < |s.vals| && s.vals[v].lock == Some(t)
    requires Owes(Unlock(s, t, v, pc).vals, pc) == Owes(s.vals, s.threads[t])
    ensures Count(Unlock(s, t, v, pc))
  {
    hide Base, Count, Owes;
    CountMoves(s, Unlock(s, t, v, pc), t, v, pc);
  }

  lemma ReapLockedKeepsCount(s: State, t: Tid, order: seq<Vid>, gone: set<string>)
    requires Base(s) && Count(s) && t < |s.threads| && s.threads[t].ReapLocked? && Local(s, s.threads[t], t)
    ensures Count(StepReap(s, t, s.threads[t], order, gone))
  {
    hide Base, Count, InCache, Marked, Knows, AllBelow;
    var pc := s.threads[t];
    if s.vals[pc.v].deleted {
      UnlockKeepsCount(s, t, pc.v, Reap(pc.todo));
    } else {
      SweepKeepsCount(s, t, s.vals[pc.v].sections - gone, Expired(s.vals[pc.v].sections, gone));
    }
  }

  lemma ReapWalkKeepsCount(s: State, t: Tid, order: seq<Vid>, gone: set<string>)
    requires Base(s) && Count(s) && t < |s.threads| && Local(s, s.threads[t], t)
    requires s.threads[t].ReapStart? || s.threads[t].Reap? || s.threads[t].ReapOwing?
    ensures Count(StepReap(s, t, s.threads[t], order, gone))
  {
    hide Base, Count, InCache, Marked, Knows, Losing, Expired;
    var pc := s.threads[t];
    var s' := StepReap(s, t, pc, order, gone);
    if s' != s {
      if pc.Reap? && pc.todo != [] {
        CountMoves(s, s', t, pc.todo[0], s'.threads[t]);
      } else {
        CountWalks(s, s', t, s'.threads[t]);
      }
    }
  }

  lemma ReapKeepsCount(s: State, t: Tid, order: seq<Vid>, gone: set<string>)
    requires Base(s) && Count(s) && t < |s.threads| && IsReap(s.threads[t]) && Local(s, s.threads[t], t)
    ensures Count(StepReap(s, t, s.threads[t], order, gone))
  {
    hide Base, Count, Local, StepReap;
    var pc := s.threads[t];
    if pc.ReapLocked? {
      ReapLockedKeepsCount(s, t, order, gone);
    } else if pc.ReapSwept? {
      MarkKeepsCount(s, t, order, gone);
    } else if pc.ReapMarked? || pc.ReapRemoved? || pc.ReapUnindexed? {
      UnreapKeepsCount(s, t, order, gone);
    } else {
      ReapWalkKeepsCount(s, t, order, gone);
    }
  }

  lemma OtherKeepsCount(s: State, t: Tid, ch: Choice)
    requires Count(s) && t < |s.threads| && RefsOk(|s.vals|, s.threads[t])
    requires !IsAdd(s.threads[t]) && !IsEvict(s.threads[t]) && !IsReap(s.threads[t])
    ensures Count(Step(s, t, ch))
  {
    hide Count, AllBelow, SectionsOf;
    if Step(s, t, ch) != s { CountWalks(s, Step(s, t, ch), t, Step(s, t, ch).threads[t]); }
  }

  lemma StepKeepsCount(s: State, t: Tid, ch: Choice)
    requires Base(s) && Count(s)
    ensures Count(Step(s, t, ch))
  {
    if t < |s.threads| {
      BaseIsLocal(s, t);
      var pc := s.threads[t];
      assert RefsOk(|s.vals|, pc);
      hide Base, Count, Local, RefsOk, StepAdd, StepEvict, StepReap, StepGet;
      if IsAdd(pc) { AddKeepsCount(s, t); }
      else if IsEvict(pc) { EvictKeepsCount(s, t, ch.victim); }
      else if IsReap(pc) { ReapKeepsCount(s, t, ch.order, Gone(s, pc, ch.clock)); }
      else { OtherKeepsCount(s, t, ch); }
    }
  }
}
