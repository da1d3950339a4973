/** The negative assertion cache over whole runs of any number of threads.
 */
module NegCacheRuns {
  import opened Names
  import opened NegCacheSteps
  import opened NegCacheCount
  import opened NegCacheIndex

  /** A schedule: which thread moves next, and what the environment decides for it. */
  function Run(s: State, schedule: seq<(Tid, Choice)>): State
    decreases |schedule|
  {
    if schedule == [] then s else Run(Step(s, schedule[0].0, schedule[0].1), schedule[1..])
  }

  ghost predicate Inv(s: State) {
    Base(s) && Count(s) && Indexed(s)
  }

  lemma {:induction false} NothingOwed(threads: seq<Pc>, n: nat)
    requires n <= |threads| && forall t :: 0 <= t < |threads| ==> threads[t] == Idle
    ensures forall vals :: Owed(vals, threads, n) == 0
  {
    if n > 0 { NothingOwed(threads, n - 1); }
  }

  lemma InitIsInv(max: int, n: nat)
    ensures Inv(Init(max, n))
  {
    NothingOwed(Init(max, n).threads, n);
  }

  lemma {:induction false} RunKeeps(s: State, schedule: seq<(Tid, Choice)>)
    requires Inv(s)
    ensures Inv(Run(s, schedule))
    decreases |schedule|
  {
    hide Base, Count, Indexed, Step;
    if schedule != [] {
      var (t, ch) := schedule[0];
      StepKeepsBase(s, t, ch);
      StepKeepsCount(s, t, ch);
      StepKeepsIndexed(s, t, ch);
      RunKeeps(Step(s, t, ch), schedule[1..]);
    }
  }

  predicate AtRest(s: State) {
    forall t :: 0 <= t < |s.threads| ==> s.threads[t] == Idle
  }

  /** Whenever all threads are idle: no lock is held; a value can be reached exactly when it is not deleted; the
      counter is the number of sections of the reachable values; no index entry is stale; and a cached value is listed
      under its zone exactly when no removal took its entry for another value, which `CalmIsExact` is about. */
  lemma RestIsConsistent(max: int, n: nat, schedule: seq<(Tid, Choice)>)
    requires AtRest(Run(Init(max, n), schedule))
    ensures var s := Run(Init(max, n), schedule);
      && (forall v :: 0 <= v < |s.vals| ==> s.vals[v].lock == None && (InCache(s, v) <==> !s.vals[v].deleted))
      && (forall k :: k in s.cache ==> s.cache[k] < |s.vals| && InCache(s, s.cache[k]))
      && s.counter == Total(s.vals, |s.vals|)
      && (forall e :: e in s.index ==>
        s.index[e] < |s.vals| && Entry(s.vals[s.index[e]]) == e && InCache(s, s.index[e]))
      && (forall v :: 0 <= v < |s.vals| && InCache(s, v) ==> (IsListed(s, v) <==> v !in s.lost))
  {
    InitIsInv(max, n);
    RunKeeps(Init(max, n), schedule);
    var s := Run(Init(max, n), schedule);
    NothingOwed(s.threads, |s.threads|);
    assert forall v :: 0 <= v < |s.vals| ==> s.vals[v].lock == None;
    assert forall v :: 0 <= v < |s.vals| ==> !Made(s, v);
  }

  /** While a thread stores a section, and until it lets go of the value, the value can be reached. */
  lemma StoresAreReachable(max: int, n: nat, schedule: seq<(Tid, Choice)>, t: Tid)
    requires var s := Run(Init(max, n), schedule);
      t < |s.threads| && (s.threads[t].AddIndexed? || s.threads[t].AddStored? || s.threads[t].AddCounted?)
    ensures var s := Run(Init(max, n), schedule);
      s.threads[t].v < |s.vals| && InCache(s, s.threads[t].v) && !s.vals[s.threads[t].v].deleted
  {
    InitIsInv(max, n);
    RunKeeps(Init(max, n), schedule);
    BaseIsLocal(Run(Init(max, n), schedule), t);
  }

  /** No run gets stuck: while some thread is not idle, some thread can go on. */
  lemma NeverStuck(max: int, n: nat, schedule: seq<(Tid, Choice)>)
    requires !AtRest(Run(Init(max, n), schedule))
    ensures exists t, ch :: Step(Run(Init(max, n), schedule), t, ch) != Run(Init(max, n), schedule)
  {
    InitIsInv(max, n);
    RunKeeps(Init(max, n), schedule);
    var s := Run(Init(max, n), schedule);
    hide Run, Step, Base;
    var t :| 0 <= t < |s.threads| && s.threads[t] != Idle;
    var u, ch := SomeGoesOn(s, t);
    assert Step(s, u, ch) != s;
  }

  lemma SomeGoesOn(s: State, t: Tid) returns (u: Tid, ch: Choice)
    requires Base(s) && t < |s.threads| && s.threads[t] != Idle
    ensures Step(s, u, ch) != s
  {
    hide Step, Base;
    var victim := "";
    if key :| key in s.cache && key !in s.pinned { victim := key; }
    ch := Choice(Idle, victim, [], _ => 0);
    if Waits(s, s.threads[t]) {
      var v := if s.threads[t].Reap? then s.threads[t].todo[0] else s.threads[t].v;
      HolderGoesOn(s, v, ch);
      u := s.vals[v].lock.value;
    } else {
      GoesOn(s, t, ch);
      u := t;
    }
  }

  /** The thread is about to take a lock that another holds. */
  predicate Waits(s: State, pc: Pc) {
    match pc
    case AddGot(_, v, _) => v < |s.vals| && s.vals[v].lock.Some?
    case EvictGot(v) => v < |s.vals| && s.vals[v].lock.Some?
    case GetGot(v) => v < |s.vals| && s.vals[v].lock.Some?
    case Reap(todo) => todo != [] && todo[0] < |s.vals| && s.vals[todo[0]].lock.Some?
    case _ => false
  }

  lemma ReapGoesOn(s: State, t: Tid, order: seq<Vid>, gone: set<string>)
    requires t < |s.threads| && IsReap(s.threads[t]) && !Waits(s, s.threads[t]) && order == []
    requires RefsOk(|s.vals|, s.threads[t])
    ensures StepReap(s, t, s.threads[t], order, gone).threads[t] != s.threads[t]
  {
    hide Expired;
  }

  /** The least recently used key is one that may be evicted, if there is one. */
  predicate Offers(s: State, ch: Choice) {
    ch.order == [] && (s.cache.Keys <= s.pinned || (ch.victim in s.cache && ch.victim !in s.pinned))
  }

  lemma GoesOn(s: State, t: Tid, ch: Choice)
    requires Base(s) && t < |s.threads| && s.threads[t] != Idle && !Waits(s, s.threads[t]) && Offers(s, ch)
    ensures Step(s, t, ch) != s
  {
    hide Base, Knows, Marked, InCache, AllBelow;
    BaseIsLocal(s, t);
    if IsReap(s.threads[t]) { ReapGoesOn(s, t, ch.order, Gone(s, s.threads[t], ch.clock)); }
    assert Step(s, t, ch).threads[t] != s.threads[t];
  }

  lemma HolderGoesOn(s: State, v: Vid, ch: Choice)
    requires Base(s) && v < |s.vals| && s.vals[v].lock.Some? && Offers(s, ch)
    ensures Step(s, s.vals[v].lock.value, ch) != s
  {
    var t := s.vals[v].lock.value;
    assert t < |s.threads| && Holds(s.threads[t]) == Some(v);
    hide Base;
    GoesOn(s, t, ch);
  }

  // ---- which schedules lose a listing ----

  /** Thread `u` has taken a value out of the cache and is about to take its entry `e` out of the index. */
  predicate Removes(s: State, u: Tid, e: (string, string)) {
    u < |s.threads| && Removed(s.threads[u]) && s.threads[u].v < |s.vals| && Entry(s.vals[s.threads[u].v]) == e
  }

  /** The next step of `t` lists a new value. */
  predicate ListsNext(s: State, t: Tid) {
    && t < |s.threads| && s.threads[t].AddLocked? && s.threads[t].isNew
    && s.threads[t].v < |s.vals| && !s.vals[s.threads[t].v].deleted
  }

  /** The next step of `t` lists a new value under an entry that another thread is about to take out. */
  ghost predicate Races(s: State, t: Tid) {
    ListsNext(s, t) && exists u :: Removes(s, u, (s.threads[t].r.zone, s.threads[t].r.key))
  }

  /** No step of the schedule races. */
  ghost predicate Calm(s: State, schedule: seq<(Tid, Choice)>)
    decreases |schedule|
  {
    schedule == [] || (!Races(s, schedule[0].0) && Calm(Step(s, schedule[0].0, schedule[0].1), schedule[1..]))
  }

  /** No entry that a thread is about to take out is for a live value. */
  ghost predicate Clear(s: State) {
    s.lost == {} && forall u, e :: Removes(s, u, e) ==> Losing(s, e) == {}
  }

  /** `t` goes on to `pc`; values keep their entries and stay deleted, and nothing is newly listed. */
  ghost predicate Fades(s: State, s': State, t: Tid, pc: Pc) {
    && t < |s.threads| && s'.threads == s.threads[t := pc] && |s.vals| <= |s'.vals|
    && (forall v :: 0 <= v < |s.vals| ==>
      Entry(s'.vals[v]) == Entry(s.vals[v]) && (s.vals[v].deleted ==> s'.vals[v].deleted))
    && (forall e :: e in s'.index ==> e in s.index && s'.index[e] == s.index[e])
  }

  lemma FadingKeepsClear(s: State, s': State, t: Tid, pc: Pc)
    requires Refs(s) && Entries(s) && Clear(s) && Fades(s, s', t, pc) && s'.lost == {}
    requires forall e :: Removes(s', t, e) ==> Losing(s', e) == {}
    ensures Clear(s')
  {
    forall u: Tid, e | Removes(s', u, e) ensures Losing(s', e) == {} {
      if u != t {
        assert RefsOk(|s.vals|, s.threads[u]);
        assert Removes(s, u, e);
      }
    }
  }

  /** Index and record stay as they are, and `t` is not about to take out an entry. */
  ghost predicate Idles(s: State, s': State, t: Tid, pc: Pc) {
    Fades(s, s', t, pc) && s'.lost == s.lost && !Removed(pc)
  }

  lemma IdlingKeepsClear(s: State, s': State, t: Tid, pc: Pc)
    requires Refs(s) && Entries(s) && Clear(s) && Idles(s, s', t, pc)
    ensures Clear(s')
  {
    hide Refs, Entries;
    FadingKeepsClear(s, s', t, pc);
  }

  /** A thread that has marked its value deleted finds no live value under its entry: that one would be cached. */
  lemma MarkedIsClear(s: State, t: Tid, v: Vid)
    requires Base(s) && Entries(s) && t < |s.threads| && Marked(s.threads[t]) && s.threads[t].v == v && v < |s.vals|
    ensures Losing(s, Entry(s.vals[v])) == {}
  {
    assert Holds(s.threads[t]) == Some(v);
    hide Holds, RefsOk, Target, Todo;
    assert Knows(s.threads[t], s.vals[v]) && InCache(s, v);
  }

  lemma RemovingKeepsClear(s: State, s': State, t: Tid, pc: Pc)
    requires Base(s) && Entries(s) && Clear(s) && t < |s.threads| && Marked(s.threads[t]) && s.threads[t].v < |s.vals|
    requires Removed(pc) && pc.v == s.threads[t].v && s' == Go(s, t, pc).(cache := s'.cache)
    ensures Clear(s')
  {
    MarkedIsClear(s, t, pc.v);
    hide Entries, Locks, Knowledge, Reach, Dying, Refs;
    FadingKeepsClear(s, s', t, pc);
  }

  lemma UnlistingKeepsClear(s: State, t: Tid, v: Vid, pc: Pc)
    requires Refs(s) && Entries(s) && Clear(s) && !Removed(pc)
    requires v < |s.vals| && Removes(s, t, Entry(s.vals[v])) && s.threads[t].v == v
    ensures Clear(Unlist(s, t, v, pc))
  {
    hide Entries, Refs;
    IdlingKeepsClear(s, Unlist(s, t, v, pc), t, pc);
  }

  lemma PuttingIdles(s: State, s': State, t: Tid, v: Vid, pc: Pc)
    requires t < |s.threads| && v < |s.vals| == |s'.vals| && !Removed(pc)
    requires s'.threads == s.threads[t := pc] && s'.vals == s.vals[v := s'.vals[v]] && s'.index == s.index
    requires s'.lost == s.lost
    requires Entry(s'.vals[v]) == Entry(s.vals[v]) && (s.vals[v].deleted ==> s'.vals[v].deleted)
    ensures Idles(s, s', t, pc)
  {
  }

  lemma AddIdles(s: State, t: Tid)
    requires t < |s.threads| && IsAdd(s.threads[t]) && RefsOk(|s.vals|, s.threads[t]) && !ListsNext(s, t)
    ensures var s' := StepAdd(s, t, s.threads[t]); s' == s || Idles(s, s', t, s'.threads[t])
  {
    if !s.threads[t].AddStart? {
      var s' := StepAdd(s, t, s.threads[t]);
      hide Idles;
      if s' != s { PuttingIdles(s, s', t, s.threads[t].v, s'.threads[t]); }
    }
  }

  lemma AddKeepsClear(s: State, t: Tid)
    requires Refs(s) && Entries(s) && Clear(s) && t < |s.threads| && IsAdd(s.threads[t])
    requires RefsOk(|s.vals|, s.threads[t])
    ensures StepAdd(s, t, s.threads[t]).lost == {}
    ensures !Races(s, t) ==> Clear(StepAdd(s, t, s.threads[t]))
  {
    var s' := StepAdd(s, t, s.threads[t]);
    hide Refs, Entries;
    if ListsNext(s, t) {
      if !Races(s, t) { ListingKeepsClear(s, s', t); }
    } else {
      AddIdles(s, t);
      hide RefsOk, StepAdd;
      if s' != s { IdlingKeepsClear(s, s', t, s'.threads[t]); }
    }
  }

  lemma ListingKeepsClear(s: State, s': State, t: Tid)
    requires Clear(s) && ListsNext(s, t) && !Races(s, t) && RefsOk(|s.vals|, s.threads[t])
    requires s' == StepAdd(s, t, s.threads[t])
    ensures Clear(s')
  {
    var pc := s.threads[t];
    forall u: Tid, e | Removes(s', u, e) ensures Losing(s', e) == {} {
      assert u != t && Removes(s, u, e);
      assert e != (pc.r.zone, pc.r.key);
    }
  }

  lemma EvictIdles(s: State, t: Tid, victim: string)
    requires t < |s.threads| && IsEvict(s.threads[t]) && RefsOk(|s.vals|, s.threads[t])
    requires !s.threads[t].EvictMarked? && !s.threads[t].EvictRemoved?
    ensures var s' := StepEvict(s, t, s.threads[t], victim); s' == s || Idles(s, s', t, s'.threads[t])
  {
  }

  lemma EvictKeepsClear(s: State, t: Tid, victim: string)
    requires Base(s) && Entries(s) && Clear(s) && t < |s.threads| && IsEvict(s.threads[t])
    requires RefsOk(|s.vals|, s.threads[t])
    ensures Clear(StepEvict(s, t, s.threads[t], victim))
  {
    var pc := s.threads[t];
    var s' := StepEvict(s, t, pc, victim);
    hide Entries, Locks, Knowledge, Reach, Dying, Clear, Refs;
    if pc.EvictMarked? {
      RemovingKeepsClear(s, s', t, EvictRemoved(pc.v));
    } else if pc.EvictRemoved? {
      UnlistingKeepsClear(s, t, pc.v, EvictUnindexed(pc.v));
    } else {
      EvictIdles(s, t, victim);
      hide StepEvict, RefsOk;
      if s' != s { IdlingKeepsClear(s, s', t, s'.threads[t]); }
    }
  }

  lemma ReapIdles(s: State, t: Tid, order: seq<Vid>, gone: set<string>)
    requires t < |s.threads| && IsReap(s.threads[t]) && RefsOk(|s.vals|, s.threads[t])
    requires !s.threads[t].ReapMarked? && !s.threads[t].ReapRemoved?
    ensures var s' := StepReap(s, t, s.threads[t], order, gone); s' == s || Idles(s, s', t, s'.threads[t])
  {
    hide Expired;
    var pc := s.threads[t];
    if Holds(pc).Some? || (pc.Reap? && pc.todo != []) {
      var v := if pc.Reap? then pc.todo[0] else pc.v;
      var s' := StepReap(s, t, pc, order, gone);
      hide Idles;
      if s' != s { PuttingIdles(s, s', t, v, s'.threads[t]); }
    }
  }

  lemma ReapKeepsClear(s: State, t: Tid, order: seq<Vid>, gone: set<string>)
    requires Base(s) && Entries(s) && Clear(s) && t < |s.threads| && IsReap(s.threads[t])
    requires RefsOk(|s.vals|, s.threads[t])
    ensures Clear(StepReap(s, t, s.threads[t], order, gone))
  {
    var pc := s.threads[t];
    var s' := StepReap(s, t, pc, order, gone);
    hide Entries, Locks, Knowledge, Reach, Dying, Clear, Refs, Expired, AllBelow;
    if pc.ReapMarked? {
      RemovingKeepsClear(s, s', t, ReapRemoved(pc.v, pc.todo, pc.n));
    } else if pc.ReapRemoved? {
      UnlistingKeepsClear(s, t, pc.v, ReapUnindexed(pc.v, pc.todo, pc.n));
    } else {
      ReapIdles(s, t, order, gone);
      hide StepReap, RefsOk;
      if s' != s { IdlingKeepsClear(s, s', t, s'.threads[t]); }
    }
  }

  lemma OtherIdles(s: State, t: Tid, ch: Choice)
    requires t < |s.threads| && RefsOk(|s.vals|, s.threads[t])
    requires !IsAdd(s.threads[t]) && !IsEvict(s.threads[t]) && !IsReap(s.threads[t])
    ensures Step(s, t, ch) == s || Idles(s, Step(s, t, ch), t, Step(s, t, ch).threads[t])
  {
  }

  /** From a clear state no step loses a listing, and a step that does not race leads to a clear state. */
  lemma StepKeepsClear(s: State, t: Tid, ch: Choice)
    requires Base(s) && Indexed(s) && Clear(s)
    ensures Step(s, t, ch).lost == {} && (!Races(s, t) ==> Clear(Step(s, t, ch)))
  {
    assert Refs(s) && Entries(s);
    hide Base, Indexed, Refs, Entries, RefsOk, Races, StepAdd, StepEvict, StepReap;
    if t < |s.threads| && RefsOk(|s.vals|, s.threads[t]) {
      var pc := s.threads[t];
      if IsAdd(pc) { AddKeepsClear(s, t); }
      else if IsEvict(pc) { EvictKeepsClear(s, t, ch.victim); }
      else if IsReap(pc) { ReapKeepsClear(s, t, ch.order, Gone(s, pc, ch.clock)); }
      else {
        OtherIdles(s, t, ch);
        hide Step;
        if Step(s, t, ch) != s { IdlingKeepsClear(s, Step(s, t, ch), t, Step(s, t, ch).threads[t]); }
      }
    }
  }

  lemma {:induction false} CalmRun(s: State, schedule: seq<(Tid, Choice)>, i: nat, t: Tid, ch: Choice)
    requires Inv(s) && Clear(s) && Calm(s, schedule) && i <= |schedule|
    ensures Run(s, schedule[..i]).lost == {} == Run(s, schedule[..i] + [(t, ch)]).lost
    decreases i
  {
    hide Base, Count, Indexed, Step, Races, Clear;
    if i == 0 {
      assert schedule[..0] + [(t, ch)] == [(t, ch)];
      assert [(t, ch)][1..] == [];
      assert Run(Step(s, t, ch), []) == Step(s, t, ch);
      StepKeepsClear(s, t, ch);
      ClearIsLossless(s);
    } else {
      var (u, c) := schedule[0];
      StepKeepsBase(s, u, c);
      StepKeepsCount(s, u, c);
      StepKeepsIndexed(s, u, c);
      StepKeepsClear(s, u, c);
      CalmRun(Step(s, u, c), schedule[1..], i - 1, t, ch);
      assert schedule[..i][1..] == schedule[1..][..i - 1];
      assert (schedule[..i] + [(t, ch)])[1..] == schedule[1..][..i - 1] + [(t, ch)];
    }
  }

  lemma ClearIsLossless(s: State)
    requires Clear(s)
    ensures s.lost == {}
  {
  }

  /** The thread about to take the entry out, if it moves next, takes out the live value just listed. */
  lemma RaceLoses(s: State, t: Tid, ch: Choice) returns (u: Tid)
    requires Races(s, t) && Refs(s)
    ensures forall ch' :: Step(Step(s, t, ch), u, ch').lost != {}
  {
    var e := (s.threads[t].r.zone, s.threads[t].r.key);
    u :| Removes(s, u, e);
    assert RefsOk(|s.vals|, s.threads[t]) && RefsOk(|s.vals|, s.threads[u]);
    var s' := StepAdd(s, t, s.threads[t]);
    assert Step(s, t, ch) == s' && s'.vals == s.vals && s'.threads[u] == s.threads[u];
    assert Losing(s', e) != {};
    hide Refs, Races;
    forall ch' ensures Step(s', u, ch').lost != {} {
      RemovalLoses(s', u, e, ch');
    }
  }

  lemma RemovalLoses(s: State, u: Tid, e: (string, string), ch: Choice)
    requires Removes(s, u, e) && RefsOk(|s.vals|, s.threads[u]) && Losing(s, e) != {}
    ensures Step(s, u, ch).lost != {}
  {
    hide Losing, AllBelow, Expired;
    assert Step(s, u, ch).lost == s.lost + Losing(s, e);
  }

  lemma RunFirst(s: State, schedule: seq<(Tid, Choice)>)
    requires schedule != []
    ensures Run(s, schedule) == Run(Step(s, schedule[0].0, schedule[0].1), schedule[1..])
  {
  }

  lemma RaceLosesNow(s: State, t: Tid, c: Choice, ch: Choice) returns (u: Tid)
    requires Refs(s) && Races(s, t)
    ensures Run(s, [(t, c), (u, ch)]).lost != {}
  {
    u := RaceLoses(s, t, c);
    var one, two := [(u, ch)], [(t, c), (u, ch)];
    assert two[1..] == one && one[1..] == [];
    hide Step, Races, Refs;
    RunFirst(s, two);
    RunFirst(Step(s, t, c), one);
  }

  lemma StepKeepsInv(s: State, t: Tid, ch: Choice)
    requires Inv(s)
    ensures Inv(Step(s, t, ch))
  {
    hide Base, Count, Indexed, Step;
    StepKeepsBase(s, t, ch);
    StepKeepsCount(s, t, ch);
    StepKeepsIndexed(s, t, ch);
  }

  /** A run that starts with the schedule's first step. */
  lemma LongerRun(s: State, schedule: seq<(Tid, Choice)>, j: nat, last: (Tid, Choice))
    requires j < |schedule|
    ensures Run(s, schedule[..j + 1] + [last])
         == Run(Step(s, schedule[0].0, schedule[0].1), schedule[1..][..j] + [last])
  {
    hide Run, Step;
    var longer := schedule[..j + 1] + [last];
    assert longer[0] == schedule[0] && longer[1..] == schedule[1..][..j] + [last];
    RunFirst(s, longer);
  }

  lemma NotCalm(s: State, schedule: seq<(Tid, Choice)>)
    requires Inv(s) && !Calm(s, schedule)
    ensures Refs(s) && schedule != []
    ensures Races(s, schedule[0].0) || !Calm(Step(s, schedule[0].0, schedule[0].1), schedule[1..])
  {
    hide Count, Indexed, Locks, Knowledge, Reach, Dying, Step, Races, Refs;
  }

  lemma {:induction false} RacesLose(s: State, schedule: seq<(Tid, Choice)>, ch: Choice) returns (i: nat, u: Tid)
    requires Inv(s) && !Calm(s, schedule)
    ensures i <= |schedule| && Run(s, schedule[..i] + [(u, ch)]).lost != {}
    decreases |schedule|
  {
    hide *;
    NotCalm(s, schedule);
    var first := schedule[0];
    if Races(s, first.0) {
      u := RaceLosesNow(s, first.0, first.1, ch);
      i := 1;
      assert schedule[..1] + [(u, ch)] == [(first.0, first.1), (u, ch)];
    } else {
      StepKeepsInv(s, first.0, first.1);
      var j;
      j, u := RacesLose(Step(s, first.0, first.1), schedule[1..], ch);
      i := j + 1;
      LongerRun(s, schedule, j, (u, ch));
    }
  }

  /** A schedule can at no point go on to lose the listing of a live value if and only if none of its steps races:
      lists a new value under an entry that another thread is about to take out. */
  lemma CalmIsExact(max: int, n: nat, schedule: seq<(Tid, Choice)>)
    ensures Calm(Init(max, n), schedule) <==>
      forall i, t, ch :: 0 <= i <= |schedule| ==> Run(Init(max, n), schedule[..i] + [(t, ch)]).lost == {}
  {
    var s := Init(max, n);
    InitIsInv(max, n);
    hide Inv, Calm, Run, Init;
    if Calm(s, schedule) {
      assert Clear(s) by { InitIsClear(max, n); }
      forall i, t, ch | 0 <= i <= |schedule| ensures Run(s, schedule[..i] + [(t, ch)]).lost == {} {
        CalmRun(s, schedule, i, t, ch);
      }
    } else {
      var i, u := RacesLose(s, schedule, Choice(Idle, "", [], _ => 0));
    }
  }

  lemma InitIsClear(max: int, n: nat)
    ensures Clear(Init(max, n))
  {
  }

  /** So after a calm schedule, whenever all threads are idle, every cached value is listed under its zone. */
  lemma CalmRestIsComplete(max: int, n: nat, schedule: seq<(Tid, Choice)>, v: Vid)
    requires AtRest(Run(Init(max, n), schedule)) && Calm(Init(max, n), schedule)
    requires v < |Run(Init(max, n), schedule).vals| && InCache(Run(Init(max, n), schedule), v)
    ensures IsListed(Run(Init(max, n), schedule), v)
  {
    RestIsConsistent(max, n, schedule);
    InitIsInv(max, n);
    InitIsClear(max, n);
    CalmRun(Init(max, n), schedule, |schedule|, 0, Choice(Idle, "", [], _ => 0));
    assert schedule[..|schedule|] == schedule;
  }

  lemma {:induction false} OneThreadIsCalm(s: State, schedule: seq<(Tid, Choice)>)
    requires |s.threads| == 1
    ensures Calm(s, schedule)
    decreases |schedule|
  {
    if schedule != [] {
      assert |Step(s, schedule[0].0, schedule[0].1).threads| == 1 by { hide Expired; }
      hide Step;
      OneThreadIsCalm(Step(s, schedule[0].0, schedule[0].1), schedule[1..]);
    }
  }

  lemma OneThreadLosesNothing(max: int, schedule: seq<(Tid, Choice)>)
    ensures Run(Init(max, 1), schedule).lost == {}
  {
    InitIsInv(max, 1);
    InitIsClear(max, 1);
    OneThreadIsCalm(Init(max, 1), schedule);
    CalmRun(Init(max, 1), schedule, |schedule|, 0, Choice(Idle, "", [], _ => 0));
    assert schedule[..|schedule|] == schedule;
  }

  // ---- the index can miss a cached value ----

  ghost predicate Reachable(max: int, n: nat, s: State) {
    exists schedule :: Run(Init(max, n), schedule) == s
  }

  lemma {:induction false} RunOneMore(s: State, schedule: seq<(Tid, Choice)>, t: Tid, ch: Choice)
    ensures Run(s, schedule + [(t, ch)]) == Step(Run(s, schedule), t, ch)
    decreases |schedule|
  {
    hide Step;
    if schedule == [] {
      assert [(t, ch)][1..] == [];
      assert Run(Step(s, t, ch), []) == Step(s, t, ch);
    } else {
      assert (schedule + [(t, ch)])[1..] == schedule[1..] + [(t, ch)];
      RunOneMore(Step(s, schedule[0].0, schedule[0].1), schedule[1..], t, ch);
    }
  }

  lemma Then(max: int, n: nat, s: State, t: Tid, ch: Choice)
    requires Reachable(max, n, s)
    ensures Reachable(max, n, Step(s, t, ch))
  {
    hide Step;
    var schedule :| Run(Init(max, n), schedule) == s;
    RunOneMore(Init(max, n), schedule, t, ch);
  }
}
