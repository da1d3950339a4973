/** What a call of `add` leaves behind in the negative assertion cache, and how a section gets out of it again, over
    whole runs of any number of threads.
 */
module NegCacheStores {
  import opened Names
  import opened NegCacheSteps
  import NegCacheCount
  import NegCacheIndex
  import opened NegCacheRuns

  // ---- one step ----

  /** Thread `u` moves: the other threads stay where they are, and a value that another thread holds stays as it is. */
  ghost predicate Touches(s: State, s': State, u: Tid) {
    && |s'.threads| == |s.threads| && |s.vals| <= |s'.vals|
    && (forall t :: 0 <= t < |s.threads| && t != u ==> s'.threads[t] == s.threads[t])
    && (forall w :: 0 <= w < |s.vals| ==>
          s'.vals[w] == s.vals[w] || s.vals[w].lock == None || (u < |s.threads| && Holds(s.threads[u]) == Some(w)))
  }

  lemma AddTouches(s: State, u: Tid)
    requires u < |s.threads| && IsAdd(s.threads[u]) && RefsOk(|s.vals|, s.threads[u])
    ensures Touches(s, StepAdd(s, u, s.threads[u]), u)
  {
  }

  lemma EvictTouches(s: State, u: Tid, victim: string)
    requires u < |s.threads| && IsEvict(s.threads[u]) && RefsOk(|s.vals|, s.threads[u])
    ensures Touches(s, StepEvict(s, u, s.threads[u], victim), u)
  {
  }

  lemma ReapTouches(s: State, u: Tid, order: seq<Vid>, gone: set<string>)
    requires u < |s.threads| && IsReap(s.threads[u]) && RefsOk(|s.vals|, s.threads[u])
    ensures Touches(s, StepReap(s, u, s.threads[u], order, gone), u)
  {
    hide Expired;
  }

  lemma StepTouches(s: State, u: Tid, ch: Choice)
    ensures Touches(s, Step(s, u, ch), u)
  {
    if u < |s.threads| && RefsOk(|s.vals|, s.threads[u]) {
      var pc := s.threads[u];
      hide StepAdd, StepEvict, StepReap, Gone, Expired;
      if IsAdd(pc) { AddTouches(s, u); }
      else if IsEvict(pc) { EvictTouches(s, u, ch.victim); }
      else if IsReap(pc) { ReapTouches(s, u, ch.order, Gone(s, pc, ch.clock)); }
    }
  }

  /** The thread stores its section, which the value does not have. */
  predicate Stores(pc: Pc, w: Vid, old_: map<string, int>, now: map<string, int>) {
    && pc.AddIndexed? && pc.v == w && pc.r.hash !in old_
    && now == old_[pc.r.hash := pc.r.expiration]
  }

  /** The thread sweeps the value: the sections whose time is over go, and the others stay. */
  ghost predicate Sweeps(pc: Pc, w: Vid, clock: string -> int, old_: map<string, int>, now: map<string, int>) {
    && pc.ReapLocked? && pc.v == w
    && (forall h :: h in now <==> h in old_ && old_[h] >= clock(h))
    && (forall h :: h in now ==> now[h] == old_[h])
  }

  /** What a step of a thread at `pc` may do to a value: store a section, sweep, evict, or delete it when empty. */
  ghost predicate Alters(pc: Pc, w: Vid, clock: string -> int, x: Value, x': Value) {
    && x'.key == x.key && x'.zone == x.zone
    && (x'.sections == x.sections || Stores(pc, w, x.sections, x'.sections)
        || Sweeps(pc, w, clock, x.sections, x'.sections))
    && (x.deleted ==> x'.deleted)
    && (x'.deleted && !x.deleted ==> pc == EvictLocked(w) || x.sections == map[])
  }

  lemma StoringAlters(s: State, u: Tid, clock: string -> int, w: Vid)
    requires u < |s.threads| && s.threads[u].AddIndexed? && s.threads[u].v < |s.vals| && w < |s.vals|
    ensures var s' := StepAdd(s, u, s.threads[u]);
      w < |s'.vals| && Alters(s.threads[u], w, clock, s.vals[w], s'.vals[w])
  {
    hide Sweeps;
  }

  lemma AddAlters(s: State, u: Tid, clock: string -> int, w: Vid)
    requires u < |s.threads| && IsAdd(s.threads[u]) && RefsOk(|s.vals|, s.threads[u]) && w < |s.vals|
    ensures var s' := StepAdd(s, u, s.threads[u]);
      w < |s'.vals| && Alters(s.threads[u], w, clock, s.vals[w], s'.vals[w])
  {
    if s.threads[u].AddIndexed? {
      hide StepAdd, Alters;
      StoringAlters(s, u, clock, w);
    } else {
      hide Sweeps, Stores;
    }
  }

  lemma EvictAlters(s: State, u: Tid, victim: string, clock: string -> int, w: Vid)
    requires u < |s.threads| && IsEvict(s.threads[u]) && RefsOk(|s.vals|, s.threads[u]) && w < |s.vals|
    ensures var s' := StepEvict(s, u, s.threads[u], victim);
      w < |s'.vals| && Alters(s.threads[u], w, clock, s.vals[w], s'.vals[w])
  {
    hide Sweeps, Stores;
  }

  lemma SweepingAlters(s: State, u: Tid, order: seq<Vid>, clock: string -> int, w: Vid)
    requires u < |s.threads| && s.threads[u].ReapLocked? && RefsOk(|s.vals|, s.threads[u]) && w < |s.vals|
    ensures var s' := StepReap(s, u, s.threads[u], order, Gone(s, s.threads[u], clock));
      w < |s'.vals| && Alters(s.threads[u], w, clock, s.vals[w], s'.vals[w])
  {
    hide Stores, Expired;
  }

  lemma ReapAlters(s: State, u: Tid, order: seq<Vid>, clock: string -> int, w: Vid)
    requires u < |s.threads| && IsReap(s.threads[u]) && RefsOk(|s.vals|, s.threads[u]) && w < |s.vals|
    ensures var s' := StepReap(s, u, s.threads[u], order, Gone(s, s.threads[u], clock));
      w < |s'.vals| && Alters(s.threads[u], w, clock, s.vals[w], s'.vals[w])
  {
    if s.threads[u].ReapLocked? {
      hide StepReap, Alters;
      SweepingAlters(s, u, order, clock, w);
    } else {
      hide Stores, Sweeps, Expired, Gone;
    }
  }

  lemma StepAlters(s: State, u: Tid, ch: Choice, w: Vid)
    requires w < |s.vals|
    ensures var s' := Step(s, u, ch);
      && w < |s'.vals|
      && if u < |s.threads| then Alters(s.threads[u], w, ch.clock, s.vals[w], s'.vals[w]) else s' == s
  {
    if u < |s.threads| && RefsOk(|s.vals|, s.threads[u]) {
      var pc := s.threads[u];
      hide StepAdd, StepEvict, StepReap, Gone, Stores, Sweeps;
      if IsAdd(pc) { AddAlters(s, u, ch.clock, w); }
      else if IsEvict(pc) { EvictAlters(s, u, ch.victim, ch.clock, w); }
      else if IsReap(pc) { ReapAlters(s, u, ch.order, ch.clock, w); }
    }
  }

  // ---- a section stays until it is evicted or its time is over ----

  /** The state before step `k` of the schedule. */
  ghost function At(max: int, n: nat, schedule: seq<(Tid, Choice)>, k: nat): State
    requires k <= |schedule|
  {
    Run(Init(max, n), schedule[..k])
  }

  lemma AtNext(max: int, n: nat, schedule: seq<(Tid, Choice)>, k: nat)
    requires k < |schedule|
    ensures At(max, n, schedule, k + 1) == Step(At(max, n, schedule, k), schedule[k].0, schedule[k].1)
  {
    hide Step;
    assert schedule[..k + 1] == schedule[..k] + [(schedule[k].0, schedule[k].1)];
    RunOneMore(Init(max, n), schedule[..k], schedule[k].0, schedule[k].1);
  }

  lemma AtIsInv(max: int, n: nat, schedule: seq<(Tid, Choice)>, k: nat)
    requires k <= |schedule|
    ensures Base(At(max, n, schedule, k))
  {
    hide Base, NegCacheCount.Count, NegCacheIndex.Indexed, Step;
    InitIsInv(max, n);
    RunKeeps(Init(max, n), schedule[..k]);
  }

  /** Value `v` is cached under its key and has section `h`, good until `e`. */
  predicate Has(s: State, v: Vid, h: string, e: int) {
    && v < |s.vals| && !s.vals[v].deleted && InCache(s, v)
    && h in s.vals[v].sections && s.vals[v].sections[h] == e
  }

  /** At step `k` a thread marks `v` for eviction. */
  ghost predicate EvictsAt(max: int, n: nat, schedule: seq<(Tid, Choice)>, k: nat, v: Vid) {
    && k < |schedule|
    && var s, t := At(max, n, schedule, k), schedule[k].0;
       t < |s.threads| && s.threads[t] == EvictLocked(v)
  }

  /** At step `k` a thread sweeps `v` and reads a time after `e` for section `h`. */
  ghost predicate ExpiresAt(max: int, n: nat, schedule: seq<(Tid, Choice)>, k: nat, v: Vid, h: string, e: int) {
    && k < |schedule|
    && var s, t := At(max, n, schedule, k), schedule[k].0;
       && t < |s.threads| && s.threads[t].ReapLocked? && s.threads[t].v == v
       && e < schedule[k].1.clock(h)
  }

  lemma StaysNext(max: int, n: nat, schedule: seq<(Tid, Choice)>, k: nat, v: Vid, h: string, e: int)
    requires k < |schedule| && Has(At(max, n, schedule, k), v, h, e)
    requires !EvictsAt(max, n, schedule, k, v) && !ExpiresAt(max, n, schedule, k, v, h, e)
    ensures Has(At(max, n, schedule, k + 1), v, h, e)
  {
    var s, s' := At(max, n, schedule, k), At(max, n, schedule, k + 1);
    AtNext(max, n, schedule, k);
    AtIsInv(max, n, schedule, k + 1);
    StepAlters(s, schedule[k].0, schedule[k].1, v);
    assert Reach(s');
    hide Step, Run, Base;
  }

  /** A section that a cached value has is there later, good until the same time and with the value cached, unless in
      between the value was evicted or a sweep read a time after that for the section. */
  lemma {:induction false} SectionStays(max: int, n: nat, schedule: seq<(Tid, Choice)>, i: nat, j: nat,
                                        v: Vid, h: string, e: int)
    requires i <= j <= |schedule| && Has(At(max, n, schedule, i), v, h, e)
    ensures || Has(At(max, n, schedule, j), v, h, e)
            || exists k :: i <= k < j && (EvictsAt(max, n, schedule, k, v) || ExpiresAt(max, n, schedule, k, v, h, e))
    decreases j
  {
    hide At, Has, EvictsAt, ExpiresAt;
    if i < j {
      SectionStays(max, n, schedule, i, j - 1, v, h, e);
      if Has(At(max, n, schedule, j - 1), v, h, e) && !EvictsAt(max, n, schedule, j - 1, v)
         && !ExpiresAt(max, n, schedule, j - 1, v, h, e) {
        StaysNext(max, n, schedule, j - 1, v, h, e);
      }
    }
  }

  /** A sweep that finds a value not deleted leaves it exactly the sections whose time is not over, as they were. */
  lemma SweepIsExact(max: int, n: nat, schedule: seq<(Tid, Choice)>, k: nat, v: Vid)
    requires k < |schedule|
    requires var s, t := At(max, n, schedule, k), schedule[k].0;
      t < |s.threads| && s.threads[t].ReapLocked? && s.threads[t].v == v < |s.vals| && !s.vals[v].deleted
    ensures var s, s' := At(max, n, schedule, k), At(max, n, schedule, k + 1);
      && v < |s'.vals|
      && (forall h :: h in s'.vals[v].sections <==>
            h in s.vals[v].sections && s.vals[v].sections[h] >= schedule[k].1.clock(h))
      && (forall h :: h in s'.vals[v].sections ==> s'.vals[v].sections[h] == s.vals[v].sections[h])
  {
    AtNext(max, n, schedule, k);
    AtIsInv(max, n, schedule, k);
    BaseIsLocal(At(max, n, schedule, k), schedule[k].0);
    hide Run, Base, StepAdd, StepEvict, Expired;
  }

  // ---- what a call of add leaves behind ----

  /** The thread is in `add` with request `r`. */
  predicate InAdd(s: State, t: Tid, r: Request) {
    t < |s.threads| && IsAdd(s.threads[t]) && s.threads[t].r == r
  }

  /** And it holds the lock of `v`. */
  predicate InLock(s: State, t: Tid, r: Request, v: Vid) {
    InAdd(s, t, r) && Holds(s.threads[t]) == Some(v) && v < |s.vals|
  }

  /** What the thread has done to the sections of `v` since it found them as `before`. */
  predicate SoFar(pc: Pc, r: Request, before: map<string, int>, now: map<string, int>) {
    if pc.AddStored? || pc.AddCounted? then r.hash !in before && now == before[r.hash := r.expiration]
    else now == before
  }

  lemma OwnStep(s: State, t: Tid, ch: Choice)
    requires t < |s.threads| && RefsOk(|s.vals|, s.threads[t])
    ensures var s' := Step(s, t, ch);
      && t < |s'.threads|
      && var pc, pc' := s.threads[t], s'.threads[t];
      && (IsAdd(pc') ==> if IsAdd(pc) then pc'.r == pc.r else pc.Idle? && ch.call == pc' && pc'.AddStart?)
      && (pc'.AddLocked? ==> IsAdd(pc) && pc == AddGot(pc'.r, pc'.v, pc'.isNew))
      && (pc'.AddIndexed? ==> pc.AddLocked? && pc.v == pc'.v)
      && (pc'.AddStored? ==> pc.AddIndexed? && pc.v == pc'.v)
      && (pc'.AddCounted? ==> pc.AddStored? && pc.v == pc'.v)
  {
    hide StepReap, StepEvict, Gone;
    if IsEvict(s.threads[t]) { EvictStaysOut(s, t, ch.victim); }
    if IsReap(s.threads[t]) { ReapStaysOut(s, t, ch.order, Gone(s, s.threads[t], ch.clock)); }
  }

  lemma EvictStaysOut(s: State, t: Tid, victim: string)
    requires t < |s.threads| && IsEvict(s.threads[t]) && RefsOk(|s.vals|, s.threads[t])
    ensures var s' := StepEvict(s, t, s.threads[t], victim); t < |s'.threads| && !IsAdd(s'.threads[t])
  {
  }

  lemma ReapStaysOut(s: State, t: Tid, order: seq<Vid>, gone: set<string>)
    requires t < |s.threads| && IsReap(s.threads[t]) && RefsOk(|s.vals|, s.threads[t])
    ensures var s' := StepReap(s, t, s.threads[t], order, gone); t < |s'.threads| && !IsAdd(s'.threads[t])
  {
    hide Expired;
  }

  /** What the own step does to the value: only the step to `AddStored` changes its sections. */
  lemma OwnSections(s: State, t: Tid, ch: Choice, v: Vid)
    requires t < |s.threads| && RefsOk(|s.vals|, s.threads[t]) && v < |s.vals|
    requires s.threads[t].AddGot? || s.threads[t].AddLocked? || s.threads[t].AddIndexed?
      || s.threads[t].AddStored? || s.threads[t].AddCounted?
    requires s.threads[t].v == v
    ensures var s' := Step(s, t, ch);
      && t < |s'.threads| && v < |s'.vals|
      && var pc, pc' := s.threads[t], s'.threads[t];
      && (pc'.AddStored? ==>
            && pc.r.hash !in s.vals[v].sections
            && s'.vals[v].sections == s.vals[v].sections[pc.r.hash := pc.r.expiration])
      && (!pc'.AddStored? ==> s'.vals[v].sections == s.vals[v].sections)
      && (pc'.EvictCheck? ==> pc.AddCounted? || (pc.AddIndexed? && pc.r.hash in s.vals[v].sections))
  {
    hide StepReap, StepEvict, Gone;
  }

  /** The step of a thread that goes to a value in `add`: a value under the request's key. */
  lemma OwnStart(s: State, t: Tid, ch: Choice)
    requires Reach(s) && t < |s.threads| && s.threads[t].AddStart?
    ensures var s' := Step(s, t, ch);
      && t < |s'.threads|
      && var goal := Target(s'.threads[t]);
         goal.Some? ==> goal.value < |s'.vals| && s'.vals[goal.value].key == s.threads[t].r.key
  {
    hide StepReap, StepEvict, Gone;
  }

  lemma OwnTarget(s: State, t: Tid, ch: Choice)
    requires t < |s.threads| && RefsOk(|s.vals|, s.threads[t]) && IsAdd(s.threads[t]) && !s.threads[t].AddStart?
    ensures var s' := Step(s, t, ch);
      && t < |s'.threads|
      && (IsAdd(s'.threads[t]) && Target(s'.threads[t]).Some? ==> Target(s'.threads[t]) == Target(s.threads[t]))
  {
    hide StepReap, StepEvict, Gone;
  }

  lemma HeldIsPrivate(s: State, u: Tid, ch: Choice, t: Tid, v: Vid)
    requires Base(s) && t < |s.threads| && t != u && Holds(s.threads[t]) == Some(v) && v < |s.vals|
    ensures v < |Step(s, u, ch).vals| && Step(s, u, ch).vals[v] == s.vals[v]
  {
    StepTouches(s, u, ch);
    assert Locks(s);
    hide Step, Refs, Knowledge, Reach, Dying, Holds;
  }

  /** What is known of the states before and after step `k`. */
  lemma AtStep(max: int, n: nat, schedule: seq<(Tid, Choice)>, k: nat, t: Tid)
    requires k < |schedule|
    ensures var s, s' := At(max, n, schedule, k), At(max, n, schedule, k + 1);
      && s' == Step(s, schedule[k].0, schedule[k].1) && Base(s) && Reach(s) && |s'.threads| == |s.threads|
      && (t < |s.threads| ==>
            RefsOk(|s.vals|, s.threads[t]) && (Target(s.threads[t]).Some? ==> Target(s.threads[t]).value < |s.vals|))
      && (t < |s.threads| && t != schedule[k].0 ==> s'.threads[t] == s.threads[t])
  {
    var s := At(max, n, schedule, k);
    AtNext(max, n, schedule, k);
    AtIsInv(max, n, schedule, k);
    assert Reach(s);
    hide Step, Base;
    StepTouches(s, schedule[k].0, schedule[k].1);
    if t < |s.threads| { BaseIsLocal(s, t); }
  }

  /** At step `c` the idle thread is called with `r`, and it is in `add` for `r` up to `k`. */
  ghost predicate Called(max: int, n: nat, schedule: seq<(Tid, Choice)>, c: nat, k: nat, t: Tid, r: Request) {
    && c < k <= |schedule| && schedule[c].0 == t && schedule[c].1.call == AddStart(r)
    && t < |At(max, n, schedule, c).threads| && At(max, n, schedule, c).threads[t] == Idle
    && forall m: nat :: c < m <= k ==> InAdd(At(max, n, schedule, m), t, r)
  }

  lemma InAddBefore(max: int, n: nat, schedule: seq<(Tid, Choice)>, k: nat, t: Tid, r: Request)
    requires k < |schedule| && InAdd(At(max, n, schedule, k + 1), t, r)
    ensures var s := At(max, n, schedule, k);
      || InAdd(s, t, r)
      || (t < |s.threads| && s.threads[t] == Idle && schedule[k].0 == t && schedule[k].1.call == AddStart(r))
  {
    AtStep(max, n, schedule, k, t);
    hide At, Base, RefsOk, Step;
    if schedule[k].0 == t {
      OwnStep(At(max, n, schedule, k), t, schedule[k].1);
    }
  }

  lemma FirstAt(max: int, n: nat, schedule: seq<(Tid, Choice)>, t: Tid, r: Request)
    ensures !InAdd(At(max, n, schedule, 0), t, r)
  {
  }

  lemma {:induction false} CalledFirst(max: int, n: nat, schedule: seq<(Tid, Choice)>, k: nat, t: Tid, r: Request)
    returns (c: nat)
    requires k <= |schedule| && InAdd(At(max, n, schedule, k), t, r)
    ensures Called(max, n, schedule, c, k, t, r)
  {
    FirstAt(max, n, schedule, t, r);
    InAddBefore(max, n, schedule, k - 1, t, r);
    hide At, InAdd;
    if InAdd(At(max, n, schedule, k - 1), t, r) {
      c := CalledFirst(max, n, schedule, k - 1, t, r);
    } else {
      c := k - 1;
    }
  }

  /** The thread waits for the lock of `v` before step `i` and holds it up to `k`. */
  ghost predicate LockedAt(max: int, n: nat, schedule: seq<(Tid, Choice)>, i: nat, k: nat, t: Tid, r: Request, v: Vid) {
    && i < k <= |schedule|
    && InAdd(At(max, n, schedule, i), t, r) && v < |At(max, n, schedule, i).vals|
    && At(max, n, schedule, i).threads[t].AddGot? && At(max, n, schedule, i).threads[t].v == v
    && forall m: nat :: i < m <= k ==> InLock(At(max, n, schedule, m), t, r, v)
  }

  lemma InLockBefore(max: int, n: nat, schedule: seq<(Tid, Choice)>, k: nat, t: Tid, r: Request, v: Vid)
    requires k < |schedule| && InLock(At(max, n, schedule, k + 1), t, r, v)
    ensures var s, s' := At(max, n, schedule, k), At(max, n, schedule, k + 1);
      && InAdd(s, t, r) && v < |s.vals|
      && if InLock(s, t, r, v) then
           forall before :: SoFar(s.threads[t], r, before, s.vals[v].sections) ==>
                            SoFar(s'.threads[t], r, before, s'.vals[v].sections)
         else
           && s.threads[t].AddGot? && s.threads[t].v == v
           && SoFar(s'.threads[t], r, s.vals[v].sections, s'.vals[v].sections)
  {
    AtStep(max, n, schedule, k, t);
    var s, ch := At(max, n, schedule, k), schedule[k].1;
    hide At, Base, RefsOk, Step;
    if schedule[k].0 != t {
      HeldIsPrivate(s, schedule[k].0, ch, t, v);
    } else {
      OwnStep(s, t, ch);
      OwnSections(s, t, ch, v);
    }
  }

  lemma {:induction false} LockedSince(max: int, n: nat, schedule: seq<(Tid, Choice)>, k: nat, t: Tid, r: Request,
                                       v: Vid) returns (i: nat)
    requires k <= |schedule| && InLock(At(max, n, schedule, k), t, r, v)
    ensures LockedAt(max, n, schedule, i, k, t, r, v)
    ensures SoFar(At(max, n, schedule, k).threads[t], r, At(max, n, schedule, i).vals[v].sections,
                  At(max, n, schedule, k).vals[v].sections)
  {
    FirstAt(max, n, schedule, t, r);
    hide At;
    InLockBefore(max, n, schedule, k - 1, t, r, v);
    hide SoFar;
    if InLock(At(max, n, schedule, k - 1), t, r, v) {
      i := LockedSince(max, n, schedule, k - 1, t, r, v);
    } else {
      i := k - 1;
    }
    hide InLock, InAdd;
  }

  lemma {:induction false} KeyAt(max: int, n: nat, schedule: seq<(Tid, Choice)>, k: nat, t: Tid, r: Request, v: Vid)
    requires k <= |schedule| && InAdd(At(max, n, schedule, k), t, r)
    requires Target(At(max, n, schedule, k).threads[t]) == Some(v)
    ensures v < |At(max, n, schedule, k).vals| && At(max, n, schedule, k).vals[v].key == r.key
  {
    if k == 0 {
      assert false;
    } else {
      AtStep(max, n, schedule, k - 1, t);
      var s, u, ch := At(max, n, schedule, k - 1), schedule[k - 1].0, schedule[k - 1].1;
      hide At, Base, RefsOk, Step;
      if u == t {
        OwnStep(s, t, ch);
        if s.threads[t].AddStart? { OwnStart(s, t, ch); } else { OwnTarget(s, t, ch); }
      }
      if u != t || !s.threads[t].AddStart? {
        KeyAt(max, n, schedule, k - 1, t, r, v);
        StepAlters(s, u, ch, v);
      }
    }
  }

  lemma Leaves(s: State, t: Tid, ch: Choice)
    requires t < |s.threads| && RefsOk(|s.vals|, s.threads[t]) && IsAdd(s.threads[t])
    ensures var s' := Step(s, t, ch);
      && t < |s'.threads|
      && (s'.threads[t].EvictCheck? ==> s.threads[t].AddIndexed? || s.threads[t].AddCounted?)
  {
    hide StepReap, StepEvict, Gone;
  }

  /** Every run, at the step that takes a thread from `add` to eviction. The thread was idle when it was called with its
      request. Since it took the lock of a value, one section may have come to that value: the request's, with the
      request's expiration, if it was not there. The value is cached under the request's key. */
  lemma AddStores(max: int, n: nat, schedule: seq<(Tid, Choice)>, k: nat, t: Tid) returns (c: nat, i: nat, v: Vid)
    requires k < |schedule|
    requires var s, s' := At(max, n, schedule, k), At(max, n, schedule, k + 1);
      t < |s.threads| && t < |s'.threads| && IsAdd(s.threads[t]) && s'.threads[t].EvictCheck?
    ensures var s, s' := At(max, n, schedule, k), At(max, n, schedule, k + 1);
      var r := s.threads[t].r;
      && Called(max, n, schedule, c, k, t, r) && LockedAt(max, n, schedule, i, k, t, r, v) && c < i
      && r.key in s'.cache && s'.cache[r.key] == v && v < |s'.vals| && !s'.vals[v].deleted
      && var before := At(max, n, schedule, i).vals[v].sections;
         s'.vals[v].sections == if r.hash in before then before else before[r.hash := r.expiration]
  {
    var s, s' := At(max, n, schedule, k), At(max, n, schedule, k + 1);
    var r := s.threads[t].r;
    AtStep(max, n, schedule, k, t);
    Leaves(s, t, schedule[k].1);
    v := s.threads[t].v;
    c := CalledFirst(max, n, schedule, k, t, r);
    i := LockedSince(max, n, schedule, k, t, r, v);
    KeyAt(max, n, schedule, k, t, r, v);
    OwnSections(s, t, schedule[k].1, v);
    StepAlters(s, t, schedule[k].1, v);
    hide Step;
  }

  /** Every run: a thread is done with eviction only when it finds the counter below the limit, or nothing in the cache
      that may be evicted. */
  lemma LimitIsMet(max: int, n: nat, schedule: seq<(Tid, Choice)>, k: nat, t: Tid)
    requires k < |schedule|
    requires var s, s' := At(max, n, schedule, k), At(max, n, schedule, k + 1);
      t < |s.threads| && t < |s'.threads| && IsEvict(s.threads[t]) && s'.threads[t] == Idle
    ensures var s := At(max, n, schedule, k); s.counter < max || s.cache.Keys <= s.pinned
  {
    AtStep(max, n, schedule, k, t);
    LimitAt(max, n, schedule, k);
    hide Run, Base, StepAdd, StepReap, Gone;
  }

  lemma {:induction false} LimitAt(max: int, n: nat, schedule: seq<(Tid, Choice)>, k: nat)
    requires k <= |schedule|
    ensures At(max, n, schedule, k).max == max
  {
    if k > 0 {
      LimitAt(max, n, schedule, k - 1);
      AtNext(max, n, schedule, k - 1);
      var s, u, ch := At(max, n, schedule, k - 1), schedule[k - 1].0, schedule[k - 1].1;
      hide At;
      LimitStays(s, u, ch);
    }
  }

  lemma LimitStays(s: State, u: Tid, ch: Choice)
    ensures Step(s, u, ch).max == s.max
  {
    hide Expired, Gone;
  }
}
