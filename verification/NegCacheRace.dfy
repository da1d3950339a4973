/** A run of two threads after which a cached value is missing from the zone index: the second thread lists its
    value between the first one's removal of the same key from the cache and from the index.
 */
module NegCacheRace {
  import opened Names
  import opened NegCacheSteps
  import opened NegCacheIndex
  import opened NegCacheRuns

  lemma Goes(s: State, s': State, t: Tid, ch: Choice)
    requires Reachable(1, 2, s) && Step(s, t, ch) == s'
    ensures Reachable(1, 2, s')
  {
    hide Step;
    Then(1, 2, s, t, ch);
  }

  function Call(pc: Pc): Choice { Choice(pc, "a", [], _ => 0) }

  const REQ := Request("a", "z", "h", 9, false)

  /** The states of the run below: one value, or two under the same key. */
  function One(sections: map<string, int>, deleted: bool, lock: Option<Tid>, cached: bool,
               index: map<(string, string), Vid>,
               counter: int, p0: Pc): State {
    State([Value("a", "z", sections, deleted, lock)], if cached then map["a" := 0] else map[], {}, index, counter, 1,
          [p0, Idle], {})
  }

  lemma Adds() returns (s: State)
    ensures Reachable(1, 2, s) && s == One(map[], false, Some(0), true, map[], 0, AddLocked(REQ, 0, true))
  {
    var s0 := Init(1, 2);
    assert Run(s0, []) == s0;
    assert s0.threads == [Idle, Idle];
    var s1 := State([], map[], {}, map[], 0, 1, [AddStart(REQ), Idle], {});
    Goes(s0, s1, 0, Call(AddStart(REQ)));
    var s2 := One(map[], false, None, true, map[], 0, AddGot(REQ, 0, true));
    Goes(s1, s2, 0, Call(Idle));
    s := One(map[], false, Some(0), true, map[], 0, AddLocked(REQ, 0, true));
    Goes(s2, s, 0, Call(Idle));
  }

  lemma Stores() returns (s: State)
    ensures Reachable(1, 2, s)
    ensures s == One(map["h" := 9], false, Some(0), true, map[("z", "a") := 0], 1, AddCounted(REQ, 0))
  {
    var s0 := Adds();
    var s1 := One(map[], false, Some(0), true, map[("z", "a") := 0], 0, AddIndexed(REQ, 0));
    Goes(s0, s1, 0, Call(Idle));
    var s2 := One(map["h" := 9], false, Some(0), true, map[("z", "a") := 0], 0, AddStored(REQ, 0));
    Goes(s1, s2, 0, Call(Idle));
    s := One(map["h" := 9], false, Some(0), true, map[("z", "a") := 0], 1, AddCounted(REQ, 0));
    Goes(s2, s, 0, Call(Idle));
  }

  lemma Checks() returns (s: State)
    ensures Reachable(1, 2, s) && s == One(map["h" := 9], false, None, true, map[("z", "a") := 0], 1, EvictPick)
  {
    hide StepReap;
    var s0 := Stores();
    var s1 := One(map["h" := 9], false, None, true, map[("z", "a") := 0], 1, EvictCheck);
    Goes(s0, s1, 0, Call(Idle));
    s := One(map["h" := 9], false, None, true, map[("z", "a") := 0], 1, EvictPick);
    Goes(s1, s, 0, Call(Idle));
  }

  lemma Picks() returns (s: State)
    ensures Reachable(1, 2, s) && s == One(map["h" := 9], false, None, true, map[("z", "a") := 0], 1, EvictGot(0))
  {
    hide StepAdd, StepReap;
    var s0 := Checks();
    s := One(map["h" := 9], false, None, true, map[("z", "a") := 0], 1, EvictGot(0));
    Goes(s0, s, 0, Call(Idle));
  }

  lemma Marks() returns (s: State)
    ensures Reachable(1, 2, s) && s == One(map["h" := 9], true, Some(0), true, map[("z", "a") := 0], 1, EvictMarked(0))
  {
    hide StepAdd, StepReap;
    var s0 := Picks();
    var s1 := One(map["h" := 9], false, Some(0), true, map[("z", "a") := 0], 1, EvictLocked(0));
    Goes(s0, s1, 0, Call(Idle));
    s := One(map["h" := 9], true, Some(0), true, map[("z", "a") := 0], 1, EvictMarked(0));
    Goes(s1, s, 0, Call(Idle));
  }

  lemma Evicts() returns (s: State)
    ensures Reachable(1, 2, s)
    ensures s == One(map["h" := 9], true, Some(0), false, map[("z", "a") := 0], 1, EvictRemoved(0))
  {
    hide StepAdd, StepReap;
    var s0 := Marks();
    s := One(map["h" := 9], true, Some(0), false, map[("z", "a") := 0], 1, EvictRemoved(0));
    Goes(s0, s, 0, Call(Idle));
  }

  const AGAIN := Request("a", "z", "h", 9, true)

  function Two(lock0: Option<Tid>, sections: map<string, int>, lock1: Option<Tid>, index: map<(string, string), Vid>,
               counter: int, p0: Pc, p1: Pc, lost: set<Vid>): State {
    State([Value("a", "z", map["h" := 9], true, lock0), Value("a", "z", sections, false, lock1)], map["a" := 1], {"a"},
          index, counter, 1, [p0, p1], lost)
  }

  lemma StartsAgain() returns (s: State)
    ensures Reachable(1, 2, s)
    ensures s == Two(Some(0), map[], None, map[("z", "a") := 0], 1, EvictRemoved(0), AddGot(AGAIN, 1, true), {})
  {
    hide StepEvict, StepReap;
    var s0 := Evicts();
    var s1 := s0.(threads := [EvictRemoved(0), AddStart(AGAIN)]);
    Goes(s0, s1, 1, Call(AddStart(AGAIN)));
    s := Two(Some(0), map[], None, map[("z", "a") := 0], 1, EvictRemoved(0), AddGot(AGAIN, 1, true), {});
    Goes(s1, s, 1, Call(Idle));
  }

  lemma AddsAgain() returns (s: State)
    ensures Reachable(1, 2, s)
    ensures s == Two(Some(0), map[], Some(1), map[("z", "a") := 0], 1, EvictRemoved(0), AddLocked(AGAIN, 1, true), {})
  {
    hide StepEvict, StepReap;
    var s0 := StartsAgain();
    s := Two(Some(0), map[], Some(1), map[("z", "a") := 0], 1, EvictRemoved(0), AddLocked(AGAIN, 1, true), {});
    Goes(s0, s, 1, Call(Idle));
  }

  lemma Loses() returns (s: State)
    ensures Reachable(1, 2, s)
    ensures s == Two(Some(0), map[], Some(1), map[], 1, EvictUnindexed(0), AddIndexed(AGAIN, 1), {1})
  {
    hide StepReap;
    var s0 := AddsAgain();
    var s1 := Two(Some(0), map[], Some(1), map[("z", "a") := 1], 1, EvictRemoved(0), AddIndexed(AGAIN, 1), {});
    Goes(s0, s1, 1, Call(Idle));
    s := Two(Some(0), map[], Some(1), map[], 1, EvictUnindexed(0), AddIndexed(AGAIN, 1), {1});
    Goes(s1, s, 0, Call(Idle));
  }

  lemma EvictionEnds() returns (s: State)
    ensures Reachable(1, 2, s) && s == Two(None, map[], Some(1), map[], 0, Idle, AddIndexed(AGAIN, 1), {1})
  {
    hide StepAdd, StepReap;
    var s0 := Loses();
    var s1 := Two(Some(0), map[], Some(1), map[], 0, EvictCounted(0), AddIndexed(AGAIN, 1), {1});
    Goes(s0, s1, 0, Call(Idle));
    var s2 := Two(None, map[], Some(1), map[], 0, EvictCheck, AddIndexed(AGAIN, 1), {1});
    Goes(s1, s2, 0, Call(Idle));
    s := Two(None, map[], Some(1), map[], 0, Idle, AddIndexed(AGAIN, 1), {1});
    Goes(s2, s, 0, Call(Idle));
  }

  lemma StoresAgain() returns (s: State)
    ensures Reachable(1, 2, s) && s == Two(None, map["h" := 9], None, map[], 1, Idle, EvictCheck, {1})
  {
    hide StepEvict, StepReap;
    var s0 := EvictionEnds();
    var s1 := Two(None, map["h" := 9], Some(1), map[], 0, Idle, AddStored(AGAIN, 1), {1});
    Goes(s0, s1, 1, Call(Idle));
    var s2 := Two(None, map["h" := 9], Some(1), map[], 1, Idle, AddCounted(AGAIN, 1), {1});
    Goes(s1, s2, 1, Call(Idle));
    s := Two(None, map["h" := 9], None, map[], 1, Idle, EvictCheck, {1});
    Goes(s2, s, 1, Call(Idle));
  }

  lemma CachedValueCanMissTheIndex()
    ensures exists schedule ::
      var s := Run(Init(1, 2), schedule);
      AtRest(s) && 1 < |s.vals| && InCache(s, 1) && |s.vals[1].sections| == 1 && !IsListed(s, 1)
  {
    hide StepAdd, StepReap;
    var s0 := StoresAgain();
    var s1 := Two(None, map["h" := 9], None, map[], 1, Idle, EvictPick, {1});
    Goes(s0, s1, 1, Call(Idle));
    var s := Two(None, map["h" := 9], None, map[], 1, Idle, Idle, {1});
    Goes(s1, s, 1, Call(Idle));
    assert AtRest(s) && InCache(s, 1) && |s.vals[1].sections| == 1 && !IsListed(s, 1);
    var schedule :| Run(Init(1, 2), schedule) == s;
  }
}
