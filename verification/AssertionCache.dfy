/** The assertion cache run by one thread at a time: an LRU cache of values, a counter of stored entries, an index
    of cached keys by zone, and for each assertion the number of values that hold it.
 */
module AssertionCache {
  import opened Names
  import opened LruCache

  /** The assertions stored under one key, by hash, each with its expiration; and the zone they belong to. */
  datatype Value = Value(assertions: map<string, int>, zone: string)

  type Entries = map<string, Entry<Value>>

  // ---- counting entries ----

  ghost function Pairs(m: Entries): set<(string, string)> {
    set k, h | k in m && h in m[k].value.assertions :: (k, h)
  }

  ghost function PairsOf(k: string, hs: set<string>): set<(string, string)> {
    set h | h in hs :: (k, h)
  }

  lemma {:induction false} PairsOfSize(k: string, hs: set<string>)
    ensures |PairsOf(k, hs)| == |hs|
  {
    if hs != {} {
      var h :| h in hs;
      PairsOfSize(k, hs - {h});
      assert PairsOf(k, hs) == PairsOf(k, hs - {h}) + {(k, h)};
    }
  }

  /** Replacing, adding or removing the value of one key changes the number of entries by the difference. */
  lemma PairsWithout(m: Entries, k: string)
    requires k in m
    ensures |Pairs(m - {k})| == |Pairs(m)| - |m[k].value.assertions|
  {
    var own := PairsOf(k, m[k].value.assertions.Keys);
    assert Pairs(m) == Pairs(m - {k}) + own;
    assert Pairs(m - {k}) !! own;
    PairsOfSize(k, m[k].value.assertions.Keys);
  }

  lemma PairsWith(m: Entries, k: string, e: Entry<Value>)
    ensures |Pairs(m[k := e])| == |Pairs(m - {k})| + |e.value.assertions|
  {
    assert m[k := e] - {k} == m - {k};
    PairsWithout(m[k := e], k);
  }

  /** The keys under which an assertion is stored. */
  ghost function Holding(m: Entries, h: string): set<string> {
    set k | k in m && h in m[k].value.assertions
  }

  lemma HoldingWithout(m: Entries, k: string, h: string)
    requires k in m
    ensures |Holding(m - {k}, h)| == |Holding(m, h)| - if h in m[k].value.assertions then 1 else 0
  {
    if h in m[k].value.assertions {
      assert Holding(m, h) == Holding(m - {k}, h) + {k};
    } else {
      assert Holding(m, h) == Holding(m - {k}, h);
    }
  }

  lemma HoldingWith(m: Entries, k: string, e: Entry<Value>, h: string)
    ensures |Holding(m[k := e], h)| == |Holding(m - {k}, h)| + if h in e.value.assertions then 1 else 0
  {
    assert m[k := e] - {k} == m - {k};
    HoldingWithout(m[k := e], k, h);
  }

  /** Go's map lookup with its default. */
  function CountOf(holders: map<string, int>, h: string): int {
    if h in holders then holders[h] else 0
  }

  ghost predicate HoldersExact(m: Entries, holders: map<string, int>) {
    forall h :: CountOf(holders, h) == |Holding(m, h)|
  }

  // ---- the zone index ----

  type Zones = map<string, set<string>>

  function KeysIn(zones: Zones, z: string): set<string> {
    if z in zones then zones[z] else {}
  }

  ghost predicate ZonesExact(m: Entries, zones: Zones) {
    forall z, k :: k in KeysIn(zones, z) <==> k in m && m[k].value.zone == z
  }

  // ---- what every operation keeps ----

  datatype State = State(lru: Lru<Value>, counter: int, max: int, zones: Zones, holders: map<string, int>)

  ghost predicate Listed(l: Lru<Value>) {
    Holds(l.internalList, l.hashMap, true) && Holds(l.lruList, l.hashMap, false)
  }

  ghost predicate Exact(s: State) {
    Listed(s.lru) && s.counter == |Pairs(s.lru.hashMap)| && HoldersExact(s.lru.hashMap, s.holders)
  }

  ghost predicate Inv(s: State) {
    Exact(s) && ZonesExact(s.lru.hashMap, s.zones)
  }

  /** Replacing the value of a cached key. */
  function WithValue(l: Lru<Value>, key: string, v: Value): Lru<Value>
    requires key in l.hashMap
  {
    l.(hashMap := l.hashMap[key := l.hashMap[key].(value := v)])
  }

  function Lowered(holders: map<string, int>, hs: set<string>): map<string, int> {
    map h | h in holders.Keys + hs :: CountOf(holders, h) - if h in hs then 1 else 0
  }

  lemma LoweredAt(holders: map<string, int>, hs: set<string>, h: string)
    ensures CountOf(Lowered(holders, hs), h) == CountOf(holders, h) - if h in hs then 1 else 0
  {
  }

  // ---- steps ----

  function GotOrAdded(s: State, key: string, zone: string, internal: bool): State {
    s.(lru := Inserted(s.lru, key, Value(map[], zone), internal),
       zones := if key in s.lru.hashMap then s.zones else s.zones[zone := KeysIn(s.zones, zone) + {key}])
  }

  function Stored(s: State, key: string, hash: string, expiration: int): State
    requires key in s.lru.hashMap
  {
    var v := s.lru.hashMap[key].value;
    if hash in v.assertions then s
    else s.(lru := WithValue(s.lru, key, v.(assertions := v.assertions[hash := expiration])),
            holders := s.holders[hash := CountOf(s.holders, hash) + 1], counter := s.counter + 1)
  }

  /** The value of a key leaves the cache, and its entries the books; the zone index is another matter. */
  function Purged(s: State, key: string): State
    requires key in s.lru.hashMap
  {
    var v := s.lru.hashMap[key].value;
    s.(lru := Removed(s.lru, key), holders := Lowered(s.holders, v.assertions.Keys),
      counter := s.counter - |v.assertions|)
  }

  function Unlisted(zones: Zones, zone: string, key: string): Zones {
    if zone in zones then zones[zone := zones[zone] - {key}] else zones
  }

  function Evicted(s: State, key: string): State
    requires key in s.lru.hashMap
  {
    Purged(s, key).(zones := Unlisted(s.zones, s.lru.hashMap[key].value.zone, key))
  }

  /** Dropping some assertions of a value. */
  function Thinned(s: State, key: string, gone: set<string>): State
    requires key in s.lru.hashMap && gone <= s.lru.hashMap[key].value.assertions.Keys
  {
    var v := s.lru.hashMap[key].value;
    s.(lru := WithValue(s.lru, key, v.(assertions := v.assertions - gone)), holders := Lowered(s.holders, gone),
      counter := s.counter - |gone|)
  }

  lemma InsertedListed(l: Lru<Value>, key: string, v: Value, internal: bool)
    requires Listed(l)
    ensures Listed(Inserted(l, key, v, internal))
  {
    WithoutMembers(l.internalList, key);
    WithoutMembers(l.lruList, key);
  }

  lemma RemovedListed(l: Lru<Value>, key: string)
    requires Listed(l)
    ensures Listed(Removed(l, key))
    ensures key in l.hashMap ==> Removed(l, key).hashMap == l.hashMap - {key}
  {
    WithoutMembers(l.internalList, key);
    WithoutMembers(l.lruList, key);
  }

  lemma NewZoneKey(m: Entries, zones: Zones, key: string, e: Entry<Value>)
    requires ZonesExact(m, zones) && key !in m
    ensures ZonesExact(m[key := e], zones[e.value.zone := KeysIn(zones, e.value.zone) + {key}])
  {
    var zones' := zones[e.value.zone := KeysIn(zones, e.value.zone) + {key}];
    var m' := m[key := e];
    forall z, k ensures k in KeysIn(zones', z) <==> k in m' && m'[k].value.zone == z {
      assert k in KeysIn(zones, z) <==> k in m && m[k].value.zone == z;
    }
  }

  lemma SameZone(m: Entries, zones: Zones, key: string, e: Entry<Value>)
    requires ZonesExact(m, zones) && key in m && e.value.zone == m[key].value.zone
    ensures ZonesExact(m[key := e], zones)
  {
  }

  lemma GotOrAddedKeeps(s: State, key: string, zone: string, internal: bool)
    requires Inv(s)
    ensures Inv(GotOrAdded(s, key, zone, internal)) && key in GotOrAdded(s, key, zone, internal).lru.hashMap
  {
    hide Listed, Pairs, Holding, ZonesExact, Without;
    InsertedListed(s.lru, key, Value(map[], zone), internal);
    var m := s.lru.hashMap;
    if key !in m {
      var e := Entry(internal, Value(map[], zone));
      assert m - {key} == m && Inserted(s.lru, key, e.value, internal).hashMap == m[key := e];
      hide Inserted;
      NewZoneKey(m, s.zones, key, e);
      PairsWith(m, key, e);
      forall h ensures CountOf(s.holders, h) == |Holding(m[key := e], h)| { HoldingWith(m, key, e, h); }
    }
  }

  lemma WithValueListed(l: Lru<Value>, key: string, v: Value)
    requires Listed(l) && key in l.hashMap
    ensures Listed(WithValue(l, key, v))
  {
  }

  lemma StoredKeeps(s: State, key: string, hash: string, expiration: int)
    requires Inv(s) && key in s.lru.hashMap
    ensures Inv(Stored(s, key, hash, expiration))
  {
    var m := s.lru.hashMap;
    var v := m[key].value;
    if hash !in v.assertions {
      var s' := Stored(s, key, hash, expiration);
      var e := m[key].(value := v.(assertions := v.assertions[hash := expiration]));
      hide Listed, Pairs, Holding, ZonesExact;
      SameZone(m, s.zones, key, e);
      WithValueListed(s.lru, key, e.value);
      PairsWithout(m, key);
      PairsWith(m, key, e);
      forall h ensures CountOf(s'.holders, h) == |Holding(m[key := e], h)| {
        HoldingWithout(m, key, h);
        HoldingWith(m, key, e, h);
      }
    }
  }

  lemma PurgedKeeps(s: State, key: string)
    requires Exact(s) && key in s.lru.hashMap
    ensures Exact(Purged(s, key)) && Purged(s, key).lru.hashMap == s.lru.hashMap - {key}
  {
    var m := s.lru.hashMap;
    RemovedListed(s.lru, key);
    PairsWithout(m, key);
    hide Listed, Pairs, Holding, Removed, CountOf, Lowered;
    forall h ensures CountOf(Lowered(s.holders, m[key].value.assertions.Keys), h) == |Holding(m - {key}, h)| {
      HoldingWithout(m, key, h);
      LoweredAt(s.holders, m[key].value.assertions.Keys, h);
    }
  }

  lemma UnlistedKeeps(m: Entries, zones: Zones, key: string)
    requires ZonesExact(m, zones) && key in m
    ensures ZonesExact(m - {key}, Unlisted(zones, m[key].value.zone, key))
  {
    var zone := m[key].value.zone;
    assert key in KeysIn(zones, zone);
    forall z, k
      ensures k in KeysIn(Unlisted(zones, zone, key), z) <==> k in m - {key} && (m - {key})[k].value.zone == z
    {
      assert k in KeysIn(zones, z) <==> k in m && m[k].value.zone == z;
    }
  }

  lemma EvictedKeeps(s: State, key: string)
    requires Inv(s) && key in s.lru.hashMap
    ensures Inv(Evicted(s, key)) && Evicted(s, key).lru.hashMap == s.lru.hashMap - {key}
  {
    hide Listed, HoldersExact, ZonesExact, Removed, Lowered, Unlisted;
    PurgedKeeps(s, key);
    UnlistedKeeps(s.lru.hashMap, s.zones, key);
  }

  lemma ThinnedKeeps(s: State, key: string, gone: set<string>)
    requires Inv(s) && key in s.lru.hashMap && gone <= s.lru.hashMap[key].value.assertions.Keys
    ensures Inv(Thinned(s, key, gone))
  {
    var m := s.lru.hashMap;
    var v := m[key].value;
    var s' := Thinned(s, key, gone);
    var e := m[key].(value := v.(assertions := v.assertions - gone));
    assert (v.assertions - gone).Keys == v.assertions.Keys - gone;
    hide Listed, Pairs, Holding, Lowered, CountOf, ZonesExact;
    SameZone(m, s.zones, key, e);
    WithValueListed(s.lru, key, e.value);
    PairsWithout(m, key);
    PairsWith(m, key, e);
    forall h ensures CountOf(s'.holders, h) == |Holding(m[key := e], h)| {
      HoldingWithout(m, key, h);
      HoldingWith(m, key, e, h);
      LoweredAt(s.holders, gone, h);
    }
  }

  // ---- adding, with eviction ----

  /** One entry for each key of the assertion. */
  ghost function AddedAll(s: State, keys: seq<string>, zone: string, hash: string, expiration: int,
                          internal: bool): State {
    if keys == [] then s
    else
      var before := AddedAll(s, keys[..|keys| - 1], zone, hash, expiration, internal);
      Stored(GotOrAdded(before, keys[|keys| - 1], zone, internal), keys[|keys| - 1], hash, expiration)
  }

  /** Evicting the least recently used key until the cache is below its limit or nothing can be evicted. */
  ghost function EvictedAll(s: State): State
    decreases |s.lru.hashMap|
  {
    if s.counter < s.max || Oldest(s.lru) == None || Oldest(s.lru).value !in s.lru.hashMap then s
    else
      EvictedShrinks(s, Oldest(s.lru).value);
      EvictedAll(Evicted(s, Oldest(s.lru).value))
  }

  lemma EvictedShrinks(s: State, key: string)
    requires key in s.lru.hashMap
    ensures |Evicted(s, key).lru.hashMap| < |s.lru.hashMap|
  {
    assert (s.lru.hashMap - {key}).Keys == s.lru.hashMap.Keys - {key};
  }

  lemma OldestIsCached(s: State, key: string)
    requires Listed(s.lru) && Oldest(s.lru) == Some(key)
    ensures key in s.lru.hashMap && !s.lru.hashMap[key].internal
    ensures Listed(Evicted(s, key).lru) && |Evicted(s, key).lru.hashMap| < |s.lru.hashMap|
  {
    assert key in s.lru.lruList;
    RemovedListed(s.lru, key);
    EvictedShrinks(s, key);
  }

  /** Every entry stays, and what was internal stays internal. */
  ghost predicate Extends(m: Entries, m': Entries) {
    forall k :: k in m ==>
      k in m' && m'[k].internal == m[k].internal && m'[k].value.zone == m[k].value.zone
      && m[k].value.assertions.Items <= m'[k].value.assertions.Items
  }

  lemma StoreExtends(s: State, key: string, zone: string, hash: string, expiration: int, internal: bool)
    ensures var s' := Stored(GotOrAdded(s, key, zone, internal), key, hash, expiration);
      && Extends(s.lru.hashMap, s'.lru.hashMap) && s'.max == s.max && s.counter <= s'.counter
      && key in s'.lru.hashMap && hash in s'.lru.hashMap[key].value.assertions
  {
  }

  ghost predicate AllHave(m: Entries, keys: seq<string>, hash: string) {
    forall i :: 0 <= i < |keys| ==> keys[i] in m && hash in m[keys[i]].value.assertions
  }

  lemma ExtendsFurther(m: Entries, m': Entries, m'': Entries, keys: seq<string>, hash: string, key: string)
    requires Extends(m, m') && Extends(m', m'') && AllHave(m', keys, hash) && key in m''
    requires hash in m''[key].value.assertions
    ensures Extends(m, m'') && AllHave(m'', keys + [key], hash)
  {
    forall i | 0 <= i < |keys| ensures hash in m''[keys[i]].value.assertions {
      var a, a'' := m'[keys[i]].value.assertions, m''[keys[i]].value.assertions;
      assert (hash, a[hash]) in a.Items && (hash, a[hash]) in a''.Items;
    }
  }

  lemma {:induction false} AddedAllKeeps(s: State, keys: seq<string>, zone: string, hash: string, expiration: int,
                                         internal: bool)
    requires Inv(s)
    ensures var s' := AddedAll(s, keys, zone, hash, expiration, internal);
      && Inv(s') && s'.max == s.max && s.counter <= s'.counter && Extends(s.lru.hashMap, s'.lru.hashMap)
      && AllHave(s'.lru.hashMap, keys, hash)
  {
    if keys != [] {
      var init := keys[..|keys| - 1];
      var key := keys[|keys| - 1];
      assert keys == init + [key];
      hide Inv, Extends, AllHave, GotOrAdded, Stored;
      AddedAllKeeps(s, init, zone, hash, expiration, internal);
      var before := AddedAll(s, init, zone, hash, expiration, internal);
      GotOrAddedKeeps(before, key, zone, internal);
      StoredKeeps(GotOrAdded(before, key, zone, internal), key, hash, expiration);
      StoreExtends(before, key, zone, hash, expiration, internal);
      ExtendsFurther(s.lru.hashMap, before.lru.hashMap, AddedAll(s, keys, zone, hash, expiration, internal).lru.hashMap,
        init, hash, key);
    }
  }

  /** The entries with the assertion under each of the keys: a key that is not cached gets an entry that is internal as
      given, in the given zone, with this assertion alone; a cached key keeps what it has, and gets the assertion if it
      does not have it. */
  function WithAssertion(m: Entries, keys: seq<string>, zone: string, hash: string, expiration: int,
                         internal: bool): Entries {
    map k | k in m.Keys + Members(keys) ::
      if k !in m then Entry(internal, Value(map[hash := expiration], zone))
      else if k in keys && hash !in m[k].value.assertions then
        Entry(m[k].internal, Value(m[k].value.assertions[hash := expiration], m[k].value.zone))
      else m[k]
  }

  lemma StoredMap(s: State, key: string, zone: string, hash: string, expiration: int, internal: bool)
    ensures Stored(GotOrAdded(s, key, zone, internal), key, hash, expiration).lru.hashMap
      == WithAssertion(s.lru.hashMap, [key], zone, hash, expiration, internal)
  {
    assert Members([key]) == {key};
    hide Without;
  }

  lemma OneMoreKey(m: Entries, keys: seq<string>, key: string, zone: string, hash: string, expiration: int,
                   internal: bool)
    ensures var m' := WithAssertion(m, keys, zone, hash, expiration, internal);
      WithAssertion(m', [key], zone, hash, expiration, internal)
      == WithAssertion(m, keys + [key], zone, hash, expiration, internal)
  {
    assert Members(keys + [key]) == Members(keys) + {key} && Members([key]) == {key};
  }

  lemma {:induction false} AddedAllMap(s: State, keys: seq<string>, zone: string, hash: string, expiration: int,
                                       internal: bool)
    ensures AddedAll(s, keys, zone, hash, expiration, internal).lru.hashMap
      == WithAssertion(s.lru.hashMap, keys, zone, hash, expiration, internal)
  {
    if keys != [] {
      var init, key := keys[..|keys| - 1], keys[|keys| - 1];
      assert keys == init + [key];
      AddedAllMap(s, init, zone, hash, expiration, internal);
      hide WithAssertion, GotOrAdded, Stored;
      StoredMap(AddedAll(s, init, zone, hash, expiration, internal), key, zone, hash, expiration, internal);
      OneMoreKey(s.lru.hashMap, init, key, zone, hash, expiration, internal);
    }
  }

  /** No more is evicted than has to be: with one of the evicted keys back the cache is full. */
  ghost predicate NoneTooMany(m: Entries, m': Entries, max: int) {
    m' == m || exists k :: k in m && k !in m' && |Pairs(m'[k := m[k]])| >= max
  }

  lemma {:induction false} EvictsNoneTooMany(s: State)
    requires Inv(s)
    ensures NoneTooMany(s.lru.hashMap, EvictedAll(s).lru.hashMap, s.max)
    decreases |s.lru.hashMap|
  {
    hide Pairs, Holding, ZonesExact, HoldersExact, Listed, Oldest, Evicted;
    if s.counter >= s.max && Oldest(s.lru).Some? {
      var key := Oldest(s.lru).value;
      OldestIsCached(s, key);
      EvictedKeeps(s, key);
      EvictedSameMax(s, key);
      EvictsNoneTooMany(Evicted(s, key));
      EvictedAllKeeps(Evicted(s, key));
      var m, m1, m' := s.lru.hashMap, s.lru.hashMap - {key}, EvictedAll(s).lru.hashMap;
      assert key !in m';
      if m' == m1 {
        assert m'[key := m[key]] == m;
      } else {
        var k :| k in m1 && k !in m' && |Pairs(m'[k := m1[k]])| >= s.max;
        assert m1[k] == m[k];
      }
    }
  }

  /** What eviction leaves alone: entries are dropped whole or kept as they are, and internal ones are kept. */
  ghost predicate Trims(m: Entries, m': Entries) {
    (forall k :: k in m' ==> k in m && m'[k] == m[k]) && (forall k :: k in m && m[k].internal ==> k in m')
  }

  ghost predicate AllInternal(m: Entries) {
    forall k :: k in m ==> m[k].internal
  }

  lemma TrimsFurther(m: Entries, key: string, m': Entries)
    requires key in m && !m[key].internal && Trims(m - {key}, m')
    ensures Trims(m, m')
  {
  }

  lemma NoOldestAllInternal(l: Lru<Value>)
    requires Listed(l) && Oldest(l) == None
    ensures AllInternal(l.hashMap)
  {
  }

  lemma {:induction false} EvictedAllKeeps(s: State)
    requires Inv(s)
    ensures var s' := EvictedAll(s);
      && Inv(s') && s'.max == s.max && Trims(s.lru.hashMap, s'.lru.hashMap)
      && (s'.counter < s.max || AllInternal(s'.lru.hashMap))
    decreases |s.lru.hashMap|
  {
    hide Pairs, Holding, Trims, AllInternal, ZonesExact, HoldersExact, Listed, Oldest, Evicted;
    if s.counter >= s.max && Oldest(s.lru).Some? {
      var key := Oldest(s.lru).value;
      OldestIsCached(s, key);
      EvictedKeeps(s, key);
      EvictedSameMax(s, key);
      EvictedAllKeeps(Evicted(s, key));
      TrimsFurther(s.lru.hashMap, key, EvictedAll(s).lru.hashMap);
    } else {
      if Oldest(s.lru) == None { NoOldestAllInternal(s.lru); }
      TrimsItself(s.lru.hashMap);
    }
  }

  lemma EvictedSameMax(s: State, key: string)
    requires key in s.lru.hashMap
    ensures Evicted(s, key).max == s.max
  {
  }

  lemma TrimsItself(m: Entries)
    ensures Trims(m, m)
  {
  }

  /** Adding keeps all books exact, drops no internal key and none of its entries, and ends below the limit or with
      internal keys only. What is cached in the end is the old entries with the new assertion, less what was evicted,
      and nothing is evicted that need not be. */
  lemma AddIsSafe(s: State, keys: seq<string>, zone: string, hash: string, expiration: int, internal: bool)
    requires Inv(s)
    ensures var s' := EvictedAll(AddedAll(s, keys, zone, hash, expiration, internal));
      && Inv(s') && (s'.counter < s.max || AllInternal(s'.lru.hashMap))
      && (forall k :: k in s.lru.hashMap && s.lru.hashMap[k].internal ==>
            k in s'.lru.hashMap && s'.lru.hashMap[k].internal
            && s.lru.hashMap[k].value.assertions.Items <= s'.lru.hashMap[k].value.assertions.Items)
    ensures var s' := EvictedAll(AddedAll(s, keys, zone, hash, expiration, internal));
      var m := WithAssertion(s.lru.hashMap, keys, zone, hash, expiration, internal);
      && Trims(m, s'.lru.hashMap) && NoneTooMany(m, s'.lru.hashMap, s.max)
      && (|Pairs(m)| < s.max ==> s'.lru.hashMap == m)
  {
    hide Inv, AllInternal, AllHave, WithAssertion, NoneTooMany;
    var added := AddedAll(s, keys, zone, hash, expiration, internal);
    AddedAllKeeps(s, keys, zone, hash, expiration, internal);
    AddedAllMap(s, keys, zone, hash, expiration, internal);
    EvictedAllKeeps(added);
    EvictsNoneTooMany(added);
    CounterIsPairs(added);
  }

  lemma CounterIsPairs(s: State)
    requires Inv(s)
    ensures s.counter == |Pairs(s.lru.hashMap)|
  {
    hide Pairs;
  }

  // ---- sweeping and removing a zone ----

  function ExpiredIn(v: Value, now: int): set<string> {
    set h | h in v.assertions && v.assertions[h] < now
  }

  function Survivors(e: Entry<Value>, now: int): Entry<Value> {
    e.(value := e.value.(assertions := e.value.assertions - ExpiredIn(e.value, now)))
  }

  function SweptKey(s: State, key: string, now: int): State
    requires key in s.lru.hashMap
  {
    var s' := Thinned(s, key, ExpiredIn(s.lru.hashMap[key].value, now));
    if s'.lru.hashMap[key].value.assertions == map[] then Evicted(s', key) else s'
  }

  /** What a sweep has made of the entries when the keys of `todo` are still to be visited. */
  ghost function Alive(m: Entries, now: int, todo: set<string>): Entries {
    map k | k in m && (k in todo || Survivors(m[k], now).value.assertions != map[]) ::
      if k in todo then m[k] else Survivors(m[k], now)
  }

  lemma SweptKeyKeeps(s: State, key: string, now: int)
    requires Inv(s) && key in s.lru.hashMap
    ensures Inv(SweptKey(s, key, now)) && SweptKey(s, key, now).max == s.max
    ensures var e := Survivors(s.lru.hashMap[key], now);
      SweptKey(s, key, now).lru.hashMap
      == if e.value.assertions == map[] then s.lru.hashMap - {key} else s.lru.hashMap[key := e]
  {
    var m := s.lru.hashMap;
    ThinnedMap(s, key, now);
    var s' := Thinned(s, key, ExpiredIn(m[key].value, now));
    hide Inv, Thinned, Evicted, Survivors, ExpiredIn;
    ThinnedKeeps(s, key, ExpiredIn(m[key].value, now));
    if s'.lru.hashMap[key].value.assertions == map[] {
      EvictedKeeps(s', key);
      EvictedSameMax(s', key);
      PutThenDrop(m, key, Survivors(m[key], now));
    }
  }

  lemma ThinnedMap(s: State, key: string, now: int)
    requires key in s.lru.hashMap
    ensures var gone := ExpiredIn(s.lru.hashMap[key].value, now);
      && gone <= s.lru.hashMap[key].value.assertions.Keys
      && Thinned(s, key, gone).lru.hashMap == s.lru.hashMap[key := Survivors(s.lru.hashMap[key], now)]
      && Thinned(s, key, gone).max == s.max
  {
  }

  lemma PutThenDrop(m: Entries, key: string, e: Entry<Value>)
    ensures m[key := e] - {key} == m - {key}
  {
  }

  lemma AliveStep(m: Entries, now: int, todo: set<string>, key: string)
    requires key in todo && key in m
    ensures key in Alive(m, now, todo) && Alive(m, now, todo)[key] == m[key]
    ensures var e := Survivors(m[key], now);
      Alive(m, now, todo - {key})
      == if e.value.assertions == map[] then Alive(m, now, todo) - {key} else Alive(m, now, todo)[key := e]
  {
  }

  lemma AliveAll(m: Entries, now: int)
    ensures Alive(m, now, m.Keys) == m
  {
  }

  /** A sweep leaves exactly the assertions whose time is not over, with what belongs to them, and no empty key. */
  ghost predicate SweptOf(m: Entries, now: int, m': Entries) {
    && (forall k, h :: k in m' && h in m'[k].value.assertions <==>
          k in m && h in m[k].value.assertions && m[k].value.assertions[h] >= now)
    && (forall k :: k in m' ==>
          k in m && m'[k].internal == m[k].internal && m'[k].value.zone == m[k].value.zone
          && m'[k].value.assertions != map[])
    && (forall k, h :: k in m' && h in m'[k].value.assertions ==> m'[k].value.assertions[h] == m[k].value.assertions[h])
  }

  lemma AliveIsSwept(m: Entries, now: int)
    ensures SweptOf(m, now, Alive(m, now, {}))
  {
    forall k, h
      ensures k in Alive(m, now, {}) && h in Alive(m, now, {})[k].value.assertions <==>
        k in m && h in m[k].value.assertions && m[k].value.assertions[h] >= now
    {
      if k in m && h in m[k].value.assertions && m[k].value.assertions[h] >= now {
        assert h in Survivors(m[k], now).value.assertions;
      }
    }
  }

  ghost function OutsideZone(m: Entries, zone: string): Entries {
    map k | k in m && m[k].value.zone != zone :: m[k]
  }

  lemma ZoneGone(m: Entries, zones: Zones, zone: string)
    requires ZonesExact(m, zones)
    ensures ZonesExact(OutsideZone(m, zone), zones - {zone})
    ensures OutsideZone(m, zone) == m - KeysIn(zones, zone)
  {
    var m', zones' := OutsideZone(m, zone), zones - {zone};
    forall z, k ensures k in KeysIn(zones', z) <==> k in m' && m'[k].value.zone == z {
      assert k in KeysIn(zones, z) <==> k in m && m[k].value.zone == z;
    }
  }

  // ---- whole runs ----

  /** Visiting keys in some order, each swept if it is still cached. */
  ghost function SweptAll(s: State, order: seq<string>, now: int): State {
    if order == [] then s
    else
      var before := SweptAll(s, order[..|order| - 1], now);
      var key := order[|order| - 1];
      if key in before.lru.hashMap then SweptKey(before, key, now) else before
  }

  ghost function PurgedAll(s: State, order: seq<string>): State {
    if order == [] then s
    else
      var before := PurgedAll(s, order[..|order| - 1]);
      var key := order[|order| - 1];
      if key in before.lru.hashMap then Purged(before, key) else before
  }

  lemma {:induction false} SweptAllKeeps(s: State, order: seq<string>, now: int)
    requires Inv(s)
    ensures Inv(SweptAll(s, order, now)) && SweptAll(s, order, now).max == s.max
  {
    if order != [] {
      hide Inv, SweptKey;
      SweptAllKeeps(s, order[..|order| - 1], now);
      var before := SweptAll(s, order[..|order| - 1], now);
      if order[|order| - 1] in before.lru.hashMap { SweptKeyKeeps(before, order[|order| - 1], now); }
    }
  }

  function Members(order: seq<string>): set<string> {
    set k | k in order
  }

  lemma OneMoreMember(order: seq<string>, key: string)
    ensures Members(order + [key]) == Members(order) + {key}
  {
  }

  lemma SweptNext(s: State, order: seq<string>, key: string, now: int)
    requires key in SweptAll(s, order, now).lru.hashMap
    ensures SweptAll(s, order + [key], now) == SweptKey(SweptAll(s, order, now), key, now)
  {
    assert (order + [key])[..|order|] == order;
  }

  lemma PurgedNext(s: State, order: seq<string>, key: string)
    ensures var before := PurgedAll(s, order);
      PurgedAll(s, order + [key]) == if key in before.lru.hashMap then Purged(before, key) else before
  {
    assert (order + [key])[..|order|] == order;
  }

  lemma TakenOneMore(m: Entries, taken: set<string>, key: string)
    ensures m - (taken + {key}) == if key in m - taken then m - taken - {key} else m - taken
  {
  }

  lemma {:induction false} PurgedAllKeeps(s: State, order: seq<string>)
    requires Exact(s)
    ensures var s' := PurgedAll(s, order);
      Exact(s') && s'.zones == s.zones && s'.max == s.max && s'.lru.hashMap == s.lru.hashMap - Members(order)
  {
    if order == [] {
      assert s.lru.hashMap - Members(order) == s.lru.hashMap;
    } else {
      var init, key := order[..|order| - 1], order[|order| - 1];
      PurgedAllKeeps(s, init);
      assert order == init + [key];
      hide Exact, PurgedAll, Members, Lowered, Removed;
      PurgedNext(s, init, key);
      OneMoreMember(init, key);
      TakenOneMore(s.lru.hashMap, Members(init), key);
      var before := PurgedAll(s, init);
      if key in before.lru.hashMap { PurgedKeeps(before, key); }
    }
  }

  function ZoneDropped(s: State, zone: string): State {
    s.(zones := s.zones - {zone})
  }

  /** A zone leaves the index first, then each of its keys leaves the cache. */
  lemma ZoneRemovalKeeps(s: State, zone: string, order: seq<string>)
    requires Inv(s) && Members(order) == KeysIn(s.zones, zone)
    ensures var s' := PurgedAll(ZoneDropped(s, zone), order);
      Inv(s') && s'.max == s.max && s'.lru.hashMap == OutsideZone(s.lru.hashMap, zone)
  {
    ZoneGone(s.lru.hashMap, s.zones, zone);
    assert Exact(ZoneDropped(s, zone));
    hide Exact, ZonesExact, OutsideZone, KeysIn;
    PurgedAllKeeps(ZoneDropped(s, zone), order);
  }

  lemma TouchedKeeps(s: State, key: string)
    requires Inv(s)
    ensures Inv(s.(lru := Touched(s.lru, key)))
  {
    hide Pairs, Holding, ZonesExact, HoldersExact;
    if key in s.lru.hashMap { InsertedListed(s.lru, key, s.lru.hashMap[key].value, false); }
  }

  /** The calls of a run; a sweep and a zone removal walk their keys in an order that the map decides. */
  datatype Event =
    | AddEvent(keys: seq<string>, zone: string, hash: string, expiration: int, internal: bool)
    | GetEvent(key: string)
    | SweepEvent(order: seq<string>, now: int)
    | ZoneEvent(rzone: string, rorder: seq<string>)

  ghost function After(s: State, e: Event): State {
    match e
    case AddEvent(keys, zone, hash, expiration, internal) =>
      EvictedAll(AddedAll(s, keys, zone, hash, expiration, internal))
    case GetEvent(key) => s.(lru := Touched(s.lru, key))
    case SweepEvent(order, now) => SweptAll(s, order, now)
    case ZoneEvent(zone, order) =>
      if Members(order) == KeysIn(s.zones, zone) then PurgedAll(ZoneDropped(s, zone), order) else s
  }

  ghost function Run(max: int, events: seq<Event>): State {
    if events == [] then State(Empty(), 0, max, map[], map[])
    else After(Run(max, events[..|events| - 1]), events[|events| - 1])
  }

  lemma AfterKeeps(s: State, e: Event)
    requires Inv(s)
    ensures Inv(After(s, e)) && After(s, e).max == s.max
  {
    hide Inv, EvictedAll, AddedAll, SweptAll, PurgedAll;
    match e
    case AddEvent(keys, zone, hash, expiration, internal) =>
      AddIsSafe(s, keys, zone, hash, expiration, internal);
      AddedAllKeeps(s, keys, zone, hash, expiration, internal);
      EvictedAllKeeps(AddedAll(s, keys, zone, hash, expiration, internal));
    case GetEvent(key) => TouchedKeeps(s, key);
    case SweepEvent(order, now) => SweptAllKeeps(s, order, now);
    case ZoneEvent(zone, order) => if Members(order) == KeysIn(s.zones, zone) { ZoneRemovalKeeps(s, zone, order); }
  }

  /** In every sequential run: the counter is the number of stored entries, the holder counts and the zone index are
      exact; and right after an Add the cache is below its limit or holds internal keys only. */
  lemma {:induction false} RunIsExact(max: int, events: seq<Event>)
    ensures var s := Run(max, events);
      && Inv(s) && s.max == max
      && (events != [] && events[|events| - 1].AddEvent? ==> s.counter < max || AllInternal(s.lru.hashMap))
  {
    if events == [] {
      assert Pairs(map[]) == {};
      assert forall h :: Holding(map[], h) == {};
    } else {
      var init, e := events[..|events| - 1], events[|events| - 1];
      RunIsExact(max, init);
      hide Inv, After, AllInternal;
      AfterKeeps(Run(max, init), e);
      if e.AddEvent? { AddEnds(Run(max, init), e); }
    }
  }

  lemma AddEnds(s: State, e: Event)
    requires Inv(s) && e.AddEvent?
    ensures After(s, e).counter < s.max || AllInternal(After(s, e).lru.hashMap)
  {
    hide Inv, AllInternal, EvictedAll, AddedAll;
    AddIsSafe(s, e.keys, e.zone, e.hash, e.expiration, e.internal);
  }
}
