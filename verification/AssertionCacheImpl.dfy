/** The assertion cache as an object, each method proved against the steps of AssertionCache.
 */
module AssertionCacheImpl {
  import opened Names
  import opened LruCache
  import opened AssertionCache

  lemma LoweredMore(holders: map<string, int>, hs: set<string>, h: string)
    requires h !in hs
    ensures Lowered(holders, hs + {h}) == Lowered(holders, hs)[h := CountOf(Lowered(holders, hs), h) - 1]
  {
  }

  lemma LoweredByNone(holders: map<string, int>)
    ensures Lowered(holders, {}) == holders
  {
  }

  /** The loop that gives up a value's assertions. */
  method LowerAll(holders: map<string, int>, hs: set<string>) returns (r: map<string, int>)
    ensures r == Lowered(holders, hs)
  {
    r := holders;
    var todo := hs;
    ghost var gone: set<string> := {};
    LoweredByNone(holders);
    hide Lowered, CountOf;
    while todo != {}
      invariant gone + todo == hs && gone !! todo && r == Lowered(holders, gone)
      decreases |todo|
    {
      var h :| h in todo;
      LoweredMore(holders, gone, h);
      r := r[h := CountOf(r, h) - 1];
      todo := todo - {h};
      gone := gone + {h};
    }
    assert gone == hs;
  }

  class AssertionImpl {
    const cache: Cache<Value>
    const max: int
    var counter: int
    var zoneMap: Zones
    var entriesPerAssertion: map<string, int>

    function Now(): State
      reads this, cache
    {
      State(cache.State(), counter, max, zoneMap, entriesPerAssertion)
    }

    constructor (max: int)
      ensures fresh(cache) && Inv(Now()) && Now() == State(Empty(), 0, max, map[], map[])
    {
      this.cache := new Cache<Value>();
      this.max, counter, zoneMap, entriesPerAssertion := max, 0, map[], map[];
    }

    /** One round of the first loop of Add; `full` is the counter's verdict if an entry was stored. */
    method AddOne(key: string, zone: string, hash: string, expiration: int, internal: bool) returns (stored: bool)
      modifies this, cache
      ensures Now() == Stored(GotOrAdded(old(Now()), key, zone, internal), key, hash, expiration)
      ensures stored <==> counter == old(counter) + 1
      ensures !stored <==> counter == old(counter)
    {
      var v, isNew := cache.GetOrAdd(key, Value(map[], zone), internal);
      if isNew {
        zoneMap := zoneMap[zone := KeysIn(zoneMap, zone) + {key}];
      }
      stored := hash !in v.assertions;
      if stored {
        var w := v.(assertions := v.assertions[hash := expiration]);
        cache.hashMap := cache.hashMap[key := cache.hashMap[key].(value := w)];
        entriesPerAssertion := entriesPerAssertion[hash := CountOf(entriesPerAssertion, hash) + 1];
        counter := counter + 1;
      }
    }

    method Evict(key: string)
      requires key in cache.hashMap
      modifies this, cache
      ensures Now() == Evicted(old(Now()), key)
    {
      var v := cache.hashMap[key].value;
      var _ := cache.Remove(key);
      if v.zone in zoneMap {
        zoneMap := zoneMap[v.zone := zoneMap[v.zone] - {key}];
      }
      entriesPerAssertion := LowerAll(entriesPerAssertion, v.assertions.Keys);
      counter := counter - |v.assertions|;
    }

    /** Stores the assertion under each of its keys, then evicts; false if the last entry stored filled the cache. */
    method Add(keys: seq<string>, zone: string, hash: string, expiration: int, internal: bool) returns (notFull: bool)
      requires Inv(Now())
      modifies this, cache
      ensures Now() == EvictedAll(AddedAll(old(Now()), keys, zone, hash, expiration, internal))
      ensures var added := AddedAll(old(Now()), keys, zone, hash, expiration, internal);
        notFull <==> added.counter == old(counter) || added.counter < max
      ensures Inv(Now()) && (counter < max || AllInternal(cache.hashMap))
      ensures var m := WithAssertion(old(cache.hashMap), keys, zone, hash, expiration, internal);
        && Trims(m, cache.hashMap) && NoneTooMany(m, cache.hashMap, max)
        && (|Pairs(m)| < max ==> cache.hashMap == m)
    {
      ghost var start := Now();
      var isFull := false;
      for i := 0 to |keys|
        invariant Now() == AddedAll(start, keys[..i], zone, hash, expiration, internal)
        invariant counter >= start.counter && (isFull <==> counter > start.counter && counter >= max)
      {
        assert keys[..i + 1][..i] == keys[..i];
        var stored := AddOne(keys[i], zone, hash, expiration, internal);
        if stored { isFull := counter >= max; }
      }
      assert keys[..|keys|] == keys;
      ghost var added := Now();
      AddedAllKeeps(start, keys, zone, hash, expiration, internal);
      while counter >= max
        invariant Listed(Now().lru) && EvictedAll(Now()) == EvictedAll(added)
        decreases |cache.hashMap|
      {
        var oldest := cache.GetLeastRecentlyUsed();
        if oldest == None { break; }
        OldestIsCached(Now(), oldest.value.0);
        Evict(oldest.value.0);
      }
      AddIsSafe(start, keys, zone, hash, expiration, internal);
      notFull := !isFull;
    }

    method SweepOne(key: string, now: int)
      requires key in cache.hashMap
      modifies this, cache
      ensures Now() == SweptKey(old(Now()), key, now)
    {
      ghost var start := Now();
      var v := cache.hashMap[key].value;
      var gone := ExpiredIn(v, now);
      entriesPerAssertion := LowerAll(entriesPerAssertion, gone);
      cache.hashMap := cache.hashMap[key := cache.hashMap[key].(value := v.(assertions := v.assertions - gone))];
      counter := counter - |gone|;
      assert Now() == Thinned(start, key, gone);
      if cache.hashMap[key].value.assertions == map[] {
        Evict(key);
      }
    }

    /** Drops what has expired, and the keys left with nothing. */
    method RemoveExpiredValues(now: int) returns (ghost order: seq<string>)
      requires Inv(Now())
      modifies this, cache
      ensures Inv(Now()) && SweptOf(old(cache.hashMap), now, cache.hashMap)
      ensures cache.hashMap == Alive(old(cache.hashMap), now, {})
      ensures Members(order) == old(cache.hashMap).Keys && Now() == SweptAll(old(Now()), order, now)
    {
      hide SweptOf;
      ghost var m := cache.hashMap;
      order := [];
      var todo := cache.hashMap.Keys;
      AliveAll(m, now);
      while todo != {}
        invariant Inv(Now()) && todo <= m.Keys && cache.hashMap == Alive(m, now, todo)
        invariant Members(order) + todo == m.Keys && Now() == SweptAll(old(Now()), order, now)
        decreases |todo|
      {
        hide Inv, Alive, Members, SweptAll, SweptKey;
        var key :| key in todo;
        AliveStep(m, now, todo, key);
        SweptKeyKeeps(Now(), key, now);
        SweptNext(old(Now()), order, key, now);
        SweepOne(key, now);
        OneMoreMember(order, key);
        order := order + [key];
        todo := todo - {key};
      }
      hide Alive, Inv, Members, SweptAll;
      AliveIsSwept(m, now);
    }

    method PurgeOne(key: string)
      requires key in cache.hashMap
      modifies this, cache
      ensures Now() == Purged(old(Now()), key)
    {
      var v := cache.hashMap[key].value;
      var _ := cache.Remove(key);
      entriesPerAssertion := LowerAll(entriesPerAssertion, v.assertions.Keys);
      counter := counter - |v.assertions|;
    }

    /** Drops every key whose value belongs to the zone, and nothing else. */
    method RemoveZone(zone: string) returns (ghost order: seq<string>)
      requires Inv(Now())
      modifies this, cache
      ensures Inv(Now()) && cache.hashMap == OutsideZone(old(cache.hashMap), zone)
      ensures Members(order) == KeysIn(old(zoneMap), zone) && Now() == PurgedAll(ZoneDropped(old(Now()), zone), order)
    {
      order := [];
      ghost var dropped := ZoneDropped(Now(), zone);
      var todo := KeysIn(zoneMap, zone);
      ghost var keys := todo;
      zoneMap := zoneMap - {zone};
      assert Members(order) + todo == keys;
      while todo != {}
        invariant Members(order) + todo == keys && Now() == PurgedAll(dropped, order)
        decreases |todo|
      {
        hide Members, PurgedAll, Purged;
        var key :| key in todo;
        PurgedNext(dropped, order, key);
        OneMoreMember(order, key);
        if key in cache.hashMap { PurgeOne(key); }
        order := order + [key];
        todo := todo - {key};
      }
      ZoneRemovalKeeps(old(Now()), zone, order);
    }
  }
}
