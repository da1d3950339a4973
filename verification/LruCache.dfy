/** The LRU cache: two lists of keys in order of use, one of them exempt from eviction, and a map to the entries.
 */
module LruCache {
  import opened Names

  datatype Entry<V> = Entry(internal: bool, value: V)

  /** The front of a list is its most recently used key. */
  datatype Lru<V> = Lru(internalList: seq<string>, lruList: seq<string>, hashMap: map<string, Entry<V>>)

  function Empty<V>(): Lru<V> {
    Lru([], [], map[])
  }

  function Without(keys: seq<string>, key: string): seq<string> {
    if keys == [] then []
    else if keys[0] == key then Without(keys[1..], key)
    else [keys[0]] + Without(keys[1..], key)
  }

  function MoveToFront(keys: seq<string>, key: string): seq<string> {
    [key] + Without(keys, key)
  }

  function Touched<V>(l: Lru<V>, key: string): Lru<V> {
    if key !in l.hashMap then l
    else if l.hashMap[key].internal then l.(internalList := MoveToFront(l.internalList, key))
    else l.(lruList := MoveToFront(l.lruList, key))
  }

  function Inserted<V>(l: Lru<V>, key: string, value: V, internal: bool): Lru<V> {
    if key in l.hashMap then Touched(l, key)
    else if internal then l.(internalList := [key] + l.internalList, hashMap := l.hashMap[key := Entry(true, value)])
    else l.(lruList := [key] + l.lruList, hashMap := l.hashMap[key := Entry(false, value)])
  }

  function Removed<V>(l: Lru<V>, key: string): Lru<V> {
    if key !in l.hashMap then l
    else if l.hashMap[key].internal then l.(internalList := Without(l.internalList, key), hashMap := l.hashMap - {key})
    else l.(lruList := Without(l.lruList, key), hashMap := l.hashMap - {key})
  }

  function Oldest<V>(l: Lru<V>): Option<string> {
    if l.lruList == [] then None else Some(l.lruList[|l.lruList| - 1])
  }

  // ---- refinement: the lists are the keys by last use ----

  datatype Event<V> = GetOrAdd(key: string, value: V, internal: bool) | Get(key: string) | Remove(key: string) | Peek

  function After<V>(l: Lru<V>, e: Event<V>): Lru<V> {
    match e
    case GetOrAdd(key, value, internal) => Inserted(l, key, value, internal)
    case Get(key) => Touched(l, key)
    case Remove(key) => Removed(l, key)
    case Peek => l
  }

  function Run<V>(events: seq<Event<V>>): Lru<V> {
    if events == [] then Empty() else After(Run(events[..|events| - 1]), events[|events| - 1])
  }

  /** The number of the last event that asked for the key; a definition that knows nothing of lists. */
  function LastUse<V>(events: seq<Event<V>>, key: string): nat {
    if events == [] then 0
    else
      var e := events[|events| - 1];
      if (e.GetOrAdd? || e.Get?) && e.key == key then |events| else LastUse(events[..|events| - 1], key)
  }

  lemma {:induction false} LastUseBound<V>(events: seq<Event<V>>, key: string)
    ensures LastUse(events, key) <= |events|
  {
    if events != [] { LastUseBound(events[..|events| - 1], key); }
  }

  /** A list holds exactly the keys it should, latest use first. */
  ghost predicate ByUse<V>(keys: seq<string>, events: seq<Event<V>>) {
    forall i, j :: 0 <= i < j < |keys| ==> LastUse(events, keys[i]) > LastUse(events, keys[j])
  }

  ghost predicate Holds<V>(keys: seq<string>, m: map<string, Entry<V>>, internal: bool) {
    forall k :: k in keys <==> k in m && m[k].internal == internal
  }

  ghost predicate Refines<V>(l: Lru<V>, events: seq<Event<V>>) {
    && Holds(l.internalList, l.hashMap, true) && Holds(l.lruList, l.hashMap, false)
    && ByUse(l.internalList, events) && ByUse(l.lruList, events)
  }

  lemma {:induction false} WithoutMembers(keys: seq<string>, key: string)
    ensures forall k :: k in Without(keys, key) <==> k in keys && k != key
  {
    if keys != [] {
      WithoutMembers(keys[1..], key);
      assert keys == [keys[0]] + keys[1..];
    }
  }

  lemma {:induction false} WithoutByUse<V>(keys: seq<string>, key: string, events: seq<Event<V>>)
    requires ByUse(keys, events)
    ensures ByUse(Without(keys, key), events)
  {
    if keys != [] {
      var rest := keys[1..];
      assert forall i :: 0 <= i < |rest| ==> rest[i] == keys[i + 1];
      WithoutByUse(rest, key, events);
      WithoutMembers(rest, key);
      if keys[0] != key {
        var w := Without(rest, key);
        forall j | 0 <= j < |w| ensures LastUse(events, keys[0]) > LastUse(events, w[j]) {
          assert w[j] in rest;
          var i :| 0 <= i < |rest| && rest[i] == w[j];
          assert keys[i + 1] == w[j];
        }
      }
    }
  }

  lemma LastUseAfter<V>(events: seq<Event<V>>, e: Event<V>, key: string)
    ensures LastUse(events, key) <= |events|
    ensures LastUse(events + [e], key)
         == if (e.GetOrAdd? || e.Get?) && e.key == key then |events| + 1 else LastUse(events, key)
  {
    assert (events + [e])[..|events|] == events;
    LastUseBound(events, key);
  }

  /** Uses of other keys do not change the order. */
  lemma ByUseLater<V>(keys: seq<string>, events: seq<Event<V>>, e: Event<V>)
    requires ByUse(keys, events) && ((e.GetOrAdd? || e.Get?) ==> e.key !in keys)
    ensures ByUse(keys, events + [e])
  {
    hide LastUse;
    forall i, j | 0 <= i < j < |keys| ensures LastUse(events + [e], keys[i]) > LastUse(events + [e], keys[j]) {
      LastUseAfter(events, e, keys[i]);
      LastUseAfter(events, e, keys[j]);
    }
  }

  lemma FrontByUse<V>(keys: seq<string>, events: seq<Event<V>>, e: Event<V>)
    requires ByUse(keys, events) && (e.GetOrAdd? || e.Get?) && e.key !in keys
    ensures ByUse([e.key] + keys, events + [e])
  {
    hide LastUse;
    var more := [e.key] + keys;
    ByUseLater(keys, events, e);
    forall i, j | 0 <= i < j < |more| ensures LastUse(events + [e], more[i]) > LastUse(events + [e], more[j]) {
      assert more[j] == keys[j - 1];
      LastUseAfter(events, e, more[i]);
      LastUseAfter(events, e, more[j]);
    }
  }

  lemma UseKeeps<V>(l: Lru<V>, events: seq<Event<V>>, e: Event<V>)
    requires Refines(l, events) && (e.GetOrAdd? || e.Get?) && e.key in l.hashMap
    ensures Refines(Touched(l, e.key), events + [e])
  {
    hide LastUse, ByUse, Without;
    var list := if l.hashMap[e.key].internal then l.internalList else l.lruList;
    var other := if l.hashMap[e.key].internal then l.lruList else l.internalList;
    WithoutMembers(list, e.key);
    WithoutByUse(list, e.key, events);
    FrontByUse(Without(list, e.key), events, e);
    ByUseLater(other, events, e);
  }

  lemma InsertKeeps<V>(l: Lru<V>, events: seq<Event<V>>, e: Event<V>)
    requires Refines(l, events) && e.GetOrAdd? && e.key !in l.hashMap
    ensures Refines(Inserted(l, e.key, e.value, e.internal), events + [e])
  {
    hide LastUse, ByUse;
    FrontByUse(if e.internal then l.internalList else l.lruList, events, e);
    ByUseLater(if e.internal then l.lruList else l.internalList, events, e);
  }

  lemma RemoveKeeps<V>(l: Lru<V>, events: seq<Event<V>>, e: Event<V>)
    requires Refines(l, events) && (e.Remove? || e.Peek? || (e.Get? && e.key !in l.hashMap))
    ensures Refines(After(l, e), events + [e])
  {
    hide LastUse, ByUse, Without;
    ByUseLater(l.internalList, events, e);
    ByUseLater(l.lruList, events, e);
    if e.Remove? {
      WithoutMembers(l.internalList, e.key);
      WithoutMembers(l.lruList, e.key);
      WithoutByUse(l.internalList, e.key, events + [e]);
      WithoutByUse(l.lruList, e.key, events + [e]);
    }
  }

  lemma {:induction false} RunRefines<V>(events: seq<Event<V>>)
    ensures Refines(Run(events), events)
  {
    if events != [] {
      var init := events[..|events| - 1];
      var e := events[|events| - 1];
      RunRefines(init);
      assert init + [e] == events;
      hide Refines, LastUse, Touched, Inserted, Removed;
      var l := Run(init);
      if (e.GetOrAdd? || e.Get?) && e.key in l.hashMap {
        UseKeeps(l, init, e);
      } else if e.GetOrAdd? {
        InsertKeeps(l, init, e);
      } else {
        RemoveKeeps(l, init, e);
      }
    }
  }

  /** Over every run: the map's keys are the disjoint union of the two lists, no key is listed twice, and the key
      offered for eviction is the non-internal key whose last use is the oldest. */
  lemma OldestIsLeastRecentlyUsed<V>(events: seq<Event<V>>)
    ensures var l := Run(events);
      && (forall k :: k in l.hashMap <==> k in l.internalList || k in l.lruList)
      && (forall k :: !(k in l.internalList && k in l.lruList))
      && (forall i, j :: 0 <= i < j < |l.lruList| ==> l.lruList[i] != l.lruList[j])
      && (forall i, j :: 0 <= i < j < |l.internalList| ==> l.internalList[i] != l.internalList[j])
      && (Oldest(l) == None <==> forall k :: k in l.hashMap ==> l.hashMap[k].internal)
      && (Oldest(l).Some? ==> var o := Oldest(l).value;
            o in l.hashMap && !l.hashMap[o].internal
            && forall k :: k in l.hashMap && !l.hashMap[k].internal && k != o ==>
              LastUse(events, o) < LastUse(events, k))
  {
    RunRefines(events);
    var l := Run(events);
    hide LastUse, Run;
    if l.lruList != [] {
      var o := l.lruList[|l.lruList| - 1];
      assert o in l.lruList;
      forall k | k in l.hashMap && !l.hashMap[k].internal && k != o ensures LastUse(events, o) < LastUse(events, k) {
        var i :| 0 <= i < |l.lruList| && l.lruList[i] == k;
      }
    }
  }

  // ---- the implementation ----

  class Cache<V> {
    var internalList: seq<string>
    var lruList: seq<string>
    var hashMap: map<string, Entry<V>>

    function State(): Lru<V>
      reads this
    {
      Lru(internalList, lruList, hashMap)
    }

    constructor ()
      ensures State() == Empty()
    {
      internalList, lruList, hashMap := [], [], map[];
    }

    method GetOrAdd(key: string, value: V, isInternal: bool) returns (v: V, isNew: bool)
      modifies this
      ensures State() == Inserted(old(State()), key, value, isInternal)
      ensures key in hashMap && v == hashMap[key].value && (isNew <==> key !in old(hashMap))
      ensures isNew ==> v == value && hashMap[key].internal == isInternal
      ensures !isNew ==> hashMap == old(hashMap)
    {
      if key in hashMap {
        if hashMap[key].internal {
          internalList := MoveToFront(internalList, key);
        } else {
          lruList := MoveToFront(lruList, key);
        }
        return hashMap[key].value, false;
      }
      if isInternal {
        internalList := [key] + internalList;
      } else {
        lruList := [key] + lruList;
      }
      hashMap := hashMap[key := Entry(isInternal, value)];
      return value, true;
    }

    method Get(key: string) returns (v: Option<V>)
      modifies this`internalList, this`lruList
      ensures State() == Touched(old(State()), key)
      ensures v == if key in hashMap then Some(hashMap[key].value) else None
    {
      if key !in hashMap { return None; }
      if hashMap[key].internal {
        internalList := MoveToFront(internalList, key);
      } else {
        lruList := MoveToFront(lruList, key);
      }
      return Some(hashMap[key].value);
    }

    method Remove(key: string) returns (v: Option<V>)
      modifies this
      ensures State() == Removed(old(State()), key)
      ensures v == if key in old(hashMap) then Some(old(hashMap)[key].value) else None
    {
      if key !in hashMap { return None; }
      var e := hashMap[key];
      hashMap := hashMap - {key};
      if e.internal {
        internalList := Without(internalList, key);
      } else {
        lruList := Without(lruList, key);
      }
      return Some(e.value);
    }

    /** Looking at the oldest key does not count as a use. */
    method GetLeastRecentlyUsed() returns (r: Option<(string, V)>)
      requires Holds(lruList, hashMap, false)
      ensures Oldest(State()) == match r case None => None case Some((k, _)) => Some(k)
      ensures r.Some? ==> r.value.0 in hashMap && hashMap[r.value.0] == Entry(false, r.value.1)
    {
      if lruList == [] { return None; }
      var k := lruList[|lruList| - 1];
      assert k in lruList;
      return Some((k, hashMap[k].value));
    }
  }
}
