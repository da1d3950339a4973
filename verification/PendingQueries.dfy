/** The pending query cache: which senders wait for the answer to which query, found by query and by token.
 */
module PendingQueries {
  import opened Names

  type Token = string

  /** A message waiting for an answer; `sections` stands for the queries it carries. */
  datatype Sender = Sender(id: int, sections: string)

  datatype Waiting = Waiting(senders: seq<Sender>, expiration: int)

  /** The key of a message's queries; none if it carries anything but queries. */
  type Keying = Sender -> Option<string>

  datatype Cache = Cache(queryMap: map<string, Token>, tokenMap: map<Token, Waiting>, counter: int, max: int)

  // ---- all senders of a token map ----

  ghost function Pending(m: map<Token, Waiting>): multiset<Sender>
    decreases |m|
  {
    if m == map[] then multiset{}
    else
      var t :| t in m;
      assert (m - {t}).Keys == m.Keys - {t};
      multiset(m[t].senders) + Pending(m - {t})
  }

  lemma TakeBoth(m: map<Token, Waiting>, t: Token, u: Token)
    requires t in m && u in m && t != u
    ensures m - {u} - {t} == m - {t} - {u} && |m - {u}| < |m| && |m - {t}| < |m|
    ensures t in m - {u} && u in m - {t} && (m - {u})[t] == m[t] && (m - {t})[u] == m[u]
  {
    assert (m - {u}).Keys == m.Keys - {u} && (m - {t}).Keys == m.Keys - {t};
  }

  lemma {:induction false} PendingWithout(m: map<Token, Waiting>, t: Token)
    requires t in m
    ensures Pending(m) == multiset(m[t].senders) + Pending(m - {t})
    decreases |m|
  {
    var u :| u in m && Pending(m) == multiset(m[u].senders) + Pending(m - {u});
    if u != t {
      TakeBoth(m, t, u);
      PendingWithout(m - {u}, t);
      PendingWithout(m - {t}, u);
      hide Pending;
      Exchange(multiset(m[u].senders), multiset(m[t].senders), Pending(m - {u} - {t}));
    }
  }

  lemma Exchange(a: multiset<Sender>, b: multiset<Sender>, c: multiset<Sender>)
    ensures a + (b + c) == b + (a + c)
  {
  }

  lemma PendingWith(m: map<Token, Waiting>, t: Token, w: Waiting)
    ensures Pending(m[t := w]) == multiset(w.senders) + Pending(m - {t})
  {
    assert m[t := w] - {t} == m - {t};
    PendingWithout(m[t := w], t);
  }

  // ---- the operations ----

  predicate Accepts(key: Keying, c: Cache, ss: Sender) {
    c.counter < c.max && key(ss).Some?
  }

  /** Another sender already waits for the same queries, and has not expired. */
  predicate Joins(key: Keying, c: Cache, ss: Sender, now: int) {
    key(ss).Some? && key(ss).value in c.queryMap && c.queryMap[key(ss).value] in c.tokenMap
    && c.tokenMap[c.queryMap[key(ss).value]].expiration > now
  }

  function Added(key: Keying, c: Cache, ss: Sender, t: Token, expiration: int, now: int): Cache {
    if !Accepts(key, c, ss) then c
    else if Joins(key, c, ss, now) then
      var u := c.queryMap[key(ss).value];
      var w := c.tokenMap[u];
      c.(tokenMap := c.tokenMap[u := w.(senders := w.senders + [ss])], counter := c.counter + 1)
    else
      c.(queryMap := c.queryMap[key(ss).value := t], tokenMap := c.tokenMap[t := Waiting([ss], expiration)],
        counter := c.counter + 1)
  }

  predicate Keyed(key: Keying, w: Waiting) {
    w.senders != [] && key(w.senders[0]).Some?
  }

  /** Dropping a token takes out whatever its senders' key is mapped to. */
  function Dropped(key: Keying, c: Cache, t: Token): Cache
    requires t in c.tokenMap && Keyed(key, c.tokenMap[t])
  {
    var w := c.tokenMap[t];
    c.(tokenMap := c.tokenMap - {t}, queryMap := c.queryMap - {key(w.senders[0]).value},
      counter := c.counter - |w.senders|)
  }

  // ---- what every operation keeps ----

  /** All senders of a token share its key. */
  ghost predicate OneKey(key: Keying, w: Waiting) {
    Keyed(key, w) && forall s :: s in w.senders ==> key(s) == key(w.senders[0])
  }

  ghost predicate Tokens(key: Keying, c: Cache) {
    forall t :: t in c.tokenMap ==> OneKey(key, c.tokenMap[t])
  }

  /** Every query points to a live token whose senders have that query's key. */
  ghost predicate Queries(key: Keying, c: Cache) {
    forall k :: k in c.queryMap ==>
      c.queryMap[k] in c.tokenMap && c.tokenMap[c.queryMap[k]].senders != [] &&
        key(c.tokenMap[c.queryMap[k]].senders[0]) == Some(k)
  }

  ghost predicate Counted(c: Cache) {
    c.counter == |Pending(c.tokenMap)| && (c.counter <= c.max || c.counter == 0)
  }

  ghost predicate Inv(key: Keying, c: Cache) {
    Tokens(key, c) && Queries(key, c) && Counted(c)
  }

  lemma AddKeepsTokens(key: Keying, c: Cache, ss: Sender, t: Token, expiration: int, now: int)
    requires Tokens(key, c) && Queries(key, c)
    ensures Tokens(key, Added(key, c, ss, t, expiration, now))
  {
    if Accepts(key, c, ss) && Joins(key, c, ss, now) {
      var w := c.tokenMap[c.queryMap[key(ss).value]];
      assert OneKey(key, w.(senders := w.senders + [ss]));
    }
  }

  lemma AddKeepsQueries(key: Keying, c: Cache, ss: Sender, t: Token, expiration: int, now: int)
    requires Queries(key, c) && t !in c.tokenMap
    ensures Queries(key, Added(key, c, ss, t, expiration, now))
  {
  }

  lemma AddKeepsMaps(key: Keying, c: Cache, ss: Sender, t: Token, expiration: int, now: int)
    requires Tokens(key, c) && Queries(key, c) && t !in c.tokenMap
    ensures Tokens(key, Added(key, c, ss, t, expiration, now)) && Queries(key, Added(key, c, ss, t, expiration, now))
  {
    hide *;
    AddKeepsTokens(key, c, ss, t, expiration, now);
    AddKeepsQueries(key, c, ss, t, expiration, now);
  }

  lemma JoinPending(m: map<Token, Waiting>, u: Token, ss: Sender)
    requires u in m
    ensures Pending(m[u := m[u].(senders := m[u].senders + [ss])]) == Pending(m) + multiset{ss}
  {
    var w := m[u].(senders := m[u].senders + [ss]);
    PendingWithout(m, u);
    PendingWith(m, u, w);
    assert multiset(w.senders) == multiset(m[u].senders) + multiset{ss};
  }

  lemma NewPending(m: map<Token, Waiting>, t: Token, ss: Sender, expiration: int)
    requires t !in m
    ensures Pending(m[t := Waiting([ss], expiration)]) == Pending(m) + multiset{ss}
  {
    PendingWith(m, t, Waiting([ss], expiration));
    assert m - {t} == m && multiset([ss]) == multiset{ss};
  }

  lemma AddKeepsCount(key: Keying, c: Cache, ss: Sender, t: Token, expiration: int, now: int)
    requires Counted(c) && t !in c.tokenMap
    ensures var c' := Added(key, c, ss, t, expiration, now);
      && Counted(c')
      && Pending(c'.tokenMap) == Pending(c.tokenMap) + if Accepts(key, c, ss) then multiset{ss} else multiset{}
  {
    hide Pending;
    if Accepts(key, c, ss) {
      if Joins(key, c, ss, now) {
        JoinPending(c.tokenMap, c.queryMap[key(ss).value], ss);
      } else {
        NewPending(c.tokenMap, t, ss, expiration);
      }
    }
  }

  lemma DropKeeps(key: Keying, c: Cache, t: Token)
    requires Inv(key, c) && t in c.tokenMap
    ensures Keyed(key, c.tokenMap[t]) && Inv(key, Dropped(key, c, t))
    ensures Pending(c.tokenMap) == multiset(c.tokenMap[t].senders) + Pending(Dropped(key, c, t).tokenMap)
  {
    PendingWithout(c.tokenMap, t);
    assert |multiset(c.tokenMap[t].senders)| == |c.tokenMap[t].senders|;
  }

  // ---- sweeping ----

  function ExpiredIn(m: map<Token, Waiting>, now: int): set<Token> {
    set t | t in m && m[t].expiration < now
  }

  ghost function KeysOf(key: Keying, m: map<Token, Waiting>, gone: set<Token>): set<string> {
    set t | t in gone && t in m && Keyed(key, m[t]) :: key(m[t].senders[0]).value
  }

  /** The cache without some of its tokens, in whatever order they were dropped. */
  ghost function Swept(key: Keying, c: Cache, gone: set<Token>): Cache {
    c.(tokenMap := c.tokenMap - gone, queryMap := c.queryMap - KeysOf(key, c.tokenMap, gone),
      counter := |Pending(c.tokenMap - gone)|)
  }

  lemma SweepStarts(key: Keying, c: Cache)
    requires Counted(c)
    ensures Swept(key, c, {}) == c
  {
    assert c.tokenMap - {} == c.tokenMap && c.queryMap - KeysOf(key, c.tokenMap, {}) == c.queryMap;
  }

  lemma SweptMaps(key: Keying, c: Cache, gone: set<Token>, t: Token)
    requires t in c.tokenMap && t !in gone && Keyed(key, c.tokenMap[t])
    ensures c.tokenMap - gone - {t} == c.tokenMap - (gone + {t})
    ensures c.queryMap - KeysOf(key, c.tokenMap, gone) - {key(c.tokenMap[t].senders[0]).value} ==
      c.queryMap - KeysOf(key, c.tokenMap, gone + {t})
  {
    assert KeysOf(key, c.tokenMap, gone + {t}) == KeysOf(key, c.tokenMap, gone) + {key(c.tokenMap[t].senders[0]).value};
  }

  lemma SweepStep(key: Keying, c: Cache, gone: set<Token>, t: Token)
    requires Inv(key, Swept(key, c, gone)) && t in c.tokenMap && t !in gone
    ensures Keyed(key, c.tokenMap[t]) && Dropped(key, Swept(key, c, gone), t) == Swept(key, c, gone + {t})
    ensures Inv(key, Swept(key, c, gone + {t}))
    ensures Pending(c.tokenMap - gone) == multiset(c.tokenMap[t].senders) + Pending(c.tokenMap - (gone + {t}))
  {
    var s := Swept(key, c, gone);
    DropKeeps(key, s, t);
    assert s.tokenMap[t] == c.tokenMap[t];
    hide Inv, Pending, KeysOf, Keyed;
    SweptMaps(key, c, gone, t);
    SameCounter(key, s, t, c, gone);
  }

  lemma SameCounter(key: Keying, s: Cache, t: Token, c: Cache, gone: set<Token>)
    requires s.counter == |Pending(s.tokenMap)| && t in s.tokenMap && Keyed(key, s.tokenMap[t])
    requires Pending(s.tokenMap) == multiset(s.tokenMap[t].senders) + Pending(s.tokenMap - {t})
    requires s.tokenMap - {t} == c.tokenMap - (gone + {t})
    ensures s.counter - |s.tokenMap[t].senders| == |Pending(c.tokenMap - (gone + {t}))|
  {
    hide Pending;
    assert |multiset(s.tokenMap[t].senders)| == |s.tokenMap[t].senders|;
  }

  /** The part of a token map that belongs to some tokens. */
  function Only(m: map<Token, Waiting>, tokens: set<Token>): map<Token, Waiting> {
    map t | t in m && t in tokens :: m[t]
  }

  lemma OnlyMore(m: map<Token, Waiting>, rest: set<Token>, t: Token)
    requires t in m && t !in rest
    ensures Pending(Only(m, rest + {t})) == multiset(m[t].senders) + Pending(Only(m, rest))
  {
    var more := Only(m, rest + {t});
    assert more - {t} == Only(m, rest) && more[t] == m[t];
    PendingWithout(more, t);
  }

  /** A sweep keeps the invariant, and the senders of the tokens it drops are exactly those no longer pending. */
  lemma {:induction false} SweepKeeps(key: Keying, c: Cache, gone: set<Token>)
    requires Inv(key, c) && gone <= c.tokenMap.Keys
    ensures Inv(key, Swept(key, c, gone))
    ensures Pending(c.tokenMap) == Pending(Only(c.tokenMap, gone)) + Pending(c.tokenMap - gone)
    decreases |gone|
  {
    if gone == {} {
      SweepStarts(key, c);
      assert Only(c.tokenMap, gone) == map[] && c.tokenMap - gone == c.tokenMap;
    } else {
      var t :| t in gone;
      var rest := gone - {t};
      SweepKeeps(key, c, rest);
      SweepStep(key, c, rest, t);
      assert rest + {t} == gone;
      OnlyMore(c.tokenMap, rest, t);
      hide Pending, Only, Inv;
      Exchange(Pending(Only(c.tokenMap, rest)), multiset(c.tokenMap[t].senders), Pending(c.tokenMap - gone));
      assert Pending(c.tokenMap) == multiset(c.tokenMap[t].senders) + Pending(Only(c.tokenMap, rest)) +
        Pending(c.tokenMap - gone);
    }
  }

  // ---- runs ----

  /** The calls; `now` is the time of the call. */
  datatype Event =
    | AddEvent(ss: Sender, t: Token, expiration: int, now: int)
    | GetEvent(t: Token, now: int)
    | SweepEvent(now: int)

  /** The cache and everything it ever accepted, returned to a caller or let expire. */
  datatype History = History(cache: Cache, accepted: multiset<Sender>, returned: multiset<Sender>,
    expired: multiset<Sender>)

  ghost function After(key: Keying, h: History, e: Event): History {
    var c := h.cache;
    match e
    case AddEvent(ss, t, expiration, now) =>
      h.(cache := Added(key, c, ss, t, expiration, now),
         accepted := h.accepted + if Accepts(key, c, ss) then multiset{ss} else multiset{})
    case GetEvent(t, _) =>
      if t in c.tokenMap && Keyed(key, c.tokenMap[t]) then
        h.(cache := Dropped(key, c, t), returned := h.returned + multiset(c.tokenMap[t].senders))
      else h
    case SweepEvent(now) =>
      var gone := ExpiredIn(c.tokenMap, now);
      h.(cache := Swept(key, c, gone), expired := h.expired + Pending(Only(c.tokenMap, gone)))
  }

  ghost function Run(key: Keying, max: int, events: seq<Event>): History {
    if events == [] then History(Cache(map[], map[], 0, max), multiset{}, multiset{}, multiset{})
    else After(key, Run(key, max, events[..|events| - 1]), events[|events| - 1])
  }

  /** No message is given a token that is in use. */
  ghost predicate FreshTokens(key: Keying, max: int, events: seq<Event>) {
    forall i :: 0 <= i < |events| && events[i].AddEvent? ==> events[i].t !in Run(key, max, events[..i]).cache.tokenMap
  }

  ghost predicate Balanced(h: History) {
    h.accepted == h.returned + h.expired + Pending(h.cache.tokenMap)
  }

  lemma Balances(acc: multiset<Sender>, ret: multiset<Sender>, exp: multiset<Sender>, old_: multiset<Sender>,
                 new_: multiset<Sender>, x: multiset<Sender>)
    requires acc == ret + exp + old_
    ensures new_ == old_ + x ==> acc + x == ret + exp + new_
    ensures old_ == x + new_ ==> acc == (ret + x) + exp + new_ && acc == ret + (exp + x) + new_
  {
  }

  lemma AddConserves(key: Keying, h: History, ss: Sender, t: Token, expiration: int, now: int)
    requires Inv(key, h.cache) && Balanced(h) && t !in h.cache.tokenMap
    ensures var h' := After(key, h, AddEvent(ss, t, expiration, now)); Inv(key, h'.cache) && Balanced(h')
  {
    AddKeepsMaps(key, h.cache, ss, t, expiration, now);
    AddKeepsCount(key, h.cache, ss, t, expiration, now);
    var c' := Added(key, h.cache, ss, t, expiration, now);
    hide Pending, Added, Accepts, Counted, Tokens, Queries;
    Balances(h.accepted, h.returned, h.expired, Pending(h.cache.tokenMap), Pending(c'.tokenMap),
             if Accepts(key, h.cache, ss) then multiset{ss} else multiset{});
  }

  lemma GetConserves(key: Keying, h: History, t: Token, now: int)
    requires Inv(key, h.cache) && Balanced(h)
    ensures var h' := After(key, h, GetEvent(t, now)); Inv(key, h'.cache) && Balanced(h')
  {
    hide Pending, Dropped, Inv;
    if t in h.cache.tokenMap {
      DropKeeps(key, h.cache, t);
      Balances(h.accepted, h.returned, h.expired, Pending(h.cache.tokenMap), Pending(Dropped(key, h.cache, t).tokenMap),
               multiset(h.cache.tokenMap[t].senders));
    }
  }

  lemma SweepConserves(key: Keying, h: History, now: int)
    requires Inv(key, h.cache) && Balanced(h)
    ensures var h' := After(key, h, SweepEvent(now)); Inv(key, h'.cache) && Balanced(h')
  {
    hide Pending, Inv, KeysOf;
    var gone := ExpiredIn(h.cache.tokenMap, now);
    SweepKeeps(key, h.cache, gone);
    Balances(h.accepted, h.returned, h.expired, Pending(h.cache.tokenMap), Pending(h.cache.tokenMap - gone),
             Pending(Only(h.cache.tokenMap, gone)));
  }

  /** Every accepted sender is handed back once, or expires, or is still waiting; and the invariants hold
      throughout: queries point to live tokens, tokens have one key, the counter is exact and bounded. */
  lemma {:induction false} RunConserves(key: Keying, max: int, events: seq<Event>)
    requires FreshTokens(key, max, events)
    ensures Inv(key, Run(key, max, events).cache) && Balanced(Run(key, max, events))
  {
    if events != [] {
      var init := events[..|events| - 1];
      forall i | 0 <= i < |init| && init[i].AddEvent? ensures init[i].t !in Run(key, max, init[..i]).cache.tokenMap {
        assert init[..i] == events[..i] && events[i].AddEvent?;
      }
      RunConserves(key, max, init);
      hide Inv, After, Balanced;
      match events[|events| - 1]
      case AddEvent(ss, t, expiration, now) => AddConserves(key, Run(key, max, init), ss, t, expiration, now);
      case GetEvent(t, now) => GetConserves(key, Run(key, max, init), t, now);
      case SweepEvent(now) => SweepConserves(key, Run(key, max, init), now);
    }
  }

  lemma OneFewer(m: map<Token, Waiting>, now: int, todo: set<Token>, t: Token)
    requires t in todo && todo <= m.Keys
    ensures t in m - (ExpiredIn(m, now) - todo)
    ensures ExpiredIn(m, now) - (todo - {t}) == (ExpiredIn(m, now) - todo) + if m[t].expiration < now then {t} else {}
  {
  }

  lemma StillWaiting(m: map<Token, Waiting>, now: int)
    ensures forall t :: t in m - ExpiredIn(m, now) <==> t in m && m[t].expiration >= now
  {
  }

  // ---- the implementation ----

  class PendingQuery {
    const key: Keying
    const max: int
    var queryMap: map<string, Token>
    var tokenMap: map<Token, Waiting>
    var counter: int

    function State(): Cache
      reads this
    {
      Cache(queryMap, tokenMap, counter, max)
    }

    constructor (key: Keying, max: int)
      ensures this.key == key && State() == Cache(map[], map[], 0, max) && Inv(key, State())
    {
      this.key, this.max, queryMap, tokenMap, counter := key, max, map[], map[], 0;
    }

    /** The result says that the query has to be forwarded under `t`. */
    method Add(ss: Sender, t: Token, expiration: int, now: int) returns (isNew: bool)
      requires Inv(key, State())
      modifies this
      ensures State() == Added(key, old(State()), ss, t, expiration, now)
      ensures isNew <==> Accepts(key, old(State()), ss) && !Joins(key, old(State()), ss, now)
    {
      if counter >= max { return false; }
      var k := key(ss);
      if k == None { return false; }
      counter := counter + 1;
      if k.value in queryMap && tokenMap[queryMap[k.value]].expiration > now {
        var u := queryMap[k.value];
        var w := tokenMap[u];
        tokenMap := tokenMap[u := w.(senders := w.senders + [ss])];
        return false;
      }
      queryMap := queryMap[k.value := t];
      tokenMap := tokenMap[t := Waiting([ss], expiration)];
      return true;
    }

    method Drop(t: Token)
      requires Inv(key, State()) && t in tokenMap
      modifies this
      ensures Keyed(key, old(tokenMap)[t]) && State() == Dropped(key, old(State()), t)
    {
      var w := tokenMap[t];
      tokenMap := tokenMap - {t};
      queryMap := queryMap - {key(w.senders[0]).value};
      counter := counter - |w.senders|;
    }

    method GetAndRemove(t: Token) returns (senders: seq<Sender>)
      requires Inv(key, State())
      modifies this
      ensures t in old(tokenMap) ==>
        Keyed(key, old(tokenMap)[t]) && State() == Dropped(key, old(State()), t) && senders == old(tokenMap)[t].senders
      ensures t !in old(tokenMap) ==> State() == old(State()) && senders == []
    {
      senders := [];
      if t in tokenMap {
        senders := tokenMap[t].senders;
        Drop(t);
      }
    }

    method DropIfExpired(t: Token, now: int, ghost c: Cache, ghost gone: set<Token>) returns (ghost more: set<Token>)
      requires State() == Swept(key, c, gone) && Inv(key, State()) && tokenMap == c.tokenMap - gone && t in tokenMap
      modifies this
      ensures more == gone + if c.tokenMap[t].expiration < now then {t} else {}
      ensures State() == Swept(key, c, more) && Inv(key, State()) && tokenMap == c.tokenMap - more
    {
      more := gone;
      if tokenMap[t].expiration < now {
        SweepStep(key, c, gone, t);
        Drop(t);
        more := gone + {t};
      }
    }

    method RemoveExpiredValues(now: int)
      requires Inv(key, State())
      modifies this
      ensures State() == Swept(key, old(State()), ExpiredIn(old(tokenMap), now)) && Inv(key, State())
      ensures forall t :: t in tokenMap <==> t in old(tokenMap) && old(tokenMap)[t].expiration >= now
      ensures forall t :: t in tokenMap ==> tokenMap[t] == old(tokenMap)[t]
    {
      ghost var c := State();
      var todo := tokenMap.Keys;
      ghost var gone: set<Token> := {};
      SweepStarts(key, c);
      assert tokenMap == c.tokenMap - gone && gone == ExpiredIn(c.tokenMap, now) - todo;
      hide Inv, Swept, ExpiredIn;
      while todo != {}
        invariant todo <= c.tokenMap.Keys
        invariant gone == ExpiredIn(c.tokenMap, now) - todo
        invariant State() == Swept(key, c, gone) && Inv(key, State()) && tokenMap == c.tokenMap - gone
        decreases |todo|
      {
        var t :| t in todo;
        OneFewer(c.tokenMap, now, todo, t);
        todo := todo - {t};
        gone := DropIfExpired(t, now, c, gone);
      }
      assert gone == ExpiredIn(c.tokenMap, now) - {} == ExpiredIn(c.tokenMap, now);
      StillWaiting(c.tokenMap, now);
    }
  }
}
