/** Whether a query is forwarded only once while its answer is awaited: it is, exactly in the runs in which no call
    drops a token while a newer token waits for the same queries.
 */
module PendingJoins {
  import opened Names
  import opened PendingQueries

  /** The query that a token's senders wait for. */
  predicate WaitsFor(key: Keying, c: Cache, u: Token, k: string) {
    u in c.tokenMap && c.tokenMap[u].senders != [] && key(c.tokenMap[u].senders[0]) == Some(k)
  }

  predicate Unexpired(c: Cache, u: Token, now: int) {
    u in c.tokenMap && c.tokenMap[u].expiration > now
  }

  /** Every unexpired token can be found by its query. */
  ghost predicate Linked(key: Keying, c: Cache, now: int) {
    forall u, k :: Unexpired(c, u, now) && WaitsFor(key, c, u, k) ==> k in c.queryMap && c.queryMap[k] == u
  }

  /** Then a sender who is accepted, and whose query has an unexpired token, joins the senders of that token and nothing
      else changes but the counter; and no two unexpired tokens wait for the same query. */
  lemma LinkedJoins(key: Keying, c: Cache, ss: Sender, t: Token, expiration: int, now: int, u: Token, k: string)
    requires Inv(key, c) && Linked(key, c, now) && Unexpired(c, u, now) && WaitsFor(key, c, u, k)
    ensures c.counter < c.max && key(ss) == Some(k) ==>
      && Joins(key, c, ss, now)
      && Added(key, c, ss, t, expiration, now)
         == Cache(c.queryMap, c.tokenMap[u := Waiting(c.tokenMap[u].senders + [ss], c.tokenMap[u].expiration)],
                  c.counter + 1, c.max)
    ensures forall w :: Unexpired(c, w, now) && WaitsFor(key, c, w, k) ==> w == u
  {
  }

  /** A sender who is accepted, and whose query has no unexpired token, is the first to wait under the new token. A
      sender who is not accepted changes nothing. */
  lemma OthersAreForwarded(key: Keying, c: Cache, ss: Sender, t: Token, expiration: int, now: int)
    requires Inv(key, c)
    ensures c.counter < c.max && key(ss).Some?
      && (forall u :: Unexpired(c, u, now) ==> !WaitsFor(key, c, u, key(ss).value))
      ==> && !Joins(key, c, ss, now)
          && Added(key, c, ss, t, expiration, now)
             == Cache(c.queryMap[key(ss).value := t], c.tokenMap[t := Waiting([ss], expiration)], c.counter + 1, c.max)
    ensures !(c.counter < c.max && key(ss).Some?) ==> Added(key, c, ss, t, expiration, now) == c
  {
    hide Pending;
    if Joins(key, c, ss, now) {
      var u := c.queryMap[key(ss).value];
      assert Unexpired(c, u, now) && WaitsFor(key, c, u, key(ss).value);
    }
  }

  /** The tokens a call drops. */
  function Drops(c: Cache, e: Event): set<Token> {
    match e
    case AddEvent(_, _, _, _) => {}
    case GetEvent(t, _) => if t in c.tokenMap then {t} else {}
    case SweepEvent(now) => ExpiredIn(c.tokenMap, now)
  }

  /** The call drops a token while an unexpired token that it keeps waits for the same query. */
  ghost predicate Cuts(key: Keying, c: Cache, e: Event) {
    exists t, u, k :: Cut(key, c, e, t, u, k)
  }

  predicate Cut(key: Keying, c: Cache, e: Event, t: Token, u: Token, k: string) {
    && t in Drops(c, e) && WaitsFor(key, c, t, k)
    && u !in Drops(c, e) && WaitsFor(key, c, u, k) && Unexpired(c, u, e.now)
  }

  lemma AddKeepsLinked(key: Keying, c: Cache, before: int, ss: Sender, t: Token, expiration: int, now: int)
    requires Inv(key, c) && Linked(key, c, before) && before <= now && t !in c.tokenMap
    ensures Linked(key, Added(key, c, ss, t, expiration, now), now)
  {
    hide Pending;
    var c' := Added(key, c, ss, t, expiration, now);
    forall u, k | Unexpired(c', u, now) && WaitsFor(key, c', u, k) ensures k in c'.queryMap && c'.queryMap[k] == u {
      if u in c.tokenMap {
        assert Unexpired(c, u, before) && WaitsFor(key, c, u, k);
      }
    }
  }

  /** What a call that drops tokens leaves of the two maps. */
  ghost predicate Leaves(key: Keying, c: Cache, gone: set<Token>, c': Cache) {
    && (forall u :: u in c'.tokenMap <==> u in c.tokenMap && u !in gone)
    && (forall u :: u in c'.tokenMap ==> c'.tokenMap[u] == c.tokenMap[u])
    && (forall k :: k in c'.queryMap <==> k in c.queryMap && !exists t :: t in gone && WaitsFor(key, c, t, k))
    && (forall k :: k in c'.queryMap ==> c'.queryMap[k] == c.queryMap[k])
  }

  lemma DropLeaves(key: Keying, h: History, e: Event)
    requires Inv(key, h.cache) && !e.AddEvent?
    ensures Leaves(key, h.cache, Drops(h.cache, e), After(key, h, e).cache)
  {
    hide Pending, Only;
    assert Tokens(key, h.cache);
  }

  lemma LeftLinked(key: Keying, c: Cache, before: int, e: Event, c': Cache)
    requires Linked(key, c, before) && before <= e.now && Leaves(key, c, Drops(c, e), c')
    ensures Linked(key, c', e.now) <==> !Cuts(key, c, e)
  {
    hide Drops;
    if t, u, k :| Cut(key, c, e, t, u, k) {
      assert Unexpired(c', u, e.now) && WaitsFor(key, c', u, k);
    }
    if !Linked(key, c', e.now) {
      var u, k :| Unexpired(c', u, e.now) && WaitsFor(key, c', u, k) && !(k in c'.queryMap && c'.queryMap[k] == u);
      assert Unexpired(c, u, before) && WaitsFor(key, c, u, k);
      var t :| t in Drops(c, e) && WaitsFor(key, c, t, k);
      assert Cut(key, c, e, t, u, k);
    }
  }

  // ---- over runs ----

  /** The clock does not go back. */
  predicate Ordered(events: seq<Event>) {
    forall i, j :: 0 <= i < j < |events| ==> events[i].now <= events[j].now
  }

  /** After each of the first `n` calls, every token unexpired at the time of the call can be found by its query. */
  ghost predicate AlwaysLinked(key: Keying, max: int, events: seq<Event>, n: nat)
    requires n <= |events|
  {
    forall i: nat :: i < n ==> LinkedAfter(key, max, events, i)
  }

  ghost predicate LinkedAfter(key: Keying, max: int, events: seq<Event>, i: nat)
    requires i < |events|
  {
    Linked(key, Run(key, max, events[..i + 1]).cache, events[i].now)
  }

  ghost predicate NeverCuts(key: Keying, max: int, events: seq<Event>, n: nat)
    requires n <= |events|
  {
    forall i: nat :: i < n ==> !CutsAt(key, max, events, i)
  }

  ghost predicate CutsAt(key: Keying, max: int, events: seq<Event>, i: nat)
    requires i < |events|
  {
    Cuts(key, Run(key, max, events[..i]).cache, events[i])
  }

  lemma StepLinked(key: Keying, h: History, before: int, e: Event)
    requires Inv(key, h.cache) && Linked(key, h.cache, before) && before <= e.now
    requires e.AddEvent? ==> e.t !in h.cache.tokenMap
    ensures Linked(key, After(key, h, e).cache, e.now) <==> !Cuts(key, h.cache, e)
  {
    hide Inv, Linked;
    if e.AddEvent? {
      AddKeepsLinked(key, h.cache, before, e.ss, e.t, e.expiration, e.now);
    } else {
      DropLeaves(key, h, e);
      hide After;
      LeftLinked(key, h.cache, before, e, After(key, h, e).cache);
    }
  }

  lemma FreshUpTo(key: Keying, max: int, events: seq<Event>, n: nat)
    requires FreshTokens(key, max, events) && n <= |events|
    ensures FreshTokens(key, max, events[..n])
  {
    var init := events[..n];
    forall i | 0 <= i < |init| && init[i].AddEvent? ensures init[i].t !in Run(key, max, init[..i]).cache.tokenMap {
      assert init[..i] == events[..i] && events[i].AddEvent?;
    }
  }

  lemma RunNext(key: Keying, max: int, events: seq<Event>, n: nat)
    requires n < |events|
    ensures Run(key, max, events[..n + 1]) == After(key, Run(key, max, events[..n]), events[n])
  {
    hide After;
    assert events[..n + 1][..n] == events[..n];
  }

  lemma NextLinked(key: Keying, max: int, events: seq<Event>, n: nat)
    requires n < |events| && FreshTokens(key, max, events) && Ordered(events)
    requires n > 0 ==> LinkedAfter(key, max, events, n - 1)
    ensures LinkedAfter(key, max, events, n) <==> !CutsAt(key, max, events, n)
  {
    var h := Run(key, max, events[..n]);
    FreshUpTo(key, max, events, n);
    RunConserves(key, max, events[..n]);
    RunNext(key, max, events, n);
    var before := if n == 0 then events[0].now else events[n - 1].now;
    assert Linked(key, h.cache, before) by {
      if n == 0 { StartsLinked(key, max, before); }
    }
    hide Inv, Linked, After, Balanced, Run, Cuts;
    StepLinked(key, h, before, events[n]);
  }

  lemma StartsLinked(key: Keying, max: int, now: int)
    ensures Linked(key, Run(key, max, []).cache, now)
  {
  }

  /** Whenever tokens are fresh and the clock does not go back: the tokens that are unexpired can be found by their
      queries after every call exactly if no call drops a token while an unexpired one waits for the same query. */
  lemma {:induction false} LinkedIffNeverCut(key: Keying, max: int, events: seq<Event>, n: nat)
    requires n <= |events| && FreshTokens(key, max, events) && Ordered(events)
    ensures AlwaysLinked(key, max, events, n) <==> NeverCuts(key, max, events, n)
  {
    hide LinkedAfter, CutsAt, FreshTokens, Ordered;
    if n > 0 {
      LinkedIffNeverCut(key, max, events, n - 1);
      if AlwaysLinked(key, max, events, n - 1) {
        NextLinked(key, max, events, n - 1);
      }
    }
  }

  /** In such a run a sender who is accepted, and whose query has an unexpired token, joins the senders of that token,
      so the query is not forwarded again; and no two unexpired tokens ever wait for the same query. */
  lemma ForwardedOnce(key: Keying, max: int, events: seq<Event>, n: nat, u: Token, k: string)
    requires FreshTokens(key, max, events) && Ordered(events) && NeverCuts(key, max, events, |events|)
    requires n < |events| && events[n].AddEvent?
    requires var c := Run(key, max, events[..n]).cache; Unexpired(c, u, events[n].now) && WaitsFor(key, c, u, k)
    ensures var c, e := Run(key, max, events[..n]).cache, events[n];
      && (c.counter < c.max && key(e.ss) == Some(k) ==>
            && Joins(key, c, e.ss, e.now)
            && Run(key, max, events[..n + 1]).cache
               == Cache(c.queryMap, c.tokenMap[u := Waiting(c.tokenMap[u].senders + [e.ss], c.tokenMap[u].expiration)],
                        c.counter + 1, c.max))
      && forall w :: Unexpired(c, w, e.now) && WaitsFor(key, c, w, k) ==> w == u
  {
    var c, e := Run(key, max, events[..n]).cache, events[n];
    FreshUpTo(key, max, events, n);
    RunConserves(key, max, events[..n]);
    LinkedIffNeverCut(key, max, events, |events|);
    assert Linked(key, c, e.now) by {
      if n == 0 { StartsLinked(key, max, e.now); } else {
        assert LinkedAfter(key, max, events, n - 1);
        LinkedLater(key, c, events[n - 1].now, e.now);
      }
    }
    assert events[..n + 1][..n] == events[..n] && events[..n + 1][n] == e;
    hide Inv, Linked, Balanced, FreshTokens, NeverCuts, AlwaysLinked;
    LinkedJoins(key, c, e.ss, e.t, e.expiration, e.now, u, k);
  }

  lemma LinkedLater(key: Keying, c: Cache, before: int, now: int)
    requires Linked(key, c, before) && before <= now
    ensures Linked(key, c, now)
  {
    forall u, k | Unexpired(c, u, now) && WaitsFor(key, c, u, k) ensures k in c.queryMap && c.queryMap[k] == u {
      assert Unexpired(c, u, before);
    }
  }

  // ---- a query can be forwarded twice ----

  const BY_TEXT: Keying := (ss: Sender) => Some(ss.sections)
  const FIRST := Sender(1, "q")
  const SECOND := Sender(2, "q")
  const THIRD := Sender(3, "q")

  /** The answer under a token that has expired comes after the query was forwarded again under a second token. */
  const LATE_ANSWER := [
    AddEvent(FIRST, "t1", 5, 1), AddEvent(SECOND, "t2", 20, 10), GetEvent("t1", 11), AddEvent(THIRD, "t3", 30, 12)]

  /** The cache after the first two calls. */
  const BOTH := Cache(map["q" := "t2"], map["t1" := Waiting([FIRST], 5), "t2" := Waiting([SECOND], 20)], 2, 9)

  ghost function LateCache(n: nat): Cache
    requires n <= |LATE_ANSWER|
  {
    Run(BY_TEXT, 9, LATE_ANSWER[..n]).cache
  }

  lemma LateNext(n: nat)
    requires n < |LATE_ANSWER|
    ensures var h := Run(BY_TEXT, 9, LATE_ANSWER[..n]);
      h.cache == LateCache(n) && LateCache(n + 1) == After(BY_TEXT, h, LATE_ANSWER[n]).cache
  {
    assert LATE_ANSWER[..n + 1][..n] == LATE_ANSWER[..n];
    hide After;
  }

  lemma OneForwarded()
    ensures LateCache(0) == Cache(map[], map[], 0, 9)
    ensures LateCache(1) == Cache(map["q" := "t1"], map["t1" := Waiting([FIRST], 5)], 1, 9)
  {
    LateNext(0);
    assert LATE_ANSWER[..0] == [];
  }

  lemma TwoForwarded()
    ensures LateCache(2) == BOTH
  {
    OneForwarded();
    LateNext(1);
    hide Run, LateCache;
  }

  lemma LateDrop()
    ensures "t1" in BOTH.tokenMap && Keyed(BY_TEXT, BOTH.tokenMap["t1"])
    ensures Dropped(BY_TEXT, BOTH, "t1") == Cache(map[], map["t2" := Waiting([SECOND], 20)], 1, 9)
  {
    assert BOTH.tokenMap - {"t1"} == map["t2" := Waiting([SECOND], 20)];
    assert BOTH.queryMap - {"q"} == map[];
  }

  lemma GetDrops(h: History, t: Token, now: int)
    requires t in h.cache.tokenMap && Keyed(BY_TEXT, h.cache.tokenMap[t])
    ensures After(BY_TEXT, h, GetEvent(t, now)).cache == Dropped(BY_TEXT, h.cache, t)
  {
    hide Dropped, Keyed;
  }

  lemma LateAnswered()
    ensures LateCache(3) == Cache(map[], map["t2" := Waiting([SECOND], 20)], 1, 9)
  {
    var h := Run(BY_TEXT, 9, LATE_ANSWER[..2]);
    LateNext(2);
    assert LATE_ANSWER[2] == GetEvent("t1", 11);
    hide Run, LateCache, After, Dropped, Keyed;
    TwoForwarded();
    LateDrop();
    GetDrops(h, "t1", 11);
  }

  lemma ForwardedAgain()
    ensures LateCache(4)
      == Cache(map["q" := "t3"], map["t2" := Waiting([SECOND], 20), "t3" := Waiting([THIRD], 30)], 2, 9)
  {
    LateAnswered();
    LateNext(3);
    hide Run, LateCache;
  }

  lemma LateTokensFresh()
    ensures FreshTokens(BY_TEXT, 9, LATE_ANSWER)
  {
    OneForwarded();
    TwoForwarded();
    LateAnswered();
    forall i | 0 <= i < |LATE_ANSWER| && LATE_ANSWER[i].AddEvent? ensures LATE_ANSWER[i].t !in LateCache(i).tokenMap {
      assert i == 0 || i == 1 || i == 3;
    }
    hide Run;
  }

  /** In that run the third sender is accepted while the second, unexpired token waits for the same query, and does not
      join it: the query is forwarded again, and two unexpired tokens wait for it. */
  lemma QueryIsForwardedTwice()
    ensures FreshTokens(BY_TEXT, 9, LATE_ANSWER) && Ordered(LATE_ANSWER)
    ensures var c := Run(BY_TEXT, 9, LATE_ANSWER[..3]).cache;
      && Unexpired(c, "t2", 12) && WaitsFor(BY_TEXT, c, "t2", "q")
      && Accepts(BY_TEXT, c, THIRD) && !Joins(BY_TEXT, c, THIRD, 12)
    ensures var c := Run(BY_TEXT, 9, LATE_ANSWER).cache;
      forall t :: t in {"t2", "t3"} ==> Unexpired(c, t, 12) && WaitsFor(BY_TEXT, c, t, "q")
  {
    LateAnswered();
    ForwardedAgain();
    assert LATE_ANSWER[..4] == LATE_ANSWER;
    LateTokensFresh();
    hide Run, FreshTokens;
  }
}
