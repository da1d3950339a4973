/** The zone index of the negative assertion cache, over every interleaving: no entry outlives its value, and the
    live values without an entry are exactly those whose entry a removal took for another value.
 */
module NegCacheIndex {
  import opened Names
  import opened NegCacheSteps

  function Entry(value: Value): (string, string) {
    (value.zone, value.key)
  }

  predicate IsListed(s: State, v: Vid)
    requires v < |s.vals|
  {
    Entry(s.vals[v]) in s.index && s.index[Entry(s.vals[v])] == v
  }

  /** The value a thread has created and not yet listed. */
  function Makes(pc: Pc): Option<Vid> {
    match pc
    case AddGot(_, v, isNew) => if isNew then Some(v) else None
    case AddLocked(_, v, isNew) => if isNew then Some(v) else None
    case _ => None
  }

  predicate MadeFor(pc: Pc, value: Value) {
    (pc.AddGot? || pc.AddLocked?) ==> Entry(value) == (pc.r.zone, pc.r.key)
  }

  predicate Leaving(pc: Pc) {
    Marked(pc) || Removed(pc)
  }

  ghost predicate Entries(s: State) {
    forall e :: e in s.index ==> s.index[e] < |s.vals| && Entry(s.vals[s.index[e]]) == e
  }

  /** A listed value is live, or the thread that deleted it has yet to unlist it. */
  ghost predicate NoneStale(s: State) {
    forall v :: 0 <= v < |s.vals| && s.vals[v].deleted && IsListed(s, v) ==>
      var l := s.vals[v].lock; l.Some? && l.value < |s.threads| && Leaving(s.threads[l.value])
  }

  ghost predicate Makers(s: State) {
    forall t :: 0 <= t < |s.threads| && Makes(s.threads[t]).Some? ==>
      var v := Makes(s.threads[t]).value;
      v < |s.vals| && !IsListed(s, v) && v !in s.lost && MadeFor(s.threads[t], s.vals[v])
  }

  ghost predicate OneMaker(s: State) {
    forall t, u :: 0 <= t < |s.threads| && 0 <= u < |s.threads| && t != u && Makes(s.threads[t]).Some?
      ==> Makes(s.threads[t]) != Makes(s.threads[u])
  }

  ghost predicate LostUnlisted(s: State) {
    forall v :: v in s.lost ==> v < |s.vals| && !IsListed(s, v)
  }

  ghost predicate Made(s: State, v: Vid) {
    exists t :: 0 <= t < |s.threads| && Makes(s.threads[t]) == Some(v)
  }

  /** A live value is listed, or was lost, or is about to be listed. */
  ghost predicate Complete(s: State) {
    forall v :: 0 <= v < |s.vals| && !s.vals[v].deleted ==> IsListed(s, v) || v in s.lost || Made(s, v)
  }

  ghost predicate Indexed(s: State) {
    Entries(s) && NoneStale(s) && Makers(s) && OneMaker(s) && LostUnlisted(s) && Complete(s)
  }

  /** A step of `t` that leaves the index alone and may rewrite `v`, whose lock it holds or finds free. */
  ghost predicate Passes(s: State, s': State, t: Tid, v: Vid, pc: Pc) {
    && t < |s.threads| && v < |s.vals| && |s'.vals| == |s.vals|
    && s'.threads == s.threads[t := pc] && s'.index == s.index && s'.lost == s.lost
    && (forall w :: 0 <= w < |s.vals| && w != v ==> s'.vals[w] == s.vals[w])
    && Entry(s'.vals[v]) == Entry(s.vals[v]) && (s.vals[v].deleted ==> s'.vals[v].deleted)
    && (Holds(s.threads[t]).Some? ==> Holds(s.threads[t]) == Some(v))
    && (Holds(s.threads[t]) == None ==> s.vals[v].lock == None)
    && (s'.vals[v].deleted && IsListed(s, v) ==> s'.vals[v].lock == Some(t) && Leaving(pc))
    && (Makes(pc).Some? ==> Makes(pc) == Makes(s.threads[t]) == Some(v) && MadeFor(pc, s.vals[v]))
    && (Makes(pc) == None && Makes(s.threads[t]).Some? ==> Makes(s.threads[t]) == Some(v) && s'.vals[v].deleted)
  }

  lemma PassKeepsNoneStale(s: State, s': State, t: Tid, v: Vid, pc: Pc)
    requires Locks(s) && NoneStale(s) && Passes(s, s', t, v, pc)
    ensures NoneStale(s')
  {
    hide Holds, Makes, Leaving, MadeFor;
  }

  lemma PassKeepsMakers(s: State, s': State, t: Tid, v: Vid, pc: Pc)
    requires Entries(s) && Makers(s) && OneMaker(s) && LostUnlisted(s) && Passes(s, s', t, v, pc)
    ensures Entries(s') && Makers(s') && OneMaker(s') && LostUnlisted(s')
  {
    hide Holds, Makes, Leaving;
  }

  lemma PassKeepsComplete(s: State, s': State, t: Tid, v: Vid, pc: Pc)
    requires Complete(s) && Passes(s, s', t, v, pc)
    ensures Complete(s')
  {
    hide Holds, Makes, Leaving, MadeFor;
    forall w | 0 <= w < |s'.vals| && !s'.vals[w].deleted ensures IsListed(s', w) || w in s'.lost || Made(s', w) {
      if !IsListed(s, w) && w !in s.lost {
        var u :| 0 <= u < |s.threads| && Makes(s.threads[u]) == Some(w);
        assert Makes(s'.threads[u]) == Some(w);
      }
    }
  }

  lemma PassKeepsIndexed(s: State, s': State, t: Tid, v: Vid, pc: Pc)
    requires Base(s) && Indexed(s) && Passes(s, s', t, v, pc)
    ensures Indexed(s')
  {
    PassKeepsNoneStale(s, s', t, v, pc);
    PassKeepsMakers(s, s', t, v, pc);
    PassKeepsComplete(s, s', t, v, pc);
  }

  /** A step of a thread that neither holds a lock nor makes a value, before or after. */
  lemma WalkKeepsIndexed(s: State, s': State, t: Tid, pc: Pc)
    requires Base(s) && Indexed(s) && t < |s.threads| && s'.threads == s.threads[t := pc] && s'.vals == s.vals
    requires s'.index == s.index && s'.lost == s.lost
    requires Holds(s.threads[t]) == None && Makes(s.threads[t]) == None && Makes(pc) == None
    ensures Indexed(s')
  {
    hide Holds, Makes, Leaving, Refs, Reach, Dying, Knowledge;
    forall w | 0 <= w < |s'.vals| && !s'.vals[w].deleted ensures IsListed(s', w) || w in s'.lost || Made(s', w) {
      if !IsListed(s, w) && w !in s.lost {
        var u :| 0 <= u < |s.threads| && Makes(s.threads[u]) == Some(w);
        assert Makes(s'.threads[u]) == Some(w);
      }
    }
  }

  /** A live value of `t`'s making is added; the index stays. */
  ghost predicate Grows(s: State, s': State, t: Tid, pc: Pc) {
    && t < |s.threads| && s'.threads == s.threads[t := pc] && s'.index == s.index && s'.lost == s.lost
    && |s'.vals| == |s.vals| + 1 && (forall w :: 0 <= w < |s.vals| ==> s'.vals[w] == s.vals[w])
    && !s'.vals[|s.vals|].deleted && MadeFor(pc, s'.vals[|s.vals|])
    && Holds(s.threads[t]) == None && Makes(s.threads[t]) == None && Makes(pc) == Some(|s.vals|)
  }

  lemma GrowKeepsNoneStale(s: State, s': State, t: Tid, pc: Pc)
    requires Locks(s) && Entries(s) && NoneStale(s) && Grows(s, s', t, pc)
    ensures Entries(s') && NoneStale(s')
  {
    hide Holds, Makes, Leaving, MadeFor;
  }

  lemma GrowKeepsMakers(s: State, s': State, t: Tid, pc: Pc)
    requires Entries(s) && Makers(s) && OneMaker(s) && LostUnlisted(s) && Grows(s, s', t, pc)
    ensures Makers(s') && OneMaker(s') && LostUnlisted(s')
  {
    hide Holds, Makes, Leaving, MadeFor;
  }

  lemma GrowKeepsComplete(s: State, s': State, t: Tid, pc: Pc)
    requires Complete(s) && Grows(s, s', t, pc)
    ensures Complete(s')
  {
    hide Holds, Makes, Leaving, MadeFor;
    forall w | 0 <= w < |s'.vals| && !s'.vals[w].deleted ensures IsListed(s', w) || w in s'.lost || Made(s', w) {
      if w == |s.vals| {
        assert Makes(s'.threads[t]) == Some(w);
      } else if !IsListed(s, w) && w !in s.lost {
        var u :| 0 <= u < |s.threads| && Makes(s.threads[u]) == Some(w);
        assert Makes(s'.threads[u]) == Some(w);
      }
    }
  }

  lemma GrowKeepsIndexed(s: State, s': State, t: Tid, pc: Pc)
    requires Base(s) && Indexed(s) && Grows(s, s', t, pc)
    ensures Indexed(s')
  {
    GrowKeepsNoneStale(s, s', t, pc);
    GrowKeepsMakers(s, s', t, pc);
    GrowKeepsComplete(s, s', t, pc);
  }

  /** `t` lists the live value `v` it has made. */
  ghost predicate Lists(s: State, s': State, t: Tid, v: Vid, pc: Pc) {
    && t < |s.threads| && v < |s.vals| && !s.vals[v].deleted
    && s'.threads == s.threads[t := pc] && s'.vals == s.vals && s'.lost == s.lost
    && s'.index == s.index[Entry(s.vals[v]) := v]
    && Holds(s.threads[t]) == Some(v) && Makes(s.threads[t]) == Some(v) && Makes(pc) == None
  }

  lemma ListKeepsNoneStale(s: State, s': State, t: Tid, v: Vid, pc: Pc)
    requires Locks(s) && Entries(s) && NoneStale(s) && Lists(s, s', t, v, pc)
    ensures Entries(s') && NoneStale(s')
  {
    hide Holds, Makes, Leaving;
  }

  lemma ListKeepsMakers(s: State, s': State, t: Tid, v: Vid, pc: Pc)
    requires Makers(s) && OneMaker(s) && LostUnlisted(s) && Lists(s, s', t, v, pc)
    ensures Makers(s') && OneMaker(s') && LostUnlisted(s')
  {
    hide Holds, Makes, Leaving, MadeFor;
  }

  /** Listing `v` puts no live value out of the index. */
  lemma ListKeepsComplete(s: State, s': State, t: Tid, v: Vid, pc: Pc)
    requires Reach(s) && Complete(s) && Lists(s, s', t, v, pc)
    ensures Complete(s')
  {
    hide Holds, Makes, Leaving, MadeFor;
    forall w | 0 <= w < |s'.vals| && !s'.vals[w].deleted ensures IsListed(s', w) || w in s'.lost || Made(s', w) {
      if IsListed(s, w) {
        assert InCache(s, w) && InCache(s, v);
      } else if w != v && w !in s.lost {
        var u :| 0 <= u < |s.threads| && Makes(s.threads[u]) == Some(w);
        assert Makes(s'.threads[u]) == Some(w);
      }
    }
  }

  lemma ListKeepsIndexed(s: State, s': State, t: Tid, v: Vid, pc: Pc)
    requires Base(s) && Indexed(s) && Lists(s, s', t, v, pc)
    ensures Indexed(s')
  {
    ListKeepsNoneStale(s, s', t, v, pc);
    ListKeepsMakers(s, s', t, v, pc);
    ListKeepsComplete(s, s', t, v, pc);
  }

  /** `t` takes the entry of the deleted value `v` out of the index, whichever value it is for. */
  ghost predicate Unlists(s: State, s': State, t: Tid, v: Vid, pc: Pc) {
    && t < |s.threads| && v < |s.vals| && s.vals[v].deleted
    && s'.threads == s.threads[t := pc] && s'.vals == s.vals
    && s'.index == s.index - {Entry(s.vals[v])}
    && s'.lost == s.lost + Losing(s, Entry(s.vals[v]))
    && Holds(s.threads[t]) == Some(v) && Makes(s.threads[t]) == None && Makes(pc) == None
  }

  lemma UnlistKeepsNoneStale(s: State, s': State, t: Tid, v: Vid, pc: Pc)
    requires Locks(s) && Entries(s) && NoneStale(s) && Unlists(s, s', t, v, pc)
    ensures Entries(s') && NoneStale(s')
  {
    hide Holds, Makes, Leaving;
  }

  lemma UnlistKeepsMakers(s: State, s': State, t: Tid, v: Vid, pc: Pc)
    requires Entries(s) && Makers(s) && OneMaker(s) && LostUnlisted(s) && Unlists(s, s', t, v, pc)
    ensures Makers(s') && OneMaker(s') && LostUnlisted(s')
  {
    hide Holds, Makes, Leaving, MadeFor;
  }

  lemma UnlistKeepsComplete(s: State, s': State, t: Tid, v: Vid, pc: Pc)
    requires Complete(s) && Unlists(s, s', t, v, pc)
    ensures Complete(s')
  {
    hide Holds, Makes, Leaving, MadeFor;
    forall w | 0 <= w < |s'.vals| && !s'.vals[w].deleted ensures IsListed(s', w) || w in s'.lost || Made(s', w) {
      if !IsListed(s, w) && w !in s.lost {
        var u :| 0 <= u < |s.threads| && Makes(s.threads[u]) == Some(w);
        assert Makes(s'.threads[u]) == Some(w);
      }
    }
  }

  lemma UnlistKeepsIndexed(s: State, s': State, t: Tid, v: Vid, pc: Pc)
    requires Base(s) && Indexed(s) && Unlists(s, s', t, v, pc)
    ensures Indexed(s')
  {
    UnlistKeepsNoneStale(s, s', t, v, pc);
    UnlistKeepsMakers(s, s', t, v, pc);
    UnlistKeepsComplete(s, s', t, v, pc);
  }

  /** What Indexed says about a thread and its value. */
  ghost predicate LocalIndex(s: State, pc: Pc) {
    && (Holds(pc).Some? && Holds(pc).value < |s.vals| ==>
          s.vals[Holds(pc).value].deleted && IsListed(s, Holds(pc).value) ==> Leaving(pc))
    && (Makes(pc).Some? ==> Makes(pc).value < |s.vals| && MadeFor(pc, s.vals[Makes(pc).value]))
  }

  lemma IndexedIsLocal(s: State, t: Tid)
    requires Base(s) && Indexed(s) && t < |s.threads|
    ensures LocalIndex(s, s.threads[t])
  {
    hide Holds, Makes, Leaving, MadeFor, Refs, Reach, Dying, Knowledge, Complete, OneMaker, LostUnlisted, Entries;
  }

  lemma FreeIsUnlisted(s: State, v: Vid)
    requires Indexed(s) && v < |s.vals| && s.vals[v].lock == None && s.vals[v].deleted
    ensures !IsListed(s, v)
  {
    hide Makers, Complete, OneMaker, LostUnlisted, Entries, Leaving;
  }

  lemma LockKeepsIndexed(s: State, t: Tid, v: Vid, pc: Pc)
    requires Base(s) && Indexed(s) && t < |s.threads| && v < |s.vals| && LocalIndex(s, s.threads[t])
    requires Holds(s.threads[t]) == None && Makes(pc) == Makes(s.threads[t])
    requires (Makes(pc).Some? ==> Makes(pc) == Some(v) && MadeFor(pc, s.vals[v]))
    ensures Indexed(Lock(s, t, v, pc))
  {
    hide Base, Indexed, Holds, Makes, Leaving, MadeFor, IsListed;
    if s.vals[v].lock == None {
      var s' := Lock(s, t, v, pc);
      if s.vals[v].deleted { FreeIsUnlisted(s, v); }
      PassKeepsIndexed(s, s', t, v, pc);
    }
  }

  lemma AddStartKeepsIndexed(s: State, t: Tid)
    requires Base(s) && Indexed(s) && t < |s.threads| && s.threads[t].AddStart?
    ensures Indexed(StepAdd(s, t, s.threads[t]))
  {
    hide Base, Indexed, IsListed;
    var s' := StepAdd(s, t, s.threads[t]);
    if s.threads[t].r.key in s.cache {
      WalkKeepsIndexed(s, s', t, s'.threads[t]);
    } else {
      GrowKeepsIndexed(s, s', t, s'.threads[t]);
    }
  }

  lemma AddHeldKeepsIndexed(s: State, t: Tid)
    requires Base(s) && Indexed(s) && t < |s.threads| && IsAdd(s.threads[t]) && Holds(s.threads[t]).Some?
    requires Local(s, s.threads[t], t) && LocalIndex(s, s.threads[t])
    ensures Indexed(StepAdd(s, t, s.threads[t]))
  {
    hide Base, Indexed, IsListed, InCache, AllBelow;
    var pc := s.threads[t];
    var s' := StepAdd(s, t, pc);
    if pc.AddLocked? && pc.isNew && !s.vals[pc.v].deleted {
      ListKeepsIndexed(s, s', t, pc.v, s'.threads[t]);
    } else {
      PassKeepsIndexed(s, s', t, pc.v, s'.threads[t]);
    }
  }

  lemma AddKeepsIndexed(s: State, t: Tid)
    requires Base(s) && Indexed(s) && t < |s.threads| && IsAdd(s.threads[t])
    requires Local(s, s.threads[t], t) && LocalIndex(s, s.threads[t])
    ensures Indexed(StepAdd(s, t, s.threads[t]))
  {
    hide Base, Indexed, IsListed, InCache, Knows, Marked, AllBelow;
    var pc := s.threads[t];
    if pc.AddStart? {
      AddStartKeepsIndexed(s, t);
    } else if pc.AddGot? {
      LockKeepsIndexed(s, t, pc.v, AddLocked(pc.r, pc.v, pc.isNew));
    } else {
      AddHeldKeepsIndexed(s, t);
    }
  }

  lemma EvictKeepsIndexed(s: State, t: Tid, victim: string)
    requires Base(s) && Indexed(s) && t < |s.threads| && IsEvict(s.threads[t])
    requires Local(s, s.threads[t], t) && LocalIndex(s, s.threads[t])
    ensures Indexed(StepEvict(s, t, s.threads[t], victim))
  {
    hide Base, Indexed, IsListed, InCache;
    var pc := s.threads[t];
    var s' := StepEvict(s, t, pc, victim);
    if pc.EvictCheck? || pc.EvictPick? {
      WalkKeepsIndexed(s, s', t, s'.threads[t]);
    } else if pc.EvictGot? {
      LockKeepsIndexed(s, t, pc.v, EvictLocked(pc.v));
    } else if pc.EvictRemoved? {
      UnlistKeepsIndexed(s, s', t, pc.v, s'.threads[t]);
    } else {
      PassKeepsIndexed(s, s', t, pc.v, s'.threads[t]);
    }
  }

  lemma ReapHeldKeepsIndexed(s: State, t: Tid, order: seq<Vid>, gone: set<string>)
    requires Base(s) && Indexed(s) && t < |s.threads| && IsReap(s.threads[t]) && Holds(s.threads[t]).Some?
    requires Local(s, s.threads[t], t) && LocalIndex(s, s.threads[t])
    ensures Indexed(StepReap(s, t, s.threads[t], order, gone))
  {
    hide Base, Indexed, IsListed, InCache, Expired, AllBelow;
    var pc := s.threads[t];
    var s' := StepReap(s, t, pc, order, gone);
    if pc.ReapRemoved? {
      UnlistKeepsIndexed(s, s', t, pc.v, s'.threads[t]);
    } else {
      PassKeepsIndexed(s, s', t, pc.v, s'.threads[t]);
    }
  }

  lemma ReapKeepsIndexed(s: State, t: Tid, order: seq<Vid>, gone: set<string>)
    requires Base(s) && Indexed(s) && t < |s.threads| && IsReap(s.threads[t])
    requires Local(s, s.threads[t], t) && LocalIndex(s, s.threads[t])
    ensures Indexed(StepReap(s, t, s.threads[t], order, gone))
  {
    hide Base, Indexed, IsListed, InCache, Expired;
    var pc := s.threads[t];
    var s' := StepReap(s, t, pc, order, gone);
    if Holds(pc).Some? {
      ReapHeldKeepsIndexed(s, t, order, gone);
    } else if pc.Reap? && pc.todo != [] {
      LockKeepsIndexed(s, t, pc.todo[0], ReapLocked(pc.todo[0], pc.todo[1..]));
    } else if s' != s {
      WalkKeepsIndexed(s, s', t, s'.threads[t]);
    }
  }

  lemma StepKeepsIndexed(s: State, t: Tid, ch: Choice)
    requires Base(s) && Indexed(s)
    ensures Indexed(Step(s, t, ch))
  {
    hide Base, Indexed, Knows, Marked, InCache, IsListed;
    if t < |s.threads| {
      BaseIsLocal(s, t);
      IndexedIsLocal(s, t);
      var pc := s.threads[t];
      if IsAdd(pc) { AddKeepsIndexed(s, t); }
      else if IsEvict(pc) { EvictKeepsIndexed(s, t, ch.victim); }
      else if IsReap(pc) { ReapKeepsIndexed(s, t, ch.order, Gone(s, pc, ch.clock)); }
      else if Step(s, t, ch) != s { WalkKeepsIndexed(s, Step(s, t, ch), t, Step(s, t, ch).threads[t]); }
    }
  }
}
