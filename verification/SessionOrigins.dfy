/** Where a certificate comes from: in every interleaving, from an approved request that a session was begun with, after
    every designated log had been asked and had found the child absent.
 */
module SessionOrigins {
  import opened Names
  import opened Delegation
  import DsaLog

  ghost predicate Begun(events: seq<Event>, req: Request, rid: Rid) {
    req.approved && Begin(req, rid) in events
  }

  /** At event `n` a session with this request asked the log, whose own accumulator of the parent did not list the
      child. */
  ghost predicate ShownAbsent(env: Env, s: State, events: seq<Event>, n: nat, log: Name, req: Request) {
    && n < |events| && events[n].Advance?
    && var at := Run(env, s, events[..n]);
       && events[n].k < |at.sessions| && at.sessions[events[n].k].Proving? && at.sessions[events[n].k].req == req
       && log in at.logs && FoundAbsent(env, at.logs[log].view, req.parent, req.child)
  }

  /** The first `m` designated logs have been asked and found the child absent. */
  ghost predicate Shown(env: Env, s: State, events: seq<Event>, req: Request, m: nat) {
    m <= |req.logs| && forall i :: 0 <= i < m ==> WasShown(env, s, events, req.logs[i], req)
  }

  ghost predicate WasShown(env: Env, s: State, events: seq<Event>, log: Name, req: Request) {
    exists n: nat :: ShownAbsent(env, s, events, n, log, req)
  }

  /** The status says what the request asks for, and what the authority adds. */
  predicate SaysFor(env: Env, nds: Nds, req: Request) {
    && nds.logs == req.logs && nds.zone == req.child && nds.al == req.al
    && nds.aggs == env.aggList && nds.cert == env.makeCert(req) && nds.exp == env.makeExp(req)
  }

  ghost predicate Ordered(env: Env, s: State, events: seq<Event>, req: Request, rid: Rid, nds: Nds) {
    Begun(events, req, rid) && Shown(env, s, events, req, |req.logs|) && SaysFor(env, nds, req)
  }

  /** At event `n` a session handed the log the aggregators' confirmations. There is one; each is for the digest that
      the log remembers under the session's id, and signed by the aggregator it names. */
  ghost predicate ClosedAt(env: Env, s: State, events: seq<Event>, n: nat, log: Name, rid: Rid, d: Digest) {
    && n < |events| && events[n].Advance?
    && var at := Run(env, s, events[..n]);
       && events[n].k < |at.sessions| && Closes(env, at, at.sessions[events[n].k], log, rid, d)
  }

  ghost predicate Closes(env: Env, at: State, c: Session, log: Name, rid: Rid, d: Digest) {
    && c.Finishing? && c.rid == rid && c.acfms != []
    && log in at.logs && rid in at.logs[log].requests && env.digest(at.logs[log].requests[rid]) == d
    && forall i :: 0 <= i < |c.acfms| ==>
         && c.acfms[i].digest == d
         && (AggOf(c.acfms[i].entity), env.confirmData(d, c.acfms[i].entity, c.acfms[i].dsum)) in at.signed
  }

  ghost predicate WasClosed(env: Env, s: State, events: seq<Event>, log: Name, rid: Rid, d: Digest) {
    exists n: nat :: ClosedAt(env, s, events, n, log, rid, d)
  }

  /** The first `m` logs have been handed the confirmations and taken them. */
  ghost predicate Closed(env: Env, s: State, events: seq<Event>, nds: Nds, rid: Rid, m: nat) {
    m <= |nds.logs| && forall i :: 0 <= i < m ==> WasClosed(env, s, events, nds.logs[i], rid, env.digest(nds))
  }

  ghost predicate WasOrdered(env: Env, s: State, events: seq<Event>, cert: Certificate) {
    && (exists req :: Ordered(env, s, events, req, cert.rid, cert.nds))
    && Closed(env, s, events, cert.nds, cert.rid, |cert.nds.logs|)
  }

  ghost predicate Origin(env: Env, s: State, events: seq<Event>, c: Session) {
    match c
    case Proving(req, rid, done) => Begun(events, req, rid) && Shown(env, s, events, req, done)
    case Demanding(req, rid, nds, _) => Ordered(env, s, events, req, rid, nds)
    case Submitting(req, rid, nds, _, _) => Ordered(env, s, events, req, rid, nds)
    case Finishing(req, rid, nds, _, lcfms) =>
      Ordered(env, s, events, req, rid, nds) && Closed(env, s, events, nds, rid, |lcfms|)
    case _ => true
  }

  ghost predicate Origins(env: Env, s: State, events: seq<Event>, now: State) {
    && (forall k :: 0 <= k < |now.sessions| ==> Origin(env, s, events, now.sessions[k]))
    && (forall cert :: cert in now.issued ==> WasOrdered(env, s, events, cert))
  }

  lemma LaterShown(env: Env, s: State, events: seq<Event>, e: Event, req: Request, m: nat)
    requires Shown(env, s, events, req, m)
    ensures Shown(env, s, events + [e], req, m)
  {
    forall i | 0 <= i < m ensures WasShown(env, s, events + [e], req.logs[i], req) {
      var n: nat :| ShownAbsent(env, s, events, n, req.logs[i], req);
      assert (events + [e])[..n] == events[..n];
      hide FoundAbsent, Run;
      assert ShownAbsent(env, s, events + [e], n, req.logs[i], req);
    }
  }

  lemma LaterOrdered(env: Env, s: State, events: seq<Event>, e: Event, req: Request, rid: Rid, nds: Nds)
    requires Ordered(env, s, events, req, rid, nds)
    ensures Ordered(env, s, events + [e], req, rid, nds)
  {
    hide Shown, SaysFor;
    LaterShown(env, s, events, e, req, |req.logs|);
  }

  lemma LaterClosed(env: Env, s: State, events: seq<Event>, e: Event, nds: Nds, rid: Rid, m: nat)
    requires Closed(env, s, events, nds, rid, m)
    ensures Closed(env, s, events + [e], nds, rid, m)
  {
    forall i | 0 <= i < m ensures WasClosed(env, s, events + [e], nds.logs[i], rid, env.digest(nds)) {
      var n: nat :| ClosedAt(env, s, events, n, nds.logs[i], rid, env.digest(nds));
      assert (events + [e])[..n] == events[..n];
      hide Closes, Run;
      assert ClosedAt(env, s, events + [e], n, nds.logs[i], rid, env.digest(nds));
    }
  }

  lemma LaterOrigin(env: Env, s: State, events: seq<Event>, e: Event, c: Session)
    requires Origin(env, s, events, c)
    ensures Origin(env, s, events + [e], c)
  {
    hide Shown, Ordered, Closed;
    match c
    case Proving(req, rid, done) => LaterShown(env, s, events, e, req, done);
    case Demanding(req, rid, nds, _) => LaterOrdered(env, s, events, e, req, rid, nds);
    case Submitting(req, rid, nds, _, _) => LaterOrdered(env, s, events, e, req, rid, nds);
    case Finishing(req, rid, nds, _, lcfms) =>
      LaterOrdered(env, s, events, e, req, rid, nds);
      LaterClosed(env, s, events, e, nds, rid, |lcfms|);
    case _ =>
  }

  lemma LaterOrigins(env: Env, s: State, events: seq<Event>, e: Event, now: State)
    requires Origins(env, s, events, now)
    ensures Origins(env, s, events + [e], now)
  {
    hide Origin, Ordered, Closed;
    forall k | 0 <= k < |now.sessions| ensures Origin(env, s, events + [e], now.sessions[k]) {
      LaterOrigin(env, s, events, e, now.sessions[k]);
    }
    forall cert | cert in now.issued ensures WasOrdered(env, s, events + [e], cert) {
      var req :| Ordered(env, s, events, req, cert.rid, cert.nds);
      LaterOrdered(env, s, events, e, req, cert.rid, cert.nds);
      LaterClosed(env, s, events, e, cert.nds, cert.rid, |cert.nds.logs|);
    }
  }

  lemma NowShown(env: Env, s: State, events: seq<Event>, k: nat, log: Name, now: State, req: Request)
    requires now == Run(env, s, events) && k < |now.sessions| && now.sessions[k].Proving? && now.sessions[k].req == req
    requires log in now.logs && FoundAbsent(env, now.logs[log].view, req.parent, req.child)
    ensures WasShown(env, s, events + [Advance(k)], log, req)
  {
    hide FoundAbsent;
    assert (events + [Advance(k)])[..|events|] == events;
    hide Run;
    assert ShownAbsent(env, s, events + [Advance(k)], |events|, log, req);
  }

  lemma ViewIsSound(env: Env, now: State, log: Name, req: Request)
    requires ViewsOk(env, now) && log in now.logs && Absent(env, now.logs[log].view, req).Some?
    ensures FoundAbsent(env, now.logs[log].view, req.parent, req.child)
  {
    hide Absent, FoundAbsent, DsaLog.AllWellFormed;
    AbsentIsAbsent(env, now.logs[log].view, req);
  }

  /** The session asks one more log, which finds the child absent. */
  lemma OneMoreShown(env: Env, s: State, events: seq<Event>, k: nat, now: State, c: Session)
    requires now == Run(env, s, events) && ViewsOk(env, now) && k < |now.sessions| && now.sessions[k] == c && c.Proving?
    requires Shown(env, s, events, c.req, c.done) && c.done < |c.req.logs|
    requires c.req.logs[c.done] in now.logs && Absent(env, now.logs[c.req.logs[c.done]].view, c.req).Some?
    ensures Shown(env, s, events + [Advance(k)], c.req, c.done + 1)
  {
    hide Run, ViewsOk, Absent, FoundAbsent, WasShown;
    ViewIsSound(env, now, c.req.logs[c.done], c.req);
    NowShown(env, s, events, k, c.req.logs[c.done], now, c.req);
    LaterShown(env, s, events, Advance(k), c.req, c.done);
  }

  /** What one step does to the sessions and the certificates. */
  lemma ProvingFrom(env: Env, s: State, events: seq<Event>, k: nat)
    requires var now := Run(env, s, events);
      && ViewsOk(env, now) && k < |now.sessions| && now.sessions[k].Proving? && Origin(env, s, events, now.sessions[k])
    ensures var now := Run(env, s, events);
      var next := StepProving(env, now, k, now.sessions[k]);
      && |next.sessions| == |now.sessions| && next.issued == now.issued
      && (forall j :: 0 <= j < |now.sessions| && j != k ==> next.sessions[j] == now.sessions[j])
      && Origin(env, s, events + [Advance(k)], next.sessions[k])
  {
    var now := Run(env, s, events);
    var c := now.sessions[k];
    hide Run, ViewsOk, Absent, FoundAbsent, Shown;
    if c.done < |c.req.logs| {
      var log := c.req.logs[c.done];
      if log in now.logs && Absent(env, now.logs[log].view, c.req).Some? {
        OneMoreShown(env, s, events, k, now, c);
      }
    } else {
      LaterShown(env, s, events, Advance(k), c.req, c.done);
      AllShown(env, s, events, c.req, c.done);
    }
  }

  lemma AllShown(env: Env, s: State, events: seq<Event>, req: Request, m: nat)
    requires Shown(env, s, events, req, m) && m >= |req.logs|
    ensures m == |req.logs|
  {
  }

  /** A session past its proofs keeps its order. */
  lemma OrderedOn(env: Env, s: State, events: seq<Event>, k: nat, now: State, c: Session)
    requires k < |now.sessions| && now.sessions[k] == c && Origin(env, s, events, c) && (c.Demanding? || c.Submitting?)
    ensures var next := Step(env, now, Advance(k));
      && |next.sessions| == |now.sessions| && next.issued == now.issued
      && (forall j :: 0 <= j < |now.sessions| && j != k ==> next.sessions[j] == now.sessions[j])
      && Origin(env, s, events + [Advance(k)], next.sessions[k])
  {
    hide Ordered, Closed, LogAccepts, LwitsVerify, AggAccepts, AcfmsMatch, ConfirmsVerify, StepProving, StepFinishing;
    LaterOrdered(env, s, events, Advance(k), c.req, c.rid, c.nds);
    NoneClosed(env, s, events + [Advance(k)], c.nds, c.rid);
  }

  lemma NoneClosed(env: Env, s: State, events: seq<Event>, nds: Nds, rid: Rid)
    ensures Closed(env, s, events, nds, rid, 0)
  {
  }

  lemma FinishIsRight(env: Env, now: State, c: Session, log: Name)
    requires c.Finishing? && AcfmsMatch(env, c.nds, c.acfms) && LogFinishes(env, now, log, c.rid, c.acfms)
    ensures Closes(env, now, c, log, c.rid, env.digest(c.nds))
  {
    assert c.acfms[0].digest == env.digest(c.nds) == env.digest(now.logs[log].requests[c.rid]);
  }

  lemma NowClosed(env: Env, s: State, events: seq<Event>, k: nat, now: State, c: Session, log: Name, d: Digest)
    requires now == Run(env, s, events) && k < |now.sessions| && now.sessions[k] == c
    requires c.Finishing? && Closes(env, now, c, log, c.rid, d)
    ensures WasClosed(env, s, events + [Advance(k)], log, c.rid, d)
  {
    hide Closes;
    assert (events + [Advance(k)])[..|events|] == events;
    hide Run;
    assert ClosedAt(env, s, events + [Advance(k)], |events|, log, c.rid, d);
  }

  /** The session hands the confirmations to one more log, which takes them. */
  lemma OneMoreClosed(env: Env, s: State, events: seq<Event>, k: nat, now: State, c: Session)
    requires now == Run(env, s, events) && k < |now.sessions| && now.sessions[k] == c && c.Finishing?
    requires AcfmsMatch(env, c.nds, c.acfms) && Closed(env, s, events, c.nds, c.rid, |c.lcfms|)
    requires |c.lcfms| < |c.nds.logs| && LogFinishes(env, now, c.nds.logs[|c.lcfms|], c.rid, c.acfms)
    ensures Closed(env, s, events + [Advance(k)], c.nds, c.rid, |c.lcfms| + 1)
  {
    hide Run, AcfmsMatch, LogFinishes, Closes, WasClosed;
    FinishIsRight(env, now, c, c.nds.logs[|c.lcfms|]);
    NowClosed(env, s, events, k, now, c, c.nds.logs[|c.lcfms|], env.digest(c.nds));
    LaterClosed(env, s, events, Advance(k), c.nds, c.rid, |c.lcfms|);
  }

  lemma FinishingFrom(env: Env, s: State, events: seq<Event>, k: nat, now: State, c: Session)
    requires now == Run(env, s, events) && k < |now.sessions| && now.sessions[k] == c && c.Finishing?
    requires Origin(env, s, events, c) && SessionOk(env, now, c)
    ensures var next := StepFinishing(env, now, k, c);
      && |next.sessions| == |now.sessions|
      && (forall j :: 0 <= j < |now.sessions| && j != k ==> next.sessions[j] == now.sessions[j])
      && Origin(env, s, events + [Advance(k)], next.sessions[k])
      && next.issued <= now.issued + {Certificate(c.rid, c.nds)}
      && (next.issued != now.issued ==> WasOrdered(env, s, events + [Advance(k)], Certificate(c.rid, c.nds)))
  {
    hide Run, LogFinishes, AcfmsMatch, ConfirmsVerify, Ordered;
    LaterOrdered(env, s, events, Advance(k), c.req, c.rid, c.nds);
    LaterClosed(env, s, events, Advance(k), c.nds, c.rid, |c.lcfms|);
    hide WasClosed;
    if |c.lcfms| < |c.req.logs| && LogFinishes(env, now, c.req.logs[|c.lcfms|], c.rid, c.acfms) {
      OneMoreClosed(env, s, events, k, now, c);
    }
  }

  lemma OthersFrom(env: Env, s: State, events: seq<Event>, e: Event, now: State)
    requires !e.Advance? && Origins(env, s, events, now)
    ensures Origins(env, s, events + [e], Step(env, now, e))
  {
    LaterOrigins(env, s, events, e, now);
    hide Shown, Ordered, LogAccepts, AggAccepts, LogFinishes, DsaLog.AllWellFormed;
    if e.Begin? && e.req.approved {
      assert Begun(events + [e], e.req, e.rid);
      NoneShown(env, s, events + [e], e.req);
    }
  }

  lemma NoneShown(env: Env, s: State, events: seq<Event>, req: Request)
    ensures Shown(env, s, events, req, 0)
  {
  }

  lemma StepFrom(env: Env, s: State, events: seq<Event>, e: Event)
    requires Inv(env, Run(env, s, events)) && Origins(env, s, events, Run(env, s, events))
    ensures Origins(env, s, events + [e], Step(env, Run(env, s, events), e))
  {
    var now := Run(env, s, events);
    hide Run, ViewsOk, RequestsOk, IssuedOk, SessionOk;
    if !e.Advance? {
      OthersFrom(env, s, events, e, now);
    } else {
      LaterOrigins(env, s, events, e, now);
      if e.k < |now.sessions| {
        var c := now.sessions[e.k];
        hide Origin, WasOrdered, StepProving, StepDemanding, StepSubmitting, StepFinishing;
        if c.Proving? {
          ProvingFrom(env, s, events, e.k);
        } else if c.Demanding? || c.Submitting? {
          OrderedOn(env, s, events, e.k, now, c);
        } else if c.Finishing? {
          FinishingFrom(env, s, events, e.k, now, c);
        }
      }
    }
  }

  lemma {:induction false} RunFrom(env: Env, s: State, events: seq<Event>)
    requires Init(env, s)
    ensures Origins(env, s, events, Run(env, s, events))
  {
    hide Origins, Inv;
    if events == [] {
      NothingYet(env, s);
    } else {
      var before := events[..|events| - 1];
      RunFrom(env, s, before);
      RunKeeps(env, s, before);
      StepFrom(env, s, before, events[|events| - 1]);
      assert before + [events[|events| - 1]] == events;
    }
  }

  lemma NothingYet(env: Env, s: State)
    requires Init(env, s)
    ensures Origins(env, s, [], s)
  {
  }

  /** In every interleaving: if a certificate is issued, then a session was begun with an approved request under the
      certificate's id; the status says what this request asks for; each designated log had been asked in a session for
      this request, at a moment at which its own accumulator of the parent did not list the child; and each had been
      handed the confirmations, one at least, all signed and for the digest that it remembered under that id. */
  lemma IssuedWasOrdered(env: Env, s: State, events: seq<Event>, cert: Certificate)
    requires Init(env, s) && cert in Run(env, s, events).issued
    ensures exists req: Request ::
      && req.approved && Begin(req, cert.rid) in events && SaysFor(env, cert.nds, req)
      && forall l :: l in req.logs ==> exists n: nat :: ShownAbsent(env, s, events, n, l, req)
    ensures forall l :: l in cert.nds.logs ==>
      exists n: nat :: ClosedAt(env, s, events, n, l, cert.rid, env.digest(cert.nds))
  {
    RunFrom(env, s, events);
    hide Run, ShownAbsent, ClosedAt;
    assert WasOrdered(env, s, events, cert);
    var req :| Ordered(env, s, events, req, cert.rid, cert.nds);
    forall l | l in req.logs ensures exists n: nat :: ShownAbsent(env, s, events, n, l, req) {
      assert WasShown(env, s, events, l, req);
    }
    forall l | l in cert.nds.logs
      ensures exists n: nat :: ClosedAt(env, s, events, n, l, cert.rid, env.digest(cert.nds))
    {
      assert WasClosed(env, s, events, l, cert.rid, env.digest(cert.nds));
    }
  }
}
