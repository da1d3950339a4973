/** A delegation session in which nobody finds anything wrong, run without interruption: it issues its certificate,
    with any number of logs and aggregators, unless there are logs and no aggregator.
 */
module HonestSessions {
  import opened Names
  import opened Delegation

  /** Every designated log is there and has its own proof that the child is absent. */
  ghost predicate Ready(env: Env, s: State, req: Request) {
    forall l :: l in req.logs ==> l in s.logs && Absent(env, s.logs[l].view, req).Some?
  }

  /** The first `n` logs remember the status under the id of the request. */
  ghost predicate Noted(s: State, req: Request, nds: Nds, n: nat) {
    && n <= |req.logs|
    && forall i :: 0 <= i < n ==>
         var l := req.logs[i];
         l in s.logs && req.rid in s.logs[l].requests && s.logs[l].requests[req.rid] == nds
  }

  /** How the session ends: a log that is given no confirmation does not accept. */
  function Outcome(env: Env, req: Request): Session {
    if req.logs == [] || env.aggList != [] then Issued(Certificate(req.rid, NdsFor(env, req))) else Failed
  }

  /** How far session `k` has got, with everything in place for what is next. */
  ghost predicate OnTrack(env: Env, s: State, req: Request, c: Session) {
    match c
    case Proving(r, rid, done) => r == req && rid == req.rid && done <= |req.logs|
    case Demanding(r, rid, nds, lwits) =>
      && r == req && rid == req.rid && nds == NdsFor(env, req) && (CA, env.digest(nds)) in s.signed
      && Noted(s, req, nds, |lwits|) && LwitsVerify(env, s.signed, nds, lwits)
    case Submitting(r, rid, nds, lwits, acfms) =>
      && r == req && rid == req.rid && nds == NdsFor(env, req) && (CA, env.digest(nds)) in s.signed
      && Noted(s, req, nds, |req.logs|) && LwitsVerify(env, s.signed, nds, lwits)
      && |acfms| <= |nds.aggs| && AcfmsMatch(env, nds, acfms) && ConfirmsVerify(env, s.signed, acfms, true)
    case Finishing(r, rid, nds, acfms, lcfms) =>
      && r == req && rid == req.rid && nds == NdsFor(env, req) && Noted(s, req, nds, |req.logs|)
      && |acfms| == |nds.aggs| && AcfmsMatch(env, nds, acfms) && ConfirmsVerify(env, s.signed, acfms, true)
      && |lcfms| <= |req.logs| && ConfirmsVerify(env, s.signed, lcfms, false) && (lcfms != [] ==> acfms != [])
    case _ => c == Outcome(env, req) && (c.Issued? ==> c.cert in s.issued)
  }

  ghost predicate Fair(env: Env, s: State, req: Request, k: nat) {
    && req.approved && env.certOk(NdsFor(env, req), req) && Ready(env, s, req)
    && k < |s.sessions| && OnTrack(env, s, req, s.sessions[k])
  }

  /** How many calls of the authority are left at most. */
  function Left(env: Env, req: Request, c: Session): int {
    var n, m := |req.logs|, |env.aggList|;
    match c
    case Proving(_, _, done) => n - done + n + m + n + 4
    case Demanding(_, _, _, lwits) => n - |lwits| + m + n + 3
    case Submitting(_, _, _, _, acfms) => m - |acfms| + n + 2
    case Finishing(_, _, _, _, lcfms) => n - |lcfms| + 1
    case _ => 0
  }

  lemma ProvingGoesOn(env: Env, s: State, req: Request, k: nat)
    requires Fair(env, s, req, k) && s.sessions[k].Proving?
    ensures var s' := StepProving(env, s, k, s.sessions[k]);
      Fair(env, s', req, k) && Left(env, req, s'.sessions[k]) < Left(env, req, s.sessions[k])
  {
    hide Absent;
  }

  lemma DemandIsAccepted(env: Env, s: State, req: Request, k: nat, log: Name)
    requires Fair(env, s, req, k) && s.sessions[k].Demanding? && log in req.logs
    ensures LogAccepts(env, s, log, req, NdsFor(env, req), env.digest(NdsFor(env, req)))
  {
    hide Absent, LwitsVerify, Noted;
  }

  lemma DemandKeepsReady(env: Env, s: State, req: Request, log: Name, nds: Nds)
    requires Ready(env, s, req) && LogAccepts(env, s, log, req, nds, env.digest(nds))
    ensures Ready(env, Logged(env, s, log, req, nds, env.digest(nds)), req)
  {
    hide Absent;
  }

  lemma DemandNotes(env: Env, s: State, req: Request, n: nat, nds: Nds)
    requires Noted(s, req, nds, n) && n < |req.logs|
    requires LogAccepts(env, s, req.logs[n], req, nds, env.digest(nds))
    ensures Noted(Logged(env, s, req.logs[n], req, nds, env.digest(nds)), req, nds, n + 1)
  {
    hide Absent;
  }

  lemma DemandingGoesOn(env: Env, s: State, req: Request, k: nat)
    requires Fair(env, s, req, k) && s.sessions[k].Demanding?
    ensures var s' := StepDemanding(env, s, k, s.sessions[k]);
      Fair(env, s', req, k) && Left(env, req, s'.sessions[k]) < Left(env, req, s.sessions[k])
  {
    var c := s.sessions[k];
    if |c.lwits| < |req.logs| {
      var log := req.logs[|c.lwits|];
      DemandIsAccepted(env, s, req, k, log);
      DemandKeepsReady(env, s, req, log, c.nds);
      DemandNotes(env, s, req, |c.lwits|, c.nds);
    }
    hide Absent, LogAccepts;
  }

  lemma SubmittingGoesOn(env: Env, s: State, req: Request, k: nat)
    requires Fair(env, s, req, k) && s.sessions[k].Submitting?
    ensures var s' := StepSubmitting(env, s, k, s.sessions[k]);
      Fair(env, s', req, k) && Left(env, req, s'.sessions[k]) < Left(env, req, s.sessions[k])
  {
    hide Absent;
  }

  lemma FinishingGoesOn(env: Env, s: State, req: Request, k: nat)
    requires Fair(env, s, req, k) && s.sessions[k].Finishing?
    ensures var s' := StepFinishing(env, s, k, s.sessions[k]);
      Fair(env, s', req, k) && Left(env, req, s'.sessions[k]) < Left(env, req, s.sessions[k])
  {
    hide Absent;
  }

  /** The session is on its way, with at most so many calls left. */
  ghost predicate Within(env: Env, s: State, req: Request, k: nat, calls: int) {
    Fair(env, s, req, k) && Left(env, req, s.sessions[k]) <= Max(calls, 0)
  }

  lemma GoesOn(env: Env, s: State, req: Request, k: nat, calls: int)
    requires Within(env, s, req, k, calls)
    ensures Within(env, Step(env, s, Advance(k)), req, k, calls - 1)
  {
    hide StepProving, StepDemanding, StepSubmitting, StepFinishing, Ready, OnTrack;
    match s.sessions[k]
    case Proving(_, _, _) => ProvingGoesOn(env, s, req, k);
    case Demanding(_, _, _, _) => DemandingGoesOn(env, s, req, k);
    case Submitting(_, _, _, _, _) => SubmittingGoesOn(env, s, req, k);
    case Finishing(_, _, _, _, _) => FinishingGoesOn(env, s, req, k);
    case _ =>
  }

  /** `m` calls of the authority for session `k`. */
  function Advances(k: nat, m: nat): seq<Event> {
    if m == 0 then [] else Advances(k, m - 1) + [Advance(k)]
  }

  lemma RunOneMore(env: Env, s: State, events: seq<Event>, e: Event)
    ensures Run(env, s, events + [e]) == Step(env, Run(env, s, events), e)
  {
    hide Step;
    assert (events + [e])[..|events|] == events;
  }

  lemma {:induction false} GoesOnAndOn(env: Env, s: State, begin: seq<Event>, req: Request, k: nat, m: nat, calls: int)
    requires Within(env, Run(env, s, begin), req, k, calls)
    ensures Within(env, Run(env, s, begin + Advances(k, m)), req, k, calls - m)
  {
    hide Within, Step;
    if m == 0 {
      assert begin + Advances(k, m) == begin;
    } else {
      GoesOnAndOn(env, s, begin, req, k, m - 1, calls);
      var events := begin + Advances(k, m - 1);
      Associate(begin, Advances(k, m - 1), [Advance(k)]);
      RunOneMore(env, s, events, Advance(k));
      GoesOn(env, Run(env, s, events), req, k, calls - m + 1);
    }
  }

  lemma Begins(env: Env, s: State, req: Request)
    requires req.approved && env.certOk(NdsFor(env, req), req) && Ready(env, s, req)
    ensures Within(env, Run(env, s, [Begin(req, req.rid)]), req, |s.sessions|, 3 * |req.logs| + |env.aggList| + 4)
  {
    hide Absent;
    var begin := [Begin(req, req.rid)];
    assert begin[..0] == [];
    assert Run(env, s, begin[..0]) == s;
    assert Run(env, s, begin) == Step(env, s, begin[0]);
  }

  lemma IsOver(env: Env, s: State, req: Request, k: nat)
    requires Within(env, s, req, k, 0)
    ensures k < |s.sessions|
    ensures s.sessions[k] == Outcome(env, req) && (Outcome(env, req).Issued? ==> Outcome(env, req).cert in s.issued)
  {
    hide Ready, LwitsVerify, AcfmsMatch, ConfirmsVerify;
  }

  /** So certificates do get issued: from any state, an approved request whose logs all find the child absent gets one
      after this many calls, unless there are logs to confirm to and no aggregator that confirms; then the session
      fails. */
  lemma HonestSessionEnds(env: Env, s: State, req: Request)
    requires req.approved && env.certOk(NdsFor(env, req), req) && Ready(env, s, req)
    ensures var k, calls := |s.sessions|, 3 * |req.logs| + |env.aggList| + 4;
      var s' := Run(env, s, [Begin(req, req.rid)] + Advances(k, calls));
      && k < |s'.sessions|
      && if req.logs == [] || env.aggList != [] then
           var cert := Certificate(req.rid, NdsFor(env, req));
           s'.sessions[k] == Issued(cert) && cert in s'.issued
         else s'.sessions[k] == Failed
  {
    hide Within, Ready;
    var k, calls := |s.sessions|, 3 * |req.logs| + |env.aggList| + 4;
    Begins(env, s, req);
    GoesOnAndOn(env, s, [Begin(req, req.rid)], req, k, calls, calls);
    IsOver(env, Run(env, s, [Begin(req, req.rid)] + Advances(k, calls)), req, k);
    hide Run;
  }
}
