/** The delegation protocol: a certificate authority that runs any number of delegation sessions with designated logs
    and aggregators, one remote call at a time, while others call the logs and aggregators too.
    A signature verifies exactly when its party has signed the data.
 */
module Delegation {
  import opened Names
  import opened LeafChain
  import opened MerkleValue
  import opened Provers
  import opened DsaLog

  type Name = string
  type Rid = string
  type Digest = string

  datatype Party = CA | LogOf(name: Name) | AggOf(name: Name)

  /** A child's request, approved by its parent; `approved` is the outcome of all checks on the signed request. */
  datatype Request = Request(rid: Rid, child: Name, parent: Name, al: nat, logs: seq<Name>, approved: bool)

  /** The next delegation status to be signed by the authority. */
  datatype Nds = Nds(logs: seq<Name>, aggs: seq<Name>, zone: Name, al: nat, cert: string, exp: int)

  datatype Lwit = Lwit(digest: Digest, log: Name, logList: seq<Name>, data: string)

  /** `kind` is zero in confirmations of aggregators and of logs alike. */
  datatype Confirm = Confirm(digest: Digest, entity: Name, dsum: string, kind: nat, data: string)

  /** Functions the protocol treats as given: hashes of messages, and checks of certificates and proofs. */
  datatype Env = Env(
    H: Hash,
    digest: Nds -> Digest,
    lwitData: (Digest, Name, seq<Name>) -> string,
    confirmData: (Digest, Name, string) -> string,
    dsum: Nds -> string,
    dspOk: (Dsp, Request) -> bool,
    certOk: (Nds, Request) -> bool,
    makeCert: Request -> string,
    makeExp: Request -> int,
    aggList: seq<Name>)

  datatype LogState = LogState(view: View, requests: map<Rid, Nds>)

  /** A log recorded a status for a request. */
  datatype Entry = Entry(log: Name, req: Request, nds: Nds)

  datatype Certificate = Certificate(rid: Rid, nds: Nds)

  datatype Session =
    | Proving(req: Request, rid: Rid, done: nat)
    | Demanding(req: Request, rid: Rid, nds: Nds, lwits: seq<Lwit>)
    | Submitting(req: Request, rid: Rid, nds: Nds, lwits: seq<Lwit>, acfms: seq<Confirm>)
    | Finishing(req: Request, rid: Rid, nds: Nds, acfms: seq<Confirm>, lcfms: seq<Confirm>)
    | Issued(cert: Certificate)
    | Failed

  /** `recorded`, `confirmed` and `issued` are the history of what logs, aggregators and the authority did. */
  datatype State = State(
    logs: map<Name, LogState>,
    sessions: seq<Session>,
    signed: set<(Party, string)>,
    recorded: set<Entry>,
    confirmed: set<(Name, Digest)>,
    issued: set<Certificate>)

  // ---- the handlers ----

  predicate NdsVerifies(env: Env, signed: set<(Party, string)>, nds: Nds, data: string) {
    data == env.digest(nds) && (CA, data) in signed
  }

  predicate LwitsVerify(env: Env, signed: set<(Party, string)>, nds: Nds, lwits: seq<Lwit>) {
    forall i :: 0 <= i < |lwits| ==>
      && (LogOf(lwits[i].log), lwits[i].data) in signed
      && lwits[i].data == env.lwitData(lwits[i].digest, lwits[i].log, lwits[i].logList)
      && lwits[i].digest == env.digest(nds)
  }

  predicate AcfmsMatch(env: Env, nds: Nds, acfms: seq<Confirm>) {
    forall i :: 0 <= i < |acfms| ==> acfms[i].kind == 0 && acfms[i].digest == env.digest(nds)
  }

  predicate ConfirmsVerify(env: Env, signed: set<(Party, string)>, confirms: seq<Confirm>, aggs: bool) {
    forall i :: 0 <= i < |confirms| ==>
      && ((if aggs then AggOf(confirms[i].entity) else LogOf(confirms[i].entity)), confirms[i].data) in signed
      && confirms[i].data ==
        env.confirmData(if confirms[i].kind == 0 then confirms[i].digest else "", confirms[i].entity, confirms[i].dsum)
  }

  /** The log's own proof that the child is absent, if it has one and accepts it. */
  function Absent(env: Env, view: View, req: Request): Option<Record> {
    var r := DsaLog.Lookup(view, req.parent);
    var answer := AnswerFor(r, req.child, Absence, 0);
    if answer.Ok? && env.dspOk(answer.dsp, req) then r else None
  }

  /** DemandLogging accepts: request approved, child absent, certificate and NDS fit, signed by the authority. */
  predicate LogAccepts(env: Env, s: State, log: Name, req: Request, nds: Nds, data: string) {
    && log in s.logs && req.approved && Absent(env, s.logs[log].view, req).Some? && env.certOk(nds, req)
    && nds.logs == req.logs && nds.zone == req.child && nds.al == req.al
    && NdsVerifies(env, s.signed, nds, data)
  }

  function LwitOf(env: Env, log: Name, req: Request, nds: Nds): Lwit {
    var d := env.digest(nds);
    Lwit(d, log, req.logs, env.lwitData(d, log, req.logs))
  }

  /** The log remembers the NDS under the id inside the signed request, and witnesses it. */
  function Logged(env: Env, s: State, log: Name, req: Request, nds: Nds, data: string): State
    requires LogAccepts(env, s, log, req, nds, data)
  {
    s.(logs := s.logs[log := s.logs[log].(requests := s.logs[log].requests[req.rid := nds])],
       signed := s.signed + {(LogOf(log), LwitOf(env, log, req, nds).data)},
       recorded := s.recorded + {Entry(log, req, nds)})
  }

  predicate AggAccepts(env: Env, s: State, nds: Nds, data: string, lwits: seq<Lwit>) {
    NdsVerifies(env, s.signed, nds, data) && LwitsVerify(env, s.signed, nds, lwits)
  }

  function ConfirmOf(env: Env, agg: Name, nds: Nds): Confirm {
    Confirm(env.digest(nds), agg, env.dsum(nds), 0, env.confirmData(env.digest(nds), agg, env.dsum(nds)))
  }

  function Confirmed(env: Env, s: State, agg: Name, nds: Nds): State {
    s.(signed := s.signed + {(AggOf(agg), ConfirmOf(env, agg, nds).data)},
       confirmed := s.confirmed + {(agg, env.digest(nds))})
  }

  /** SubmitACFM accepts: something is remembered under the id, the confirmations are for it, and there is one. */
  predicate LogFinishes(env: Env, s: State, log: Name, rid: Rid, acfms: seq<Confirm>) {
    && log in s.logs && rid in s.logs[log].requests && acfms != []
    && AcfmsMatch(env, s.logs[log].requests[rid], acfms) && ConfirmsVerify(env, s.signed, acfms, true)
  }

  function LogConfirmOf(env: Env, log: Name, acfms: seq<Confirm>): Confirm
    requires acfms != []
  {
    Confirm("", log, acfms[0].dsum, 0, env.confirmData("", log, acfms[0].dsum))
  }

  function Finished(env: Env, s: State, log: Name, acfms: seq<Confirm>): State
    requires acfms != []
  {
    s.(signed := s.signed + {(LogOf(log), LogConfirmOf(env, log, acfms).data)})
  }

  /** The authority's own statement for a request. */
  function NdsFor(env: Env, req: Request): Nds {
    Nds(req.logs, env.aggList, req.child, req.al, env.makeCert(req), env.makeExp(req))
  }

  // ---- the authority's steps ----

  function Set(s: State, k: nat, session: Session): State
    requires k < |s.sessions|
  {
    s.(sessions := s.sessions[k := session])
  }

  /** Ask the next log for a proof that the child is absent; after the last, sign the NDS. */
  function StepProving(env: Env, s: State, k: nat, c: Session): State
    requires k < |s.sessions| && c.Proving?
  {
    if c.done < |c.req.logs| then
      var log := c.req.logs[c.done];
      if log in s.logs && Absent(env, s.logs[log].view, c.req).Some? then Set(s, k, Proving(c.req, c.rid, c.done + 1))
      else Set(s, k, Failed)
    else
      var nds := NdsFor(env, c.req);
      Set(s.(signed := s.signed + {(CA, env.digest(nds))}), k, Demanding(c.req, c.rid, nds, []))
  }

  /** Have the next log record and witness the NDS; after the last, check the witnesses. */
  function StepDemanding(env: Env, s: State, k: nat, c: Session): State
    requires k < |s.sessions| && c.Demanding?
  {
    if |c.lwits| < |c.req.logs| then
      var log := c.req.logs[|c.lwits|];
      if LogAccepts(env, s, log, c.req, c.nds, env.digest(c.nds)) then
        Set(Logged(env, s, log, c.req, c.nds, env.digest(c.nds)), k,
            Demanding(c.req, c.rid, c.nds, c.lwits + [LwitOf(env, log, c.req, c.nds)]))
      else Set(s, k, Failed)
    else if LwitsVerify(env, s.signed, c.nds, c.lwits) then Set(s, k, Submitting(c.req, c.rid, c.nds, c.lwits, []))
    else Set(s, k, Failed)
  }

  /** Have the next aggregator confirm; after the last, check the confirmations. */
  function StepSubmitting(env: Env, s: State, k: nat, c: Session): State
    requires k < |s.sessions| && c.Submitting?
  {
    if |c.acfms| < |c.nds.aggs| then
      var agg := c.nds.aggs[|c.acfms|];
      if AggAccepts(env, s, c.nds, env.digest(c.nds), c.lwits) then
        Set(Confirmed(env, s, agg, c.nds), k,
            Submitting(c.req, c.rid, c.nds, c.lwits, c.acfms + [ConfirmOf(env, agg, c.nds)]))
      else Set(s, k, Failed)
    else if AcfmsMatch(env, c.nds, c.acfms) && ConfirmsVerify(env, s.signed, c.acfms, true) then
      Set(s, k, Finishing(c.req, c.rid, c.nds, c.acfms, []))
    else Set(s, k, Failed)
  }

  /** Hand the confirmations to the next log, under the id of the session; after the last, issue. */
  function StepFinishing(env: Env, s: State, k: nat, c: Session): State
    requires k < |s.sessions| && c.Finishing?
  {
    if |c.lcfms| < |c.req.logs| then
      var log := c.req.logs[|c.lcfms|];
      if LogFinishes(env, s, log, c.rid, c.acfms) then
        Set(Finished(env, s, log, c.acfms), k,
            Finishing(c.req, c.rid, c.nds, c.acfms, c.lcfms + [LogConfirmOf(env, log, c.acfms)]))
      else Set(s, k, Failed)
    else if ConfirmsVerify(env, s.signed, c.lcfms, false) then
      Set(s.(issued := s.issued + {Certificate(c.rid, c.nds)}), k, Issued(Certificate(c.rid, c.nds)))
    else Set(s, k, Failed)
  }

  /** What happens next: a new session, the next call of a session, a call by somebody else, or a change of a log's
      accumulators. */
  datatype Event =
    | Begin(req: Request, rid: Rid)
    | Advance(k: nat)
    | Demand(log: Name, dreq: Request, nds: Nds, data: string)
    | Submit(agg: Name, snds: Nds, sdata: string, lwits: seq<Lwit>)
    | Finish(flog: Name, frid: Rid, acfms: seq<Confirm>)
    | Refresh(rlog: Name, view: View)

  ghost function Step(env: Env, s: State, e: Event): State {
    match e
    case Begin(req, rid) => if req.approved then s.(sessions := s.sessions + [Proving(req, rid, 0)]) else s
    case Advance(k) =>
      if k >= |s.sessions| then s
      else (match s.sessions[k]
            case Proving(_, _, _) => StepProving(env, s, k, s.sessions[k])
            case Demanding(_, _, _, _) => StepDemanding(env, s, k, s.sessions[k])
            case Submitting(_, _, _, _, _) => StepSubmitting(env, s, k, s.sessions[k])
            case Finishing(_, _, _, _, _) => StepFinishing(env, s, k, s.sessions[k])
            case _ => s)
    case Demand(log, req, nds, data) =>
      if LogAccepts(env, s, log, req, nds, data) then Logged(env, s, log, req, nds, data) else s
    case Submit(agg, nds, data, lwits) =>
      if AggAccepts(env, s, nds, data, lwits) then Confirmed(env, s, agg, nds) else s
    case Finish(log, rid, acfms) => if LogFinishes(env, s, log, rid, acfms) then Finished(env, s, log, acfms) else s
    case Refresh(log, view) =>
      if log in s.logs && AllWellFormed(env.H, view.cache) && AllWellFormed(env.H, view.db) then
        Refreshed(s, log, view)
      else s
  }

  ghost function Run(env: Env, s: State, events: seq<Event>): State {
    if events == [] then s else Step(env, Run(env, s, events[..|events| - 1]), events[|events| - 1])
  }

  // ---- what every step keeps ----

  /** The log recorded a status of this digest for a request of this id. */
  ghost predicate HasEntry(env: Env, s: State, log: Name, rid: Rid, digest: Digest) {
    exists e :: e in s.recorded && e.log == log && e.req.rid == rid && env.digest(e.nds) == digest
  }

  ghost predicate ViewsOk(env: Env, s: State) {
    forall l :: l in s.logs ==> AllWellFormed(env.H, s.logs[l].view.cache) && AllWellFormed(env.H, s.logs[l].view.db)
  }

  ghost predicate RequestsOk(env: Env, s: State) {
    forall l, rid :: l in s.logs && rid in s.logs[l].requests ==>
        HasEntry(env, s, l, rid, env.digest(s.logs[l].requests[rid]))
  }

  ghost predicate AggsConfirmed(env: Env, s: State, nds: Nds, n: nat) {
    n <= |nds.aggs| && forall i :: 0 <= i < n ==> (nds.aggs[i], env.digest(nds)) in s.confirmed
  }

  ghost predicate LogsRecorded(env: Env, s: State, nds: Nds, rid: Rid, n: nat) {
    n <= |nds.logs| && forall i :: 0 <= i < n ==> HasEntry(env, s, nds.logs[i], rid, env.digest(nds))
  }

  ghost predicate SessionOk(env: Env, s: State, c: Session) {
    match c
    case Proving(req, _, done) => done <= |req.logs|
    case Demanding(req, _, nds, lwits) => nds.logs == req.logs
    case Submitting(req, _, nds, _, acfms) =>
      nds.logs == req.logs && AggsConfirmed(env, s, nds, |acfms|) && AcfmsMatch(env, nds, acfms)
    case Finishing(req, rid, nds, acfms, lcfms) =>
      nds.logs == req.logs && AggsConfirmed(env, s, nds, |nds.aggs|) && AcfmsMatch(env, nds, acfms) &&
        LogsRecorded(env, s, nds, rid, |lcfms|)
    case _ => true
  }

  ghost predicate SessionsOk(env: Env, s: State) {
    forall k :: 0 <= k < |s.sessions| ==> SessionOk(env, s, s.sessions[k])
  }

  ghost predicate IssuedOk(env: Env, s: State) {
    forall c :: c in s.issued ==>
        LogsRecorded(env, s, c.nds, c.rid, |c.nds.logs|) && AggsConfirmed(env, s, c.nds, |c.nds.aggs|)
  }

  ghost predicate Inv(env: Env, s: State) {
    ViewsOk(env, s) && RequestsOk(env, s) && SessionsOk(env, s) && IssuedOk(env, s)
  }

  /** History only grows. */
  ghost predicate Grows(s: State, s': State) {
    s.recorded <= s'.recorded && s.confirmed <= s'.confirmed && s.signed <= s'.signed
  }

  lemma GrowingKeepsEntry(env: Env, s: State, s': State, log: Name, rid: Rid, digest: Digest)
    requires Grows(s, s') && HasEntry(env, s, log, rid, digest)
    ensures HasEntry(env, s', log, rid, digest)
  {
    var e :| e in s.recorded && e.log == log && e.req.rid == rid && env.digest(e.nds) == digest;
    assert e in s'.recorded;
  }

  lemma GrowingKeepsRecorded(env: Env, s: State, s': State, nds: Nds, rid: Rid, n: nat)
    requires Grows(s, s') && LogsRecorded(env, s, nds, rid, n)
    ensures LogsRecorded(env, s', nds, rid, n)
  {
    hide HasEntry;
    forall i | 0 <= i < n ensures HasEntry(env, s', nds.logs[i], rid, env.digest(nds)) {
      GrowingKeepsEntry(env, s, s', nds.logs[i], rid, env.digest(nds));
    }
  }

  lemma GrowingKeepsConfirmed(env: Env, s: State, s': State, nds: Nds, n: nat)
    requires Grows(s, s') && AggsConfirmed(env, s, nds, n)
    ensures AggsConfirmed(env, s', nds, n)
  {
  }

  lemma GrowingKeepsSession(env: Env, s: State, s': State, c: Session)
    requires Grows(s, s') && SessionOk(env, s, c)
    ensures SessionOk(env, s', c)
  {
    hide Grows, LogsRecorded, AggsConfirmed, AcfmsMatch;
    match c
    case Submitting(_, _, nds, _, acfms) => GrowingKeepsConfirmed(env, s, s', nds, |acfms|);
    case Finishing(_, rid, nds, _, lcfms) =>
      GrowingKeepsConfirmed(env, s, s', nds, |nds.aggs|);
      GrowingKeepsRecorded(env, s, s', nds, rid, |lcfms|);
    case _ =>
  }

  /** Issued certificates and the sessions that do not move stay as good as they are. */
  lemma GrowingKeepsRest(env: Env, s: State, s': State, k: nat)
    requires Grows(s, s') && SessionsOk(env, s) && IssuedOk(env, s)
    requires |s'.sessions| == |s.sessions|
    requires forall j :: 0 <= j < |s.sessions| && j != k ==> s'.sessions[j] == s.sessions[j]
    requires k < |s.sessions| ==> SessionOk(env, s', s'.sessions[k])
    ensures SessionsOk(env, s')
    ensures forall c :: c in s.issued ==>
      LogsRecorded(env, s', c.nds, c.rid, |c.nds.logs|) && AggsConfirmed(env, s', c.nds, |c.nds.aggs|)
  {
    hide Grows, LogsRecorded, AggsConfirmed, SessionOk;
    forall j | 0 <= j < |s.sessions| ensures SessionOk(env, s', s'.sessions[j]) {
      if j != k { GrowingKeepsSession(env, s, s', s.sessions[j]); }
    }
    forall c | c in s.issued
        ensures LogsRecorded(env, s', c.nds, c.rid, |c.nds.logs|) && AggsConfirmed(env, s', c.nds, |c.nds.aggs|) {
      GrowingKeepsRecorded(env, s, s', c.nds, c.rid, |c.nds.logs|);
      GrowingKeepsConfirmed(env, s, s', c.nds, |c.nds.aggs|);
    }
  }

  ghost predicate Core(env: Env, s: State) {
    ViewsOk(env, s) && RequestsOk(env, s)
  }

  /** A log's own proof of absence is right: the name is not empty, and the log's accumulator of the parent, which it
      looks up in its cache and then in its database, does not list it. */
  lemma AbsentIsAbsent(env: Env, view: View, req: Request)
    requires AllWellFormed(env.H, view.cache) && AllWellFormed(env.H, view.db) && Absent(env, view, req).Some?
    ensures FoundAbsent(env, view, req.parent, req.child)
  {
    hide WellFormed, Children;
    var r := Absent(env, view, req).value;
    assert WellFormed(env.H, r);
    AnswersAreExact(env.H, r, req.child, 0);
  }

  ghost predicate FoundAbsent(env: Env, view: View, parent: Name, child: Name) {
    && (parent in view.cache || parent in view.db)
    && var r := if parent in view.cache then view.cache[parent] else view.db[parent];
       WellFormed(env.H, r) && child != "" && child !in Children(r.subzones)
  }

  lemma LoggedKeepsViews(env: Env, s: State, log: Name, req: Request, nds: Nds, data: string)
    requires ViewsOk(env, s) && LogAccepts(env, s, log, req, nds, data)
    ensures ViewsOk(env, Logged(env, s, log, req, nds, data))
  {
    hide AllWellFormed, Absent;
  }

  lemma LoggedKeepsRequests(env: Env, s: State, log: Name, req: Request, nds: Nds, data: string)
    requires RequestsOk(env, s) && LogAccepts(env, s, log, req, nds, data)
    ensures RequestsOk(env, Logged(env, s, log, req, nds, data))
  {
    var s' := Logged(env, s, log, req, nds, data);
    hide Absent, NdsVerifies;
    assert Entry(log, req, nds) in s'.recorded && HasEntry(env, s', log, req.rid, env.digest(nds));
    forall l, rid | l in s'.logs && rid in s'.logs[l].requests
        ensures HasEntry(env, s', l, rid, env.digest(s'.logs[l].requests[rid])) {
      if !(l == log && rid == req.rid) {
        GrowingKeepsEntry(env, s, s', l, rid, env.digest(s.logs[l].requests[rid]));
      }
    }
  }

  lemma LoggedKeepsCore(env: Env, s: State, log: Name, req: Request, nds: Nds, data: string)
    requires Core(env, s) && LogAccepts(env, s, log, req, nds, data)
    ensures Core(env, Logged(env, s, log, req, nds, data)) && Grows(s, Logged(env, s, log, req, nds, data))
  {
    assert Grows(s, Logged(env, s, log, req, nds, data)) by { hide ViewsOk, RequestsOk, LogAccepts; }
    hide ViewsOk, RequestsOk, Grows, LogAccepts, Logged;
    LoggedKeepsViews(env, s, log, req, nds, data);
    LoggedKeepsRequests(env, s, log, req, nds, data);
  }

  lemma SameRequestsKeepCore(env: Env, s: State, s': State)
    requires Core(env, s) && Grows(s, s') && s'.recorded == s.recorded && s'.logs == s.logs
    ensures Core(env, s')
  {
    hide AllWellFormed;
    forall l, rid | l in s'.logs && rid in s'.logs[l].requests
        ensures HasEntry(env, s', l, rid, env.digest(s'.logs[l].requests[rid])) {
      GrowingKeepsEntry(env, s, s', l, rid, env.digest(s.logs[l].requests[rid]));
    }
  }

  lemma ProvingKeeps(env: Env, s: State, k: nat)
    requires Inv(env, s) && k < |s.sessions| && s.sessions[k].Proving?
    ensures Inv(env, StepProving(env, s, k, s.sessions[k]))
  {
    var s' := StepProving(env, s, k, s.sessions[k]);
    assert SessionOk(env, s, s.sessions[k]);
    hide ViewsOk, RequestsOk, LogsRecorded, AggsConfirmed;
    SameRequestsKeepCore(env, s, s');
    GrowingKeepsRest(env, s, s', k);
  }

  lemma DemandingKeeps(env: Env, s: State, k: nat)
    requires Inv(env, s) && k < |s.sessions| && s.sessions[k].Demanding?
    ensures Inv(env, StepDemanding(env, s, k, s.sessions[k]))
  {
    var c := s.sessions[k];
    var s' := StepDemanding(env, s, k, c);
    assert SessionOk(env, s, c);
    hide ViewsOk, RequestsOk, LogsRecorded, AggsConfirmed, LwitsVerify, LogAccepts;
    if |c.lwits| < |c.req.logs| && LogAccepts(env, s, c.req.logs[|c.lwits|], c.req, c.nds, env.digest(c.nds)) {
      var log := c.req.logs[|c.lwits|];
      LoggedKeepsCore(env, s, log, c.req, c.nds, env.digest(c.nds));
      SameRequestsKeepCore(env, Logged(env, s, log, c.req, c.nds, env.digest(c.nds)), s');
      hide Logged;
      GrowingKeepsRest(env, s, s', k);
    } else {
      SameRequestsKeepCore(env, s, s');
      GrowingKeepsRest(env, s, s', k);
    }
  }

  lemma SubmittingKeeps(env: Env, s: State, k: nat)
    requires Inv(env, s) && k < |s.sessions| && s.sessions[k].Submitting?
    ensures Inv(env, StepSubmitting(env, s, k, s.sessions[k]))
  {
    var c := s.sessions[k];
    var s' := StepSubmitting(env, s, k, c);
    assert SessionOk(env, s, c);
    hide ViewsOk, RequestsOk, HasEntry, LwitsVerify, ConfirmsVerify, NdsVerifies;
    SameRequestsKeepCore(env, s, s');
    hide IssuedOk;
    assert SessionOk(env, s', s'.sessions[k]);
    hide LogsRecorded, AggsConfirmed, SessionOk;
    GrowingKeepsRest(env, s, s', k);
    StillIssued(env, s, s');
  }

  lemma StillIssued(env: Env, s: State, s': State)
    requires Grows(s, s') && IssuedOk(env, s) && s'.issued == s.issued
    ensures IssuedOk(env, s')
  {
    hide Grows, LogsRecorded, AggsConfirmed;
    forall c | c in s.issued
        ensures LogsRecorded(env, s', c.nds, c.rid, |c.nds.logs|) && AggsConfirmed(env, s', c.nds, |c.nds.aggs|) {
      GrowingKeepsRecorded(env, s, s', c.nds, c.rid, |c.nds.logs|);
      GrowingKeepsConfirmed(env, s, s', c.nds, |c.nds.aggs|);
    }
  }

  /** A log that takes the confirmations had recorded their digest under this id. */
  lemma FinishMeansRecorded(env: Env, s: State, log: Name, rid: Rid, nds: Nds, acfms: seq<Confirm>)
    requires RequestsOk(env, s) && LogFinishes(env, s, log, rid, acfms) && AcfmsMatch(env, nds, acfms)
    ensures HasEntry(env, s, log, rid, env.digest(nds))
  {
    assert acfms[0].digest == env.digest(nds) == env.digest(s.logs[log].requests[rid]);
  }

  lemma OneMoreRecorded(env: Env, s: State, nds: Nds, rid: Rid, n: nat)
    requires LogsRecorded(env, s, nds, rid, n) && n < |nds.logs| && HasEntry(env, s, nds.logs[n], rid, env.digest(nds))
    ensures LogsRecorded(env, s, nds, rid, n + 1)
  {
    hide HasEntry;
  }

  lemma FinishingSession(env: Env, s: State, k: nat, c: Session)
    requires RequestsOk(env, s) && k < |s.sessions| && c.Finishing? && SessionOk(env, s, c)
    ensures var s' := StepFinishing(env, s, k, c); Grows(s, s') && SessionOk(env, s', s'.sessions[k])
  {
    hide HasEntry, LogsRecorded, AggsConfirmed, ConfirmsVerify, RequestsOk, LogFinishes, AcfmsMatch;
    var s' := StepFinishing(env, s, k, c);
    GrowingKeepsSession(env, s, s', c);
    if |c.lcfms| < |c.req.logs| && LogFinishes(env, s, c.req.logs[|c.lcfms|], c.rid, c.acfms) {
      FinishMeansRecorded(env, s, c.req.logs[|c.lcfms|], c.rid, c.nds, c.acfms);
      GrowingKeepsEntry(env, s, s', c.req.logs[|c.lcfms|], c.rid, env.digest(c.nds));
      OneMoreRecorded(env, s', c.nds, c.rid, |c.lcfms|);
    }
  }

  lemma FinishingKeeps(env: Env, s: State, k: nat)
    requires Inv(env, s) && k < |s.sessions| && s.sessions[k].Finishing?
    ensures Inv(env, StepFinishing(env, s, k, s.sessions[k]))
  {
    var c := s.sessions[k];
    assert SessionOk(env, s, c);
    var s' := StepFinishing(env, s, k, c);
    FinishingSession(env, s, k, c);
    hide ViewsOk, RequestsOk, HasEntry, ConfirmsVerify, LogFinishes;
    SameRequestsKeepCore(env, s, s');
    GrowingKeepsRest(env, s, s', k);
  }

  function Refreshed(s: State, log: Name, view: View): State
    requires log in s.logs
  {
    s.(logs := s.logs[log := s.logs[log].(view := view)])
  }

  lemma RefreshKeepsViews(env: Env, s: State, log: Name, view: View)
    requires ViewsOk(env, s) && log in s.logs && AllWellFormed(env.H, view.cache) && AllWellFormed(env.H, view.db)
    ensures ViewsOk(env, Refreshed(s, log, view))
  {
    hide AllWellFormed;
  }

  lemma RefreshKeepsRequests(env: Env, s: State, log: Name, view: View)
    requires RequestsOk(env, s) && log in s.logs
    ensures RequestsOk(env, Refreshed(s, log, view))
  {
    var s' := Refreshed(s, log, view);
    forall l, rid | l in s'.logs && rid in s'.logs[l].requests
        ensures HasEntry(env, s', l, rid, env.digest(s'.logs[l].requests[rid])) {
      assert rid in s.logs[l].requests && s'.logs[l].requests[rid] == s.logs[l].requests[rid];
      GrowingKeepsEntry(env, s, s', l, rid, env.digest(s.logs[l].requests[rid]));
    }
  }

  lemma RefreshKeeps(env: Env, s: State, log: Name, view: View)
    requires Inv(env, s) && log in s.logs && AllWellFormed(env.H, view.cache) && AllWellFormed(env.H, view.db)
    ensures Inv(env, Refreshed(s, log, view))
  {
    hide ViewsOk, RequestsOk, AllWellFormed, LogsRecorded, AggsConfirmed, AcfmsMatch, SessionOk;
    RefreshKeepsViews(env, s, log, view);
    RefreshKeepsRequests(env, s, log, view);
    GrowingKeepsRest(env, s, Refreshed(s, log, view), |s.sessions|);
  }

  lemma OthersKeep(env: Env, s: State, e: Event)
    requires Inv(env, s) && !e.Advance? && !e.Refresh?
    ensures Inv(env, Step(env, s, e))
  {
    var s' := Step(env, s, e);
    hide ViewsOk, RequestsOk, HasEntry, LogAccepts, AggAccepts, LogFinishes, LogsRecorded, AggsConfirmed;
    if e.Demand? && LogAccepts(env, s, e.log, e.dreq, e.nds, e.data) {
      LoggedKeepsCore(env, s, e.log, e.dreq, e.nds, e.data);
      GrowingKeepsRest(env, s, s', |s.sessions|);
    } else if e.Begin? {
      SameRequestsKeepCore(env, s, s');
      hide Grows;
      NewSession(env, s, s');
    } else {
      SameRequestsKeepCore(env, s, s');
      GrowingKeepsRest(env, s, s', |s.sessions|);
    }
  }

  lemma NewSession(env: Env, s: State, s': State)
    requires SessionsOk(env, s) && IssuedOk(env, s) && Grows(s, s') && s'.issued == s.issued
    requires s'.sessions == s.sessions
      || (|s'.sessions| == |s.sessions| + 1 && s'.sessions[..|s.sessions|] == s.sessions
          && s'.sessions[|s.sessions|].Proving? && s'.sessions[|s.sessions|].done == 0)
    ensures SessionsOk(env, s') && IssuedOk(env, s')
  {
    StillIssued(env, s, s');
    hide IssuedOk;
    forall j | 0 <= j < |s'.sessions| ensures SessionOk(env, s', s'.sessions[j]) {
      if j < |s.sessions| {
        assert s'.sessions[j] == s.sessions[j];
        GrowingKeepsSession(env, s, s', s.sessions[j]);
      }
    }
  }

  lemma StepKeeps(env: Env, s: State, e: Event)
    requires Inv(env, s)
    ensures Inv(env, Step(env, s, e))
  {
    hide Inv, StepProving, StepDemanding, StepSubmitting, StepFinishing;
    if e.Advance? {
      if e.k < |s.sessions| {
        match s.sessions[e.k]
        case Proving(_, _, _) => ProvingKeeps(env, s, e.k);
        case Demanding(_, _, _, _) => DemandingKeeps(env, s, e.k);
        case Submitting(_, _, _, _, _) => SubmittingKeeps(env, s, e.k);
        case Finishing(_, _, _, _, _) => FinishingKeeps(env, s, e.k);
        case _ =>
      }
    } else if e.Refresh? {
      if e.rlog in s.logs && AllWellFormed(env.H, e.view.cache) && AllWellFormed(env.H, e.view.db) {
        RefreshKeeps(env, s, e.rlog, e.view);
      }
    } else {
      OthersKeep(env, s, e);
    }
  }

  /** The start: logs with sound accumulators, nothing remembered, signed or issued. */
  ghost predicate Init(env: Env, s: State) {
    && ViewsOk(env, s) && (forall l :: l in s.logs ==> s.logs[l].requests == map[])
    && s.sessions == [] && s.signed == {} && s.recorded == {} && s.confirmed == {} && s.issued == {}
  }

  lemma {:induction false} RunKeeps(env: Env, s: State, events: seq<Event>)
    requires Init(env, s)
    ensures Inv(env, Run(env, s, events))
  {
    if events != [] {
      RunKeeps(env, s, events[..|events| - 1]);
      hide Inv, Step;
      StepKeeps(env, Run(env, s, events[..|events| - 1]), events[|events| - 1]);
    }
  }

  ghost predicate Collide(env: Env, a: Nds, b: Nds) {
    a != b && env.digest(a) == env.digest(b)
  }

  /** The event has this log record this status for this request: a session's next call, or somebody else's. */
  ghost predicate AsksLog(s: State, e: Event, log: Name, req: Request, nds: Nds) {
    || (e.Demand? && e.log == log && e.dreq == req && e.nds == nds)
    || (e.Advance? && e.k < |s.sessions|
        && var c := s.sessions[e.k];
           && c.Demanding? && |c.lwits| < |c.req.logs| && c.req.logs[|c.lwits|] == log
           && c.req == req && c.nds == nds)
  }

  /** The event has this aggregator confirm this status with these witnesses. */
  ghost predicate AsksAgg(s: State, e: Event, agg: Name, nds: Nds, lwits: seq<Lwit>) {
    || (e.Submit? && e.agg == agg && e.snds == nds && e.lwits == lwits)
    || (e.Advance? && e.k < |s.sessions|
        && var c := s.sessions[e.k];
           && c.Submitting? && |c.acfms| < |c.nds.aggs| && c.nds.aggs[|c.acfms|] == agg
           && c.nds == nds && c.lwits == lwits)
  }

  /** The request is approved, and the status is for it: its logs, its zone, its authority level and a certificate that
      fits; the authority has signed the status, and the log's own accumulator of the parent does not list the zone. */
  ghost predicate RightFor(env: Env, s: State, log: Name, req: Request, nds: Nds) {
    && req.approved && nds.logs == req.logs && nds.zone == req.child && nds.al == req.al && env.certOk(nds, req)
    && (CA, env.digest(nds)) in s.signed
    && log in s.logs && FoundAbsent(env, s.logs[log].view, req.parent, nds.zone)
  }

  /** At event `n` of the run the log was asked to record this status for this request, rightly. */
  ghost predicate LogAgreed(env: Env, s: State, events: seq<Event>, n: nat, log: Name, req: Request, nds: Nds) {
    && n < |events|
    && var at := Run(env, s, events[..n]);
       AsksLog(at, events[n], log, req, nds) && RightFor(env, at, log, req, nds)
  }

  /** The authority has signed the status, and each log named in a witness has signed, with its own name and the list of
      logs in the witness, that it witnesses this status. */
  ghost predicate Witnessed(env: Env, s: State, nds: Nds, lwits: seq<Lwit>) {
    && (CA, env.digest(nds)) in s.signed
    && forall i :: 0 <= i < |lwits| ==>
         && lwits[i].digest == env.digest(nds)
         && (LogOf(lwits[i].log), env.lwitData(env.digest(nds), lwits[i].log, lwits[i].logList)) in s.signed
  }

  /** At event `n` of the run the aggregator was asked to confirm this status with these witnesses, rightly. */
  ghost predicate AggAgreed(env: Env, s: State, events: seq<Event>, n: nat, agg: Name, nds: Nds, lwits: seq<Lwit>) {
    && n < |events|
    && var at := Run(env, s, events[..n]);
       AsksAgg(at, events[n], agg, nds, lwits) && Witnessed(env, at, nds, lwits)
  }

  /** One step records only what a log is asked for and accepts, and confirms only what an aggregator does. */
  lemma StepRecords(env: Env, s: State, e: Event, entry: Entry)
    requires entry in Step(env, s, e).recorded && entry !in s.recorded
    ensures AsksLog(s, e, entry.log, entry.req, entry.nds)
    ensures LogAccepts(env, s, entry.log, entry.req, entry.nds, env.digest(entry.nds))
  {
    hide Absent, LwitsVerify, AcfmsMatch, ConfirmsVerify;
  }

  lemma StepConfirms(env: Env, s: State, e: Event, agg: Name, d: Digest) returns (nds: Nds, lwits: seq<Lwit>)
    requires (agg, d) in Step(env, s, e).confirmed && (agg, d) !in s.confirmed
    ensures env.digest(nds) == d && AsksAgg(s, e, agg, nds, lwits) && Witnessed(env, s, nds, lwits)
  {
    hide Absent, AcfmsMatch, ConfirmsVerify, LogFinishes;
    if e.Submit? {
      nds, lwits := e.snds, e.lwits;
    } else {
      nds, lwits := s.sessions[e.k].nds, s.sessions[e.k].lwits;
    }
  }

  lemma {:induction false} RecordedWasAccepted(env: Env, s: State, events: seq<Event>, entry: Entry)
    requires Init(env, s) && entry in Run(env, s, events).recorded
    ensures exists n: nat :: LogAgreed(env, s, events, n, entry.log, entry.req, entry.nds)
  {
    hide Step, LogAccepts, RightFor, AsksLog;
    var k := |events| - 1;
    var before := Run(env, s, events[..k]);
    if entry in before.recorded {
      RecordedWasAccepted(env, s, events[..k], entry);
      var n: nat :| LogAgreed(env, s, events[..k], n, entry.log, entry.req, entry.nds);
      assert events[..k][..n] == events[..n];
      assert LogAgreed(env, s, events, n, entry.log, entry.req, entry.nds);
    } else {
      StepRecords(env, before, events[k], entry);
      RunKeeps(env, s, events[..k]);
      AcceptedIsRight(env, before, entry.log, entry.req, entry.nds);
      assert LogAgreed(env, s, events, k, entry.log, entry.req, entry.nds);
    }
  }

  lemma AcceptedIsRight(env: Env, s: State, log: Name, req: Request, nds: Nds)
    requires Inv(env, s) && LogAccepts(env, s, log, req, nds, env.digest(nds))
    ensures RightFor(env, s, log, req, nds)
  {
    hide Absent, FoundAbsent, AllWellFormed;
    AbsentIsAbsent(env, s.logs[log].view, req);
  }

  lemma {:induction false} ConfirmedWasAccepted(env: Env, s: State, events: seq<Event>, agg: Name, d: Digest)
    requires Init(env, s) && (agg, d) in Run(env, s, events).confirmed
    ensures exists n: nat, nds, lwits :: env.digest(nds) == d && AggAgreed(env, s, events, n, agg, nds, lwits)
  {
    hide Step, Witnessed, AsksAgg;
    var k := |events| - 1;
    var before := Run(env, s, events[..k]);
    if (agg, d) in before.confirmed {
      ConfirmedWasAccepted(env, s, events[..k], agg, d);
      var n: nat, nds, lwits :| env.digest(nds) == d && AggAgreed(env, s, events[..k], n, agg, nds, lwits);
      assert events[..k][..n] == events[..n];
      assert AggAgreed(env, s, events, n, agg, nds, lwits);
    } else {
      var nds, lwits := StepConfirms(env, before, events[k], agg, d);
      assert AggAgreed(env, s, events, k, agg, nds, lwits);
    }
  }

  /** The status a log or aggregator dealt with is the certificate's, unless two statuses have the same digest. */
  ghost predicate Same(env: Env, nds: Nds, cert: Certificate) {
    env.digest(nds) == env.digest(cert.nds) && (nds == cert.nds || Collide(env, nds, cert.nds))
  }

  /** In every interleaving: if a certificate is issued, then for every designated log there was a moment of the run at
      which this log, asked for a request of the session's id, accepted the status that the authority had signed and
      found the child absent from its own accumulator of the parent; and for every listed aggregator there was a moment
      at which this aggregator was asked and accepted the signed status. */
  lemma IssuedMeansAgreed(env: Env, s: State, events: seq<Event>, cert: Certificate)
    requires Init(env, s) && cert in Run(env, s, events).issued
    ensures forall l :: l in cert.nds.logs ==>
      exists n: nat, req, nds ::
        LogAgreed(env, s, events, n, l, req, nds) && req.rid == cert.rid && Same(env, nds, cert)
    ensures forall a :: a in cert.nds.aggs ==>
      && (a, env.digest(cert.nds)) in Run(env, s, events).confirmed
      && exists n: nat, nds, lwits :: AggAgreed(env, s, events, n, a, nds, lwits) && Same(env, nds, cert)
  {
    RunKeeps(env, s, events);
    var s' := Run(env, s, events);
    var d := env.digest(cert.nds);
    hide Run, SessionsOk, RequestsOk, ViewsOk, LogAgreed, AggAgreed, Init;
    forall l | l in cert.nds.logs
      ensures exists n: nat, req, nds ::
        LogAgreed(env, s, events, n, l, req, nds) && req.rid == cert.rid && Same(env, nds, cert)
    {
      var i :| 0 <= i < |cert.nds.logs| && cert.nds.logs[i] == l;
      assert HasEntry(env, s', l, cert.rid, d);
      var e :| e in s'.recorded && e.log == l && e.req.rid == cert.rid && env.digest(e.nds) == d;
      RecordedWasAccepted(env, s, events, e);
      var n: nat :| LogAgreed(env, s, events, n, l, e.req, e.nds);
    }
    forall a | a in cert.nds.aggs
      ensures (a, d) in s'.confirmed
      ensures exists n: nat, nds, lwits :: AggAgreed(env, s, events, n, a, nds, lwits) && Same(env, nds, cert)
    {
      var i :| 0 <= i < |cert.nds.aggs| && cert.nds.aggs[i] == a;
      ConfirmedWasAccepted(env, s, events, a, d);
      var n: nat, nds, lwits :| env.digest(nds) == d && AggAgreed(env, s, events, n, a, nds, lwits);
    }
  }
}
