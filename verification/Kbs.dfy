/** The RCAR handshake of the key broker as a step machine: authentication, attestation in a read section and a
    commit section that holds its session entry, the purger, the clock, and plugin calls that use a token. */
module Kbs {
  import opened Wrappers
  import opened Json
  import opened Evidence
  import opened TeeKey

  type Id = string
  type Rid = nat
  type Token = string

  /** A session; its id and timeout stay when it is attested. */
  datatype Session =
    | Authed(id: Id, timeout: int, tee: Tee, nonce: string)
    | Attested(id: Id, timeout: int, token: Token)
  {
    predicate Expired(now: int) { timeout < now }

    /** Recording a token; a session that already has one keeps it. */
    function Attest(t: Token): (r: Session)
      ensures r.Attested? && (Attested? ==> r == this)
    {
      if Authed? then Attested(id, timeout, t) else this
    }
  }

  /** What a session was opened with, and the verify call that attested it: the history of one id. */
  datatype Opened = Opened(timeout: int, tee: Tee, nonce: string)
  datatype Verified = Verified(rid: Rid, key: Json, evidence: seq<IndependentEvidence>, token: Token)

  /** The session lifetime, and the code that the broker calls: reading additional evidence, and extracting the
      TEE public key from a token's claims. */
  datatype Config = Config(
    ttl: int, readAdditional: ReadAdditional, extractKey: Json -> Outcome<Json, KeyError>)

  // ----- requests in flight -----

  datatype AuthStage = AuthInFlight | AuthDone

  datatype AttestOutcome =
    | NoCookie | Malformed | NoSession | SessionExpired | OldToken(token: Token) | WrongNonce
    | BadAdditional | SessionGone | Panicked | VerifyFailed | NewToken(token: Token)

  datatype AttestStage =
    | Waiting(id: Id, message: Attestation)
    | Ready(id: Id, key: Json, evidence: seq<IndependentEvidence>)
    | Verifying(id: Id, key: Json, evidence: seq<IndependentEvidence>)
    | Finished(target: Option<Id>, outcome: AttestOutcome)

  /** The session that an attestation is about. */
  function Target(stage: AttestStage): Option<Id> {
    if stage.Finished? then stage.target else Some(stage.id)
  }

  datatype CallRequest = CallRequest(cookie: Option<Id>, bearer: Option<Token>, endpoint: string)

  /** Where the token of a call came from: the bearer header, or a session looked up at some time. */
  datatype Origin = FromBearer | FromSession(id: Id, at: int)

  datatype Phase = Checked | Deciding | Allowed

  datatype Reply = PluginFailed | Plain | Encrypted(key: Json) | NoKey

  datatype Refusal = NoTokenFound | TokenRejected | PolicyBroken | PolicyDenied

  datatype CallStage =
    | LookingUp(req: CallRequest)
    | HaveToken(req: CallRequest, token: Token, origin: Origin)
    | Judged(req: CallRequest, token: Token, origin: Origin, claims: Json, phase: Phase)
    | Answered(req: CallRequest, token: Token, origin: Origin, claims: Json, reply: Reply)
    | Refused(req: CallRequest, why: Refusal)

  /** The metrics. */
  datatype Counters = Counters(
    authRequests: nat, authSuccesses: nat, authErrors: nat,
    attestRequests: nat, attestSuccesses: nat, attestFailures: nat, attestErrors: nat,
    policyEvals: nat, policyApprovals: nat, policyViolations: nat, policyErrors: nat)

  /** What a step adds to the metrics; a rejected attestation is a request and an error at once. */
  datatype Metric =
    | Uncounted
    | AuthRequest | AuthSuccess | AuthError
    | AttestRequest | AttestRejected | AttestSuccess | AttestFailure | AttestError
    | PolicyEval | PolicyApproval | PolicyViolation | PolicyError

  function Count(c: Counters, m: Metric): Counters {
    match m
    case Uncounted => c
    case AuthRequest => c.(authRequests := c.authRequests + 1)
    case AuthSuccess => c.(authSuccesses := c.authSuccesses + 1)
    case AuthError => c.(authErrors := c.authErrors + 1)
    case AttestRequest => c.(attestRequests := c.attestRequests + 1)
    case AttestRejected => c.(attestRequests := c.attestRequests + 1, attestErrors := c.attestErrors + 1)
    case AttestSuccess => c.(attestSuccesses := c.attestSuccesses + 1)
    case AttestFailure => c.(attestFailures := c.attestFailures + 1)
    case AttestError => c.(attestErrors := c.attestErrors + 1)
    case PolicyEval => c.(policyEvals := c.policyEvals + 1)
    case PolicyApproval => c.(policyApprovals := c.policyApprovals + 1)
    case PolicyViolation => c.(policyViolations := c.policyViolations + 1)
    case PolicyError => c.(policyErrors := c.policyErrors + 1)
  }

  datatype Event =
    | SessionOpened(id: Id, info: Opened)
    | ReadAuthed(rid: Rid, id: Id, evidence: seq<IndependentEvidence>)
    | VerifyReturned(rid: Rid, id: Id, evidence: seq<IndependentEvidence>, token: Token)
    | LookedUp(call: Rid, id: Id, token: Token, at: int)
    | BearerUsed(call: Rid, token: Token)
    | TokenVerified(call: Rid, token: Token, claims: Json)
    | PolicyApproved(call: Rid, endpoint: string, claims: Json)
    | Invoked(call: Rid, endpoint: string)
    | Sealed(call: Rid, key: Json)

  /** The clock, the session map with its held entries, the handshake requests, and the history of every id. */
  datatype Base = Base(
    now: int,
    sessions: map<Id, Session>,
    locks: map<Id, Rid>,
    auths: map<Rid, AuthStage>,
    attests: map<Rid, AttestStage>,
    openings: map<Id, Opened>,
    verified: map<Id, Verified>)

  datatype State = State(base: Base, calls: map<Rid, CallStage>, counters: Counters, trace: seq<Event>)

  datatype Move =
    | AuthStart(rid: Rid)
    | AuthFail(rid: Rid)
    | AuthEnd(rid: Rid, id: Id, tee: Tee, nonce: string)
    | AttestArrive(rid: Rid, cookie: Option<Id>, body: Option<Attestation>)
    | AttestRead(rid: Rid, order: seq<Tee>)
    | CommitBegin(rid: Rid)
    | CommitFail(rid: Rid)
    | CommitEnd(rid: Rid, token: Token)
    | Purge(id: Id)
    | Tick(elapsed: nat)

  datatype CallMove =
    | Lookup
    | CheckToken(claims: Option<Json>)
    | PolicyBegin
    | PolicyEnd(verdict: Option<bool>)
    | Handle(response: Option<bool>)

  datatype Step = Handshake(move: Move) | CallStart(call: Rid, req: CallRequest) | Call(call: Rid, next: CallMove)

  function Start(now: int): State {
    State(Base(now, map[], map[], map[], map[], map[], map[]), map[], Counters(0, 0, 0, 0, 0, 0, 0, 0, 0, 0, 0), [])
  }

  /** What one atomic section does. */
  datatype Effect = Effect(base: Base, metric: Metric, news: seq<Event>)
  datatype StageEffect = StageEffect(stage: AttestStage, metric: Metric, news: seq<Event>)
  datatype CallEffect = CallEffect(stage: CallStage, metric: Metric, news: seq<Event>)

  // ----- authentication -----

  function StartAuth(b: Base, r: Rid): (e: Effect)
    ensures e.base == b.(auths := e.base.auths)
  {
    if r in b.auths then Effect(b, Uncounted, [])
    else Effect(b.(auths := b.auths[r := AuthInFlight]), AuthRequest, [])
  }

  function FailAuth(b: Base, r: Rid): (e: Effect)
    ensures e.base == b.(auths := e.base.auths)
  {
    if r in b.auths && b.auths[r].AuthInFlight? then Effect(b.(auths := b.auths[r := AuthDone]), AuthError, [])
    else Effect(b, Uncounted, [])
  }

  /** A new session under an id that was never used before. */
  function EndAuth(cfg: Config, b: Base, r: Rid, id: Id, tee: Tee, nonce: string): (e: Effect)
    ensures e.base.attests == b.attests && e.base.verified == b.verified
  {
    if r in b.auths && b.auths[r].AuthInFlight? && id !in b.openings then
      var info := Opened(b.now + cfg.ttl, tee, nonce);
      Effect(b.(auths := b.auths[r := AuthDone],
                sessions := b.sessions[id := Authed(id, info.timeout, tee, nonce)],
                openings := b.openings[id := info]),
             AuthSuccess, [SessionOpened(id, info)])
    else Effect(b, Uncounted, [])
  }

  // ----- attestation -----

  function Finish(b: Base, r: Rid, target: Option<Id>, outcome: AttestOutcome): Base {
    b.(attests := b.attests[r := Finished(target, outcome)])
  }

  /** No request but `r` changes its stage, and `r` does not become ready. */
  predicate StageOnly(before: map<Rid, AttestStage>, after: map<Rid, AttestStage>, r: Rid) {
    after == before || (r in after && !after[r].Ready? && after == before[r := after[r]])
  }

  function Arrive(b: Base, r: Rid, cookie: Option<Id>, body: Option<Attestation>): (e: Effect)
    ensures e.base == b.(attests := e.base.attests) && StageOnly(b.attests, e.base.attests, r)
  {
    if r in b.attests then Effect(b, Uncounted, [])
    else if cookie.None? then Effect(Finish(b, r, None, NoCookie), AttestRejected, [])
    else if body.None? then Effect(Finish(b, r, cookie, Malformed), AttestRejected, [])
    else Effect(b.(attests := b.attests[r := Waiting(cookie.value, body.value)]), AttestRequest, [])
  }

  /** An order in which the additional evidence may be visited. */
  predicate Lists(order: seq<Tee>, devices: map<Tee, Json>) {
    && (forall t :: t in order ==> t in devices) && (forall t :: t in devices ==> t in order)
    && forall i, j :: 0 <= i < j < |order| ==> order[i] != order[j]
  }

  predicate CanRead(cfg: Config, b: Base, r: Rid, order: seq<Tee>) {
    && r in b.attests && b.attests[r].Waiting? && b.attests[r].id !in b.locks
    && var devices := Devices(cfg.readAdditional, b.attests[r].message);
       devices.Some? ==> Lists(order, devices.value)
  }

  /** What a section sees of the session map: one entry. */
  function Entry(b: Base, id: Id): Option<Session> {
    if id in b.sessions then Some(b.sessions[id]) else None
  }

  /** The read section and the checks after it. */
  function ReadEntry(cfg: Config, now: int, entry: Option<Session>, r: Rid, id: Id, m: Attestation, order: seq<Tee>)
    : (e: StageEffect)
    requires var devices := Devices(cfg.readAdditional, m); devices.Some? ==> Lists(order, devices.value)
    ensures Target(e.stage) == Some(id) && !e.stage.Waiting? && !e.stage.Verifying?
    ensures e.stage.Ready? ==> entry.Some? && entry.value.Authed? && !entry.value.Expired(now)
  {
    if entry.None? then StageEffect(Finished(Some(id), NoSession), AttestError, [])
    else
      var session := entry.value;
      if session.Expired(now) then StageEffect(Finished(Some(id), SessionExpired), Uncounted, [])
      else if session.Attested? then StageEffect(Finished(Some(id), OldToken(session.token)), Uncounted, [])
      else if session.nonce != m.nonce then StageEffect(Finished(Some(id), WrongNonce), Uncounted, [])
      else
        var devices := Devices(cfg.readAdditional, m);
        if devices.None? then StageEffect(Finished(Some(id), BadAdditional), AttestError, [])
        else
          var es := EvidenceList(session.tee, session.nonce, m, devices.value, order);
          StageEffect(Ready(id, m.teePubkey, es), Uncounted, [ReadAuthed(r, id, es)])
  }

  function Read(cfg: Config, b: Base, r: Rid, order: seq<Tee>): (e: Effect)
    ensures e.base == b.(attests := e.base.attests)
  {
    if !CanRead(cfg, b, r, order) then Effect(b, Uncounted, [])
    else
      var id := b.attests[r].id;
      var e := ReadEntry(cfg, b.now, Entry(b, id), r, id, b.attests[r].message, order);
      Effect(b.(attests := b.attests[r := e.stage]), e.metric, e.news)
  }

  predicate CanBegin(b: Base, r: Rid) {
    r in b.attests && b.attests[r].Ready? && b.attests[r].id !in b.locks
  }

  /** The commit section takes the entry; reading the request of an attested session panics. */
  function BeginEntry(entry: Option<Session>, id: Id, key: Json, es: seq<IndependentEvidence>): (e: StageEffect)
    ensures Target(e.stage) == Some(id) && !e.stage.Waiting? && !e.stage.Ready?
    ensures e.stage.Verifying? <==> entry.Some? && entry.value.Authed?
    ensures e.stage.Verifying? ==> e.stage == Verifying(id, key, es)
  {
    match entry
    case None => StageEffect(Finished(Some(id), SessionGone), AttestError, [])
    case Some(Attested(_, _, _)) => StageEffect(Finished(Some(id), Panicked), Uncounted, [])
    case Some(Authed(_, _, _, _)) => StageEffect(Verifying(id, key, es), Uncounted, [])
  }

  function Begin(b: Base, r: Rid): (e: Effect)
    ensures e.base == b.(attests := e.base.attests, locks := e.base.locks) && StageOnly(b.attests, e.base.attests, r)
  {
    if !CanBegin(b, r) then Effect(b, Uncounted, [])
    else
      var id := b.attests[r].id;
      var e := BeginEntry(Entry(b, id), id, b.attests[r].key, b.attests[r].evidence);
      Effect(b.(attests := b.attests[r := e.stage], locks := if e.stage.Verifying? then b.locks[id := r] else b.locks),
             e.metric, e.news)
  }

  predicate Committing(b: Base, r: Rid) {
    r in b.attests && b.attests[r].Verifying? && b.attests[r].id in b.sessions
  }

  function FailCommit(b: Base, r: Rid): (e: Effect)
    ensures e.base == b.(attests := e.base.attests, locks := e.base.locks) && StageOnly(b.attests, e.base.attests, r)
  {
    if !Committing(b, r) then Effect(b, Uncounted, [])
    else
      var id := b.attests[r].id;
      Effect(Finish(b, r, Some(id), VerifyFailed).(locks := b.locks - {id}), AttestFailure, [])
  }

  function EndCommit(b: Base, r: Rid, token: Token): (e: Effect)
    ensures StageOnly(b.attests, e.base.attests, r) && e.base.openings == b.openings
  {
    if !Committing(b, r) then Effect(b, Uncounted, [])
    else
      var id, key, es := b.attests[r].id, b.attests[r].key, b.attests[r].evidence;
      Effect(Finish(b, r, Some(id), NewToken(token)).(
               locks := b.locks - {id},
               sessions := b.sessions[id := b.sessions[id].Attest(token)],
               verified := b.verified[id := Verified(r, key, es, token)]),
             AttestSuccess, [VerifyReturned(r, id, es, token)])
  }

  /** The purger drops one expired entry that nobody holds. */
  function PurgeOne(b: Base, id: Id): (e: Effect)
    ensures e.base == b.(sessions := e.base.sessions)
  {
    if id in b.sessions && b.sessions[id].Expired(b.now) && id !in b.locks then
      Effect(b.(sessions := b.sessions - {id}), Uncounted, [])
    else Effect(b, Uncounted, [])
  }

  function Moved(cfg: Config, b: Base, move: Move): Effect {
    match move
    case AuthStart(r) => StartAuth(b, r)
    case AuthFail(r) => FailAuth(b, r)
    case AuthEnd(r, id, tee, nonce) => EndAuth(cfg, b, r, id, tee, nonce)
    case AttestArrive(r, cookie, body) => Arrive(b, r, cookie, body)
    case AttestRead(r, order) => Read(cfg, b, r, order)
    case CommitBegin(r) => Begin(b, r)
    case CommitFail(r) => FailCommit(b, r)
    case CommitEnd(r, token) => EndCommit(b, r, token)
    case Purge(id) => PurgeOne(b, id)
    case Tick(elapsed) => Effect(b.(now := b.now + elapsed), Uncounted, [])
  }

  // ----- plugin calls -----

  /** The token of an unexpired attested session. */
  function SessionToken(b: Base, id: Id): Option<Token> {
    if id in b.sessions && !b.sessions[id].Expired(b.now) && b.sessions[id].Attested? then
      Some(b.sessions[id].token)
    else None
  }

  /** The session's token, or else the bearer token; nothing while the entry is held. */
  function LookUp(b: Base, c: Rid, req: CallRequest): Option<CallEffect> {
    if req.cookie.Some? && req.cookie.value in b.locks then None
    else if req.cookie.Some? && SessionToken(b, req.cookie.value).Some? then
      var id := req.cookie.value;
      var token := SessionToken(b, id).value;
      Some(CallEffect(HaveToken(req, token, FromSession(id, b.now)), Uncounted, [LookedUp(c, id, token, b.now)]))
    else if req.bearer.Some? then
      Some(CallEffect(HaveToken(req, req.bearer.value, FromBearer), Uncounted, [BearerUsed(c, req.bearer.value)]))
    else Some(CallEffect(Refused(req, NoTokenFound), Uncounted, []))
  }

  function Check(c: Rid, call: CallStage, claims: Option<Json>): CallEffect
    requires call.HaveToken?
  {
    if claims.None? then CallEffect(Refused(call.req, TokenRejected), Uncounted, [])
    else CallEffect(Judged(call.req, call.token, call.origin, claims.value, Checked), Uncounted,
                    [TokenVerified(c, call.token, claims.value)])
  }

  function Decide(c: Rid, call: CallStage, verdict: Option<bool>): CallEffect
    requires call.Judged?
  {
    if verdict.None? then CallEffect(Refused(call.req, PolicyBroken), PolicyError, [])
    else if !verdict.value then CallEffect(Refused(call.req, PolicyDenied), PolicyViolation, [])
    else CallEffect(call.(phase := Allowed), PolicyApproval, [PolicyApproved(c, call.req.endpoint, call.claims)])
  }

  /** The plugin answers, or fails; an answer is encrypted to the key in the claims when it asks for that. */
  function Respond(cfg: Config, c: Rid, call: CallStage, response: Option<bool>): CallEffect
    requires call.Judged?
  {
    var key := cfg.extractKey(call.claims);
    var reply := if response.None? then PluginFailed
                 else if !response.value then Plain
                 else if key.Ok? then Encrypted(key.value)
                 else NoKey;
    CallEffect(Answered(call.req, call.token, call.origin, call.claims, reply), Uncounted,
               [Invoked(c, call.req.endpoint)] + (if reply.Encrypted? then [Sealed(c, reply.key)] else []))
  }

  /** What a call does next, when the move is the one it waits for. */
  function Called(cfg: Config, b: Base, c: Rid, call: CallStage, move: CallMove): Option<CallEffect> {
    match move
    case Lookup => if call.LookingUp? then LookUp(b, c, call.req) else None
    case CheckToken(claims) => if call.HaveToken? then Some(Check(c, call, claims)) else None
    case PolicyBegin =>
      if call.Judged? && call.phase.Checked? then Some(CallEffect(call.(phase := Deciding), PolicyEval, []))
      else None
    case PolicyEnd(verdict) =>
      if call.Judged? && call.phase.Deciding? then Some(Decide(c, call, verdict)) else None
    case Handle(response) =>
      if call.Judged? && call.phase.Allowed? then Some(Respond(cfg, c, call, response)) else None
  }

  // ----- runs -----

  /** One step; a step that is not enabled changes nothing. */
  function Apply(cfg: Config, s: State, step: Step): State {
    match step
    case Handshake(move) =>
      var e := Moved(cfg, s.base, move);
      State(e.base, s.calls, Count(s.counters, e.metric), s.trace + e.news)
    case CallStart(c, req) =>
      if c in s.calls then s else s.(calls := s.calls[c := LookingUp(req)])
    case Call(c, move) =>
      if c !in s.calls then s
      else
        var e := Called(cfg, s.base, c, s.calls[c], move);
        if e.None? then s
        else State(s.base, s.calls[c := e.value.stage], Count(s.counters, e.value.metric), s.trace + e.value.news)
  }

  /** Every interleaving: the steps one after the other. */
  function Run(cfg: Config, s: State, steps: seq<Step>): State {
    if steps == [] then s else Apply(cfg, Run(cfg, s, steps[..|steps| - 1]), steps[|steps| - 1])
  }

  lemma {:induction false} RunSplits(cfg: Config, s: State, before: seq<Step>, after: seq<Step>)
    ensures Run(cfg, s, before + after) == Run(cfg, Run(cfg, s, before), after)
  {
    hide Apply;
    if after == [] {
      assert before + after == before;
    } else {
      var n := |after| - 1;
      assert (before + after)[..|before + after| - 1] == before + after[..n];
      RunSplits(cfg, s, before, after[..n]);
    }
  }

  /** The events happened in this order, other events possibly between them. */
  predicate InOrder(events: seq<Event>, trace: seq<Event>)
    decreases |trace|
  {
    || events == []
    || (trace != [] &&
        var n := |trace| - 1;
        || InOrder(events, trace[..n])
        || (events[|events| - 1] == trace[n] && InOrder(events[..|events| - 1], trace[..n])))
  }

  lemma StillInOrder(events: seq<Event>, trace: seq<Event>, e: Event)
    requires InOrder(events, trace)
    ensures InOrder(events, trace + [e])
  {
    assert (trace + [e])[..|trace|] == trace;
  }

  lemma NextInOrder(events: seq<Event>, trace: seq<Event>, e: Event)
    requires InOrder(events, trace)
    ensures InOrder(events + [e], trace + [e])
  {
    assert (trace + [e])[..|trace|] == trace;
    assert (events + [e])[..|events|] == events;
  }

  /** What the order means: an increasing position for every event. */
  lemma {:induction false} Positions(events: seq<Event>, trace: seq<Event>) returns (at: seq<nat>)
    requires InOrder(events, trace)
    ensures |at| == |events|
    ensures forall i :: 0 <= i < |at| ==> at[i] < |trace| && trace[at[i]] == events[i]
    ensures forall i, j :: 0 <= i < j < |at| ==> at[i] < at[j]
    decreases |trace|
  {
    if events == [] {
      at := [];
    } else {
      var n, m := |trace| - 1, |events| - 1;
      if InOrder(events, trace[..n]) {
        at := Positions(events, trace[..n]);
      } else {
        at := Positions(events[..m], trace[..n]);
        at := at + [n];
      }
    }
  }
}
