/** Every request of the key broker read off the schedule: which steps led to where it is, and what was the case when
    they were taken. */
module KbsHistory {
  import opened Wrappers
  import opened Json
  import opened Evidence
  import opened TeeKey
  import opened Kbs
  import opened KbsSafety
  import opened KbsRuns
  import opened KbsCalls

  /** The state in which step `k` of the schedule is taken. */
  function Before(cfg: Config, now: int, steps: seq<Step>, k: nat): State
    requires k <= |steps|
  {
    Run(cfg, Start(now), steps[..k])
  }

  predicate Increasing(at: seq<nat>, n: nat) {
    (forall i :: 0 <= i < |at| ==> at[i] < n) && forall i, j :: 0 <= i < j < |at| ==> at[i] < at[j]
  }

  lemma BeforePrefix(cfg: Config, now: int, steps: seq<Step>, n: nat, k: nat)
    requires k <= n <= |steps|
    ensures Before(cfg, now, steps[..n], k) == Before(cfg, now, steps, k)
  {
    assert steps[..n][..k] == steps[..k];
  }

  lemma RunLast(cfg: Config, now: int, steps: seq<Step>)
    requires steps != []
    ensures var n := |steps| - 1;
            Run(cfg, Start(now), steps) == Apply(cfg, Before(cfg, now, steps, n), steps[n])
  {
    hide Apply;
  }

  // ----- plugin calls -----

  /** The session that the request names can give no token. */
  predicate NoSessionToken(b: Base, req: CallRequest) {
    req.cookie.Some? ==>
      var id := req.cookie.value;
      id !in b.locks && (id in b.sessions ==> b.sessions[id].timeout < b.now || b.sessions[id].Authed?)
  }

  /** The token that the request goes on with: that of its session, attested and not past its timeout, or else, and
      only if that gives none, its bearer token. */
  predicate TokenFor(b: Base, req: CallRequest, token: Token, origin: Origin) {
    match origin
    case FromSession(id, at) =>
      && req.cookie == Some(id) && at == b.now && id !in b.locks && id in b.sessions
      && b.sessions[id].Attested? && b.sessions[id].token == token && b.now <= b.sessions[id].timeout
    case FromBearer => req.bearer == Some(token) && NoSessionToken(b, req)
  }

  /** What is answered: nothing if the plugin fails, plain text if it asks for no encryption, and else only what is
      encrypted to the key in the claims. */
  predicate AnswerFor(cfg: Config, claims: Json, response: Option<bool>, reply: Reply) {
    match reply
    case PluginFailed => response == None
    case Plain => response == Some(false)
    case Encrypted(key) => response == Some(true) && cfg.extractKey(claims) == Ok(key)
    case NoKey => response == Some(true) && !cfg.extractKey(claims).Ok?
  }

  predicate Starts(steps: seq<Step>, at: seq<nat>, c: Rid, req: CallRequest) {
    |at| >= 1 && at[0] < |steps| && steps[at[0]] == CallStart(c, req)
  }

  predicate LooksUp(steps: seq<Step>, at: seq<nat>, c: Rid) {
    |at| >= 2 && at[1] < |steps| && steps[at[1]] == Call(c, Lookup)
  }

  predicate Checks(steps: seq<Step>, at: seq<nat>, c: Rid, claims: Option<Json>) {
    |at| >= 3 && at[2] < |steps| && steps[at[2]] == Call(c, CheckToken(claims))
  }

  predicate Asks(steps: seq<Step>, at: seq<nat>, c: Rid) {
    |at| >= 4 && at[3] < |steps| && steps[at[3]] == Call(c, PolicyBegin)
  }

  predicate Decides(steps: seq<Step>, at: seq<nat>, c: Rid, verdict: Option<bool>) {
    |at| >= 5 && at[4] < |steps| && steps[at[4]] == Call(c, PolicyEnd(verdict))
  }

  /** The policy was deciding on this call, with these claims. */
  predicate DecidesOn(s: State, c: Rid, req: CallRequest, token: Token, origin: Origin, claims: Json) {
    c in s.calls && s.calls[c] == Judged(req, token, origin, claims, Deciding)
  }

  predicate Responds(steps: seq<Step>, at: seq<nat>, c: Rid) {
    |at| >= 6 && at[5] < |steps| && steps[at[5]].Call? && steps[at[5]].call == c && steps[at[5]].next.Handle?
  }

  /** The steps at these places of the schedule, in this order, brought the call to this stage: they started it, found
      its token, checked that, asked the policy, got its verdict and called the plugin, as far as it has come. */
  predicate CallCame(cfg: Config, now: int, steps: seq<Step>, at: seq<nat>, c: Rid, call: CallStage) {
    && Increasing(at, |steps|) && Starts(steps, at, c, call.req)
    && match call
       case LookingUp(_) => |at| == 1
       case HaveToken(req, token, origin) =>
         |at| == 2 && LooksUp(steps, at, c) && TokenFor(Before(cfg, now, steps, at[1]).base, req, token, origin)
       case Judged(req, token, origin, claims, phase) =>
         && LooksUp(steps, at, c) && TokenFor(Before(cfg, now, steps, at[1]).base, req, token, origin)
         && Checks(steps, at, c, Some(claims))
         && (match phase
             case Checked => |at| == 3
             case Deciding => |at| == 4 && Asks(steps, at, c)
             case Allowed =>
               && |at| == 5 && Asks(steps, at, c) && Decides(steps, at, c, Some(true))
               && DecidesOn(Before(cfg, now, steps, at[4]), c, req, token, origin, claims))
       case Answered(req, token, origin, claims, reply) =>
         && LooksUp(steps, at, c) && TokenFor(Before(cfg, now, steps, at[1]).base, req, token, origin)
         && Checks(steps, at, c, Some(claims)) && Asks(steps, at, c) && Decides(steps, at, c, Some(true))
         && DecidesOn(Before(cfg, now, steps, at[4]), c, req, token, origin, claims)
         && |at| == 6 && Responds(steps, at, c) && AnswerFor(cfg, claims, steps[at[5]].next.response, reply)
       case Refused(req, why) =>
         && LooksUp(steps, at, c)
         && (match why
             case NoTokenFound => |at| == 2 && req.bearer == None && NoSessionToken(Before(cfg, now, steps, at[1]).base, req)
             case TokenRejected => |at| == 3 && Checks(steps, at, c, None)
             case PolicyBroken => |at| == 5 && Asks(steps, at, c) && Decides(steps, at, c, None)
             case PolicyDenied => |at| == 5 && Asks(steps, at, c) && Decides(steps, at, c, Some(false)))
  }

  /** The same places of a longer schedule. */
  lemma CallCameLater(cfg: Config, now: int, steps: seq<Step>, n: nat, at: seq<nat>, c: Rid, call: CallStage)
    requires n <= |steps| && CallCame(cfg, now, steps[..n], at, c, call)
    ensures CallCame(cfg, now, steps, at, c, call)
  {
    hide TokenFor, AnswerFor, NoSessionToken, DecidesOn;
    if |at| >= 2 {
      BeforePrefix(cfg, now, steps, n, at[1]);
    }
    if |at| >= 5 {
      BeforePrefix(cfg, now, steps, n, at[4]);
    }
    hide Before;
  }

  lemma LookupCame(cfg: Config, now: int, steps: seq<Step>, at: seq<nat>, c: Rid, req: CallRequest)
    requires steps != [] && steps[|steps| - 1] == Call(c, Lookup)
    requires CallCame(cfg, now, steps, at, c, LookingUp(req)) && at[0] < |steps| - 1
    ensures var e := LookUp(Before(cfg, now, steps, |steps| - 1).base, c, req);
            e.Some? ==> CallCame(cfg, now, steps, at + [|steps| - 1], c, e.value.stage)
  {
    hide Before;
  }

  lemma CheckCame(cfg: Config, now: int, steps: seq<Step>, at: seq<nat>, c: Rid, call: CallStage, claims: Option<Json>)
    requires steps != [] && steps[|steps| - 1] == Call(c, CheckToken(claims)) && call.HaveToken?
    requires CallCame(cfg, now, steps, at, c, call) && Increasing(at, |steps| - 1)
    ensures CallCame(cfg, now, steps, at + [|steps| - 1], c, Check(c, call, claims).stage)
  {
    hide Before, TokenFor;
  }

  lemma AskCame(cfg: Config, now: int, steps: seq<Step>, at: seq<nat>, c: Rid, call: CallStage)
    requires steps != [] && steps[|steps| - 1] == Call(c, PolicyBegin) && call.Judged? && call.phase.Checked?
    requires CallCame(cfg, now, steps, at, c, call) && Increasing(at, |steps| - 1)
    ensures CallCame(cfg, now, steps, at + [|steps| - 1], c, call.(phase := Deciding))
  {
    hide Before, TokenFor;
  }

  lemma DecideCame(cfg: Config, now: int, steps: seq<Step>, at: seq<nat>, c: Rid, call: CallStage, verdict: Option<bool>)
    requires steps != [] && steps[|steps| - 1] == Call(c, PolicyEnd(verdict)) && call.Judged? && call.phase.Deciding?
    requires CallCame(cfg, now, steps, at, c, call) && Increasing(at, |steps| - 1)
    requires var s := Before(cfg, now, steps, |steps| - 1); c in s.calls && s.calls[c] == call
    ensures CallCame(cfg, now, steps, at + [|steps| - 1], c, Decide(c, call, verdict).stage)
  {
    hide Before, TokenFor;
  }

  lemma RespondCame(cfg: Config, now: int, steps: seq<Step>, at: seq<nat>, c: Rid, call: CallStage, response: Option<bool>)
    requires steps != [] && steps[|steps| - 1] == Call(c, Handle(response)) && call.Judged? && call.phase.Allowed?
    requires CallCame(cfg, now, steps, at, c, call) && Increasing(at, |steps| - 1)
    ensures CallCame(cfg, now, steps, at + [|steps| - 1], c, Respond(cfg, c, call, response).stage)
  {
    hide Before, TokenFor, DecidesOn;
  }

  lemma CallStepCame(cfg: Config, now: int, steps: seq<Step>, at: seq<nat>, c: Rid, call: CallStage, move: CallMove)
    requires steps != [] && steps[|steps| - 1] == Call(c, move)
    requires CallCame(cfg, now, steps, at, c, call) && Increasing(at, |steps| - 1)
    requires var s := Before(cfg, now, steps, |steps| - 1); c in s.calls && s.calls[c] == call
    ensures var e := Called(cfg, Before(cfg, now, steps, |steps| - 1).base, c, call, move);
            e.Some? ==> CallCame(cfg, now, steps, at + [|steps| - 1], c, e.value.stage)
  {
    hide CallCame, Before, LookUp, Check, Decide, Respond;
    match move
    case Lookup => if call.LookingUp? { CameStarts(cfg, now, steps, at, c, call); LookupCame(cfg, now, steps, at, c, call.req); }
    case CheckToken(claims) => if call.HaveToken? { CheckCame(cfg, now, steps, at, c, call, claims); }
    case PolicyBegin => if call.Judged? && call.phase.Checked? { AskCame(cfg, now, steps, at, c, call); }
    case PolicyEnd(verdict) => if call.Judged? && call.phase.Deciding? { DecideCame(cfg, now, steps, at, c, call, verdict); }
    case Handle(response) => if call.Judged? && call.phase.Allowed? { RespondCame(cfg, now, steps, at, c, call, response); }
  }

  lemma CameStarts(cfg: Config, now: int, steps: seq<Step>, at: seq<nat>, c: Rid, call: CallStage)
    requires CallCame(cfg, now, steps, at, c, call)
    ensures |at| >= 1
  {
    hide TokenFor, Before, AnswerFor, NoSessionToken;
  }

  lemma CameIncreasing(cfg: Config, now: int, steps: seq<Step>, at: seq<nat>, c: Rid, call: CallStage)
    requires CallCame(cfg, now, steps, at, c, call)
    ensures Increasing(at, |steps|)
  {
    hide TokenFor, Before, AnswerFor, NoSessionToken;
  }

  lemma StartCame(cfg: Config, now: int, steps: seq<Step>, c: Rid, req: CallRequest)
    requires steps != [] && steps[|steps| - 1] == CallStart(c, req)
    ensures CallCame(cfg, now, steps, [|steps| - 1], c, LookingUp(req))
  {
  }

  /** How one step changes one call. */
  lemma CallAfterStep(cfg: Config, s: State, step: Step, c: Rid)
    requires c in Apply(cfg, s, step).calls
    ensures var call := Apply(cfg, s, step).calls[c];
            || (c in s.calls && call == s.calls[c])
            || (c !in s.calls && step.CallStart? && step.call == c && call == LookingUp(step.req))
            || (c in s.calls && step.Call? && step.call == c &&
                var e := Called(cfg, s.base, c, s.calls[c], step.next); e.Some? && call == e.value.stage)
  {
    hide Moved, Called;
  }

  /** In every run, every call was brought to its stage by those steps. */
  lemma {:induction false} CallHistory(cfg: Config, now: int, steps: seq<Step>, c: Rid) returns (at: seq<nat>)
    requires c in Run(cfg, Start(now), steps).calls
    ensures CallCame(cfg, now, steps, at, c, Run(cfg, Start(now), steps).calls[c])
  {
    hide CallCame, Called, Apply;
    var n := |steps| - 1;
    RunLast(cfg, now, steps);
    var s := Before(cfg, now, steps, n);
    CallAfterStep(cfg, s, steps[n], c);
    if c in s.calls {
      at := CallHistory(cfg, now, steps[..n], c);
      CameIncreasing(cfg, now, steps[..n], at, c, s.calls[c]);
      CallCameLater(cfg, now, steps, n, at, c, s.calls[c]);
      if Run(cfg, Start(now), steps).calls[c] != s.calls[c] {
        CallStepCame(cfg, now, steps, at, c, s.calls[c], steps[n].next);
        at := at + [n];
      }
    } else {
      at := [n];
      StartCame(cfg, now, steps, c, steps[n].req);
    }
  }

  /** Every plugin invocation of every run follows, in the schedule, an approving verdict of the policy on that call,
      asked after its token was found and checked. */
  lemma InvokedWasApproved(cfg: Config, now: int, steps: seq<Step>, i: nat) returns (at: seq<nat>)
    requires i < |Run(cfg, Start(now), steps).trace| && Run(cfg, Start(now), steps).trace[i].Invoked?
    ensures var s := Run(cfg, Start(now), steps); var c := s.trace[i].call;
            && c in s.calls && s.calls[c].Answered? && s.calls[c].req.endpoint == s.trace[i].endpoint
            && CallCame(cfg, now, steps, at, c, s.calls[c])
            && Increasing(at, |steps|) && |at| == 6
            && steps[at[4]] == Call(c, PolicyEnd(Some(true)))
            && DecidesOn(Before(cfg, now, steps, at[4]), c, s.calls[c].req, s.calls[c].token, s.calls[c].origin, s.calls[c].claims)
            && steps[at[2]] == Call(c, CheckToken(Some(s.calls[c].claims)))
  {
    ReachableCalls(cfg, now, steps);
    hide Run, CallsBacked;
    var s := Run(cfg, Start(now), steps);
    assert Remembered(s.calls, s.trace[i]);
    at := CallHistory(cfg, now, steps, s.trace[i].call);
    hide TokenFor, AnswerFor, Before;
  }

  // ----- a refused call stays refused -----

  lemma {:induction false} RefusedStays(cfg: Config, s: State, steps: seq<Step>, c: Rid)
    requires c in s.calls && s.calls[c].Refused?
    ensures var t := Run(cfg, s, steps); c in t.calls && t.calls[c] == s.calls[c]
  {
    if steps != [] {
      hide Moved, SessionToken;
      RefusedStays(cfg, s, steps[..|steps| - 1], c);
    }
  }

  /** After a verdict that does not approve, no continuation of the run ever calls the plugin for that call. */
  lemma DeniedIsNeverInvoked(cfg: Config, now: int, before: seq<Step>, verdict: Option<bool>, after: seq<Step>, c: Rid, i: nat)
    requires var s := Run(cfg, Start(now), before);
             c in s.calls && s.calls[c].Judged? && s.calls[c].phase.Deciding?
    requires verdict != Some(true)
    requires i < |Run(cfg, Start(now), before + [Call(c, PolicyEnd(verdict))] + after).trace|
    ensures var e := Run(cfg, Start(now), before + [Call(c, PolicyEnd(verdict))] + after).trace[i];
            !(e.Invoked? && e.call == c)
  {
    var step := Call(c, PolicyEnd(verdict));
    var s := Run(cfg, Start(now), before);
    var first := before + [step];
    assert first[..|before|] == before;
    var t := Run(cfg, Start(now), first);
    assert t == Apply(cfg, s, step);
    assert c in t.calls && t.calls[c].Refused?;
    hide Apply;
    RefusedStays(cfg, t, after, c);
    RunSplits(cfg, Start(now), first, after);
    ReachableCalls(cfg, now, first + after);
    hide Run, CallsBacked;
    var u := Run(cfg, Start(now), first + after);
    assert Remembered(u.calls, u.trace[i]);
  }

  // ----- sessions -----

  /** In every run, every session was opened by the end of an authentication in flight, for the configured time. */
  lemma {:induction false} OpeningHistory(cfg: Config, now: int, steps: seq<Step>, id: Id) returns (k: nat, r: Rid)
    requires id in Run(cfg, Start(now), steps).base.openings
    ensures k < |steps|
    ensures var o, b := Run(cfg, Start(now), steps).base.openings[id], Before(cfg, now, steps, k).base;
            && steps[k] == Handshake(AuthEnd(r, id, o.tee, o.nonce))
            && r in b.auths && b.auths[r].AuthInFlight? && id !in b.openings
            && o.timeout == b.now + cfg.ttl
  {
    hide Apply;
    var n := |steps| - 1;
    RunLast(cfg, now, steps);
    var s := Before(cfg, now, steps, n);
    OpeningAfterStep(cfg, s, steps[n], id);
    Reachable(cfg, now, steps[..n]);
    if id in s.base.openings {
      k, r := OpeningHistory(cfg, now, steps[..n], id);
      BeforePrefix(cfg, now, steps, n, k);
    } else {
      k, r := n, steps[n].move.rid;
    }
  }

  lemma OpeningAfterStep(cfg: Config, s: State, step: Step, id: Id)
    requires id in Apply(cfg, s, step).base.openings
    ensures var o := Apply(cfg, s, step).base.openings[id];
            || (id in s.base.openings && o == s.base.openings[id])
            || (&& id !in s.base.openings && step.Handshake? && step.move.AuthEnd? && step.move.id == id
                && var move := step.move;
                   move.rid in s.base.auths && s.base.auths[move.rid].AuthInFlight?
                   && o == Opened(s.base.now + cfg.ttl, move.tee, move.nonce))
  {
    hide Called, Moved;
    if step.Handshake? {
      if step.move.AuthEnd? {
        EndAuthOpens(cfg, s.base, step.move, id);
      } else {
        OpeningsStay(cfg, s.base, step.move);
      }
    }
  }

  lemma OpeningsStay(cfg: Config, b: Base, move: Move)
    requires !move.AuthEnd?
    ensures Moved(cfg, b, move).base.openings == b.openings
  {
    hide StartAuth, FailAuth, Arrive, Read, Begin, FailCommit, EndCommit, PurgeOne;
  }

  lemma EndAuthOpens(cfg: Config, b: Base, move: Move, id: Id)
    requires move.AuthEnd? && id in Moved(cfg, b, move).base.openings
    ensures var o := Moved(cfg, b, move).base.openings[id];
            || (id in b.openings && o == b.openings[id])
            || (&& id !in b.openings && move.id == id && move.rid in b.auths && b.auths[move.rid].AuthInFlight?
                && o == Opened(b.now + cfg.ttl, move.tee, move.nonce))
  {
  }

  // ----- attestations -----

  /** The message was read for an unattested session that nobody held, not past its timeout, with the session's nonce,
      and this is its evidence. */
  predicate ReadFor(cfg: Config, b: Base, id: Id, m: Attestation, order: seq<Tee>, key: Json, es: seq<IndependentEvidence>) {
    && id !in b.locks && id in b.sessions && b.sessions[id].Authed? && b.now <= b.sessions[id].timeout
    && m.nonce == b.sessions[id].nonce && key == m.teePubkey
    && var devices := if m.additional == "" then Some(map[]) else cfg.readAdditional(m.additional);
       devices.Some? && Lists(order, devices.value)
       && es == EvidenceList(b.sessions[id].tee, b.sessions[id].nonce, m, devices.value, order)
  }

  predicate Arrives(steps: seq<Step>, at: seq<nat>, r: Rid, id: Id) {
    && |at| >= 1 && at[0] < |steps| && steps[at[0]].Handshake? && steps[at[0]].move.AttestArrive?
    && steps[at[0]].move.rid == r && steps[at[0]].move.cookie == Some(id)
  }

  predicate ArrivesWith(steps: seq<Step>, at: seq<nat>, r: Rid, id: Id) {
    Arrives(steps, at, r, id) && steps[at[0]].move.body.Some?
  }

  function Message(steps: seq<Step>, at: seq<nat>, r: Rid, id: Id): Attestation
    requires ArrivesWith(steps, at, r, id)
  {
    steps[at[0]].move.body.value
  }

  predicate Reads(steps: seq<Step>, at: seq<nat>, r: Rid) {
    && |at| >= 2 && at[1] < |steps| && steps[at[1]].Handshake? && steps[at[1]].move.AttestRead? && steps[at[1]].move.rid == r
  }

  predicate ReadsEvidence(cfg: Config, now: int, steps: seq<Step>, at: seq<nat>, r: Rid, id: Id, key: Json,
                          es: seq<IndependentEvidence>)
  {
    && ArrivesWith(steps, at, r, id) && Reads(steps, at, r)
    && ReadFor(cfg, Before(cfg, now, steps, at[1]).base, id, Message(steps, at, r, id), steps[at[1]].move.order, key, es)
  }

  predicate Begins(steps: seq<Step>, at: seq<nat>, r: Rid) {
    |at| >= 3 && at[2] < |steps| && steps[at[2]] == Handshake(CommitBegin(r))
  }

  predicate Ends(steps: seq<Step>, at: seq<nat>, step: Step) {
    |at| >= 4 && at[3] < |steps| && steps[at[3]] == step
  }

  /** The entry as the read or the commit section finds it. */
  function Found(cfg: Config, now: int, steps: seq<Step>, k: nat, id: Id): Option<Session>
    requires k <= |steps|
  {
    var b := Before(cfg, now, steps, k).base;
    if id in b.sessions then Some(b.sessions[id]) else None
  }

  /** What the read section found when it ended the request. */
  predicate ReadEnds(cfg: Config, b: Base, id: Id, m: Attestation, outcome: AttestOutcome) {
    match outcome
    case NoSession => id !in b.sessions
    case SessionExpired => id in b.sessions && b.sessions[id].timeout < b.now
    case OldToken(token) =>
      id in b.sessions && b.now <= b.sessions[id].timeout && b.sessions[id].Attested? && b.sessions[id].token == token
    case WrongNonce =>
      id in b.sessions && b.now <= b.sessions[id].timeout && b.sessions[id].Authed? && b.sessions[id].nonce != m.nonce
    case BadAdditional =>
      && id in b.sessions && b.now <= b.sessions[id].timeout && b.sessions[id].Authed? && b.sessions[id].nonce == m.nonce
      && m.additional != "" && cfg.readAdditional(m.additional) == None
    case _ => false
  }

  predicate EndedBy(cfg: Config, now: int, steps: seq<Step>, at: seq<nat>, r: Rid, target: Option<Id>, outcome: AttestOutcome) {
    match outcome
    case NoCookie =>
      && target == None && |at| == 1 && at[0] < |steps| && steps[at[0]].Handshake? && steps[at[0]].move.AttestArrive?
      && steps[at[0]].move.rid == r && steps[at[0]].move.cookie == None
    case Malformed => target.Some? && |at| == 1 && Arrives(steps, at, r, target.value) && steps[at[0]].move.body == None
    case SessionGone =>
      && target.Some? && |at| == 3 && ArrivesWith(steps, at, r, target.value) && Reads(steps, at, r) && Begins(steps, at, r)
      && Found(cfg, now, steps, at[2], target.value).None?
    case Panicked =>
      && target.Some? && |at| == 3 && ArrivesWith(steps, at, r, target.value) && Reads(steps, at, r) && Begins(steps, at, r)
      && var found := Found(cfg, now, steps, at[2], target.value); found.Some? && found.value.Attested?
    case VerifyFailed =>
      && target.Some? && |at| == 4 && ArrivesWith(steps, at, r, target.value) && Reads(steps, at, r) && Begins(steps, at, r)
      && Ends(steps, at, Handshake(CommitFail(r)))
    case NewToken(token) =>
      && target.Some? && |at| == 4 && ArrivesWith(steps, at, r, target.value) && Reads(steps, at, r) && Begins(steps, at, r)
      && Ends(steps, at, Handshake(CommitEnd(r, token)))
    case _ =>
      && target.Some? && |at| == 2 && ArrivesWith(steps, at, r, target.value) && Reads(steps, at, r)
      && ReadEnds(cfg, Before(cfg, now, steps, at[1]).base, target.value, Message(steps, at, r, target.value), outcome)
  }

  /** The steps at these places of the schedule, in this order, brought the attestation to this stage. */
  predicate AttestCame(cfg: Config, now: int, steps: seq<Step>, at: seq<nat>, r: Rid, stage: AttestStage) {
    && Increasing(at, |steps|)
    && match stage
       case Waiting(id, m) => |at| == 1 && ArrivesWith(steps, at, r, id) && Message(steps, at, r, id) == m
       case Ready(id, key, es) => |at| == 2 && ReadsEvidence(cfg, now, steps, at, r, id, key, es)
       case Verifying(id, key, es) =>
         && |at| == 3 && ReadsEvidence(cfg, now, steps, at, r, id, key, es) && Begins(steps, at, r)
         && var found := Found(cfg, now, steps, at[2], id); found.Some? && found.value.Authed?
       case Finished(target, outcome) => EndedBy(cfg, now, steps, at, r, target, outcome)
  }

  lemma AttestCameLater(cfg: Config, now: int, steps: seq<Step>, n: nat, at: seq<nat>, r: Rid, stage: AttestStage)
    requires n <= |steps| && AttestCame(cfg, now, steps[..n], at, r, stage)
    ensures AttestCame(cfg, now, steps, at, r, stage)
  {
    hide ReadFor, ReadEnds;
    if |at| >= 2 {
      BeforePrefix(cfg, now, steps, n, at[1]);
    }
    if |at| >= 3 {
      BeforePrefix(cfg, now, steps, n, at[2]);
    }
    hide Before;
  }

  lemma AttestIncreasing(cfg: Config, now: int, steps: seq<Step>, at: seq<nat>, r: Rid, stage: AttestStage)
    requires AttestCame(cfg, now, steps, at, r, stage)
    ensures Increasing(at, |steps|)
  {
    hide ReadsEvidence, EndedBy, Found;
  }

  lemma ArriveCame(cfg: Config, now: int, steps: seq<Step>, r: Rid, cookie: Option<Id>, body: Option<Attestation>)
    requires steps != [] && steps[|steps| - 1] == Handshake(AttestArrive(r, cookie, body))
    requires r !in Before(cfg, now, steps, |steps| - 1).base.attests
    ensures AttestCame(cfg, now, steps, [|steps| - 1], r,
                       Arrive(Before(cfg, now, steps, |steps| - 1).base, r, cookie, body).base.attests[r])
  {
    hide Before;
  }

  /** The entry that the read section reads decides as the table says. */
  lemma ReadEntryFor(cfg: Config, b: Base, r: Rid, id: Id, m: Attestation, order: seq<Tee>)
    requires id !in b.locks && var devices := Devices(cfg.readAdditional, m); devices.Some? ==> Lists(order, devices.value)
    ensures var e := ReadEntry(cfg, b.now, Entry(b, id), r, id, m, order);
            if e.stage.Ready? then e.stage.id == id && ReadFor(cfg, b, id, m, order, e.stage.key, e.stage.evidence)
            else e.stage.Finished? && e.stage.target == Some(id) && ReadEnds(cfg, b, id, m, e.stage.outcome)
  {
    hide EvidenceList, Lists;
  }

  lemma ReadCame(cfg: Config, now: int, steps: seq<Step>, at: seq<nat>, r: Rid, id: Id, m: Attestation, order: seq<Tee>)
    requires steps != [] && steps[|steps| - 1] == Handshake(AttestRead(r, order))
    requires AttestCame(cfg, now, steps, at, r, Waiting(id, m)) && Increasing(at, |steps| - 1)
    requires var b := Before(cfg, now, steps, |steps| - 1).base;
             CanRead(cfg, b, r, order) && b.attests[r] == Waiting(id, m)
    ensures var b := Before(cfg, now, steps, |steps| - 1).base;
            AttestCame(cfg, now, steps, at + [|steps| - 1], r, Read(cfg, b, r, order).base.attests[r])
  {
    var b := Before(cfg, now, steps, |steps| - 1).base;
    hide Before, ReadFor, ReadEnds, ReadEntry, Devices, Lists;
    ReadEntryFor(cfg, b, r, id, m, order);
  }

  lemma BeginCame(cfg: Config, now: int, steps: seq<Step>, at: seq<nat>, r: Rid, stage: AttestStage)
    requires steps != [] && steps[|steps| - 1] == Handshake(CommitBegin(r)) && stage.Ready?
    requires AttestCame(cfg, now, steps, at, r, stage) && Increasing(at, |steps| - 1)
    requires var b := Before(cfg, now, steps, |steps| - 1).base; CanBegin(b, r) && b.attests[r] == stage
    ensures var b := Before(cfg, now, steps, |steps| - 1).base;
            AttestCame(cfg, now, steps, at + [|steps| - 1], r, Begin(b, r).base.attests[r])
  {
    hide Before, ReadFor;
  }

  lemma EndCame(cfg: Config, now: int, steps: seq<Step>, at: seq<nat>, r: Rid, stage: AttestStage, outcome: AttestOutcome)
    requires steps != [] && stage.Verifying?
    requires match outcome
             case VerifyFailed => steps[|steps| - 1] == Handshake(CommitFail(r))
             case NewToken(token) => steps[|steps| - 1] == Handshake(CommitEnd(r, token))
             case _ => false
    requires AttestCame(cfg, now, steps, at, r, stage) && Increasing(at, |steps| - 1)
    ensures AttestCame(cfg, now, steps, at + [|steps| - 1], r, Finished(Some(stage.id), outcome))
  {
    hide Before, ReadFor;
  }

  /** How one move changes one attestation. */
  lemma AttestAfterMove(cfg: Config, b: Base, move: Move, r: Rid)
    requires r in Moved(cfg, b, move).base.attests
    ensures var stage := Moved(cfg, b, move).base.attests[r];
            || (r in b.attests && stage == b.attests[r])
            || (r !in b.attests && move.AttestArrive? && move.rid == r)
            || (r in b.attests && move.AttestRead? && move.rid == r && CanRead(cfg, b, r, move.order))
            || (r in b.attests && move == CommitBegin(r) && CanBegin(b, r))
            || (&& r in b.attests && b.attests[r].Verifying? && move == CommitFail(r)
                && stage == Finished(Some(b.attests[r].id), VerifyFailed))
            || (&& r in b.attests && b.attests[r].Verifying? && move.CommitEnd? && move.rid == r
                && stage == Finished(Some(b.attests[r].id), NewToken(move.token)))
  {
    hide ReadEntry, BeginEntry, Session.Attest, Devices, Lists;
  }

  lemma AttestStepCame(cfg: Config, now: int, steps: seq<Step>, at: seq<nat>, r: Rid, stage: AttestStage)
    requires steps != [] && steps[|steps| - 1].Handshake?
    requires AttestCame(cfg, now, steps, at, r, stage) && Increasing(at, |steps| - 1)
    requires var b := Before(cfg, now, steps, |steps| - 1).base; r in b.attests && b.attests[r] == stage
    requires var d := Moved(cfg, Before(cfg, now, steps, |steps| - 1).base, steps[|steps| - 1].move).base;
             r in d.attests && d.attests[r] != stage
    ensures var d := Moved(cfg, Before(cfg, now, steps, |steps| - 1).base, steps[|steps| - 1].move).base;
            AttestCame(cfg, now, steps, at + [|steps| - 1], r, d.attests[r])
  {
    hide AttestCame, Before, Read, Begin, FailCommit, EndCommit;
    var b, move := Before(cfg, now, steps, |steps| - 1).base, steps[|steps| - 1].move;
    AttestAfterMove(cfg, b, move, r);
    if move.AttestRead? {
      ReadCame(cfg, now, steps, at, r, stage.id, stage.message, move.order);
    } else if move.CommitBegin? {
      BeginCame(cfg, now, steps, at, r, stage);
    } else if move.CommitFail? {
      EndCame(cfg, now, steps, at, r, stage, VerifyFailed);
    } else if move.CommitEnd? {
      EndCame(cfg, now, steps, at, r, stage, NewToken(move.token));
    }
  }

  lemma AttestsAfterCall(cfg: Config, s: State, step: Step)
    requires !step.Handshake?
    ensures Apply(cfg, s, step).base == s.base
  {
    hide Called;
  }

  /** In every run, every attestation was brought to its stage by those steps. */
  lemma {:induction false} AttestHistory(cfg: Config, now: int, steps: seq<Step>, r: Rid) returns (at: seq<nat>)
    requires r in Run(cfg, Start(now), steps).base.attests
    ensures AttestCame(cfg, now, steps, at, r, Run(cfg, Start(now), steps).base.attests[r])
  {
    hide AttestCame, Moved, Called;
    var n := |steps| - 1;
    RunLast(cfg, now, steps);
    var s, step := Before(cfg, now, steps, n), steps[n];
    if !step.Handshake? {
      AttestsAfterCall(cfg, s, step);
    } else {
      AttestAfterMove(cfg, s.base, step.move, r);
    }
    if r in s.base.attests {
      at := AttestHistory(cfg, now, steps[..n], r);
      AttestIncreasing(cfg, now, steps[..n], at, r, s.base.attests[r]);
      AttestCameLater(cfg, now, steps, n, at, r, s.base.attests[r]);
      if Run(cfg, Start(now), steps).base.attests[r] != s.base.attests[r] {
        AttestStepCame(cfg, now, steps, at, r, s.base.attests[r]);
        at := at + [n];
      }
    } else {
      at := [n];
      ArrivedNow(cfg, s.base, step.move, r);
      ArriveCame(cfg, now, steps, r, step.move.cookie, step.move.body);
    }
  }

  lemma ArrivedNow(cfg: Config, b: Base, move: Move, r: Rid)
    requires move.AttestArrive? && move.rid == r
    ensures Moved(cfg, b, move) == Arrive(b, r, move.cookie, move.body)
  {
    hide Arrive;
  }

  // ----- tokens -----

  lemma VerifiedAfterMove(cfg: Config, b: Base, move: Move, id: Id)
    requires id in Moved(cfg, b, move).base.verified
    ensures var v := Moved(cfg, b, move).base.verified[id];
            || (id in b.verified && v == b.verified[id])
            || (&& move == CommitEnd(v.rid, v.token) && v.rid in b.attests && b.attests[v.rid] == Verifying(id, v.key, v.evidence)
                && v.rid in Moved(cfg, b, move).base.attests
                && Moved(cfg, b, move).base.attests[v.rid] == Finished(Some(id), NewToken(v.token)))
  {
    hide StartAuth, FailAuth, EndAuth, Arrive, Read, Begin, FailCommit, PurgeOne, Session.Attest;
  }

  /** The evidence that a session was attested on, read off the schedule: a message for that session and with its nonce
      was read before its timeout, while it was not attested and nobody held it; the commit section found it so; and the
      verify call on the message's evidence gave this token. */
  predicate VerifiedCame(cfg: Config, now: int, steps: seq<Step>, at: seq<nat>, id: Id, v: Verified) {
    && Increasing(at, |steps|) && |at| == 4
    && ReadsEvidence(cfg, now, steps, at, v.rid, id, v.key, v.evidence) && Begins(steps, at, v.rid)
    && (var found := Found(cfg, now, steps, at[2], id); found.Some? && found.value.Authed?)
    && Ends(steps, at, Handshake(CommitEnd(v.rid, v.token)))
  }

  lemma VerifiedCameLater(cfg: Config, now: int, steps: seq<Step>, n: nat, at: seq<nat>, id: Id, v: Verified)
    requires n <= |steps| && VerifiedCame(cfg, now, steps[..n], at, id, v)
    ensures VerifiedCame(cfg, now, steps, at, id, v)
  {
    hide ReadFor;
    BeforePrefix(cfg, now, steps, n, at[1]);
    BeforePrefix(cfg, now, steps, n, at[2]);
    hide Before;
  }

  lemma VerifiedNow(cfg: Config, now: int, steps: seq<Step>, at: seq<nat>, id: Id, v: Verified)
    requires steps != [] && steps[|steps| - 1] == Handshake(CommitEnd(v.rid, v.token))
    requires AttestCame(cfg, now, steps, at, v.rid, Verifying(id, v.key, v.evidence)) && Increasing(at, |steps| - 1)
    ensures VerifiedCame(cfg, now, steps, at + [|steps| - 1], id, v)
  {
    hide Before, ReadFor;
  }

  lemma {:induction false} VerifiedHistory(cfg: Config, now: int, steps: seq<Step>, id: Id) returns (at: seq<nat>)
    requires id in Run(cfg, Start(now), steps).base.verified
    ensures VerifiedCame(cfg, now, steps, at, id, Run(cfg, Start(now), steps).base.verified[id])
  {
    hide VerifiedCame, AttestCame, Moved, Called;
    var n := |steps| - 1;
    RunLast(cfg, now, steps);
    var s, step := Before(cfg, now, steps, n), steps[n];
    var v := Run(cfg, Start(now), steps).base.verified[id];
    if !step.Handshake? {
      AttestsAfterCall(cfg, s, step);
    } else {
      VerifiedAfterMove(cfg, s.base, step.move, id);
    }
    if id in s.base.verified && v == s.base.verified[id] {
      at := VerifiedHistory(cfg, now, steps[..n], id);
      VerifiedCameLater(cfg, now, steps, n, at, id, v);
    } else {
      at := AttestHistory(cfg, now, steps[..n], v.rid);
      AttestIncreasing(cfg, now, steps[..n], at, v.rid, s.base.attests[v.rid]);
      AttestCameLater(cfg, now, steps, n, at, v.rid, s.base.attests[v.rid]);
      VerifiedNow(cfg, now, steps, at, id, v);
      at := at + [n];
    }
  }

  /** The token of a session in every reachable state comes from such steps, after the authentication that opened it for
      the configured time. */
  lemma TokenHistory(cfg: Config, now: int, steps: seq<Step>, id: Id) returns (at: seq<nat>, v: Verified, opening: nat, a: Rid)
    requires var b := Run(cfg, Start(now), steps).base; id in b.sessions && b.sessions[id].Attested?
    ensures var b := Run(cfg, Start(now), steps).base;
            && VerifiedCame(cfg, now, steps, at, id, v) && v.token == b.sessions[id].token
            && opening < |steps| && id in b.openings
            && steps[opening] == Handshake(AuthEnd(a, id, b.openings[id].tee, b.openings[id].nonce))
            && b.sessions[id].timeout == Before(cfg, now, steps, opening).base.now + cfg.ttl
  {
    Reachable(cfg, now, steps);
    hide Run, History, LocksHeld, VerifiedCame;
    var b := Run(cfg, Start(now), steps).base;
    v := b.verified[id];
    at := VerifiedHistory(cfg, now, steps, id);
    opening, a := OpeningHistory(cfg, now, steps, id);
    hide Before;
  }
}
