/** Where the token and the key of a plugin call come from, over every run of the key broker. */
module KbsCalls {
  import opened Wrappers
  import opened Json
  import opened Evidence
  import opened Kbs
  import opened KbsSafety
  import opened KbsRuns

  // ----- the invariant -----

  /** A session token was looked up, no later than the session's timeout, in the session that a verify call had
      recorded it for; a bearer token is the request's own. */
  predicate OriginBacked(b: Base, req: CallRequest, token: Token, origin: Origin) {
    match origin
    case FromBearer => req.bearer == Some(token)
    case FromSession(id, at) =>
      && req.cookie == Some(id) && id in b.openings && id in b.verified
      && b.verified[id].token == token && at <= b.openings[id].timeout
  }

  function OriginPast(b: Base, c: Rid, req: CallRequest, token: Token, origin: Origin): seq<Event>
    requires OriginBacked(b, req, token, origin)
  {
    match origin
    case FromBearer => [BearerUsed(c, token)]
    case FromSession(id, at) =>
      var v := b.verified[id];
      [SessionOpened(id, b.openings[id]), ReadAuthed(v.rid, id, v.evidence),
       VerifyReturned(v.rid, id, v.evidence, token), LookedUp(c, id, token, at)]
  }

  predicate HasOrigin(call: CallStage) {
    call.HaveToken? || call.Judged? || call.Answered?
  }

  /** What happened after the lookup. */
  function CallPast(c: Rid, call: CallStage): seq<Event>
    requires HasOrigin(call)
  {
    match call
    case HaveToken(_, _, _) => []
    case Judged(req, token, _, claims, phase) =>
      if phase.Allowed? then [TokenVerified(c, token, claims), PolicyApproved(c, req.endpoint, claims)]
      else [TokenVerified(c, token, claims)]
    case Answered(req, token, _, claims, reply) =>
      [TokenVerified(c, token, claims), PolicyApproved(c, req.endpoint, claims), Invoked(c, req.endpoint)]
      + (if reply.Encrypted? then [Sealed(c, reply.key)] else [])
  }

  predicate KeyFromClaims(cfg: Config, call: CallStage) {
    call.Answered? && call.reply.Encrypted? ==> cfg.extractKey(call.claims) == Ok(call.reply.key)
  }

  predicate CallBacked(cfg: Config, b: Base, trace: seq<Event>, c: Rid, call: CallStage) {
    HasOrigin(call) ==>
      && OriginBacked(b, call.req, call.token, call.origin)
      && InOrder(OriginPast(b, c, call.req, call.token, call.origin) + CallPast(c, call), trace)
      && KeyFromClaims(cfg, call)
  }

  ghost predicate CallsBacked(cfg: Config, s: State) {
    forall c :: c in s.calls ==> CallBacked(cfg, s.base, s.trace, c, s.calls[c])
  }

  /** What the trace says of plugin invocations is what the calls remember. */
  predicate Remembered(calls: map<Rid, CallStage>, e: Event) {
    && (e.Invoked? ==> e.call in calls && calls[e.call].Answered? && calls[e.call].req.endpoint == e.endpoint)
    && (e.Sealed? ==> e.call in calls && calls[e.call].Answered? && calls[e.call].reply == Encrypted(e.key))
  }

  ghost predicate TraceRemembered(s: State) {
    forall i :: 0 <= i < |s.trace| ==> Remembered(s.calls, s.trace[i])
  }

  // ----- every step keeps it -----

  lemma CallBackedLater(cfg: Config, b: Base, d: Base, trace: seq<Event>, news: seq<Event>, c: Rid, call: CallStage)
    requires Grows(b, d) && CallBacked(cfg, b, trace, c, call)
    ensures CallBacked(cfg, d, trace + news, c, call)
  {
    hide InOrder, CallPast, KeyFromClaims;
    if HasOrigin(call) {
      InOrderLater(OriginPast(b, c, call.req, call.token, call.origin) + CallPast(c, call), trace, news);
    }
  }

  /** A call that goes on from its token keeps its past and adds to it. */
  lemma CallGoesOn(cfg: Config, b: Base, trace: seq<Event>, c: Rid, call: CallStage, next: CallStage, news: seq<Event>)
    requires CallBacked(cfg, b, trace, c, call) && HasOrigin(call) && HasOrigin(next)
    requires next.req == call.req && next.token == call.token && next.origin == call.origin
    requires CallPast(c, next) == CallPast(c, call) + news && |news| <= 2 && KeyFromClaims(cfg, next)
    ensures CallBacked(cfg, b, trace + news, c, next)
  {
    hide InOrder, CallPast, KeyFromClaims, OriginBacked;
    var past := OriginPast(b, c, call.req, call.token, call.origin) + CallPast(c, call);
    InOrderAppend(past, trace, news);
    assert past + news == OriginPast(b, c, call.req, call.token, call.origin) + (CallPast(c, call) + news);
  }

  lemma InOrderAppend(events: seq<Event>, trace: seq<Event>, news: seq<Event>)
    requires InOrder(events, trace) && |news| <= 2
    ensures InOrder(events + news, trace + news)
  {
    hide InOrder;
    if |news| == 0 {
      assert events + news == events && trace + news == trace;
    } else {
      NextInOrder(events, trace, news[0]);
      if |news| == 1 {
        assert news == [news[0]];
      } else {
        NextInOrder(events + [news[0]], trace + [news[0]], news[1]);
        assert events + [news[0]] + [news[1]] == events + news;
        assert trace + [news[0]] + [news[1]] == trace + news;
      }
    }
  }

  lemma LookUpBacked(cfg: Config, b: Base, trace: seq<Event>, c: Rid, req: CallRequest)
    requires Inv(b, trace) && LookUp(b, c, req).Some?
    ensures var e := LookUp(b, c, req).value; CallBacked(cfg, b, trace + e.news, c, e.stage)
  {
    hide InOrder, Bound;
    var e := LookUp(b, c, req).value;
    if e.stage.HaveToken? {
      assert e.stage.origin.FromSession? ==> VerifyBacked(b.openings, trace, e.stage.origin.id, b.verified[e.stage.origin.id]);
      hide Inv;
      if e.stage.origin.FromSession? {
        var id := e.stage.origin.id;
        var v := b.verified[id];
        var past := [SessionOpened(id, b.openings[id]), ReadAuthed(v.rid, id, v.evidence),
                     VerifyReturned(v.rid, id, v.evidence, v.token)];
        NextInOrder(past, trace, e.news[0]);
        assert past + [e.news[0]] == OriginPast(b, c, req, e.stage.token, e.stage.origin) + [];
      } else {
        NothingBefore(trace);
        NextInOrder([], trace, e.news[0]);
        assert [] + [e.news[0]] == OriginPast(b, c, req, e.stage.token, e.stage.origin) + [];
      }
    }
  }

  lemma NothingBefore(trace: seq<Event>)
    ensures InOrder([], trace)
  {
  }

  lemma CallMoveBacked(cfg: Config, b: Base, trace: seq<Event>, c: Rid, call: CallStage, move: CallMove)
    requires Inv(b, trace) && CallBacked(cfg, b, trace, c, call) && Called(cfg, b, c, call, move).Some?
    ensures var e := Called(cfg, b, c, call, move).value; CallBacked(cfg, b, trace + e.news, c, e.stage)
  {
    hide InOrder, OriginBacked, LookUp, Inv, CallBacked;
    var e := Called(cfg, b, c, call, move).value;
    if move.Lookup? {
      LookUpBacked(cfg, b, trace, c, call.req);
    } else if HasOrigin(e.stage) {
      CallGoesOn(cfg, b, trace, c, call, e.stage, e.news);
    } else {
      RefusedBacked(cfg, b, trace + e.news, c, e.stage);
    }
  }

  lemma RefusedBacked(cfg: Config, b: Base, trace: seq<Event>, c: Rid, call: CallStage)
    requires !HasOrigin(call)
    ensures CallBacked(cfg, b, trace, c, call)
  {
  }

  lemma StepKeepsCalls(cfg: Config, s: State, step: Step)
    requires Inv(s.base, s.trace) && CallsBacked(cfg, s)
    ensures CallsBacked(cfg, Apply(cfg, s, step))
  {
    StepAdvances(cfg, s, step);
    hide Inv, Moved, Called, CallBacked;
    var t := Apply(cfg, s, step);
    var news := NewsOf(cfg, s, step);
    forall c | c in t.calls
      ensures CallBacked(cfg, t.base, t.trace, c, t.calls[c])
    {
      if c in s.calls && t.calls[c] == s.calls[c] {
        CallBackedLater(cfg, s.base, t.base, s.trace, news, c, s.calls[c]);
      } else if step.CallStart? {
        RefusedBacked(cfg, t.base, t.trace, c, t.calls[c]);
      } else {
        CallMoveBacked(cfg, s.base, s.trace, c, s.calls[c], step.next);
      }
    }
  }

  /** The events of one step. */
  lemma NewsOf(cfg: Config, s: State, step: Step) returns (news: seq<Event>)
    ensures Apply(cfg, s, step).trace == s.trace + news
  {
    hide Moved, Called;
    news := [];
    assert s.trace + [] == s.trace;
    if step.Handshake? {
      news := Moved(cfg, s.base, step.move).news;
    } else if step.Call? && step.call in s.calls {
      var e := Called(cfg, s.base, step.call, s.calls[step.call], step.next);
      if e.Some? {
        news := e.value.news;
      }
    }
  }

  /** Handshake moves say nothing of plugins. */
  lemma HandshakeSilent(cfg: Config, b: Base, move: Move)
    ensures forall i :: 0 <= i < |Moved(cfg, b, move).news| ==>
              var e := Moved(cfg, b, move).news[i]; !e.Invoked? && !e.Sealed?
  {
    hide EvidenceList, Devices, Lists, Session.Attest;
  }

  lemma CallRemembered(cfg: Config, b: Base, c: Rid, calls: map<Rid, CallStage>, move: CallMove)
    requires c in calls && Called(cfg, b, c, calls[c], move).Some?
    ensures !calls[c].Answered?
    ensures var e := Called(cfg, b, c, calls[c], move).value;
            forall i :: 0 <= i < |e.news| ==> Remembered(calls[c := e.stage], e.news[i])
  {
    hide SessionToken;
  }

  lemma StepKeepsTrace(cfg: Config, s: State, step: Step)
    requires TraceRemembered(s)
    ensures TraceRemembered(Apply(cfg, s, step))
  {
    hide Moved, Called;
    match step
    case Handshake(move) => HandshakeSilent(cfg, s.base, move);
    case CallStart(_, _) =>
    case Call(c, move) =>
      if c in s.calls && Called(cfg, s.base, c, s.calls[c], move).Some? {
        CallRemembered(cfg, s.base, c, s.calls, move);
        var t := Apply(cfg, s, step);
        forall i | 0 <= i < |s.trace| ensures Remembered(t.calls, s.trace[i]) {
          assert Remembered(s.calls, s.trace[i]);
        }
      }
  }

  lemma {:induction false} ReachableCalls(cfg: Config, now: int, steps: seq<Step>)
    ensures var s := Run(cfg, Start(now), steps); CallsBacked(cfg, s) && TraceRemembered(s)
  {
    hide Apply, CallBacked, Remembered, Inv;
    if steps != [] {
      hide CallsBacked, TraceRemembered;
      var n := |steps| - 1;
      var s := Run(cfg, Start(now), steps[..n]);
      ReachableCalls(cfg, now, steps[..n]);
      Reachable(cfg, now, steps[..n]);
      StepKeepsCalls(cfg, s, steps[n]);
      StepKeepsTrace(cfg, s, steps[n]);
      return;
    }
  }

  /** Over every run, a plugin that was called outside the admin path was called for a token that was verified and
      approved by the policy for that same endpoint, in this order.  A session's token had been returned by a
      verify call on evidence for that session and was looked up before the session's timeout.  A reply that was
      encrypted uses the key from those same claims. */
  lemma PluginCallProvenance(cfg: Config, now: int, steps: seq<Step>, i: nat)
    requires i < |Run(cfg, Start(now), steps).trace| && Run(cfg, Start(now), steps).trace[i].Invoked?
    ensures var s := Run(cfg, Start(now), steps); var c := s.trace[i].call;
            && c in s.calls && s.calls[c].Answered? && s.calls[c].req.endpoint == s.trace[i].endpoint
            && var call := s.calls[c];
               && OriginBacked(s.base, call.req, call.token, call.origin)
               && InOrder(OriginPast(s.base, c, call.req, call.token, call.origin) + CallPast(c, call), s.trace)
               && KeyFromClaims(cfg, call)
               && (call.origin.FromSession? ==>
                     var o, v := s.base.openings[call.origin.id], s.base.verified[call.origin.id];
                     Bound(v.evidence, o.tee, o.nonce, v.key))
  {
    ReachableCalls(cfg, now, steps);
    Reachable(cfg, now, steps);
    hide Run, InOrder, Bound, Shape, OriginPast, CallPast;
    var s := Run(cfg, Start(now), steps);
    var c := s.trace[i].call;
    assert Remembered(s.calls, s.trace[i]);
    assert CallBacked(cfg, s.base, s.trace, c, s.calls[c]);
    if s.calls[c].origin.FromSession? {
      var id := s.calls[c].origin.id;
      assert VerifyBacked(s.base.openings, s.trace, id, s.base.verified[id]);
    }
  }
}
