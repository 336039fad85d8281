/** Encrypted replies reach the attester: the runs of the key broker together with the built-in attestation
    service and its EAR tokens. */
module KbsKeys {
  import opened Wrappers
  import opened Json
  import opened Evidence
  import opened Ear
  import opened AttestationService
  import opened TeeKey
  import opened KeyPath
  import opened Kbs
  import opened KbsSafety
  import opened KbsCalls

  /** What the steps of a run take from outside is what the built-in service and the token verifier return.
      Each verify call has its own policies, reference values and token fields; `open` gives the claims that a
      token was issued with. */
  predicate Faithful(envs: Rid -> Env, open: Token -> Json, e: Event) {
    && (e.VerifyReturned? ==> VerifySpec(envs(e.rid), e.evidence) == Ok(open(e.token)))
    && (e.TokenVerified? ==> open(e.token) == e.claims)
  }

  ghost predicate FaithfulRun(envs: Rid -> Env, open: Token -> Json, trace: seq<Event>) {
    forall i :: 0 <= i < |trace| ==> Faithful(envs, open, trace[i])
  }

  lemma AcceptedClaims(env: Env, es: seq<IndependentEvidence>, body: Json) returns (claims: seq<TeeClaims>)
    requires VerifySpec(env, es) == Ok(body)
    ensures Accepted(env, es, claims, body)
  {
    hide EvaluateAll, IssueSpec, Requests;
    claims := EvaluateAll(env, Requests(es)).value;
  }

  /** Both ends of a session token's way lie in the trace. */
  lemma TokenWay(b: Base, trace: seq<Event>, c: Rid, call: CallStage)
    requires call.Answered? && call.origin.FromSession? && OriginBacked(b, call.req, call.token, call.origin)
    requires InOrder(OriginPast(b, c, call.req, call.token, call.origin) + CallPast(c, call), trace)
    ensures var v := b.verified[call.origin.id];
            && VerifyReturned(v.rid, call.origin.id, v.evidence, call.token) in trace
            && TokenVerified(c, call.token, call.claims) in trace
  {
    var past := OriginPast(b, c, call.req, call.token, call.origin) + CallPast(c, call);
    var at := Positions(past, trace);
    hide InOrder;
    assert past[2] == trace[at[2]] && past[4] == trace[at[4]];
  }

  /** Over every run with the built-in service and its tokens, a reply that was encrypted for a session token is
      encrypted to the key of the attester whose evidence was verified in that session, exactly when the `cpu0`
      claim of that verify call reports its data; else the token itself held a bare key. */
  lemma SealedToAttester(cfg: Config, envs: Rid -> Env, open: Token -> Json, read: Json -> Option<Json>,
                         configured: seq<string>, now: int, steps: seq<Step>, c: Rid)
    returns (claims: seq<TeeClaims>, checks: seq<Check>)
    requires EncryptedForSession(Run(cfg, Start(now), steps), c)
    requires FaithfulRun(envs, open, Run(cfg, Start(now), steps).trace)
    requires NothingBeforeEar(configured, Run(cfg, Start(now), steps).calls[c].claims)
    requires TeesKeepNames(Run(cfg, Start(now), steps))
    requires forall j :: cfg.extractKey(j) == KeySpec(read, configured, j)
    ensures SealedTo(envs, read, Run(cfg, Start(now), steps), c, claims, checks)
  {
    ReachableCalls(cfg, now, steps);
    Reachable(cfg, now, steps);
    hide Run, InOrder, Shape, OriginPast, CallPast, KeySpec, NothingBeforeEar, VerifySpec, Accepted, Carries, Cpu0,
         ReportsData, BareKey, OwnName, AllChecked, AllClaims;
    var s := Run(cfg, Start(now), steps);
    var call := s.calls[c];
    assert CallBacked(cfg, s.base, s.trace, c, call);
    var v, o := s.base.verified[call.origin.id], s.base.openings[call.origin.id];
    assert VerifyBacked(s.base.openings, s.trace, call.origin.id, v);
    TokenWay(s.base, s.trace, c, call);
    hide CallsBacked, TraceRemembered, History, OriginBacked;
    FaithfulToken(envs, open, s.trace, v.rid, call.origin.id, v.evidence, call.token, c, call.claims);
    claims := AcceptedClaims(envs(v.rid), v.evidence, call.claims);
    checks := AcceptedChecks(envs(v.rid), v.evidence, claims, call.claims);
    KeyOfAccepted(envs(v.rid), read, configured, v.evidence, claims, call.claims, o.nonce, v.key);
  }

  predicate EncryptedForSession(s: State, c: Rid) {
    c in s.calls && s.calls[c].Answered? && s.calls[c].reply.Encrypted? && s.calls[c].origin.FromSession?
  }

  /** No TEE of verified evidence is named like a claim key. */
  ghost predicate TeesKeepNames(s: State) {
    forall id, e :: id in s.base.verified && e in s.base.verified[id].evidence ==> OwnName(e.tee)
  }

  /** The reply's key is the one that the verify call of the session leads to: the attester's if the `cpu0` claim
      reports its data, else the bare key of the token. */
  ghost predicate SealedTo(envs: Rid -> Env, read: Json -> Option<Json>, s: State, c: Rid, claims: seq<TeeClaims>,
                           checks: seq<Check>)
    requires EncryptedForSession(s, c)
  {
    var id := s.calls[c].origin.id;
    && id in s.base.openings && id in s.base.verified
    && var o, v := s.base.openings[id], s.base.verified[id];
       && Bound(v.evidence, o.tee, o.nonce, v.key)
       && Accepted(envs(v.rid), v.evidence, claims, s.calls[c].claims)
       && AllChecked(envs(v.rid), v.evidence, checks) && claims == AllClaims(checks)
       && var found := FoundKey(envs(v.rid).header, claims, v.key);
          found.Some? && read(found.value) == Some(s.calls[c].reply.key)
  }

  lemma FaithfulToken(envs: Rid -> Env, open: Token -> Json, trace: seq<Event>, r: Rid, id: Id,
                      es: seq<IndependentEvidence>, token: Token, c: Rid, claims: Json)
    requires FaithfulRun(envs, open, trace)
    requires VerifyReturned(r, id, es, token) in trace && TokenVerified(c, token, claims) in trace
    ensures VerifySpec(envs(r), es) == Ok(claims)
  {
    hide VerifySpec;
    var i :| 0 <= i < |trace| && trace[i] == VerifyReturned(r, id, es, token);
    var j :| 0 <= j < |trace| && trace[j] == TokenVerified(c, token, claims);
    assert Faithful(envs, open, trace[i]) && Faithful(envs, open, trace[j]);
  }
}
