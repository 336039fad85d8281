/** The broker's handlers as they change the session map and the metrics in place, one atomic section per method.
    Each method is a step of the machine: it takes a state that the object represents to the next state. */
module KbsBackend {
  import opened Wrappers
  import opened Json
  import opened Evidence
  import opened Kbs
  import opened KbsSafety
  import opened KbsRuns

  /** A parsed authentication request, and whether its protocol version is accepted. */
  datatype AuthRequest = AuthRequest(tee: Tee, accepted: bool)

  /** What becomes of an authentication. */
  function AuthMove(r: Rid, request: Option<AuthRequest>, challenge: Option<string>, id: Id): Move {
    if request.Some? && request.value.accepted && challenge.Some? then
      AuthEnd(r, id, request.value.tee, challenge.value)
    else AuthFail(r)
  }

  /** The sessions that a pass over the entries in `todo` keeps: the others, the held and the unexpired. */
  function Kept(sessions: map<Id, Session>, locks: map<Id, Rid>, now: int, todo: set<Id>): map<Id, Session> {
    map id | id in sessions && (id !in todo || id in locks || !sessions[id].Expired(now)) :: sessions[id]
  }

  /** What a handshake move makes of the shared state. */
  lemma MoveIs(cfg: Config, s: State, move: Move, e: Effect)
    requires e == Moved(cfg, s.base, move)
    ensures var t := Apply(cfg, s, Handshake(move)); t.base == e.base && t.counters == Kbs.Count(s.counters, e.metric)
  {
    hide Moved, Kbs.Count;
  }

  class Backend {
    var sessions: map<Id, Session>
    var locks: map<Id, Rid>
    var counters: Counters

    ghost predicate Represents(s: State)
      reads this
    {
      sessions == s.base.sessions && locks == s.base.locks && counters == s.counters
    }

    constructor (now: int)
      ensures Represents(Start(now))
    {
      sessions := map[];
      locks := map[];
      counters := Counters(0, 0, 0, 0, 0, 0, 0, 0, 0, 0, 0);
    }

    // ----- authentication -----

    method AuthBegin(ghost cfg: Config, ghost s: State, ghost r: Rid)
      requires Represents(s) && r !in s.base.auths
      modifies this`counters
      ensures Represents(Apply(cfg, s, Handshake(AuthStart(r))))
    {
      counters := counters.(authRequests := counters.authRequests + 1);
    }

    /** Open a session under a fresh id, or count an error. */
    method AuthFinish(cfg: Config, now: int, request: Option<AuthRequest>, challenge: Option<string>, id: Id,
                      ghost s: State, ghost r: Rid)
      returns (session: Option<Session>)
      requires Represents(s) && SessionsAgree(s.base) && now == s.base.now
      requires r in s.base.auths && s.base.auths[r].AuthInFlight? && id !in s.base.openings
      modifies this
      ensures Represents(Apply(cfg, s, Handshake(AuthMove(r, request, challenge, id))))
      ensures session.Some? <==> request.Some? && request.value.accepted && challenge.Some?
      ensures session.Some? ==> id in sessions && session.value == sessions[id]
    {
      MoveIs(cfg, s, AuthFail(r), FailAuth(s.base, r));
      if request.None? {
        counters := counters.(authErrors := counters.authErrors + 1);
        return None;
      }
      if !request.value.accepted {
        counters := counters.(authErrors := counters.authErrors + 1);
        return None;
      }
      if challenge.None? {
        counters := counters.(authErrors := counters.authErrors + 1);
        return None;
      }
      var opened_ := Authed(id, now + cfg.ttl, request.value.tee, challenge.value);
      MoveIs(cfg, s, AuthEnd(r, id, request.value.tee, challenge.value),
             EndAuth(cfg, s.base, r, id, request.value.tee, challenge.value));
      hide Apply;
      counters := counters.(authSuccesses := counters.authSuccesses + 1);
      if id !in sessions {
        sessions := sessions[id := opened_];
      }
      return Some(opened_);
    }

    // ----- attestation -----

    method Arrive(cookie: Option<Id>, body: Option<Attestation>, ghost cfg: Config, ghost s: State, ghost r: Rid)
      returns (stage: AttestStage)
      requires Represents(s) && r !in s.base.attests
      modifies this`counters
      ensures var t := Apply(cfg, s, Handshake(AttestArrive(r, cookie, body)));
              Represents(t) && r in t.base.attests && stage == t.base.attests[r]
    {
      counters := counters.(attestRequests := counters.attestRequests + 1);
      if cookie.None? {
        counters := counters.(attestErrors := counters.attestErrors + 1);
        return Finished(None, NoCookie);
      }
      if body.None? {
        counters := counters.(attestErrors := counters.attestErrors + 1);
        return Finished(cookie, Malformed);
      }
      return Waiting(cookie.value, body.value);
    }

    /** The read section and the evidence that follows from it, in the order the devices happen to be visited. */
    method ReadEntryOf(cfg: Config, now: int, r: Rid, id: Id, m: Attestation)
      returns (stage: AttestStage, ghost order: seq<Tee>)
      modifies this`counters
      ensures Devices(cfg.readAdditional, m).Some? ==> Lists(order, Devices(cfg.readAdditional, m).value)
      ensures var entry := if id in sessions then Some(sessions[id]) else None;
              var e := ReadEntry(cfg, now, entry, r, id, m, order);
              stage == e.stage && counters == Kbs.Count(old(counters), e.metric)
    {
      order := AnyOrder(cfg, m);
      if id !in sessions {
        counters := counters.(attestErrors := counters.attestErrors + 1);
        return Finished(Some(id), NoSession), order;
      }
      var session := sessions[id];
      if session.Expired(now) {
        return Finished(Some(id), SessionExpired), order;
      }
      if session.Attested? {
        return Finished(Some(id), OldToken(session.token)), order;
      }
      var evidence, visited := CollectEvidence(cfg.readAdditional, session.tee, session.nonce, m);
      match evidence
      case Ok(es) =>
        order := visited;
        ListsKeys(order, Devices(cfg.readAdditional, m).value);
        return Ready(id, m.teePubkey, es), order;
      case Err(NonceMismatch) =>
        return Finished(Some(id), WrongNonce), order;
      case Err(MalformedAdditional) =>
        counters := counters.(attestErrors := counters.attestErrors + 1);
        return Finished(Some(id), BadAdditional), order;
    }

    method ReadSection(cfg: Config, now: int, r: Rid, waiting: AttestStage, ghost s: State)
      returns (stage: AttestStage, ghost order: seq<Tee>)
      requires Represents(s) && now == s.base.now && r in s.base.attests && s.base.attests[r] == waiting
      requires waiting.Waiting? && waiting.id !in locks
      modifies this`counters
      ensures var t := Apply(cfg, s, Handshake(AttestRead(r, order)));
              Represents(t) && r in t.base.attests && stage == t.base.attests[r]
    {
      hide ReadEntry, Lists, Devices, Kbs.Count;
      stage, order := ReadEntryOf(cfg, now, r, waiting.id, waiting.message);
    }

    /** The commit section takes the entry, unless the session is gone or was attested meanwhile. */
    method CommitStart(r: Rid, ready: AttestStage, ghost cfg: Config, ghost s: State) returns (stage: AttestStage)
      requires Represents(s) && r in s.base.attests && s.base.attests[r] == ready && ready.Ready? && ready.id !in locks
      modifies this`locks, this`counters
      ensures var t := Apply(cfg, s, Handshake(CommitBegin(r)));
              Represents(t) && r in t.base.attests && stage == t.base.attests[r]
    {
      MoveIs(cfg, s, CommitBegin(r), Begin(s.base, r));
      hide Apply;
      if ready.id !in sessions {
        counters := counters.(attestErrors := counters.attestErrors + 1);
        return Finished(Some(ready.id), SessionGone);
      }
      if sessions[ready.id].Attested? {
        return Finished(Some(ready.id), Panicked);
      }
      locks := locks[ready.id := r];
      return Verifying(ready.id, ready.key, ready.evidence);
    }

    /** The verify call has returned: record its token, or count the failure; then release the entry. */
    method CommitFinish(r: Rid, verifying: AttestStage, result: Option<Token>, ghost cfg: Config, ghost s: State)
      returns (stage: AttestStage)
      requires Represents(s) && r in s.base.attests && s.base.attests[r] == verifying
      requires verifying.Verifying? && verifying.id in sessions
      modifies this
      ensures var t := Apply(cfg, s, Handshake(if result.Some? then CommitEnd(r, result.value) else CommitFail(r)));
              Represents(t) && r in t.base.attests && stage == t.base.attests[r]
    {
      var id := verifying.id;
      locks := locks - {id};
      MoveIs(cfg, s, CommitFail(r), FailCommit(s.base, r));
      if result.None? {
        counters := counters.(attestFailures := counters.attestFailures + 1);
        return Finished(Some(id), VerifyFailed);
      }
      MoveIs(cfg, s, CommitEnd(r, result.value), EndCommit(s.base, r, result.value));
      hide Apply;
      counters := counters.(attestSuccesses := counters.attestSuccesses + 1);
      match sessions[id] {
        case Authed(_, timeout, _, _) =>
          sessions := sessions[id := Attested(sessions[id].id, timeout, result.value)];
        case Attested(_, _, _) =>
          assert sessions[id := sessions[id]] == sessions;
      }
      return Finished(Some(id), NewToken(result.value));
    }

    // ----- purging -----

    /** One pass of the purger over the entries in `todo`.  Entries that are held are waited for: they are returned,
        for a pass after they have been released. */
    method Purge(now: int, todo: set<Id>, ghost cfg: Config, ghost s: State)
      returns (waiting: set<Id>, ghost visited: seq<Id>)
      requires Represents(s) && now == s.base.now
      modifies this`sessions
      ensures waiting == set id | id in todo && id in sessions && id in locks
      ensures forall id :: id in visited <==> id in todo
      ensures Represents(Run(cfg, s, PurgeSteps(visited)))
      ensures sessions == Kept(old(sessions), locks, now, todo)
    {
      visited := [];
      waiting := {};
      var left := todo;
      DroppedNone(s.base);
      hide Dropped;
      while left != {}
        invariant left <= todo && forall id :: id in visited <==> id in todo && id !in left
        invariant sessions == Dropped(s.base, visited)
        invariant forall id :: id in waiting <==> id in todo && id !in left && id in sessions && id in locks
        decreases left
      {
        var id :| id in left;
        PurgeNext(s.base, visited, id);
        left := left - {id};
        visited := visited + [id];
        if id in sessions {
          if id in locks {
            waiting := waiting + {id};
          } else if sessions[id].Expired(now) {
            sessions := sessions - {id};
          }
        }
      }
      DroppedIs(s.base, visited, todo);
      SweepIsPurges(cfg, s, visited);
    }

    // ----- plugin calls -----

    /** The token of an unexpired attested session, while nobody holds its entry. */
    method SessionTokenOf(now: int, cookie: Option<Id>) returns (token: Option<Token>)
      requires cookie.Some? ==> cookie.value !in locks
      ensures token.Some? <==>
              cookie.Some? && cookie.value in sessions && !sessions[cookie.value].Expired(now)
              && sessions[cookie.value].Attested?
      ensures token.Some? ==> token.value == sessions[cookie.value].token
    {
      if cookie.None? || cookie.value !in sessions {
        return None;
      }
      var session := sessions[cookie.value];
      if session.Expired(now) {
        return None;
      }
      if session.Authed? {
        return None;
      }
      return Some(session.token);
    }

    /** The token that a plugin call goes on with: the session's, or else the bearer token. */
    method FindToken(now: int, req: CallRequest, ghost cfg: Config, ghost s: State, ghost c: Rid)
      returns (stage: CallStage)
      requires Represents(s) && now == s.base.now && c in s.calls && s.calls[c] == LookingUp(req)
      requires req.cookie.Some? ==> req.cookie.value !in locks
      ensures var t := Apply(cfg, s, Call(c, Lookup)); Represents(t) && c in t.calls && stage == t.calls[c]
    {
      var token := SessionTokenOf(now, req.cookie);
      if token.Some? {
        return HaveToken(req, token.value, FromSession(req.cookie.value, now));
      }
      if req.bearer.None? {
        return Refused(req, NoTokenFound);
      }
      return HaveToken(req, req.bearer.value, FromBearer);
    }

    method PolicyStart(call: CallStage, ghost cfg: Config, ghost s: State, ghost c: Rid) returns (stage: CallStage)
      requires Represents(s) && c in s.calls && s.calls[c] == call && call.Judged? && call.phase.Checked?
      modifies this`counters
      ensures var t := Apply(cfg, s, Call(c, PolicyBegin)); Represents(t) && c in t.calls && stage == t.calls[c]
    {
      counters := counters.(policyEvals := counters.policyEvals + 1);
      return call.(phase := Deciding);
    }

    method PolicyFinish(call: CallStage, verdict: Option<bool>, ghost cfg: Config, ghost s: State, ghost c: Rid)
      returns (stage: CallStage)
      requires Represents(s) && c in s.calls && s.calls[c] == call && call.Judged? && call.phase.Deciding?
      modifies this`counters
      ensures var t := Apply(cfg, s, Call(c, PolicyEnd(verdict))); Represents(t) && c in t.calls && stage == t.calls[c]
    {
      if verdict.None? {
        counters := counters.(policyErrors := counters.policyErrors + 1);
        return Refused(call.req, PolicyBroken);
      }
      if !verdict.value {
        counters := counters.(policyViolations := counters.policyViolations + 1);
        return Refused(call.req, PolicyDenied);
      }
      counters := counters.(policyApprovals := counters.policyApprovals + 1);
      return call.(phase := Allowed);
    }
  }

  /** Some order of the additional evidence, for the cases in which none is visited. */
  lemma AnyOrder(cfg: Config, m: Attestation) returns (order: seq<Tee>)
    ensures Devices(cfg.readAdditional, m).Some? ==> Lists(order, Devices(cfg.readAdditional, m).value)
  {
    order := [];
    if Devices(cfg.readAdditional, m).Some? {
      order := Ordered(Devices(cfg.readAdditional, m).value.Keys);
      ListsKeys(order, Devices(cfg.readAdditional, m).value);
    }
  }

  lemma {:induction false} Ordered(keys: set<Tee>) returns (order: seq<Tee>)
    ensures Enumerates(order, keys)
  {
    order := [];
    if keys != {} {
      var t :| t in keys;
      order := Ordered(keys - {t});
      order := order + [t];
    }
  }

  lemma ListsKeys(order: seq<Tee>, devices: map<Tee, Json>)
    requires Enumerates(order, devices.Keys)
    ensures Lists(order, devices)
  {
  }

  // ----- a pass of the purger is a run of purge steps -----

  function PurgeSteps(ids: seq<Id>): (steps: seq<Step>)
    ensures |steps| == |ids|
  {
    seq(|ids|, i requires 0 <= i < |ids| => Handshake(Kbs.Purge(ids[i])))
  }

  function Dropped(b: Base, ids: seq<Id>): map<Id, Session> {
    map id | id in b.sessions && !(id in ids && id !in b.locks && b.sessions[id].Expired(b.now)) :: b.sessions[id]
  }

  lemma DroppedNone(b: Base)
    ensures Dropped(b, []) == b.sessions
  {
  }

  lemma DroppedIs(b: Base, ids: seq<Id>, todo: set<Id>)
    requires forall id :: id in ids <==> id in todo
    ensures Dropped(b, ids) == Kept(b.sessions, b.locks, b.now, todo)
  {
  }

  lemma PurgeNext(b: Base, ids: seq<Id>, id: Id)
    ensures var d := b.(sessions := Dropped(b, ids));
            PurgeOne(d, id) == Effect(b.(sessions := Dropped(b, ids + [id])), Uncounted, [])
  {
    var d := b.(sessions := Dropped(b, ids));
    assert forall k :: k in ids + [id] <==> k in ids || k == id;
    assert PurgeOne(d, id).base.sessions == Dropped(b, ids + [id]);
  }

  lemma {:induction false} SweepIsPurges(cfg: Config, s: State, ids: seq<Id>)
    ensures Run(cfg, s, PurgeSteps(ids)) == s.(base := s.base.(sessions := Dropped(s.base, ids)))
  {
    if ids == [] {
      assert PurgeSteps(ids) == [];
      DroppedNone(s.base);
    } else {
      var n := |ids| - 1;
      assert PurgeSteps(ids)[..n] == PurgeSteps(ids[..n]);
      SweepIsPurges(cfg, s, ids[..n]);
      PurgeNext(s.base, ids[..n], ids[n]);
      assert ids == ids[..n] + [ids[n]];
      hide PurgeOne, Dropped;
      assert s.trace + [] == s.trace;
      return;
    }
  }

  /** An expired session is gone for good once the purger has come to its entry with nobody holding it, at any point
      of any run. */
  lemma PurgedForGood(cfg: Config, now: int, before: seq<Step>, after: seq<Step>, id: Id)
    requires var b := Run(cfg, Start(now), before).base;
             id in b.sessions && b.sessions[id].Expired(b.now) && id !in b.locks
    ensures id !in Run(cfg, Start(now), before + [Handshake(Kbs.Purge(id))] + after).base.sessions
  {
    var purge := Handshake(Kbs.Purge(id));
    var s := Run(cfg, Start(now), before);
    Reachable(cfg, now, before);
    InvAgrees(s.base, s.trace);
    assert (before + [purge])[..|before|] == before;
    var t := Run(cfg, Start(now), before + [purge]);
    assert t == Apply(cfg, s, purge);
    assert id in t.base.openings && id !in t.base.sessions;
    hide Run, Apply;
    SessionLifeCycle(cfg, now, before + [purge], after, id);
  }
}
