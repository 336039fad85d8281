/** The purger cannot be seen through token lookups: a run and the same run without its purge steps. */
module KbsPurge {
  import opened Wrappers
  import opened Json
  import opened Evidence
  import opened Kbs
  import opened KbsSafety
  import opened KbsRuns

  /** A session that was opened and has expired, whether or not it has been purged. */
  predicate Stale(b: Base, id: Id) {
    id in b.openings && b.openings[id].timeout < b.now
  }

  predicate SameEntry(b: Base, d: Base, id: Id) {
    Entry(b, id) == Entry(d, id) && (id in b.locks <==> id in d.locks)
  }

  predicate SameStage(b: Base, x: AttestStage, y: AttestStage) {
    x == y || (Target(x) == Target(y) && Target(x).Some? && Stale(b, Target(x).value))
  }

  /** Two states that agree on everything but stale sessions and the requests about them. */
  ghost predicate Alike(b: Base, d: Base) {
    && b.now == d.now && b.auths == d.auths && b.openings == d.openings
    && (forall id :: !Stale(b, id) ==> SameEntry(b, d, id))
    && b.attests.Keys == d.attests.Keys
    && (forall r :: r in b.attests ==> SameStage(b, b.attests[r], d.attests[r]))
  }

  // ----- moves of one request -----

  predicate OfRequest(move: Move) {
    move.AttestRead? || move.CommitBegin? || move.CommitFail? || move.CommitEnd?
  }

  /** Only request `r` and the entry of its session may differ, and `r` stays about that session. */
  ghost predicate Touches(b: Base, d: Base, r: Rid, id: Id) {
    && d.now == b.now && d.auths == b.auths && d.openings == b.openings
    && (forall k :: k != id ==> SameEntry(b, d, k))
    && r in b.attests && r in d.attests && d.attests == b.attests[r := d.attests[r]]
    && Target(d.attests[r]) == Some(id)
  }

  lemma ReadTouches(cfg: Config, b: Base, r: Rid, order: seq<Tee>, id: Id)
    requires r in b.attests && Target(b.attests[r]) == Some(id)
    ensures Touches(b, Read(cfg, b, r, order).base, r, id)
  {
    hide ReadEntry, Devices, Lists;
  }

  lemma BeginTouches(b: Base, r: Rid, id: Id)
    requires r in b.attests && Target(b.attests[r]) == Some(id)
    ensures Touches(b, Begin(b, r).base, r, id)
  {
    hide BeginEntry;
  }

  lemma FailCommitTouches(b: Base, r: Rid, id: Id)
    requires r in b.attests && Target(b.attests[r]) == Some(id)
    ensures Touches(b, FailCommit(b, r).base, r, id)
  {
  }

  lemma EndCommitTouches(b: Base, r: Rid, token: Token, id: Id)
    requires r in b.attests && Target(b.attests[r]) == Some(id)
    ensures Touches(b, EndCommit(b, r, token).base, r, id)
  {
    hide Session.Attest;
  }

  lemma MoveTouches(cfg: Config, b: Base, move: Move, id: Id)
    requires OfRequest(move) && move.rid in b.attests && Target(b.attests[move.rid]) == Some(id)
    ensures Touches(b, Moved(cfg, b, move).base, move.rid, id)
  {
    hide Touches, Read, Begin, FailCommit, EndCommit;
    match move
    case AttestRead(r, order) => ReadTouches(cfg, b, r, order, id);
    case CommitBegin(r) => BeginTouches(b, r, id);
    case CommitFail(r) => FailCommitTouches(b, r, id);
    case CommitEnd(r, token) => EndCommitTouches(b, r, token, id);
  }

  /** Two states give a request the same view: its stage, its session's entry and the clock. */
  predicate SameView(b: Base, d: Base, r: Rid, id: Id) {
    && b.now == d.now && r in b.attests && r in d.attests && b.attests[r] == d.attests[r]
    && Target(b.attests[r]) == Some(id) && SameEntry(b, d, id)
  }

  lemma ReadAgrees(cfg: Config, b: Base, d: Base, r: Rid, order: seq<Tee>, id: Id)
    requires SameView(b, d, r, id)
    ensures SameView(Read(cfg, b, r, order).base, Read(cfg, d, r, order).base, r, id)
  {
    hide ReadEntry, Devices, Lists;
  }

  lemma BeginOutcome(b: Base, r: Rid, id: Id)
    requires CanBegin(b, r) && b.attests[r].id == id
    ensures var e := BeginEntry(Entry(b, id), id, b.attests[r].key, b.attests[r].evidence);
            var x := Begin(b, r).base;
            && x.now == b.now && Entry(x, id) == Entry(b, id)
            && r in x.attests && x.attests[r] == e.stage && Target(e.stage) == Some(id)
            && (id in x.locks <==> e.stage.Verifying?)
  {
    hide BeginEntry;
  }

  lemma BeginAgrees(b: Base, d: Base, r: Rid, id: Id)
    requires SameView(b, d, r, id)
    ensures SameView(Begin(b, r).base, Begin(d, r).base, r, id)
  {
    hide BeginEntry, Entry;
    if CanBegin(b, r) {
      BeginOutcome(b, r, id);
      BeginOutcome(d, r, id);
      hide Begin, Target;
      return;
    }
  }

  lemma FailCommitAgrees(b: Base, d: Base, r: Rid, id: Id)
    requires SameView(b, d, r, id)
    ensures SameView(FailCommit(b, r).base, FailCommit(d, r).base, r, id)
  {
  }

  lemma EndCommitAgrees(b: Base, d: Base, r: Rid, token: Token, id: Id)
    requires SameView(b, d, r, id)
    ensures SameView(EndCommit(b, r, token).base, EndCommit(d, r, token).base, r, id)
  {
    hide Session.Attest;
  }

  /** A request's move depends on its view alone. */
  lemma MoveAgrees(cfg: Config, b: Base, d: Base, move: Move, id: Id)
    requires OfRequest(move) && SameView(b, d, move.rid, id)
    ensures SameView(Moved(cfg, b, move).base, Moved(cfg, d, move).base, move.rid, id)
  {
    hide SameView, Read, Begin, FailCommit, EndCommit;
    match move
    case AttestRead(r, order) => ReadAgrees(cfg, b, d, r, order, id);
    case CommitBegin(r) => BeginAgrees(b, d, r, id);
    case CommitFail(r) => FailCommitAgrees(b, d, r, id);
    case CommitEnd(r, token) => EndCommitAgrees(b, d, r, token, id);
  }

  // ----- alike states stay alike -----

  lemma RequestKeepsAlike(cfg: Config, b: Base, d: Base, move: Move)
    requires Alike(b, d) && OfRequest(move)
    ensures Alike(Moved(cfg, b, move).base, Moved(cfg, d, move).base)
  {
    hide Moved, SameEntry;
    var r := move.rid;
    if r !in b.attests {
      UnknownStays(cfg, b, move);
      UnknownStays(cfg, d, move);
      return;
    }
    assert SameStage(b, b.attests[r], d.attests[r]);
    if Target(b.attests[r]).None? {
      FinishedStays(cfg, b, move);
      FinishedStays(cfg, d, move);
    } else {
      var id := Target(b.attests[r]).value;
      MoveTouches(cfg, b, move, id);
      MoveTouches(cfg, d, move, id);
      if !Stale(b, id) {
        MoveAgrees(cfg, b, d, move, id);
      }
      TouchedAlike(b, d, Moved(cfg, b, move).base, Moved(cfg, d, move).base, r, id);
    }
  }

  lemma FinishedStays(cfg: Config, b: Base, move: Move)
    requires OfRequest(move) && move.rid in b.attests && b.attests[move.rid].Finished?
    ensures Moved(cfg, b, move).base == b
  {
  }

  lemma TouchedAlike(b: Base, d: Base, x: Base, y: Base, r: Rid, id: Id)
    requires Alike(b, d) && Touches(b, x, r, id) && Touches(d, y, r, id)
    requires !Stale(b, id) ==> SameEntry(x, y, id) && x.attests[r] == y.attests[r]
    ensures Alike(x, y)
  {
    hide Target;
    forall k | !Stale(x, k)
      ensures SameEntry(x, y, k)
    {
      assert SameEntry(b, d, k) && (k != id ==> SameEntry(b, x, k) && SameEntry(d, y, k));
    }
    forall q | q in x.attests
      ensures SameStage(x, x.attests[q], y.attests[q])
    {
      assert q in b.attests && SameStage(b, b.attests[q], d.attests[q]);
    }
  }

  lemma OpenKeepsAlike(cfg: Config, b: Base, d: Base, r: Rid, id: Id, tee: Tee, nonce: string)
    requires Alike(b, d) && SessionsAgree(b) && SessionsAgree(d)
    ensures Alike(EndAuth(cfg, b, r, id, tee, nonce).base, EndAuth(cfg, d, r, id, tee, nonce).base)
  {
    hide AgreesWith, Target;
    var x, y := EndAuth(cfg, b, r, id, tee, nonce).base, EndAuth(cfg, d, r, id, tee, nonce).base;
    if r in b.auths && b.auths[r].AuthInFlight? && id !in b.openings {
      forall k | !Stale(x, k)
        ensures SameEntry(x, y, k)
      {
        assert SameEntry(b, d, k);
      }
      forall q | q in x.attests
        ensures SameStage(x, x.attests[q], y.attests[q])
      {
        assert SameStage(b, b.attests[q], d.attests[q]);
      }
    }
  }

  lemma NewRequestAlike(b: Base, d: Base, r: Rid, stage: AttestStage)
    requires Alike(b, d) && r !in b.attests
    ensures Alike(b.(attests := b.attests[r := stage]), d.(attests := d.attests[r := stage]))
  {
    hide Target;
    var x, y := b.(attests := b.attests[r := stage]), d.(attests := d.attests[r := stage]);
    forall k | !Stale(x, k) ensures SameEntry(x, y, k) {
      assert SameEntry(b, d, k);
    }
    forall q | q in x.attests ensures SameStage(x, x.attests[q], y.attests[q]) {
      assert q in b.attests ==> SameStage(b, b.attests[q], d.attests[q]);
    }
  }

  lemma ArriveKeepsAlike(b: Base, d: Base, r: Rid, cookie: Option<Id>, body: Option<Attestation>)
    requires Alike(b, d)
    ensures Alike(Arrive(b, r, cookie, body).base, Arrive(d, r, cookie, body).base)
  {
    assert r in b.attests <==> r in d.attests;
    hide Alike;
    if r !in b.attests {
      NewRequestAlike(b, d, r, Arrive(b, r, cookie, body).base.attests[r]);
    }
  }

  lemma TickKeepsAlike(b: Base, d: Base, elapsed: nat)
    requires Alike(b, d)
    ensures Alike(b.(now := b.now + elapsed), d.(now := d.now + elapsed))
  {
    hide Target;
    var x, y := b.(now := b.now + elapsed), d.(now := d.now + elapsed);
    forall k | !Stale(x, k) ensures SameEntry(x, y, k) {
      assert SameEntry(b, d, k);
    }
    forall q | q in x.attests ensures SameStage(x, x.attests[q], y.attests[q]) {
      assert SameStage(b, b.attests[q], d.attests[q]);
    }
  }

  lemma AuthKeepsAlike(b: Base, d: Base, auths: map<Rid, AuthStage>)
    requires Alike(b, d)
    ensures Alike(b.(auths := auths), d.(auths := auths))
  {
    hide Target;
    var x, y := b.(auths := auths), d.(auths := auths);
    forall k | !Stale(x, k) ensures SameEntry(x, y, k) {
      assert SameEntry(b, d, k);
    }
    forall q | q in x.attests ensures SameStage(x, x.attests[q], y.attests[q]) {
      assert SameStage(b, b.attests[q], d.attests[q]);
    }
  }

  lemma MoveKeepsAlike(cfg: Config, b: Base, d: Base, move: Move)
    requires Alike(b, d) && SessionsAgree(b) && SessionsAgree(d) && !move.Purge?
    ensures Alike(Moved(cfg, b, move).base, Moved(cfg, d, move).base)
  {
    hide SessionsAgree, EndAuth, Arrive, Read, Begin, FailCommit, EndCommit;
    match move
    case AuthStart(r) => AuthKeepsAlike(b, d, StartAuth(b, r).base.auths);
    case AuthFail(r) => AuthKeepsAlike(b, d, FailAuth(b, r).base.auths);
    case AuthEnd(r, id, tee, nonce) => OpenKeepsAlike(cfg, b, d, r, id, tee, nonce);
    case AttestArrive(r, cookie, body) => ArriveKeepsAlike(b, d, r, cookie, body);
    case Tick(elapsed) => TickKeepsAlike(b, d, elapsed);
    case AttestRead(_, _) => RequestKeepsAlike(cfg, b, d, move);
    case CommitBegin(_) => RequestKeepsAlike(cfg, b, d, move);
    case CommitFail(_) => RequestKeepsAlike(cfg, b, d, move);
    case CommitEnd(_, _) => RequestKeepsAlike(cfg, b, d, move);
  }

  lemma UnknownStays(cfg: Config, b: Base, move: Move)
    requires OfRequest(move) && move.rid !in b.attests
    ensures Moved(cfg, b, move).base == b
  {
  }

  /** A purge on one side only. */
  lemma PurgeKeepsAlike(b: Base, d: Base, id: Id)
    requires Alike(b, d) && SessionsAgree(b)
    ensures Alike(PurgeOne(b, id).base, d)
  {
    hide Target;
    var x := PurgeOne(b, id).base;
    assert id in b.sessions ==> AgreesWith(id, b.sessions[id], b.openings[id]);
    forall k | !Stale(x, k) ensures SameEntry(x, d, k) {
      assert SameEntry(b, d, k);
    }
    forall q | q in x.attests ensures SameStage(x, x.attests[q], d.attests[q]) {
      assert SameStage(b, b.attests[q], d.attests[q]);
    }
  }

  // ----- calls -----

  predicate NoSessionToken(call: CallStage) {
    call.LookingUp? || call.Refused? || call.origin.FromBearer?
  }

  /** Two calls are the same, or both go without a session token because the session is stale. */
  predicate SameCall(b: Base, x: CallStage, y: CallStage) {
    x == y || (x.req == y.req && x.req.cookie.Some? && Stale(b, x.req.cookie.value)
               && NoSessionToken(x) && NoSessionToken(y))
  }

  ghost predicate AlikeCalls(b: Base, x: map<Rid, CallStage>, y: map<Rid, CallStage>) {
    x.Keys == y.Keys && forall c :: c in x ==> SameCall(b, x[c], y[c])
  }

  /** The successful lookups of session tokens, in order. */
  function Lookups(trace: seq<Event>): seq<Event> {
    if trace == [] then []
    else
      var n := |trace| - 1;
      Lookups(trace[..n]) + (if trace[n].LookedUp? then [trace[n]] else [])
  }

  lemma {:induction false} LookupsAppend(trace: seq<Event>, news: seq<Event>)
    ensures Lookups(trace + news) == Lookups(trace) + Lookups(news)
  {
    if news == [] {
      assert trace + news == trace;
    } else {
      var n := |news| - 1;
      assert (trace + news)[..|trace + news| - 1] == trace + news[..n];
      LookupsAppend(trace, news[..n]);
    }
  }

  lemma {:induction false} NoLookups(news: seq<Event>)
    requires forall i :: 0 <= i < |news| ==> !news[i].LookedUp?
    ensures Lookups(news) == []
  {
    if news != [] {
      NoLookups(news[..|news| - 1]);
    }
  }

  lemma StaleHasNoToken(b: Base, id: Id)
    requires SessionsAgree(b) && Stale(b, id)
    ensures SessionToken(b, id).None?
  {
  }

  /** A call for a stale session goes on without a session token. */
  lemma StaleCallMoves(cfg: Config, b: Base, c: Rid, call: CallStage, move: CallMove)
    requires SessionsAgree(b) && NoSessionToken(call) && call.req.cookie.Some? && Stale(b, call.req.cookie.value)
    ensures var e := Called(cfg, b, c, call, move);
            e.Some? ==> && NoSessionToken(e.value.stage) && e.value.stage.req == call.req
                        && Lookups(e.value.news) == []
  {
    StaleHasNoToken(b, call.req.cookie.value);
    hide SessionsAgree, SessionToken, Lookups;
    var e := Called(cfg, b, c, call, move);
    if e.Some? {
      NoLookups(e.value.news);
    }
  }

  lemma SameLookUp(b: Base, d: Base, c: Rid, req: CallRequest)
    requires Alike(b, d) && !(req.cookie.Some? && Stale(b, req.cookie.value))
    ensures LookUp(b, c, req) == LookUp(d, c, req)
  {
    if req.cookie.Some? {
      assert SameEntry(b, d, req.cookie.value);
    }
  }

  /** The same call makes the same move, unless its session is stale. */
  lemma SameCallMoves(cfg: Config, b: Base, d: Base, c: Rid, call: CallStage, move: CallMove)
    requires Alike(b, d)
    requires !(move.Lookup? && call.LookingUp? && call.req.cookie.Some? && Stale(b, call.req.cookie.value))
    ensures Called(cfg, b, c, call, move) == Called(cfg, d, c, call, move)
  {
    hide LookUp, Alike;
    if move.Lookup? && call.LookingUp? {
      SameLookUp(b, d, c, call.req);
    }
  }

  // ----- runs -----

  ghost predicate AlikeStates(s: State, u: State) {
    && Alike(s.base, u.base) && AlikeCalls(s.base, s.calls, u.calls)
    && Lookups(s.trace) == Lookups(u.trace)
  }

  lemma StaleLater(b: Base, d: Base, id: Id)
    requires Stale(b, id) && Advances(b, d)
    ensures Stale(d, id)
  {
    hide Later;
  }

  lemma CallsStayAlike(b: Base, d: Base, x: map<Rid, CallStage>, y: map<Rid, CallStage>)
    requires AlikeCalls(b, x, y) && Advances(b, d)
    ensures AlikeCalls(d, x, y)
  {
    hide Advances, Stale;
    forall c | c in x ensures SameCall(d, x[c], y[c]) {
      assert SameCall(b, x[c], y[c]);
      if x[c] != y[c] {
        StaleLater(b, d, x[c].req.cookie.value);
      }
    }
  }

  /** Handshake moves look nothing up. */
  lemma MovesLookNothingUp(cfg: Config, b: Base, move: Move)
    ensures Lookups(Moved(cfg, b, move).news) == []
  {
    hide Lookups, Devices, Lists, EvidenceList, Session.Attest;
    NoLookups(Moved(cfg, b, move).news);
  }

  lemma HandshakeAlike(cfg: Config, s: State, u: State, move: Move)
    requires AlikeStates(s, u) && Inv(s.base, s.trace) && Inv(u.base, u.trace) && !move.Purge?
    ensures AlikeStates(Apply(cfg, s, Handshake(move)), Apply(cfg, u, Handshake(move)))
  {
    InvAgrees(s.base, s.trace);
    InvAgrees(u.base, u.trace);
    MoveAdvances(cfg, s.base, s.trace, move);
    hide Inv, Moved, Alike, AlikeCalls, Advances, Lookups, SessionsAgree;
    MoveKeepsAlike(cfg, s.base, u.base, move);
    CallsStayAlike(s.base, Moved(cfg, s.base, move).base, s.calls, u.calls);
    MovesLookNothingUp(cfg, s.base, move);
    MovesLookNothingUp(cfg, u.base, move);
    LookupsAppend(s.trace, Moved(cfg, s.base, move).news);
    LookupsAppend(u.trace, Moved(cfg, u.base, move).news);
  }

  lemma PurgeAlike(cfg: Config, s: State, u: State, id: Id)
    requires AlikeStates(s, u) && Inv(s.base, s.trace)
    ensures AlikeStates(Apply(cfg, s, Handshake(Purge(id))), u)
  {
    InvAgrees(s.base, s.trace);
    MoveAdvances(cfg, s.base, s.trace, Purge(id));
    hide Inv, PurgeOne, Alike, AlikeCalls, Advances, Lookups, SessionsAgree;
    PurgeKeepsAlike(s.base, u.base, id);
    CallsStayAlike(s.base, PurgeOne(s.base, id).base, s.calls, u.calls);
    MovesLookNothingUp(cfg, s.base, Purge(id));
    LookupsAppend(s.trace, Moved(cfg, s.base, Purge(id)).news);
  }

  /** What a call's move makes of its stage and of the lookups. */
  function StageAfter(call: CallStage, e: Option<CallEffect>): CallStage {
    if e.None? then call else e.value.stage
  }

  function LookupsOf(e: Option<CallEffect>): seq<Event> {
    if e.None? then [] else Lookups(e.value.news)
  }

  lemma CallMoveAlike(cfg: Config, b: Base, d: Base, c: Rid, x: CallStage, y: CallStage, move: CallMove)
    requires Alike(b, d) && SessionsAgree(b) && SessionsAgree(d) && SameCall(b, x, y)
    ensures var e, f := Called(cfg, b, c, x, move), Called(cfg, d, c, y, move);
            SameCall(b, StageAfter(x, e), StageAfter(y, f)) && LookupsOf(e) == LookupsOf(f)
  {
    assert forall id :: Stale(b, id) <==> Stale(d, id);
    hide Called, Alike, SessionsAgree, Lookups, Stale;
    if x == y && !(move.Lookup? && x.LookingUp? && x.req.cookie.Some? && Stale(b, x.req.cookie.value)) {
      SameCallMoves(cfg, b, d, c, x, move);
    } else {
      StaleCallMoves(cfg, b, c, x, move);
      StaleCallMoves(cfg, d, c, y, move);
    }
  }

  lemma CallAfter(cfg: Config, s: State, c: Rid, move: CallMove)
    requires c in s.calls
    ensures var e := Called(cfg, s.base, c, s.calls[c], move); var t := Apply(cfg, s, Call(c, move));
            && t.base == s.base && t.calls == s.calls[c := StageAfter(s.calls[c], e)]
            && Lookups(t.trace) == Lookups(s.trace) + LookupsOf(e)
  {
    hide Called, Lookups;
    var e := Called(cfg, s.base, c, s.calls[c], move);
    if e.None? {
      assert s.calls[c := s.calls[c]] == s.calls;
    } else {
      LookupsAppend(s.trace, e.value.news);
    }
  }

  lemma UpdateAlike(b: Base, x: map<Rid, CallStage>, y: map<Rid, CallStage>, c: Rid, p: CallStage, q: CallStage)
    requires AlikeCalls(b, x, y) && SameCall(b, p, q)
    ensures AlikeCalls(b, x[c := p], y[c := q])
  {
    hide SameCall;
  }

  lemma CallAlike(cfg: Config, s: State, u: State, c: Rid, move: CallMove)
    requires AlikeStates(s, u) && SessionsAgree(s.base) && SessionsAgree(u.base)
    ensures AlikeStates(Apply(cfg, s, Call(c, move)), Apply(cfg, u, Call(c, move)))
  {
    if c in s.calls {
      CallAfter(cfg, s, c, move);
      CallAfter(cfg, u, c, move);
      CallMoveAlike(cfg, s.base, u.base, c, s.calls[c], u.calls[c], move);
      hide Apply, Called, Alike, AlikeCalls, SessionsAgree, Lookups, SameCall, StageAfter, LookupsOf;
      UpdateAlike(s.base, s.calls, u.calls, c,
                  StageAfter(s.calls[c], Called(cfg, s.base, c, s.calls[c], move)),
                  StageAfter(u.calls[c], Called(cfg, u.base, c, u.calls[c], move)));
      return;
    }
  }

  lemma StartCallAlike(cfg: Config, s: State, u: State, c: Rid, req: CallRequest)
    requires AlikeStates(s, u)
    ensures AlikeStates(Apply(cfg, s, CallStart(c, req)), Apply(cfg, u, CallStart(c, req)))
  {
    hide Alike, Lookups;
  }

  lemma StepAlike(cfg: Config, s: State, u: State, step: Step)
    requires AlikeStates(s, u) && Inv(s.base, s.trace) && Inv(u.base, u.trace)
    ensures AlikeStates(Apply(cfg, s, step), if IsPurge(step) then u else Apply(cfg, u, step))
  {
    InvAgrees(s.base, s.trace);
    InvAgrees(u.base, u.trace);
    hide Inv, Apply, AlikeStates, SessionsAgree;
    match step
    case Handshake(move) =>
      if move.Purge? { PurgeAlike(cfg, s, u, move.id); } else { HandshakeAlike(cfg, s, u, move); }
    case CallStart(c, req) => StartCallAlike(cfg, s, u, c, req);
    case Call(c, move) => CallAlike(cfg, s, u, c, move);
  }

  predicate IsPurge(step: Step) {
    step.Handshake? && step.move.Purge?
  }

  /** The same schedule without the purger. */
  function WithoutPurge(steps: seq<Step>): seq<Step> {
    if steps == [] then []
    else
      var n := |steps| - 1;
      WithoutPurge(steps[..n]) + (if IsPurge(steps[n]) then [] else [steps[n]])
  }

  lemma {:induction false} RunsAlike(cfg: Config, now: int, steps: seq<Step>)
    ensures AlikeStates(Run(cfg, Start(now), steps), Run(cfg, Start(now), WithoutPurge(steps)))
  {
    hide Inv, Apply, Alike, AlikeCalls, Lookups;
    if steps == [] {
      StartAlike(now);
    } else {
      hide AlikeStates;
      var n := |steps| - 1;
      var others := WithoutPurge(steps[..n]);
      RunsAlike(cfg, now, steps[..n]);
      Reachable(cfg, now, steps[..n]);
      Reachable(cfg, now, others);
      StepAlike(cfg, Run(cfg, Start(now), steps[..n]), Run(cfg, Start(now), others), steps[n]);
      if IsPurge(steps[n]) {
        assert others + [] == others;
      } else {
        assert (others + [steps[n]])[..|others|] == others;
      }
    }
  }

  lemma StartAlike(now: int)
    ensures AlikeStates(Start(now), Start(now))
  {
  }

  /** For every schedule, the purger changes no successful token lookup, and no call that has a session token. */
  lemma PurgeUnobservable(cfg: Config, now: int, steps: seq<Step>)
    ensures var s, u := Run(cfg, Start(now), steps), Run(cfg, Start(now), WithoutPurge(steps));
            && Lookups(s.trace) == Lookups(u.trace)
            && s.calls.Keys == u.calls.Keys
            && forall c :: c in s.calls && !(NoSessionToken(s.calls[c]) && NoSessionToken(u.calls[c])) ==>
                 s.calls[c] == u.calls[c]
  {
    RunsAlike(cfg, now, steps);
    hide Run, Alike, Lookups;
    var s, u := Run(cfg, Start(now), steps), Run(cfg, Start(now), WithoutPurge(steps));
    forall c | c in s.calls && !(NoSessionToken(s.calls[c]) && NoSessionToken(u.calls[c]))
      ensures s.calls[c] == u.calls[c]
    {
      assert SameCall(s.base, s.calls[c], u.calls[c]);
    }
  }
}
