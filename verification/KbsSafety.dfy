/** What holds of sessions in every reachable state of the key broker, and along every run. */
module KbsSafety {
  import opened Wrappers
  import opened Json
  import opened Evidence
  import opened Kbs

  // ----- the invariant -----

  predicate AgreesWith(id: Id, session: Session, o: Opened) {
    && session.id == id && session.timeout == o.timeout
    && (session.Authed? ==> session.tee == o.tee && session.nonce == o.nonce)
  }

  /** Every session is as it was opened. */
  ghost predicate SessionsAgree(b: Base) {
    forall id :: id in b.sessions ==> id in b.openings && AgreesWith(id, b.sessions[id], b.openings[id])
  }

  /** A held entry is an authenticated session, and its holder is the one request verifying it. */
  ghost predicate LocksHeld(b: Base) {
    && (forall id :: id in b.locks ==> id in b.sessions && b.sessions[id].Authed?)
    && (forall id :: id in b.locks ==>
          b.locks[id] in b.attests && b.attests[b.locks[id]].Verifying? && b.attests[b.locks[id]].id == id)
    && (forall r :: r in b.attests && b.attests[r].Verifying? ==>
          b.attests[r].id in b.locks && b.locks[b.attests[r].id] == r)
  }

  /** Evidence read for a session speaks for the TEE and nonce that the session was opened with. */
  predicate EvidenceBacked(openings: map<Id, Opened>, trace: seq<Event>, r: Rid, id: Id, key: Json,
                           es: seq<IndependentEvidence>)
  {
    && id in openings && Bound(es, openings[id].tee, openings[id].nonce, key)
    && InOrder([SessionOpened(id, openings[id]), ReadAuthed(r, id, es)], trace)
  }

  predicate StageBacked(openings: map<Id, Opened>, trace: seq<Event>, r: Rid, stage: AttestStage) {
    stage.Ready? || stage.Verifying? ==>
      EvidenceBacked(openings, trace, r, stage.id, stage.key, stage.evidence)
  }

  ghost predicate ReadsBacked(b: Base, trace: seq<Event>) {
    forall r :: r in b.attests ==> StageBacked(b.openings, trace, r, b.attests[r])
  }

  predicate OpeningLogged(trace: seq<Event>, id: Id, o: Opened) {
    InOrder([SessionOpened(id, o)], trace)
  }

  ghost predicate OpeningsLogged(b: Base, trace: seq<Event>) {
    forall id :: id in b.openings ==> OpeningLogged(trace, id, b.openings[id])
  }

  predicate VerifyBacked(openings: map<Id, Opened>, trace: seq<Event>, id: Id, v: Verified) {
    && id in openings && Bound(v.evidence, openings[id].tee, openings[id].nonce, v.key)
    && InOrder([SessionOpened(id, openings[id]), ReadAuthed(v.rid, id, v.evidence),
                VerifyReturned(v.rid, id, v.evidence, v.token)], trace)
  }

  ghost predicate VerifiesBacked(b: Base, trace: seq<Event>) {
    forall id :: id in b.verified ==> VerifyBacked(b.openings, trace, id, b.verified[id])
  }

  /** A session holds the token of its own verify call, and is attested just when there was one. */
  ghost predicate TokensRecorded(b: Base) {
    && (forall id :: id in b.sessions ==>
          (b.sessions[id].Attested? <==> id in b.verified) &&
          (b.sessions[id].Attested? ==> b.verified[id].token == b.sessions[id].token))
    && forall id :: id in b.verified ==> id in b.openings
  }

  /** How often a verify call attested the session. */
  function Attestations(trace: seq<Event>, id: Id): nat {
    if trace == [] then 0
    else
      var n := |trace| - 1;
      Attestations(trace[..n], id) + (if trace[n].VerifyReturned? && trace[n].id == id then 1 else 0)
  }

  ghost predicate AttestedOnce(b: Base, trace: seq<Event>) {
    forall id :: Attestations(trace, id) == if id in b.verified then 1 else 0
  }

  ghost predicate Shape(b: Base) {
    SessionsAgree(b) && LocksHeld(b) && TokensRecorded(b)
  }

  ghost predicate History(b: Base, trace: seq<Event>) {
    ReadsBacked(b, trace) && OpeningsLogged(b, trace) && VerifiesBacked(b, trace) && AttestedOnce(b, trace)
  }

  ghost predicate Inv(b: Base, trace: seq<Event>) {
    Shape(b) && History(b, trace)
  }

  // ----- histories grow -----

  lemma {:induction false} InOrderLater(events: seq<Event>, trace: seq<Event>, news: seq<Event>)
    requires InOrder(events, trace)
    ensures InOrder(events, trace + news)
  {
    if news == [] {
      assert trace + news == trace;
    } else {
      var n := |news| - 1;
      InOrderLater(events, trace, news[..n]);
      StillInOrder(events, trace + news[..n], news[n]);
      assert trace + news == trace + news[..n] + [news[n]];
    }
  }

  /** No verify call returned. */
  predicate Quiet(news: seq<Event>) {
    forall i :: 0 <= i < |news| ==> !news[i].VerifyReturned?
  }

  lemma {:induction false} AttestationsLater(trace: seq<Event>, news: seq<Event>, id: Id)
    requires Quiet(news)
    ensures Attestations(trace + news, id) == Attestations(trace, id)
  {
    if news == [] {
      assert trace + news == trace;
    } else {
      var n := |news| - 1;
      assert (trace + news)[..|trace + news| - 1] == trace + news[..n];
      AttestationsLater(trace, news[..n], id);
    }
  }

  /** The openings and verify calls that were recorded stay recorded. */
  predicate Grows(b: Base, d: Base) {
    && (forall id :: id in b.openings ==> id in d.openings && d.openings[id] == b.openings[id])
    && (forall id :: id in b.verified ==> id in d.verified && d.verified[id] == b.verified[id])
  }

  lemma StageBackedLater(b: Base, d: Base, trace: seq<Event>, news: seq<Event>, r: Rid, stage: AttestStage)
    requires Grows(b, d) && StageBacked(b.openings, trace, r, stage)
    ensures StageBacked(d.openings, trace + news, r, stage)
  {
    hide InOrder, Bound;
    if stage.Ready? || stage.Verifying? {
      InOrderLater([SessionOpened(stage.id, b.openings[stage.id]), ReadAuthed(r, stage.id, stage.evidence)],
                   trace, news);
    }
  }

  lemma VerifyBackedLater(b: Base, d: Base, trace: seq<Event>, news: seq<Event>, id: Id, v: Verified)
    requires Grows(b, d) && VerifyBacked(b.openings, trace, id, v)
    ensures VerifyBacked(d.openings, trace + news, id, v)
  {
    hide InOrder, Bound;
    InOrderLater([SessionOpened(id, b.openings[id]), ReadAuthed(v.rid, id, v.evidence),
                  VerifyReturned(v.rid, id, v.evidence, v.token)], trace, news);
  }

  /** What is backed stays backed. */
  lemma BackedLater(b: Base, d: Base, trace: seq<Event>, news: seq<Event>)
    requires Grows(b, d) && History(b, trace)
    ensures forall r :: r in b.attests ==> StageBacked(d.openings, trace + news, r, b.attests[r])
    ensures forall id :: id in b.verified ==> VerifyBacked(d.openings, trace + news, id, b.verified[id])
    ensures forall id :: id in b.openings ==> OpeningLogged(trace + news, id, b.openings[id])
  {
    hide StageBacked, VerifyBacked, InOrder;
    forall r | r in b.attests
      ensures StageBacked(d.openings, trace + news, r, b.attests[r])
    {
      StageBackedLater(b, d, trace, news, r, b.attests[r]);
    }
    forall id | id in b.verified
      ensures VerifyBacked(d.openings, trace + news, id, b.verified[id])
    {
      VerifyBackedLater(b, d, trace, news, id, b.verified[id]);
    }
    forall id | id in b.openings
      ensures OpeningLogged(trace + news, id, b.openings[id])
    {
      InOrderLater([SessionOpened(id, b.openings[id])], trace, news);
    }
  }

  lemma CountsLater(b: Base, d: Base, trace: seq<Event>, news: seq<Event>)
    requires AttestedOnce(b, trace) && d.verified == b.verified && Quiet(news)
    ensures AttestedOnce(d, trace + news)
  {
    hide Attestations;
    forall id ensures Attestations(trace + news, id) == Attestations(trace, id) {
      AttestationsLater(trace, news, id);
    }
  }

  // ----- every move keeps it -----

  /** Moves of plugin calls and other moves that leave the handshake alone. */
  lemma SameBaseKeeps(b: Base, d: Base, trace: seq<Event>, news: seq<Event>)
    requires Inv(b, trace) && Quiet(news)
    requires d.sessions == b.sessions && d.locks == b.locks && d.attests == b.attests
    requires d.openings == b.openings && d.verified == b.verified
    ensures Inv(d, trace + news)
  {
    hide StageBacked, VerifyBacked, OpeningLogged, Attestations, AgreesWith, AttestedOnce, Quiet;
    BackedLater(b, d, trace, news);
    CountsLater(b, d, trace, news);
  }

  /** A change of one request's stage, with at most a read logged. */
  lemma StageKeeps(b: Base, d: Base, trace: seq<Event>, news: seq<Event>, r: Rid, stage: AttestStage)
    requires Inv(b, trace) && Quiet(news) && d == b.(attests := b.attests[r := stage])
    requires !stage.Verifying? && !(r in b.attests && b.attests[r].Verifying?)
    requires StageBacked(b.openings, trace + news, r, stage)
    ensures Inv(d, trace + news)
  {
    hide StageBacked, VerifyBacked, OpeningLogged, Attestations, AgreesWith, AttestedOnce, Quiet;
    BackedLater(b, d, trace, news);
    CountsLater(b, d, trace, news);
  }

  lemma OpeningNow(trace: seq<Event>, id: Id, o: Opened)
    ensures OpeningLogged(trace + [SessionOpened(id, o)], id, o)
  {
    NextInOrder([], trace, SessionOpened(id, o));
    assert [] + [SessionOpened(id, o)] == [SessionOpened(id, o)];
  }

  predicate Opens(b: Base, d: Base, id: Id, o: Opened) {
    && id !in b.openings && d.openings == b.openings[id := o]
    && d.sessions == b.sessions[id := Authed(id, o.timeout, o.tee, o.nonce)]
    && d.locks == b.locks && d.attests == b.attests && d.verified == b.verified
  }

  lemma OpenKeepsShape(b: Base, d: Base, id: Id, o: Opened)
    requires Shape(b) && Opens(b, d, id, o)
    ensures Shape(d)
  {
  }

  lemma OpenKeepsHistory(b: Base, d: Base, trace: seq<Event>, id: Id, o: Opened)
    requires History(b, trace) && Opens(b, d, id, o)
    ensures History(d, trace + [SessionOpened(id, o)])
  {
    hide StageBacked, VerifyBacked, OpeningLogged, Attestations, AttestedOnce;
    BackedLater(b, d, trace, [SessionOpened(id, o)]);
    CountsLater(b, d, trace, [SessionOpened(id, o)]);
    OpeningNow(trace, id, o);
  }

  lemma EndAuthKeeps(cfg: Config, b: Base, trace: seq<Event>, r: Rid, id: Id, tee: Tee, nonce: string)
    requires Inv(b, trace)
    ensures var e := EndAuth(cfg, b, r, id, tee, nonce); Inv(e.base, trace + e.news)
  {
    hide Shape, History;
    var e := EndAuth(cfg, b, r, id, tee, nonce);
    if r in b.auths && b.auths[r].AuthInFlight? && id !in b.openings {
      var o := Opened(b.now + cfg.ttl, tee, nonce);
      OpenKeepsShape(b, e.base, id, o);
      OpenKeepsHistory(b, e.base, trace, id, o);
    } else {
      assert trace + [] == trace;
    }
  }

  lemma ArriveKeeps(b: Base, trace: seq<Event>, r: Rid, cookie: Option<Id>, body: Option<Attestation>)
    requires Inv(b, trace)
    ensures var e := Arrive(b, r, cookie, body); Inv(e.base, trace + e.news)
  {
    hide Inv;
    var e := Arrive(b, r, cookie, body);
    if r in b.attests {
      assert trace + [] == trace;
    } else {
      StageKeeps(b, e.base, trace, [], r, e.base.attests[r]);
    }
  }

  /** The evidence of one message, read while the session is open, is backed. */
  lemma EvidenceBackedNow(openings: map<Id, Opened>, trace: seq<Event>, r: Rid, id: Id, m: Attestation,
                          devices: map<Tee, Json>, order: seq<Tee>)
    requires id in openings && OpeningLogged(trace, id, openings[id])
    requires forall t :: t in order ==> t in devices
    ensures var es := EvidenceList(openings[id].tee, openings[id].nonce, m, devices, order);
            EvidenceBacked(openings, trace + [ReadAuthed(r, id, es)], r, id, m.teePubkey, es)
  {
    var o := openings[id];
    EvidenceBound(o.tee, o.nonce, m, devices, order);
    var es := EvidenceList(o.tee, o.nonce, m, devices, order);
    hide InOrder, EvidenceList, Bound;
    NextInOrder([SessionOpened(id, o)], trace, ReadAuthed(r, id, es));
    assert [SessionOpened(id, o)] + [ReadAuthed(r, id, es)] == [SessionOpened(id, o), ReadAuthed(r, id, es)];
  }

  lemma ListsOnly(order: seq<Tee>, devices: map<Tee, Json>)
    requires Lists(order, devices)
    ensures forall t :: t in order ==> t in devices
  {
  }

  lemma ReadBacks(cfg: Config, b: Base, trace: seq<Event>, r: Rid, order: seq<Tee>)
    requires Inv(b, trace) && CanRead(cfg, b, r, order)
    ensures var e := Read(cfg, b, r, order);
            r in e.base.attests && StageBacked(b.openings, trace + e.news, r, e.base.attests[r])
  {
    hide EvidenceBacked, EvidenceList, OpeningLogged, VerifyBacked, Attestations, Devices, Lists;
    if Read(cfg, b, r, order).base.attests[r].Ready? {
      var id, m := b.attests[r].id, b.attests[r].message;
      ListsOnly(order, Devices(cfg.readAdditional, m).value);
      EvidenceBackedNow(b.openings, trace, r, id, m, Devices(cfg.readAdditional, m).value, order);
    }
  }

  lemma ReadKeeps(cfg: Config, b: Base, trace: seq<Event>, r: Rid, order: seq<Tee>)
    requires Inv(b, trace)
    ensures var e := Read(cfg, b, r, order); Inv(e.base, trace + e.news)
  {
    hide Inv, StageBacked, EvidenceList, Devices, Lists;
    var e := Read(cfg, b, r, order);
    if !CanRead(cfg, b, r, order) {
      assert trace + [] == trace;
    } else {
      ReadBacks(cfg, b, trace, r, order);
      StageKeeps(b, e.base, trace, e.news, r, e.base.attests[r]);
    }
  }

  lemma TakeKeeps(b: Base, d: Base, trace: seq<Event>, r: Rid)
    requires Inv(b, trace) && CanBegin(b, r) && b.attests[r].id in b.sessions
    requires b.sessions[b.attests[r].id].Authed?
    requires d == b.(attests := b.attests[r := Verifying(b.attests[r].id, b.attests[r].key, b.attests[r].evidence)],
                     locks := b.locks[b.attests[r].id := r])
    ensures Inv(d, trace)
  {
    hide EvidenceBacked, VerifyBacked, OpeningLogged, Attestations, AgreesWith;
  }

  lemma BeginKeeps(b: Base, trace: seq<Event>, r: Rid)
    requires Inv(b, trace)
    ensures var e := Begin(b, r); Inv(e.base, trace + e.news)
  {
    hide Inv;
    assert trace + [] == trace;
    var e := Begin(b, r);
    if CanBegin(b, r) {
      if e.base.attests[r].Verifying? {
        TakeKeeps(b, e.base, trace, r);
      } else {
        StageKeeps(b, e.base, trace, [], r, e.base.attests[r]);
      }
    }
  }

  /** The end of a commit section, with or without a token. */
  lemma ReleaseKeepsLocks(b: Base, d: Base, r: Rid, stage: AttestStage)
    requires LocksHeld(b) && r in b.attests && b.attests[r].Verifying? && stage.Finished?
    requires d.attests == b.attests[r := stage] && d.locks == b.locks - {b.attests[r].id}
    requires forall id :: id in b.sessions && id != b.attests[r].id ==>
               id in d.sessions && d.sessions[id] == b.sessions[id]
    ensures LocksHeld(d)
  {
    forall q | q in d.attests && d.attests[q].Verifying?
      ensures d.attests[q].id in d.locks && d.locks[d.attests[q].id] == q
    {
      assert q != r && q in b.attests && b.locks[b.attests[q].id] == q && b.locks[b.attests[r].id] == r;
    }
  }

  lemma FailCommitKeeps(b: Base, trace: seq<Event>, r: Rid)
    requires Inv(b, trace)
    ensures var e := FailCommit(b, r); Inv(e.base, trace + e.news)
  {
    hide EvidenceBacked, VerifyBacked, OpeningLogged, Attestations, AgreesWith;
    assert trace + [] == trace;
    if Committing(b, r) {
      var e := FailCommit(b, r);
      ReleaseKeepsLocks(b, e.base, r, e.base.attests[r]);
    }
  }

  lemma CommitKeepsSessions(b: Base, d: Base, id: Id, token: Token, v: Verified)
    requires SessionsAgree(b) && TokensRecorded(b) && id in b.sessions && b.sessions[id].Authed? && v.token == token
    requires d.sessions == b.sessions[id := b.sessions[id].Attest(token)]
    requires d.verified == b.verified[id := v] && d.openings == b.openings
    ensures SessionsAgree(d) && TokensRecorded(d)
  {
  }

  lemma CommitKeepsShape(b: Base, r: Rid, token: Token)
    requires Shape(b) && Committing(b, r)
    ensures Shape(EndCommit(b, r, token).base)
  {
    hide SessionsAgree, TokensRecorded;
    var d, id := EndCommit(b, r, token).base, b.attests[r].id;
    CommitKeepsSessions(b, d, id, token, d.verified[id]);
    ReleaseKeepsLocks(b, d, r, d.attests[r]);
    hide LocksHeld;
  }

  lemma VerifyNow(openings: map<Id, Opened>, trace: seq<Event>, r: Rid, id: Id, key: Json,
                  es: seq<IndependentEvidence>, token: Token)
    requires EvidenceBacked(openings, trace, r, id, key, es)
    ensures VerifyBacked(openings, trace + [VerifyReturned(r, id, es, token)], id, Verified(r, key, es, token))
  {
    hide InOrder, Bound;
    var read := [SessionOpened(id, openings[id]), ReadAuthed(r, id, es)];
    var e := VerifyReturned(r, id, es, token);
    NextInOrder(read, trace, e);
    assert read + [e] == [SessionOpened(id, openings[id]), ReadAuthed(r, id, es), e];
  }

  lemma CountOne(b: Base, d: Base, trace: seq<Event>, id: Id, e: Event)
    requires AttestedOnce(b, trace) && e.VerifyReturned? && e.id == id && id !in b.verified
    requires forall k :: k in d.verified <==> k in b.verified || k == id
    ensures AttestedOnce(d, trace + [e])
  {
    assert (trace + [e])[..|trace|] == trace;
  }

  lemma CommitKeepsHistory(b: Base, trace: seq<Event>, r: Rid, token: Token)
    requires Inv(b, trace) && Committing(b, r)
    ensures var e := EndCommit(b, r, token); History(e.base, trace + e.news)
  {
    hide StageBacked, VerifyBacked, OpeningLogged, AttestedOnce, AgreesWith;
    var e := EndCommit(b, r, token);
    var id := b.attests[r].id;
    assert b.sessions[id].Authed? && id !in b.verified;
    BackedLater(b, e.base, trace, e.news);
    ReadIsBacked(b, trace, r);
    VerifyNow(b.openings, trace, r, id, b.attests[r].key, b.attests[r].evidence, token);
    CountOne(b, e.base, trace, id, e.news[0]);
    assert StageBacked(b.openings, trace + e.news, r, e.base.attests[r]) by {
      FinishedIsBacked(b.openings, trace + e.news, r, e.base.attests[r]);
    }
  }

  lemma ReadIsBacked(b: Base, trace: seq<Event>, r: Rid)
    requires History(b, trace) && r in b.attests && b.attests[r].Verifying?
    ensures EvidenceBacked(b.openings, trace, r, b.attests[r].id, b.attests[r].key, b.attests[r].evidence)
  {
    hide EvidenceBacked;
    assert StageBacked(b.openings, trace, r, b.attests[r]);
  }

  lemma FinishedIsBacked(openings: map<Id, Opened>, trace: seq<Event>, r: Rid, stage: AttestStage)
    requires stage.Finished?
    ensures StageBacked(openings, trace, r, stage)
  {
  }

  lemma EndCommitKeeps(b: Base, trace: seq<Event>, r: Rid, token: Token)
    requires Inv(b, trace)
    ensures var e := EndCommit(b, r, token); Inv(e.base, trace + e.news)
  {
    hide Shape, History;
    assert trace + [] == trace;
    if Committing(b, r) {
      CommitKeepsShape(b, r, token);
      CommitKeepsHistory(b, trace, r, token);
    }
  }

  lemma PurgeKeeps(b: Base, trace: seq<Event>, id: Id)
    requires Inv(b, trace)
    ensures var e := PurgeOne(b, id); Inv(e.base, trace + e.news)
  {
    hide StageBacked, VerifyBacked, OpeningLogged, Attestations, AgreesWith;
    assert trace + [] == trace;
  }

  lemma MoveKeeps(cfg: Config, b: Base, trace: seq<Event>, move: Move)
    requires Inv(b, trace)
    ensures var e := Moved(cfg, b, move); Inv(e.base, trace + e.news)
  {
    hide Inv, EndAuth, Arrive, Read, Begin, FailCommit, EndCommit, PurgeOne;
    match move
    case AuthEnd(r, id, tee, nonce) => EndAuthKeeps(cfg, b, trace, r, id, tee, nonce);
    case AttestArrive(r, cookie, body) => ArriveKeeps(b, trace, r, cookie, body);
    case AttestRead(r, order) => ReadKeeps(cfg, b, trace, r, order);
    case CommitBegin(r) => BeginKeeps(b, trace, r);
    case CommitFail(r) => FailCommitKeeps(b, trace, r);
    case CommitEnd(r, token) => EndCommitKeeps(b, trace, r, token);
    case Purge(id) => PurgeKeeps(b, trace, id);
    case _ => SameBaseKeeps(b, Moved(cfg, b, move).base, trace, []);
  }

  lemma CallIsQuiet(cfg: Config, b: Base, c: Rid, call: CallStage, move: CallMove)
    ensures var e := Called(cfg, b, c, call, move); e.Some? ==> Quiet(e.value.news)
  {
  }

  lemma StepKeeps(cfg: Config, s: State, step: Step)
    requires Inv(s.base, s.trace)
    ensures var t := Apply(cfg, s, step); Inv(t.base, t.trace)
  {
    hide Inv, Moved, Called;
    match step
    case Handshake(move) => MoveKeeps(cfg, s.base, s.trace, move);
    case CallStart(_, _) =>
    case Call(c, move) =>
      if c in s.calls {
        var e := Called(cfg, s.base, c, s.calls[c], move);
        CallIsQuiet(cfg, s.base, c, s.calls[c], move);
        if e.Some? {
          SameBaseKeeps(s.base, s.base, s.trace, e.value.news);
        }
      }
  }

  lemma StartInv(now: int)
    ensures Inv(Start(now).base, Start(now).trace)
  {
  }

  /** Every reachable state is as the invariant says. */
  lemma {:induction false} Reachable(cfg: Config, now: int, steps: seq<Step>)
    ensures var s := Run(cfg, Start(now), steps); Inv(s.base, s.trace)
  {
    hide Inv, Apply;
    if steps == [] {
      StartInv(now);
    } else {
      var n := |steps| - 1;
      Reachable(cfg, now, steps[..n]);
      StepKeeps(cfg, Run(cfg, Start(now), steps[..n]), steps[n]);
    }
  }
}
