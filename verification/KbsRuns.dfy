/** Sessions along every run of the key broker: their life cycle, the origin of their tokens, and the races
    between attestations of one session. */
module KbsRuns {
  import opened Wrappers
  import opened Json
  import opened Evidence
  import opened Kbs
  import opened KbsSafety

  // ----- the life cycle -----

  /** What may become of one session. */
  predicate Later(x: Session, y: Session) {
    y == x || (x.Authed? && y.Attested? && y.id == x.id && y.timeout == x.timeout)
  }

  ghost predicate Advances(b: Base, d: Base) {
    && b.now <= d.now && Grows(b, d)
    && (forall id :: id in b.openings && id !in b.sessions ==> id !in d.sessions)
    && (forall id :: id in b.sessions && id in d.sessions ==> Later(b.sessions[id], d.sessions[id]))
  }

  /** Most moves leave the session map and the history of ids alone. */
  lemma SessionsStay(cfg: Config, b: Base, move: Move)
    requires !move.AuthEnd? && !move.CommitEnd? && !move.Purge?
    ensures var d := Moved(cfg, b, move).base;
            b.now <= d.now && d.sessions == b.sessions && d.openings == b.openings && d.verified == b.verified
  {
    hide StartAuth, FailAuth, Arrive, Read, Begin, FailCommit;
  }

  lemma CommitAdvances(b: Base, r: Rid, token: Token)
    requires Shape(b)
    ensures Advances(b, EndCommit(b, r, token).base)
  {
    hide AgreesWith;
    if Committing(b, r) {
      assert b.sessions[b.attests[r].id].Authed?;
    }
  }

  lemma EndAuthAdvances(cfg: Config, b: Base, r: Rid, id: Id, tee: Tee, nonce: string)
    requires Shape(b)
    ensures Advances(b, EndAuth(cfg, b, r, id, tee, nonce).base)
  {
    hide AgreesWith, LocksHeld;
  }

  lemma MoveAdvances(cfg: Config, b: Base, trace: seq<Event>, move: Move)
    requires Inv(b, trace)
    ensures Advances(b, Moved(cfg, b, move).base)
  {
    hide History, Shape, EndAuth, EndCommit;
    if move.CommitEnd? {
      CommitAdvances(b, move.rid, move.token);
    } else if move.AuthEnd? {
      EndAuthAdvances(cfg, b, move.rid, move.id, move.tee, move.nonce);
    } else if !move.Purge? {
      SessionsStay(cfg, b, move);
      hide Moved;
    }
  }

  lemma StepAdvances(cfg: Config, s: State, step: Step)
    requires Inv(s.base, s.trace)
    ensures Advances(s.base, Apply(cfg, s, step).base)
  {
    hide Inv, Called;
    if step.Handshake? {
      hide Moved, Advances;
      MoveAdvances(cfg, s.base, s.trace, step.move);
    }
  }

  lemma AdvancesTransitive(a: Base, b: Base, c: Base)
    requires Advances(a, b) && Advances(b, c) && SessionsAgree(a)
    ensures Advances(a, c)
  {
    hide AgreesWith;
    forall id | id in a.sessions && id in c.sessions
      ensures Later(a.sessions[id], c.sessions[id])
    {
      assert id in b.sessions;
    }
  }

  lemma {:induction false} RunAdvances(cfg: Config, s: State, steps: seq<Step>)
    requires Inv(s.base, s.trace)
    ensures var t := Run(cfg, s, steps); Inv(t.base, t.trace) && Advances(s.base, t.base)
  {
    hide Inv, Apply, Advances;
    if steps == [] {
      AdvancesReflexive(s.base);
    } else {
      var n := |steps| - 1;
      var t := Run(cfg, s, steps[..n]);
      RunAdvances(cfg, s, steps[..n]);
      StepKeeps(cfg, t, steps[n]);
      StepAdvances(cfg, t, steps[n]);
      InvAgrees(s.base, s.trace);
      AdvancesTransitive(s.base, t.base, Apply(cfg, t, steps[n]).base);
    }
  }

  lemma AdvancesReflexive(b: Base)
    ensures Advances(b, b)
  {
  }

  lemma InvAgrees(b: Base, trace: seq<Event>)
    requires Inv(b, trace)
    ensures SessionsAgree(b)
  {
    hide SessionsAgree, History;
  }

  /** Over every run, and from every point of it to every later one: a session is attested at most once, its id
      and timeout stay, its token stays once it is set, and a session that is gone does not come back. */
  lemma SessionLifeCycle(cfg: Config, now: int, before: seq<Step>, after: seq<Step>, id: Id)
    ensures var s := Run(cfg, Start(now), before); var t := Run(cfg, s, after);
            && t == Run(cfg, Start(now), before + after)
            && Attestations(t.trace, id) <= 1
            && (id in s.base.openings && id !in s.base.sessions ==> id !in t.base.sessions)
            && (id in s.base.sessions && id in t.base.sessions ==>
                  && t.base.sessions[id].id == s.base.sessions[id].id == id
                  && t.base.sessions[id].timeout == s.base.sessions[id].timeout
                  && (s.base.sessions[id].Attested? ==> t.base.sessions[id] == s.base.sessions[id]))
  {
    var s := Run(cfg, Start(now), before);
    Reachable(cfg, now, before);
    RunAdvances(cfg, s, after);
    RunSplits(cfg, Start(now), before, after);
    InvAgrees(s.base, s.trace);
    hide Run, History;
    AtMostOnce(Run(cfg, s, after), id);
  }

  lemma AtMostOnce(s: State, id: Id)
    requires Inv(s.base, s.trace)
    ensures Attestations(s.trace, id) <= 1
  {
    hide Attestations, Shape;
  }

  /** In every reachable state a stored token was returned by a verify call on evidence that was read for this
      very session: its first piece carries the session's TEE, and all of it the session's nonce and one common
      public key. */
  lemma TokenProvenance(cfg: Config, now: int, steps: seq<Step>, id: Id) returns (v: Verified)
    requires var b := Run(cfg, Start(now), steps).base; id in b.sessions && b.sessions[id].Attested?
    ensures var s := Run(cfg, Start(now), steps);
            && id in s.base.openings && v.token == s.base.sessions[id].token
            && var o := s.base.openings[id];
               && s.base.sessions[id].timeout == o.timeout
               && Bound(v.evidence, o.tee, o.nonce, v.key)
               && InOrder([SessionOpened(id, o), ReadAuthed(v.rid, id, v.evidence),
                           VerifyReturned(v.rid, id, v.evidence, v.token)], s.trace)
  {
    Reachable(cfg, now, steps);
    hide Run, InOrder, Bound, ReadsBacked, AttestedOnce, OpeningsLogged, LocksHeld;
    var s := Run(cfg, Start(now), steps);
    v := s.base.verified[id];
    assert VerifyBacked(s.base.openings, s.trace, id, v);
  }

  // ----- races -----

  /** If the session was attested since the request read it, the read came first and the other request's verify
      result after it. */
  predicate RaceLogged(verified: map<Id, Verified>, trace: seq<Event>, r: Rid, stage: AttestStage) {
    stage.Ready? && stage.id in verified ==>
      var v := verified[stage.id];
      v.rid != r &&
      InOrder([ReadAuthed(r, stage.id, stage.evidence), VerifyReturned(v.rid, stage.id, v.evidence, v.token)], trace)
  }

  ghost predicate RacesLogged(b: Base, trace: seq<Event>) {
    forall r :: r in b.attests ==> RaceLogged(b.verified, trace, r, b.attests[r])
  }

  lemma {:induction false} InOrderLast(a: Event, e: Event, trace: seq<Event>)
    requires InOrder([a, e], trace)
    ensures InOrder([e], trace)
    decreases |trace|
  {
    var n := |trace| - 1;
    assert [a, e][..1] == [a] && [e][..0] == [];
    if InOrder([a, e], trace[..n]) {
      InOrderLast(a, e, trace[..n]);
    }
  }

  /** Moves that record no verify result: at most one stage changes, and a request that becomes ready has read an
      unattested session. */
  lemma StageKeepsRaces(b: Base, d: Base, trace: seq<Event>, news: seq<Event>)
    requires RacesLogged(b, trace) && d.verified == b.verified
    requires forall r :: r in d.attests && d.attests[r].Ready? ==>
               (r in b.attests && b.attests[r] == d.attests[r]) || d.attests[r].id !in b.verified
    ensures RacesLogged(d, trace + news)
  {
    hide InOrder;
    forall r | r in d.attests
      ensures RaceLogged(d.verified, trace + news, r, d.attests[r])
    {
      var stage := d.attests[r];
      if stage.Ready? && stage.id in b.verified {
        var v := b.verified[stage.id];
        assert RaceLogged(b.verified, trace, r, stage);
        InOrderLater([ReadAuthed(r, stage.id, stage.evidence),
                      VerifyReturned(v.rid, stage.id, v.evidence, v.token)], trace, news);
      }
    }
  }

  lemma CommitRaces(b: Base, trace: seq<Event>, q: Rid, token: Token, r: Rid)
    requires Inv(b, trace) && RacesLogged(b, trace) && Committing(b, q) && r in b.attests && r != q
    ensures var e := EndCommit(b, q, token); RaceLogged(e.base.verified, trace + e.news, r, b.attests[r])
  {
    hide InOrder, Bound, Shape, VerifiesBacked, AttestedOnce, OpeningsLogged;
    var e, stage := EndCommit(b, q, token), b.attests[r];
    assert StageBacked(b.openings, trace, r, stage) && RaceLogged(b.verified, trace, r, stage);
    if stage.Ready? && stage.id == b.attests[q].id {
      var read := ReadAuthed(r, stage.id, stage.evidence);
      InOrderLast(SessionOpened(stage.id, b.openings[stage.id]), read, trace);
      NextInOrder([read], trace, e.news[0]);
      assert [read] + e.news == [read, e.news[0]];
    } else if stage.Ready? && stage.id in b.verified {
      var v := b.verified[stage.id];
      InOrderLater([ReadAuthed(r, stage.id, stage.evidence),
                    VerifyReturned(v.rid, stage.id, v.evidence, v.token)], trace, e.news);
    }
  }

  lemma CommitKeepsRaces(b: Base, trace: seq<Event>, q: Rid, token: Token)
    requires Inv(b, trace) && RacesLogged(b, trace) && Committing(b, q)
    ensures var e := EndCommit(b, q, token); RacesLogged(e.base, trace + e.news)
  {
    hide InOrder, Inv;
    var e := EndCommit(b, q, token);
    forall r | r in e.base.attests
      ensures RaceLogged(e.base.verified, trace + e.news, r, e.base.attests[r])
    {
      if r != q {
        CommitRaces(b, trace, q, token, r);
      }
    }
  }

  /** Only the read section makes a request ready. */
  lemma ReadyStay(cfg: Config, b: Base, move: Move, r: Rid)
    requires !move.AttestRead? && r in Moved(cfg, b, move).base.attests
    requires Moved(cfg, b, move).base.attests[r].Ready?
    ensures r in b.attests && b.attests[r] == Moved(cfg, b, move).base.attests[r]
  {
    hide StartAuth, FailAuth, EndAuth, PurgeOne, Arrive, Begin, FailCommit, EndCommit;
  }

  lemma ReadNotAttested(cfg: Config, b: Base, q: Rid, order: seq<Tee>, r: Rid)
    requires Shape(b)
    ensures var d := Read(cfg, b, q, order).base;
            r in d.attests && d.attests[r].Ready? ==>
              (r in b.attests && b.attests[r] == d.attests[r]) || d.attests[r].id !in b.verified
  {
    hide EvidenceList, Devices, Lists, SessionsAgree, LocksHeld;
  }

  lemma MoveKeepsRaces(cfg: Config, b: Base, trace: seq<Event>, move: Move)
    requires Inv(b, trace) && RacesLogged(b, trace)
    ensures var e := Moved(cfg, b, move); RacesLogged(e.base, trace + e.news)
  {
    hide RacesLogged, History, Shape, StartAuth, FailAuth, EndAuth, PurgeOne, Arrive, Read, Begin, FailCommit;
    var e := Moved(cfg, b, move);
    if move.CommitEnd? {
      assert trace + [] == trace;
      if Committing(b, move.rid) {
        CommitKeepsRaces(b, trace, move.rid, move.token);
      }
    } else if move.AttestRead? {
      forall r { ReadNotAttested(cfg, b, move.rid, move.order, r); }
      SessionsStay(cfg, b, move);
      StageKeepsRaces(b, e.base, trace, e.news);
    } else {
      forall r | r in e.base.attests && e.base.attests[r].Ready?
        ensures r in b.attests && b.attests[r] == e.base.attests[r]
      {
        ReadyStay(cfg, b, move, r);
      }
      StageKeepsRaces(b, e.base, trace, e.news);
    }
  }

  lemma {:induction false} ReachableRaces(cfg: Config, now: int, steps: seq<Step>)
    ensures var s := Run(cfg, Start(now), steps); RacesLogged(s.base, s.trace)
  {
    hide Inv, RacesLogged, Moved, Called;
    if steps == [] {
      StartRaces(now);
    } else {
      var n := |steps| - 1;
      var s := Run(cfg, Start(now), steps[..n]);
      ReachableRaces(cfg, now, steps[..n]);
      Reachable(cfg, now, steps[..n]);
      match steps[n]
      case Handshake(move) => MoveKeepsRaces(cfg, s.base, s.trace, move);
      case CallStart(_, _) =>
      case Call(c, move) =>
        if c in s.calls && Called(cfg, s.base, c, s.calls[c], move).Some? {
          StageKeepsRaces(s.base, s.base, s.trace, Called(cfg, s.base, c, s.calls[c], move).value.news);
        }
    }
  }

  lemma StartRaces(now: int)
    ensures RacesLogged(Start(now).base, Start(now).trace)
  {
  }

  /** A commit section that starts panics if and only if another request attested the session after this one
      read it; then nothing but this request changes. */
  lemma PanicIffRaced(cfg: Config, now: int, steps: seq<Step>, r: Rid)
    requires CanBegin(Run(cfg, Start(now), steps).base, r)
    ensures var s := Run(cfg, Start(now), steps); var id := s.base.attests[r].id;
            var t := Apply(cfg, s, Handshake(CommitBegin(r)));
            && (t.base.attests[r] == Finished(Some(id), Panicked) <==> id in s.base.sessions && id in s.base.verified)
            && (t.base.attests[r] == Finished(Some(id), Panicked) ==>
                  && t == s.(base := s.base.(attests := s.base.attests[r := Finished(Some(id), Panicked)]))
                  && var v := s.base.verified[id];
                     v.rid != r && InOrder([ReadAuthed(r, id, s.base.attests[r].evidence),
                                            VerifyReturned(v.rid, id, v.evidence, v.token)], s.trace))
  {
    Reachable(cfg, now, steps);
    ReachableRaces(cfg, now, steps);
    hide Run, InOrder, History, SessionsAgree, LocksHeld;
    var s := Run(cfg, Start(now), steps);
    assert RaceLogged(s.base.verified, s.trace, r, s.base.attests[r]);
    assert s.trace + [] == s.trace;
  }

  /** The race does happen: two requests read a session before either commits, and the second one panics. */
  const RACE := [
    Handshake(AuthStart(0)), Handshake(AuthEnd(0, "s", "tdx", "n")),
    Handshake(AttestArrive(1, Some("s"), Some(Attestation("n", Null, Null, "", None)))),
    Handshake(AttestArrive(2, Some("s"), Some(Attestation("n", Null, Null, "", None)))),
    Handshake(AttestRead(1, [])), Handshake(AttestRead(2, [])),
    Handshake(CommitBegin(1)), Handshake(CommitEnd(1, "t")), Handshake(CommitBegin(2))]

  lemma RunFirst(cfg: Config, s: State, steps: seq<Step>)
    requires steps != []
    ensures Run(cfg, s, steps) == Run(cfg, Apply(cfg, s, steps[0]), steps[1..])
  {
    hide Apply;
    RunSplits(cfg, s, [steps[0]], steps[1..]);
    assert [steps[0]] + steps[1..] == steps;
    assert [steps[0]][..0] == [];
  }

  /** The session and both requests, once they have arrived. */
  predicate BothWait(cfg: Config, s: State, now: int) {
    && s.base.now == now && s.base.locks == map[]
    && s.base.sessions == map["s" := Authed("s", now + cfg.ttl, "tdx", "n")]
    && s.base.attests == map[1 := Waiting("s", Attestation("n", Null, Null, "", None)),
                             2 := Waiting("s", Attestation("n", Null, Null, "", None))]
  }

  lemma BothArrive(cfg: Config, now: int)
    ensures BothWait(cfg, Run(cfg, Start(now), RACE[..4]), now)
  {
    var s0 := Start(now);
    var s1 := Apply(cfg, s0, RACE[0]);
    var s2 := Apply(cfg, s1, RACE[1]);
    var s3 := Apply(cfg, s2, RACE[2]);
    var s4 := Apply(cfg, s3, RACE[3]);
    hide Apply;
    var first := RACE[..4];
    assert first[..3][..2][..1][..0] == [];
    assert first[..3][..2][..1] == [RACE[0]] && first[..3][..2] == [RACE[0], RACE[1]];
    assert Run(cfg, s0, first[..3][..2][..1]) == s1;
    assert Run(cfg, s0, first[..3][..2]) == s2;
    assert Run(cfg, s0, first[..3]) == s3;
    assert Run(cfg, s0, first) == s4;
  }

  lemma RunThree(cfg: Config, s: State, x: Step, y: Step, z: Step)
    ensures Run(cfg, s, [x, y, z]) == Apply(cfg, Apply(cfg, Apply(cfg, s, x), y), z)
  {
    hide Apply;
    assert [x, y, z][..2] == [x, y] && [x, y][..1] == [x] && [x][..0] == [];
    assert Run(cfg, s, [x]) == Apply(cfg, s, x);
    assert Run(cfg, s, [x, y]) == Apply(cfg, Apply(cfg, s, x), y);
  }

  lemma FirstCommits(b: Base, q: Rid, token: Token, r: Rid)
    requires CanBegin(b, q) && CanBegin(b, r) && q != r && b.attests[q].id == b.attests[r].id
    requires b.attests[q].id in b.sessions && b.sessions[b.attests[q].id].Authed?
    ensures var d := EndCommit(Begin(b, q).base, q, token).base; var id := b.attests[r].id;
            && CanBegin(d, r) && d.attests[r] == b.attests[r]
            && id in d.sessions && d.sessions[id] == Attested(b.sessions[id].id, b.sessions[id].timeout, token)
  {
    hide BeginEntry;
  }

  /** Whenever two requests are ready for one unattested session, the one that commits second panics and the
      token of the first stays. */
  lemma SecondCommitPanics(cfg: Config, s: State, q: Rid, token: Token, r: Rid)
    requires CanBegin(s.base, q) && CanBegin(s.base, r) && q != r && s.base.attests[q].id == s.base.attests[r].id
    requires s.base.attests[q].id in s.base.sessions && s.base.sessions[s.base.attests[q].id].Authed?
    ensures var t := Run(cfg, s, [Handshake(CommitBegin(q)), Handshake(CommitEnd(q, token)), Handshake(CommitBegin(r))]);
            var id := s.base.attests[r].id;
            && r in t.base.attests && t.base.attests[r] == Finished(Some(id), Panicked)
            && id in t.base.sessions && t.base.sessions[id].Attested? && t.base.sessions[id].token == token
  {
    FirstCommits(s.base, q, token, r);
    RunThree(cfg, s, Handshake(CommitBegin(q)), Handshake(CommitEnd(q, token)), Handshake(CommitBegin(r)));
    hide EndCommit, Run;
    var d := EndCommit(Begin(s.base, q).base, q, token).base;
    assert Begin(d, r).base.attests[r] == Finished(Some(s.base.attests[r].id), Panicked);
  }

  lemma BothReady(cfg: Config, s: State, now: int)
    requires BothWait(cfg, s, now) && cfg.ttl >= 0
    ensures var t := Apply(cfg, Apply(cfg, s, RACE[4]), RACE[5]);
            && CanBegin(t.base, 1) && CanBegin(t.base, 2)
            && t.base.attests[1].id == t.base.attests[2].id == "s"
            && "s" in t.base.sessions && t.base.sessions["s"].Authed?
  {
    hide EvidenceList;
    assert Lists([], map[]);
    var m := Attestation("n", Null, Null, "", None);
    assert Devices(cfg.readAdditional, m) == Some(map[]);
    assert CanRead(cfg, s.base, 1, []);
    var d := Read(cfg, s.base, 1, []).base;
    assert d.attests[1].Ready? && CanRead(cfg, d, 2, []);
  }

  lemma RaceHappens(cfg: Config, now: int)
    requires cfg.ttl >= 0
    ensures var s := Run(cfg, Start(now), RACE);
            2 in s.base.attests && s.base.attests[2] == Finished(Some("s"), Panicked)
  {
    var s := Run(cfg, Start(now), RACE[..4]);
    BothArrive(cfg, now);
    BothReady(cfg, s, now);
    hide Apply, BothWait, CanBegin;
    var t := Apply(cfg, Apply(cfg, s, RACE[4]), RACE[5]);
    SecondCommitPanics(cfg, t, 1, "t", 2);
    RunFirst(cfg, s, RACE[4..]);
    RunFirst(cfg, Apply(cfg, s, RACE[4]), RACE[5..]);
    RunSplits(cfg, Start(now), RACE[..4], RACE[4..]);
    assert RACE[..4] + RACE[4..] == RACE && RACE[4..][1..] == RACE[5..] && RACE[5..][1..] == RACE[6..];
    assert RACE[6..] == [Handshake(CommitBegin(1)), Handshake(CommitEnd(1, "t")), Handshake(CommitBegin(2))];
  }
}
