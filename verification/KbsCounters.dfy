/** The metrics of the key broker account for every request, over every interleaving. */
module KbsCounters {
  import opened Wrappers
  import opened Json
  import opened Evidence
  import opened Kbs

  function Where<V(!new)>(m: map<Rid, V>, p: V -> bool): (w: set<Rid>)
    ensures w <= m.Keys
  {
    set r | r in m && p(m[r])
  }

  /** How many entries of a map satisfy `p`. */
  function CountIf<V(!new)>(m: map<Rid, V>, p: V -> bool): nat {
    |Where(m, p)|
  }

  lemma CountIfUpdate<V(!new)>(m: map<Rid, V>, r: Rid, v: V, p: V -> bool)
    ensures CountIf(m[r := v], p) + (if r in m && p(m[r]) then 1 else 0) == CountIf(m, p) + (if p(v) then 1 else 0)
  {
    var others := Where(m, p) - {r};
    SizeWith(others, r);
    assert Where(m, p) == if r in m && p(m[r]) then others + {r} else others;
    assert Where(m[r := v], p) == if p(v) then others + {r} else others;
  }

  lemma SizeWith(others: set<Rid>, r: Rid)
    requires r !in others
    ensures |others + {r}| == |others| + 1
  {
  }

  predicate AuthPending(stage: AuthStage) { stage.AuthInFlight? }

  /** Attestations that no success, failure or error is counted for: those in flight, and those that ended with
      an old token, an expired session, a wrong nonce or a panic. */
  predicate AttestUncounted(stage: AttestStage) {
    stage.Finished? ==>
      stage.outcome.OldToken? || stage.outcome.SessionExpired? || stage.outcome.WrongNonce? || stage.outcome.Panicked?
  }

  predicate PolicyPending(call: CallStage) { call.Judged? && call.phase.Deciding? }

  ghost predicate Conserved(s: State) {
    var c := s.counters;
    && c.authRequests == c.authSuccesses + c.authErrors + CountIf(s.base.auths, AuthPending)
    && c.attestRequests
       == c.attestSuccesses + c.attestFailures + c.attestErrors + CountIf(s.base.attests, AttestUncounted)
    && c.policyEvals
       == c.policyApprovals + c.policyViolations + c.policyErrors + CountIf(s.calls, PolicyPending)
  }

  // ----- what a metric asks of the requests -----

  function Bit(p: bool): nat { if p then 1 else 0 }

  function AuthOpened(m: Metric): nat { Bit(m.AuthRequest?) }
  function AuthClosed(m: Metric): nat { Bit(m.AuthSuccess? || m.AuthError?) }
  function AttestOpened(m: Metric): nat { Bit(m.AttestRequest? || m.AttestRejected?) }
  function AttestClosed(m: Metric): nat {
    Bit(m.AttestRejected? || m.AttestSuccess? || m.AttestFailure? || m.AttestError?)
  }
  function PolicyOpened(m: Metric): nat { Bit(m.PolicyEval?) }
  function PolicyClosed(m: Metric): nat { Bit(m.PolicyApproval? || m.PolicyViolation? || m.PolicyError?) }

  lemma CountBalances(c: Counters, m: Metric)
    ensures var d := Count(c, m);
            && d.authRequests == c.authRequests + AuthOpened(m)
            && d.authSuccesses + d.authErrors == c.authSuccesses + c.authErrors + AuthClosed(m)
            && d.attestRequests == c.attestRequests + AttestOpened(m)
            && d.attestSuccesses + d.attestFailures + d.attestErrors
               == c.attestSuccesses + c.attestFailures + c.attestErrors + AttestClosed(m)
            && d.policyEvals == c.policyEvals + PolicyOpened(m)
            && d.policyApprovals + d.policyViolations + d.policyErrors
               == c.policyApprovals + c.policyViolations + c.policyErrors + PolicyClosed(m)
  {
  }

  /** The requests change as the metric says, and no policy evaluation is concerned. */
  ghost predicate Balanced(b: Base, e: Effect) {
    && CountIf(e.base.auths, AuthPending) + AuthClosed(e.metric)
       == CountIf(b.auths, AuthPending) + AuthOpened(e.metric)
    && CountIf(e.base.attests, AttestUncounted) + AttestClosed(e.metric)
       == CountIf(b.attests, AttestUncounted) + AttestOpened(e.metric)
    && PolicyOpened(e.metric) == 0 && PolicyClosed(e.metric) == 0
  }

  lemma AuthBalances(b: Base, e: Effect, r: Rid, stage: AuthStage)
    requires e.base.auths == b.auths[r := stage] && e.base.attests == b.attests
    requires if r !in b.auths then e.metric.AuthRequest? && stage.AuthInFlight?
             else b.auths[r].AuthInFlight? && stage.AuthDone? && (e.metric.AuthSuccess? || e.metric.AuthError?)
    ensures Balanced(b, e)
  {
    CountIfUpdate(b.auths, r, stage, AuthPending);
    hide CountIf;
  }

  /** A request's change of stage, and the metric for it. */
  predicate StageMetric(b: Base, r: Rid, stage: AttestStage, m: Metric) {
    if r !in b.attests then
      if AttestUncounted(stage) then m.AttestRequest? else m.AttestRejected?
    else
      AttestUncounted(b.attests[r]) &&
      if AttestUncounted(stage) then m.Uncounted? else m.AttestSuccess? || m.AttestFailure? || m.AttestError?
  }

  lemma AttestBalances(b: Base, e: Effect, r: Rid, stage: AttestStage)
    requires e.base.attests == b.attests[r := stage] && e.base.auths == b.auths
    requires StageMetric(b, r, stage, e.metric)
    ensures Balanced(b, e)
  {
    CountIfUpdate(b.attests, r, stage, AttestUncounted);
    hide CountIf;
  }

  lemma ReadBalances(cfg: Config, b: Base, r: Rid, order: seq<Tee>)
    ensures Balanced(b, Read(cfg, b, r, order))
  {
    hide Balanced, CountIf, EvidenceList, Devices, Lists;
    var e := Read(cfg, b, r, order);
    if CanRead(cfg, b, r, order) {
      AttestBalances(b, e, r, e.base.attests[r]);
    } else {
      NothingBalances(b, e);
    }
  }

  lemma NothingBalances(b: Base, e: Effect)
    requires e.base.auths == b.auths && e.base.attests == b.attests && e.metric.Uncounted?
    ensures Balanced(b, e)
  {
    hide CountIf;
  }

  lemma ArriveBalances(b: Base, r: Rid, cookie: Option<Id>, body: Option<Attestation>)
    ensures Balanced(b, Arrive(b, r, cookie, body))
  {
    hide Balanced, CountIf;
    var e := Arrive(b, r, cookie, body);
    if r in b.attests {
      NothingBalances(b, e);
    } else {
      AttestBalances(b, e, r, e.base.attests[r]);
    }
  }

  lemma BeginBalances(b: Base, r: Rid)
    ensures Balanced(b, Begin(b, r))
  {
    hide Balanced, CountIf;
    var e := Begin(b, r);
    if CanBegin(b, r) {
      AttestBalances(b, e, r, e.base.attests[r]);
    } else {
      NothingBalances(b, e);
    }
  }

  lemma FailCommitBalances(b: Base, r: Rid)
    ensures Balanced(b, FailCommit(b, r))
  {
    hide Balanced, CountIf;
    var e := FailCommit(b, r);
    if Committing(b, r) {
      AttestBalances(b, e, r, e.base.attests[r]);
    } else {
      NothingBalances(b, e);
    }
  }

  lemma EndCommitBalances(b: Base, r: Rid, token: Token)
    ensures Balanced(b, EndCommit(b, r, token))
  {
    hide Balanced, CountIf;
    var e := EndCommit(b, r, token);
    if Committing(b, r) {
      AttestBalances(b, e, r, e.base.attests[r]);
    } else {
      NothingBalances(b, e);
    }
  }

  lemma MoveBalances(cfg: Config, b: Base, move: Move)
    ensures Balanced(b, Moved(cfg, b, move))
  {
    hide Balanced, CountIf, Arrive, Read, Begin, FailCommit, EndCommit;
    var e := Moved(cfg, b, move);
    match move
    case AuthStart(r) =>
      if r in b.auths { NothingBalances(b, e); } else { AuthBalances(b, e, r, AuthInFlight); }
    case AuthFail(r) =>
      if r in b.auths && b.auths[r].AuthInFlight? { AuthBalances(b, e, r, AuthDone); } else { NothingBalances(b, e); }
    case AuthEnd(r, id, _, _) =>
      if r in b.auths && b.auths[r].AuthInFlight? && id !in b.openings { AuthBalances(b, e, r, AuthDone); }
      else { NothingBalances(b, e); }
    case AttestRead(r, order) => ReadBalances(cfg, b, r, order);
    case Purge(_) => NothingBalances(b, e);
    case Tick(_) => NothingBalances(b, e);
    case AttestArrive(r, cookie, body) => ArriveBalances(b, r, cookie, body);
    case CommitBegin(r) => BeginBalances(b, r);
    case CommitFail(r) => FailCommitBalances(b, r);
    case CommitEnd(r, token) => EndCommitBalances(b, r, token);
  }

  lemma CallBalances(cfg: Config, s: State, c: Rid, move: CallMove)
    requires c in s.calls && Called(cfg, s.base, c, s.calls[c], move).Some?
    ensures var e := Called(cfg, s.base, c, s.calls[c], move).value;
            && CountIf(s.calls[c := e.stage], PolicyPending) + PolicyClosed(e.metric)
               == CountIf(s.calls, PolicyPending) + PolicyOpened(e.metric)
            && AuthOpened(e.metric) == AuthClosed(e.metric) == AttestOpened(e.metric) == AttestClosed(e.metric) == 0
  {
    var e := Called(cfg, s.base, c, s.calls[c], move).value;
    CountIfUpdate(s.calls, c, e.stage, PolicyPending);
    hide CountIf, SessionToken;
  }

  lemma StepConserves(cfg: Config, s: State, step: Step)
    requires Conserved(s)
    ensures Conserved(Apply(cfg, s, step))
  {
    hide CountIf, Moved, Called, Count, AuthOpened, AuthClosed, AttestOpened, AttestClosed, PolicyOpened, PolicyClosed;
    match step
    case Handshake(move) =>
      MoveBalances(cfg, s.base, move);
      CountBalances(s.counters, Moved(cfg, s.base, move).metric);
    case CallStart(c, req) =>
      CountIfUpdate(s.calls, c, LookingUp(req), PolicyPending);
    case Call(c, move) =>
      if c in s.calls && Called(cfg, s.base, c, s.calls[c], move).Some? {
        CallBalances(cfg, s, c, move);
        CountBalances(s.counters, Called(cfg, s.base, c, s.calls[c], move).value.metric);
      }
  }

  /** Over every run: authentications are successes, errors or in flight; policy evaluations are approvals,
      violations, errors or in flight; attestations are successes, failures, errors, in flight, or ended with an
      old token, an expired session, a wrong nonce or a panic. */
  lemma {:induction false} CountersConserve(cfg: Config, now: int, steps: seq<Step>)
    ensures Conserved(Run(cfg, Start(now), steps))
  {
    hide Conserved, Apply;
    if steps == [] {
      NothingCounted(now);
    } else {
      CountersConserve(cfg, now, steps[..|steps| - 1]);
      StepConserves(cfg, Run(cfg, Start(now), steps[..|steps| - 1]), steps[|steps| - 1]);
    }
  }

  lemma NothingCounted(now: int)
    ensures Conserved(Start(now))
  {
    var s := Start(now);
    assert Where(s.base.auths, AuthPending) == {};
    assert Where(s.base.attests, AttestUncounted) == {};
    assert Where(s.calls, PolicyPending) == {};
  }
}
