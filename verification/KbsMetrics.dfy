/** Each metric of the key broker counts exactly the steps it is named after. */
module KbsMetrics {
  import opened Wrappers
  import opened Json
  import opened Evidence
  import opened Kbs

  /** How many steps of a run, from state `s`, are of one kind in the state they are taken in. */
  function Steps(cfg: Config, s: State, steps: seq<Step>, kind: (State, Step) -> bool): nat {
    if steps == [] then 0
    else
      var n := |steps| - 1;
      Steps(cfg, s, steps[..n], kind) + (if kind(Run(cfg, s, steps[..n]), steps[n]) then 1 else 0)
  }

  // ----- kinds of steps -----

  predicate StartsAuth(s: State, step: Step) {
    step.Handshake? && step.move.AuthStart? && step.move.rid !in s.base.auths
  }

  predicate AuthRuns(s: State, r: Rid) {
    r in s.base.auths && s.base.auths[r].AuthInFlight?
  }

  predicate OpensSession(s: State, step: Step) {
    step.Handshake? && step.move.AuthEnd? && AuthRuns(s, step.move.rid) && step.move.id !in s.base.openings
  }

  predicate FailsAuth(s: State, step: Step) {
    step.Handshake? && step.move.AuthFail? && AuthRuns(s, step.move.rid)
  }

  predicate Attests(s: State, step: Step) {
    step.Handshake? && step.move.AttestArrive? && step.move.rid !in s.base.attests
  }

  predicate Verifies(s: State, r: Rid) {
    r in s.base.attests && s.base.attests[r].Verifying? && s.base.attests[r].id in s.base.sessions
  }

  predicate RecordsToken(s: State, step: Step) {
    step.Handshake? && step.move.CommitEnd? && Verifies(s, step.move.rid)
  }

  predicate FailsVerification(s: State, step: Step) {
    step.Handshake? && step.move.CommitFail? && Verifies(s, step.move.rid)
  }

  /** A request without a cookie or without a message. */
  predicate Rejects(s: State, step: Step) {
    Attests(s, step) && (step.move.cookie.None? || step.move.body.None?)
  }

  /** A read that finds no session, or a session it could use but additional evidence that does not parse. */
  predicate ReadErrs(cfg: Config, s: State, step: Step) {
    && step.Handshake? && step.move.AttestRead? && CanRead(cfg, s.base, step.move.rid, step.move.order)
    && var id, m := s.base.attests[step.move.rid].id, s.base.attests[step.move.rid].message;
       id in s.base.sessions ==>
         var session := s.base.sessions[id];
         && session.Authed? && s.base.now <= session.timeout && session.nonce == m.nonce
         && m.additional != "" && cfg.readAdditional(m.additional).None?
  }

  /** A commit section that finds no session. */
  predicate CommitErrs(s: State, step: Step) {
    && step.Handshake? && step.move.CommitBegin? && step.move.rid in s.base.attests
    && s.base.attests[step.move.rid].Ready?
    && s.base.attests[step.move.rid].id !in s.base.locks && s.base.attests[step.move.rid].id !in s.base.sessions
  }

  predicate JudgedIn(s: State, c: Rid, phase: Phase) {
    c in s.calls && s.calls[c].Judged? && s.calls[c].phase == phase
  }

  predicate AsksPolicy(s: State, step: Step) {
    step.Call? && step.next == PolicyBegin && JudgedIn(s, step.call, Checked)
  }

  predicate Approves(s: State, step: Step) {
    step.Call? && step.next == PolicyEnd(Some(true)) && JudgedIn(s, step.call, Deciding)
  }

  predicate Denies(s: State, step: Step) {
    step.Call? && step.next == PolicyEnd(Some(false)) && JudgedIn(s, step.call, Deciding)
  }

  predicate FailsPolicy(s: State, step: Step) {
    step.Call? && step.next == PolicyEnd(None) && JudgedIn(s, step.call, Deciding)
  }

  // ----- one step -----

  function Bit(p: bool): nat { if p then 1 else 0 }

  /** What one step adds to each metric. */
  predicate Adds(cfg: Config, s: State, step: Step, c: Counters, d: Counters) {
    && d.authRequests == c.authRequests + Bit(StartsAuth(s, step))
    && d.authSuccesses == c.authSuccesses + Bit(OpensSession(s, step))
    && d.authErrors == c.authErrors + Bit(FailsAuth(s, step))
    && d.attestRequests == c.attestRequests + Bit(Attests(s, step))
    && d.attestSuccesses == c.attestSuccesses + Bit(RecordsToken(s, step))
    && d.attestFailures == c.attestFailures + Bit(FailsVerification(s, step))
    && d.attestErrors == c.attestErrors + Bit(Rejects(s, step) || ReadErrs(cfg, s, step) || CommitErrs(s, step))
    && d.policyEvals == c.policyEvals + Bit(AsksPolicy(s, step))
    && d.policyApprovals == c.policyApprovals + Bit(Approves(s, step))
    && d.policyViolations == c.policyViolations + Bit(Denies(s, step))
    && d.policyErrors == c.policyErrors + Bit(FailsPolicy(s, step))
  }

  lemma ReadAdds(cfg: Config, s: State, step: Step)
    requires step.Handshake? && step.move.AttestRead?
    ensures Adds(cfg, s, step, s.counters, Count(s.counters, Moved(cfg, s.base, step.move).metric))
  {
    hide EvidenceList, Lists;
  }

  lemma BeginAdds(cfg: Config, s: State, step: Step)
    requires step.Handshake? && step.move.CommitBegin?
    ensures Adds(cfg, s, step, s.counters, Count(s.counters, Moved(cfg, s.base, step.move).metric))
  {
  }

  lemma OtherMovesAdd(cfg: Config, s: State, step: Step)
    requires step.Handshake? && !step.move.AttestRead? && !step.move.CommitBegin?
    ensures Adds(cfg, s, step, s.counters, Count(s.counters, Moved(cfg, s.base, step.move).metric))
  {
    hide Session.Attest, Read, Begin;
  }

  lemma CallAdds(cfg: Config, s: State, step: Step)
    requires step.Call?
    ensures Adds(cfg, s, step, s.counters, Apply(cfg, s, step).counters)
  {
    hide SessionToken;
  }

  lemma StepAdds(cfg: Config, s: State, step: Step)
    ensures Adds(cfg, s, step, s.counters, Apply(cfg, s, step).counters)
  {
    if step.Call? {
      CallAdds(cfg, s, step);
    } else if step.Handshake? {
      hide Moved, Count;
      if step.move.AttestRead? {
        ReadAdds(cfg, s, step);
      } else if step.move.CommitBegin? {
        BeginAdds(cfg, s, step);
      } else {
        OtherMovesAdd(cfg, s, step);
      }
    }
  }

  // ----- every run -----

  /** Over every run each metric is the number of steps of its kind. */
  lemma {:induction false} MetricsCount(cfg: Config, now: int, steps: seq<Step>)
    ensures var c, s := Run(cfg, Start(now), steps).counters, Start(now);
            && c.authRequests == Steps(cfg, s, steps, StartsAuth)
            && c.authSuccesses == Steps(cfg, s, steps, OpensSession)
            && c.authErrors == Steps(cfg, s, steps, FailsAuth)
            && c.attestRequests == Steps(cfg, s, steps, Attests)
            && c.attestSuccesses == Steps(cfg, s, steps, RecordsToken)
            && c.attestFailures == Steps(cfg, s, steps, FailsVerification)
            && c.attestErrors == Steps(cfg, s, steps, (t, step) => Rejects(t, step) || ReadErrs(cfg, t, step) || CommitErrs(t, step))
            && c.policyEvals == Steps(cfg, s, steps, AsksPolicy)
            && c.policyApprovals == Steps(cfg, s, steps, Approves)
            && c.policyViolations == Steps(cfg, s, steps, Denies)
            && c.policyErrors == Steps(cfg, s, steps, FailsPolicy)
  {
    if steps != [] {
      hide Apply, StartsAuth, OpensSession, FailsAuth, Attests, RecordsToken, FailsVerification, Rejects, ReadErrs, CommitErrs,
           AsksPolicy, Approves, Denies, FailsPolicy;
      var n := |steps| - 1;
      MetricsCount(cfg, now, steps[..n]);
      StepAdds(cfg, Run(cfg, Start(now), steps[..n]), steps[n]);
    }
  }

  // ----- the clock -----

  function Elapsed(steps: seq<Step>): nat {
    if steps == [] then 0
    else
      var last := steps[|steps| - 1];
      Elapsed(steps[..|steps| - 1]) + (if last.Handshake? && last.move.Tick? then last.move.elapsed else 0)
  }

  lemma MoveTicks(cfg: Config, b: Base, move: Move)
    ensures Moved(cfg, b, move).base.now == b.now + if move.Tick? then move.elapsed else 0
  {
    hide StartAuth, FailAuth, Arrive, Read, Begin, FailCommit, PurgeOne, Session.Attest;
  }

  /** The clock shows the time that has passed since the start. */
  lemma {:induction false} ClockRuns(cfg: Config, now: int, steps: seq<Step>)
    ensures Run(cfg, Start(now), steps).base.now == now + Elapsed(steps)
  {
    if steps != [] {
      hide Moved, Called;
      ClockRuns(cfg, now, steps[..|steps| - 1]);
      var last := steps[|steps| - 1];
      if last.Handshake? {
        MoveTicks(cfg, Run(cfg, Start(now), steps[..|steps| - 1]).base, last.move);
      }
    }
  }
}
