/** The attestation service as the key broker calls it: every piece of evidence is verified on its own and all
    results go into one EAR token. */
module AttestationService {
  import opened Wrappers
  import opened Bytes
  import opened Json
  import opened Evidence
  import opened Ear

  datatype RuntimeInput = Raw(bytes: seq<Byte>) | Structured(data: Json)

  datatype InitInput = DigestValue(bytes: seq<Byte>) | Toml(text: string)

  datatype Request =
    Request(tee: Tee, evidence: Json, runtimeData: Option<RuntimeInput>, initData: Option<InitInput>)

  datatype AsError =
    | NoRequests
    | UnsupportedInitData
    | UnsupportedTee
    | MalformedRuntimeData
    | MalformedInitData
    | VerifierFailed
    | NoReferenceValues
    | IssueFailed(error: IssueError)

  /** The code that the service calls: the verifiers, hashing of canonical JSON, reading of init data, the
      reference values and the policy engine, and the token's fields beside the submodules. */
  datatype Env = Env(
    supported: Tee -> Outcome<(), AsError>,
    verify: (Tee, Json, Option<seq<Byte>>, Option<seq<Byte>>) -> Outcome<seq<(Json, string)>, AsError>,
    digest: Json -> Outcome<seq<Byte>, AsError>,
    readInitData: string -> Outcome<(seq<Byte>, Json), AsError>,
    referenceValues: Outcome<(), AsError>,
    policy: Policy,
    mode: OverflowMode,
    header: map<string, Json>)

  // ----- one request -----

  /** The bytes the evidence must report, and the claims they stand for. */
  function ParseRuntimeData(env: Env, data: Option<RuntimeInput>): Outcome<(Option<seq<Byte>>, Json), AsError> {
    match data
    case None => Ok((None, Null))
    case Some(Raw(bytes)) => Ok((Some(bytes), Null))
    case Some(Structured(json)) =>
      var digest :- env.digest(json);
      Ok((Some(digest), json))
  }

  function ParseInitData(env: Env, data: Option<InitInput>): Outcome<(Option<seq<Byte>>, Json), AsError> {
    match data
    case None => Ok((None, Null))
    case Some(DigestValue(bytes)) => Ok((Some(bytes), Null))
    case Some(Toml(text)) =>
      var parsed :- env.readInitData(text);
      Ok((Some(parsed.0), parsed.1))
  }

  function Labelled(tee: Tee, verified: seq<(Json, string)>, initData: Json, runtimeData: Json)
    : (cs: seq<TeeClaims>)
    ensures |cs| == |verified|
    ensures forall c :: c in cs ==> c.tee == tee && c.runtimeData == runtimeData
  {
    if verified == [] then []
    else
      var last := verified[|verified| - 1];
      Labelled(tee, verified[..|verified| - 1], initData, runtimeData)
      + [TeeClaims(tee, last.1, last.0, initData, runtimeData)]
  }

  function EvaluateOne(env: Env, r: Request): Outcome<seq<TeeClaims>, AsError> {
    var _ :- env.supported(r.tee);
    var runtime :- ParseRuntimeData(env, r.runtimeData);
    var init :- ParseInitData(env, r.initData);
    var verified :- env.verify(r.tee, r.evidence, runtime.0, init.0);
    Ok(Labelled(r.tee, verified, init.1, runtime.1))
  }

  /** The claims of all requests in order; the first failure ends the call. */
  function EvaluateAll(env: Env, rs: seq<Request>): Outcome<seq<TeeClaims>, AsError> {
    if rs == [] then
      Ok([])
    else
      var before :- EvaluateAll(env, rs[..|rs| - 1]);
      var last :- EvaluateOne(env, rs[|rs| - 1]);
      Ok(before + last)
  }

  lemma {:induction false} EvaluateFails(env: Env, rs: seq<Request>, n: nat)
    requires n <= |rs| && !EvaluateAll(env, rs[..n]).Ok?
    ensures EvaluateAll(env, rs) == EvaluateAll(env, rs[..n])
    decreases |rs|
  {
    hide EvaluateOne;
    if n < |rs| {
      assert rs[..|rs| - 1][..n] == rs[..n];
      EvaluateFails(env, rs[..|rs| - 1], n);
    } else {
      assert rs[..n] == rs;
    }
  }

  // ----- the token -----

  function AppraisalJson(a: Appraisal): Json {
    Obj(map["ear.status" := a.verdict,
            "ear.appraisal-policy-id" := Str(a.policyId),
            "ear.veraison.annotated-evidence" := Obj(a.annotatedEvidence)])
  }

  function TokenBody(header: map<string, Json>, submods: map<string, Appraisal>): Json {
    Obj(header["submods" := Obj(map name | name in submods :: AppraisalJson(submods[name]))])
  }

  function IssueSpec(env: Env, policyIds: seq<string>, claims: seq<TeeClaims>): Outcome<Json, AsError> {
    if policyIds == [] then
      Err(IssueFailed(NoPolicy))
    else
      match SubmodsSpec(env.policy, env.mode, policyIds[0], claims)
      case Ok(submods) => Ok(TokenBody(env.header, submods))
      case Err(e) => Err(IssueFailed(e))
      case Abort => Abort
  }

  function EvaluateSpec(env: Env, rs: seq<Request>, policyIds: seq<string>): Outcome<Json, AsError> {
    if rs == [] then
      Err(NoRequests)
    else
      var claims :- EvaluateAll(env, rs);
      var _ :- env.referenceValues;
      IssueSpec(env, policyIds, claims)
  }

  method EvaluateRequest(env: Env, r: Request, before: seq<TeeClaims>)
    returns (claims: Outcome<seq<TeeClaims>, AsError>)
    ensures claims == var one :- EvaluateOne(env, r); Ok(before + one)
  {
    var _ :- env.supported(r.tee);
    var runtime :- ParseRuntimeData(env, r.runtimeData);
    var init :- ParseInitData(env, r.initData);
    var verified :- env.verify(r.tee, r.evidence, runtime.0, init.0);
    var all := before;
    for k := 0 to |verified|
      invariant all == before + Labelled(r.tee, verified[..k], init.1, runtime.1)
    {
      assert verified[..k + 1][..k] == verified[..k];
      all := all + [TeeClaims(r.tee, verified[k].1, verified[k].0, init.1, runtime.1)];
    }
    assert verified[..|verified|] == verified;
    return Ok(all);
  }

  method Evaluate(env: Env, rs: seq<Request>, policyIds: seq<string>) returns (r: Outcome<Json, AsError>)
    ensures r == EvaluateSpec(env, rs, policyIds)
  {
    if rs == [] {
      return Err(NoRequests);
    }
    var claims: seq<TeeClaims> := [];
    for i := 0 to |rs|
      invariant EvaluateAll(env, rs[..i]) == Ok(claims)
    {
      hide EvaluateOne;
      assert rs[..i + 1][..i] == rs[..i];
      var next := EvaluateRequest(env, rs[i], claims);
      if next.IsFailure() {
        EvaluateFails(env, rs, i + 1);
        return next.PropagateFailure();
      }
      claims := next.value;
    }
    assert rs[..|rs|] == rs;
    var _ :- env.referenceValues;
    var submods := Issue(env.policy, env.mode, policyIds, claims);
    match submods
    case Ok(s) => return Ok(TokenBody(env.header, s));
    case Err(e) => return Err(IssueFailed(e));
    case Abort => return Abort;
  }

  // ----- the built-in service behind the key broker -----

  function RequestOf(e: IndependentEvidence): Outcome<Request, AsError> {
    match e.initData
    case None => Ok(Request(e.tee, e.evidence, Some(Structured(e.runtimeData)), None))
    case Some(init) =>
      if init.format != "toml" then Err(UnsupportedInitData)
      else Ok(Request(e.tee, e.evidence, Some(Structured(e.runtimeData)), Some(Toml(init.body))))
  }

  predicate Readable(es: seq<IndependentEvidence>) {
    forall i :: 0 <= i < |es| ==> RequestOf(es[i]).Ok?
  }

  function Requests(es: seq<IndependentEvidence>): (rs: seq<Request>)
    requires Readable(es)
    ensures |rs| == |es|
  {
    seq(|es|, i requires 0 <= i < |es| => RequestOf(es[i]).value)
  }

  function VerifySpec(env: Env, es: seq<IndependentEvidence>): Outcome<Json, AsError> {
    if Readable(es) then EvaluateSpec(env, Requests(es), ["default"]) else Err(UnsupportedInitData)
  }

  method Verify(env: Env, es: seq<IndependentEvidence>) returns (r: Outcome<Json, AsError>)
    ensures r == VerifySpec(env, es)
  {
    var requests: seq<Request> := [];
    for i := 0 to |es|
      invariant Readable(es[..i]) && requests == Requests(es[..i])
    {
      var init: Option<InitInput> := None;
      if es[i].initData.Some? {
        if es[i].initData.value.format != "toml" {
          assert !RequestOf(es[i]).Ok?;
          return Err(UnsupportedInitData);
        }
        init := Some(Toml(es[i].initData.value.body));
      }
      requests := requests + [Request(es[i].tee, es[i].evidence, Some(Structured(es[i].runtimeData)), init)];
    }
    assert es[..|es|] == es;
    r := Evaluate(env, requests, ["default"]);
  }

  // ----- what the claims carry -----

  lemma {:induction false} ClaimsCarry(env: Env, es: seq<IndependentEvidence>, nonce: string, key: Json)
    requires Readable(es) && EvaluateAll(env, Requests(es)).Ok?
    requires forall e :: e in es ==> Carries(e.runtimeData, nonce, key)
    ensures forall c :: c in EvaluateAll(env, Requests(es)).value ==>
              Carries(c.runtimeData, nonce, key) && exists e :: e in es && c.tee == e.tee
  {
    hide Carries;
    if es != [] {
      var n := |es| - 1;
      assert Requests(es)[..n] == Requests(es[..n]);
      ClaimsCarry(env, es[..n], nonce, key);
      assert es[n] in es && es[..n] <= es;
      var one := EvaluateOne(env, Requests(es)[n]).value;
      assert forall c :: c in one ==> c.tee == es[n].tee && c.runtimeData == es[n].runtimeData;
    }
  }

  // ----- what was checked -----

  /** What the verifier of one piece of evidence was asked, what it answered, and the claims made of that. */
  datatype Check = Check(digest: seq<Byte>, init: Option<seq<Byte>>, initClaims: Json, verified: seq<(Json, string)>,
                         claims: seq<TeeClaims>)

  /** The verifier of the piece's TEE was given the piece's evidence, the digest of its own runtime data and that of its
      own init data; each of its answers became a claim, with its class and the data that the piece was checked against. */
  predicate Checked(env: Env, e: IndependentEvidence, c: Check) {
    && env.supported(e.tee).Ok?
    && env.digest(e.runtimeData) == Ok(c.digest)
    && (if e.initData.None? then c.init == None && c.initClaims == Null
        else e.initData.value.format == "toml" && c.init.Some?
             && env.readInitData(e.initData.value.body) == Ok((c.init.value, c.initClaims)))
    && env.verify(e.tee, e.evidence, Some(c.digest), c.init) == Ok(c.verified)
    && |c.claims| == |c.verified|
    && forall j :: 0 <= j < |c.verified| ==>
         c.claims[j] == TeeClaims(e.tee, c.verified[j].1, c.verified[j].0, c.initClaims, e.runtimeData)
  }

  /** The claims of all pieces in order. */
  function AllClaims(checks: seq<Check>): seq<TeeClaims> {
    if checks == [] then [] else AllClaims(checks[..|checks| - 1]) + checks[|checks| - 1].claims
  }

  predicate AllChecked(env: Env, es: seq<IndependentEvidence>, checks: seq<Check>) {
    |checks| == |es| && forall k :: 0 <= k < |es| ==> Checked(env, es[k], checks[k])
  }

  lemma {:induction false} LabelledAt(tee: Tee, verified: seq<(Json, string)>, initData: Json, runtimeData: Json, j: nat)
    requires j < |verified|
    ensures Labelled(tee, verified, initData, runtimeData)[j] ==
            TeeClaims(tee, verified[j].1, verified[j].0, initData, runtimeData)
    decreases |verified|
  {
    if j < |verified| - 1 {
      LabelledAt(tee, verified[..|verified| - 1], initData, runtimeData, j);
    }
  }

  /** The labelled claims are the only ones that a check can have. */
  lemma LabelledOnly(e: IndependentEvidence, c: Check)
    ensures var cs := Labelled(e.tee, c.verified, c.initClaims, e.runtimeData);
            c.claims == cs <==>
            && |c.claims| == |c.verified|
            && forall j :: 0 <= j < |c.verified| ==>
                 c.claims[j] == TeeClaims(e.tee, c.verified[j].1, c.verified[j].0, c.initClaims, e.runtimeData)
  {
    var cs := Labelled(e.tee, c.verified, c.initClaims, e.runtimeData);
    forall j: nat | j < |c.verified|
      ensures cs[j] == TeeClaims(e.tee, c.verified[j].1, c.verified[j].0, c.initClaims, e.runtimeData)
    {
      LabelledAt(e.tee, c.verified, c.initClaims, e.runtimeData, j);
    }
    hide Labelled;
  }

  /** One piece is evaluated exactly when it is readable and checked. */
  lemma CheckedDecides(env: Env, e: IndependentEvidence, c: Check)
    requires Checked(env, e, c)
    ensures RequestOf(e).Ok? && EvaluateOne(env, RequestOf(e).value) == Ok(c.claims)
  {
    hide Labelled;
    LabelledOnly(e, c);
  }

  lemma EvaluatedIsChecked(env: Env, e: IndependentEvidence) returns (c: Check)
    requires RequestOf(e).Ok? && EvaluateOne(env, RequestOf(e).value).Ok?
    ensures Checked(env, e, c)
  {
    hide Labelled;
    var r := RequestOf(e).value;
    var runtime, init := ParseRuntimeData(env, r.runtimeData).value, ParseInitData(env, r.initData).value;
    c := Check(runtime.0.value, init.0, init.1, env.verify(r.tee, r.evidence, runtime.0, init.0).value,
               EvaluateOne(env, r).value);
    LabelledOnly(e, c);
  }

  /** The last piece is evaluated after the others. */
  lemma EvaluateLast(env: Env, es: seq<IndependentEvidence>)
    requires es != [] && Readable(es)
    ensures var n := |es| - 1;
            && Readable(es[..n]) && RequestOf(es[n]).Ok?
            && EvaluateAll(env, Requests(es)) ==
               (var before :- EvaluateAll(env, Requests(es[..n]));
                var last :- EvaluateOne(env, RequestOf(es[n]).value);
                Ok(before + last))
  {
    hide EvaluateOne, RequestOf;
    var n := |es| - 1;
    assert Requests(es)[..n] == Requests(es[..n]);
  }

  /** Whatever evaluation accepts was checked piece by piece. */
  lemma {:induction false} EvaluatedChecks(env: Env, es: seq<IndependentEvidence>) returns (checks: seq<Check>)
    requires Readable(es) && EvaluateAll(env, Requests(es)).Ok?
    ensures AllChecked(env, es, checks) && EvaluateAll(env, Requests(es)) == Ok(AllClaims(checks))
  {
    if es == [] {
      checks := [];
      assert Requests(es) == [];
      return;
    }
    hide *;
    var n := |es| - 1;
    EvaluateLast(env, es);
    checks := EvaluatedChecks(env, es[..n]);
    var c := EvaluatedIsChecked(env, es[n]);
    CheckedDecides(env, es[n], c);
    OneMore(env, es, checks, c);
    checks := checks + [c];
  }

  lemma OneMore(env: Env, es: seq<IndependentEvidence>, checks: seq<Check>, c: Check)
    requires es != [] && AllChecked(env, es[..|es| - 1], checks) && Checked(env, es[|es| - 1], c)
    ensures AllChecked(env, es, checks + [c]) && AllClaims(checks + [c]) == AllClaims(checks) + c.claims
  {
    hide Checked;
    var n := |es| - 1;
    assert (checks + [c])[..n] == checks;
    forall k | 0 <= k < |es|
      ensures Checked(env, es[k], (checks + [c])[k])
    {
      assert k < n ==> es[..n][k] == es[k];
    }
  }

  /** Whatever was checked piece by piece, evaluation accepts. */
  lemma {:induction false} ChecksEvaluate(env: Env, es: seq<IndependentEvidence>, checks: seq<Check>)
    requires AllChecked(env, es, checks)
    ensures Readable(es) && EvaluateAll(env, Requests(es)) == Ok(AllClaims(checks))
    decreases |es|
  {
    hide EvaluateOne, Checked, RequestOf;
    if es == [] {
      assert Requests(es) == [];
    } else {
      var n := |es| - 1;
      ChecksEvaluate(env, es[..n], checks[..n]);
      CheckedDecides(env, es[n], checks[n]);
      assert forall i :: 0 <= i < n ==> es[i] == es[..n][i];
      assert Requests(es)[..n] == Requests(es[..n]);
    }
  }

  /** The token body for evidence, without reference to how it is computed: every piece was checked against its own
      runtime and init data, reference values were there, and the claims of all pieces were issued. */
  ghost predicate Issued(env: Env, es: seq<IndependentEvidence>, checks: seq<Check>, submods: map<string, Appraisal>,
                         body: Json)
  {
    && es != [] && AllChecked(env, es, checks) && env.referenceValues.Ok?
    && SubmodsSpec(env.policy, env.mode, "default", AllClaims(checks)) == Ok(submods)
    && body == TokenBody(env.header, submods)
  }

  /** The built-in service issues a token for evidence if and only if that holds. */
  lemma VerifyIff(env: Env, es: seq<IndependentEvidence>, body: Json)
    ensures VerifySpec(env, es) == Ok(body) <==> exists checks, submods :: Issued(env, es, checks, submods, body)
  {
    hide EvaluateAll, AllChecked, SubmodsSpec, TokenBody, Requests, AllClaims;
    if VerifySpec(env, es) == Ok(body) {
      RequestsEmpty(es);
      var checks := EvaluatedChecks(env, es);
      var submods := SubmodsSpec(env.policy, env.mode, "default", AllClaims(checks)).value;
      assert Issued(env, es, checks, submods, body);
    }
    if checks, submods :| Issued(env, es, checks, submods, body) {
      ChecksEvaluate(env, es, checks);
      RequestsEmpty(es);
    }
  }

  lemma RequestsEmpty(es: seq<IndependentEvidence>)
    requires Readable(es)
    ensures Requests(es) == [] <==> es == []
  {
  }
}
