/** From the attester's public key to the key that encrypted replies use: through the evidence, the verifiers,
    the EAR token and the broker's search of the token's claims. */
module KeyPath {
  import opened Wrappers
  import opened Json
  import Text
  import opened Evidence
  import opened Ear
  import opened AttestationService
  import opened TeeKey

  /** The verifier vouched for the runtime data. */
  predicate ReportsData(c: TeeClaims) {
    c.claims.Obj? && "report_data" in c.claims.fields
  }

  /** The claim behind submodule `cpu0`, if there is one. */
  function Cpu0(claims: seq<TeeClaims>): (r: Option<nat>)
    ensures r.Some? ==> r.value < |claims|
  {
    LastNamed(ClassesOf(claims), |claims|, "cpu0")
  }

  /** The built-in service accepted this evidence with these claims and this token body. */
  ghost predicate Accepted(env: Env, es: seq<IndependentEvidence>, claims: seq<TeeClaims>, body: Json) {
    && Readable(es) && EvaluateAll(env, Requests(es)) == Ok(claims)
    && VerifySpec(env, es) == Ok(body)
  }

  lemma AcceptedBody(env: Env, es: seq<IndependentEvidence>, claims: seq<TeeClaims>, body: Json)
    requires Accepted(env, es, claims, body)
    ensures var submods := SubmodsSpec(env.policy, env.mode, "default", claims);
            submods.Ok? && body == TokenBody(env.header, submods.value)
  {
    hide SubmodsSpec, EvaluateAll, TokenBody, Requests;
  }

  /** Accepted evidence was checked piece by piece. */
  lemma AcceptedChecks(env: Env, es: seq<IndependentEvidence>, claims: seq<TeeClaims>, body: Json)
    returns (checks: seq<Check>)
    requires Accepted(env, es, claims, body)
    ensures AllChecked(env, es, checks) && claims == AllClaims(checks)
  {
    hide VerifySpec, AllChecked, AllClaims, EvaluateAll, Requests;
    checks := EvaluatedChecks(env, es);
  }

  /** Down the EAR path of a token body. */
  lemma EarPath(header: map<string, Json>, submods: map<string, Appraisal>)
    ensures var body := TokenBody(header, submods);
            Resolve(body, EarTokens()) ==
            if "cpu0" !in submods then None
            else Resolve(Obj(submods["cpu0"].annotatedEvidence), ["runtime_data_claims", "tee-pubkey"])
  {
    var body := TokenBody(header, submods);
    var mods := body.fields["submods"];
    assert Child(body, EarTokens()[0]) == Some(mods);
    assert Child(mods, EarTokens()[1]) ==
           if "cpu0" in submods then Some(AppraisalJson(submods["cpu0"])) else None;
    ResolveTwo(body, EarTokens(), mods);
    if "cpu0" in submods {
      var appraisal := AppraisalJson(submods["cpu0"]);
      var evidence := Obj(submods["cpu0"].annotatedEvidence);
      assert Child(appraisal, EarTokens()[2]) == Some(evidence);
      ResolveTwo(appraisal, EarTokens()[2..], evidence);
      assert EarTokens()[2..][1..] == ["runtime_data_claims", "tee-pubkey"];
      assert EarTokens()[1..][1..] == EarTokens()[2..];
    }
  }

  lemma ResolveTwo(v: Json, tokens: seq<string>, child: Json)
    requires |tokens| >= 2 && Child(v, tokens[0]) == Some(child)
    ensures Resolve(v, tokens) ==
            (var next :- Child(child, tokens[1]); Resolve(next, tokens[1..][1..]))
    ensures Resolve(v, tokens) == Resolve(child, tokens[1..])
  {
    hide Child;
  }

  /** What the EAR path finds below one submodule's claim map. */
  lemma RuntimeKey(c: TeeClaims, tcb: map<string, Json>, nonce: string, key: Json)
    requires OwnName(c.tee) && Transformed(c) == Ok(tcb) && Carries(c.runtimeData, nonce, key)
    ensures Resolve(Obj(tcb), ["runtime_data_claims", "tee-pubkey"]) == if ReportsData(c) then Some(key) else None
  {
    DataShownIff(c);
    hide Transformed;
    var tokens := ["runtime_data_claims", "tee-pubkey"];
    if ReportsData(c) {
      ResolveTwo(Obj(tcb), tokens, c.runtimeData);
      assert tokens[1..][1..] == [];
    }
  }

  /** Submodule `cpu0` holds the rearranged claims of the claim behind it. */
  lemma Cpu0Holds(policy: Policy, claims: seq<TeeClaims>, submods: map<string, Appraisal>)
    requires Holds(policy, "default", claims, |claims|, submods)
    ensures "cpu0" in submods <==> Cpu0(claims).Some?
    ensures "cpu0" in submods ==> Transformed(claims[Cpu0(claims).value]) == Ok(submods["cpu0"].annotatedEvidence)
  {
    hide LastNamed, ClassesOf, Transformed;
    if Cpu0(claims).Some? {
      assert Appraise(policy, "default", claims[Cpu0(claims).value]) == Ok(submods["cpu0"]);
    }
  }

  /** What the EAR path finds in an accepted token. */
  lemma EarKey(env: Env, es: seq<IndependentEvidence>, claims: seq<TeeClaims>, body: Json,
               nonce: string, key: Json)
    requires Accepted(env, es, claims, body)
    requires forall e :: e in es ==> Carries(e.runtimeData, nonce, key) && OwnName(e.tee)
    ensures var cpu := Cpu0(claims);
            Resolve(body, EarTokens()) == if cpu.Some? && ReportsData(claims[cpu.value]) then Some(key) else None
  {
    AcceptedBody(env, es, claims, body);
    IssuedIff(env.policy, env.mode, "default", claims);
    ClaimsCarry(env, es, nonce, key);
    hide *;
    var submods := SubmodsSpec(env.policy, env.mode, "default", claims).value;
    EarPath(env.header, submods);
    Cpu0Holds(env.policy, claims, submods);
    if Cpu0(claims).Some? {
      var c := claims[Cpu0(claims).value];
      assert c in claims;
      RuntimeKey(c, submods["cpu0"].annotatedEvidence, nonce, key);
    }
  }

  /** A bare key among the token's fields beside the submodules. */
  function BareKey(header: map<string, Json>): Option<Json> {
    if "tee-pubkey" in header then Some(header["tee-pubkey"]) else None
  }

  lemma BarePath(header: map<string, Json>, submods: map<string, Appraisal>)
    ensures Resolve(TokenBody(header, submods), ValueTokens()) == BareKey(header)
  {
    var body := TokenBody(header, submods);
    assert ValueTokens()[1..] == [] && ValueTokens()[0] == "tee-pubkey";
    assert Child(body, ValueTokens()[0]) == BareKey(header);
  }

  /** What the paths from the EAR path on find in an accepted token: the key of the evidence exactly when the
      `cpu0` claim reports its data, and else the bare key, if there is one. */
  function FoundKey(header: map<string, Json>, claims: seq<TeeClaims>, key: Json): Option<Json> {
    var cpu := Cpu0(claims);
    if cpu.Some? && ReportsData(claims[cpu.value]) then Some(key) else BareKey(header)
  }

  lemma PathsFind(env: Env, configured: seq<string>, es: seq<IndependentEvidence>, claims: seq<TeeClaims>, body: Json,
                  nonce: string, key: Json)
    requires Accepted(env, es, claims, body) && NothingBeforeEar(configured, body)
    requires forall e :: e in es ==> Carries(e.runtimeData, nonce, key) && OwnName(e.tee)
    ensures FirstResolved(body, KeyPaths(configured)) == FoundKey(env.header, claims, key)
  {
    hide *;
    AcceptedBody(env, es, claims, body);
    EarKey(env, es, claims, body, nonce, key);
    EarPathDecides(configured, body);
    BarePath(env.header, SubmodsSpec(env.policy, env.mode, "default", claims).value);
    FoundKeyIs(env.header, claims, key);
  }

  lemma FoundKeyIs(header: map<string, Json>, claims: seq<TeeClaims>, key: Json)
    ensures FoundKey(header, claims, key) ==
            if Cpu0(claims).Some? && ReportsData(claims[Cpu0(claims).value]) then Some(key) else BareKey(header)
  {
    hide Cpu0, ReportsData, BareKey;
  }

  /** The outcome of reading the key that was found. */
  function KeyOutcome<K>(read: Json -> Option<K>, found: Option<Json>): Outcome<K, KeyError> {
    if found.None? then Err(NoKeyFound) else OrErr(read(found.value), KeyParseFailed)
  }

  lemma KeySpecIs<K>(read: Json -> Option<K>, configured: seq<string>, claims: Json)
    ensures KeySpec(read, configured, claims) == KeyOutcome(read, FirstResolved(claims, KeyPaths(configured)))
  {
    hide FirstResolved, KeyPaths;
  }

  /** The key that the broker extracts from a token for this evidence. */
  lemma KeyOfAccepted<K>(env: Env, read: Json -> Option<K>, configured: seq<string>, es: seq<IndependentEvidence>,
                         claims: seq<TeeClaims>, body: Json, nonce: string, key: Json)
    requires Accepted(env, es, claims, body) && NothingBeforeEar(configured, body)
    requires forall e :: e in es ==> Carries(e.runtimeData, nonce, key) && OwnName(e.tee)
    ensures KeySpec(read, configured, body) == KeyOutcome(read, FoundKey(env.header, claims, key))
  {
    hide *;
    PathsFind(env, configured, es, claims, body, nonce, key);
    KeySpecIs(read, configured, body);
  }

  /** End to end: every piece of the evidence was checked by its verifier against the digest of runtime data that carry
      the attester's nonce and key.  When no path before the EAR path leads anywhere, the broker extracts that key
      exactly when the `cpu0` claim reports its data, and otherwise a bare key, if the token has one, in whatever order
      the additional evidence was visited. */
  lemma AttesterKeyEndToEnd<K>(env: Env, read: Json -> Option<K>, configured: seq<string>, tee: Tee, nonce: string,
                               a: Attestation, devices: map<Tee, Json>, order: seq<Tee>,
                               claims: seq<TeeClaims>, body: Json)
    returns (checks: seq<Check>)
    requires forall t :: t in order ==> t in devices
    requires Accepted(env, EvidenceList(tee, nonce, a, devices, order), claims, body)
    requires forall e :: e in EvidenceList(tee, nonce, a, devices, order) ==> OwnName(e.tee)
    requires NothingBeforeEar(configured, body)
    ensures var es := EvidenceList(tee, nonce, a, devices, order);
            AllChecked(env, es, checks) && claims == AllClaims(checks) && Bound(es, tee, nonce, a.teePubkey)
    ensures KeySpec(read, configured, body) ==
            var cpu := Cpu0(claims);
            if cpu.Some? && ReportsData(claims[cpu.value]) then OrErr(read(a.teePubkey), KeyParseFailed)
            else if "tee-pubkey" in env.header then OrErr(read(env.header["tee-pubkey"]), KeyParseFailed)
            else Err(NoKeyFound)
  {
    hide Accepted, EvidenceList, NothingBeforeEar, Carries, Cpu0, ReportsData, KeySpec, OwnName, AllChecked, AllClaims;
    EvidenceBound(tee, nonce, a, devices, order);
    checks := AcceptedChecks(env, EvidenceList(tee, nonce, a, devices, order), claims, body);
    KeyOfAccepted(env, read, configured, EvidenceList(tee, nonce, a, devices, order), claims, body, nonce, a.teePubkey);
  }

  // ----- which claim is cpu0 -----

  lemma NamedCpu0(classes: seq<string>, i: nat)
    requires i < |classes| && Rank(classes, i) < 256
    ensures Name(classes, i) == "cpu0" <==> classes[i] == "cpu" && Rank(classes, i) == 0
  {
    var r := Rank(classes, i);
    Text.DecInjective(r, 0);
    hide Rank, Text.Dec;
    if Name(classes, i) == "cpu0" {
      DigitsOfCpu0(classes[i], Text.Dec(r));
    }
  }

  lemma DigitsOfCpu0(c: string, digits: string)
    requires c + digits == "cpu0" && digits != "" && Text.AllDigits(digits)
    ensures c == "cpu" && digits == "0"
  {
    var name := "cpu0";
    assert forall k :: |c| <= k < 4 ==> name[k] == digits[k - |c|];
    assert !Text.IsDigit(name[2]);
    assert |c| == 3;
    assert c == name[..3] && digits == name[3..];
  }

  /** Unless numbers wrap, submodule `cpu0` is the first claim of class `cpu`. */
  lemma Cpu0IsFirst(claims: seq<TeeClaims>)
    requires AtMost256(ClassesOf(claims))
    ensures var cpu := Cpu0(claims);
            if cpu.Some? then
              claims[cpu.value].teeClass == "cpu" && forall i :: 0 <= i < cpu.value ==> claims[i].teeClass != "cpu"
            else forall i :: 0 <= i < |claims| ==> claims[i].teeClass != "cpu"
  {
    var classes, cpu := ClassesOf(claims), Cpu0(claims);
    hide LastNamed, ClassesOf, Count, Name;
    var n := if cpu.Some? then cpu.value else |claims|;
    if cpu.Some? {
      NamedCpu0(classes, cpu.value);
    }
    forall i | 0 <= i < n
      ensures classes[i] != "cpu"
    {
      if classes[i] == "cpu" {
        RanksIncrease(classes, i, n);
        RanksIncrease(classes, i, |classes|);
        assert classes[..|classes|] == classes;
        var j := RankExists(classes, "cpu", 0);
        NamedCpu0(classes, j);
      }
    }
  }
}
