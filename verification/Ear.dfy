/** Issuing an EAR token: one submodule per claim, named by the claim's class and its number within the
    class, holding the rearranged claim. */
module Ear {
  import opened Wrappers
  import opened Text
  import opened Json
  import opened Evidence

  /** How many of the classes equal `c`. */
  function Count(classes: seq<string>, c: string): nat {
    if classes == [] then 0
    else Count(classes[..|classes| - 1], c) + (if classes[|classes| - 1] == c then 1 else 0)
  }

  /** The number of a claim within its class, from zero. */
  function Rank(classes: seq<string>, i: nat): nat
    requires i < |classes|
  {
    Count(classes[..i], classes[i])
  }

  /** The number is kept in eight bits. */
  function Name(classes: seq<string>, i: nat): string
    requires i < |classes|
  {
    classes[i] + Dec(Rank(classes, i) % 256)
  }

  predicate AtMost256(classes: seq<string>) {
    forall i :: 0 <= i < |classes| ==> Rank(classes, i) < 256
  }

  lemma {:induction false} CountPrefix(classes: seq<string>, n: nat, c: string)
    requires n <= |classes|
    ensures Count(classes[..n], c) <= Count(classes, c)
    decreases |classes|
  {
    if n < |classes| {
      assert classes[..|classes| - 1][..n] == classes[..n];
      CountPrefix(classes[..|classes| - 1], n, c);
    } else {
      assert classes[..n] == classes;
    }
  }

  /** The counters after the given classes: the last number given out, in eight bits. */
  ghost predicate Indices(mode: OverflowMode, indices: map<string, nat>, seen: seq<string>) {
    forall c :: && (c in indices <==> Count(seen, c) > 0)
                && (c in indices ==> indices[c] == (Count(seen, c) - 1) % 256)
                && (c in indices && mode.Panics? ==> Count(seen, c) <= 256)
  }

  /** The next number of a class. */
  function Next(indices: map<string, nat>, c: string): nat {
    if c in indices then (indices[c] + 1) % 256 else 0
  }

  predicate Overflows(mode: OverflowMode, indices: map<string, nat>, c: string) {
    mode.Panics? && c in indices && indices[c] == 255
  }

  lemma NextIsRank(mode: OverflowMode, indices: map<string, nat>, classes: seq<string>, i: nat)
    requires i < |classes| && Indices(mode, indices, classes[..i])
    ensures Name(classes, i) == classes[i] + Dec(Next(indices, classes[i]))
    ensures mode.Panics? ==> (Overflows(mode, indices, classes[i]) <==> Rank(classes, i) >= 256)
  {
    assert Next(indices, classes[i]) == Rank(classes, i) % 256 by {
      hide Count, Dec;
    }
    hide Count, Dec, AllDigits, Next;
  }

  /** Advance the counter of one class. */
  method Bump(mode: OverflowMode, indices: map<string, nat>, c: string)
    returns (r: Outcome<map<string, nat>, IssueError>)
    ensures r == if Overflows(mode, indices, c) then Abort else Ok(indices[c := Next(indices, c)])
  {
    if c in indices {
      if mode.Panics? && indices[c] == 255 {
        return Abort;
      }
      return Ok(indices[c := (indices[c] + 1) % 256]);
    }
    return Ok(indices[c := 0]);
  }

  lemma IndicesStep(mode: OverflowMode, indices: map<string, nat>, classes: seq<string>, i: nat)
    requires i < |classes| && Indices(mode, indices, classes[..i]) && !Overflows(mode, indices, classes[i])
    ensures Indices(mode, indices[classes[i] := Next(indices, classes[i])], classes[..i + 1])
  {
    CountStep(classes, i);
    hide Count;
  }

  // ----- the claim map of one submodule -----

  /** One parsed piece of evidence together with the data it was checked against. */
  datatype TeeClaims = TeeClaims(tee: Tee, teeClass: string, claims: Json, initData: Json, runtimeData: Json)

  /** A field that is moved must be a string when it is present. */
  predicate StringIfPresent(fields: map<string, Json>, key: string) {
    key in fields ==> fields[key].Str?
  }

  /** `fields[key]`, moved beside the data it vouches for. */
  function Vouched(fields: map<string, Json>, key: string, dataKey: string, data: Json): map<string, Json> {
    if key in fields then map[key := fields[key], dataKey := data] else map[]
  }

  function Transformed(c: TeeClaims): Outcome<map<string, Json>, IssueError> {
    if !c.claims.Obj? then
      Ok(map[][c.tee := c.claims])
    else
      var fields := c.claims.fields;
      if StringIfPresent(fields, "init_data") && StringIfPresent(fields, "report_data") then
        var vouched := Vouched(fields, "init_data", "init_data_claims", c.initData)
                       + Vouched(fields, "report_data", "runtime_data_claims", c.runtimeData);
        Ok(vouched[c.tee := Obj(fields - {"init_data", "report_data"})])
      else
        Abort
  }

  method TransformClaims(c: TeeClaims) returns (r: Outcome<map<string, Json>, IssueError>)
    ensures r == Transformed(c)
  {
    var output: map<string, Json> := map[];
    var input := c.claims;
    if input.Obj? {
      var claims := input.fields;
      if "init_data" in claims {
        var initData := claims["init_data"];
        claims := claims - {"init_data"};
        if !initData.Str? {
          return Abort;
        }
        output := output["init_data" := initData];
        output := output["init_data_claims" := c.initData];
      }
      assert output == Vouched(input.fields, "init_data", "init_data_claims", c.initData);
      if "report_data" in claims {
        var reportData := claims["report_data"];
        claims := claims - {"report_data"};
        if !reportData.Str? {
          return Abort;
        }
        output := output["report_data" := reportData];
        output := output["runtime_data_claims" := c.runtimeData];
      }
      assert output == Vouched(input.fields, "init_data", "init_data_claims", c.initData)
                       + Vouched(input.fields, "report_data", "runtime_data_claims", c.runtimeData);
      assert claims == input.fields - {"init_data", "report_data"};
      input := Obj(claims);
    }
    output := output[c.tee := input];
    return Ok(output);
  }

  /** The TEE's name is none of the keys that the moved fields and their data get. */
  predicate OwnName(tee: Tee) {
    tee !in {"init_data", "init_data_claims", "report_data", "runtime_data_claims"}
  }

  /** The verifier's claims, read back from the claim map of a submodule. */
  function Restored(tee: Tee, tcb: map<string, Json>): Json
    requires tee in tcb
  {
    if tcb[tee].Obj? then Obj(tcb[tee].fields + (map k | k in tcb && k in {"init_data", "report_data"} :: tcb[k]))
    else tcb[tee]
  }

  /** Rearranging shows the runtime and init data just when the verifier vouched for them. */
  lemma DataShownIff(c: TeeClaims)
    requires OwnName(c.tee) && Transformed(c).Ok?
    ensures var tcb := Transformed(c).value;
            && ("runtime_data_claims" in tcb <==> c.claims.Obj? && "report_data" in c.claims.fields)
            && ("runtime_data_claims" in tcb ==> tcb["runtime_data_claims"] == c.runtimeData)
            && ("init_data_claims" in tcb <==> c.claims.Obj? && "init_data" in c.claims.fields)
            && ("init_data_claims" in tcb ==> tcb["init_data_claims"] == c.initData)
  {
  }

  /** Rearranging loses none of the verifier's claims. */
  lemma TransformLosesNothing(c: TeeClaims)
    requires OwnName(c.tee) && Transformed(c).Ok?
    ensures c.tee in Transformed(c).value && Restored(c.tee, Transformed(c).value) == c.claims
  {
    if c.claims.Obj? {
      var fields, tcb := c.claims.fields, Transformed(c).value;
      assert tcb[c.tee] == Obj(fields - {"init_data", "report_data"});
      var moved := map k | k in tcb && k in {"init_data", "report_data"} :: tcb[k];
      assert moved.Keys == fields.Keys * {"init_data", "report_data"};
      assert tcb[c.tee].fields + moved == fields;
    }
  }

  // ----- the issuing loop -----

  datatype IssueError = NoPolicy | PolicyFailed

  /** The verdict of the policy engine on one claim map. */
  datatype Appraisal = Appraisal(verdict: Json, annotatedEvidence: map<string, Json>, policyId: string)

  /** The policy engine: claim map and policy id to the trust vector and status, or a failure. */
  type Policy = (map<string, Json>, string) -> Outcome<Json, IssueError>

  function Appraise(policy: Policy, policyId: string, c: TeeClaims): Outcome<Appraisal, IssueError> {
    var tcb :- Transformed(c);
    var verdict :- policy(tcb, policyId + "_" + c.teeClass);
    Ok(Appraisal(verdict, tcb, policyId))
  }

  function ClassesOf(claims: seq<TeeClaims>): (cs: seq<string>)
    ensures |cs| == |claims|
    ensures forall i :: 0 <= i < |claims| ==> cs[i] == claims[i].teeClass
  {
    seq(|claims|, i requires 0 <= i < |claims| => claims[i].teeClass)
  }

  /** One more submodule, unless something failed or the number does not fit in eight bits. */
  function Insert(mode: OverflowMode, submods: Outcome<map<string, Appraisal>, IssueError>,
                  appraisal: Outcome<Appraisal, IssueError>, rank: nat, name: string)
    : (r: Outcome<map<string, Appraisal>, IssueError>)
    ensures !submods.Ok? ==> r == submods
    ensures submods.Ok? && appraisal.Err? ==> r == Err(appraisal.error)
    ensures submods.Ok? && appraisal.Abort? ==> r == Abort
    ensures r.Ok? <==> submods.Ok? && appraisal.Ok? && (mode.Panics? ==> rank < 256)
    ensures r.Ok? ==> && r.value == submods.value[name := appraisal.value]
                      && |r.value| == |submods.value| + (if name in submods.value then 0 else 1)
    ensures submods.Ok? && appraisal.Ok? && !r.Ok? ==> r == Abort
  {
    var done :- submods;
    var a :- appraisal;
    if mode.Panics? && rank >= 256 then Abort else Ok(done[name := a])
  }

  /** The submodules after each claim in turn; the first failure ends the call. */
  function SubmodsSpec(policy: Policy, mode: OverflowMode, policyId: string, claims: seq<TeeClaims>)
    : Outcome<map<string, Appraisal>, IssueError>
  {
    if claims == [] then
      Ok(map[])
    else
      var n := |claims| - 1;
      Insert(mode, SubmodsSpec(policy, mode, policyId, claims[..n]), Appraise(policy, policyId, claims[n]),
             Rank(ClassesOf(claims), n), Name(ClassesOf(claims), n))
  }

  lemma SubmodsStep(policy: Policy, mode: OverflowMode, policyId: string, claims: seq<TeeClaims>, i: nat)
    requires i < |claims|
    ensures SubmodsSpec(policy, mode, policyId, claims[..i + 1]) ==
            Insert(mode, SubmodsSpec(policy, mode, policyId, claims[..i]), Appraise(policy, policyId, claims[i]),
                   Rank(ClassesOf(claims), i), Name(ClassesOf(claims), i))
  {
    hide Dec, Count, Appraise, Insert;
    assert claims[..i + 1][..i] == claims[..i];
    assert ClassesOf(claims[..i + 1])[..i] == ClassesOf(claims)[..i];
  }

  lemma {:induction false} SubmodsFail(policy: Policy, mode: OverflowMode, policyId: string, claims: seq<TeeClaims>,
                                       i: nat)
    requires i <= |claims| && !SubmodsSpec(policy, mode, policyId, claims[..i]).Ok?
    ensures SubmodsSpec(policy, mode, policyId, claims) == SubmodsSpec(policy, mode, policyId, claims[..i])
    decreases |claims| - i
  {
    if i < |claims| {
      SubmodsStep(policy, mode, policyId, claims, i);
      hide SubmodsSpec, Appraise, Rank, Name, Insert;
      SubmodsFail(policy, mode, policyId, claims, i + 1);
    } else {
      assert claims[..i] == claims;
    }
  }

  method AppraiseClaim(policy: Policy, policyId: string, c: TeeClaims) returns (r: Outcome<Appraisal, IssueError>)
    ensures r == Appraise(policy, policyId, c)
  {
    hide Transformed;
    var tcb :- TransformClaims(c);
    var verdict :- policy(tcb, policyId + "_" + c.teeClass);
    return Ok(Appraisal(verdict, tcb, policyId));
  }

  /** The counters and submodules after the first `i` claims. */
  ghost predicate Reached(policy: Policy, mode: OverflowMode, policyId: string, claims: seq<TeeClaims>, i: nat,
                          indices: map<string, nat>, submods: map<string, Appraisal>)
    requires i <= |claims|
  {
    && Indices(mode, indices, ClassesOf(claims)[..i])
    && SubmodsSpec(policy, mode, policyId, claims[..i]) == Ok(submods)
  }

  lemma ReachedNext(policy: Policy, mode: OverflowMode, policyId: string, claims: seq<TeeClaims>, i: nat,
                    indices: map<string, nat>, submods: map<string, Appraisal>)
    requires i < |claims| && Reached(policy, mode, policyId, claims, i, indices, submods)
    ensures var appraisal, class_ := Appraise(policy, policyId, claims[i]), claims[i].teeClass;
            if appraisal.Err? then SubmodsSpec(policy, mode, policyId, claims) == Err(appraisal.error)
            else if appraisal.Abort? || Overflows(mode, indices, class_) then
              SubmodsSpec(policy, mode, policyId, claims) == Abort
            else
              var next := Next(indices, class_);
              Reached(policy, mode, policyId, claims, i + 1, indices[class_ := next],
                      submods[class_ + Dec(next) := appraisal.value])
  {
    SubmodsStep(policy, mode, policyId, claims, i);
    NextIsRank(mode, indices, ClassesOf(claims), i);
    hide SubmodsSpec, Insert, Indices, Rank, Appraise, ClassesOf, Name, Next, Dec, Overflows, Count;
    if !SubmodsSpec(policy, mode, policyId, claims[..i + 1]).Ok? {
      SubmodsFail(policy, mode, policyId, claims, i + 1);
    } else {
      IndicesStep(mode, indices, ClassesOf(claims), i);
    }
  }

  /** The submodules of an EAR token; the number of a claim within its class is kept in eight bits. */
  method Issue(policy: Policy, mode: OverflowMode, policyIds: seq<string>, claims: seq<TeeClaims>)
    returns (r: Outcome<map<string, Appraisal>, IssueError>)
    ensures r == if policyIds == [] then Err(NoPolicy) else SubmodsSpec(policy, mode, policyIds[0], claims)
  {
    if policyIds == [] {
      return Err(NoPolicy);
    }
    var indices: map<string, nat> := map[];
    var submods: map<string, Appraisal> := map[];
    assert Reached(policy, mode, policyIds[0], claims, 0, indices, submods);
    for i := 0 to |claims|
      invariant Reached(policy, mode, policyIds[0], claims, i, indices, submods)
    {
      hide Dec, SubmodsSpec, Reached, Appraise, Next, Overflows;
      ReachedNext(policy, mode, policyIds[0], claims, i, indices, submods);
      var appraisal := AppraiseClaim(policy, policyIds[0], claims[i]);
      if appraisal.IsFailure() {
        return appraisal.PropagateFailure();
      }
      var class_ := claims[i].teeClass;
      indices :- Bump(mode, indices, class_);
      submods := submods[class_ + Dec(indices[class_]) := appraisal.value];
    }
    assert claims[..|claims|] == claims;
    return Ok(submods);
  }

  lemma CountStep(classes: seq<string>, i: nat)
    requires i < |classes|
    ensures forall c :: Count(classes[..i + 1], c) == Count(classes[..i], c) + (if classes[i] == c then 1 else 0)
  {
    assert classes[..i + 1][..i] == classes[..i];
  }

  // ----- what the submodules hold -----

  /** The last claim among the first `n` that has the given name. */
  function LastNamed(classes: seq<string>, n: nat, name: string): (r: Option<nat>)
    requires n <= |classes|
    ensures r.Some? ==> r.value < n && Name(classes, r.value) == name
    ensures forall i :: 0 <= i < n && Name(classes, i) == name ==> r.Some? && i <= r.value
  {
    if n == 0 then None
    else if Name(classes, n - 1) == name then Some(n - 1)
    else LastNamed(classes, n - 1, name)
  }

  predicate DistinctNames(classes: seq<string>, n: nat)
    requires n <= |classes|
  {
    forall i, j :: 0 <= i < j < n ==> Name(classes, i) != Name(classes, j)
  }

  predicate AllAppraised(policy: Policy, policyId: string, claims: seq<TeeClaims>) {
    forall i :: 0 <= i < |claims| ==> Appraise(policy, policyId, claims[i]).Ok?
  }

  /** Every submodule is the appraisal of the last claim with that name, and every name has one. */
  ghost predicate Holds(policy: Policy, policyId: string, claims: seq<TeeClaims>, n: nat,
                        submods: map<string, Appraisal>)
    requires n <= |claims|
  {
    forall name :: var last := LastNamed(ClassesOf(claims), n, name);
      if last.Some? then name in submods && Appraise(policy, policyId, claims[last.value]) == Ok(submods[name])
      else name !in submods
  }

  /** The token is issued just when every claim is appraised and no number overflows; it has one submodule
      per claim just when the names are distinct. */
  lemma IssuedIff(policy: Policy, mode: OverflowMode, policyId: string, claims: seq<TeeClaims>)
    ensures var r := SubmodsSpec(policy, mode, policyId, claims); var classes := ClassesOf(claims);
            && (r.Ok? <==> AllAppraised(policy, policyId, claims) && (mode.Panics? ==> AtMost256(classes)))
            && (r.Ok? ==> Holds(policy, policyId, claims, |claims|, r.value))
            && (r.Ok? ==> (|r.value| == |claims| <==> DistinctNames(classes, |claims|)))
  {
    IssuedPrefix(policy, mode, policyId, claims, |claims|);
    assert claims[..|claims|] == claims;
  }

  ghost predicate AppraisedUpTo(policy: Policy, mode: OverflowMode, policyId: string, claims: seq<TeeClaims>, n: nat)
    requires n <= |claims|
  {
    forall i :: 0 <= i < n ==>
      Appraise(policy, policyId, claims[i]).Ok? && (mode.Panics? ==> Rank(ClassesOf(claims), i) < 256)
  }

  lemma HoldsStep(policy: Policy, policyId: string, claims: seq<TeeClaims>, n: nat,
                  submods: map<string, Appraisal>, appraisal: Appraisal)
    requires n < |claims| && Holds(policy, policyId, claims, n, submods)
    requires Appraise(policy, policyId, claims[n]) == Ok(appraisal)
    ensures Holds(policy, policyId, claims, n + 1, submods[Name(ClassesOf(claims), n) := appraisal])
  {
    hide Appraise, Name, ClassesOf;
  }

  lemma NamedIff(policy: Policy, policyId: string, claims: seq<TeeClaims>, n: nat,
                 submods: map<string, Appraisal>)
    requires n < |claims| && Holds(policy, policyId, claims, n, submods)
    ensures DistinctNames(ClassesOf(claims), n + 1) <==>
            DistinctNames(ClassesOf(claims), n) && Name(ClassesOf(claims), n) !in submods
  {
    hide Appraise, Name, ClassesOf;
    var classes, name := ClassesOf(claims), Name(ClassesOf(claims), n);
    assert Holds(policy, policyId, claims, n, submods);
    assert name in submods <==> LastNamed(classes, n, name).Some?;
  }

  /** What is known of the submodules of the first `n` claims. */
  ghost predicate Issued(policy: Policy, mode: OverflowMode, policyId: string, claims: seq<TeeClaims>, n: nat)
    requires n <= |claims|
  {
    var r := SubmodsSpec(policy, mode, policyId, claims[..n]);
    && (r.Ok? <==> AppraisedUpTo(policy, mode, policyId, claims, n))
    && (r.Ok? ==> && Holds(policy, policyId, claims, n, r.value)
                  && |r.value| <= n
                  && (|r.value| == n <==> DistinctNames(ClassesOf(claims), n)))
  }

  lemma AppraisedStep(policy: Policy, mode: OverflowMode, policyId: string, claims: seq<TeeClaims>, n: nat)
    requires n < |claims|
    ensures AppraisedUpTo(policy, mode, policyId, claims, n + 1) <==>
            && AppraisedUpTo(policy, mode, policyId, claims, n) && Appraise(policy, policyId, claims[n]).Ok?
            && (mode.Panics? ==> Rank(ClassesOf(claims), n) < 256)
  {
    hide Appraise, Rank, ClassesOf;
  }

  lemma IssuedStep(policy: Policy, mode: OverflowMode, policyId: string, claims: seq<TeeClaims>, n: nat)
    requires n < |claims| && Issued(policy, mode, policyId, claims, n)
    ensures Issued(policy, mode, policyId, claims, n + 1)
  {
    SubmodsStep(policy, mode, policyId, claims, n);
    AppraisedStep(policy, mode, policyId, claims, n);
    hide SubmodsSpec, Insert, Appraise, AppraisedUpTo, Rank, Name, ClassesOf, Holds, DistinctNames;
    var done := SubmodsSpec(policy, mode, policyId, claims[..n]);
    var appraisal := Appraise(policy, policyId, claims[n]);
    if done.Ok? && appraisal.Ok? {
      HoldsStep(policy, policyId, claims, n, done.value, appraisal.value);
      NamedIff(policy, policyId, claims, n, done.value);
    }
  }

  lemma IssuedNone(policy: Policy, mode: OverflowMode, policyId: string, claims: seq<TeeClaims>)
    ensures Issued(policy, mode, policyId, claims, 0)
  {
    hide Appraise, Rank, Name, ClassesOf;
  }

  lemma {:induction false} IssuedPrefix(policy: Policy, mode: OverflowMode, policyId: string,
                                        claims: seq<TeeClaims>, n: nat)
    requires n <= |claims|
    ensures Issued(policy, mode, policyId, claims, n)
  {
    hide *;
    if n == 0 {
      IssuedNone(policy, mode, policyId, claims);
    } else {
      IssuedPrefix(policy, mode, policyId, claims, n - 1);
      IssuedStep(policy, mode, policyId, claims, n - 1);
    }
  }

  // ----- when the names are distinct -----

  /** Class `classes[j]` is `classes[i]` with digits appended, and class `classes[i]` has so many claims that
      one of them is numbered with those digits and a zero. */
  predicate Clashes(classes: seq<string>, i: nat, j: nat)
    requires i < |classes| && j < |classes|
  {
    classes[i] < classes[j] &&
    var digits := classes[j][|classes[i]|..];
    AllDigits(digits) && digits[0] != '0' && 10 * Value(digits) < Count(classes, classes[i])
  }

  predicate NoClash(classes: seq<string>) {
    forall i, j :: 0 <= i < |classes| && 0 <= j < |classes| ==> !Clashes(classes, i, j)
  }

  lemma {:induction false} RankExists(classes: seq<string>, c: string, r: nat) returns (i: nat)
    requires r < Count(classes, c)
    ensures i < |classes| && classes[i] == c && Rank(classes, i) == r
  {
    var n := |classes| - 1;
    if classes[n] == c && Count(classes[..n], c) == r {
      i := n;
    } else {
      i := RankExists(classes[..n], c, r);
      assert classes[..n][..i] == classes[..i];
    }
  }

  lemma RanksIncrease(classes: seq<string>, i: nat, j: nat)
    requires i < j <= |classes|
    ensures Rank(classes, i) < Count(classes[..j], classes[i])
    ensures j < |classes| && classes[i] == classes[j] ==> Rank(classes, i) < Rank(classes, j)
  {
    CountStep(classes, i);
    assert classes[..j][..i + 1] == classes[..i + 1];
    CountPrefix(classes[..j], i + 1, classes[i]);
  }

  lemma {:induction false} ValueGrows(s: string, t: string)
    requires AllDigits(s) && AllDigits(t)
    ensures AllDigits(s + t) && Value(s + t) >= Value(s)
    ensures t != [] ==> Value(s + t) >= 10 * Value(s)
  {
    if t == [] {
      assert s + t == s;
    } else {
      var u := t[..|t| - 1];
      assert (s + t)[..|s + t| - 1] == s + u;
      ValueGrows(s, u);
    }
  }

  /** Two claims of different classes with one name: the longer class name is a clash. */
  lemma SameNameClashes(classes: seq<string>, i: nat, j: nat)
    requires i < |classes| && j < |classes| && AtMost256(classes)
    requires |classes[i]| < |classes[j]| && Name(classes, i) == Name(classes, j)
    ensures Clashes(classes, i, j)
  {
    var a, b := Rank(classes, i), Rank(classes, j);
    assert a % 256 == a && b % 256 == b;
    var digits := classes[j][|classes[i]|..];
    SuffixSplits(classes[i], Dec(a), classes[j], Dec(b));
    RanksIncrease(classes, i, |classes|);
    assert classes[..|classes|] == classes;
    hide Count;
    ValueOfDec(a);
    ValueGrows(digits, Dec(b));
  }

  lemma SuffixSplits(c: string, s: string, d: string, t: string)
    requires |c| < |d| && c + s == d + t && AllDigits(s)
    ensures c < d && s == d[|c|..] + t && AllDigits(d[|c|..])
  {
    assert forall k :: 0 <= k < |c| ==> c[k] == (c + s)[k] && d[k] == (d + t)[k];
    assert (c + s)[|c|..] == s;
    assert (d + t)[|c|..] == d[|c|..] + t;
    assert forall k :: 0 <= k < |d| - |c| ==> d[|c|..][k] == s[k];
  }

  /** Two claims of one class with one name: the numbers have wrapped around. */
  lemma SameClassSameName(classes: seq<string>, i: nat, j: nat)
    requires i < j < |classes| && classes[i] == classes[j] && AtMost256(classes)
    ensures Name(classes, i) != Name(classes, j)
  {
    RanksIncrease(classes, i, j);
    var a, b := Rank(classes, i), Rank(classes, j);
    NameBelow256(classes, i);
    NameBelow256(classes, j);
    hide Rank, Dec, Name;
    DecInjective(a, b);
    SameStart(classes[i], Dec(a), Dec(b));
  }

  lemma NameBelow256(classes: seq<string>, i: nat)
    requires i < |classes| && Rank(classes, i) < 256
    ensures Name(classes, i) == classes[i] + Dec(Rank(classes, i))
  {
    hide Rank, Dec;
  }

  lemma SameStart(c: string, s: string, t: string)
    ensures c + s == c + t <==> s == t
  {
    assert (c + s)[|c|..] == s && (c + t)[|c|..] == t;
  }

  /** A clash makes two names equal. */
  lemma ClashSameName(classes: seq<string>, i: nat, j: nat)
    requires i < |classes| && j < |classes| && AtMost256(classes) && Clashes(classes, i, j)
    ensures !DistinctNames(classes, |classes|)
  {
    var digits := classes[j][|classes[i]|..];
    var text := digits + "0";
    assert text[..|text| - 1] == digits;
    assert Value(text) == 10 * Value(digits);
    DecOfValue(text);
    hide Dec, Value;
    var a := RankExists(classes, classes[i], 10 * Value(digits));
    RanksIncrease(classes, j, |classes|);
    assert classes[..|classes|] == classes;
    var b := RankExists(classes, classes[j], 0);
    hide Count;
    assert Name(classes, a) == classes[i] + text;
    assert Name(classes, b) == classes[j] + "0";
    assert classes[j] == classes[i] + digits;
    assert classes[i] + text == classes[j] + "0";
  }

  /** Past 256 claims of one class, names repeat. */
  lemma WrapSameName(classes: seq<string>)
    requires !AtMost256(classes)
    ensures !DistinctNames(classes, |classes|)
  {
    var i :| 0 <= i < |classes| && Rank(classes, i) >= 256;
    RanksIncrease(classes, i, |classes|);
    assert classes[..|classes|] == classes;
    var a := RankExists(classes, classes[i], 0);
    var b := RankExists(classes, classes[i], 256);
    assert Name(classes, a) == Name(classes, b);
  }

  /** The names are pairwise distinct if and only if no class has more than 256 claims and no class name is
      another one with a number that the other one reaches. */
  lemma DistinctNamesIff(classes: seq<string>)
    ensures DistinctNames(classes, |classes|) <==> AtMost256(classes) && NoClash(classes)
  {
    hide Count, Dec, Name, Rank, Clashes, AtMost256;
    if !AtMost256(classes) {
      WrapSameName(classes);
    } else if !NoClash(classes) {
      var i, j :| 0 <= i < |classes| && 0 <= j < |classes| && Clashes(classes, i, j);
      ClashSameName(classes, i, j);
    } else {
      forall i, j | 0 <= i < j < |classes|
        ensures Name(classes, i) != Name(classes, j)
      {
        DifferentNames(classes, i, j);
      }
    }
  }

  lemma DifferentNames(classes: seq<string>, i: nat, j: nat)
    requires i < j < |classes| && AtMost256(classes) && NoClash(classes)
    ensures Name(classes, i) != Name(classes, j)
  {
    hide Count, Dec, Rank, Clashes, AtMost256;
    if classes[i] == classes[j] {
      SameClassSameName(classes, i, j);
    } else if Name(classes, i) == Name(classes, j) {
      hide Name;
      if |classes[i]| < |classes[j]| {
        SameNameClashes(classes, i, j);
      } else if |classes[j]| < |classes[i]| {
        SameNameClashes(classes, j, i);
      } else {
        SameLength(classes, i, j);
      }
    }
  }

  lemma SameLength(classes: seq<string>, i: nat, j: nat)
    requires i < |classes| && j < |classes| && |classes[i]| == |classes[j]|
    requires Name(classes, i) == Name(classes, j)
    ensures classes[i] == classes[j]
  {
    hide Dec;
    assert Name(classes, i)[..|classes[i]|] == classes[i] && Name(classes, j)[..|classes[j]|] == classes[j];
  }

  // ----- what a submodule is -----

  /** The claim map of a submodule: the TEE's own claims under its name, without the two moved fields, and each moved
      field, which must be a string, beside the data it vouches for. */
  ghost predicate Rearranges(c: TeeClaims, tcb: map<string, Json>) {
    && c.tee in tcb
    && (!c.claims.Obj? ==> tcb.Keys == {c.tee} && tcb[c.tee] == c.claims)
    && (c.claims.Obj? ==>
          var fields := c.claims.fields;
          && (forall k :: k in tcb <==> k == c.tee || MovedTo(fields, "init_data", "init_data_claims", k)
                                        || MovedTo(fields, "report_data", "runtime_data_claims", k))
          && tcb[c.tee].Obj?
          && (forall k :: k in tcb[c.tee].fields <==> k in fields && k != "init_data" && k != "report_data")
          && (forall k :: k in tcb[c.tee].fields ==> tcb[c.tee].fields[k] == fields[k])
          && Vouches(c.tee, fields, tcb, "init_data", "init_data_claims", c.initData)
          && Vouches(c.tee, fields, tcb, "report_data", "runtime_data_claims", c.runtimeData))
  }

  predicate MovedTo(fields: map<string, Json>, key: string, dataKey: string, k: string) {
    key in fields && (k == key || k == dataKey)
  }

  predicate Vouches(tee: Tee, fields: map<string, Json>, tcb: map<string, Json>, key: string, dataKey: string, data: Json) {
    key in fields ==>
      && fields[key].Str?
      && key in tcb && (key != tee ==> tcb[key] == fields[key])
      && dataKey in tcb && (dataKey != tee ==> tcb[dataKey] == data)
  }

  lemma TransformedRearranges(c: TeeClaims)
    requires Transformed(c).Ok?
    ensures Rearranges(c, Transformed(c).value)
  {
  }

  lemma RearrangedOnly(c: TeeClaims, a: map<string, Json>, b: map<string, Json>)
    requires Rearranges(c, a) && Rearranges(c, b)
    ensures a == b
  {
    if c.claims.Obj? {
      assert a[c.tee].fields == b[c.tee].fields;
      forall k | k in a
        ensures k in b && a[k] == b[k]
      {
      }
      assert a.Keys == b.Keys;
    }
  }

  /** Rearranging succeeds exactly when the moved fields are strings, and has that one outcome. */
  lemma TransformedIff(c: TeeClaims, tcb: map<string, Json>)
    ensures Transformed(c) == Ok(tcb) <==> Rearranges(c, tcb)
  {
    if Rearranges(c, tcb) {
      assert Transformed(c).Ok?;
      TransformedRearranges(c);
      RearrangedOnly(c, tcb, Transformed(c).value);
    } else if Transformed(c) == Ok(tcb) {
      TransformedRearranges(c);
    }
  }

  /** The policy for the claim's class was asked about the claim map that the submodule shows, and gave its verdict. */
  ghost predicate AppraisedAs(policy: Policy, policyId: string, c: TeeClaims, a: Appraisal) {
    && Rearranges(c, a.annotatedEvidence) && a.policyId == policyId
    && policy(a.annotatedEvidence, policyId + "_" + c.teeClass) == Ok(a.verdict)
  }

  lemma AppraiseIff(policy: Policy, policyId: string, c: TeeClaims, a: Appraisal)
    ensures Appraise(policy, policyId, c) == Ok(a) <==> AppraisedAs(policy, policyId, c, a)
  {
    hide Transformed, Rearranges;
    TransformedIff(c, a.annotatedEvidence);
    if Transformed(c).Ok? {
      TransformedIff(c, Transformed(c).value);
    }
  }

  /** Every submodule of a token is the last claim of its name, rearranged and appraised for its class. */
  lemma SubmodMeans(policy: Policy, mode: OverflowMode, policyId: string, claims: seq<TeeClaims>, name: string)
    requires SubmodsSpec(policy, mode, policyId, claims).Ok?
    ensures var submods := SubmodsSpec(policy, mode, policyId, claims).value;
            var last := LastNamed(ClassesOf(claims), |claims|, name);
            && (name in submods <==> last.Some?)
            && (name in submods ==> AppraisedAs(policy, policyId, claims[last.value], submods[name]))
  {
    IssuedIff(policy, mode, policyId, claims);
    hide SubmodsSpec, Appraise, AppraisedAs, LastNamed, ClassesOf;
    var submods := SubmodsSpec(policy, mode, policyId, claims).value;
    var last := LastNamed(ClassesOf(claims), |claims|, name);
    assert Holds(policy, policyId, claims, |claims|, submods);
    if last.Some? {
      AppraiseIff(policy, policyId, claims[last.value], submods[name]);
    }
  }

  /** An issued token has one submodule per claim exactly when no number wraps and no class names clash. */
  lemma OneSubmodPerClaimIff(policy: Policy, mode: OverflowMode, policyId: string, claims: seq<TeeClaims>)
    requires SubmodsSpec(policy, mode, policyId, claims).Ok?
    ensures |SubmodsSpec(policy, mode, policyId, claims).value| == |claims| <==>
            AtMost256(ClassesOf(claims)) && NoClash(ClassesOf(claims))
  {
    hide *;
    IssuedIff(policy, mode, policyId, claims);
    DistinctNamesIff(ClassesOf(claims));
  }

  /** Class names that do not end in a digit never clash. */
  lemma NoDigitNoClash(classes: seq<string>)
    requires forall i :: 0 <= i < |classes| ==> classes[i] == "" || !IsDigit(classes[i][|classes[i]| - 1])
    ensures NoClash(classes)
  {
    hide Count;
    forall i, j | 0 <= i < |classes| && 0 <= j < |classes|
      ensures !Clashes(classes, i, j)
    {
      if classes[i] < classes[j] {
        var digits := classes[j][|classes[i]|..];
        assert digits[|digits| - 1] == classes[j][|classes[j]| - 1];
      }
    }
  }

  /** An input on which names repeat: eleven claims of class `cpu` and one of class `cpu1`, two of them `cpu10`. */
  lemma ElevenCpusClash()
    ensures var classes := seq(11, _ => "cpu") + ["cpu1"]; !DistinctNames(classes, |classes|)
  {
    var cpus := seq(11, _ => "cpu");
    var classes := cpus + ["cpu1"];
    CountConstant(11, "cpu");
    assert classes[..11] == cpus;
    assert Count(classes, "cpu") == 11;
    assert classes[11][|classes[0]|..] == "1";
    assert Value("1") == 1;
    assert Clashes(classes, 0, 11);
    hide Count, Name, Clashes, Rank;
    DistinctNamesIff(classes);
  }

  lemma {:induction false} CountConstant(n: nat, c: string)
    ensures Count(seq(n, _ => c), c) == n
  {
    if n > 0 {
      assert seq(n, _ => c)[..n - 1] == seq(n - 1, _ => c);
      CountConstant(n - 1, c);
    }
  }
}
