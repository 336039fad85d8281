/** JSON pointers (RFC 6901) and the search for the TEE public key in a token's claims. */
module TeeKey {
  import opened Wrappers
  import opened Text
  import opened Json

  // ----- pointer text -----

  /** The text between slashes. */
  function SplitSlash(s: string): (ts: seq<string>)
    ensures ts != []
  {
    if s == [] then [""]
    else
      var rest := SplitSlash(s[1..]);
      if s[0] == '/' then [""] + rest else [[s[0]] + rest[0]] + rest[1..]
  }

  /** Replace each `ab`, from left to right, by `c`. */
  function ReplacePair(s: string, a: char, b: char, c: char): string {
    if |s| < 2 then s
    else if s[0] == a && s[1] == b then [c] + ReplacePair(s[2..], a, b, c)
    else [s[0]] + ReplacePair(s[1..], a, b, c)
  }

  function Unescape(token: string): string {
    ReplacePair(ReplacePair(token, '~', '1', '/'), '~', '0', '~')
  }

  /** An array index: decimal, without sign or leading zeros. */
  function Index(token: string): Option<nat> {
    if token != "" && AllDigits(token) && (token[0] == '0' ==> |token| == 1) then Some(Value(token)) else None
  }

  function Child(v: Json, token: string): Option<Json> {
    match v
    case Obj(fields) => if token in fields then Some(fields[token]) else None
    case Arr(items) =>
      var i :- Index(token);
      if i < |items| then Some(items[i]) else None
    case _ => None
  }

  /** Walk down from a value. */
  function Resolve(v: Json, tokens: seq<string>): Option<Json> {
    if tokens == [] then Some(v)
    else
      var child :- Child(v, tokens[0]);
      Resolve(child, tokens[1..])
  }

  function UnescapeAll(tokens: seq<string>): (us: seq<string>)
    ensures |us| == |tokens|
  {
    if tokens == [] then [] else [Unescape(tokens[0])] + UnescapeAll(tokens[1..])
  }

  function Pointer(v: Json, path: string): Option<Json> {
    if path == "" then Some(v)
    else if path[0] != '/' then None
    else Resolve(v, UnescapeAll(SplitSlash(path[1..])))
  }

  // ----- the pointer to a path -----

  function Escape(token: string): string {
    if token == "" then ""
    else (if token[0] == '~' then "~0" else if token[0] == '/' then "~1" else [token[0]]) + Escape(token[1..])
  }

  function PathText(tokens: seq<string>): string {
    if tokens == [] then "" else "/" + Escape(tokens[0]) + PathText(tokens[1..])
  }

  /** The escape of tildes alone. */
  function EscapeTildes(token: string): string {
    if token == "" then ""
    else (if token[0] == '~' then "~0" else [token[0]]) + EscapeTildes(token[1..])
  }

  lemma {:induction false} UnescapeSlashes(t: string)
    ensures ReplacePair(Escape(t), '~', '1', '/') == EscapeTildes(t)
  {
    if t != "" {
      var rest := Escape(t[1..]);
      UnescapeSlashes(t[1..]);
      if t[0] == '~' {
        assert ("~0" + rest)[1..] == "0" + rest && ("0" + rest)[1..] == rest;
        assert ReplacePair("0" + rest, '~', '1', '/') == "0" + ReplacePair(rest, '~', '1', '/');
      } else if t[0] == '/' {
        assert ("~1" + rest)[2..] == rest;
      } else {
        assert ([t[0]] + rest)[1..] == rest;
      }
    }
  }

  lemma {:induction false} UnescapeTildes(t: string)
    ensures ReplacePair(EscapeTildes(t), '~', '0', '~') == t
  {
    if t != "" {
      var rest := EscapeTildes(t[1..]);
      UnescapeTildes(t[1..]);
      assert t == [t[0]] + t[1..];
      if t[0] == '~' {
        assert ("~0" + rest)[2..] == rest;
      } else {
        assert ([t[0]] + rest)[1..] == rest;
      }
    }
  }

  lemma {:induction false} EscapeHasNoSlash(t: string)
    ensures '/' !in Escape(t)
  {
    if t != "" {
      EscapeHasNoSlash(t[1..]);
    }
  }

  lemma {:induction false} SplitFirst(t: string, rest: string)
    requires '/' !in t
    ensures SplitSlash(t) == [t]
    ensures SplitSlash(t + "/" + rest) == [t] + SplitSlash(rest)
  {
    if t == "" {
      assert (t + "/" + rest)[1..] == rest;
    } else {
      SplitFirst(t[1..], rest);
      assert (t + "/" + rest)[1..] == t[1..] + "/" + rest;
      assert [t[0]] + t[1..] == t;
    }
  }

  lemma UnescapeInverts(t: string)
    ensures Unescape(Escape(t)) == t
  {
    UnescapeSlashes(t);
    UnescapeTildes(t);
  }

  lemma SplitStep(t: string, rest: string)
    ensures UnescapeAll(SplitSlash(Escape(t))) == [t]
    ensures UnescapeAll(SplitSlash(Escape(t) + "/" + rest)) == [t] + UnescapeAll(SplitSlash(rest))
  {
    EscapeHasNoSlash(t);
    SplitFirst(Escape(t), rest);
    UnescapeInverts(t);
    hide SplitSlash, Escape, Unescape;
    assert ([Escape(t)] + SplitSlash(rest))[1..] == SplitSlash(rest);
  }

  lemma {:induction false} SplitPath(tokens: seq<string>)
    requires tokens != []
    ensures PathText(tokens) != "" && PathText(tokens)[0] == '/'
    ensures UnescapeAll(SplitSlash(PathText(tokens)[1..])) == tokens
  {
    hide Escape, UnescapeAll, SplitSlash;
    var first, rest := Escape(tokens[0]), PathText(tokens[1..]);
    assert PathText(tokens)[1..] == first + rest;
    if tokens[1..] == [] {
      SplitStep(tokens[0], "");
      assert first + rest == first;
      assert tokens == [tokens[0]];
    } else {
      SplitPath(tokens[1..]);
      hide PathText;
      SplitStep(tokens[0], rest[1..]);
      assert first + rest == first + "/" + rest[1..];
      assert tokens == [tokens[0]] + tokens[1..];
    }
  }

  /** The pointer written for a path leads where the path leads, whatever the keys contain. */
  lemma PointerFollowsPath(v: Json, tokens: seq<string>)
    ensures Pointer(v, PathText(tokens)) == Resolve(v, tokens)
    ensures forall text :: text != "" && text[0] != '/' ==> Pointer(v, text) == None
  {
    if tokens != [] {
      SplitPath(tokens);
      hide PathText;
    }
  }

  // ----- the key of a token -----

  function ItaTokens(): seq<string> { ["tdx", "attester_runtime_data", "tee-pubkey"] }
  function ItaVtpmTokens(): seq<string> { ["tdx", "attester_user_data", "tee-pubkey"] }
  function CocoTokens(): seq<string> { ["customized_claims", "runtime_data", "tee-pubkey"] }
  function EarTokens(): seq<string> { ["submods", "cpu0", "ear.veraison.annotated-evidence", "runtime_data_claims", "tee-pubkey"] }
  function ValueTokens(): seq<string> { ["tee-pubkey"] }

  datatype KeyError = KeyParseFailed | NoKeyFound

  /** The configured paths come before the built-in ones. */
  function KeyPaths(configured: seq<string>): seq<string> {
    configured + [PathText(ItaTokens()), PathText(ItaVtpmTokens()), PathText(CocoTokens()), PathText(EarTokens()), PathText(ValueTokens())]
  }

  /** What the first path that leads anywhere leads to. */
  function FirstResolved(claims: Json, paths: seq<string>): Option<Json> {
    if paths == [] then None
    else if Pointer(claims, paths[0]).Some? then Pointer(claims, paths[0])
    else FirstResolved(claims, paths[1..])
  }

  function KeySpec<K>(read: Json -> Option<K>, configured: seq<string>, claims: Json): Outcome<K, KeyError> {
    var found := FirstResolved(claims, KeyPaths(configured));
    if found.None? then Err(NoKeyFound) else OrErr(read(found.value), KeyParseFailed)
  }

  method ExtractTeePublicKey<K>(read: Json -> Option<K>, configured: seq<string>, claims: Json)
    returns (r: Outcome<K, KeyError>)
    ensures r == KeySpec(read, configured, claims)
  {
    hide PathText, Pointer;
    var paths := configured;
    paths := paths + [PathText(ItaTokens())];
    paths := paths + [PathText(ItaVtpmTokens())];
    paths := paths + [PathText(CocoTokens())];
    paths := paths + [PathText(EarTokens())];
    paths := paths + [PathText(ValueTokens())];
    assert paths == KeyPaths(configured);
    for i := 0 to |paths|
      invariant FirstResolved(claims, paths) == FirstResolved(claims, paths[i..])
    {
      var found := Pointer(claims, paths[i]);
      if found.Some? {
        return OrErr(read(found.value), KeyParseFailed);
      }
    }
    return Err(NoKeyFound);
  }

  lemma {:induction false} SkipUnresolved(claims: Json, front: seq<string>, back: seq<string>)
    requires forall p :: p in front ==> Pointer(claims, p).None?
    ensures FirstResolved(claims, front + back) == FirstResolved(claims, back)
  {
    hide Pointer;
    if front == [] {
      assert front + back == back;
    } else {
      assert (front + back)[1..] == front[1..] + back;
      SkipUnresolved(claims, front[1..], back);
    }
  }

  lemma LastTwo(claims: Json, front: seq<string>, path: string, last: string)
    requires forall p :: p in front ==> Pointer(claims, p).None?
    ensures FirstResolved(claims, front + [path, last]) ==
            if Pointer(claims, path).Some? then Pointer(claims, path) else Pointer(claims, last)
  {
    hide Pointer;
    SkipUnresolved(claims, front, [path, last]);
    assert [path, last][1..] == [last] && [last][1..] == [];
    assert FirstResolved(claims, [last]) == Pointer(claims, last);
  }

  /** No path that is tried before the EAR path leads anywhere. */
  predicate NothingBeforeEar(configured: seq<string>, claims: Json) {
    && (forall p :: p in configured ==> Pointer(claims, p).None?)
    && Pointer(claims, PathText(ItaTokens())).None? && Pointer(claims, PathText(ItaVtpmTokens())).None?
    && Pointer(claims, PathText(CocoTokens())).None?
  }

  /** Then the EAR path decides if it leads anywhere, and else the bare key. */
  lemma EarPathDecides(configured: seq<string>, claims: Json)
    requires NothingBeforeEar(configured, claims)
    ensures var found := Resolve(claims, EarTokens());
            FirstResolved(claims, KeyPaths(configured)) == if found.Some? then found else Resolve(claims, ValueTokens())
  {
    hide PathText, Pointer, Resolve, FirstResolved;
    PointerFollowsPath(claims, EarTokens());
    PointerFollowsPath(claims, ValueTokens());
    var front := configured + [PathText(ItaTokens()), PathText(ItaVtpmTokens()), PathText(CocoTokens())];
    LastTwo(claims, front, PathText(EarTokens()), PathText(ValueTokens()));
    assert KeyPaths(configured) == front + [PathText(EarTokens()), PathText(ValueTokens())];
  }

  // ----- the paths one by one -----

  /** A token is an index of an array exactly when it is the decimal text of that index. */
  lemma IndexIff(token: string, i: nat)
    ensures Index(token) == Some(i) <==> token == Dec(i)
  {
    if Index(token) == Some(i) {
      DecOfValue(token);
    }
    if token == Dec(i) {
      ValueOfDec(i);
      DecLength(i);
    }
  }

  lemma DecLength(n: nat)
    ensures Dec(n)[0] == '0' ==> |Dec(n)| == 1
  {
  }

  /** A field of an object, if there is one. */
  function Field(v: Option<Json>, key: string): Option<Json> {
    if v.Some? && v.value.Obj? && key in v.value.fields then Some(v.value.fields[key]) else None
  }

  function Fields(v: Option<Json>, keys: seq<string>): Option<Json>
    decreases |keys|
  {
    if keys == [] then v else Fields(Field(v, keys[0]), keys[1..])
  }

  function Else(a: Option<Json>, b: Option<Json>): Option<Json> {
    if a.Some? then a else b
  }

  predicate IsName(token: string) {
    token != "" && !IsDigit(token[0])
  }

  lemma {:induction false} FieldsOfNone(keys: seq<string>)
    ensures Fields(None, keys) == None
  {
    if keys != [] {
      FieldsOfNone(keys[1..]);
    }
  }

  /** A path of names is a path through objects. */
  lemma {:induction false} ResolveNames(v: Json, tokens: seq<string>)
    requires forall i :: 0 <= i < |tokens| ==> IsName(tokens[i])
    ensures Resolve(v, tokens) == Fields(Some(v), tokens)
    decreases |tokens|
  {
    if tokens != [] {
      assert Child(v, tokens[0]) == Field(Some(v), tokens[0]);
      if Child(v, tokens[0]).Some? {
        ResolveNames(Child(v, tokens[0]).value, tokens[1..]);
      } else {
        FieldsOfNone(tokens[1..]);
      }
    }
  }

  lemma ThreeNames(v: Json, a: string, b: string, c: string)
    requires IsName(a) && IsName(b) && IsName(c)
    ensures Resolve(v, [a, b, c]) == Field(Field(Field(Some(v), a), b), c)
  {
    hide IsName, Field, Resolve;
    ResolveNames(v, [a, b, c]);
    assert [a, b, c][1..] == [b, c] && [b, c][1..] == [c] && [c][1..] == [];
    var x := Field(Some(v), a);
    assert Fields(Some(v), [a, b, c]) == Fields(x, [b, c]);
    assert Fields(x, [b, c]) == Fields(Field(x, b), [c]);
    assert Fields(Field(x, b), [c]) == Field(Field(x, b), c);
  }

  lemma OneName(v: Json, a: string)
    requires IsName(a)
    ensures Resolve(v, [a]) == Field(Some(v), a)
  {
    hide IsName, Field, Resolve;
    ResolveNames(v, [a]);
    assert [a][1..] == [];
    assert Fields(Some(v), [a]) == Fields(Field(Some(v), a), []);
  }

  lemma BuiltInNames()
    ensures IsName("tdx") && IsName("attester_runtime_data") && IsName("attester_user_data") && IsName("tee-pubkey")
    ensures IsName("customized_claims") && IsName("runtime_data") && IsName("submods") && IsName("cpu0")
    ensures IsName("ear.veraison.annotated-evidence") && IsName("runtime_data_claims")
  {
  }

  lemma EarNames(v: Json)
    ensures Resolve(v, EarTokens()) ==
            Field(Field(Field(Field(Field(Some(v), "submods"), "cpu0"), "ear.veraison.annotated-evidence"),
                        "runtime_data_claims"), "tee-pubkey")
  {
    BuiltInNames();
    var tokens := ["submods", "cpu0", "ear.veraison.annotated-evidence", "runtime_data_claims", "tee-pubkey"];
    assert EarTokens() == tokens;
    FiveNames(v, "submods", "cpu0", "ear.veraison.annotated-evidence", "runtime_data_claims", "tee-pubkey");
  }

  lemma FiveNames(v: Json, a: string, b: string, c: string, d: string, e: string)
    requires IsName(a) && IsName(b) && IsName(c) && IsName(d) && IsName(e)
    ensures Resolve(v, [a, b, c, d, e]) == Field(Field(Field(Field(Field(Some(v), a), b), c), d), e)
  {
    hide IsName, Field, Resolve;
    ResolveNames(v, [a, b, c, d, e]);
    assert [a, b, c, d, e][1..] == [b, c, d, e] && [b, c, d, e][1..] == [c, d, e];
    assert [c, d, e][1..] == [d, e] && [d, e][1..] == [e] && [e][1..] == [];
    var x := Field(Field(Some(v), a), b);
    assert Fields(Some(v), [a, b, c, d, e]) == Fields(Field(Some(v), a), [b, c, d, e]);
    assert Fields(Field(Some(v), a), [b, c, d, e]) == Fields(x, [c, d, e]);
    assert Fields(x, [c, d, e]) == Fields(Field(x, c), [d, e]);
    assert Fields(Field(x, c), [d, e]) == Fields(Field(Field(x, c), d), [e]);
    assert Fields(Field(Field(x, c), d), [e]) == Field(Field(Field(x, c), d), e);
  }

  /** Where the key is looked for when no configured path leads anywhere: in the two places of Intel's service, in the
      claims of the simple token, in the `cpu0` submodule of an EAR token, and at the top, in this order. */
  lemma BuiltInSearch(configured: seq<string>, claims: Json)
    requires forall p :: p in configured ==> Pointer(claims, p).None?
    ensures var top := Some(claims);
            FirstResolved(claims, KeyPaths(configured)) ==
            Else(Field(Field(Field(top, "tdx"), "attester_runtime_data"), "tee-pubkey"),
            Else(Field(Field(Field(top, "tdx"), "attester_user_data"), "tee-pubkey"),
            Else(Field(Field(Field(top, "customized_claims"), "runtime_data"), "tee-pubkey"),
            Else(Field(Field(Field(Field(Field(top, "submods"), "cpu0"), "ear.veraison.annotated-evidence"),
                             "runtime_data_claims"), "tee-pubkey"),
                 Field(top, "tee-pubkey")))))
  {
    BuiltInResolves(claims);
    hide Field, PathText, Pointer, FirstResolved, Resolve, ItaTokens, ItaVtpmTokens, CocoTokens, EarTokens, ValueTokens;
    var a, b, c, d, e := PathText(ItaTokens()), PathText(ItaVtpmTokens()), PathText(CocoTokens()),
                         PathText(EarTokens()), PathText(ValueTokens());
    SkipUnresolved(claims, configured, [a, b, c, d, e]);
    FiveResolved(claims, a, b, c, d, e);
    PointerFollowsPath(claims, ItaTokens());
    PointerFollowsPath(claims, ItaVtpmTokens());
    PointerFollowsPath(claims, CocoTokens());
    PointerFollowsPath(claims, EarTokens());
    PointerFollowsPath(claims, ValueTokens());
  }

  lemma FiveResolved(claims: Json, a: string, b: string, c: string, d: string, e: string)
    ensures FirstResolved(claims, [a, b, c, d, e]) ==
            Else(Pointer(claims, a), Else(Pointer(claims, b), Else(Pointer(claims, c),
                 Else(Pointer(claims, d), Pointer(claims, e)))))
  {
    hide Pointer;
    assert [a, b, c, d, e][1..] == [b, c, d, e] && [b, c, d, e][1..] == [c, d, e];
    assert [c, d, e][1..] == [d, e] && [d, e][1..] == [e] && [e][1..] == [];
    assert FirstResolved(claims, [e]) == Pointer(claims, e);
    assert FirstResolved(claims, [d, e]) == Else(Pointer(claims, d), Pointer(claims, e));
    assert FirstResolved(claims, [c, d, e]) == Else(Pointer(claims, c), FirstResolved(claims, [d, e]));
    assert FirstResolved(claims, [b, c, d, e]) == Else(Pointer(claims, b), FirstResolved(claims, [c, d, e]));
  }

  lemma BuiltInResolves(claims: Json)
    ensures var top := Some(claims);
            && Resolve(claims, ItaTokens()) == Field(Field(Field(top, "tdx"), "attester_runtime_data"), "tee-pubkey")
            && Resolve(claims, ItaVtpmTokens()) == Field(Field(Field(top, "tdx"), "attester_user_data"), "tee-pubkey")
            && Resolve(claims, CocoTokens()) == Field(Field(Field(top, "customized_claims"), "runtime_data"), "tee-pubkey")
            && Resolve(claims, EarTokens()) ==
               Field(Field(Field(Field(Field(top, "submods"), "cpu0"), "ear.veraison.annotated-evidence"),
                           "runtime_data_claims"), "tee-pubkey")
            && Resolve(claims, ValueTokens()) == Field(top, "tee-pubkey")
  {
    hide Field, Resolve;
    BuiltInNames();
    hide IsName;
    EarNames(claims);
    ThreeNames(claims, "tdx", "attester_runtime_data", "tee-pubkey");
    ThreeNames(claims, "tdx", "attester_user_data", "tee-pubkey");
    ThreeNames(claims, "customized_claims", "runtime_data", "tee-pubkey");
    OneName(claims, "tee-pubkey");
  }
}
