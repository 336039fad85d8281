/** Flattening nested claims to dotted keys for the simple attestation token. */
module Flatten {
  import opened Wrappers
  import opened Json

  type Path = seq<string>

  // ----- leaves of a tree -----

  /** The leaf at a path; objects are inner nodes, everything else is a leaf. */
  function LeafAt(j: Json, p: Path): Option<Json>
    decreases |p|
  {
    if !j.Obj? then (if p == [] then Some(j) else None)
    else if p == [] || p[0] !in j.fields then None
    else LeafAt(j.fields[p[0]], p[1..])
  }

  function Paths(j: Json): set<Path> {
    if j.Obj? then set k, q | k in j.fields && q in Paths(j.fields[k]) :: [k] + q else {[]}
  }

  lemma {:induction false} PathsAreLeaves(j: Json, p: Path)
    ensures p in Paths(j) <==> LeafAt(j, p).Some?
    decreases |p|
  {
    if j.Obj? && p != [] && p[0] in j.fields {
      PathsAreLeaves(j.fields[p[0]], p[1..]);
      assert p == [p[0]] + p[1..];
    }
  }

  // ----- dotted keys -----

  /** Each segment after a dot. */
  function Suffix(p: Path): string {
    if p == [] then "" else "." + p[0] + Suffix(p[1..])
  }

  function Key(prefix: string, p: Path): string {
    prefix + Suffix(p)
  }

  lemma KeyStep(prefix: string, k: string, q: Path)
    ensures Key(prefix + "." + k, q) == Key(prefix, [k] + q)
  {
    assert ([k] + q)[1..] == q;
    assert (prefix + "." + k) + Suffix(q) == prefix + ("." + k + Suffix(q));
  }

  function UpToDot(s: string): (t: string)
    ensures t <= s && '.' !in t
  {
    if s == "" || s[0] == '.' then "" else [s[0]] + UpToDot(s[1..])
  }

  /** Splitting a suffix at its dots. */
  function Split(s: string): Path {
    if s == "" then [] else
    var seg := UpToDot(s[1..]);
    [seg] + Split(s[1 + |seg|..])
  }

  predicate DotFree(p: Path) {
    forall i :: 0 <= i < |p| ==> '.' !in p[i]
  }

  lemma {:induction false} UpToDotOf(a: string, b: string)
    requires '.' !in a && (b == "" || b[0] == '.')
    ensures UpToDot(a + b) == a
  {
    if a == "" {
      assert a + b == b;
    } else {
      assert (a + b)[1..] == a[1..] + b;
      UpToDotOf(a[1..], b);
    }
  }

  /** Splitting inverts joining when no segment holds a dot. */
  lemma {:induction false} SplitOfSuffix(p: Path)
    requires DotFree(p)
    ensures Split(Suffix(p)) == p
  {
    if p != [] {
      var s := Suffix(p);
      assert s[1..] == p[0] + Suffix(p[1..]);
      UpToDotOf(p[0], Suffix(p[1..]));
      assert s[1 + |p[0]|..] == Suffix(p[1..]);
      SplitOfSuffix(p[1..]);
    }
  }

  // ----- flattening -----

  /** `out` is `parent` with every leaf of `child` inserted under its dotted key.  Where two leaves share a key,
      one of them is kept; which one depends on the order in which the object is visited. */
  ghost predicate Flattens(parent: map<string, Json>, child: Json, prefix: string, out: map<string, Json>) {
    && (forall k :: k in out <==> k in parent || IsKey(child, prefix, k))
    && (forall k :: k in out ==>
          if IsKey(child, prefix, k) then exists p :: Under(child, prefix, k, p) && LeafAt(child, p) == Some(out[k])
          else out[k] == parent[k])
  }

  ghost predicate Under(child: Json, prefix: string, k: string, p: Path) {
    p in Paths(child) && Key(prefix, p) == k
  }

  ghost predicate IsKey(child: Json, prefix: string, k: string) {
    exists p :: Under(child, prefix, k, p)
  }

  method FlattenHelper(parent: map<string, Json>, child: Json, prefix: string) returns (out: map<string, Json>)
    ensures Flattens(parent, child, prefix, out)
    decreases child
  {
    if !child.Obj? {
      FlattenLeaf(parent, child, prefix);
      return parent[prefix := child];
    }
    out := parent;
    var left := child.fields;
    ghost var done: map<string, Json> := map[];
    FlattenNothing(parent, prefix);
    assert map[] + left == left;
    hide Flattens;
    while left != map[]
      invariant left.Keys !! done.Keys && done + left == child.fields
      invariant Flattens(parent, Obj(done), prefix, out)
      decreases |left|
    {
      var k :| k in left;
      ghost var mid := out;
      MoveKey(done, left, k);
      out := FlattenHelper(out, child.fields[k], prefix + "." + k);
      FlattenField(parent, done, k, child.fields[k], prefix, mid, out);
      done := done[k := child.fields[k]];
      left := left - {k};
    }
    assert done + left == done;
  }

  lemma MoveKey(done: map<string, Json>, left: map<string, Json>, k: string)
    requires k in left && done.Keys !! left.Keys
    ensures k !in done && k in done + left && (done + left)[k] == left[k]
    ensures done[k := left[k]] + (left - {k}) == done + left
    ensures done[k := left[k]].Keys !! (left - {k}).Keys
    ensures |left - {k}| < |left|
  {
    assert (left - {k}).Keys == left.Keys - {k};
  }

  lemma FlattenLeaf(parent: map<string, Json>, leaf: Json, prefix: string)
    requires !leaf.Obj?
    ensures Flattens(parent, leaf, prefix, parent[prefix := leaf])
  {
    assert Key(prefix, []) == prefix;
    assert Under(leaf, prefix, prefix, []);
    assert LeafAt(leaf, []) == Some(leaf);
    forall k, p | Under(leaf, prefix, k, p)
      ensures k == prefix
    {
    }
  }

  lemma FlattenNothing(parent: map<string, Json>, prefix: string)
    ensures Flattens(parent, Obj(map[]), prefix, parent)
  {
  }

  lemma FieldPaths(done: map<string, Json>, k: string, v: Json, p: Path)
    requires k !in done
    ensures p in Paths(Obj(done[k := v])) <==> p in Paths(Obj(done)) || (p != [] && p[0] == k && p[1..] in Paths(v))
    ensures p in Paths(Obj(done)) ==> LeafAt(Obj(done[k := v]), p) == LeafAt(Obj(done), p)
    ensures p != [] && p[0] == k && p[1..] in Paths(v) ==> LeafAt(Obj(done[k := v]), p) == LeafAt(v, p[1..])
  {
    PathsAreLeaves(Obj(done[k := v]), p);
    PathsAreLeaves(Obj(done), p);
    if p != [] {
      PathsAreLeaves(v, p[1..]);
    }
  }

  lemma FieldKeys(done: map<string, Json>, k: string, v: Json, prefix: string, key: string)
    requires k !in done
    ensures IsKey(Obj(done[k := v]), prefix, key) <==> IsKey(Obj(done), prefix, key) || IsKey(v, prefix + "." + k, key)
  {
    hide Paths, Key, LeafAt;
    var after := Obj(done[k := v]);
    if p :| Under(after, prefix, key, p) {
      FieldPaths(done, k, v, p);
      if p in Paths(Obj(done)) {
        assert Under(Obj(done), prefix, key, p);
      } else {
        assert p == [k] + p[1..];
        KeyStep(prefix, k, p[1..]);
        assert Under(v, prefix + "." + k, key, p[1..]);
      }
    }
    if p :| Under(Obj(done), prefix, key, p) {
      FieldPaths(done, k, v, p);
      assert Under(after, prefix, key, p);
    }
    if q :| Under(v, prefix + "." + k, key, q) {
      FieldPaths(done, k, v, [k] + q);
      KeyStep(prefix, k, q);
      assert ([k] + q)[1..] == q;
      assert Under(after, prefix, key, [k] + q);
    }
  }

  lemma FlattenField(parent: map<string, Json>, done: map<string, Json>, k: string, v: Json, prefix: string,
                     mid: map<string, Json>, out: map<string, Json>)
    requires k !in done
    requires Flattens(parent, Obj(done), prefix, mid) && Flattens(mid, v, prefix + "." + k, out)
    ensures Flattens(parent, Obj(done[k := v]), prefix, out)
  {
    hide IsKey, Under, LeafAt, Paths, Key;
    var after := Obj(done[k := v]);
    forall key
      ensures IsKey(after, prefix, key) <==> IsKey(Obj(done), prefix, key) || IsKey(v, prefix + "." + k, key)
    {
      FieldKeys(done, k, v, prefix, key);
    }
    forall key | key in out && IsKey(after, prefix, key)
      ensures exists p :: Under(after, prefix, key, p) && LeafAt(after, p) == Some(out[key])
    {
      if IsKey(v, prefix + "." + k, key) {
        var q :| Under(v, prefix + "." + k, key, q) && LeafAt(v, q) == Some(out[key]);
        LiftNew(done, k, v, prefix, key, q);
      } else {
        var p :| Under(Obj(done), prefix, key, p) && LeafAt(Obj(done), p) == Some(mid[key]);
        LiftOld(done, k, v, prefix, key, p);
      }
    }
  }

  lemma LiftNew(done: map<string, Json>, k: string, v: Json, prefix: string, key: string, q: Path)
    requires k !in done && Under(v, prefix + "." + k, key, q)
    ensures Under(Obj(done[k := v]), prefix, key, [k] + q) && LeafAt(Obj(done[k := v]), [k] + q) == LeafAt(v, q)
  {
    hide Paths, Key, LeafAt;
    assert ([k] + q)[1..] == q;
    FieldPaths(done, k, v, [k] + q);
    KeyStep(prefix, k, q);
  }

  lemma LiftOld(done: map<string, Json>, k: string, v: Json, prefix: string, key: string, p: Path)
    requires k !in done && Under(Obj(done), prefix, key, p)
    ensures Under(Obj(done[k := v]), prefix, key, p) && LeafAt(Obj(done[k := v]), p) == LeafAt(Obj(done), p)
  {
    hide Paths, Key, LeafAt;
    FieldPaths(done, k, v, p);
  }

  // ----- the claims of one TEE -----

  const RESERVED: set<string> := {"report_data", "init_data"}

  datatype ClaimError = NotAMap

  /** The claims that are flattened under the TEE's name. */
  function Body(fields: map<string, Json>): Json {
    Obj(fields - RESERVED)
  }

  function FieldOr(fields: map<string, Json>, k: string): Json {
    if k in fields then fields[k] else Str("")
  }

  ghost predicate ClaimsFlatten(tee: string, fields: map<string, Json>, out: map<string, Json>) {
    exists core :: Flattens(map[], Body(fields), tee, core) && out == AddReserved(fields, core)
  }

  function AddReserved(fields: map<string, Json>, core: map<string, Json>): map<string, Json> {
    core["report_data" := FieldOr(fields, "report_data")]["init_data" := FieldOr(fields, "init_data")]
  }

  method FlattenClaims(tee: string, claims: Json) returns (r: Outcome<map<string, Json>, ClaimError>)
    ensures r.Ok? <==> claims.Obj?
    ensures r.Ok? ==> ClaimsFlatten(tee, claims.fields, r.value)
  {
    if !claims.Obj? {
      return Err(NotAMap);
    }
    var core := FlattenHelper(map[], Body(claims.fields), tee);
    var out := core["report_data" := FieldOr(claims.fields, "report_data")];
    out := out["init_data" := FieldOr(claims.fields, "init_data")];
    return Ok(out);
  }

  lemma KeysHaveDot(tee: string, fields: map<string, Json>, p: Path)
    requires p in Paths(Body(fields))
    ensures p != [] && Key(tee, p) !in RESERVED
  {
    var k := Key(tee, p);
    assert k[|tee|] == '.';
    assert '.' in k;
    assert forall r :: r in RESERVED ==> '.' !in r;
  }

  /** The flat map has the two reserved keys and, for the leaves, exactly their dotted keys. */
  lemma FlatKeys(tee: string, fields: map<string, Json>, out: map<string, Json>)
    requires ClaimsFlatten(tee, fields, out)
    ensures out.Keys == LeafKeys(tee, Paths(Body(fields))) + RESERVED
    ensures LeafKeys(tee, Paths(Body(fields))) !! RESERVED
    ensures out["report_data"] == if "report_data" in fields then fields["report_data"] else Str("")
    ensures out["init_data"] == if "init_data" in fields then fields["init_data"] else Str("")
  {
    hide Paths, Key, Body, LeafAt;
    var core :| Flattens(map[], Body(fields), tee, core) && out == AddReserved(fields, core);
    var keys := LeafKeys(tee, Paths(Body(fields)));
    forall k
      ensures k in core <==> k in keys
    {
      if k in core {
        var p :| Under(Body(fields), tee, k, p);
      }
      if p :| p in Paths(Body(fields)) && Key(tee, p) == k {
        assert Under(Body(fields), tee, k, p);
      }
    }
    forall k | k in keys
      ensures k !in RESERVED
    {
      var p :| p in Paths(Body(fields)) && Key(tee, p) == k;
      KeysHaveDot(tee, fields, p);
    }
  }

  function LeafKeys(tee: string, ps: set<Path>): set<string> {
    set p | p in ps :: Key(tee, p)
  }

  predicate JoinsApart(tee: string, ps: set<Path>) {
    forall p, q :: p in ps && q in ps && Key(tee, p) == Key(tee, q) ==> p == q
  }

  lemma {:induction false} LeafKeysSize(tee: string, ps: set<Path>)
    ensures |LeafKeys(tee, ps)| <= |ps|
    ensures |LeafKeys(tee, ps)| == |ps| <==> JoinsApart(tee, ps)
    decreases |ps|
  {
    hide Key;
    if ps != {} {
      var p :| p in ps;
      var rest := ps - {p};
      LeafKeysSize(tee, rest);
      assert LeafKeys(tee, ps) == LeafKeys(tee, rest) + {Key(tee, p)};
      if Key(tee, p) in LeafKeys(tee, rest) {
        assert LeafKeys(tee, ps) == LeafKeys(tee, rest);
        var q :| q in rest && Key(tee, q) == Key(tee, p);
        assert !JoinsApart(tee, ps);
      } else {
        assert JoinsApart(tee, ps) <==> JoinsApart(tee, rest);
      }
    }
  }

  // ----- when leaves collide -----

  /** Field `l` is named like field `k` with a dot and more, and a leaf below `k` goes on as the name and a leaf of
      `l` do. */
  ghost predicate FieldsClash(fields: map<string, Json>) {
    exists k, l, p, q :: FieldClash(fields, k, l, p, q)
  }

  predicate FieldClash(fields: map<string, Json>, k: string, l: string, p: Path, q: Path) {
    && k in fields && l in fields && k + "." <= l
    && p in Paths(fields[k]) && q in Paths(fields[l]) && k + Suffix(p) == l + Suffix(q)
  }

  /** Some object of the tree, at any depth, has two fields that clash. */
  ghost predicate Clash(j: Json) {
    j.Obj? && (FieldsClash(j.fields) || exists k :: k in j.fields && Clash(j.fields[k]))
  }

  lemma FirstField(j: Json, p: Path)
    requires j.Obj? && p in Paths(j)
    ensures p != [] && p[0] in j.fields && p[1..] in Paths(j.fields[p[0]]) && p == [p[0]] + p[1..]
    ensures Suffix(p) == "." + (p[0] + Suffix(p[1..]))
  {
    PathsAreLeaves(j, p);
    PathsAreLeaves(j.fields[p[0]], p[1..]);
  }

  /** Two texts that agree, each a name and then nothing or a dot: the shorter name and a dot begin the longer. */
  lemma DotBegins(k: string, s: string, l: string, t: string)
    requires k + s == l + t && |k| < |l| && (s == "" || s[0] == '.')
    ensures k + "." <= l
  {
    var text := k + s;
    assert text[..|l|] == l && text[..|k|] == k;
    assert |s| > 0 && text[|k|] == '.';
    assert l == k + l[|k|..] && l[|k|] == '.';
  }

  lemma {:induction false} SameSuffixClashes(j: Json, p: Path, q: Path)
    requires p in Paths(j) && q in Paths(j) && p != q && Suffix(p) == Suffix(q)
    ensures Clash(j)
    decreases |p|
  {
    if j.Obj? {
      FirstField(j, p);
      FirstField(j, q);
      var k, l, x, y := p[0], q[0], p[1..], q[1..];
      assert k + Suffix(x) == Suffix(p)[1..] == Suffix(q)[1..] == l + Suffix(y);
      if |k| < |l| {
        DotBegins(k, Suffix(x), l, Suffix(y));
        assert FieldClash(j.fields, k, l, x, y);
      } else if |l| < |k| {
        DotBegins(l, Suffix(y), k, Suffix(x));
        assert FieldClash(j.fields, l, k, y, x);
      } else {
        assert k == (k + Suffix(x))[..|k|] == l;
        assert Suffix(x) == (k + Suffix(x))[|k|..] == Suffix(y);
        SameSuffixClashes(j.fields[k], x, y);
      }
    }
  }

  lemma FieldSuffix(j: Json, k: string, p: Path)
    requires j.Obj? && k in j.fields && p in Paths(j.fields[k])
    ensures [k] + p in Paths(j) && Suffix([k] + p) == "." + (k + Suffix(p))
  {
    assert ([k] + p)[1..] == p;
  }

  lemma {:induction false} ClashSameSuffix(j: Json) returns (p: Path, q: Path)
    requires Clash(j)
    ensures p in Paths(j) && q in Paths(j) && p != q && Suffix(p) == Suffix(q)
    decreases j
  {
    if k, l, x, y :| FieldClash(j.fields, k, l, x, y) {
      FieldSuffix(j, k, x);
      FieldSuffix(j, l, y);
      p, q := [k] + x, [l] + y;
      assert p[0] == k && q[0] == l && k != l;
    } else {
      var k :| k in j.fields && Clash(j.fields[k]);
      var x, y := ClashSameSuffix(j.fields[k]);
      FieldSuffix(j, k, x);
      FieldSuffix(j, k, y);
      p, q := [k] + x, [k] + y;
      assert p[1..] == x && q[1..] == y;
    }
  }

  /** No two leaves join to one key if and only if no two fields of one object clash, under any TEE name. */
  lemma JoinsApartIff(tee: string, j: Json)
    ensures JoinsApart(tee, Paths(j)) <==> !Clash(j)
  {
    hide Clash, Paths, Suffix;
    if Clash(j) {
      var p, q := ClashSameSuffix(j);
      assert Key(tee, p) == Key(tee, q);
    } else {
      forall p, q | p in Paths(j) && q in Paths(j) && Key(tee, p) == Key(tee, q)
        ensures p == q
      {
        assert Suffix(p) == Key(tee, p)[|tee|..] == Key(tee, q)[|tee|..] == Suffix(q);
        if p != q {
          SameSuffixClashes(j, p, q);
        }
      }
    }
  }

  /** The exact condition for losing nothing: there is one entry per leaf besides the two reserved ones if and only
      if no object of the claims has two fields that clash. */
  lemma OneEntryPerLeafIff(tee: string, fields: map<string, Json>, out: map<string, Json>)
    requires ClaimsFlatten(tee, fields, out)
    ensures |out| <= |Paths(Body(fields))| + 2
    ensures |out| == |Paths(Body(fields))| + 2 <==> !Clash(Body(fields))
  {
    hide Paths, Key, Body, ClaimsFlatten, JoinsApart, Clash;
    var ps := Paths(Body(fields));
    FlatKeys(tee, fields, out);
    LeafKeysSize(tee, ps);
    JoinsApartIff(tee, Body(fields));
    assert |out| == |out.Keys| == |LeafKeys(tee, ps)| + |RESERVED|;
  }

  /** Such a loss: a dotted key beside a nested one, however it is flattened. */
  lemma DottedKeyCollides(tee: string, a: Json, b: Json, out: map<string, Json>)
    requires !a.Obj? && !b.Obj?
    requires ClaimsFlatten(tee, map["x" := Obj(map["y" := a]), "x.y" := b], out)
    ensures |out| < |Paths(Body(map["x" := Obj(map["y" := a]), "x.y" := b]))| + 2
  {
    var fields := map["x" := Obj(map["y" := a]), "x.y" := b];
    DottedKeyClashes(a, b);
    hide ClaimsFlatten, Paths, Body, Clash;
    OneEntryPerLeafIff(tee, fields, out);
  }

  lemma DottedKeyClashes(a: Json, b: Json)
    requires !a.Obj? && !b.Obj?
    ensures Clash(Body(map["x" := Obj(map["y" := a]), "x.y" := b]))
  {
    var fields := map["x" := Obj(map["y" := a]), "x.y" := b];
    var body := Body(fields);
    assert body.fields == fields;
    assert ["y"][1..] == [];
    PathsAreLeaves(Obj(map["y" := a]), ["y"]);
    assert Suffix(["y"]) == ".y" && Suffix([]) == "";
    assert FieldClash(body.fields, "x", "x.y", ["y"], []);
  }

  predicate DotFreeTree(j: Json) {
    j.Obj? ==> forall k :: k in j.fields ==> '.' !in k && DotFreeTree(j.fields[k])
  }

  lemma {:induction false} DotFreePaths(j: Json, p: Path)
    requires DotFreeTree(j) && p in Paths(j)
    ensures DotFree(p)
    decreases |p|
  {
    if j.Obj? {
      PathsAreLeaves(j, p);
      PathsAreLeaves(j.fields[p[0]], p[1..]);
      DotFreePaths(j.fields[p[0]], p[1..]);
    }
  }

  // ----- rebuilding the tree -----

  function LeafMap(j: Json): map<Path, Json> {
    map p | p in Paths(j) :: (PathsAreLeaves(j, p); LeafAt(j, p).value)
  }

  /** The leaves that a flat map holds, their paths recovered by splitting the keys at dots. */
  function Unflatten(tee: string, out: map<string, Json>): map<Path, Json> {
    var ps := set k | k in out.Keys - RESERVED && |tee| <= |k| :: Split(k[|tee|..]);
    map p | p in ps && Key(tee, p) in out :: out[Key(tee, p)]
  }

  function Heads(m: map<Path, Json>): set<string> {
    set p | p in m && p != [] :: p[0]
  }

  function Tails(m: map<Path, Json>, k: string): map<Path, Json> {
    map q | q in (set p | p in m && p != [] && p[0] == k :: p[1..]) && [k] + q in m :: m[[k] + q]
  }

  /** The tree with the given leaves, none of them deeper than `depth`. */
  function Build(m: map<Path, Json>, depth: nat): Json
    decreases depth
  {
    if [] in m then m[[]]
    else if depth == 0 then Obj(map[])
    else Obj(map k | k in Heads(m) :: Build(Tails(m, k), depth - 1))
  }

  predicate HasLeaf(j: Json) {
    j.Obj? ==> exists k :: k in j.fields && HasLeaf(j.fields[k])
  }

  /** The tree without the objects that hold no leaf. */
  function Pruned(j: Json): Json {
    if j.Obj? then Obj(map k | k in j.fields && HasLeaf(j.fields[k]) :: Pruned(j.fields[k])) else j
  }

  lemma {:induction false} HasLeafIff(j: Json)
    ensures HasLeaf(j) <==> Paths(j) != {}
    decreases j
  {
    if j.Obj? {
      forall k | k in j.fields
        ensures HasLeaf(j.fields[k]) <==> Paths(j.fields[k]) != {}
      {
        HasLeafIff(j.fields[k]);
      }
      if HasLeaf(j) {
        var k :| k in j.fields && HasLeaf(j.fields[k]);
        var q :| q in Paths(j.fields[k]);
        assert [k] + q in Paths(j);
      }
      if p :| p in Paths(j) {
        PathsAreLeaves(j, p);
        PathsAreLeaves(j.fields[p[0]], p[1..]);
      }
    } else {
      assert [] in Paths(j);
    }
  }

  lemma FieldLeaves(j: Json, k: string)
    requires j.Obj? && k in j.fields
    ensures Tails(LeafMap(j), k) == LeafMap(j.fields[k])
    ensures k in Heads(LeafMap(j)) <==> HasLeaf(j.fields[k])
  {
    HasLeafIff(j.fields[k]);
    forall q: Path
      ensures [k] + q in Paths(j) <==> q in Paths(j.fields[k])
      ensures LeafAt(j, [k] + q) == LeafAt(j.fields[k], q)
    {
      assert ([k] + q)[1..] == q;
      PathsAreLeaves(j, [k] + q);
      PathsAreLeaves(j.fields[k], q);
    }
    hide Paths, LeafAt;
    var m := LeafMap(j);
    forall q: Path
      ensures q in Tails(m, k) <==> q in Paths(j.fields[k])
    {
      if q in Paths(j.fields[k]) {
        assert ([k] + q)[0] == k && ([k] + q)[1..] == q && [k] + q in m;
      }
    }
    if k in Heads(m) {
      var p :| p in m && p != [] && p[0] == k;
      assert p == [k] + p[1..];
      assert p[1..] in Paths(j.fields[k]);
    }
    if q :| q in Paths(j.fields[k]) {
      assert [k] + q in m && ([k] + q)[0] == k;
    }
  }

  /** Rebuilding from the leaves gives the tree back with empty objects pruned. */
  lemma {:induction false} BuildPrunes(j: Json, depth: nat)
    requires forall p :: p in Paths(j) ==> |p| <= depth
    ensures Build(LeafMap(j), depth) == Pruned(j)
    decreases depth
  {
    hide *;
    if !j.Obj? {
      BuildLeaf(j, depth);
      return;
    }
    var m := LeafMap(j);
    HeadsAreFields(j);
    forall k | k in j.fields
      ensures k in Heads(m) <==> HasLeaf(j.fields[k])
      ensures HasLeaf(j.fields[k]) ==> depth > 0
      ensures depth > 0 ==> Build(Tails(m, k), depth - 1) == Pruned(j.fields[k])
    {
      FieldLeaves(j, k);
      HasLeafIff(j.fields[k]);
      FieldDepth(j, k, depth);
      if depth > 0 {
        BuildPrunes(j.fields[k], depth - 1);
      }
    }
    BuildObject(j.fields, m, depth);
  }

  lemma BuildObject(fields: map<string, Json>, m: map<Path, Json>, depth: nat)
    requires [] !in m
    requires forall k :: k in Heads(m) <==> k in fields && HasLeaf(fields[k])
    requires forall k :: k in fields && HasLeaf(fields[k]) ==> depth > 0
    requires depth > 0 ==> forall k :: k in fields ==> Build(Tails(m, k), depth - 1) == Pruned(fields[k])
    ensures Build(m, depth) == Pruned(Obj(fields))
  {
    hide Heads, Tails, HasLeaf;
    var kept := map k | k in fields && HasLeaf(fields[k]) :: Pruned(fields[k]);
    assert Pruned(Obj(fields)) == Obj(kept);
    if depth == 0 {
      assert kept == map[];
    } else {
      var built := map k | k in Heads(m) :: Build(Tails(m, k), depth - 1);
      assert Build(m, depth) == Obj(built);
      hide Build, Pruned;
      assert built == kept;
    }
  }

  lemma BuildLeaf(j: Json, depth: nat)
    requires !j.Obj?
    ensures Build(LeafMap(j), depth) == Pruned(j)
  {
    assert [] in Paths(j);
    PathsAreLeaves(j, []);
    assert LeafMap(j) == map[[] := j];
  }

  lemma HeadsAreFields(j: Json)
    requires j.Obj?
    ensures [] !in LeafMap(j)
    ensures forall k :: k in Heads(LeafMap(j)) ==> k in j.fields
  {
    forall k | k in Heads(LeafMap(j))
      ensures k in j.fields
    {
      var p :| p in LeafMap(j) && p != [] && p[0] == k;
      PathsAreLeaves(j, p);
    }
  }

  lemma FieldDepth(j: Json, k: string, depth: nat)
    requires j.Obj? && k in j.fields && forall p :: p in Paths(j) ==> |p| <= depth
    ensures forall q :: q in Paths(j.fields[k]) ==> |q| + 1 <= depth
  {
    forall q | q in Paths(j.fields[k])
      ensures |q| + 1 <= depth
    {
      assert [k] + q in Paths(j);
    }
  }

  /** No leaf lies under a key that holds a dot. */
  predicate DotFreeLeaves(j: Json) {
    forall p :: p in Paths(j) ==> DotFree(p)
  }

  lemma DotFreeLeavesJoinApart(tee: string, j: Json)
    requires DotFreeLeaves(j)
    ensures JoinsApart(tee, Paths(j))
  {
    hide Paths;
    forall p, q | p in Paths(j) && q in Paths(j) && Key(tee, p) == Key(tee, q)
      ensures p == q
    {
      SplitOfSuffix(p);
      SplitOfSuffix(q);
      assert Suffix(p) == Key(tee, p)[|tee|..] == Key(tee, q)[|tee|..] == Suffix(q);
    }
  }

  /** Flattening loses nothing: splitting the keys at dots rebuilds the claims outside `report_data` and `init_data`,
      with empty objects pruned, if and only if no leaf lies under a key that holds a dot. */
  lemma RebuildsIff(tee: string, fields: map<string, Json>, out: map<string, Json>, depth: nat)
    requires ClaimsFlatten(tee, fields, out)
    requires forall p :: p in Paths(Body(fields)) ==> |p| <= depth
    ensures Build(Unflatten(tee, out), depth) == Pruned(Body(fields)) <==> DotFreeLeaves(Body(fields))
  {
    hide Build, Pruned, Body, Paths, DotFreeLeaves, Unflatten;
    if DotFreeLeaves(Body(fields)) {
      UnflattenIsLeafMap(tee, fields, out);
      BuildPrunes(Body(fields), depth);
    } else if Build(Unflatten(tee, out), depth) == Pruned(Body(fields)) {
      RebuiltIsDotFree(tee, fields, out, depth);
    }
  }

  /** In particular for claims whose keys hold no dot at any depth; and then there is one entry per leaf. */
  lemma FlattenLosesNothing(tee: string, fields: map<string, Json>, out: map<string, Json>, depth: nat)
    requires ClaimsFlatten(tee, fields, out) && DotFreeTree(Body(fields))
    requires forall p :: p in Paths(Body(fields)) ==> |p| <= depth
    ensures |out| == |Paths(Body(fields))| + 2
    ensures Build(Unflatten(tee, out), depth) == Pruned(Body(fields))
  {
    forall p | p in Paths(Body(fields)) ensures DotFree(p) {
      DotFreePaths(Body(fields), p);
    }
    assert DotFreeLeaves(Body(fields));
    hide Build, Pruned, Body, Paths, DotFreeTree, DotFreeLeaves, Unflatten, Clash, ClaimsFlatten;
    DotFreeLeavesJoinApart(tee, Body(fields));
    JoinsApartIff(tee, Body(fields));
    OneEntryPerLeafIff(tee, fields, out);
    RebuildsIff(tee, fields, out, depth);
  }

  lemma UnflattenIsLeafMap(tee: string, fields: map<string, Json>, out: map<string, Json>)
    requires ClaimsFlatten(tee, fields, out) && DotFreeLeaves(Body(fields))
    ensures Unflatten(tee, out) == LeafMap(Body(fields))
  {
    hide Paths, Body, LeafAt, Split, Key, DotFreeLeaves, ClaimsFlatten, JoinsApart;
    var body := Body(fields);
    DotFreeLeavesJoinApart(tee, body);
    forall p
      ensures p in Unflatten(tee, out) <==> p in Paths(body)
    {
      UnflattenKeys(tee, fields, out, p);
    }
    forall p | p in Paths(body)
      ensures Key(tee, p) in out && LeafAt(body, p) == Some(out[Key(tee, p)])
    {
      LeafValue(tee, fields, out, p);
    }
  }

  lemma UnflattenKeys(tee: string, fields: map<string, Json>, out: map<string, Json>, p: Path)
    requires ClaimsFlatten(tee, fields, out) && DotFreeLeaves(Body(fields))
    ensures p in Unflatten(tee, out) <==> p in Paths(Body(fields))
  {
    hide Paths, Body, Split, Key, DotFreeLeaves, ClaimsFlatten;
    var body := Body(fields);
    FlatKeys(tee, fields, out);
    if p in Unflatten(tee, out) {
      var k :| k in out.Keys - RESERVED && |tee| <= |k| && Split(k[|tee|..]) == p;
      assert k in LeafKeys(tee, Paths(body));
      var q :| q in Paths(body) && Key(tee, q) == k;
      KeySplits(tee, body, q);
    }
    if p in Paths(body) {
      KeySplits(tee, body, p);
      assert Key(tee, p) in LeafKeys(tee, Paths(body));
    }
  }

  lemma KeySplits(tee: string, j: Json, p: Path)
    requires DotFreeLeaves(j) && p in Paths(j)
    ensures |tee| <= |Key(tee, p)| && Split(Key(tee, p)[|tee|..]) == p
  {
    hide Paths;
    SplitOfSuffix(p);
    assert Key(tee, p)[|tee|..] == Suffix(p);
  }

  // ----- what is rebuilt has no dots -----

  lemma {:induction false} SplitIsDotFree(s: string)
    ensures DotFree(Split(s))
    decreases |s|
  {
    if s != "" {
      SplitIsDotFree(s[1 + |UpToDot(s[1..])|..]);
    }
  }

  predicate HoldsLeaves(m: map<Path, Json>) {
    forall p :: p in m ==> !m[p].Obj?
  }

  lemma TailsHold(m: map<Path, Json>, k: string)
    requires HoldsLeaves(m)
    ensures HoldsLeaves(Tails(m, k)) && forall q :: q in Tails(m, k) ==> [k] + q in m
  {
  }

  lemma BuiltField(m: map<Path, Json>, depth: nat, p: Path)
    requires [] !in m && LeafAt(Build(m, depth), p).Some?
    ensures depth > 0 && p != [] && LeafAt(Build(Tails(m, p[0]), depth - 1), p[1..]).Some?
  {
    hide Heads, Tails;
  }

  /** Every leaf of the rebuilt tree is one of the given leaves. */
  lemma {:induction false} BuiltLeaves(m: map<Path, Json>, depth: nat, p: Path)
    requires HoldsLeaves(m) && LeafAt(Build(m, depth), p).Some?
    ensures p in m
    decreases depth
  {
    hide Heads, Tails;
    if [] !in m {
      BuiltField(m, depth, p);
      hide Build, LeafAt;
      TailsHold(m, p[0]);
      BuiltLeaves(Tails(m, p[0]), depth - 1, p[1..]);
      assert p == [p[0]] + p[1..];
      return;
    }
  }

  /** Pruning keeps every leaf. */
  lemma {:induction false} PrunedLeaf(j: Json, p: Path)
    requires p in Paths(j)
    ensures LeafAt(Pruned(j), p).Some?
    decreases |p|
  {
    if j.Obj? {
      FirstField(j, p);
      HasLeafIff(j.fields[p[0]]);
      PrunedLeaf(j.fields[p[0]], p[1..]);
    }
  }

  lemma UnflattenHoldsLeaves(tee: string, fields: map<string, Json>, out: map<string, Json>)
    requires ClaimsFlatten(tee, fields, out)
    ensures HoldsLeaves(Unflatten(tee, out))
    ensures forall p :: p in Unflatten(tee, out) ==> DotFree(p)
  {
    hide Paths, Body, LeafAt, Key, Split, DotFree;
    var m := Unflatten(tee, out);
    forall p | p in m
      ensures !m[p].Obj? && DotFree(p)
    {
      var k :| k in out.Keys - RESERVED && |tee| <= |k| && Split(k[|tee|..]) == p;
      SplitIsDotFree(k[|tee|..]);
      FlatValueIsLeaf(tee, fields, out, p);
    }
  }

  lemma {:induction false} LeafIsNoObject(j: Json, p: Path)
    ensures LeafAt(j, p).Some? ==> !LeafAt(j, p).value.Obj?
    decreases |p|
  {
    if j.Obj? && p != [] && p[0] in j.fields {
      LeafIsNoObject(j.fields[p[0]], p[1..]);
    }
  }

  /** Every entry but the reserved ones is a leaf. */
  lemma EntryIsLeaf(tee: string, fields: map<string, Json>, out: map<string, Json>, k: string)
    requires ClaimsFlatten(tee, fields, out) && k in out && k !in RESERVED
    ensures !out[k].Obj?
  {
    hide Paths, Body, LeafAt, Key;
    var core :| Flattens(map[], Body(fields), tee, core) && out == AddReserved(fields, core);
    assert k in core && out[k] == core[k];
    var p :| Under(Body(fields), tee, k, p) && LeafAt(Body(fields), p) == Some(core[k]);
    LeafIsNoObject(Body(fields), p);
  }

  /** A recovered path is not empty, so its key is not a reserved one. */
  lemma RecoveredKey(tee: string, fields: map<string, Json>, out: map<string, Json>, k: string)
    requires ClaimsFlatten(tee, fields, out) && k in out && k !in RESERVED && |tee| <= |k|
    ensures Key(tee, Split(k[|tee|..])) !in RESERVED
  {
    hide Paths, Body, ClaimsFlatten, Key;
    FlatKeys(tee, fields, out);
    assert k in LeafKeys(tee, Paths(Body(fields)));
    var q :| q in Paths(Body(fields)) && Key(tee, q) == k;
    KeysHaveDot(tee, fields, q);
    SuffixOfKey(tee, q);
    hide LeafKeys, Suffix;
    assert Split(k[|tee|..]) != [];
    DottedKey(tee, Split(k[|tee|..]));
  }

  lemma SuffixOfKey(tee: string, p: Path)
    requires p != []
    ensures |tee| <= |Key(tee, p)| && Key(tee, p)[|tee|..] == Suffix(p) != ""
  {
  }

  lemma DottedKey(tee: string, p: Path)
    requires p != []
    ensures Key(tee, p) !in RESERVED
  {
    var text := Key(tee, p);
    assert text[|tee|] == '.';
    assert '.' in text && forall r :: r in RESERVED ==> '.' !in r;
  }

  lemma FlatValueIsLeaf(tee: string, fields: map<string, Json>, out: map<string, Json>, p: Path)
    requires ClaimsFlatten(tee, fields, out) && p in Unflatten(tee, out)
    ensures Key(tee, p) in out && !out[Key(tee, p)].Obj?
  {
    hide Paths, Body, Key, Split, ClaimsFlatten;
    var k :| k in out.Keys - RESERVED && |tee| <= |k| && Split(k[|tee|..]) == p;
    RecoveredKey(tee, fields, out, k);
    EntryIsLeaf(tee, fields, out, Key(tee, p));
  }

  lemma RebuiltIsDotFree(tee: string, fields: map<string, Json>, out: map<string, Json>, depth: nat)
    requires ClaimsFlatten(tee, fields, out) && Build(Unflatten(tee, out), depth) == Pruned(Body(fields))
    ensures DotFreeLeaves(Body(fields))
  {
    hide Paths, Body, Build, Pruned, LeafAt, Unflatten, HoldsLeaves, ClaimsFlatten, DotFree;
    UnflattenHoldsLeaves(tee, fields, out);
    forall p | p in Paths(Body(fields)) ensures DotFree(p) {
      PrunedLeaf(Body(fields), p);
      BuiltLeaves(Unflatten(tee, out), depth, p);
    }
  }

  /** Under a key that only one leaf joins to stands that leaf. */
  lemma LeafValue(tee: string, fields: map<string, Json>, out: map<string, Json>, p: Path)
    requires ClaimsFlatten(tee, fields, out) && p in Paths(Body(fields)) && JoinsApart(tee, Paths(Body(fields)))
    ensures Key(tee, p) in out && LeafAt(Body(fields), p) == Some(out[Key(tee, p)])
  {
    hide Paths, Body, LeafAt, Key;
    var body := Body(fields);
    var core :| Flattens(map[], body, tee, core) && out == AddReserved(fields, core);
    var k := Key(tee, p);
    assert Under(body, tee, k, p);
    assert k in core;
    var q :| Under(body, tee, k, q) && LeafAt(body, q) == Some(core[k]);
    KeysHaveDot(tee, fields, p);
  }

  // ----- claims of several TEEs -----

  function Merge(flats: seq<map<string, Json>>): map<string, Json> {
    if flats == [] then map[] else Merge(flats[..|flats| - 1]) + flats[|flats| - 1]
  }

  /** Flatten the claims of all TEEs into one map; later claims replace earlier ones of the same key. */
  method FlattenAll(all: seq<(string, Json)>) returns (r: Outcome<map<string, Json>, ClaimError>, ghost flats: seq<map<string, Json>>)
    ensures r.Ok? <==> forall i :: 0 <= i < |all| ==> all[i].1.Obj?
    ensures r.Ok? ==> |flats| == |all| && r.value == Merge(flats)
    ensures r.Ok? ==> forall i :: 0 <= i < |all| ==> ClaimsFlatten(all[i].0, all[i].1.fields, flats[i])
  {
    hide ClaimsFlatten;
    var flattened: map<string, Json> := map[];
    flats := [];
    for i := 0 to |all|
      invariant |flats| == i && flattened == Merge(flats)
      invariant forall j :: 0 <= j < i ==> all[j].1.Obj? && ClaimsFlatten(all[j].0, all[j].1.fields, flats[j])
    {
      var one := FlattenClaims(all[i].0, all[i].1);
      if !one.Ok? {
        return Err(NotAMap), flats;
      }
      assert (flats + [one.value])[..i] == flats;
      flattened := flattened + one.value;
      flats := flats + [one.value];
    }
    return Ok(flattened), flats;
  }

  /** The merged map has the keys of all maps. */
  lemma {:induction false} MergeKeys(flats: seq<map<string, Json>>, k: string)
    ensures k in Merge(flats) <==> exists i :: 0 <= i < |flats| && k in flats[i]
  {
    if flats != [] {
      var n := |flats| - 1;
      MergeKeys(flats[..n], k);
      if i :| 0 <= i < |flats| && k in flats[i] {
        assert i < n ==> k in flats[..n][i];
      }
    }
  }

  /** The last writer of a key wins. */
  lemma {:induction false} LastWriterWins(flats: seq<map<string, Json>>, i: nat, k: string)
    requires i < |flats| && k in flats[i] && forall j :: i < j < |flats| ==> k !in flats[j]
    ensures k in Merge(flats) && Merge(flats)[k] == flats[i][k]
  {
    if i < |flats| - 1 {
      LastWriterWins(flats[..|flats| - 1], i, k);
    }
  }

  /** So `report_data` and `init_data` of the merged claims are always those of the last TEE. */
  lemma ReservedComeFromLast(all: seq<(string, Json)>, flats: seq<map<string, Json>>)
    requires all != [] && |flats| == |all|
    requires forall i :: 0 <= i < |all| ==> all[i].1.Obj? && ClaimsFlatten(all[i].0, all[i].1.fields, flats[i])
    ensures var last := all[|all| - 1].1.fields;
            && "report_data" in Merge(flats) && "init_data" in Merge(flats)
            && Merge(flats)["report_data"] == (if "report_data" in last then last["report_data"] else Str(""))
            && Merge(flats)["init_data"] == (if "init_data" in last then last["init_data"] else Str(""))
  {
    hide ClaimsFlatten, LeafKeys;
    var n := |all| - 1;
    FlatKeys(all[n].0, all[n].1.fields, flats[n]);
    LastWriterWins(flats, n, "report_data");
    LastWriterWins(flats, n, "init_data");
  }
}
