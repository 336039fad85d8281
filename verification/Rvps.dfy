/** The reference value store: a list kept in a JSON file, or a key-value database, behind one interface. */
module Rvps {
  import opened Wrappers
  import opened Json

  datatype ReferenceValue = ReferenceValue(version: string, name: string, expiration: int, value: Json)

  predicate Expired(rv: ReferenceValue, now: int) { now > rv.expiration }

  /** What a backend holds: the list in the file, in order, or the database. */
  datatype Store = JsonFile(rvs: seq<ReferenceValue>) | Database(db: map<string, ReferenceValue>)

  /** How the file system or database answers one write: it works, fails without effect, or fails after the
      write took effect (as when flushing fails). */
  datatype Io = Works | FailsBefore | FailsAfter

  /** How one database entry is read: well, skipped because the database fails on it, or not parsed. */
  datatype EntryIo = Found | Skipped | Unparsable

  /** How a read of all values goes: whether the file can be read and parsed, and how each entry of the database is. */
  datatype Reading = Reading(file: bool, entry: string -> EntryIo)

  datatype ReadError = Unreadable

  const MESSAGE_VERSION := "0.1.0"

  /** A registration: the version of the message, the values its provenance yields (`None` when it does not
      verify), and how each write goes. */
  datatype Registration = Registration(version: string, extracted: Option<seq<ReferenceValue>>, io: nat -> Io)

  // ----- one write -----

  predicate HasName(rvs: seq<ReferenceValue>, name: string) {
    exists i :: 0 <= i < |rvs| && rvs[i].name == name
  }

  predicate DistinctNames(rvs: seq<ReferenceValue>) {
    forall i, j :: 0 <= i < j < |rvs| ==> rvs[i].name != rvs[j].name
  }

  /** Replace the first value of that name, or append. */
  function JsonSet(rvs: seq<ReferenceValue>, name: string, rv: ReferenceValue): seq<ReferenceValue> {
    if rvs == [] then [rv]
    else if rvs[0].name == name then [rv] + rvs[1..]
    else [rvs[0]] + JsonSet(rvs[1..], name, rv)
  }

  function StoreSet(s: Store, name: string, rv: ReferenceValue): Store {
    match s
    case JsonFile(rvs) => JsonFile(JsonSet(rvs, name, rv))
    case Database(db) => Database(db[name := rv])
  }

  /** The map from names to values that a list stands for. */
  function ViewOf(rvs: seq<ReferenceValue>): map<string, ReferenceValue> {
    if rvs == [] then map[] else ViewOf(rvs[..|rvs| - 1])[rvs[|rvs| - 1].name := rvs[|rvs| - 1]]
  }

  function View(s: Store): map<string, ReferenceValue> {
    if s.JsonFile? then ViewOf(s.rvs) else s.db
  }

  /** Names are keys: pairwise distinct in the list, equal to the key in the database. */
  predicate Valid(s: Store) {
    match s
    case JsonFile(rvs) => DistinctNames(rvs)
    case Database(db) => forall k :: k in db ==> db[k].name == k
  }

  /** A read of all values fails if the file cannot be read, or if an entry of the database does not parse. */
  predicate Fails(s: Store, io: Reading) {
    match s
    case JsonFile(_) => !io.file
    case Database(db) => exists k :: k in db && io.entry(k).Unparsable?
  }

  /** What a read sees otherwise: entries on which the database fails are passed over. */
  function Seen(s: Store, io: Reading): (m: map<string, ReferenceValue>)
    ensures forall k :: k in m <==> k in View(s) && (s.Database? ==> io.entry(k).Found?)
    ensures forall k :: k in m ==> m[k] == View(s)[k]
  {
    match s
    case JsonFile(rvs) => View(s)
    case Database(db) => map k | k in db && io.entry(k).Found? :: db[k]
  }

  /** Nothing of the store fails to be read. */
  predicate AllRead(s: Store, io: Reading) {
    match s
    case JsonFile(_) => io.file
    case Database(db) => forall k :: k in db ==> io.entry(k).Found?
  }

  /** A read sees the whole store exactly when nothing of it fails. */
  lemma SeenIff(s: Store, io: Reading)
    ensures !Fails(s, io) && Seen(s, io) == View(s) <==> AllRead(s, io)
  {
    hide ViewOf, Seen;
    if s.Database? && Seen(s, io) == View(s) {
      assert forall k :: k in s.db ==> k in Seen(s, io);
    }
    if s.Database? && AllRead(s, io) {
      assert Seen(s, io) == s.db;
    }
  }

  lemma {:induction false} ViewMeans(rvs: seq<ReferenceValue>)
    requires DistinctNames(rvs)
    ensures forall k :: k in ViewOf(rvs) <==> HasName(rvs, k)
    ensures forall i :: 0 <= i < |rvs| ==> rvs[i].name in ViewOf(rvs) && ViewOf(rvs)[rvs[i].name] == rvs[i]
  {
    if rvs != [] {
      var init, last := rvs[..|rvs| - 1], rvs[|rvs| - 1];
      ViewMeans(init);
      assert forall i :: 0 <= i < |init| ==> rvs[i] == init[i];
    }
  }

  /** Where a name first stands in the list, or the length of the list. */
  function FirstOf(rvs: seq<ReferenceValue>, name: string): (i: nat)
    ensures i <= |rvs| && (i < |rvs| ==> rvs[i].name == name)
    ensures forall j :: 0 <= j < i ==> rvs[j].name != name
  {
    if rvs == [] || rvs[0].name == name then 0 else 1 + FirstOf(rvs[1..], name)
  }

  lemma {:induction false} JsonSetAt(rvs: seq<ReferenceValue>, name: string, rv: ReferenceValue, i: nat)
    requires i <= |rvs| && (forall j :: 0 <= j < i ==> rvs[j].name != name) && (i < |rvs| ==> rvs[i].name == name)
    ensures JsonSet(rvs, name, rv) == if i < |rvs| then rvs[i := rv] else rvs + [rv]
  {
    if i > 0 {
      JsonSetAt(rvs[1..], name, rv, i - 1);
    }
  }

  /** A write under the value's own name keeps the names distinct and updates the map. */
  lemma SetRefines(s: Store, rv: ReferenceValue)
    requires Valid(s)
    ensures Valid(StoreSet(s, rv.name, rv))
    ensures View(StoreSet(s, rv.name, rv)) == View(s)[rv.name := rv]
  {
    if s.JsonFile? {
      JsonSetRefines(s.rvs, rv);
    }
  }

  /** In general, a write to the list keeps its names distinct if and only if the value's own name is the name
      written to, or a name not in the list. */
  lemma JsonSetDistinctIff(rvs: seq<ReferenceValue>, name: string, rv: ReferenceValue)
    requires DistinctNames(rvs)
    ensures DistinctNames(JsonSet(rvs, name, rv)) <==> rv.name == name || !HasName(rvs, rv.name)
  {
    hide JsonSet, FirstOf;
    var s, k := JsonSet(rvs, name, rv), FirstOf(rvs, name);
    JsonSetAt(rvs, name, rv, k);
    if HasName(rvs, rv.name) && rv.name != name {
      var i :| 0 <= i < |rvs| && rvs[i].name == rv.name;
      assert s[i].name == s[k].name;
    }
  }

  lemma JsonSetRefines(rvs: seq<ReferenceValue>, rv: ReferenceValue)
    requires DistinctNames(rvs)
    ensures DistinctNames(JsonSet(rvs, rv.name, rv))
    ensures ViewOf(JsonSet(rvs, rv.name, rv)) == ViewOf(rvs)[rv.name := rv]
  {
    hide JsonSet, ViewOf;
    JsonSetDistinctIff(rvs, rv.name, rv);
    JsonSetView(rvs, rv);
  }

  lemma {:induction false} JsonSetView(rvs: seq<ReferenceValue>, rv: ReferenceValue)
    requires DistinctNames(rvs)
    ensures ViewOf(JsonSet(rvs, rv.name, rv)) == ViewOf(rvs)[rv.name := rv]
  {
    hide *;
    var s := JsonSet(rvs, rv.name, rv);
    JsonSetStep(rvs, rv.name, rv);
    ViewOfCons(s);
    if rvs == [] {
      ViewOfEmpty();
      return;
    }
    HeadName(rvs);
    ViewOfCons(rvs);
    var rest := ViewOf(rvs[1..]);
    if rvs[0].name == rv.name {
      Overwrite(rest, rv.name, rvs[0], rv);
    } else {
      JsonSetView(rvs[1..], rv);
      Commute(rest, rvs[0].name, rvs[0], rv.name, rv);
    }
  }

  lemma JsonSetStep(rvs: seq<ReferenceValue>, name: string, rv: ReferenceValue)
    ensures var s := JsonSet(rvs, name, rv);
            && s != []
            && (rvs == [] ==> s[0] == rv && s[1..] == [])
            && (rvs != [] && rvs[0].name == name ==> s[0] == rv && s[1..] == rvs[1..])
            && (rvs != [] && rvs[0].name != name ==> s[0] == rvs[0] && s[1..] == JsonSet(rvs[1..], name, rv))
  {
  }

  lemma ViewOfEmpty()
    ensures ViewOf([]) == map[]
  {
  }

  lemma HeadName(rvs: seq<ReferenceValue>)
    requires rvs != [] && DistinctNames(rvs)
    ensures DistinctNames(rvs[1..]) && rvs[0].name !in ViewOf(rvs[1..])
  {
    hide ViewOf;
    ViewMeans(rvs[1..]);
  }

  lemma Overwrite(m: map<string, ReferenceValue>, k: string, v: ReferenceValue, w: ReferenceValue)
    requires k !in m
    ensures map[k := w] + m == (map[k := v] + m)[k := w]
  {
  }

  lemma Commute(m: map<string, ReferenceValue>, k: string, v: ReferenceValue, n: string, w: ReferenceValue)
    requires k != n
    ensures map[k := v] + m[n := w] == (map[k := v] + m)[n := w]
  {
  }

  // ----- registrations -----

  /** The values whose write took effect, in order: all up to the first failure, and that one too when it
      failed afterwards. */
  function Effective(rvs: seq<ReferenceValue>, io: nat -> Io, from: nat): seq<ReferenceValue>
    requires from <= |rvs|
    decreases |rvs| - from
  {
    if from == |rvs| then []
    else match io(from)
      case Works => [rvs[from]] + Effective(rvs, io, from + 1)
      case FailsBefore => []
      case FailsAfter => [rvs[from]]
  }

  function EffectOf(r: Registration): seq<ReferenceValue> {
    if r.version == MESSAGE_VERSION && r.extracted.Some? then Effective(r.extracted.value, r.io, 0) else []
  }

  predicate Succeeds(r: Registration) {
    r.version == MESSAGE_VERSION && r.extracted.Some? && forall i :: 0 <= i < |r.extracted.value| ==> r.io(i) == Works
  }

  function WriteAll(s: Store, rvs: seq<ReferenceValue>): Store
    decreases |rvs|
  {
    if rvs == [] then s else WriteAll(StoreSet(s, rvs[0].name, rvs[0]), rvs[1..])
  }

  class Service {
    var store: Store

    constructor (s: Store)
      ensures store == s
    {
      store := s;
    }

    /** Write one value: in the list, find the first of that name and replace it, else append. */
    method Set(name: string, rv: ReferenceValue, io: Io) returns (ok: bool)
      modifies this
      ensures ok == io.Works?
      ensures store == if io.FailsBefore? then old(store) else StoreSet(old(store), name, rv)
    {
      if io.FailsBefore? {
        return false;
      }
      match store {
        case JsonFile(rvs) =>
          var i := 0;
          while i < |rvs| && rvs[i].name != name
            invariant 0 <= i <= |rvs| && forall j :: 0 <= j < i ==> rvs[j].name != name
          {
            i := i + 1;
          }
          JsonSetAt(rvs, name, rv, i);
          store := JsonFile(if i < |rvs| then rvs[i := rv] else rvs + [rv]);
        case Database(db) =>
          store := Database(db[name := rv]);
      }
      return io.Works?;
    }

    /** Register a message: write its values one by one, stopping at the first failure. */
    method VerifyAndExtract(r: Registration) returns (ok: bool)
      modifies this
      ensures ok == Succeeds(r)
      ensures store == WriteAll(old(store), EffectOf(r))
    {
      if r.version != MESSAGE_VERSION || r.extracted.None? {
        return false;
      }
      var rvs := r.extracted.value;
      for i := 0 to |rvs|
        invariant forall j :: 0 <= j < i ==> r.io(j) == Works
        invariant WriteAll(old(store), EffectOf(r)) == WriteAll(store, Effective(rvs, r.io, i))
      {
        ghost var rest := Effective(rvs, r.io, i + 1);
        assert ([rvs[i]] + rest)[1..] == rest;
        assert [rvs[i]][1..] == [];
        var written := Set(rvs[i].name, rvs[i], r.io(i));
        if !written {
          return false;
        }
      }
      return true;
    }

    /** All values that can be read, in the list's order or in some order of the database's keys. */
    method GetValues(io: Reading) returns (r: Outcome<seq<ReferenceValue>, ReadError>)
      requires Valid(store)
      ensures r == Err(Unreadable) <==>
              if store.JsonFile? then !io.file else exists k :: k in store.db && io.entry(k).Unparsable?
      ensures !Fails(store, io) ==> r.Ok? && DistinctNames(r.value) && ViewOf(r.value) == Seen(store, io)
    {
      match store {
        case JsonFile(rvs) =>
          if !io.file {
            return Err(Unreadable);
          }
          return Ok(rvs);
        case Database(db) =>
          hide ViewOf;
          var values: seq<ReferenceValue> := [];
          ghost var done: map<string, ReferenceValue> := map[];
          ViewOfEmpty();
          assert map[] + db == db;
          var left := db;
          while left != map[]
            invariant done.Keys !! left.Keys && done + left == db
            invariant forall k :: k in db ==> db[k].name == k
            invariant forall k :: k in done ==> !io.entry(k).Unparsable?
            invariant DistinctNames(values) && ViewOf(values) == FoundIn(done, io)
            decreases |left|
          {
            var k :| k in left;
            MoveKey(done, left, k);
            if io.entry(k).Unparsable? {
              return Err(Unreadable);
            }
            FoundNext(done, io, k, left[k]);
            if io.entry(k).Found? {
              Append(values, left[k]);
              values := values + [left[k]];
            }
            done := done[k := left[k]];
            left := left - {k};
          }
          assert done + left == done;
          return Ok(values);
      }
    }

    /** The values that can be read and that expire no earlier than now, by name. */
    method GetDigests(now: int, io: Reading) returns (r: Outcome<map<string, Json>, ReadError>)
      requires Valid(store)
      ensures r == Err(Unreadable) <==>
              if store.JsonFile? then !io.file else exists k :: k in store.db && io.entry(k).Unparsable?
      ensures !Fails(store, io) ==> r.Ok? && Digests(Seen(store, io), now, r.value)
    {
      var digests: map<string, Json> := map[];
      var values :- GetValues(io);
      for i := 0 to |values|
        invariant DistinctNames(values[..i])
        invariant Digests(ViewOf(values[..i]), now, digests)
      {
        assert values[..i + 1][..i] == values[..i];
        NewName(values, i);
        if !Expired(values[i], now) {
          digests := digests[values[i].name := values[i].value];
        }
      }
      assert values[..|values|] == values;
      return Ok(digests);
    }
  }

  function FoundIn(m: map<string, ReferenceValue>, io: Reading): map<string, ReferenceValue> {
    map k | k in m && io.entry(k).Found? :: m[k]
  }

  lemma FoundNext(m: map<string, ReferenceValue>, io: Reading, k: string, rv: ReferenceValue)
    requires k !in m
    ensures k !in FoundIn(m, io)
    ensures FoundIn(m[k := rv], io) == if io.entry(k).Found? then FoundIn(m, io)[k := rv] else FoundIn(m, io)
  {
  }

  lemma MoveKey(done: map<string, ReferenceValue>, left: map<string, ReferenceValue>, k: string)
    requires k in left && done.Keys !! left.Keys
    ensures k !in done && k in done + left && (done + left)[k] == left[k]
    ensures done[k := left[k]] + (left - {k}) == done + left
    ensures done[k := left[k]].Keys !! (left - {k}).Keys
  {
  }

  lemma Append(values: seq<ReferenceValue>, rv: ReferenceValue)
    requires DistinctNames(values) && rv.name !in ViewOf(values)
    ensures DistinctNames(values + [rv]) && ViewOf(values + [rv]) == ViewOf(values)[rv.name := rv]
  {
    ViewMeans(values);
    assert (values + [rv])[..|values|] == values;
  }

  lemma NewName(values: seq<ReferenceValue>, i: nat)
    requires DistinctNames(values) && i < |values|
    ensures DistinctNames(values[..i + 1]) && values[i].name !in ViewOf(values[..i])
  {
    ViewMeans(values[..i]);
  }

  /** The digests of a store: every value that expires no earlier than now, under its name, and nothing else. */
  ghost predicate Digests(m: map<string, ReferenceValue>, now: int, digests: map<string, Json>) {
    && (forall k :: k in digests <==> k in m && now <= m[k].expiration)
    && (forall k :: k in digests ==> digests[k] == m[k].value)
  }

  // ----- every run -----

  /** The store after a sequence of registrations, as `VerifyAndExtract` leaves it. */
  function Run(s: Store, rs: seq<Registration>): Store {
    if rs == [] then s else WriteAll(Run(s, rs[..|rs| - 1]), EffectOf(rs[|rs| - 1]))
  }

  /** All effective writes of a run, in order. */
  function History(rs: seq<Registration>): seq<ReferenceValue> {
    if rs == [] then [] else History(rs[..|rs| - 1]) + EffectOf(rs[|rs| - 1])
  }

  lemma {:induction false} WriteAllRefines(s: Store, rvs: seq<ReferenceValue>, m: map<string, ReferenceValue>)
    requires Valid(s) && View(s) == m
    ensures Valid(WriteAll(s, rvs)) && View(WriteAll(s, rvs)) == WriteView(m, rvs)
    decreases |rvs|
  {
    hide StoreSet, View, Valid;
    if rvs != [] {
      SetRefines(s, rvs[0]);
      WriteAllRefines(StoreSet(s, rvs[0].name, rvs[0]), rvs[1..], m[rvs[0].name := rvs[0]]);
    }
  }

  function WriteView(m: map<string, ReferenceValue>, rvs: seq<ReferenceValue>): map<string, ReferenceValue>
    decreases |rvs|
  {
    if rvs == [] then m else WriteView(m[rvs[0].name := rvs[0]], rvs[1..])
  }

  /** Writing a list into a map adds the map of the list: the last value of each name wins. */
  lemma {:induction false} WriteViewSnoc(m: map<string, ReferenceValue>, rvs: seq<ReferenceValue>)
    ensures WriteView(m, rvs) == m + ViewOf(rvs)
    decreases |rvs|
  {
    if rvs != [] {
      WriteViewSnoc(m[rvs[0].name := rvs[0]], rvs[1..]);
      ViewOfCons(rvs);
    }
  }

  lemma {:induction false} ViewOfCons(rvs: seq<ReferenceValue>)
    requires rvs != []
    ensures ViewOf(rvs) == map[rvs[0].name := rvs[0]] + ViewOf(rvs[1..])
    decreases |rvs|
  {
    if |rvs| > 1 {
      var init := rvs[..|rvs| - 1];
      ViewOfCons(init);
      assert rvs[1..][..|rvs| - 2] == init[1..];
    }
  }

  lemma {:induction false} ViewOfConcat(a: seq<ReferenceValue>, b: seq<ReferenceValue>)
    ensures ViewOf(a + b) == ViewOf(a) + ViewOf(b)
    decreases |b|
  {
    if b == [] {
      assert a + b == a;
    } else {
      assert (a + b)[..|a + b| - 1] == a + b[..|b| - 1];
      ViewOfConcat(a, b[..|b| - 1]);
    }
  }

  /** Over every sequence of registrations, including ones that fail part way, each backend stays valid and holds
      exactly the last effective write of each name. */
  lemma {:induction false} RunRefines(s: Store, rs: seq<Registration>)
    requires Valid(s)
    ensures Valid(Run(s, rs))
    ensures View(Run(s, rs)) == View(s) + ViewOf(History(rs))
  {
    hide Valid, View, WriteAll, EffectOf;
    if rs == [] {
      assert View(s) + map[] == View(s);
    } else {
      hide ViewOf;
      var init, effect := rs[..|rs| - 1], EffectOf(rs[|rs| - 1]);
      RunRefines(s, init);
      WriteAllRefines(Run(s, init), effect, View(Run(s, init)));
      WriteViewSnoc(View(Run(s, init)), effect);
      ViewOfConcat(History(init), effect);
      MapAssociative(View(s), ViewOf(History(init)), ViewOf(effect));
    }
  }

  lemma MapAssociative(a: map<string, ReferenceValue>, b: map<string, ReferenceValue>, c: map<string, ReferenceValue>)
    ensures (a + b) + c == a + (b + c)
  {
  }

  /** The last value written under a name. */
  predicate IsLast(h: seq<ReferenceValue>, i: int) {
    0 <= i < |h| && forall j :: i < j < |h| ==> h[j].name != h[i].name
  }

  lemma {:induction false} ViewIsLast(h: seq<ReferenceValue>, i: int)
    requires IsLast(h, i)
    ensures h[i].name in ViewOf(h) && ViewOf(h)[h[i].name] == h[i]
  {
    if i < |h| - 1 {
      ViewIsLast(h[..|h| - 1], i);
    }
  }

  /** Both backends, started empty and given the same registrations, hold the same values; what they hand out is, for
      each name that was ever written, the last value written under it, if that does not expire before now. */
  lemma BackendsAgree(rs: seq<Registration>, now: int, digests: map<string, Json>)
    ensures var file, db := Run(JsonFile([]), rs), Run(Database(map[]), rs);
            && Valid(file) && Valid(db) && View(file) == View(db)
            && (Digests(View(file), now, digests) <==>
                  && (forall i :: IsLast(History(rs), i) ==>
                        var rv := History(rs)[i];
                        && (rv.name in digests <==> now <= rv.expiration)
                        && (rv.name in digests ==> digests[rv.name] == rv.value))
                  && (forall k :: k in digests ==> HasName(History(rs), k)))
  {
    var all, h := History(rs), ViewOf(History(rs));
    assert View(JsonFile([])) + h == h && View(Database(map[])) + h == h;
    hide Run, History, ViewOf;
    RunRefines(JsonFile([]), rs);
    RunRefines(Database(map[]), rs);
    forall i | IsLast(all, i)
      ensures all[i].name in h && h[all[i].name] == all[i]
    {
      ViewIsLast(all, i);
    }
    forall k
      ensures k in h <==> HasName(all, k)
      ensures k in h ==> exists i :: IsLast(all, i) && all[i].name == k
    {
      ViewNames(all, k);
    }
  }

  lemma {:induction false} ViewNames(h: seq<ReferenceValue>, k: string)
    ensures k in ViewOf(h) <==> HasName(h, k)
    ensures k in ViewOf(h) ==> exists i :: IsLast(h, i) && h[i].name == k
  {
    if h != [] {
      var n := |h| - 1;
      ViewNames(h[..n], k);
      if h[n].name == k {
        assert IsLast(h, n);
      } else if k in ViewOf(h[..n]) {
        var i :| IsLast(h[..n], i) && h[..n][i].name == k;
        assert IsLast(h, i) && h[i].name == k;
      }
      if HasName(h, k) && h[n].name != k {
        var i :| 0 <= i < |h| && h[i].name == k;
        assert h[..n][i].name == k;
      }
    }
  }

  /** So two reads in which nothing fails give the same digests in both backends. */
  lemma SameDigests(rs: seq<Registration>, now: int, io: Reading, a: map<string, Json>, b: map<string, Json>)
    requires AllRead(Run(JsonFile([]), rs), io) && AllRead(Run(Database(map[]), rs), io)
    requires Digests(Seen(Run(JsonFile([]), rs), io), now, a) && Digests(Seen(Run(Database(map[]), rs), io), now, b)
    ensures a == b
  {
    BackendsAgree(rs, now, a);
    hide Run, Seen, AllRead, View, History;
    SeenIff(Run(JsonFile([]), rs), io);
    SeenIff(Run(Database(map[]), rs), io);
  }

  /** Which writes of a registration take effect: none unless the version is right and the provenance verifies; else
      all up to the first that fails, and that one too if it failed after taking effect. */
  lemma EffectOfIs(r: Registration)
    ensures var e := EffectOf(r);
            if r.version != "0.1.0" || r.extracted.None? then e == []
            else
              var rvs := r.extracted.value;
              && |e| <= |rvs| && e == rvs[..|e|]
              && (forall i :: 0 <= i < |e| - 1 ==> r.io(i).Works?)
              && (forall i :: 0 <= i < |e| ==> !r.io(i).FailsBefore?)
              && (|e| < |rvs| ==> (|e| > 0 && r.io(|e| - 1).FailsAfter?) || r.io(|e|).FailsBefore?)
  {
    if r.version == MESSAGE_VERSION && r.extracted.Some? {
      EffectiveIs(r.extracted.value, r.io, 0);
    }
  }

  lemma {:induction false} EffectiveIs(rvs: seq<ReferenceValue>, io: nat -> Io, from: nat)
    requires from <= |rvs|
    ensures var e := Effective(rvs, io, from); var end := from + |e|;
            && end <= |rvs| && e == rvs[from..end]
            && (forall i :: from <= i < end - 1 ==> io(i).Works?)
            && (forall i :: from <= i < end ==> !io(i).FailsBefore?)
            && (end < |rvs| ==> (end > from && io(end - 1).FailsAfter?) || io(end).FailsBefore?)
    decreases |rvs| - from
  {
    if from < |rvs| && io(from).Works? {
      EffectiveIs(rvs, io, from + 1);
    }
  }
}
