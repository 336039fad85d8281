/** Replaying the event log into measurement registers, through a per-register index of digests. */
module Replay {
  import opened Wrappers
  import opened Bytes
  import opened Tcg
  import opened EventLog
  import EventLogCodec

  datatype ReplayError = UnknownDigestSize(alg: Algorithm) | UnsupportedHash(alg: Algorithm) | Mismatch(index: nat)
  datatype ReferenceMeasurement = ReferenceMeasurement(index: nat, algorithm: Algorithm, reference: seq<Byte>)
  type Register = Outcome<seq<Byte>, ReplayError>

  // ----- the plain reading of a log -----

  /** All digests of one register, in log order. */
  function RegisterDigests<D>(log: seq<Entry<D>>, index: nat): seq<Digest> {
    if log == [] then [] else
    var e := log[|log| - 1];
    RegisterDigests(log[..|log| - 1], index) + (if e.index == index then e.digests else [])
  }

  /** The digests of one algorithm, in order. */
  function OfAlgorithm(ds: seq<Digest>, alg: Algorithm): seq<seq<Byte>> {
    if ds == [] then [] else
    var d := ds[|ds| - 1];
    OfAlgorithm(ds[..|ds| - 1], alg) + (if d.alg == alg then [d.digest] else [])
  }

  function Accumulate(h: Hash, alg: Algorithm, materials: seq<Byte>, digest: seq<Byte>): Register {
    if Hashable(alg) then Ok(h(alg, materials + digest)) else Err(UnsupportedHash(alg))
  }

  /** Extend the all-zero register by the digests, first to last. */
  function Extend(h: Hash, alg: Algorithm, ds: seq<seq<Byte>>): Register {
    if ds == [] then
      var size :- OrErr(DigestSize(alg), UnknownDigestSize(alg));
      Ok(Zeros(size))
    else
      var materials :- Extend(h, alg, ds[..|ds| - 1]);
      Accumulate(h, alg, materials, ds[|ds| - 1])
  }

  /** The value of a register after the whole log: a fold over the log filtered by register and algorithm. */
  function RegisterValue<D>(h: Hash, log: seq<Entry<D>>, index: nat, alg: Algorithm): Register {
    Extend(h, alg, OfAlgorithm(RegisterDigests(log, index), alg))
  }

  // ----- the code as it runs -----

  ghost predicate Occurs<D>(log: seq<Entry<D>>, r: nat) {
    exists i :: 0 <= i < |log| && log[i].index == r
  }

  lemma OccursStep<D>(log: seq<Entry<D>>, i: nat, r: nat)
    requires i < |log|
    ensures Occurs(log[..i + 1], r) <==> Occurs(log[..i], r) || log[i].index == r
  {
    var before, after := log[..i], log[..i + 1];
    assert after[i] == log[i] && forall j :: 0 <= j < i ==> after[j] == before[j];
  }

  /** The index holds, for each register that occurs, exactly that register's digests in log order. */
  ghost predicate Indexes<D>(m: map<nat, seq<Digest>>, log: seq<Entry<D>>) {
    && (forall r {:trigger r in m} :: r in m <==> Occurs(log, r))
    && (forall r :: r in m ==> m[r] == RegisterDigests(log, r))
  }

  method PushAll(digests: seq<Digest>, more: seq<Digest>) returns (all: seq<Digest>)
    ensures all == digests + more
  {
    all := digests;
    for j := 0 to |more|
      invariant all == digests + more[..j]
    {
      all := all + [more[j]];
    }
  }

  method CollectDigestsByIndex<D>(ccel: seq<Entry<D>>) returns (result: map<nat, seq<Digest>>)
    ensures Indexes(result, ccel)
  {
    hide *;
    result := map[];
    IndexesNothing<D>();
    assert ccel[..0] == [];
    for i := 0 to |ccel|
      invariant Indexes(result, ccel[..i])
    {
      var index := ccel[i].index;
      var digests := PushAll(if index in result then result[index] else [], ccel[i].digests);
      IndexStep(result, ccel, i, result[index := digests]);
      result := result[index := digests];
    }
    assert ccel[..|ccel|] == ccel;
  }

  lemma IndexesNothing<D>()
    ensures Indexes<D>(map[], [])
  {
  }

  lemma IndexStep<D>(before: map<nat, seq<Digest>>, log: seq<Entry<D>>, i: nat, after: map<nat, seq<Digest>>)
    requires i < |log| && Indexes(before, log[..i])
    requires var old_ := if log[i].index in before then before[log[i].index] else [];
             after == before[log[i].index := old_ + log[i].digests]
    ensures Indexes(after, log[..i + 1])
  {
    if log[i].index !in before {
      AbsentRegister(log[..i], log[i].index);
    }
    hide Occurs, RegisterDigests;
    forall r: nat { OccursStep(log, i, r); }
    forall r | r in after
      ensures after[r] == RegisterDigests(log[..i + 1], r)
    {
      RegisterStep(log, i, r);
      assert RegisterDigests(log[..i], r) + [] == RegisterDigests(log[..i], r);
    }
  }

  lemma RegisterStep<D>(log: seq<Entry<D>>, i: nat, r: nat)
    requires i < |log|
    ensures RegisterDigests(log[..i + 1], r) == RegisterDigests(log[..i], r) + (if log[i].index == r then log[i].digests else [])
  {
    assert log[..i + 1][..i] == log[..i];
  }

  lemma {:induction false} AbsentRegister<D>(log: seq<Entry<D>>, index: nat)
    requires !Occurs(log, index)
    ensures RegisterDigests(log, index) == []
  {
    if log != [] {
      AbsentRegister(log[..|log| - 1], index);
    }
  }

  lemma {:induction false} ExtendUnsized(h: Hash, alg: Algorithm, ds: seq<seq<Byte>>)
    requires DigestSize(alg).None?
    ensures Extend(h, alg, ds) == Err(UnknownDigestSize(alg))
  {
    if ds != [] {
      ExtendUnsized(h, alg, ds[..|ds| - 1]);
    }
  }

  lemma {:induction false} ExtendUnsupported(h: Hash, alg: Algorithm, ds: seq<seq<Byte>>)
    requires DigestSize(alg).Some? && !Hashable(alg) && ds != []
    ensures Extend(h, alg, ds) == Err(UnsupportedHash(alg))
  {
    if |ds| > 1 {
      ExtendUnsupported(h, alg, ds[..|ds| - 1]);
    }
  }

  lemma {:induction false} OfAlgorithmNonempty(ds: seq<Digest>, alg: Algorithm, k: nat)
    requires k < |ds| && ds[k].alg == alg
    ensures OfAlgorithm(ds, alg) != []
  {
    if k < |ds| - 1 {
      OfAlgorithmNonempty(ds[..|ds| - 1], alg, k);
    }
  }

  lemma ExtendStep(h: Hash, alg: Algorithm, ds: seq<Digest>, k: nat)
    requires k < |ds| && Extend(h, alg, OfAlgorithm(ds[..k], alg)).Ok?
    ensures var materials := Extend(h, alg, OfAlgorithm(ds[..k], alg)).value;
            Extend(h, alg, OfAlgorithm(ds[..k + 1], alg)) ==
            if ds[k].alg == alg then Accumulate(h, alg, materials, ds[k].digest) else Ok(materials)
  {
    assert ds[..k + 1][..k] == ds[..k];
    var before := OfAlgorithm(ds[..k], alg);
    if ds[k].alg == alg {
      assert (before + [ds[k].digest])[..|before|] == before;
    } else {
      assert before + [] == before;
    }
  }

  /** Reading the register through any index of the log gives the fold over the log itself. */
  method ReplayIndex<D>(h: Hash, digestMap: map<nat, seq<Digest>>, index: nat, alg: Algorithm, ghost log: seq<Entry<D>>)
    returns (r: Register)
    requires Indexes(digestMap, log)
    ensures r == RegisterValue(h, log, index, alg)
  {
    ghost var all := OfAlgorithm(RegisterDigests(log, index), alg);
    if DigestSize(alg).None? {
      ExtendUnsized(h, alg, all);
      return Err(UnknownDigestSize(alg));
    }
    var materials: seq<Byte> := Zeros(DigestSize(alg).value);
    assert Extend(h, alg, OfAlgorithm([], alg)) == Ok(materials);
    if index !in digestMap {
      AbsentRegister(log, index);
      return Ok(materials);
    }
    var digests := digestMap[index];
    hide Extend, OfAlgorithm, Indexes;
    for k := 0 to |digests|
      invariant Extend(h, alg, OfAlgorithm(digests[..k], alg)) == Ok(materials)
    {
      ExtendStep(h, alg, digests, k);
      if digests[k].alg == alg {
        if !Hashable(alg) {
          OfAlgorithmNonempty(digests, alg, k);
          ExtendUnsupported(h, alg, all);
          return Err(UnsupportedHash(alg));
        }
        materials := h(alg, materials + digests[k].digest);
      }
    }
    assert digests[..|digests|] == digests;
    return Ok(materials);
  }

  /** Check the references in order, stopping at the first that the log does not reproduce. */
  function Verdict<D>(h: Hash, log: seq<Entry<D>>, refs: seq<ReferenceMeasurement>): Outcome<(), ReplayError> {
    if refs == [] then Ok(()) else
    var value :- RegisterValue(h, log, refs[0].index, refs[0].algorithm);
    if value != refs[0].reference then Err(Mismatch(refs[0].index)) else Verdict(h, log, refs[1..])
  }

  method ReplayAndMatch<D>(h: Hash, log: seq<Entry<D>>, refs: seq<ReferenceMeasurement>) returns (r: Outcome<(), ReplayError>)
    ensures r == Verdict(h, log, refs)
  {
    var digestMap := CollectDigestsByIndex(log);
    for k := 0 to |refs|
      invariant Verdict(h, log, refs) == Verdict(h, log, refs[k..])
    {
      assert refs[k..][1..] == refs[k + 1..];
      var value :- ReplayIndex(h, digestMap, refs[k].index, refs[k].algorithm, log);
      if value != refs[k].reference {
        return Err(Mismatch(refs[k].index));
      }
    }
    return Ok(());
  }

  /** The log passes exactly when it reproduces every reference. */
  lemma {:induction false} VerdictIff<D>(h: Hash, log: seq<Entry<D>>, refs: seq<ReferenceMeasurement>)
    ensures Verdict(h, log, refs).Ok? <==>
            forall m :: m in refs ==> RegisterValue(h, log, m.index, m.algorithm) == Ok(m.reference)
  {
    hide RegisterValue;
    if refs != [] {
      VerdictIff(h, log, refs[1..]);
      assert refs == [refs[0]] + refs[1..];
    }
  }

  /** Otherwise the first reference that is not reproduced decides. */
  lemma {:induction false} VerdictFirst<D>(h: Hash, log: seq<Entry<D>>, refs: seq<ReferenceMeasurement>, k: nat)
    requires k < |refs| && RegisterValue(h, log, refs[k].index, refs[k].algorithm) != Ok(refs[k].reference)
    requires forall i :: 0 <= i < k ==> RegisterValue(h, log, refs[i].index, refs[i].algorithm) == Ok(refs[i].reference)
    ensures var value := RegisterValue(h, log, refs[k].index, refs[k].algorithm);
            Verdict(h, log, refs) == if value.Ok? then Err(Mismatch(refs[k].index)) else value.PropagateFailure()
  {
    hide RegisterValue;
    if k > 0 {
      VerdictFirst(h, log, refs[1..], k - 1);
    }
  }

  // ----- what the registers hold -----

  /** The digests of a register are those of its entries one after the other. */
  lemma {:induction false} RegisterDigestsSplit<D>(a: seq<Entry<D>>, b: seq<Entry<D>>, index: nat)
    ensures RegisterDigests(a + b, index) == RegisterDigests(a, index) + RegisterDigests(b, index)
  {
    if b == [] {
      assert a + b == a;
    } else {
      assert (a + b)[..|a + b| - 1] == a + b[..|b| - 1];
      RegisterDigestsSplit(a, b[..|b| - 1], index);
    }
  }

  lemma RegisterDigestsOne<D>(e: Entry<D>, index: nat)
    ensures RegisterDigests([e], index) == if e.index == index then e.digests else []
  {
    assert [e][..0] == [];
  }

  /** The bytes of a register before anything is extended. */
  function StartSize(alg: Algorithm): nat
    requires alg in {Sha256, Sha384, Sha512, Sm3}
  {
    match alg
    case Sha384 => 48
    case Sha512 => 64
    case _ => 32
  }

  lemma {:induction false} ExtendValues(h: Hash, alg: Algorithm, ds: seq<seq<Byte>>) returns (v: seq<seq<Byte>>)
    requires alg in {Sha256, Sha384, Sha512, Sm3}
    ensures |v| == |ds| + 1
    ensures |v[0]| == StartSize(alg) && forall i :: 0 <= i < |v[0]| ==> v[0][i] == 0
    ensures forall k :: 0 <= k < |ds| ==> v[k + 1] == h(alg, v[k] + ds[k])
    ensures Extend(h, alg, ds) == Ok(v[|ds|])
  {
    if ds == [] {
      v := [Zeros(StartSize(alg))];
    } else {
      var n := |ds| - 1;
      v := ExtendValues(h, alg, ds[..n]);
      v := v + [h(alg, v[n] + ds[n])];
    }
  }

  /** A register starts with as many zero bytes as its algorithm's digests have, and each digest of that algorithm
      is hashed behind the value before it. */
  lemma RegisterValues<D>(h: Hash, log: seq<Entry<D>>, index: nat, alg: Algorithm) returns (v: seq<seq<Byte>>)
    requires alg in {Sha256, Sha384, Sha512, Sm3}
    ensures var ds := OfAlgorithm(RegisterDigests(log, index), alg);
            && |v| == |ds| + 1
            && |v[0]| == (match alg case Sha384 => 48 case Sha512 => 64 case _ => 32)
            && (forall i :: 0 <= i < |v[0]| ==> v[0][i] == 0)
            && (forall k :: 0 <= k < |ds| ==> v[k + 1] == h(alg, v[k] + ds[k]))
            && RegisterValue(h, log, index, alg) == Ok(v[|ds|])
  {
    hide Extend, OfAlgorithm, RegisterDigests;
    v := ExtendValues(h, alg, OfAlgorithm(RegisterDigests(log, index), alg));
  }

  /** The other algorithms: RSA and TDES are no digests, and SHA-1 registers can be read only while nothing was
      extended into them. */
  lemma RegisterOthers<D>(h: Hash, log: seq<Entry<D>>, index: nat, alg: Algorithm)
    requires alg in {Rsa, Tdes, Sha1}
    ensures var ds, value := OfAlgorithm(RegisterDigests(log, index), alg), RegisterValue(h, log, index, alg);
            && (alg != Sha1 ==> value == Err(UnknownDigestSize(alg)))
            && (alg == Sha1 && ds != [] ==> value == Err(UnsupportedHash(Sha1)))
            && (alg == Sha1 && ds == [] ==> value.Ok? && |value.value| == 20 && forall i :: 0 <= i < 20 ==> value.value[i] == 0)
  {
    var ds := OfAlgorithm(RegisterDigests(log, index), alg);
    if alg != Sha1 {
      ExtendUnsized(h, alg, ds);
    } else if ds != [] {
      ExtendUnsupported(h, alg, ds);
    }
  }

  // ----- only the order within a register matters -----

  /** The entries of one register, in log order. */
  function OfRegister<D>(log: seq<Entry<D>>, index: nat): seq<Entry<D>> {
    if log == [] then [] else
    var e := log[|log| - 1];
    OfRegister(log[..|log| - 1], index) + (if e.index == index then [e] else [])
  }

  lemma {:induction false} DigestsOfRegister<D>(log: seq<Entry<D>>, index: nat)
    ensures RegisterDigests(OfRegister(log, index), index) == RegisterDigests(log, index)
  {
    if log != [] {
      var init := log[..|log| - 1];
      DigestsOfRegister(init, index);
      if log[|log| - 1].index == index {
        assert OfRegister(log, index)[..|OfRegister(log, index)| - 1] == OfRegister(init, index);
      } else {
        assert OfRegister(log, index) == OfRegister(init, index);
      }
    }
  }

  /** Interleaving the registers differently changes no verdict. */
  lemma {:induction false} ReorderingKeepsVerdict<D(!new)>(h: Hash, a: seq<Entry<D>>, b: seq<Entry<D>>, refs: seq<ReferenceMeasurement>)
    requires forall r: nat :: OfRegister(a, r) == OfRegister(b, r)
    ensures Verdict(h, a, refs) == Verdict(h, b, refs)
    decreases |refs|
  {
    if refs != [] {
      DigestsOfRegister(a, refs[0].index);
      DigestsOfRegister(b, refs[0].index);
      ReorderingKeepsVerdict(h, a, b, refs[1..]);
    }
  }

  // ----- replay binds the log -----

  /** Every digest algorithm gives results of its own size; nothing else is supposed of the hash. */
  ghost predicate FixedLength(h: Hash) {
    forall a, m :: Hashable(a) ==> |h(a, m)| == DigestSize(a).value
  }

  /** A weakness exhibited in the hash function. */
  datatype Break = Collision(a: seq<Byte>, b: seq<Byte>) | ZeroPreimage(p: seq<Byte>)

  predicate Breaks(h: Hash, alg: Algorithm, w: Break)
    requires Hashable(alg)
  {
    match w
    case Collision(a, b) => a != b && h(alg, a) == h(alg, b)
    case ZeroPreimage(p) => h(alg, p) == Zeros(DigestSize(alg).value)
  }

  lemma {:induction false} ExtendSupported(h: Hash, alg: Algorithm, ds: seq<seq<Byte>>)
    requires Hashable(alg) && FixedLength(h)
    ensures Extend(h, alg, ds).Ok? && |Extend(h, alg, ds).value| == DigestSize(alg).value
  {
    if ds != [] {
      ExtendSupported(h, alg, ds[..|ds| - 1]);
    }
  }

  /** What is hashed to reach the final value of a non-empty digest list. */
  function LastInput(h: Hash, alg: Algorithm, ds: seq<seq<Byte>>): seq<Byte>
    requires ds != [] && Extend(h, alg, ds[..|ds| - 1]).Ok?
  {
    Extend(h, alg, ds[..|ds| - 1]).value + ds[|ds| - 1]
  }

  /** From two different digest lists that replay to the same value, compute a collision of the hash or a
      preimage of the all-zero start value. */
  function FindBreak(h: Hash, alg: Algorithm, xs: seq<seq<Byte>>, ys: seq<seq<Byte>>): (w: Break)
    requires Hashable(alg) && FixedLength(h)
    requires xs != ys && Extend(h, alg, xs) == Extend(h, alg, ys)
    ensures Breaks(h, alg, w)
    decreases |xs|
  {
    if xs == [] then
      ExtendSupported(h, alg, ys[..|ys| - 1]);
      ZeroPreimage(LastInput(h, alg, ys))
    else if ys == [] then
      ExtendSupported(h, alg, xs[..|xs| - 1]);
      ZeroPreimage(LastInput(h, alg, xs))
    else
      ExtendSupported(h, alg, xs[..|xs| - 1]);
      ExtendSupported(h, alg, ys[..|ys| - 1]);
      var a, b := LastInput(h, alg, xs), LastInput(h, alg, ys);
      if a != b then Collision(a, b) else
      SameInputs(h, alg, xs, ys);
      FindBreak(h, alg, xs[..|xs| - 1], ys[..|ys| - 1])
  }

  lemma SameInputs(h: Hash, alg: Algorithm, xs: seq<seq<Byte>>, ys: seq<seq<Byte>>)
    requires Hashable(alg) && FixedLength(h) && xs != [] && ys != [] && xs != ys
    requires Extend(h, alg, xs[..|xs| - 1]).Ok? && Extend(h, alg, ys[..|ys| - 1]).Ok?
    requires LastInput(h, alg, xs) == LastInput(h, alg, ys)
    ensures xs[..|xs| - 1] != ys[..|ys| - 1]
    ensures Extend(h, alg, xs[..|xs| - 1]) == Extend(h, alg, ys[..|ys| - 1])
  {
    var p, q := Extend(h, alg, xs[..|xs| - 1]), Extend(h, alg, ys[..|ys| - 1]);
    ExtendSupported(h, alg, xs[..|xs| - 1]);
    ExtendSupported(h, alg, ys[..|ys| - 1]);
    hide Extend, FixedLength;
    var x, y := xs[|xs| - 1], ys[|ys| - 1];
    assert p.value == (p.value + x)[..|p.value|] == (q.value + y)[..|q.value|] == q.value;
    assert x == (p.value + x)[|p.value|..] == (q.value + y)[|q.value|..] == y;
    assert xs == xs[..|xs| - 1] + [x] && ys == ys[..|ys| - 1] + [y];
  }

  // ----- tamper evidence for parsed logs -----

  /** The event carries exactly one digest of the algorithm, and the parser found all its digests to match. */
  ghost predicate Measured<D>(h: Hash, alg: Algorithm, e: Entry<D>) {
    |OfAlgorithm(e.digests, alg)| == 1 && CompareDigestsSpec(h, e.event, e.digests) == Ok(true)
  }

  /** Event data measured into one register, in log order. */
  function Events<D>(log: seq<Entry<D>>, index: nat): seq<seq<Byte>> {
    if log == [] then [] else
    var e := log[|log| - 1];
    Events(log[..|log| - 1], index) + (if e.index == index then [e.event] else [])
  }

  function Hashes(h: Hash, alg: Algorithm, events: seq<seq<Byte>>): (ds: seq<seq<Byte>>)
    ensures |ds| == |events|
    ensures forall i :: 0 <= i < |events| ==> ds[i] == h(alg, events[i])
  {
    if events == [] then [] else Hashes(h, alg, events[..|events| - 1]) + [h(alg, events[|events| - 1])]
  }

  lemma {:induction false} OfAlgorithmIn(ds: seq<Digest>, alg: Algorithm, x: seq<Byte>)
    requires x in OfAlgorithm(ds, alg)
    ensures Digest(alg, x) in ds
  {
    if ds[|ds| - 1] != Digest(alg, x) {
      OfAlgorithmIn(ds[..|ds| - 1], alg, x);
    }
  }

  lemma MeasuredDigest<D>(h: Hash, alg: Algorithm, e: Entry<D>)
    requires Measured(h, alg, e)
    ensures OfAlgorithm(e.digests, alg) == [h(alg, e.event)]
  {
    var x := OfAlgorithm(e.digests, alg)[0];
    OfAlgorithmIn(e.digests, alg, x);
    EventLogCodec.CompareDigestsIff(h, e.event, e.digests);
  }

  /** The digests of an algorithm are those among the digests, in their order. */
  lemma {:induction false} OfAlgorithmConcat(a: seq<Digest>, b: seq<Digest>, alg: Algorithm)
    ensures OfAlgorithm(a + b, alg) == OfAlgorithm(a, alg) + OfAlgorithm(b, alg)
    ensures |a| == 1 ==> OfAlgorithm(a, alg) == if a[0].alg == alg then [a[0].digest] else []
  {
    if b == [] {
      assert a + b == a;
    } else {
      assert (a + b)[..|a + b| - 1] == a + b[..|b| - 1];
      OfAlgorithmConcat(a, b[..|b| - 1], alg);
    }
  }

  /** A measured register is extended by the hashes of its events. */
  lemma {:induction false} RegisterExtendsByEvents<D>(h: Hash, alg: Algorithm, log: seq<Entry<D>>, index: nat)
    requires forall e :: e in log && e.index == index ==> Measured(h, alg, e)
    ensures OfAlgorithm(RegisterDigests(log, index), alg) == Hashes(h, alg, Events(log, index))
  {
    if log != [] {
      var init, e := log[..|log| - 1], log[|log| - 1];
      RegisterExtendsByEvents(h, alg, init, index);
      if e.index == index {
        OfAlgorithmConcat(RegisterDigests(init, index), e.digests, alg);
        MeasuredDigest(h, alg, e);
        assert Events(log, index)[..|Events(log, index)| - 1] == Events(init, index);
      } else {
        assert RegisterDigests(log, index) == RegisterDigests(init, index);
        assert Events(log, index) == Events(init, index);
      }
    }
  }

  lemma {:induction false} HashesCollide(h: Hash, alg: Algorithm, xs: seq<seq<Byte>>, ys: seq<seq<Byte>>) returns (w: Break)
    requires Hashable(alg) && xs != ys && Hashes(h, alg, xs) == Hashes(h, alg, ys)
    ensures Breaks(h, alg, w)
  {
    hide Hashes;
    assert |xs| == |Hashes(h, alg, xs)| == |Hashes(h, alg, ys)| == |ys|;
    var i :| 0 <= i < |xs| && xs[i] != ys[i];
    assert h(alg, xs[i]) == Hashes(h, alg, xs)[i] == Hashes(h, alg, ys)[i] == h(alg, ys[i]);
    w := Collision(xs[i], ys[i]);
  }

  /** Tamper evidence: two logs that reproduce one register value, each of whose events of that register is
      measured, hold the same events there in the same order, or they yield a weakness of the hash. */
  lemma TamperEvidence<D>(h: Hash, alg: Algorithm, a: seq<Entry<D>>, b: seq<Entry<D>>, index: nat) returns (w: Break)
    requires Hashable(alg) && FixedLength(h)
    requires forall e :: e in a && e.index == index ==> Measured(h, alg, e)
    requires forall e :: e in b && e.index == index ==> Measured(h, alg, e)
    requires RegisterValue(h, a, index, alg) == RegisterValue(h, b, index, alg)
    requires Events(a, index) != Events(b, index)
    ensures Breaks(h, alg, w)
  {
    RegisterExtendsByEvents(h, alg, a, index);
    RegisterExtendsByEvents(h, alg, b, index);
    var xs, ys := Hashes(h, alg, Events(a, index)), Hashes(h, alg, Events(b, index));
    if xs == ys {
      w := HashesCollide(h, alg, Events(a, index), Events(b, index));
    } else {
      w := FindBreak(h, alg, xs, ys);
    }
  }

  /** The same from bytes, for every log that parses: two inputs that pass the same references hold, in every
      register referenced, the same digests of that algorithm in the same order, or they yield a weakness of the
      hash. */
  lemma ParsedLogsTamperEvidence<D(!new)>(env: Env<D>, data: seq<Byte>, a: seq<Entry<D>>, data': seq<Byte>, b: seq<Entry<D>>,
                                          refs: seq<ReferenceMeasurement>, m: ReferenceMeasurement) returns (w: Break)
    requires FixedLength(env.hash) && m in refs && Hashable(m.algorithm)
    requires LogSpec(env, data) == Ok(a) && LogSpec(env, data') == Ok(b)
    requires Verdict(env.hash, a, refs).Ok? && Verdict(env.hash, b, refs).Ok?
    requires OfAlgorithm(RegisterDigests(a, m.index), m.algorithm) != OfAlgorithm(RegisterDigests(b, m.index), m.algorithm)
    ensures Breaks(env.hash, m.algorithm, w)
  {
    VerdictIff(env.hash, a, refs);
    VerdictIff(env.hash, b, refs);
    hide LogSpec, Verdict, Extend, OfAlgorithm, RegisterDigests;
    w := FindBreak(env.hash, m.algorithm, OfAlgorithm(RegisterDigests(a, m.index), m.algorithm),
                   OfAlgorithm(RegisterDigests(b, m.index), m.algorithm));
  }

  /** Where the parser also found every entry of the register to match its one digest of the algorithm, the same
      holds of the events themselves. */
  lemma ParsedEventsTamperEvidence<D(!new)>(env: Env<D>, data: seq<Byte>, a: seq<Entry<D>>, data': seq<Byte>, b: seq<Entry<D>>,
                                            refs: seq<ReferenceMeasurement>, m: ReferenceMeasurement) returns (w: Break)
    requires FixedLength(env.hash) && m in refs && Hashable(m.algorithm)
    requires LogSpec(env, data) == Ok(a) && LogSpec(env, data') == Ok(b)
    requires Verdict(env.hash, a, refs).Ok? && Verdict(env.hash, b, refs).Ok?
    requires forall e :: (e in a || e in b) && e.index == m.index ==>
      e.digestMatchesEvent && |OfAlgorithm(e.digests, m.algorithm)| == 1
    requires Events(a, m.index) != Events(b, m.index)
    ensures Breaks(env.hash, m.algorithm, w)
  {
    if OfAlgorithm(RegisterDigests(a, m.index), m.algorithm) == OfAlgorithm(RegisterDigests(b, m.index), m.algorithm) {
      ParsedAreCompared(env, data, a);
      ParsedAreCompared(env, data', b);
      RegisterExtendsByEvents(env.hash, m.algorithm, a, m.index);
      RegisterExtendsByEvents(env.hash, m.algorithm, b, m.index);
      w := HashesCollide(env.hash, m.algorithm, Events(a, m.index), Events(b, m.index));
    } else {
      w := ParsedLogsTamperEvidence(env, data, a, data', b, refs, m);
    }
  }

  lemma ParsedAreCompared<D(!new)>(env: Env<D>, data: seq<Byte>, log: seq<Entry<D>>)
    requires LogSpec(env, data) == Ok(log)
    ensures forall e :: e in log ==> CompareDigestsSpec(env.hash, e.event, e.digests) == Ok(e.digestMatchesEvent)
  {
    hide *;
    var h, tail := EventLogCodec.ParsedRecordsTile(env, data, log);
    ReportedAreCompared(env, EventLogCodec.HeaderTable(h), log);
  }

  lemma ReportedAreCompared<D(!new)>(env: Env<D>, table: Table, log: seq<Entry<D>>)
    requires EventLogCodec.AllReported(env, table, log)
    ensures forall e :: e in log ==> CompareDigestsSpec(env.hash, e.event, e.digests) == Ok(e.digestMatchesEvent)
  {
    hide CompareDigestsSpec, EventLogCodec.WellFormed, EventLogCodec.Compared;
    forall e | e in log
      ensures CompareDigestsSpec(env.hash, e.event, e.digests) == Ok(e.digestMatchesEvent)
    {
      EventLogCodec.ComparedIff(env.hash, e.event, e.digests, e.digestMatchesEvent);
    }
  }
}
