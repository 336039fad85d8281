/** Printing the event log back: the parser accepts exactly the encodings of well-formed logs, and the
    records it reports tile its input. */
module EventLogCodec {
  import opened Wrappers
  import opened Bytes
  import opened Tcg
  import opened EventLog

  /** The first record: a specification-id event with its table, or any other event, whose body the
      parser does not skip. */
  datatype Header =
    | SpecId(pcr: nat, digest: seq<Byte>, spec: seq<Byte>, sizes: seq<(Algorithm, nat)>, vendor: seq<Byte>)
    | Other(pcr: nat, eventType: EventType, digest: seq<Byte>, size: nat)

  // ----- encoders -----

  function EncodeDigests(ds: seq<Digest>): seq<Byte> {
    if ds == [] then [] else ToLE(AlgorithmCode(ds[0].alg), 2) + (ds[0].digest + EncodeDigests(ds[1..]))
  }

  function EncodeRecord(x: Record): seq<Byte> {
    ToLE(x.index, 4) + (ToLE(EventTypeCode(x.eventType), 4) + (ToLE(|x.digests|, 4) +
      (EncodeDigests(x.digests) + (ToLE(|x.event|, 4) + x.event))))
  }

  function EncodeRecords(xs: seq<Record>): seq<Byte> {
    if xs == [] then [] else EncodeRecord(xs[0]) + EncodeRecords(xs[1..])
  }

  function EncodeSizes(sizes: seq<(Algorithm, nat)>): (s: seq<Byte>)
    ensures |s| == 4 * |sizes|
  {
    if sizes == [] then []
    else ToLE(AlgorithmCode(sizes[0].0), 2) + (ToLE(sizes[0].1, 2) + EncodeSizes(sizes[1..]))
  }

  function EncodeSpecId(h: Header): (s: seq<Byte>)
    requires h.SpecId?
  {
    h.spec + (ToLE(|h.sizes|, 4) + (EncodeSizes(h.sizes) + (ToLE(|h.vendor|, 1) + h.vendor)))
  }

  /** Register, event type, a SHA-1 digest and the size of the event. */
  function EncodeFixed(pcr: nat, t: EventType, digest: seq<Byte>, size: nat): seq<Byte> {
    ToLE(pcr, 4) + (ToLE(EventTypeCode(t), 4) + (digest + ToLE(size, 4)))
  }

  function EncodeHeader(h: Header): seq<Byte> {
    match h
    case SpecId(pcr, digest, _, _, _) => EncodeFixed(pcr, NoAction, digest, |EncodeSpecId(h)|) + EncodeSpecId(h)
    case Other(pcr, eventType, digest, size) => EncodeFixed(pcr, eventType, digest, size)
  }

  /** Later rows of the table replace earlier ones of the same algorithm. */
  function TableOf(sizes: seq<(Algorithm, nat)>, base: Table): Table {
    if sizes == [] then base else TableOf(sizes[1..], base[sizes[0].0 := sizes[0].1])
  }

  function HeaderTable(h: Header): Table {
    if h.SpecId? then TableOf(h.sizes, map[]) else map[]
  }

  // ----- well-formedness -----

  predicate FitsU16(sizes: seq<(Algorithm, nat)>) {
    forall i :: 0 <= i < |sizes| ==> sizes[i].1 < 0x1_0000
  }

  predicate WellFormedHeader(h: Header) {
    && h.pcr < 0x1_0000_0000
    && |h.digest| == 20
    && match h
       case SpecId(_, _, spec, sizes, vendor) =>
         && |spec| == 24 && |vendor| < 256 && FitsU16(sizes) && |sizes| < 0x1_0000_0000
         && |EncodeSpecId(h)| < 0x1_0000_0000
       case Other(_, eventType, _, size) => eventType != NoAction && size < 0x1_0000_0000
  }

  predicate FitsTable(ds: seq<Digest>, table: Table) {
    forall i :: 0 <= i < |ds| ==> ds[i].alg in table && |ds[i].digest| == table[ds[i].alg]
  }

  predicate WellFormed(x: Record, table: Table) {
    && x.index < 0x1_0000_0000 && |x.digests| < 0x1_0000_0000 && |x.event| < 0x1_0000_0000
    && FitsTable(x.digests, table)
  }

  /** The first eight bytes of this record are those of a stop flag. */
  predicate ReadsAsStop(x: Record) {
    x.index == 0 && x.eventType == PrebootCert
  }

  predicate StopFlagAt(data: seq<Byte>, at: nat) {
    HasAt(data, at, ToLE(STOP_ONES, 8)) || HasAt(data, at, ToLE(0, 8))
  }

  /** The log ends here: the data does, or a stop flag stands here and anything may follow it. */
  predicate EndsAt(data: seq<Byte>, at: nat) {
    at == |data| || StopFlagAt(data, at)
  }

  function RecordOf<D>(e: Entry<D>): Record {
    Record(e.index, e.eventType, e.digests, e.event)
  }

  function RecordsOf<D>(log: seq<Entry<D>>): (xs: seq<Record>)
    ensures |xs| == |log|
    ensures forall i :: 0 <= i < |log| ==> xs[i] == RecordOf(log[i])
  {
    if log == [] then [] else [RecordOf(log[0])] + RecordsOf(log[1..])
  }

  predicate Matches(h: Hash, event: seq<Byte>, d: Digest) {
    Hashable(d.alg) && h(d.alg, event) == d.digest
  }

  /** The comparison says yes exactly when all digests match the event. */
  lemma {:induction false} CompareDigestsIff(h: Hash, event: seq<Byte>, ds: seq<Digest>)
    ensures CompareDigestsSpec(h, event, ds) == Ok(true) <==> forall d :: d in ds ==> Matches(h, event, d)
  {
    if ds != [] {
      CompareDigestsIff(h, event, ds[1..]);
      assert ds[0] in ds && forall d :: d in ds[1..] ==> d in ds;
      assert forall d :: d in ds ==> d == ds[0] || d in ds[1..];
    }
  }

  /** Otherwise the first digest that does not match decides: no if it could be computed, else an error. */
  lemma {:induction false} CompareDigestsFirst(h: Hash, event: seq<Byte>, ds: seq<Digest>, k: nat)
    requires k < |ds| && !Matches(h, event, ds[k]) && forall i :: 0 <= i < k ==> Matches(h, event, ds[i])
    ensures CompareDigestsSpec(h, event, ds) == if Hashable(ds[k].alg) then Ok(false) else Err(DigestNotSupported(ds[k].alg))
  {
    if k > 0 {
      CompareDigestsFirst(h, event, ds[1..], k - 1);
    }
  }

  /** The outcome of comparing an event with its digests: they all match, or the first that does not is of an
      algorithm that could be computed. */
  ghost predicate Compared(h: Hash, event: seq<Byte>, ds: seq<Digest>, matches: bool) {
    if matches then forall d :: d in ds ==> Matches(h, event, d)
    else exists k :: FirstMismatch(h, event, ds, k) && Hashable(ds[k].alg)
  }

  predicate FirstMismatch(h: Hash, event: seq<Byte>, ds: seq<Digest>, k: int) {
    0 <= k < |ds| && !Matches(h, event, ds[k]) && forall i :: 0 <= i < k ==> Matches(h, event, ds[i])
  }

  lemma {:induction false} HasFirstMismatch(h: Hash, event: seq<Byte>, ds: seq<Digest>, j: nat) returns (k: nat)
    requires j < |ds| && !Matches(h, event, ds[j])
    ensures FirstMismatch(h, event, ds, k)
  {
    if !Matches(h, event, ds[0]) {
      k := 0;
    } else {
      k := HasFirstMismatch(h, event, ds[1..], j - 1);
      k := k + 1;
    }
  }

  lemma ComparedIff(h: Hash, event: seq<Byte>, ds: seq<Digest>, matches: bool)
    ensures CompareDigestsSpec(h, event, ds) == Ok(matches) <==> Compared(h, event, ds, matches)
  {
    CompareDigestsIff(h, event, ds);
    hide CompareDigestsSpec, Matches;
    if j :| 0 <= j < |ds| && !Matches(h, event, ds[j]) {
      var k := HasFirstMismatch(h, event, ds, j);
      CompareDigestsFirst(h, event, ds, k);
      assert ds[k] in ds;
    }
  }

  /** What is reported for a record: the record itself, its event parsed by type, and the comparison of its digests
      with its event. */
  ghost predicate Reports<D(!new)>(env: Env<D>, x: Record, e: Entry<D>) {
    && e.index == x.index && e.eventType == x.eventType && e.digests == x.digests && e.event == x.event
    && env.parseEvent(x.eventType, x.event) == Ok(e.details)
    && Compared(env.hash, x.event, x.digests, e.digestMatchesEvent)
  }

  lemma ReportsIff<D(!new)>(env: Env<D>, x: Record, e: Entry<D>)
    ensures Elaborate(env, x) == Ok(e) <==> Reports(env, x, e)
  {
    hide CompareDigestsSpec, Compared;
    ComparedIff(env.hash, x.event, x.digests, e.digestMatchesEvent);
    var got := CompareDigestsSpec(env.hash, x.event, x.digests);
    if got.Ok? {
      ComparedIff(env.hash, x.event, x.digests, got.value);
    }
  }

  /** `e` is what is reported for the well-formed record it stands for. */
  ghost predicate Reported<D(!new)>(env: Env<D>, table: Table, e: Entry<D>) {
    WellFormed(RecordOf(e), table) && !ReadsAsStop(RecordOf(e)) && Reports(env, RecordOf(e), e)
  }

  // ----- reading eight bytes as one number or as two -----

  /** Bytes are read as a number with the lowest byte first. */
  lemma {:induction false} FromLEConcat(a: seq<Byte>, b: seq<Byte>)
    ensures FromLE(a + b) == FromLE(a) + Pow256(|a|) * FromLE(b)
  {
    if a == [] {
      assert a + b == b;
    } else {
      FromLEConcat(a[1..], b);
      assert (a + b)[1..] == a[1..] + b;
      assert 256 * (Pow256(|a| - 1) * FromLE(b)) == Pow256(|a|) * FromLE(b);
    }
  }

  lemma StopFlagHalves(data: seq<Byte>, at: nat)
    requires at + 8 <= |data|
    ensures var flag := FromLE(data[at..at + 8]);
            var lo, hi := FromLE(data[at..at + 4]), FromLE(data[at + 4..at + 8]);
            && (flag == 0 <==> lo == 0 && hi == 0)
            && (flag == STOP_ONES <==> lo == 0xffff_ffff && hi == 0xffff_ffff)
  {
    Widths();
    var a, b := data[at..at + 4], data[at + 4..at + 8];
    assert data[at..at + 8] == a + b;
    FromLEConcat(a, b);
    EncodeDecodeLE(a);
    EncodeDecodeLE(b);
  }

  // ----- one record -----

  /** The digest list read is the one whose encoding stands there. */
  lemma {:induction false} DigestsIff(data: seq<Byte>, at: nat, n: nat, table: Table, ds: seq<Digest>, next: nat)
    requires at <= |data|
    ensures DigestsSpec(data, at, n, table) == Ok((ds, next)) <==>
            && |ds| == n && FitsTable(ds, table)
            && HasAt(data, at, EncodeDigests(ds)) && next == at + |EncodeDigests(ds)|
    decreases n
  {
    hide FromLE, ToLE, ReadLE, DigestAt;
    if n > 0 && ds != [] {
      hide *;
      DigestsStep(data, at, n, table, ds, next);
      EncodedStep(data, at, ds);
      var after := at + 2 + |ds[0].digest|;
      if after <= |data| {
        DigestsIff(data, after, n - 1, table, ds[1..], next);
      }
      FitsTableStep(ds, table);
      return;
    }
  }

  lemma FitsTableStep(ds: seq<Digest>, table: Table)
    requires ds != []
    ensures FitsTable(ds, table) <==> FitsTable([ds[0]], table) && FitsTable(ds[1..], table)
  {
    assert ds == [ds[0]] + ds[1..];
  }

  lemma EncodedStep(data: seq<Byte>, at: nat, ds: seq<Digest>)
    requires ds != []
    ensures HasAt(data, at, EncodeDigests(ds)) <==>
            && ReadLE(data, at, 2) == Some(AlgorithmCode(ds[0].alg))
            && HasAt(data, at + 2, ds[0].digest)
            && HasAt(data, at + 2 + |ds[0].digest|, EncodeDigests(ds[1..]))
    ensures |EncodeDigests(ds)| == 2 + |ds[0].digest| + |EncodeDigests(ds[1..])|
  {
    hide FromLE, ToLE, HasAt, ReadLE, Pow256, AlgorithmCode;
    var code := AlgorithmCode(ds[0].alg);
    Widths();
    AlgorithmCodes(code, ds[0].alg);
    ReadIffHas(data, at, 2, code);
    HasAtSplit(data, at, ToLE(code, 2), ds[0].digest + EncodeDigests(ds[1..]));
    HasAtSplit(data, at + 2, ds[0].digest, EncodeDigests(ds[1..]));
  }

  lemma DigestsStep(data: seq<Byte>, at: nat, n: nat, table: Table, ds: seq<Digest>, next: nat)
    requires n > 0 && ds != []
    ensures DigestsSpec(data, at, n, table) == Ok((ds, next)) <==>
            && ReadLE(data, at, 2) == Some(AlgorithmCode(ds[0].alg))
            && HasAt(data, at + 2, ds[0].digest) && FitsTable([ds[0]], table)
            && DigestsSpec(data, at + 2 + |ds[0].digest|, n - 1, table) == Ok((ds[1..], next))
  {
    var one := DigestAt(data, at, table);
    DigestAtIff(data, at, table, ds[0]);
    if one.Ok? {
      hide DigestAt, FitsTable;
      var rest := DigestsSpec(data, one.value.1, n - 1, table);
      assert ds == [ds[0]] + ds[1..];
      if rest.Ok? {
        assert ([one.value.0] + rest.value.0)[1..] == rest.value.0;
      }
      DigestAtEnd(data, at, table);
    }
  }

  lemma DigestAtIff(data: seq<Byte>, at: nat, table: Table, d: Digest)
    ensures DigestAt(data, at, table) == Ok((d, at + 2 + |d.digest|)) <==>
            && ReadLE(data, at, 2) == Some(AlgorithmCode(d.alg))
            && HasAt(data, at + 2, d.digest) && FitsTable([d], table)
  {
    assert FitsTable([d], table) <==> d.alg in table && |d.digest| == table[d.alg] by {
      if FitsTable([d], table) {
        assert [d][0].alg in table;
      }
    }
    if ReadLE(data, at, 2).Some? {
      AlgorithmCodes(ReadLE(data, at, 2).value, d.alg);
    }
  }

  lemma DigestAtEnd(data: seq<Byte>, at: nat, table: Table)
    requires DigestAt(data, at, table).Ok?
    ensures var (d, end) := DigestAt(data, at, table).value; end == at + 2 + |d.digest|
  {
  }

  /** A record is cut out exactly when its encoding stands there. */
  lemma CutIff(data: seq<Byte>, at: nat, table: Table, x: Record, next: nat)
    requires at + 8 <= |data|
    ensures CutSpec(data, at, table) == Ok((x, next)) <==>
            WellFormed(x, table) && HasAt(data, at, EncodeRecord(x)) && next == at + |EncodeRecord(x)|
  {
    hide *;
    var i := at + 12 + |EncodeDigests(x.digests)|;
    EncodedRecordIff(data, at, x);
    if at + 12 > |data| {
      CutShort(data, at, table, x);
      return;
    }
    HeadIff(data, at, x.index, x.eventType, |x.digests|);
    BodyIff(data, i, x.event);
    DigestsIff(data, at + 12, |x.digests|, table, x.digests, i);
    CutStep(data, at, table, x, i, next);
    WellFormedParts(x, table);
    if CutSpec(data, at, table) == Ok((x, next)) {
      CutEnd(data, at, table, x, next);
      var j := next - 4 - |x.event|;
      CutStep(data, at, table, x, j, next);
      DigestsIff(data, at + 12, |x.digests|, table, x.digests, j);
    }
  }

  lemma WellFormedParts(x: Record, table: Table)
    ensures WellFormed(x, table) <==>
            && x.index < 0x1_0000_0000 && |x.digests| < 0x1_0000_0000 && |x.event| < 0x1_0000_0000
            && FitsTable(x.digests, table)
  {
  }

  lemma CutShort(data: seq<Byte>, at: nat, table: Table, x: Record)
    requires at + 8 <= |data| < at + 12
    ensures !CutSpec(data, at, table).Ok?
    ensures !HasAt(data, at, EncodeRecord(x))
  {
    hide FromLE, ToLE;
    EncodedRecordIff(data, at, x);
  }

  lemma CutEnd(data: seq<Byte>, at: nat, table: Table, x: Record, next: nat)
    requires at + 8 <= |data| && CutSpec(data, at, table) == Ok((x, next))
    ensures at + 16 + |x.event| <= next
  {
  }

  lemma CutStep(data: seq<Byte>, at: nat, table: Table, x: Record, i: nat, next: nat)
    requires at + 12 <= |data|
    ensures CutSpec(data, at, table) == Ok((x, next)) && next == i + 4 + |x.event| <==>
            && FromLE(data[at..at + 4]) == x.index
            && EventTypeFromCode(FromLE(data[at + 4..at + 8])) == Some(x.eventType)
            && ReadLE(data, at + 8, 4) == Some(|x.digests|)
            && DigestsSpec(data, at + 12, |x.digests|, table) == Ok((x.digests, i))
            && ReadLE(data, i, 4) == Some(|x.event|)
            && HasAt(data, i + 4, x.event) && next == i + 4 + |x.event|
  {
  }

  lemma EncodedRecordIff(data: seq<Byte>, at: nat, x: Record)
    ensures var i := at + 12 + |EncodeDigests(x.digests)|;
            && |EncodeRecord(x)| == i - at + 4 + |x.event|
            && (HasAt(data, at, EncodeRecord(x)) <==>
                && HasAt(data, at, ToLE(x.index, 4) + (ToLE(EventTypeCode(x.eventType), 4) + ToLE(|x.digests|, 4)))
                && HasAt(data, at + 12, EncodeDigests(x.digests))
                && HasAt(data, i, ToLE(|x.event|, 4) + x.event))
  {
    var head := ToLE(x.index, 4) + (ToLE(EventTypeCode(x.eventType), 4) + ToLE(|x.digests|, 4));
    var digests := EncodeDigests(x.digests);
    var body := ToLE(|x.event|, 4) + x.event;
    assert EncodeRecord(x) == head + (digests + body);
    HasAtSplit(data, at, head, digests + body);
    HasAtSplit(data, at + 12, digests, body);
  }

  lemma HeadIff(data: seq<Byte>, at: nat, index: nat, t: EventType, count: nat)
    requires at + 12 <= |data|
    ensures && FromLE(data[at..at + 4]) == index
            && EventTypeFromCode(FromLE(data[at + 4..at + 8])) == Some(t)
            && ReadLE(data, at + 8, 4) == Some(count)
            <==>
            && index < 0x1_0000_0000 && count < 0x1_0000_0000
            && HasAt(data, at, ToLE(index, 4) + (ToLE(EventTypeCode(t), 4) + ToLE(count, 4)))
  {
    Widths();
    var code := EventTypeCode(t);
    EventTypeCodes(FromLE(data[at + 4..at + 8]), t);
    ReadIffHas(data, at, 4, index);
    ReadIffHas(data, at + 4, 4, code);
    ReadIffHas(data, at + 8, 4, count);
    HasAtSplit(data, at, ToLE(index, 4), ToLE(code, 4) + ToLE(count, 4));
    HasAtSplit(data, at + 4, ToLE(code, 4), ToLE(count, 4));
  }

  lemma BodyIff(data: seq<Byte>, at: nat, event: seq<Byte>)
    ensures && ReadLE(data, at, 4) == Some(|event|)
            && HasAt(data, at + 4, event)
            <==> |event| < 0x1_0000_0000 && HasAt(data, at, ToLE(|event|, 4) + event)
  {
    Widths();
    ReadIffHas(data, at, 4, |event|);
    HasAtSplit(data, at, ToLE(|event|, 4), event);
  }

  lemma FromLEOne(b: Byte)
    ensures FromLE([b]) == b
  {
  }

  lemma {:induction false} AllOnes(n: nat, w: nat)
    requires n + 1 == Pow256(w)
    ensures ToLE(n, w) == seq(w, _ => 255)
    decreases w
  {
    if w > 0 {
      assert n % 256 == 255 && n / 256 + 1 == Pow256(w - 1);
      AllOnes(n / 256, w - 1);
      assert ToLE(n, w) == [255] + seq(w - 1, _ => 255);
    }
  }

  lemma {:induction false} AllZeros(w: nat)
    ensures ToLE(0, w) == seq(w, _ => 0)
  {
    if w > 0 {
      AllZeros(w - 1);
    }
  }

  /** A stop flag is eight bytes that are all ones or all zero. */
  lemma StopFlagBytes(data: seq<Byte>, at: nat)
    ensures StopFlagAt(data, at) <==>
            at + 8 <= |data| && ((forall i :: at <= i < at + 8 ==> data[i] == 255) || (forall i :: at <= i < at + 8 ==> data[i] == 0))
  {
    Widths();
    AllOnes(STOP_ONES, 8);
    AllZeros(8);
    hide ToLE, Pow256;
    if at + 8 <= |data| {
      SameBytes(data, at, 255);
      SameBytes(data, at, 0);
    }
  }

  lemma SameBytes(data: seq<Byte>, at: nat, b: Byte)
    requires at + 8 <= |data|
    ensures data[at..at + 8] == seq(8, _ => b) <==> forall i :: at <= i < at + 8 ==> data[i] == b
  {
    var cut := data[at..at + 8];
    if cut == seq(8, _ => b) {
      forall i | at <= i < at + 8 ensures data[i] == b {
        assert cut[i - at] == b;
      }
    }
  }

  lemma StopFlagRead(data: seq<Byte>, at: nat)
    ensures StopFlagAt(data, at) <==> ReadLE(data, at, 8) == Some(STOP_ONES) || ReadLE(data, at, 8) == Some(0)
  {
    hide FromLE, ToLE, HasAt, ReadLE, Pow256;
    Widths();
    ReadIffHas(data, at, 8, STOP_ONES);
    ReadIffHas(data, at, 8, 0);
  }

  /** The bytes of a record show a stop flag only for register 0 and EV_PREBOOT_CERT. */
  lemma StopFlagIff(data: seq<Byte>, at: nat, x: Record, table: Table)
    requires HasAt(data, at, EncodeRecord(x)) && WellFormed(x, table)
    ensures at + 16 <= |data|
    ensures StopFlagAt(data, at) <==> ReadsAsStop(x)
  {
    EncodedRecordIff(data, at, x);
    assert at + |EncodeRecord(x)| <= |data|;
    hide HasAt, EncodeRecord, EncodeDigests, FromLE, ToLE, FitsTable, StopFlagAt, EventTypeFromCode;
    HeadIff(data, at, x.index, x.eventType, |x.digests|);
    StopFlagHalves(data, at);
    EventTypeCodes(FromLE(data[at + 4..at + 8]), x.eventType);
    StopFlagRead(data, at);
  }

  /** A record is reported exactly when its encoding stands there and it does not read as a stop flag. */
  lemma EntryIff<D(!new)>(env: Env<D>, data: seq<Byte>, at: nat, table: Table, e: Entry<D>, next: nat)
    ensures EntrySpec(env, data, at, table) == Ok((Some(e), next)) <==>
            && Reported(env, table, e)
            && HasAt(data, at, EncodeRecord(RecordOf(e))) && next == at + |EncodeRecord(RecordOf(e))|
  {
    hide CutSpec, EncodeRecord, EncodeDigests, FromLE, ToLE, WellFormed, CompareDigestsSpec, StopFlagAt, Elaborate, Reports;
    var x := RecordOf(e);
    EncodedRecordIff(data, at, x);
    if at + 8 <= |data| {
      hide HasAt;
      ReportsIff(env, x, e);
      if CutSpec(data, at, table).Ok? {
        ElaborateKeeps(env, CutSpec(data, at, table).value.0, e);
      }
      CutIff(data, at, table, x, next);
      StopFlagRead(data, at);
      if HasAt(data, at, EncodeRecord(x)) && WellFormed(x, table) {
        StopFlagIff(data, at, x, table);
      }
      return;
    }
  }

  lemma ElaborateKeeps<D>(env: Env<D>, x: Record, e: Entry<D>)
    ensures Elaborate(env, x) == Ok(e) ==> RecordOf(e) == x
  {
    hide CompareDigestsSpec;
  }

  lemma EntryStopIff<D(!new)>(env: Env<D>, data: seq<Byte>, at: nat, table: Table)
    ensures EntrySpec(env, data, at, table) == Ok((None, 0)) <==> StopFlagAt(data, at)
  {
    hide CutSpec, FromLE, ToLE, StopFlagAt, CompareDigestsSpec;
    StopFlagRead(data, at);
  }

  // ----- all records -----

  /** The parser's loop accepts exactly the encodings of the logs it reports, ended by the data or by a
      stop flag. */
  lemma {:induction false} EntriesIff<D(!new)>(env: Env<D>, data: seq<Byte>, at: nat, table: Table, log: seq<Entry<D>>)
    requires at <= |data|
    ensures EntriesSpec(env, data, at, table) == Ok(log) <==>
            && AllReported(env, table, log)
            && HasAt(data, at, EncodeRecords(RecordsOf(log)))
            && EndsAt(data, at + |EncodeRecords(RecordsOf(log))|)
    decreases |log|
  {
    hide *;
    if log == [] {
      EntriesEmpty(env, data, at, table);
      return;
    }
    var x, xs := RecordOf(log[0]), EncodeRecords(RecordsOf(log[1..]));
    EncodeRecordsStep(log);
    HasAtSplit(data, at, EncodeRecord(x), xs);
    var next := at + |EncodeRecord(x)|;
    var got := EntrySpec(env, data, at, table);
    EntriesStep(env, data, at, table, log);
    EntryIff(env, data, at, table, log[0], next);
    AllReportedStep(env, table, log);
    if got.Ok? && got.value.0 == Some(log[0]) {
      EntryIff(env, data, at, table, log[0], got.value.1);
      EntriesIff(env, data, next, table, log[1..]);
    }
  }

  lemma EntriesEmpty<D(!new)>(env: Env<D>, data: seq<Byte>, at: nat, table: Table)
    requires at <= |data|
    ensures EntriesSpec(env, data, at, table) == Ok([]) <==> EndsAt(data, at)
    ensures AllReported<D>(env, table, []) && EncodeRecords(RecordsOf<D>([])) == [] && HasAt(data, at, [])
  {
    hide EntrySpec, StopFlagAt;
    if at < |data| {
      EntryStopIff(env, data, at, table);
    }
  }

  ghost predicate AllReported<D(!new)>(env: Env<D>, table: Table, log: seq<Entry<D>>) {
    forall i :: 0 <= i < |log| ==> Reported(env, table, log[i])
  }

  lemma AllReportedStep<D(!new)>(env: Env<D>, table: Table, log: seq<Entry<D>>)
    requires log != []
    ensures AllReported(env, table, log) <==> Reported(env, table, log[0]) && AllReported(env, table, log[1..])
  {
    hide Reported;
    assert log == [log[0]] + log[1..];
  }

  lemma EncodeRecordsStep<D>(log: seq<Entry<D>>)
    requires log != []
    ensures EncodeRecords(RecordsOf(log)) == EncodeRecord(RecordOf(log[0])) + EncodeRecords(RecordsOf(log[1..]))
  {
    hide EncodeRecord;
    assert RecordsOf(log)[1..] == RecordsOf(log[1..]);
  }

  lemma EntriesStep<D(!new)>(env: Env<D>, data: seq<Byte>, at: nat, table: Table, log: seq<Entry<D>>)
    requires log != []
    ensures var got := EntrySpec(env, data, at, table);
            EntriesSpec(env, data, at, table) == Ok(log) <==>
            && got.Ok? && got.value.0 == Some(log[0])
            && EntriesSpec(env, data, got.value.1, table) == Ok(log[1..])
  {
    hide EntrySpec;
    var got := EntrySpec(env, data, at, table);
    if got.Ok? && got.value.0.Some? {
      var rest := EntriesSpec(env, data, got.value.1, table);
      assert log == [log[0]] + log[1..];
      if rest.Ok? {
        assert ([got.value.0.value] + rest.value)[1..] == rest.value;
      }
    }
  }

  // ----- the first record -----

  lemma {:induction false} SizesDecode(data: seq<Byte>, at: nat, sizes: seq<(Algorithm, nat)>, table: Table)
    requires FitsU16(sizes) && HasAt(data, at, EncodeSizes(sizes))
    ensures AlgorithmSizesSpec(data, at, |sizes|, table) == Ok((TableOf(sizes, table), at + 4 * |sizes|))
    decreases |sizes|
  {
    if sizes != [] {
      var (alg, size) := sizes[0];
      SizesStep(data, at, sizes);
      hide EncodeSizes, HasAt, ReadLE;
      AlgorithmCodes(AlgorithmCode(alg), alg);
      SizesDecode(data, at + 4, sizes[1..], table[alg := size]);
    }
  }

  lemma SizesStep(data: seq<Byte>, at: nat, sizes: seq<(Algorithm, nat)>)
    requires sizes != []
    ensures sizes[0].1 < 0x1_0000 && HasAt(data, at, EncodeSizes(sizes)) <==>
            && ReadLE(data, at, 2) == Some(AlgorithmCode(sizes[0].0))
            && ReadLE(data, at + 2, 2) == Some(sizes[0].1)
            && HasAt(data, at + 4, EncodeSizes(sizes[1..]))
  {
    hide FromLE, ToLE, HasAt, ReadLE, Pow256, AlgorithmCode;
    var code, size := AlgorithmCode(sizes[0].0), sizes[0].1;
    Widths();
    AlgorithmCodes(code, sizes[0].0);
    ReadIffHas(data, at, 2, code);
    ReadIffHas(data, at + 2, 2, size);
    HasAtSplit(data, at, ToLE(code, 2), ToLE(size, 2) + EncodeSizes(sizes[1..]));
    HasAtSplit(data, at + 2, ToLE(size, 2), EncodeSizes(sizes[1..]));
  }

  lemma {:induction false} SizesSound(data: seq<Byte>, at: nat, n: nat, table: Table) returns (sizes: seq<(Algorithm, nat)>)
    requires at <= |data| && AlgorithmSizesSpec(data, at, n, table).Ok?
    ensures |sizes| == n && FitsU16(sizes) && HasAt(data, at, EncodeSizes(sizes))
    ensures AlgorithmSizesSpec(data, at, n, table).value == (TableOf(sizes, table), at + 4 * n)
    decreases n
  {
    sizes := [];
    if n > 0 {
      var code, size := ReadLE(data, at, 2).value, ReadLE(data, at + 2, 2).value;
      var alg := AlgorithmFromCode(code).value;
      AlgorithmCodes(code, alg);
      hide HasAt, AlgorithmFromCode, FromLE;
      var rest := SizesSound(data, at + 4, n - 1, table[alg := size]);
      sizes := [(alg, size)] + rest;
      assert sizes[1..] == rest;
      SizesStep(data, at, sizes);
    }
  }

  lemma SpecIdIff(data: seq<Byte>, h: Header)
    requires h.SpecId? && |h.spec| == 24 && |h.sizes| < 0x1_0000_0000
    ensures var at := 28 + 4 * |h.sizes|;
            && |EncodeSpecId(h)| == at + 1 + |h.vendor|
            && (HasAt(data, 0, EncodeSpecId(h)) <==>
                && HasAt(data, 0, h.spec)
                && ReadLE(data, 24, 4) == Some(|h.sizes|)
                && HasAt(data, 28, EncodeSizes(h.sizes))
                && HasAt(data, at, ToLE(|h.vendor|, 1))
                && HasAt(data, at + 1, h.vendor))
  {
    hide FromLE, ToLE, EncodeSizes, HasAt, ReadLE, Pow256;
    var sizes, tail := EncodeSizes(h.sizes), ToLE(|h.vendor|, 1) + h.vendor;
    Widths();
    ReadIffHas(data, 24, 4, |h.sizes|);
    HasAtSplit(data, 0, h.spec, ToLE(|h.sizes|, 4) + (sizes + tail));
    HasAtSplit(data, 24, ToLE(|h.sizes|, 4), sizes + tail);
    HasAtSplit(data, 28, sizes, tail);
    HasAtSplit(data, 28 + |sizes|, ToLE(|h.vendor|, 1), h.vendor);
  }

  lemma ByteAt(data: seq<Byte>, at: nat, b: nat)
    requires at < |data| && b < 256
    ensures data[at] == b <==> HasAt(data, at, ToLE(b, 1))
  {
    assert ToLE(b, 1) == [b];
    assert data[at..at + 1] == [data[at]];
  }

  lemma SpecIdDecode(h: Header)
    requires h.SpecId? && WellFormedHeader(h)
    ensures DigestSizesSpec(EncodeSpecId(h)) == Ok((TableOf(h.sizes, map[]), |EncodeSpecId(h)|))
  {
    hide ToLE, EncodeSizes, EncodeSpecId, TableOf, AlgorithmSizesSpec, ReadLE;
    var data := EncodeSpecId(h);
    assert HasAt(data, 0, data);
    SpecIdIff(data, h);
    SizesDecode(data, 28, h.sizes, map[]);
    ByteAt(data, 28 + 4 * |h.sizes|, |h.vendor|);
  }

  lemma SpecIdSound(data: seq<Byte>, pcr: nat, digest: seq<Byte>) returns (h: Header)
    requires DigestSizesSpec(data).Ok? && DigestSizesSpec(data).value.1 == |data| < 0x1_0000_0000
    requires pcr < 0x1_0000_0000 && |digest| == 20
    ensures h.SpecId? && h.pcr == pcr && h.digest == digest && WellFormedHeader(h)
    ensures EncodeSpecId(h) == data
    ensures DigestSizesSpec(data).value.0 == HeaderTable(h)
  {
    hide FromLE, ToLE, EncodeSizes, EncodeSpecId, TableOf, AlgorithmSizesSpec, FitsU16;
    var n := ReadLE(data, 24, 4).value;
    var sizes := SizesSound(data, 28, n, map[]);
    var at := 28 + 4 * n;
    h := SpecId(pcr, digest, data[..24], sizes, data[at + 1..]);
    ByteAt(data, at, |h.vendor|);
    SpecIdIff(data, h);
    assert data[0..24] == h.spec;
    assert data[..|data|] == data;
  }

  /** The table and the offset that a well-formed first record gives. */
  lemma HeaderDecode(h: Header, data: seq<Byte>)
    requires WellFormedHeader(h) && HasAt(data, 0, EncodeHeader(h))
    ensures InitialEntrySpec(data) == Ok((HeaderTable(h), |EncodeHeader(h)|))
  {
    hide FromLE, ToLE, EncodeSpecId, EncodeFixed, TableOf, DigestSizesSpec, EventTypeFromCode, EventTypeCode;
    if h.SpecId? {
      var size := |EncodeSpecId(h)|;
      HasAtSplit(data, 0, EncodeFixed(h.pcr, NoAction, h.digest, size), EncodeSpecId(h));
      FixedIff(data, h.pcr, NoAction, h.digest, size);
      EventTypeCodes(EventTypeCode(NoAction), NoAction);
      SpecIdDecode(h);
    } else {
      FixedIff(data, h.pcr, h.eventType, h.digest, h.size);
      EventTypeCodes(EventTypeCode(h.eventType), h.eventType);
    }
  }

  lemma FixedIff(data: seq<Byte>, pcr: nat, t: EventType, digest: seq<Byte>, size: nat)
    requires |digest| == 20
    ensures && ReadLE(data, 0, 4) == Some(pcr)
            && ReadLE(data, 4, 4) == Some(EventTypeCode(t))
            && HasAt(data, 8, digest)
            && ReadLE(data, 28, 4) == Some(size)
            <==>
            && pcr < 0x1_0000_0000 && size < 0x1_0000_0000
            && HasAt(data, 0, EncodeFixed(pcr, t, digest, size))
    ensures |EncodeFixed(pcr, t, digest, size)| == 32
  {
    hide FromLE, ToLE, HasAt, ReadLE, Pow256, EventTypeCode;
    Widths();
    var code := EventTypeCode(t);
    EventTypeCodes(code, t);
    ReadIffHas(data, 0, 4, pcr);
    ReadIffHas(data, 4, 4, code);
    ReadIffHas(data, 28, 4, size);
    HasAtSplit(data, 0, ToLE(pcr, 4), ToLE(code, 4) + (digest + ToLE(size, 4)));
    HasAtSplit(data, 4, ToLE(code, 4), digest + ToLE(size, 4));
    HasAtSplit(data, 8, digest, ToLE(size, 4));
  }

  lemma HeaderSound(data: seq<Byte>) returns (h: Header)
    requires InitialEntrySpec(data).Ok?
    ensures WellFormedHeader(h) && HasAt(data, 0, EncodeHeader(h))
    ensures InitialEntrySpec(data).value == (HeaderTable(h), |EncodeHeader(h)|)
    ensures |EncodeHeader(h)| >= 32
  {
    hide FromLE, ToLE, EncodeSpecId, EncodeFixed, TableOf, DigestSizesSpec, EventTypeFromCode, EventTypeCode, Pow256;
    var pcr, code, size := ReadLE(data, 0, 4).value, ReadLE(data, 4, 4).value, ReadLE(data, 28, 4).value;
    var t := EventTypeFromCode(code).value;
    var digest := data[8..28];
    EventTypeCodes(code, t);
    FixedIff(data, pcr, t, digest, size);
    if t == NoAction {
      h := SpecIdSound(data[32..32 + size], pcr, digest);
      HasAtSplit(data, 0, EncodeFixed(pcr, t, digest, size), EncodeSpecId(h));
    } else {
      h := Other(pcr, t, digest, size);
    }
  }

  // ----- the whole log -----

  function EncodeLog(h: Header, xs: seq<Record>): seq<Byte> {
    EncodeHeader(h) + EncodeRecords(xs)
  }

  /** The whole input is header, records and end, in this order and without gaps, whenever it parses;
      every record takes at least sixteen bytes. */
  lemma ParsedRecordsTile<D(!new)>(env: Env<D>, data: seq<Byte>, log: seq<Entry<D>>) returns (h: Header, tail: seq<Byte>)
    requires LogSpec(env, data) == Ok(log)
    ensures WellFormedHeader(h)
    ensures data == EncodeLog(h, RecordsOf(log)) + tail
    ensures EndsAt(data, |data| - |tail|)
    ensures AllReported(env, HeaderTable(h), log)
    ensures 32 + 16 * |log| <= |data|
  {
    hide EncodeHeader, InitialEntrySpec, EntriesSpec, WellFormedHeader, EndsAt, Reported, EncodeRecords, RecordsOf;
    h := HeaderSound(data);
    var at := |EncodeHeader(h)|;
    EntriesIff(env, data, at, HeaderTable(h), log);
    var records := EncodeRecords(RecordsOf(log));
    HasAtSplit(data, 0, EncodeHeader(h), records);
    tail := data[at + |records|..];
    assert data == data[..at + |records|] + tail;
    RecordsSize(RecordsOf(log));
  }

  lemma {:induction false} RecordsSize(xs: seq<Record>)
    ensures |EncodeRecords(xs)| >= 16 * |xs|
  {
    if xs != [] {
      RecordsSize(xs[1..]);
    }
  }

  /** Decoding an encoded log, ended by its data or by a stop flag with anything after it, gives back its
      entries, provided none of its records reads as a stop flag. */
  lemma RoundTrip<D(!new)>(env: Env<D>, h: Header, log: seq<Entry<D>>, tail: seq<Byte>)
    requires WellFormedHeader(h)
    requires AllReported(env, HeaderTable(h), log)
    requires EndsAt(tail, 0)
    ensures LogSpec(env, EncodeLog(h, RecordsOf(log)) + tail) == Ok(log)
  {
    hide EncodeHeader, InitialEntrySpec, EntriesSpec, WellFormedHeader, AllReported, EncodeRecords, RecordsOf, HasAt, EndsAt;
    var records := EncodeRecords(RecordsOf(log));
    var data := EncodeLog(h, RecordsOf(log)) + tail;
    LogParts(EncodeHeader(h), records, tail);
    HeaderDecode(h, data);
    EntriesIff(env, data, |EncodeHeader(h)|, HeaderTable(h), log);
  }

  lemma LogParts(head: seq<Byte>, records: seq<Byte>, tail: seq<Byte>)
    requires EndsAt(tail, 0)
    ensures var data := head + records + tail;
            HasAt(data, 0, head) && HasAt(data, |head|, records) && EndsAt(data, |head| + |records|)
  {
    hide EndsAt;
    var data := head + records + tail;
    assert data[0..|head|] == head && data[|head|..|head| + |records|] == records;
    assert data[|head| + |records|..] == tail;
    HasAtShift(data, |head| + |records|, tail);
  }

  lemma HasAtShift(data: seq<Byte>, at: nat, tail: seq<Byte>)
    requires at <= |data| && data[at..] == tail
    ensures EndsAt(tail, 0) ==> EndsAt(data, at)
  {
    var ones, zeros := ToLE(STOP_ONES, 8), ToLE(0, 8);
    hide ToLE;
    if |tail| >= 8 {
      assert tail[0..8] == data[at..at + 8];
    }
  }

  /** The entries before the first one whose record reads as a stop flag. */
  function BeforeStop<D>(log: seq<Entry<D>>): (pre: seq<Entry<D>>)
    ensures pre <= log
    ensures forall i :: 0 <= i < |pre| ==> !ReadsAsStop(RecordOf(pre[i]))
    ensures pre != log ==> ReadsAsStop(RecordOf(log[|pre|]))
  {
    if log == [] || ReadsAsStop(RecordOf(log[0])) then [] else [log[0]] + BeforeStop(log[1..])
  }

  /** The exact condition: of records that are otherwise well formed, decoding gives back those before the
      first that reads as a stop flag, so it gives all of them back if and only if none does. */
  lemma RoundTripIff<D(!new)>(env: Env<D>, h: Header, log: seq<Entry<D>>, tail: seq<Byte>)
    requires WellFormedHeader(h) && EndsAt(tail, 0)
    requires forall i :: 0 <= i < |log| ==>
      WellFormed(RecordOf(log[i]), HeaderTable(h)) && Reports(env, RecordOf(log[i]), log[i])
    ensures LogSpec(env, EncodeLog(h, RecordsOf(log)) + tail) == Ok(BeforeStop(log))
    ensures LogSpec(env, EncodeLog(h, RecordsOf(log)) + tail) == Ok(log) <==>
            (forall i :: 0 <= i < |log| ==> !ReadsAsStop(RecordOf(log[i])))
  {
    hide *;
    var pre := BeforeStop(log);
    if pre == log {
      AllReportedIff(env, HeaderTable(h), log);
      RoundTrip(env, h, log, tail);
    } else {
      RoundTripStop(env, h, log, tail, |pre|);
      assert log[..|pre|] == pre;
    }
  }

  lemma AllReportedIff<D(!new)>(env: Env<D>, table: Table, log: seq<Entry<D>>)
    ensures AllReported(env, table, log) <==>
            forall i :: 0 <= i < |log| ==>
              WellFormed(RecordOf(log[i]), table) && Reports(env, RecordOf(log[i]), log[i]) && !ReadsAsStop(RecordOf(log[i]))
  {
    hide WellFormed, Reports, ReadsAsStop;
  }

  lemma RoundTripStop<D(!new)>(env: Env<D>, h: Header, log: seq<Entry<D>>, tail: seq<Byte>, k: nat)
    requires WellFormedHeader(h) && k < |log|
    requires forall i :: 0 <= i <= k ==>
      WellFormed(RecordOf(log[i]), HeaderTable(h)) && Reports(env, RecordOf(log[i]), log[i])
    requires ReadsAsStop(RecordOf(log[k])) && forall i :: 0 <= i < k ==> !ReadsAsStop(RecordOf(log[i]))
    ensures LogSpec(env, EncodeLog(h, RecordsOf(log)) + tail) == Ok(log[..k])
  {
    hide *;
    EncodeLogSplit(h, log, k, tail);
    var rest := RecordsOf(log[k..]);
    StopsHere(rest, tail, HeaderTable(h));
    AllReportedIff(env, HeaderTable(h), log[..k]);
    RoundTrip(env, h, log[..k], EncodeRecords(rest) + tail);
  }

  /** One such record: register 0 with EV_PREBOOT_CERT, no digests and no event data, is lost with
      everything after it. */
  lemma PrebootCertIsLost<D(!new)>(env: Env<D>, details: D, later: seq<Entry<D>>)
    requires env.parseEvent(PrebootCert, []) == Ok(details)
    requires forall i :: 0 <= i < |later| ==> WellFormed(RecordOf(later[i]), map[]) && Reports(env, RecordOf(later[i]), later[i])
    ensures var h := Other(0, PostCode, Zeros(20), 0);
            var log := [Entry(details, true, [], [], 0, PrebootCert)] + later;
            WellFormedHeader(h) && LogSpec(env, EncodeLog(h, RecordsOf(log))) == Ok([])
  {
    var h := Other(0, PostCode, Zeros(20), 0);
    var first := Entry(details, true, [], [], 0, PrebootCert);
    assert Reports(env, RecordOf(first), first) && WellFormed(RecordOf(first), map[]);
    hide LogSpec, EncodeLog, RecordsOf, Reports, WellFormed;
    assert EncodeLog(h, RecordsOf([first] + later)) + [] == EncodeLog(h, RecordsOf([first] + later));
    RoundTripIff(env, h, [first] + later, []);
  }

  lemma EncodeLogSplit<D>(h: Header, log: seq<Entry<D>>, k: nat, tail: seq<Byte>)
    requires k <= |log|
    ensures EncodeLog(h, RecordsOf(log)) + tail ==
            EncodeLog(h, RecordsOf(log[..k])) + (EncodeRecords(RecordsOf(log[k..])) + tail)
  {
    hide EncodeHeader, EncodeRecords, RecordsOf;
    var xs, ys := RecordsOf(log[..k]), RecordsOf(log[k..]);
    RecordsOfSplit(log, k);
    EncodeRecordsConcat(xs, ys);
    Reassociate(EncodeHeader(h), EncodeRecords(xs), EncodeRecords(ys), tail);
  }

  lemma RecordsOfSplit<D>(log: seq<Entry<D>>, k: nat)
    requires k <= |log|
    ensures RecordsOf(log) == RecordsOf(log[..k]) + RecordsOf(log[k..])
  {
    hide *;
  }

  lemma StopsHere(ys: seq<Record>, tail: seq<Byte>, table: Table)
    requires ys != [] && ReadsAsStop(ys[0]) && WellFormed(ys[0], table)
    ensures EndsAt(EncodeRecords(ys) + tail, 0)
  {
    hide EncodeRecord, StopFlagAt;
    var data := EncodeRecords(ys) + tail;
    assert data[0..|EncodeRecord(ys[0])|] == EncodeRecord(ys[0]);
    StopFlagIff(data, 0, ys[0], table);
  }

  lemma {:induction false} EncodeRecordsConcat(xs: seq<Record>, ys: seq<Record>)
    ensures EncodeRecords(xs + ys) == EncodeRecords(xs) + EncodeRecords(ys)
  {
    hide EncodeRecord;
    if xs == [] {
      assert xs + ys == ys;
    } else {
      assert (xs + ys)[1..] == xs[1..] + ys;
      EncodeRecordsConcat(xs[1..], ys);
    }
  }
}
