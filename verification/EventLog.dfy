/** The confidential-computing event log parser: a specification-id record whose table of digest
    sizes decides how every later record is cut.  Each function is the meaning of the method of the
    same name without the suffix `Spec`. */
module EventLog {
  import opened Wrappers
  import opened Bytes
  import opened Tcg

  type Table = map<Algorithm, nat>
  type Hash = (Algorithm, seq<Byte>) -> seq<Byte>

  datatype Digest = Digest(alg: Algorithm, digest: seq<Byte>)

  datatype Entry<D> = Entry(
    details: D, digestMatchesEvent: bool, digests: seq<Digest>, event: seq<Byte>, index: nat, eventType: EventType)

  /** A record as it stands in the log. */
  datatype Record = Record(index: nat, eventType: EventType, digests: seq<Digest>, event: seq<Byte>)

  /** The code that the parser calls and that is not modelled: the hash functions and the parsers of
      single event bodies. */
  datatype Env<!D> = Env(hash: Hash, parseEvent: (EventType, seq<Byte>) -> Outcome<D, LogError>)

  datatype LogError =
    | CannotReadPcrIndex | CannotReadEventType | UnknownEventType(code: nat) | CannotReadEventSize
    | SpecIdOutOfBounds | CannotReadAlgorithmCount | CannotReadAlgorithm | CannotReadAlgorithmSize
    | UnknownAlgorithm(code: nat) | UnexpectedSpecIdSize | CannotReadStopFlag
    | CannotReadDigestCount | MissingDigestSize(alg: Algorithm) | DataTooShort | DigestNotSupported(alg: Algorithm)
    | EventBody(what: string)

  const STOP_ONES := 0xffff_ffff_ffff_ffff

  // ----- the table of digest sizes -----

  /** Read `n` (algorithm, size) pairs from `at`, inserting them into the table in order. */
  function AlgorithmSizesSpec(data: seq<Byte>, at: nat, n: nat, table: Table): (r: Outcome<(Table, nat), LogError>)
    ensures r.Ok? ==> r.value.1 == at + 4 * n
    decreases n
  {
    if n == 0 then Ok((table, at)) else
    var code :- OrErr(ReadLE(data, at, 2), CannotReadAlgorithm);
    var size :- OrErr(ReadLE(data, at + 2, 2), CannotReadAlgorithmSize);
    var alg :- OrErr(AlgorithmFromCode(code), UnknownAlgorithm(code));
    AlgorithmSizesSpec(data, at + 4, n - 1, table[alg := size])
  }

  function DigestSizesSpec(data: seq<Byte>): Outcome<(Table, nat), LogError> {
    var n :- OrErr(ReadLE(data, 24, 4), CannotReadAlgorithmCount);
    var (table, at) :- AlgorithmSizesSpec(data, 28, n, map[]);
    if at < |data| then Ok((table, at + data[at] + 1)) else Abort
  }

  function InitialEntrySpec(data: seq<Byte>): Outcome<(Table, nat), LogError> {
    var _ :- OrErr(ReadLE(data, 0, 4), CannotReadPcrIndex);
    var code :- OrErr(ReadLE(data, 4, 4), CannotReadEventType);
    var eventType :- OrErr(EventTypeFromCode(code), UnknownEventType(code));
    var size :- OrErr(ReadLE(data, 28, 4), CannotReadEventSize);
    if eventType != NoAction then Ok((map[], 32))
    else if 32 + size > |data| then Err(SpecIdOutOfBounds)
    else
      var (table, used) :- DigestSizesSpec(data[32..32 + size]);
      if used != size then Err(UnexpectedSpecIdSize) else Ok((table, 32 + size))
  }

  // ----- one record -----

  /** One digest at `at`, its size taken from the table. */
  function DigestAt(data: seq<Byte>, at: nat, table: Table): (r: Outcome<(Digest, nat), LogError>)
    ensures r.Ok? ==> at + 2 <= r.value.1 <= |data|
  {
    var code :- OrErr(ReadLE(data, at, 2), CannotReadAlgorithm);
    var alg :- OrErr(AlgorithmFromCode(code), UnknownAlgorithm(code));
    if alg !in table then Err(MissingDigestSize(alg))
    else if at + 2 + table[alg] > |data| then Abort
    else Ok((Digest(alg, data[at + 2..at + 2 + table[alg]]), at + 2 + table[alg]))
  }

  function DigestsSpec(data: seq<Byte>, at: nat, n: nat, table: Table): (r: Outcome<(seq<Digest>, nat), LogError>)
    ensures r.Ok? ==> |r.value.0| == n && at <= r.value.1 && (at <= |data| ==> r.value.1 <= |data|)
    decreases n
  {
    if n == 0 then Ok(([], at)) else
    var (d, end) :- DigestAt(data, at, table);
    var (rest, next) :- DigestsSpec(data, end, n - 1, table);
    Ok(([d] + rest, next))
  }

  /** Whether every digest is the hash of the event; stops at the first that is not. */
  function CompareDigestsSpec(h: Hash, event: seq<Byte>, digests: seq<Digest>): Outcome<bool, LogError> {
    if digests == [] then Ok(true)
    else if !Hashable(digests[0].alg) then Err(DigestNotSupported(digests[0].alg))
    else if h(digests[0].alg, event) != digests[0].digest then Ok(false)
    else CompareDigestsSpec(h, event, digests[1..])
  }

  /** What is reported for a record cut out of the log. */
  function Elaborate<D>(env: Env<D>, x: Record): Outcome<Entry<D>, LogError> {
    var matches :- CompareDigestsSpec(env.hash, x.event, x.digests);
    var details :- env.parseEvent(x.eventType, x.event);
    Ok(Entry(details, matches, x.digests, x.event, x.index, x.eventType))
  }

  /** Cut the record at `at` out of the log.  Its first eight bytes were already read as the stop flag,
      so reading them again as register and event type cannot fail. */
  function CutSpec(data: seq<Byte>, at: nat, table: Table): (r: Outcome<(Record, nat), LogError>)
    requires at + 8 <= |data|
    ensures r.Ok? ==> at + 16 <= r.value.1 <= |data|
  {
    var register, code := FromLE(data[at..at + 4]), FromLE(data[at + 4..at + 8]);
    var eventType :- OrErr(EventTypeFromCode(code), UnknownEventType(code));
    var count :- OrErr(ReadLE(data, at + 8, 4), CannotReadDigestCount);
    var (digests, i) :- DigestsSpec(data, at + 12, count, table);
    var size :- OrErr(ReadLE(data, i, 4), CannotReadEventSize);
    if |data| < size then Err(DataTooShort)
    else if i + 4 + size > |data| then Abort
    else Ok((Record(register, eventType, digests, data[i + 4..i + 4 + size]), i + 4 + size))
  }

  /** One record at `at`, or `None` at a stop flag. */
  function EntrySpec<D>(env: Env<D>, data: seq<Byte>, at: nat, table: Table): (r: Outcome<(Option<Entry<D>>, nat), LogError>)
    ensures r.Ok? && r.value.0.Some? ==> at + 16 <= r.value.1 <= |data|
    ensures r.Ok? && r.value.0.None? ==> r.value.1 == 0
  {
    var flag :- OrErr(ReadLE(data, at, 8), CannotReadStopFlag);
    if flag == STOP_ONES || flag == 0 then Ok((None, 0)) else
    var (record, next) :- CutSpec(data, at, table);
    var entry :- Elaborate(env, record);
    Ok((Some(entry), next))
  }

  function EntriesSpec<D>(env: Env<D>, data: seq<Byte>, at: nat, table: Table): Outcome<seq<Entry<D>>, LogError>
    decreases |data| - at
  {
    if at >= |data| then Ok([]) else
    var (entry, next) :- EntrySpec(env, data, at, table);
    if entry.None? then Ok([]) else
    var rest :- EntriesSpec(env, data, next, table);
    Ok([entry.value] + rest)
  }

  function LogSpec<D>(env: Env<D>, data: seq<Byte>): Outcome<seq<Entry<D>>, LogError> {
    var (table, at) :- InitialEntrySpec(data);
    EntriesSpec(env, data, at, table)
  }

  // ----- the parser as it runs -----

  method ParseDigestSizes(data: seq<Byte>) returns (r: Outcome<(Table, nat), LogError>)
    ensures r == DigestSizesSpec(data)
  {
    var structIndex := 24;
    var count :- OrErr(ReadLE(data, structIndex, 4), CannotReadAlgorithmCount);
    structIndex := structIndex + 4;
    var table: Table := map[];
    for k := 0 to count
      invariant structIndex == 28 + 4 * k
      invariant AlgorithmSizesSpec(data, 28, count, map[]) == AlgorithmSizesSpec(data, structIndex, count - k, table)
    {
      var code :- OrErr(ReadLE(data, structIndex, 2), CannotReadAlgorithm);
      var size :- OrErr(ReadLE(data, structIndex + 2, 2), CannotReadAlgorithmSize);
      var alg :- OrErr(AlgorithmFromCode(code), UnknownAlgorithm(code));
      structIndex := structIndex + 4;
      table := table[alg := size];
    }
    if structIndex >= |data| {
      return Abort;
    }
    return Ok((table, structIndex + data[structIndex] + 1));
  }

  method ParseInitialEntry(data: seq<Byte>) returns (r: Outcome<(Table, nat), LogError>)
    ensures r == InitialEntrySpec(data)
  {
    var _ :- OrErr(ReadLE(data, 0, 4), CannotReadPcrIndex);
    var code :- OrErr(ReadLE(data, 4, 4), CannotReadEventType);
    var eventType :- OrErr(EventTypeFromCode(code), UnknownEventType(code));
    var size :- OrErr(ReadLE(data, 28, 4), CannotReadEventSize);
    if eventType != NoAction {
      return Ok((map[], 32));
    }
    if 32 + size > |data| {
      return Err(SpecIdOutOfBounds);
    }
    var sizes :- ParseDigestSizes(data[32..32 + size]);
    if sizes.1 != size {
      return Err(UnexpectedSpecIdSize);
    }
    return Ok((sizes.0, 32 + size));
  }

  /** Put the digests already read in front of what reading the rest gives. */
  ghost function Prepend(read: seq<Digest>, rest: Outcome<(seq<Digest>, nat), LogError>): Outcome<(seq<Digest>, nat), LogError> {
    if rest.Ok? then Ok((read + rest.value.0, rest.value.1)) else rest
  }

  lemma PrependStep(read: seq<Digest>, data: seq<Byte>, at: nat, n: nat, table: Table)
    requires n > 0 && DigestAt(data, at, table).Ok?
    ensures var (d, end) := DigestAt(data, at, table).value;
            Prepend(read, DigestsSpec(data, at, n, table)) == Prepend(read + [d], DigestsSpec(data, end, n - 1, table))
  {
    var (d, end) := DigestAt(data, at, table).value;
    var rest := DigestsSpec(data, end, n - 1, table);
    if rest.Ok? {
      assert read + ([d] + rest.value.0) == (read + [d]) + rest.value.0;
    }
  }

  method ParseDigests(data: seq<Byte>, at: nat, table: Table) returns (r: Outcome<(seq<Digest>, nat), LogError>)
    ensures ReadLE(data, at, 4).None? ==> r == Err(CannotReadDigestCount)
    ensures ReadLE(data, at, 4).Some? ==> r == DigestsSpec(data, at + 4, ReadLE(data, at, 4).value, table)
  {
    hide FromLE, DigestAt;
    var index := at;
    var count :- OrErr(ReadLE(data, index, 4), CannotReadDigestCount);
    index := index + 4;
    var digests: seq<Digest> := [];
    ghost var all := DigestsSpec(data, index, count, table);
    assert all.Ok? ==> [] + all.value.0 == all.value.0;
    for k := 0 to count
      invariant 0 <= index
      invariant all == Prepend(digests, DigestsSpec(data, index, count - k, table))
    {
      var next :- DigestAt(data, index, table);
      PrependStep(digests, data, index, count - k, table);
      digests := digests + [next.0];
      index := next.1;
    }
    assert digests + [] == digests;
    return Ok((digests, index));
  }

  method CompareDigests(h: Hash, event: seq<Byte>, digests: seq<Digest>) returns (r: Outcome<bool, LogError>)
    ensures r == CompareDigestsSpec(h, event, digests)
  {
    for k := 0 to |digests|
      invariant CompareDigestsSpec(h, event, digests) == CompareDigestsSpec(h, event, digests[k..])
    {
      if !Hashable(digests[k].alg) {
        return Err(DigestNotSupported(digests[k].alg));
      }
      if h(digests[k].alg, event) != digests[k].digest {
        return Ok(false);
      }
      assert digests[k..][1..] == digests[k + 1..];
    }
    return Ok(true);
  }

  method ParseEventlogEntry<D>(env: Env<D>, data: seq<Byte>, at: nat, table: Table)
    returns (r: Outcome<(Option<Entry<D>>, nat), LogError>)
    ensures r == EntrySpec(env, data, at, table)
  {
    hide DigestsSpec, CompareDigestsSpec, FromLE, EventTypeFromCode;
    var index := at;
    var flag :- OrErr(ReadLE(data, index, 8), CannotReadStopFlag);
    if flag == STOP_ONES || flag == 0 {
      return Ok((None, 0));
    }
    var register := FromLE(data[index..index + 4]);
    index := index + 4;
    var code := FromLE(data[index..index + 4]);
    index := index + 4;
    var eventType :- OrErr(EventTypeFromCode(code), UnknownEventType(code));
    var cut :- ParseDigests(data, index, table);
    var digests := cut.0;
    index := cut.1;
    var size :- OrErr(ReadLE(data, index, 4), CannotReadEventSize);
    index := index + 4;
    if |data| < size {
      return Err(DataTooShort);
    }
    if index + size > |data| {
      return Abort;
    }
    var event := data[index..index + size];
    index := index + size;
    var matches :- CompareDigests(env.hash, event, digests);
    var details :- env.parseEvent(eventType, event);
    return Ok((Some(Entry(details, matches, digests, event, register, eventType)), index));
  }

  /** Put the records already read in front of what reading the rest gives. */
  ghost function PrependEntries<D>(read: seq<Entry<D>>, rest: Outcome<seq<Entry<D>>, LogError>): Outcome<seq<Entry<D>>, LogError> {
    if rest.Ok? then Ok(read + rest.value) else rest
  }

  method TryFrom<D>(env: Env<D>, data: seq<Byte>) returns (r: Outcome<seq<Entry<D>>, LogError>)
    ensures r == LogSpec(env, data)
  {
    var log: seq<Entry<D>> := [];
    var initial :- ParseInitialEntry(data);
    var (table, index) := initial;
    ghost var start := index;
    ghost var all := EntriesSpec(env, data, index, table);
    assert all.Ok? ==> [] + all.value == all.value;
    while index < |data|
      invariant EntriesSpec(env, data, start, table) == PrependEntries(log, EntriesSpec(env, data, index, table))
      decreases |data| - index
    {
      ghost var was := log;
      ghost var from := index;
      var parsed :- ParseEventlogEntry(env, data, index, table);
      var entry := parsed.0;
      if entry.None? {
        assert log + [] == log;
        return Ok(log);
      }
      log := log + [entry.value];
      index := parsed.1;
      ghost var rest := EntriesSpec(env, data, index, table);
      assert rest.Ok? ==> was + ([entry.value] + rest.value) == log + rest.value;
    }
    assert log + [] == log;
    return Ok(log);
  }
}
