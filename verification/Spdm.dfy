/** SPDM GET_MEASUREMENTS request and MEASUREMENTS response (DMTF DSP0274 1.1.1) and the NVIDIA report that
    holds one of each: decoding, the offsets it accounts for, and which bytes are signed. */
module Spdm {
  import opened Wrappers
  import opened Bytes
  import opened Json
  import OpaqueData

  const SPDM_VERSION: Byte := 0x11
  const DMTF_SPECIFICATION: Byte := 1
  const REQUEST_SIZE := 37

  datatype SpdmError =
    | TooSmall | UnsupportedVersion(version: Byte) | BlockOverflow | UnsupportedSpecification | MeasurementOverflow
    | DmtfTooSmall | DmtfOverflow | RecordOverflow | NonceOverflow | OpaqueLengthOverflow | OpaqueOverflow
    | Opaque(error: OpaqueData.OpaqueError) | SignatureOverflow | FwidMissing | FwidMismatch | BadSignature | BadChain | NonceMismatch

  datatype Measurement = Measurement(kind: Byte, size: nat, value: seq<Byte>)
  datatype Block = Block(index: Byte, specification: Byte, size: nat, measurement: Measurement)

  datatype Response = Response(
    version: Byte, code: Byte, param1: Byte, param2: Byte, numberOfBlocks: nat, recordLength: nat, record: seq<Block>,
    nonce: seq<Byte>, opaqueLength: nat, opaqueData: map<string, Json>, signature: seq<Byte>)

  datatype Request = Request(version: Byte, code: Byte, param1: Byte, param2: Byte, nonce: seq<Byte>, slotIdParam: Byte)
  datatype Report = Report(request: Request, response: Response)

  /** What the decoder calls and what is not modelled here. */
  datatype Env = Env(mode: OverflowMode, lossy: OpaqueData.Lossy)

  // ----- measurement record -----

  function MeasurementSpec(s: seq<Byte>): Outcome<Measurement, SpdmError> {
    if |s| < 3 then Err(DmtfTooSmall) else
    var size := FromLE(s[1..3]);
    if 3 + size > |s| then Err(DmtfOverflow) else Ok(Measurement(s[0], size, s[3..3 + size]))
  }

  function BlockAt(s: seq<Byte>, at: nat): (r: Outcome<(Block, nat), SpdmError>)
    ensures r.Ok? ==> at + 4 <= r.value.1 <= |s|
  {
    if |s| < at + 4 then Err(BlockOverflow)
    else if s[at + 1] != DMTF_SPECIFICATION then Err(UnsupportedSpecification)
    else
      var size := FromLE(s[at + 2..at + 4]);
      if at + 4 + size > |s| then Err(MeasurementOverflow) else
      var m :- MeasurementSpec(s[at + 4..at + 4 + size]);
      Ok((Block(s[at], s[at + 1], size, m), at + 4 + size))
  }

  function BlocksSpec(n: nat, s: seq<Byte>, at: nat): Outcome<seq<Block>, SpdmError> {
    if n == 0 then Ok([]) else
    var (b, next) :- BlockAt(s, at);
    var rest :- BlocksSpec(n - 1, s, next);
    Ok([b] + rest)
  }

  /** Put the blocks already read in front of what reading the rest gives. */
  ghost function Prepend(read: seq<Block>, rest: Outcome<seq<Block>, SpdmError>): Outcome<seq<Block>, SpdmError> {
    if rest.Ok? then Ok(read + rest.value) else rest
  }

  method DecodeRecord(numberOfBlocks: nat, s: seq<Byte>) returns (r: Outcome<seq<Block>, SpdmError>)
    ensures r == BlocksSpec(numberOfBlocks, s, 0)
  {
    hide BlockAt;
    var blocks: seq<Block> := [];
    var offset := 0;
    ghost var all := BlocksSpec(numberOfBlocks, s, 0);
    assert all.Ok? ==> [] + all.value == all.value;
    for k := 0 to numberOfBlocks
      invariant 0 <= offset
      invariant all == Prepend(blocks, BlocksSpec(numberOfBlocks - k, s, offset))
    {
      var block :- BlockAt(s, offset);
      ghost var rest := BlocksSpec(numberOfBlocks - k - 1, s, block.1);
      assert rest.Ok? ==> blocks + ([block.0] + rest.value) == (blocks + [block.0]) + rest.value;
      blocks := blocks + [block.0];
      offset := block.1;
    }
    assert blocks + [] == blocks;
    return Ok(blocks);
  }

  // ----- response, request, report -----

  /** A record of length zero is not looked at, whatever the number of blocks says. */
  function RecordSpec(n: nat, s: seq<Byte>): Outcome<seq<Block>, SpdmError> {
    if s == [] then Ok([]) else BlocksSpec(n, s, 0)
  }

  function OpaqueSpec(env: Env, s: seq<Byte>): Outcome<map<string, Json>, SpdmError> {
    match OpaqueData.DecodeSpec(env.mode, env.lossy, s)
    case Ok(m) => Ok(m)
    case Err(e) => Err(Opaque(e))
    case Abort => Abort
  }

  function ResponseSpec(env: Env, s: seq<Byte>, signatureLength: nat): (r: Outcome<(Response, nat), SpdmError>)
    ensures r.Ok? ==> 42 + signatureLength <= r.value.1 <= |s|
  {
    if |s| < 8 then Err(TooSmall)
    else if s[0] != SPDM_VERSION then Err(UnsupportedVersion(s[0]))
    else
      var l1 := FromLE(s[5..8]);
      if 8 + l1 > |s| then Err(RecordOverflow) else
      var record :- RecordSpec(s[4], s[8..8 + l1]);
      if 40 + l1 > |s| then Err(NonceOverflow)
      else if 42 + l1 > |s| then Err(OpaqueLengthOverflow)
      else
        var l2 := FromLE(s[40 + l1..42 + l1]);
        var end := 42 + l1 + l2;
        if end > |s| then Err(OpaqueOverflow) else
        var opaqueData :- OpaqueSpec(env, s[42 + l1..end]);
        if end + signatureLength > |s| then Err(SignatureOverflow)
        else
          Ok((Response(s[0], s[1], s[2], s[3], s[4], l1, record, s[8 + l1..40 + l1], l2, opaqueData, s[end..end + signatureLength]),
              end + signatureLength))
  }

  function RequestSpec(s: seq<Byte>): Outcome<(Request, nat), SpdmError> {
    if |s| < REQUEST_SIZE then Err(TooSmall)
    else if s[0] != SPDM_VERSION then Err(UnsupportedVersion(s[0]))
    else Ok((Request(s[0], s[1], s[2], s[3], s[4..36], s[36]), REQUEST_SIZE))
  }

  function ReportSpec(env: Env, s: seq<Byte>, signatureLength: nat): (r: Outcome<(Report, nat), SpdmError>)
    ensures r.Ok? ==> REQUEST_SIZE + 42 + signatureLength <= r.value.1 <= |s|
  {
    if |s| < REQUEST_SIZE then Err(TooSmall) else
    var (request, requestSize) :- RequestSpec(s[..REQUEST_SIZE]);
    var (response, responseSize) :- ResponseSpec(env, s[REQUEST_SIZE..], signatureLength);
    Ok((Report(request, response), requestSize + responseSize))
  }

  method DecodeResponse(env: Env, s: seq<Byte>, signatureLength: nat) returns (r: Outcome<(Response, nat), SpdmError>)
    ensures r == ResponseSpec(env, s, signatureLength)
  {
    hide FromLE, BlocksSpec, OpaqueData.DecodeSpec;
    if |s| < 8 {
      return Err(TooSmall);
    }
    if s[0] != SPDM_VERSION {
      return Err(UnsupportedVersion(s[0]));
    }
    var offset: nat := 8;
    var recordLength := FromLE(s[5..8]);
    assert recordLength == 0 ==> s[8..8 + recordLength] == [];
    var record: seq<Block> := [];
    if recordLength > 0 {
      if offset + recordLength > |s| {
        return Err(RecordOverflow);
      }
      record :- DecodeRecord(s[4], s[offset..offset + recordLength]);
      offset := offset + recordLength;
    }
    if offset + 32 > |s| {
      return Err(NonceOverflow);
    }
    var nonce := s[offset..offset + 32];
    offset := offset + 32;
    if offset + 2 > |s| {
      return Err(OpaqueLengthOverflow);
    }
    var opaqueLength := FromLE(s[offset..offset + 2]);
    offset := offset + 2;
    var opaqueData: map<string, Json> := map[];
    if offset + opaqueLength > |s| {
      return Err(OpaqueOverflow);
    }
    if opaqueLength > 0 {
      var items := OpaqueData.Decode(env.mode, env.lossy, s[offset..offset + opaqueLength]);
      match items {
        case Ok(m) => opaqueData := m;
        case Err(e) => return Err(Opaque(e));
        case Abort => return Abort;
      }
      offset := offset + opaqueLength;
    } else {
      assert s[offset..offset] == [];
      NoOpaqueData(env);
    }
    if offset + signatureLength > |s| {
      return Err(SignatureOverflow);
    }
    var signature := s[offset..offset + signatureLength];
    offset := offset + signatureLength;
    return Ok((Response(s[0], s[1], s[2], s[3], s[4], recordLength, record, nonce, opaqueLength, opaqueData, signature), offset));
  }

  lemma NoOpaqueData(env: Env)
    ensures OpaqueSpec(env, []) == Ok(map[])
  {
  }

  // ----- the record as it stands on the wire -----

  /** A block with the bytes that the decoder skips: those of the measurement beyond its own size. */
  datatype WireBlock = WireBlock(index: Byte, kind: Byte, value: seq<Byte>, slack: seq<Byte>)

  function EncodeMeasurement(w: WireBlock): seq<Byte> {
    [w.kind] + (ToLE(|w.value|, 2) + (w.value + w.slack))
  }

  function EncodeBlock(w: WireBlock): seq<Byte> {
    [w.index, 1] + (ToLE(|EncodeMeasurement(w)|, 2) + EncodeMeasurement(w))
  }

  function EncodeBlocks(ws: seq<WireBlock>): seq<Byte> {
    if ws == [] then [] else EncodeBlock(ws[0]) + EncodeBlocks(ws[1..])
  }

  function BlockOf(w: WireBlock): Block {
    Block(w.index, 1, 3 + |w.value| + |w.slack|, Measurement(w.kind, |w.value|, w.value))
  }

  function BlocksOf(ws: seq<WireBlock>): seq<Block> {
    if ws == [] then [] else [BlockOf(ws[0])] + BlocksOf(ws[1..])
  }

  predicate Fits(ws: seq<WireBlock>) {
    forall w :: w in ws ==> 3 + |w.value| + |w.slack| < 0x1_0000
  }

  lemma MeasurementDecode(w: WireBlock)
    requires |w.value| < 0x1_0000
    ensures MeasurementSpec(EncodeMeasurement(w)) == Ok(Measurement(w.kind, |w.value|, w.value))
    ensures |EncodeMeasurement(w)| == 3 + |w.value| + |w.slack|
  {
    hide FromLE, ToLE, Pow256;
    var s := EncodeMeasurement(w);
    Widths();
    DecodeEncodeLE(|w.value|, 2);
    assert s[1..3] == ToLE(|w.value|, 2);
    assert s[3..3 + |w.value|] == w.value;
  }

  lemma BlockDecode(s: seq<Byte>, at: nat, w: WireBlock)
    requires HasAt(s, at, EncodeBlock(w)) && 3 + |w.value| + |w.slack| < 0x1_0000
    ensures BlockAt(s, at) == Ok((BlockOf(w), at + |EncodeBlock(w)|))
  {
    var m := EncodeMeasurement(w);
    MeasurementDecode(w);
    hide FromLE, ToLE, Pow256, EncodeMeasurement, MeasurementSpec;
    var head: seq<Byte> := [w.index, 1];
    HasAtSplit(s, at, head, ToLE(|m|, 2) + m);
    HasAtSplit(s, at + 2, ToLE(|m|, 2), m);
    Widths();
    ReadIffHas(s, at + 2, 2, |m|);
    assert s[at] == s[at..at + 2][0] && s[at + 1] == s[at..at + 2][1];
  }

  lemma BlockSound(s: seq<Byte>, at: nat) returns (w: WireBlock)
    requires BlockAt(s, at).Ok?
    ensures HasAt(s, at, EncodeBlock(w)) && 3 + |w.value| + |w.slack| < 0x1_0000
    ensures BlockAt(s, at).value == (BlockOf(w), at + |EncodeBlock(w)|)
  {
    var size := FromLE(s[at + 2..at + 4]);
    var m := s[at + 4..at + 4 + size];
    var length := FromLE(m[1..3]);
    w := WireBlock(s[at], m[0], m[3..3 + length], m[3 + length..]);
    EncodeDecodeLE(s[at + 2..at + 4]);
    EncodeDecodeLE(m[1..3]);
    Widths();
    hide FromLE, ToLE, Pow256;
    assert EncodeMeasurement(w) == m by {
      assert m == [m[0]] + (m[1..3] + (m[3..3 + length] + m[3 + length..]));
    }
    hide EncodeMeasurement;
    assert s[at..at + 4 + size] == [s[at], s[at + 1]] + (s[at + 2..at + 4] + m);
  }

  /** Decoding the record inverts encoding and ignores what follows the last block. */
  lemma {:induction false} BlocksDecode(s: seq<Byte>, at: nat, ws: seq<WireBlock>)
    requires HasAt(s, at, EncodeBlocks(ws)) && Fits(ws)
    ensures BlocksSpec(|ws|, s, at) == Ok(BlocksOf(ws))
    decreases |ws|
  {
    hide EncodeBlock, HasAt, BlockAt;
    if ws != [] {
      HasAtSplit(s, at, EncodeBlock(ws[0]), EncodeBlocks(ws[1..]));
      hide EncodeBlocks;
      BlockDecode(s, at, ws[0]);
      BlocksDecode(s, at + |EncodeBlock(ws[0])|, ws[1..]);
    }
  }

  /** Whatever record decodes is such an encoding. */
  lemma {:induction false} BlocksSound(n: nat, s: seq<Byte>, at: nat) returns (ws: seq<WireBlock>)
    requires at <= |s| && BlocksSpec(n, s, at).Ok?
    ensures |ws| == n && Fits(ws) && HasAt(s, at, EncodeBlocks(ws))
    ensures BlocksSpec(n, s, at).value == BlocksOf(ws)
    decreases n
  {
    ws := [];
    if n > 0 {
      hide BlockAt, EncodeBlock;
      var w := BlockSound(s, at);
      var rest := BlocksSound(n - 1, s, BlockAt(s, at).value.1);
      ws := [w] + rest;
      assert ws[1..] == rest;
      HasAtSplit(s, at, EncodeBlock(w), EncodeBlocks(rest));
    }
  }

  // ----- the response as it stands on the wire -----

  datatype WireResponse = WireResponse(
    code: Byte, param1: Byte, param2: Byte, numberOfBlocks: Byte, record: seq<Byte>, nonce: seq<Byte>, opaqueData: seq<Byte>)

  /** Everything of the response that precedes the signature. */
  function EncodeUnsigned(w: WireResponse): seq<Byte> {
    [0x11, w.code, w.param1, w.param2, w.numberOfBlocks] +
      (ToLE(|w.record|, 3) + (w.record + (w.nonce + (ToLE(|w.opaqueData|, 2) + w.opaqueData))))
  }

  predicate WellFormed(w: WireResponse) {
    |w.record| < 0x100_0000 && |w.nonce| == 32 && |w.opaqueData| < 0x1_0000
  }

  /** The record and the opaque data decode. */
  predicate Decodes(env: Env, w: WireResponse) {
    RecordSpec(w.numberOfBlocks, w.record).Ok? && OpaqueSpec(env, w.opaqueData).Ok?
  }

  function ResponseOf(env: Env, w: WireResponse, signature: seq<Byte>): Response
    requires Decodes(env, w)
  {
    Response(0x11, w.code, w.param1, w.param2, w.numberOfBlocks, |w.record|, RecordSpec(w.numberOfBlocks, w.record).value,
             w.nonce, |w.opaqueData|, OpaqueSpec(env, w.opaqueData).value, signature)
  }

  lemma UnsignedIff(s: seq<Byte>, w: WireResponse)
    requires WellFormed(w)
    ensures |EncodeUnsigned(w)| == 42 + |w.record| + |w.opaqueData|
    ensures var l1 := |w.record|;
            HasAt(s, 0, EncodeUnsigned(w)) <==>
            && HasAt(s, 0, [0x11, w.code, w.param1, w.param2, w.numberOfBlocks])
            && ReadLE(s, 5, 3) == Some(l1) && HasAt(s, 8, w.record) && HasAt(s, 8 + l1, w.nonce)
            && ReadLE(s, 40 + l1, 2) == Some(|w.opaqueData|) && HasAt(s, 42 + l1, w.opaqueData)
  {
    hide FromLE, ToLE, HasAt, ReadLE, Pow256;
    var l1, l2 := |w.record|, |w.opaqueData|;
    var head: seq<Byte> := [0x11, w.code, w.param1, w.param2, w.numberOfBlocks];
    Widths();
    ReadIffHas(s, 5, 3, l1);
    ReadIffHas(s, 40 + l1, 2, l2);
    HasAtSplit(s, 0, head, ToLE(l1, 3) + (w.record + (w.nonce + (ToLE(l2, 2) + w.opaqueData))));
    HasAtSplit(s, 5, ToLE(l1, 3), w.record + (w.nonce + (ToLE(l2, 2) + w.opaqueData)));
    HasAtSplit(s, 8, w.record, w.nonce + (ToLE(l2, 2) + w.opaqueData));
    HasAtSplit(s, 8 + l1, w.nonce, ToLE(l2, 2) + w.opaqueData);
    HasAtSplit(s, 40 + l1, ToLE(l2, 2), w.opaqueData);
  }

  /** Decoding inverts encoding, ignores any suffix and consumes 42 + L1 + L2 bytes and the signature. */
  lemma ResponseDecode(env: Env, s: seq<Byte>, w: WireResponse, signature: seq<Byte>)
    requires WellFormed(w) && Decodes(env, w)
    requires HasAt(s, 0, EncodeUnsigned(w) + signature)
    ensures ResponseSpec(env, s, |signature|) == Ok((ResponseOf(env, w, signature), 42 + |w.record| + |w.opaqueData| + |signature|))
  {
    hide FromLE, RecordSpec, OpaqueSpec, EncodeUnsigned;
    UnsignedIff(s, w);
    HasAtSplit(s, 0, EncodeUnsigned(w), signature);
    HeadBytes(s, 0x11, w.code, w.param1, w.param2, w.numberOfBlocks);
  }

  lemma HeadBytes(s: seq<Byte>, a: Byte, b: Byte, c: Byte, d: Byte, e: Byte)
    requires HasAt(s, 0, [a, b, c, d, e])
    ensures s[0] == a && s[1] == b && s[2] == c && s[3] == d && s[4] == e
  {
    assert forall i :: 0 <= i < 5 ==> s[i] == s[0..5][i] == [a, b, c, d, e][i];
  }

  /** Whatever response decodes is such an encoding. */
  lemma ResponseSound(env: Env, s: seq<Byte>, signatureLength: nat) returns (w: WireResponse)
    requires ResponseSpec(env, s, signatureLength).Ok?
    ensures WellFormed(w) && Decodes(env, w)
    ensures var (r, size) := ResponseSpec(env, s, signatureLength).value;
            && size == |EncodeUnsigned(w)| + signatureLength
            && HasAt(s, 0, EncodeUnsigned(w) + s[size - signatureLength..size])
            && r == ResponseOf(env, w, s[size - signatureLength..size])
  {
    hide FromLE, RecordSpec, OpaqueSpec, EncodeUnsigned;
    var (r, size) := ResponseSpec(env, s, signatureLength).value;
    var l1 := r.recordLength;
    w := WireResponse(s[1], s[2], s[3], s[4], s[8..8 + l1], r.nonce, s[42 + l1..42 + l1 + r.opaqueLength]);
    Bounds(s[5..8]);
    Bounds(s[40 + l1..42 + l1]);
    UnsignedIff(s, w);
    assert s[0..5] == [0x11, w.code, w.param1, w.param2, w.numberOfBlocks];
    HasAtSplit(s, 0, EncodeUnsigned(w), s[size - signatureLength..size]);
  }

  lemma Bounds(s: seq<Byte>)
    ensures |s| == 2 ==> FromLE(s) < 0x1_0000
    ensures |s| == 3 ==> FromLE(s) < 0x100_0000
  {
    hide FromLE, Pow256;
    Widths();
    EncodeDecodeLE(s);
  }

  // ----- the response with its nested layers -----

  /** A response layer by layer: the blocks with what follows them in the record, and the opaque items with what
      is left after them. */
  datatype Message = Message(
    code: Byte, param1: Byte, param2: Byte, count: Byte, blocks: seq<WireBlock>, slack: seq<Byte>, nonce: seq<Byte>,
    items: seq<OpaqueData.Item>, left: seq<Byte>)

  function WireOf(m: Message): WireResponse {
    WireResponse(m.code, m.param1, m.param2, m.count, EncodeBlocks(m.blocks) + m.slack, m.nonce,
                 OpaqueData.EncodeItems(m.items) + m.left)
  }

  /** The count is that of the blocks, unless the record is empty and so not looked at. */
  predicate RecordFits(count: Byte, blocks: seq<WireBlock>, slack: seq<Byte>) {
    Fits(blocks) && (count == |blocks| || (blocks == [] && slack == []))
  }

  /** The items are the ones that are read, decode, and include both versions. */
  predicate ItemsFit(env: Env, items: seq<OpaqueData.Item>, left: seq<Byte>)
    requires OpaqueData.AllDecode(env.mode, env.lossy, items)
  {
    && OpaqueData.Fits(items) && OpaqueData.DistinctKinds(items) && OpaqueData.ReadExactly(items, |left|)
    && var claims := OpaqueData.Claims(env.mode, env.lossy, items, map[]);
       OpaqueData.KeyName(OpaqueData.VbiosVersion) in claims && OpaqueData.KeyName(OpaqueData.DriverVersion) in claims
  }

  predicate OpaqueFits(env: Env, items: seq<OpaqueData.Item>, left: seq<Byte>) {
    && OpaqueData.AllDecode(env.mode, env.lossy, items)
    && ((items == [] && left == []) || ItemsFit(env, items, left))
  }

  predicate Encodable(env: Env, m: Message) {
    RecordFits(m.count, m.blocks, m.slack) && OpaqueFits(env, m.items, m.left) && WellFormed(WireOf(m))
  }

  /** What a response says, layer by layer. */
  function Meaning(env: Env, m: Message, signature: seq<Byte>): Response
    requires Encodable(env, m)
  {
    Response(0x11, m.code, m.param1, m.param2, m.count, |EncodeBlocks(m.blocks)| + |m.slack|, BlocksOf(m.blocks),
             m.nonce, |OpaqueData.EncodeItems(m.items)| + |m.left|,
             OpaqueData.Claims(env.mode, env.lossy, m.items, map[]), signature)
  }

  lemma RecordDecodes(count: Byte, blocks: seq<WireBlock>, slack: seq<Byte>)
    requires RecordFits(count, blocks, slack)
    ensures RecordSpec(count, EncodeBlocks(blocks) + slack) == Ok(BlocksOf(blocks))
  {
    var s := EncodeBlocks(blocks) + slack;
    if s != [] {
      hide EncodeBlock;
      assert s[0..|EncodeBlocks(blocks)|] == EncodeBlocks(blocks);
      BlocksDecode(s, 0, blocks);
    } else {
      assert blocks == [];
    }
  }

  lemma ItemsStand(env: Env, items: seq<OpaqueData.Item>, left: seq<Byte>)
    ensures OpaqueData.Stand(env.mode, env.lossy, OpaqueData.EncodeItems(items) + left, 0, items, map[]) <==>
            && OpaqueData.Fits(items) && OpaqueData.DistinctKinds(items)
            && OpaqueData.AllDecode(env.mode, env.lossy, items) && OpaqueData.ReadExactly(items, |left|)
  {
    hide OpaqueData.EncodeItems, OpaqueData.Fits, OpaqueData.DistinctKinds, OpaqueData.AllDecode,
         OpaqueData.ReadExactly, OpaqueData.KeyName;
    var s := OpaqueData.EncodeItems(items) + left;
    assert s[0..|OpaqueData.EncodeItems(items)|] == OpaqueData.EncodeItems(items);
  }

  lemma OpaqueDecodes(env: Env, items: seq<OpaqueData.Item>, left: seq<Byte>)
    requires OpaqueFits(env, items, left)
    ensures OpaqueSpec(env, OpaqueData.EncodeItems(items) + left) == Ok(OpaqueData.Claims(env.mode, env.lossy, items, map[]))
  {
    var s := OpaqueData.EncodeItems(items) + left;
    if items == [] && left == [] {
      assert s == [];
      NoOpaqueData(env);
    } else {
      NotEmpty(items, left);
      ItemsStand(env, items, left);
      hide OpaqueData.EncodeItems, OpaqueData.Claims, OpaqueData.KeyName, OpaqueData.ItemsSpec, OpaqueData.Stand,
           OpaqueData.AllDecode, OpaqueData.Fits, OpaqueData.DistinctKinds;
      OpaqueData.ItemsDecode(env.mode, env.lossy, s, 0, items, map[]);
    }
  }

  lemma NotEmpty(items: seq<OpaqueData.Item>, left: seq<Byte>)
    requires items != [] || left != []
    ensures OpaqueData.EncodeItems(items) + left != []
  {
    hide OpaqueData.EncodeItem;
  }

  /** Decoding inverts encoding through all layers: for every encodable response, followed by a signature and
      anything else, it gives the blocks and the claims of the items, and consumes 42 + L1 + L2 bytes and the
      signature. */
  lemma MessageDecode(env: Env, m: Message, signature: seq<Byte>, suffix: seq<Byte>)
    requires Encodable(env, m)
    ensures var w := EncodeUnsigned(WireOf(m));
            && |w| == 42 + |EncodeBlocks(m.blocks)| + |m.slack| + |OpaqueData.EncodeItems(m.items)| + |m.left|
            && ResponseSpec(env, w + signature + suffix, |signature|) ==
               Ok((Meaning(env, m, signature), |w| + |signature|))
  {
    hide Encodable, Meaning, ResponseSpec, EncodeUnsigned, Decodes, ResponseOf;
    var w := WireOf(m);
    MeaningOf(env, m, signature);
    var s := EncodeUnsigned(w) + signature + suffix;
    UnsignedIff(s, w);
    StartsWith(EncodeUnsigned(w) + signature, suffix);
    ResponseDecode(env, s, w, signature);
  }

  lemma StartsWith(a: seq<Byte>, b: seq<Byte>)
    ensures HasAt(a + b, 0, a)
  {
    assert (a + b)[0..|a|] == a;
  }

  lemma MeaningOf(env: Env, m: Message, signature: seq<Byte>)
    requires Encodable(env, m)
    ensures WellFormed(WireOf(m)) && Decodes(env, WireOf(m))
    ensures ResponseOf(env, WireOf(m), signature) == Meaning(env, m, signature)
  {
    hide RecordSpec, OpaqueSpec, EncodeBlocks, OpaqueData.EncodeItems, RecordFits, OpaqueFits, BlocksOf, OpaqueData.Claims;
    RecordDecodes(m.count, m.blocks, m.slack);
    OpaqueDecodes(env, m.items, m.left);
  }

  lemma RecordSound(count: Byte, record: seq<Byte>) returns (blocks: seq<WireBlock>, slack: seq<Byte>)
    requires RecordSpec(count, record).Ok?
    ensures RecordFits(count, blocks, slack)
    ensures record == EncodeBlocks(blocks) + slack
  {
    blocks, slack := [], record;
    if record != [] {
      blocks := BlocksSound(count, record, 0);
      hide EncodeBlocks, BlocksSpec;
      slack := record[|EncodeBlocks(blocks)|..];
      assert record == record[0..|EncodeBlocks(blocks)|] + slack;
      return;
    }
  }

  lemma OpaqueSound(env: Env, data: seq<Byte>) returns (items: seq<OpaqueData.Item>, left: seq<Byte>)
    requires OpaqueSpec(env, data).Ok?
    ensures data == OpaqueData.EncodeItems(items) + left && OpaqueFits(env, items, left)
  {
    items, left := [], data;
    if data != [] {
      hide OpaqueData.Claims, OpaqueData.KeyName, OpaqueData.ItemsSpec;
      items := OpaqueData.ItemsSound(env.mode, env.lossy, data, 0, map[]);
      hide OpaqueData.EncodeItems, OpaqueData.AllDecode, OpaqueData.Fits, OpaqueData.DistinctKinds;
      left := data[|OpaqueData.EncodeItems(items)|..];
      assert data == data[0..|OpaqueData.EncodeItems(items)|] + left;
      return;
    }
  }

  /** Whatever response decodes, with its blocks and items, is the encoding of such a response. */
  lemma MessageSound(env: Env, s: seq<Byte>, signatureLength: nat) returns (m: Message, signature: seq<Byte>, suffix: seq<Byte>)
    requires ResponseSpec(env, s, signatureLength).Ok?
    ensures Encodable(env, m) && |signature| == signatureLength
    ensures s == EncodeUnsigned(WireOf(m)) + signature + suffix
    ensures ResponseSpec(env, s, signatureLength).value ==
            (Meaning(env, m, signature), |EncodeUnsigned(WireOf(m))| + signatureLength)
  {
    hide ResponseSpec, RecordSpec, OpaqueSpec, EncodeUnsigned, EncodeBlocks, OpaqueData.EncodeItems, RecordFits, OpaqueFits;
    var size := ResponseSpec(env, s, signatureLength).value.1;
    var w := ResponseSound(env, s, signatureLength);
    var blocks, slack := RecordSound(w.numberOfBlocks, w.record);
    var items, left := OpaqueSound(env, w.opaqueData);
    m := Message(w.code, w.param1, w.param2, w.numberOfBlocks, blocks, slack, w.nonce, items, left);
    assert WireOf(m) == w;
    signature, suffix := s[size - signatureLength..size], s[size..];
    assert s == s[0..size] + suffix;
    MessageDecode(env, m, signature, suffix);
  }

  // ----- what the signature covers -----

  /** The bytes over which a report's signature is checked. */
  function SignedData(env: Env, s: seq<Byte>, signatureLength: nat): seq<Byte>
    requires ReportSpec(env, s, signatureLength).Ok?
  {
    s[..ReportSpec(env, s, signatureLength).value.1 - signatureLength]
  }

  function EncodeRequest(r: Request): seq<Byte> {
    [r.version, r.code, r.param1, r.param2] + (r.nonce + [r.slotIdParam])
  }

  /** The signed region is the request followed by everything of the response before the signature, and the
      signature is what stands right after it. */
  lemma SignedRegion(env: Env, s: seq<Byte>, signatureLength: nat) returns (w: WireResponse)
    requires ReportSpec(env, s, signatureLength).Ok?
    ensures WellFormed(w) && Decodes(env, w)
    ensures var (report, size) := ReportSpec(env, s, signatureLength).value;
            && size == REQUEST_SIZE + 42 + |w.record| + |w.opaqueData| + signatureLength
            && SignedData(env, s, signatureLength) == EncodeRequest(report.request) + EncodeUnsigned(w)
            && report.response == ResponseOf(env, w, s[size - signatureLength..size])
  {
    hide ResponseSpec, RecordSpec, OpaqueSpec, EncodeUnsigned;
    var (report, size) := ReportSpec(env, s, signatureLength).value;
    var rest := s[REQUEST_SIZE..];
    w := ResponseSound(env, rest, signatureLength);
    UnsignedIff(rest, w);
    var unsigned := EncodeUnsigned(w);
    var end := REQUEST_SIZE + |unsigned|;
    HasAtSplit(rest, 0, unsigned, rest[|unsigned|..|unsigned| + signatureLength]);
    assert s[..REQUEST_SIZE] == EncodeRequest(report.request);
    assert s[..end] == s[..REQUEST_SIZE] + rest[0..|unsigned|];
    assert rest[|unsigned|..|unsigned| + signatureLength] == s[end..end + signatureLength];
  }

  /** Nothing a report reports lies outside the signed bytes: another input with the same signed bytes and
      room for a signature decodes to the same report, up to the signature. */
  lemma SignedDataDetermines(env: Env, s: seq<Byte>, t: seq<Byte>, signatureLength: nat)
    requires ReportSpec(env, s, signatureLength).Ok?
    requires ReportSpec(env, s, signatureLength).value.1 <= |t|
    requires SignedData(env, s, signatureLength) <= t
    ensures var (report, size) := ReportSpec(env, s, signatureLength).value;
            var signature := t[size - signatureLength..size];
            ReportSpec(env, t, signatureLength) == Ok((report.(response := report.response.(signature := signature)), size))
  {
    hide ResponseSpec, RecordSpec, OpaqueSpec, EncodeUnsigned;
    var (report, size) := ReportSpec(env, s, signatureLength).value;
    var w := SignedRegion(env, s, signatureLength);
    var signature := t[size - signatureLength..size];
    var rest := t[REQUEST_SIZE..];
    assert t[..REQUEST_SIZE] == s[..REQUEST_SIZE] by {
      assert SignedData(env, s, signatureLength)[..REQUEST_SIZE] == s[..REQUEST_SIZE];
    }
    var unsigned := EncodeUnsigned(w);
    assert rest[0..|unsigned|] == unsigned by {
      assert (EncodeRequest(report.request) + unsigned)[REQUEST_SIZE..] == unsigned;
    }
    assert rest[|unsigned|..|unsigned| + signatureLength] == signature;
    HasAtSplit(rest, 0, unsigned, signature);
    ResponseDecode(env, rest, w, signature);
  }

  /** Accepting a report, with the checks of signature and certificate chain as given. */
  function TryNew(env: Env, s: seq<Byte>, signatureLength: nat, verify: (seq<Byte>, seq<Byte>) -> bool, chainOk: string -> bool,
                  expectedNonce: seq<Byte>): Outcome<Report, SpdmError> {
    var (report, size) :- ReportSpec(env, s, signatureLength);
    if !verify(s[..size - signatureLength], report.response.signature) then Err(BadSignature) else
    var fwid :- OrErr(if OpaqueData.KeyName(OpaqueData.Fwid) in report.response.opaqueData
                      then Some(report.response.opaqueData[OpaqueData.KeyName(OpaqueData.Fwid)]) else None, FwidMissing);
    if !fwid.Str? then Err(FwidMismatch)
    else if !chainOk(fwid.s) then Err(BadChain)
    else if report.request.nonce != expectedNonce then Err(NonceMismatch)
    else Ok(report)
  }

  /** An accepted report had every byte of its request and response, up to the signature, checked against the
      signature that follows them, and carries the expected nonce in the signed request. */
  lemma AcceptedReportIsSigned(env: Env, s: seq<Byte>, signatureLength: nat, verify: (seq<Byte>, seq<Byte>) -> bool,
                               chainOk: string -> bool, expectedNonce: seq<Byte>) returns (w: WireResponse)
    requires TryNew(env, s, signatureLength, verify, chainOk, expectedNonce).Ok?
    ensures WellFormed(w) && Decodes(env, w)
    ensures var report := TryNew(env, s, signatureLength, verify, chainOk, expectedNonce).value;
            && report.request.nonce == expectedNonce
            && report.response == ResponseOf(env, w, report.response.signature)
            && EncodeRequest(report.request) + EncodeUnsigned(w) + report.response.signature <= s
            && verify(EncodeRequest(report.request) + EncodeUnsigned(w), report.response.signature)
  {
    hide ReportSpec, RecordSpec, OpaqueSpec, EncodeUnsigned, OpaqueData.KeyName;
    var (report, size) := ReportSpec(env, s, signatureLength).value;
    w := SignedRegion(env, s, signatureLength);
    assert s[..size] == s[..size - signatureLength] + s[size - signatureLength..size];
  }
}
