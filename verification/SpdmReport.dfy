/** Which NVIDIA attestation reports are accepted, without reference to how they are decoded. */
module SpdmReport {
  import opened Wrappers
  import opened Bytes
  import opened Json
  import opened Text
  import OpaqueData
  import opened Spdm

  /** The input is a request and a response in all their layers, signed as one, for the expected nonce, with a firmware
      id whose digits the certificate chain vouches for. */
  ghost predicate Vouched(env: Env, s: seq<Byte>, signatureLength: nat, verify: (seq<Byte>, seq<Byte>) -> bool,
                          chainOk: string -> bool, expectedNonce: seq<Byte>, report: Report,
                          m: Message, suffix: seq<Byte>, fwid: OpaqueData.Item)
  {
    var request, signature := report.request, report.response.signature;
    && Encoded(env, s, signatureLength, report, m, suffix)
    && verify(EncodeRequest(request) + EncodeUnsigned(WireOf(m)), signature)
    && fwid in m.items && fwid.kind == OpaqueData.Fwid && chainOk(Hex(fwid.data))
    && request.nonce == expectedNonce
  }

  /** The input is the encoding of this report, and maybe more. */
  ghost predicate Encoded(env: Env, s: seq<Byte>, signatureLength: nat, report: Report, m: Message, suffix: seq<Byte>) {
    var request, signature := report.request, report.response.signature;
    && request.version == 0x11 && |request.nonce| == 32 && |signature| == signatureLength
    && Encodable(env, m) && report.response == Meaning(env, m, signature)
    && s == EncodeRequest(request) + (EncodeUnsigned(WireOf(m)) + signature + suffix)
  }

  lemma RequestIff(s: seq<Byte>, r: Request)
    requires |s| == REQUEST_SIZE
    ensures RequestSpec(s) == Ok((r, REQUEST_SIZE)) <==> r.version == 0x11 && |r.nonce| == 32 && s == EncodeRequest(r)
  {
    if RequestSpec(s) == Ok((r, REQUEST_SIZE)) {
      assert s == s[..4] + (s[4..36] + s[36..]);
    }
    if |r.nonce| == 32 && s == EncodeRequest(r) {
      assert s[4..36] == r.nonce;
    }
  }

  lemma Parts(head: seq<Byte>, unsigned: seq<Byte>, signature: seq<Byte>, suffix: seq<Byte>)
    ensures var s := head + (unsigned + signature + suffix);
            && s[..|head| + |unsigned|] == head + unsigned && s[..|head|] == head
            && s[|head|..] == unsigned + signature + suffix
  {
  }

  lemma RequestSize(s: seq<Byte>)
    ensures RequestSpec(s).Ok? ==> RequestSpec(s).value.1 == REQUEST_SIZE
  {
  }

  /** Decoding a report finds its encoding. */
  lemma ReportSound(env: Env, s: seq<Byte>, signatureLength: nat) returns (m: Message, suffix: seq<Byte>)
    requires ReportSpec(env, s, signatureLength).Ok?
    ensures var (report, size) := ReportSpec(env, s, signatureLength).value;
            && Encoded(env, s, signatureLength, report, m, suffix)
            && s[..size - signatureLength] == EncodeRequest(report.request) + EncodeUnsigned(WireOf(m))
  {
    hide ResponseSpec, RequestSpec, Encodable, EncodeUnsigned, EncodeRequest, WireOf, Meaning;
    var (report, size) := ReportSpec(env, s, signatureLength).value;
    var head, rest := s[..REQUEST_SIZE], s[REQUEST_SIZE..];
    RequestSize(head);
    RequestIff(head, report.request);
    var signature;
    m, signature, suffix := MessageSound(env, rest, signatureLength);
    SignatureOf(env, m, signature);
    assert s == head + rest;
    Parts(head, EncodeUnsigned(WireOf(m)), signature, suffix);
  }

  lemma SignatureOf(env: Env, m: Message, signature: seq<Byte>)
    requires Encodable(env, m)
    ensures Meaning(env, m, signature).signature == signature
  {
    hide Encodable, BlocksOf, EncodeBlocks, OpaqueData.EncodeItems, OpaqueData.Claims;
  }

  /** An encoded report is decoded. */
  lemma ReportDecode(env: Env, s: seq<Byte>, signatureLength: nat, report: Report, m: Message, suffix: seq<Byte>)
    requires Encoded(env, s, signatureLength, report, m, suffix)
    ensures ReportSpec(env, s, signatureLength).Ok? && ReportSpec(env, s, signatureLength).value.0 == report
    ensures var size := ReportSpec(env, s, signatureLength).value.1;
            s[..size - signatureLength] == EncodeRequest(report.request) + EncodeUnsigned(WireOf(m))
  {
    var head, signature := EncodeRequest(report.request), report.response.signature;
    assert |head| == REQUEST_SIZE;
    hide ResponseSpec, RequestSpec, Encodable, EncodeUnsigned, EncodeRequest, WireOf, Meaning;
    Parts(head, EncodeUnsigned(WireOf(m)), signature, suffix);
    RequestIff(head, report.request);
    MessageDecode(env, m, signature, suffix);
  }

  /** The claims of the response. */
  function ClaimsOf(report: Report): map<string, Json> {
    report.response.opaqueData
  }

  lemma FwidMeans(env: Env, items: seq<OpaqueData.Item>)
    requires OpaqueData.AllDecode(env.mode, env.lossy, items) && OpaqueData.DistinctKinds(items)
    ensures var claims, key := OpaqueData.Claims(env.mode, env.lossy, items, map[]), OpaqueData.KeyName(OpaqueData.Fwid);
            && claims.Keys == OpaqueData.Keys(items)
            && (forall i :: i in items && i.kind == OpaqueData.Fwid ==>
                  key in claims && claims[key].Str? && ShowsBytes(claims[key].s, i.data))
  {
    assert OpaqueData.NewKinds(items, map[]);
    OpaqueData.ClaimsMean(env.mode, env.lossy, items, map[]);
    hide OpaqueData.Claims, OpaqueData.KeyName, OpaqueData.AllDecode, OpaqueData.DistinctKinds, OpaqueData.Keys, ShowsBytes;
    var claims: map<string, Json> := OpaqueData.Claims(env.mode, env.lossy, items, map[]);
    var nothing: map<string, Json> := map[];
    assert claims.Keys == nothing.Keys + OpaqueData.Keys(items) == OpaqueData.Keys(items);
  }

  /** The firmware id among the claims is the digits of its item's data. */
  lemma FwidIff(env: Env, items: seq<OpaqueData.Item>)
    requires OpaqueData.AllDecode(env.mode, env.lossy, items) && OpaqueData.DistinctKinds(items)
    ensures var claims, key := OpaqueData.Claims(env.mode, env.lossy, items, map[]), OpaqueData.KeyName(OpaqueData.Fwid);
            && (key in claims <==> exists i :: i in items && i.kind == OpaqueData.Fwid)
            && (forall i :: i in items && i.kind == OpaqueData.Fwid ==> key in claims && claims[key] == Str(Hex(i.data)))
  {
    FwidMeans(env, items);
    hide OpaqueData.Claims, OpaqueData.KeyName, OpaqueData.AllDecode, OpaqueData.DistinctKinds, ShowsBytes, Hex;
    var claims, key := OpaqueData.Claims(env.mode, env.lossy, items, map[]), OpaqueData.KeyName(OpaqueData.Fwid);
    if key in claims {
      var i :| i in items && OpaqueData.KeyName(i.kind) == key;
      OpaqueData.KeysDistinct(i.kind, OpaqueData.Fwid);
    }
    forall i | i in items && i.kind == OpaqueData.Fwid
      ensures claims[key] == Str(Hex(i.data))
    {
      HexShows(i.data);
      ShowsOnly(claims[key].s, Hex(i.data), i.data);
    }
  }

  lemma ReportFwid(env: Env, report: Report, m: Message)
    requires Encodable(env, m) && report.response == Meaning(env, m, report.response.signature)
    ensures OpaqueData.AllDecode(env.mode, env.lossy, m.items) && OpaqueData.DistinctKinds(m.items)
    ensures report.response.opaqueData == OpaqueData.Claims(env.mode, env.lossy, m.items, map[])
  {
    hide OpaqueData.Claims, OpaqueData.KeyName, OpaqueData.AllDecode, BlocksOf, EncodeBlocks, OpaqueData.EncodeItems;
  }

  /** What is checked of a decoded report. */
  lemma TryNewIff(env: Env, s: seq<Byte>, signatureLength: nat, verify: (seq<Byte>, seq<Byte>) -> bool,
                  chainOk: string -> bool, expectedNonce: seq<Byte>, report: Report)
    ensures var key := OpaqueData.KeyName(OpaqueData.Fwid);
            TryNew(env, s, signatureLength, verify, chainOk, expectedNonce) == Ok(report) <==>
            && ReportSpec(env, s, signatureLength).Ok? && ReportSpec(env, s, signatureLength).value.0 == report
            && verify(s[..ReportSpec(env, s, signatureLength).value.1 - signatureLength], report.response.signature)
            && key in ClaimsOf(report) && ClaimsOf(report)[key].Str? && chainOk(ClaimsOf(report)[key].s)
            && report.request.nonce == expectedNonce
  {
    hide ReportSpec, OpaqueData.KeyName;
  }

  /** A report is accepted if and only if it is the encoding of a request and a response, with its blocks and items,
      that the signature covers up to itself, for the expected nonce, and whose firmware id the chain vouches for. */
  lemma AcceptedIff(env: Env, s: seq<Byte>, signatureLength: nat, verify: (seq<Byte>, seq<Byte>) -> bool,
                    chainOk: string -> bool, expectedNonce: seq<Byte>, report: Report)
    ensures TryNew(env, s, signatureLength, verify, chainOk, expectedNonce) == Ok(report) <==>
            exists m, suffix, fwid ::
              Vouched(env, s, signatureLength, verify, chainOk, expectedNonce, report, m, suffix, fwid)
  {
    hide TryNew, ReportSpec, OpaqueData.KeyName, Encodable, EncodeUnsigned, EncodeRequest, WireOf, Meaning, Hex,
         OpaqueData.Claims, OpaqueData.AllDecode, OpaqueData.DistinctKinds;
    TryNewIff(env, s, signatureLength, verify, chainOk, expectedNonce, report);
    if TryNew(env, s, signatureLength, verify, chainOk, expectedNonce) == Ok(report) {
      var m, suffix := ReportSound(env, s, signatureLength);
      ReportFwid(env, report, m);
      FwidIff(env, m.items);
      var fwid :| fwid in m.items && fwid.kind == OpaqueData.Fwid;
      assert Vouched(env, s, signatureLength, verify, chainOk, expectedNonce, report, m, suffix, fwid);
    }
    if m, suffix, fwid :| Vouched(env, s, signatureLength, verify, chainOk, expectedNonce, report, m, suffix, fwid) {
      ReportDecode(env, s, signatureLength, report, m, suffix);
      ReportFwid(env, report, m);
      FwidIff(env, m.items);
    }
  }
}
