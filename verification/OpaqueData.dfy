/** The opaque data of an NVIDIA measurement response: typed items of two-byte type, two-byte size and data. */
module OpaqueData {
  import opened Wrappers
  import opened Bytes
  import opened Text
  import opened Json

  datatype OpaqueType =
    | CertIssuerName
    | CertAuthorityKeyIdentifier
    | DriverVersion
    | GpuInfo
    | IdSku
    | VbiosVersion
    | ManufacturerId
    | TamperDetection
    | Smc
    | Vpr
    | Nvdec0Status
    | MsrsCnt
    | CprInfo
    | BoardId
    | ChipSku
    | ChipSkuMod
    | Project
    | ProjectSku
    | ProjectSkuMod
    | Fwid
    | ProtectedPcieStatus
    | SwitchPdi
    | FloorsweptPorts
    | PositionId
    | LockSwitchStatus
    | GpuLinkConn

  function TypeCode(t: OpaqueType): (n: nat)
    ensures 0 < n <= 32
  {
    match t
    case CertIssuerName => 1
    case CertAuthorityKeyIdentifier => 2
    case DriverVersion => 3
    case GpuInfo => 4
    case IdSku => 5
    case VbiosVersion => 6
    case ManufacturerId => 7
    case TamperDetection => 8
    case Smc => 9
    case Vpr => 10
    case Nvdec0Status => 11
    case MsrsCnt => 12
    case CprInfo => 13
    case BoardId => 14
    case ChipSku => 15
    case ChipSkuMod => 16
    case Project => 17
    case ProjectSku => 18
    case ProjectSkuMod => 19
    case Fwid => 20
    case ProtectedPcieStatus => 21
    case SwitchPdi => 22
    case FloorsweptPorts => 23
    case PositionId => 24
    case LockSwitchStatus => 25
    case GpuLinkConn => 32
  }

  function TypeFromCode(n: nat): Option<OpaqueType> {
    match n
    case 1 => Some(CertIssuerName)
    case 2 => Some(CertAuthorityKeyIdentifier)
    case 3 => Some(DriverVersion)
    case 4 => Some(GpuInfo)
    case 5 => Some(IdSku)
    case 6 => Some(VbiosVersion)
    case 7 => Some(ManufacturerId)
    case 8 => Some(TamperDetection)
    case 9 => Some(Smc)
    case 10 => Some(Vpr)
    case 11 => Some(Nvdec0Status)
    case 12 => Some(MsrsCnt)
    case 13 => Some(CprInfo)
    case 14 => Some(BoardId)
    case 15 => Some(ChipSku)
    case 16 => Some(ChipSkuMod)
    case 17 => Some(Project)
    case 18 => Some(ProjectSku)
    case 19 => Some(ProjectSkuMod)
    case 20 => Some(Fwid)
    case 21 => Some(ProtectedPcieStatus)
    case 22 => Some(SwitchPdi)
    case 23 => Some(FloorsweptPorts)
    case 24 => Some(PositionId)
    case 25 => Some(LockSwitchStatus)
    case 32 => Some(GpuLinkConn)
    case _ => None
  }

  lemma TypeCodes(n: nat, t: OpaqueType)
    ensures TypeFromCode(n) == Some(t) <==> TypeCode(t) == n
  {
  }

  /** The key of an item in the claims. */
  function KeyName(t: OpaqueType): string {
    match t
    case CertIssuerName => "cert_issuer_name"
    case CertAuthorityKeyIdentifier => "cert_authority_key_identifier"
    case DriverVersion => "driver_version"
    case GpuInfo => "gpu_info"
    case IdSku => "id_sku"
    case VbiosVersion => "vbios_version"
    case ManufacturerId => "manufacturer_id"
    case TamperDetection => "tamper_detection"
    case Smc => "smc"
    case Vpr => "vpr"
    case Nvdec0Status => "nvdec0_status"
    case MsrsCnt => "measurement_count"
    case CprInfo => "cpr_info"
    case BoardId => "board_id"
    case ChipSku => "chip_sku"
    case ChipSkuMod => "chip_sku_mod"
    case Project => "project"
    case ProjectSku => "project_sku"
    case ProjectSkuMod => "project_sku_mod"
    case Fwid => "fwid"
    case ProtectedPcieStatus => "protected_pcie_status"
    case SwitchPdi => "switch_pdi"
    case FloorsweptPorts => "floorswept_ports"
    case PositionId => "position_id"
    case LockSwitchStatus => "lock_switch_status"
    case GpuLinkConn => "gpu_link_conn"
  }

  /** Length and first two letters tell the keys apart. */
  lemma KeysDistinct(s: OpaqueType, t: OpaqueType)
    requires KeyName(s) == KeyName(t)
    ensures s == t
  {
    var a, b := KeyName(s), KeyName(t);
    assert |a| == |b| && a[0] == b[0] && a[1] == b[1];
  }

  datatype OpaqueError =
    | InvalidType(code: nat) | ItemOverflow | InvalidVbios | NotMultiple(size: nat) | Duplicated(key: string) | MissingVersions

  /** Converting bytes to text, replacing what is not UTF-8; not modelled. */
  type Lossy = seq<Byte> -> string

  // ----- item values -----

  function TrimNul(s: string): string {
    if s != [] && s[|s| - 1] == '\0' then TrimNul(s[..|s| - 1]) else s
  }

  /** Hexadecimal bytes in reverse order, separated by dots. */
  function DottedReverse(s: seq<Byte>): string {
    if s == [] then [] else if |s| == 1 then Hex(s) else DottedReverse(s[1..]) + "." + Hex([s[0]])
  }

  function FormatVbios(s: seq<Byte>): Option<string> {
    if s == [] then None else Some(DottedReverse(s[..|s| / 2]) + "." + Hex([s[|s| / 2]]))
  }

  /** The number of each four-byte chunk from `at` on, under the decimal text of an eight-bit counter. */
  function CountsSpec(mode: OverflowMode, s: seq<Byte>, at: nat, index: Byte, acc: map<string, Json>): Outcome<Json, OpaqueError>
    requires at <= |s| && (|s| - at) % 4 == 0
    decreases |s| - at
  {
    if at == |s| then Ok(Obj(acc)) else
    var acc' := acc[Dec(index) := Num(FromLE(s[at..at + 4]))];
    if index < 255 then CountsSpec(mode, s, at + 4, index + 1, acc')
    else if mode.Panics? then Abort
    else CountsSpec(mode, s, at + 4, 0, acc')
  }

  function SwitchPdis(s: seq<Byte>): seq<Json>
    requires |s| % 8 == 0
  {
    if s == [] then [] else [Str(Hex(s[..8]))] + SwitchPdis(s[8..])
  }

  function ItemValue(mode: OverflowMode, lossy: Lossy, t: OpaqueType, s: seq<Byte>): Outcome<Json, OpaqueError> {
    match t
    case DriverVersion | ChipSku | ChipSkuMod | Nvdec0Status | Project | ProjectSku | ProtectedPcieStatus =>
      Ok(Str(TrimNul(lossy(s))))
    case VbiosVersion =>
      var v :- OrErr(FormatVbios(s), InvalidVbios);
      Ok(Str(v))
    case MsrsCnt => if |s| % 4 != 0 then Err(NotMultiple(4)) else CountsSpec(mode, s, 0, 1, map[])
    case SwitchPdi => if |s| % 8 != 0 then Err(NotMultiple(8)) else Ok(Arr(SwitchPdis(s)))
    case _ => Ok(Str(Hex(s)))
  }

  // ----- the item list -----

  datatype Item = Item(kind: OpaqueType, data: seq<Byte>)

  function ItemAt(s: seq<Byte>, at: nat): (r: Outcome<(Item, nat), OpaqueError>)
    requires at + 4 < |s|
    ensures r.Ok? ==> at + 4 <= r.value.1 <= |s|
  {
    var code := FromLE(s[at..at + 2]);
    var kind :- OrErr(TypeFromCode(code), InvalidType(code));
    var size := FromLE(s[at + 2..at + 4]);
    if at + 4 + size > |s| then Err(ItemOverflow) else Ok((Item(kind, s[at + 4..at + 4 + size]), at + 4 + size))
  }

  /** Read items while more than an item header is left, rejecting a repeated key. */
  function ItemsSpec(mode: OverflowMode, lossy: Lossy, s: seq<Byte>, at: nat, acc: map<string, Json>): Outcome<map<string, Json>, OpaqueError>
    decreases |s| - at
  {
    if at + 4 >= |s| then Ok(acc) else
    var (item, next) :- ItemAt(s, at);
    var value :- ItemValue(mode, lossy, item.kind, item.data);
    var key := KeyName(item.kind);
    if key in acc then Err(Duplicated(key)) else ItemsSpec(mode, lossy, s, next, acc[key := value])
  }

  function DecodeSpec(mode: OverflowMode, lossy: Lossy, s: seq<Byte>): Outcome<map<string, Json>, OpaqueError> {
    if s == [] then Ok(map[]) else
    var m :- ItemsSpec(mode, lossy, s, 0, map[]);
    if KeyName(VbiosVersion) !in m || KeyName(DriverVersion) !in m then Err(MissingVersions) else Ok(m)
  }

  method DecodeMeasurementCount(mode: OverflowMode, s: seq<Byte>) returns (r: Outcome<Json, OpaqueError>)
    ensures |s| % 4 != 0 ==> r == Err(NotMultiple(4))
    ensures |s| % 4 == 0 ==> r == CountsSpec(mode, s, 0, 1, map[])
  {
    if |s| % 4 != 0 {
      return Err(NotMultiple(4));
    }
    hide Dec, FromLE, CountsSpec;
    var values: map<string, Json> := map[];
    var index: Byte := 1;
    var at := 0;
    while at < |s|
      invariant at <= |s| && (|s| - at) % 4 == 0
      invariant CountsSpec(mode, s, 0, 1, map[]) == CountsSpec(mode, s, at, index, values)
    {
      if index == 255 && mode.Panics? {
        CountsPanic(s, at, values);
        return Abort;
      }
      CountsStep(mode, s, at, index, values);
      values := values[Dec(index) := Num(FromLE(s[at..at + 4]))];
      index := (index + 1) % 256;
      at := at + 4;
    }
    CountsDone(mode, s, index, values);
    return Ok(Obj(values));
  }

  method Decode(mode: OverflowMode, lossy: Lossy, s: seq<Byte>) returns (r: Outcome<map<string, Json>, OpaqueError>)
    ensures r == DecodeSpec(mode, lossy, s)
  {
    hide ItemAt, KeyName, CountsSpec;
    var found: map<string, Json> := map[];
    if |s| == 0 {
      return Ok(found);
    }
    var offset := 0;
    while offset + 4 < |s|
      invariant 0 <= offset <= |s|
      invariant ItemsSpec(mode, lossy, s, 0, map[]) == ItemsSpec(mode, lossy, s, offset, found)
      decreases |s| - offset
    {
      var cut :- ItemAt(s, offset);
      var item := cut.0;
      offset := cut.1;
      var value;
      if item.kind.MsrsCnt? {
        value :- DecodeMeasurementCount(mode, item.data);
      } else {
        value :- ItemValue(mode, lossy, item.kind, item.data);
      }
      var key := KeyName(item.kind);
      if key in found {
        return Err(Duplicated(key));
      }
      found := found[key := value];
    }
    if KeyName(VbiosVersion) !in found || KeyName(DriverVersion) !in found {
      return Err(MissingVersions);
    }
    return Ok(found);
  }

  // ----- what is accepted -----

  function EncodeItem(i: Item): seq<Byte> {
    ToLE(TypeCode(i.kind), 2) + (ToLE(|i.data|, 2) + i.data)
  }

  function EncodeItems(items: seq<Item>): (s: seq<Byte>)
    ensures |s| >= 4 * |items|
  {
    if items == [] then [] else EncodeItem(items[0]) + EncodeItems(items[1..])
  }

  predicate Fits(items: seq<Item>) {
    forall i :: 0 <= i < |items| ==> |items[i].data| < 0x1_0000
  }

  predicate DistinctKinds(items: seq<Item>) {
    forall i, j :: 0 <= i < j < |items| ==> items[i].kind != items[j].kind
  }

  predicate AllDecode(mode: OverflowMode, lossy: Lossy, items: seq<Item>) {
    forall i :: 0 <= i < |items| ==> ItemValue(mode, lossy, items[i].kind, items[i].data).Ok?
  }

  /** The items are all read and nothing after them is: at most an item header is left, and the last item
      is not just a header at the very end. */
  predicate ReadExactly(items: seq<Item>, left: nat) {
    left <= 4 && (items == [] || |items[|items| - 1].data| + left > 0)
  }

  function Claim(mode: OverflowMode, lossy: Lossy, item: Item, acc: map<string, Json>): map<string, Json>
    requires ItemValue(mode, lossy, item.kind, item.data).Ok?
  {
    acc[KeyName(item.kind) := ItemValue(mode, lossy, item.kind, item.data).value]
  }

  /** The claims of a list of items, the first item inserted first. */
  function Claims(mode: OverflowMode, lossy: Lossy, items: seq<Item>, acc: map<string, Json>): map<string, Json>
    requires AllDecode(mode, lossy, items)
  {
    if items == [] then acc
    else Claims(mode, lossy, items[1..], Claim(mode, lossy, items[0], acc))
  }

  predicate NewKinds(items: seq<Item>, acc: map<string, Json>) {
    forall i :: 0 <= i < |items| ==> KeyName(items[i].kind) !in acc
  }

  lemma ItemIff(s: seq<Byte>, at: nat, item: Item, next: nat)
    requires at + 4 < |s|
    ensures ItemAt(s, at) == Ok((item, next)) <==>
            |item.data| < 0x1_0000 && HasAt(s, at, EncodeItem(item)) && next == at + 4 + |item.data|
  {
    hide FromLE, ToLE, Pow256, TypeFromCode, TypeCode;
    var code, size := TypeCode(item.kind), |item.data|;
    Widths();
    TypeCodes(FromLE(s[at..at + 2]), item.kind);
    ReadIffHas(s, at, 2, code);
    ReadIffHas(s, at + 2, 2, size);
    HasAtSplit(s, at, ToLE(code, 2), ToLE(size, 2) + item.data);
    HasAtSplit(s, at + 2, ToLE(size, 2), item.data);
  }

  /** The items stand at `at`, are what is read from there on, decode, and repeat no key already claimed. */
  ghost predicate Stand(mode: OverflowMode, lossy: Lossy, s: seq<Byte>, at: nat, items: seq<Item>, acc: map<string, Json>) {
    && HasAt(s, at, EncodeItems(items)) && ReadExactly(items, |s| - at - |EncodeItems(items)|)
    && Fits(items) && DistinctKinds(items) && AllDecode(mode, lossy, items) && NewKinds(items, acc)
  }

  /** The first item is read here and claimed for the first time. */
  ghost predicate Next(mode: OverflowMode, lossy: Lossy, s: seq<Byte>, at: nat, item: Item, acc: map<string, Json>) {
    && at + 4 < |s| && ItemAt(s, at) == Ok((item, at + 4 + |item.data|))
    && ItemValue(mode, lossy, item.kind, item.data).Ok? && KeyName(item.kind) !in acc
  }

  lemma ItemsStep(mode: OverflowMode, lossy: Lossy, s: seq<Byte>, at: nat, item: Item, acc: map<string, Json>)
    requires Next(mode, lossy, s, at, item, acc)
    ensures ItemsSpec(mode, lossy, s, at, acc) == ItemsSpec(mode, lossy, s, at + 4 + |item.data|, Claim(mode, lossy, item, acc))
  {
    hide ItemAt, ItemValue, KeyName;
  }

  /** A list stands here exactly when its first item is next and the others stand after it. */
  lemma StandIff(mode: OverflowMode, lossy: Lossy, s: seq<Byte>, at: nat, item: Item, rest: seq<Item>, acc: map<string, Json>)
    ensures Stand(mode, lossy, s, at, [item] + rest, acc) <==>
            && Next(mode, lossy, s, at, item, acc)
            && Stand(mode, lossy, s, at + 4 + |item.data|, rest, Claim(mode, lossy, item, acc))
  {
    hide EncodeItem, HasAt, ItemAt, ItemValue, KeyName;
    var items := [item] + rest;
    assert items[0] == item && items[1..] == rest;
    ItemLength(item);
    HasAtSplit(s, at, EncodeItem(item), EncodeItems(rest));
    HasAtLength(s, at, EncodeItems(items));
    if at + 4 < |s| {
      ItemIff(s, at, item, at + 4 + |item.data|);
    }
    ListIff(mode, lossy, item, rest);
    if ItemValue(mode, lossy, item.kind, item.data).Ok? {
      KindsIff(item, rest, acc, ItemValue(mode, lossy, item.kind, item.data).value);
    }
    hide EncodeItems, Fits, AllDecode, DistinctKinds, NewKinds;
    if HasAt(s, at + 4 + |item.data|, EncodeItems(rest)) {
      HasAtLength(s, at + 4 + |item.data|, EncodeItems(rest));
    }
  }

  lemma HasAtLength(s: seq<Byte>, at: nat, t: seq<Byte>)
    ensures HasAt(s, at, t) ==> at + |t| <= |s|
  {
  }

  lemma ItemLength(item: Item)
    ensures |EncodeItem(item)| == 4 + |item.data|
  {
  }

  lemma ListIff(mode: OverflowMode, lossy: Lossy, item: Item, rest: seq<Item>)
    ensures Fits([item] + rest) <==> |item.data| < 0x1_0000 && Fits(rest)
    ensures AllDecode(mode, lossy, [item] + rest) <==>
            ItemValue(mode, lossy, item.kind, item.data).Ok? && AllDecode(mode, lossy, rest)
  {
    hide ItemValue;
    var items := [item] + rest;
    assert items[0] == item && items[1..] == rest;
  }

  lemma KindsIff(item: Item, rest: seq<Item>, acc: map<string, Json>, v: Json)
    ensures DistinctKinds([item] + rest) && NewKinds([item] + rest, acc) <==>
            KeyName(item.kind) !in acc && DistinctKinds(rest) && NewKinds(rest, acc[KeyName(item.kind) := v])
  {
    hide KeyName;
    var items := [item] + rest;
    assert items[0] == item && items[1..] == rest;
    forall i | 0 <= i < |rest|
      ensures KeyName(rest[i].kind) == KeyName(item.kind) <==> rest[i].kind == item.kind
    {
      if KeyName(rest[i].kind) == KeyName(item.kind) {
        KeysDistinct(rest[i].kind, item.kind);
      }
    }
  }

  lemma ClaimsStep(mode: OverflowMode, lossy: Lossy, items: seq<Item>, acc: map<string, Json>)
    requires items != [] && AllDecode(mode, lossy, items)
    ensures Claims(mode, lossy, items, acc) == Claims(mode, lossy, items[1..], Claim(mode, lossy, items[0], acc))
  {
    hide ItemValue, KeyName;
  }

  lemma {:induction false} ItemsDecode(mode: OverflowMode, lossy: Lossy, s: seq<Byte>, at: nat, items: seq<Item>, acc: map<string, Json>)
    requires Stand(mode, lossy, s, at, items, acc)
    ensures ItemsSpec(mode, lossy, s, at, acc) == Ok(Claims(mode, lossy, items, acc))
    decreases |items|
  {
    hide *;
    if items == [] {
      StandNil(mode, lossy, s, at, acc);
      return;
    }
    var item, rest := items[0], items[1..];
    assert items == [item] + rest;
    StandDecodes(mode, lossy, s, at, items, acc);
    StandIff(mode, lossy, s, at, item, rest, acc);
    NextDecodes(mode, lossy, s, at, item, acc);
    ClaimsStep(mode, lossy, items, acc);
    ItemsStep(mode, lossy, s, at, item, acc);
    ItemsDecode(mode, lossy, s, at + 4 + |item.data|, rest, Claim(mode, lossy, item, acc));
  }

  lemma StandNil(mode: OverflowMode, lossy: Lossy, s: seq<Byte>, at: nat, acc: map<string, Json>)
    requires Stand(mode, lossy, s, at, [], acc)
    ensures ItemsSpec(mode, lossy, s, at, acc) == Ok(Claims(mode, lossy, [], acc))
  {
    hide ItemAt, ItemValue, KeyName;
  }

  lemma StandDecodes(mode: OverflowMode, lossy: Lossy, s: seq<Byte>, at: nat, items: seq<Item>, acc: map<string, Json>)
    requires Stand(mode, lossy, s, at, items, acc)
    ensures AllDecode(mode, lossy, items)
  {
    hide AllDecode;
  }

  lemma NextDecodes(mode: OverflowMode, lossy: Lossy, s: seq<Byte>, at: nat, item: Item, acc: map<string, Json>)
    requires Next(mode, lossy, s, at, item, acc)
    ensures ItemValue(mode, lossy, item.kind, item.data).Ok?
  {
    hide ItemValue;
  }

  lemma {:induction false} ItemsSound(mode: OverflowMode, lossy: Lossy, s: seq<Byte>, at: nat, acc: map<string, Json>) returns (items: seq<Item>)
    requires at <= |s| && ItemsSpec(mode, lossy, s, at, acc).Ok?
    ensures Stand(mode, lossy, s, at, items, acc)
    ensures ItemsSpec(mode, lossy, s, at, acc).value == Claims(mode, lossy, items, acc)
    decreases |s| - at
  {
    hide Stand, ItemsSpec, ItemAt, ItemValue, KeyName;
    items := [];
    if at + 4 < |s| {
      NextHolds(mode, lossy, s, at, acc);
      var item := ItemAt(s, at).value.0;
      ItemsStep(mode, lossy, s, at, item, acc);
      var rest := ItemsSound(mode, lossy, s, at + 4 + |item.data|, Claim(mode, lossy, item, acc));
      items := [item] + rest;
      assert items[1..] == rest;
      StandIff(mode, lossy, s, at, item, rest, acc);
    } else {
      StandEmpty(mode, lossy, s, at, acc);
    }
  }

  lemma StandEmpty(mode: OverflowMode, lossy: Lossy, s: seq<Byte>, at: nat, acc: map<string, Json>)
    requires at <= |s| <= at + 4
    ensures Stand(mode, lossy, s, at, [], acc) && ItemsSpec(mode, lossy, s, at, acc) == Ok(acc)
  {
  }

  lemma NextHolds(mode: OverflowMode, lossy: Lossy, s: seq<Byte>, at: nat, acc: map<string, Json>)
    requires at + 4 < |s| && ItemsSpec(mode, lossy, s, at, acc).Ok?
    ensures ItemAt(s, at).Ok? && Next(mode, lossy, s, at, ItemAt(s, at).value.0, acc)
  {
    hide ItemAt, ItemValue, KeyName;
    ItemAtEnd(s, at);
  }

  lemma ItemAtEnd(s: seq<Byte>, at: nat)
    requires at + 4 < |s| && ItemAt(s, at).Ok?
    ensures var (item, next) := ItemAt(s, at).value; next == at + 4 + |item.data|
  {
  }

  function Keys(items: seq<Item>): set<string> {
    set i | i in items :: KeyName(i.kind)
  }

  /** The claims hold, for every item, under its own key what its data mean, and no other key. */
  lemma {:induction false} ClaimsMean(mode: OverflowMode, lossy: Lossy, items: seq<Item>, acc: map<string, Json>)
    requires AllDecode(mode, lossy, items) && DistinctKinds(items) && NewKinds(items, acc)
    ensures var m := Claims(mode, lossy, items, acc);
            && m.Keys == acc.Keys + Keys(items)
            && (forall k :: k in acc ==> k in m && m[k] == acc[k])
            && (forall i :: i in items ==> KeyName(i.kind) in m && Means(lossy, i.kind, i.data, m[KeyName(i.kind)]))
  {
    hide KeyName, ItemValue, AllDecode, DistinctKinds, Means;
    if items != [] {
      hide Keys, Claims;
      var item, rest := items[0], items[1..];
      assert items == [item] + rest;
      ListIff(mode, lossy, item, rest);
      KindsIff(item, rest, acc, ItemValue(mode, lossy, item.kind, item.data).value);
      ClaimsStep(mode, lossy, items, acc);
      ClaimsMean(mode, lossy, rest, Claim(mode, lossy, item, acc));
      ItemValueMeans(mode, lossy, item.kind, item.data);
      KeysStep(items);
      return;
    }
  }

  lemma KeysStep(items: seq<Item>)
    requires items != []
    ensures Keys(items) == {KeyName(items[0].kind)} + Keys(items[1..])
    ensures forall i :: i in items <==> i == items[0] || i in items[1..]
  {
    hide KeyName;
    assert items == [items[0]] + items[1..];
  }

  ghost predicate Accepts(mode: OverflowMode, lossy: Lossy, s: seq<Byte>, items: seq<Item>, m: map<string, Json>) {
    && Stand(mode, lossy, s, 0, items, map[])
    && m == Claims(mode, lossy, items, map[])
    && KeyName(VbiosVersion) in m && KeyName(DriverVersion) in m
  }

  /** Non-empty opaque data yields claims exactly when it is a list of items of pairwise distinct known types
      that fit, decode by type and include both versions, followed by at most an item header. */
  lemma DecodeIff(mode: OverflowMode, lossy: Lossy, s: seq<Byte>, m: map<string, Json>)
    requires s != []
    ensures DecodeSpec(mode, lossy, s) == Ok(m) <==> exists items :: Accepts(mode, lossy, s, items, m)
  {
    hide ItemsSpec, KeyName, Claims, EncodeItems, DistinctKinds, Fits, ReadExactly, ItemValue;
    if DecodeSpec(mode, lossy, s) == Ok(m) {
      var items := ItemsSound(mode, lossy, s, 0, map[]);
      assert Accepts(mode, lossy, s, items, m);
    }
    forall items | Accepts(mode, lossy, s, items, m)
      ensures DecodeSpec(mode, lossy, s) == Ok(m)
    {
      ItemsDecode(mode, lossy, s, 0, items, map[]);
    }
  }

  /** The items of a list that are read back from its encoding: all but a last one without data. */
  function ReadBack(items: seq<Item>): (init: seq<Item>)
    ensures init <= items
  {
    if items != [] && items[|items| - 1].data == [] then items[..|items| - 1] else items
  }

  lemma {:induction false} EncodeItemsLast(items: seq<Item>)
    requires items != []
    ensures EncodeItems(items) == EncodeItems(items[..|items| - 1]) + EncodeItem(items[|items| - 1])
  {
    hide EncodeItem;
    if |items| > 1 {
      var rest := items[1..];
      EncodeItemsLast(rest);
      assert items[..|items| - 1][1..] == rest[..|rest| - 1];
    }
  }

  lemma EncodedStand(mode: OverflowMode, lossy: Lossy, items: seq<Item>)
    requires Fits(items) && DistinctKinds(items) && AllDecode(mode, lossy, ReadBack(items))
    ensures Stand(mode, lossy, EncodeItems(items), 0, ReadBack(items), map[])
  {
    hide ItemValue, KeyName;
    var init := ReadBack(items);
    if init != items {
      EncodeItemsLast(items);
      ItemLength(items[|items| - 1]);
    }
    hide EncodeItems, EncodeItem;
    assert EncodeItems(items)[0..|EncodeItems(init)|] == EncodeItems(init);
  }

  /** Decoding an encoded list gives the claims of its items, except that a last item without data is not read;
      that one need not even decode. */
  lemma DecodeEncoded(mode: OverflowMode, lossy: Lossy, items: seq<Item>)
    requires items != [] && Fits(items) && DistinctKinds(items) && AllDecode(mode, lossy, ReadBack(items))
    ensures var m := Claims(mode, lossy, ReadBack(items), map[]);
            DecodeSpec(mode, lossy, EncodeItems(items)) ==
            if KeyName(VbiosVersion) in m && KeyName(DriverVersion) in m then Ok(m) else Err(MissingVersions)
  {
    EncodedStand(mode, lossy, items);
    hide ItemsSpec, KeyName, Claims, Stand, EncodeItems, ReadBack, ItemValue;
    ItemsDecode(mode, lossy, EncodeItems(items), 0, ReadBack(items), map[]);
  }

  // ----- the measurement counter -----

  /** Chunk `i` of the counts, counted from one. */
  function Chunk(s: seq<Byte>, i: nat): Json
    requires 1 <= i && 4 * i <= |s|
  {
    Num(FromLE(s[4 * i - 4..4 * i]))
  }

  /** A number as the eight-bit counter holds it. */
  function LowByte(n: nat): (b: Byte)
    ensures n < 256 ==> b == n
  {
    n % 256
  }

  lemma SameLowByte(n: nat)
    ensures LowByte(n + 256) == LowByte(n)
  {
  }

  lemma NextLowByte(n: nat)
    ensures LowByte(n + 1) == (LowByte(n) + 1) % 256
  {
  }

  /** The first `n` counts, each under the decimal text of its number in eight bits. */
  function CountsMap(s: seq<Byte>, n: nat): (m: map<string, Json>)
    requires 4 * n <= |s|
  {
    if n == 0 then map[] else CountsMap(s, n - 1)[Dec(LowByte(n)) := Chunk(s, n)]
  }

  lemma NumbersApart(i: nat, n: nat)
    requires i < n < i + 256
    ensures Dec(LowByte(i)) != Dec(LowByte(n))
  {
    DecInjective(LowByte(i), LowByte(n));
  }

  /** Count `i` is among the last 256 of `n`. */
  predicate Recent(n: nat, i: nat) {
    1 <= i <= n < i + 256
  }

  /** The last 256 counts stand under their numbers in eight bits, and nothing else does. */
  lemma {:induction false} CountsMapMeans(s: seq<Byte>, n: nat)
    requires 4 * n <= |s|
    ensures var m := CountsMap(s, n);
            && |m| == (if n <= 256 then n else 256)
            && (forall i: nat :: Recent(n, i) ==> Dec(LowByte(i)) in m && m[Dec(LowByte(i))] == Chunk(s, i))
            && (forall k :: k in m ==> exists i: nat :: Recent(n, i) && k == Dec(LowByte(i)))
  {
    hide Dec, Chunk, LowByte;
    if n > 0 {
      CountsMapMeans(s, n - 1);
      CountsMapStep(s, n);
    }
  }

  lemma CountsMapStep(s: seq<Byte>, n: nat)
    requires 0 < n && 4 * n <= |s|
    requires var m := CountsMap(s, n - 1);
             && |m| == (if n - 1 <= 256 then n - 1 else 256)
             && (forall i: nat :: Recent(n - 1, i) ==> Dec(LowByte(i)) in m && m[Dec(LowByte(i))] == Chunk(s, i))
             && (forall k :: k in m ==> exists i: nat :: Recent(n - 1, i) && k == Dec(LowByte(i)))
    ensures var m := CountsMap(s, n);
            && |m| == (if n <= 256 then n else 256)
            && (forall i: nat :: Recent(n, i) ==> Dec(LowByte(i)) in m && m[Dec(LowByte(i))] == Chunk(s, i))
            && (forall k :: k in m ==> exists i: nat :: Recent(n, i) && k == Dec(LowByte(i)))
  {
    hide Dec, Chunk, LowByte;
    var old_, m, last := CountsMap(s, n - 1), CountsMap(s, n), Dec(LowByte(n));
    assert m == old_[last := Chunk(s, n)];
    hide CountsMap;
    forall i: nat | Recent(n, i) && i != n
      ensures Recent(n - 1, i) && Dec(LowByte(i)) != last
    {
      NumbersApart(i, n);
    }
    assert last in old_ <==> n > 256 by {
      if n > 256 {
        assert Recent(n - 1, n - 256);
        SameLowByte(n - 256);
      }
    }
    forall k | k in m
      ensures exists i: nat :: Recent(n, i) && k == Dec(LowByte(i))
    {
      if k == last {
        assert Recent(n, n);
      } else {
        var i: nat :| Recent(n - 1, i) && k == Dec(LowByte(i));
        SameLowByte(i);
        assert Recent(n, i);
      }
    }
  }

  lemma CountsStep(mode: OverflowMode, s: seq<Byte>, at: nat, index: Byte, acc: map<string, Json>)
    requires at < |s| && (|s| - at) % 4 == 0 && (index < 255 || mode.Wraps?)
    ensures CountsSpec(mode, s, at, index, acc) ==
            CountsSpec(mode, s, at + 4, (index + 1) % 256, acc[Dec(index) := Num(FromLE(s[at..at + 4]))])
  {
    hide Dec, FromLE;
  }

  /** While the counter does not panic, reading goes on with the counts read so far. */
  lemma {:induction false} CountsReach(mode: OverflowMode, s: seq<Byte>, k: nat)
    requires |s| % 4 == 0 && 4 * k <= |s| && (mode.Panics? ==> k <= 254)
    ensures CountsSpec(mode, s, 0, 1, map[]) == CountsSpec(mode, s, 4 * k, LowByte(k + 1), CountsMap(s, k))
  {
    hide Dec, FromLE, CountsSpec, LowByte;
    if k > 0 {
      CountsReach(mode, s, k - 1);
      NextLowByte(k);
      CountsStep(mode, s, 4 * k - 4, LowByte(k), CountsMap(s, k - 1));
    }
  }

  lemma CountsDone(mode: OverflowMode, s: seq<Byte>, index: Byte, acc: map<string, Json>)
    ensures CountsSpec(mode, s, |s|, index, acc) == Ok(Obj(acc))
  {
  }

  lemma CountsPanic(s: seq<Byte>, at: nat, acc: map<string, Json>)
    requires at < |s| && (|s| - at) % 4 == 0
    ensures CountsSpec(Panics, s, at, 255, acc) == Abort
  {
  }

  /** The counts are those read up to the end, unless the eight-bit counter panics at the 255th. */
  lemma CountsAre(mode: OverflowMode, s: seq<Byte>)
    requires |s| % 4 == 0
    ensures CountsSpec(mode, s, 0, 1, map[]) ==
            if mode.Panics? && |s| / 4 > 254 then Abort else Ok(Obj(CountsMap(s, |s| / 4)))
  {
    hide Dec, FromLE, CountsMap, CountsSpec, LowByte;
    var n := |s| / 4;
    if mode.Panics? && n > 254 {
      CountsReach(mode, s, 254);
      CountsPanic(s, 1016, CountsMap(s, 254));
    } else {
      CountsReach(mode, s, n);
      CountsDone(mode, s, LowByte(n + 1), CountsMap(s, n));
    }
  }

  predicate UnderOwnNumbers(s: seq<Byte>, n: nat, m: map<string, Json>)
    requires 4 * n <= |s|
  {
    forall i: nat :: 1 <= i <= n ==> Dec(i) in m && m[Dec(i)] == Chunk(s, i)
  }

  lemma OwnNumber(s: seq<Byte>, n: nat, i: nat)
    requires 4 * n <= |s| && 1 <= i <= n <= 255
    ensures Dec(i) in CountsMap(s, n) && CountsMap(s, n)[Dec(i)] == Chunk(s, i)
  {
    CountsMapMeans(s, n);
    hide Dec, Chunk, CountsMap, LowByte;
    assert Recent(n, i);
  }

  /** The counter never reaches 256. */
  lemma No256(s: seq<Byte>, n: nat)
    requires 4 * n <= |s|
    ensures Dec(256) !in CountsMap(s, n)
  {
    CountsMapMeans(s, n);
    hide Dec, Chunk, CountsMap, LowByte;
    if Dec(256) in CountsMap(s, n) {
      var i: nat :| Recent(n, i) && Dec(256) == Dec(LowByte(i));
      DecInjective(256, LowByte(i));
    }
  }

  lemma OwnNumbersIff(s: seq<Byte>, n: nat)
    requires 4 * n <= |s|
    ensures UnderOwnNumbers(s, n, CountsMap(s, n)) <==> n <= 255
  {
    hide Dec, Chunk, CountsMap, LowByte;
    if n <= 255 {
      forall i: nat | 1 <= i <= n
        ensures Dec(i) in CountsMap(s, n) && CountsMap(s, n)[Dec(i)] == Chunk(s, i)
      {
        OwnNumber(s, n, i);
      }
    } else {
      No256(s, n);
    }
  }

  /** Every measurement count is reported under its own number exactly up to 254 of them where the eight-bit counter
      panics, and up to 255 where it wraps around; there, no count is lost up to 256 of them. */
  lemma CountsIff(mode: OverflowMode, s: seq<Byte>)
    requires |s| % 4 == 0
    ensures var r := CountsSpec(mode, s, 0, 1, map[]);
            var n := |s| / 4;
            && (r.Ok? <==> mode.Wraps? || n <= 254)
            && (r.Ok? ==> r == Ok(Obj(CountsMap(s, n))))
            && (r.Ok? && UnderOwnNumbers(s, n, r.value.fields) <==> n <= if mode.Panics? then 254 else 255)
            && (r.Ok? && |r.value.fields| == n <==> n <= if mode.Panics? then 254 else 256)
  {
    hide Dec, FromLE, CountsMap, CountsSpec, UnderOwnNumbers, LowByte;
    CountsAre(mode, s);
    OwnNumbersIff(s, |s| / 4);
    CountsMapMeans(s, |s| / 4);
  }

  // ----- what a value means -----

  /** `t` without the NULs at its end. */
  predicate Trimmed(t: string, x: string) {
    && |t| <= |x| && (forall i :: 0 <= i < |t| ==> t[i] == x[i])
    && (t == "" || t[|t| - 1] != '\0') && (forall i :: |t| <= i < |x| ==> x[i] == '\0')
  }

  /** The first half of the bytes from its end, then the byte after it, in hexadecimal and separated by dots. */
  predicate ShowsVbios(text: string, s: seq<Byte>)
    requires s != []
  {
    var n := |s| / 2;
    if n == 0 then |text| == 3 && text[0] == '.' && ShowsByte(text, 1, s[0])
    else
      && |text| == 3 * n + 2 && ShowsByte(text, 3 * n, s[n])
      && forall k: nat :: k < n ==> ShowsByte(text, 3 * k, s[n - 1 - k]) && text[3 * k + 2] == '.'
  }

  /** One text per eight bytes. */
  predicate ShowsPdis(items: seq<Json>, s: seq<Byte>) {
    && 8 * |items| == |s|
    && forall k: nat :: k < |items| ==> items[k].Str? && ShowsBytes(items[k].s, s[8 * k..8 * k + 8])
  }

  /** The last 256 little-endian numbers of four bytes, each under its number in eight bits. */
  ghost predicate ShowsCounts(m: map<string, Json>, s: seq<Byte>) {
    && |s| % 4 == 0 && |m| == (if |s| / 4 <= 256 then |s| / 4 else 256)
    && forall i: nat :: Recent(|s| / 4, i) ==>
         Dec(LowByte(i)) in m && m[Dec(LowByte(i))] == Num(FromLE(s[4 * i - 4..4 * i]))
  }

  /** What the data of an item of each type mean. */
  ghost predicate Means(lossy: Lossy, t: OpaqueType, s: seq<Byte>, v: Json) {
    if t in {DriverVersion, ChipSku, ChipSkuMod, Nvdec0Status, Project, ProjectSku, ProtectedPcieStatus} then
      v.Str? && Trimmed(v.s, lossy(s))
    else if t == VbiosVersion then s != [] && v.Str? && ShowsVbios(v.s, s)
    else if t == MsrsCnt then v.Obj? && ShowsCounts(v.fields, s)
    else if t == SwitchPdi then v.Arr? && ShowsPdis(v.items, s)
    else v.Str? && ShowsBytes(v.s, s)
  }

  /** The data that an item of each type may have. */
  predicate Decodable(mode: OverflowMode, t: OpaqueType, s: seq<Byte>) {
    if t == VbiosVersion then s != []
    else if t == MsrsCnt then |s| % 4 == 0 && (mode.Wraps? || |s| / 4 <= 254)
    else if t == SwitchPdi then |s| % 8 == 0
    else true
  }

  lemma {:induction false} TrimNulTrims(x: string)
    ensures Trimmed(TrimNul(x), x)
  {
    if x != [] && x[|x| - 1] == '\0' {
      TrimNulTrims(x[..|x| - 1]);
    }
  }

  lemma {:induction false} DottedReverseShows(s: seq<Byte>)
    requires s != []
    ensures var d := DottedReverse(s);
            && |d| == 3 * |s| - 1
            && (forall k: nat :: k < |s| ==> ShowsByte(d, 3 * k, s[|s| - 1 - k]))
            && (forall k: nat :: k + 1 < |s| ==> d[3 * k + 2] == '.')
  {
    hide HexValue, Hex;
    var n := |s|;
    if n == 1 {
      HexShows(s);
      assert ShowsByte(Hex(s), 2 * 0, s[0]);
    } else {
      DottedReverseShows(s[1..]);
      HexShows([s[0]]);
      var rest, one := DottedReverse(s[1..]), Hex([s[0]]);
      var d := rest + "." + one;
      assert d == DottedReverse(s);
      hide DottedReverse;
      assert ShowsByte(one, 2 * 0, [s[0]][0]);
      forall k: nat | k < n
        ensures ShowsByte(d, 3 * k, s[n - 1 - k])
      {
        if k < n - 1 {
          assert ShowsByte(rest, 3 * k, s[1..][n - 2 - k]);
        }
      }
    }
  }

  lemma VbiosShows(s: seq<Byte>)
    requires s != []
    ensures FormatVbios(s).Some? && ShowsVbios(FormatVbios(s).value, s)
  {
    hide HexValue, Hex, DottedReverse;
    var n := |s| / 2;
    var half, one := s[..n], Hex([s[n]]);
    HexShows([s[n]]);
    assert ShowsByte(one, 2 * 0, [s[n]][0]);
    var text := DottedReverse(half) + "." + one;
    assert FormatVbios(s) == Some(text);
    if n == 0 {
      NoBytes();
      assert half == [];
    } else {
      DottedReverseShows(half);
      forall k: nat | k < n
        ensures ShowsByte(text, 3 * k, s[n - 1 - k]) && text[3 * k + 2] == '.'
      {
        assert ShowsByte(DottedReverse(half), 3 * k, half[n - 1 - k]);
      }
    }
  }

  lemma NoBytes()
    ensures DottedReverse([]) == ""
  {
  }

  lemma {:induction false} PdisShow(s: seq<Byte>)
    requires |s| % 8 == 0
    ensures ShowsPdis(SwitchPdis(s), s)
  {
    hide ShowsBytes, Hex;
    if s != [] {
      PdisShow(s[8..]);
      HexShows(s[..8]);
      var rest := SwitchPdis(s[8..]);
      forall k: nat | k < 1 + |rest|
        ensures SwitchPdis(s)[k].Str? && ShowsBytes(SwitchPdis(s)[k].s, s[8 * k..8 * k + 8])
      {
        if k > 0 {
          assert s[8..][8 * (k - 1)..8 * (k - 1) + 8] == s[8 * k..8 * k + 8];
        }
      }
    }
  }

  lemma CountsShow(mode: OverflowMode, s: seq<Byte>)
    requires |s| % 4 == 0
    ensures var r := CountsSpec(mode, s, 0, 1, map[]);
            && (r.Ok? <==> mode.Wraps? || |s| / 4 <= 254)
            && (r.Ok? ==> r.value.Obj? && ShowsCounts(r.value.fields, s))
  {
    CountsAre(mode, s);
    CountsMapMeans(s, |s| / 4);
    hide CountsMap, CountsSpec, Dec, LowByte, FromLE;
  }

  /** An item decodes exactly when its data may be of its type, and then to what they mean. */
  lemma ItemValueMeans(mode: OverflowMode, lossy: Lossy, t: OpaqueType, s: seq<Byte>)
    ensures var r := ItemValue(mode, lossy, t, s);
            && (r.Ok? <==> Decodable(mode, t, s))
            && (r.Ok? ==> Means(lossy, t, s, r.value))
  {
    hide ShowsBytes, ShowsVbios, ShowsPdis, ShowsCounts, Trimmed, Hex, TrimNul, CountsSpec, SwitchPdis;
    HexShows(s);
    TrimNulTrims(lossy(s));
    if t == VbiosVersion {
      if s != [] {
        VbiosShows(s);
        hide FormatVbios;
      }
    } else if t == MsrsCnt {
      if |s| % 4 == 0 {
        CountsShow(mode, s);
      }
    } else if t == SwitchPdi {
      if |s| % 8 == 0 {
        PdisShow(s);
      }
    }
  }
}
