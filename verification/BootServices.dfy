/** Body of an EV_EFI_BOOT_SERVICES_APPLICATION event: a list of UEFI device path nodes. */
module BootServices {
  import opened Wrappers
  import opened Bytes

  datatype PathError = TooShort | ShorterThanClaimed | RemainingTooShort | NodeTooShort

  /** One device path node (UEFI 2.10, section 10.3.1): type, subtype and data. */
  datatype Node = Node(efiType: Byte, subType: Byte, data: seq<Byte>)

  /** The text printed for a node; how each type is printed is not modelled. */
  type Printer = Node -> string

  const TWO_64 := 0x1_0000_0000_0000_0000

  function EncodeNode(n: Node): (s: seq<Byte>)
    ensures |s| == 4 + |n.data|
  {
    [n.efiType, n.subType] + (ToLE(4 + |n.data|, 2) + n.data)
  }

  function EncodeNodes(nodes: seq<Node>): (s: seq<Byte>)
    ensures |s| >= 4 * |nodes|
  {
    if nodes == [] then [] else EncodeNode(nodes[0]) + EncodeNodes(nodes[1..])
  }

  predicate Fits(nodes: seq<Node>) {
    forall i :: 0 <= i < |nodes| ==> 4 + |nodes[i].data| < 0x1_0000
  }

  function Printed(print_: Printer, nodes: seq<Node>): (paths: seq<string>)
    ensures |paths| == |nodes|
    ensures forall i :: 0 <= i < |nodes| ==> paths[i] == print_(nodes[i])
  {
    if nodes == [] then [] else [print_(nodes[0])] + Printed(print_, nodes[1..])
  }

  /** The recursion over nested paths; `seen` holds the paths printed so far.  A node whose length is below
      its own header, and a rest too short for a header, index out of bounds. */
  function NestedPaths(print_: Printer, bytes: seq<Byte>, seen: seq<string>): Outcome<seq<string>, PathError>
    decreases |bytes|
  {
    if |bytes| < 4 then Abort else
    var length := FromLE(bytes[2..4]);
    if |bytes| < length then Err(NodeTooShort)
    else if length < 4 then Abort
    else
      var paths := seen + [print_(Node(bytes[0], bytes[1], bytes[4..length]))];
      if length == |bytes| then Ok(paths) else NestedPaths(print_, bytes[length..], paths)
  }

  /** Parsing the event; `None` stands for a missing path list.  A path length below four, or so large that
      its end does not fit the machine word, ends in a panic in every build: checked arithmetic fails, or
      the wrapped end lies before the start of the slice. */
  function Parse(print_: Printer, data: seq<Byte>): Outcome<Option<seq<string>>, PathError> {
    if |data| < 32 then Err(TooShort) else
    var pathLen := FromLE(data[24..32]);
    if pathLen == 0 then Ok(None)
    else if pathLen < 4 || 28 + pathLen >= TWO_64 then Abort
    else if |data| < 28 + pathLen then Err(ShorterThanClaimed)
    else if pathLen < 8 then Err(RemainingTooShort)
    else
      var paths :- NestedPaths(print_, data[32..28 + pathLen], []);
      Ok(Some(paths))
  }

  lemma NodeStep(print_: Printer, bytes: seq<Byte>, seen: seq<string>, n: Node, rest: seq<Byte>)
    requires bytes == EncodeNode(n) + rest && 4 + |n.data| < 0x1_0000
    ensures NestedPaths(print_, bytes, seen) ==
            if rest == [] then Ok(seen + [print_(n)]) else NestedPaths(print_, rest, seen + [print_(n)])
  {
    hide FromLE, ToLE, Pow256;
    var length := 4 + |n.data|;
    Widths();
    DecodeEncodeLE(length, 2);
    assert bytes[2..4] == ToLE(length, 2);
    assert bytes[4..length] == n.data;
    assert bytes[length..] == rest;
  }

  /** Every non-empty node list prints one path per node, in order. */
  lemma {:induction false} NodesDecode(print_: Printer, nodes: seq<Node>, seen: seq<string>)
    requires nodes != [] && Fits(nodes)
    ensures NestedPaths(print_, EncodeNodes(nodes), seen) == Ok(seen + Printed(print_, nodes))
    decreases |nodes|
  {
    hide NestedPaths, EncodeNode;
    var rest := EncodeNodes(nodes[1..]);
    NodeStep(print_, EncodeNodes(nodes), seen, nodes[0], rest);
    if nodes[1..] != [] {
      NodesDecode(print_, nodes[1..], seen + [print_(nodes[0])]);
      assert (seen + [print_(nodes[0])]) + Printed(print_, nodes[1..]) == seen + Printed(print_, nodes);
    } else {
      assert Printed(print_, nodes) == [print_(nodes[0])];
    }
  }

  /** Whatever the recursion accepts is a non-empty node list, whose paths it returns. */
  lemma {:induction false} NodesSound(print_: Printer, bytes: seq<Byte>, seen: seq<string>) returns (nodes: seq<Node>)
    requires NestedPaths(print_, bytes, seen).Ok?
    ensures nodes != [] && Fits(nodes) && bytes == EncodeNodes(nodes)
    ensures NestedPaths(print_, bytes, seen).value == seen + Printed(print_, nodes)
    decreases |bytes|
  {
    var length := FromLE(bytes[2..4]);
    var n := Node(bytes[0], bytes[1], bytes[4..length]);
    EncodeDecodeLE(bytes[2..4]);
    Widths();
    hide FromLE, ToLE, Pow256, Printed;
    assert bytes == EncodeNode(n) + bytes[length..] by {
      assert bytes == [bytes[0], bytes[1]] + (bytes[2..4] + bytes[4..length]) + bytes[length..];
    }
    if length == |bytes| {
      nodes := [n];
      assert bytes[length..] == [];
      PrintedStep(print_, nodes, seen);
      assert EncodeNodes(nodes) == EncodeNode(n) + EncodeNodes([]);
    } else {
      var rest := NodesSound(print_, bytes[length..], seen + [print_(n)]);
      nodes := [n] + rest;
      PrintedStep(print_, nodes, seen);
      assert nodes[1..] == rest;
    }
  }

  lemma PrintedStep(print_: Printer, nodes: seq<Node>, seen: seq<string>)
    requires nodes != []
    ensures seen + Printed(print_, nodes) == (seen + [print_(nodes[0])]) + Printed(print_, nodes[1..])
    ensures |nodes| == 1 ==> seen + Printed(print_, nodes) == seen + [print_(nodes[0])]
  {
    assert Printed(print_, nodes) == [print_(nodes[0])] + Printed(print_, nodes[1..]);
    hide Printed;
    if |nodes| == 1 {
      assert Printed(print_, nodes) == [print_(nodes[0])];
    }
  }

  /** Three 64-bit fields, the length of the device path with its four-byte end node, and the nodes. */
  function EncodeEvent(fields: seq<Byte>, nodes: seq<Node>): seq<Byte> {
    fields + (ToLE(|EncodeNodes(nodes)| + 4, 8) + EncodeNodes(nodes))
  }

  predicate Encodable(fields: seq<Byte>, nodes: seq<Node>) {
    |fields| == 24 && nodes != [] && Fits(nodes) && 32 + |EncodeNodes(nodes)| < TWO_64
  }

  /** The exact acceptance condition: an event yields paths if and only if its device path is a non-empty
      list of nodes, and then one path per node, in order.  The end node is counted in the length but never
      looked at; it may hold anything, be cut short or be missing. */
  lemma ParseIff(print_: Printer, data: seq<Byte>, paths: seq<string>)
    ensures Parse(print_, data) == Ok(Some(paths)) <==>
            exists fields, nodes, tail ::
              && Encodable(fields, nodes)
              && data == EncodeEvent(fields, nodes) + tail
              && paths == Printed(print_, nodes)
  {
    hide *;
    if Parse(print_, data) == Ok(Some(paths)) {
      var fields, nodes, tail := ParseSound(print_, data, paths);
    }
    forall fields, nodes, tail |
      && Encodable(fields, nodes)
      && data == EncodeEvent(fields, nodes) + tail
      && paths == Printed(print_, nodes)
      ensures Parse(print_, data) == Ok(Some(paths))
    {
      ParseDecode(print_, fields, nodes, tail);
    }
  }

  lemma ParseDecode(print_: Printer, fields: seq<Byte>, nodes: seq<Node>, tail: seq<Byte>)
    requires Encodable(fields, nodes)
    ensures Parse(print_, EncodeEvent(fields, nodes) + tail) == Ok(Some(Printed(print_, nodes)))
  {
    hide FromLE, ToLE, Pow256, NestedPaths, EncodeNodes, Printed;
    var data := EncodeEvent(fields, nodes) + tail;
    var size := |EncodeNodes(nodes)| + 4;
    Widths();
    DecodeEncodeLE(size, 8);
    assert data[24..32] == ToLE(size, 8);
    assert data[32..28 + size] == EncodeNodes(nodes);
    NodesDecode(print_, nodes, []);
    assert [] + Printed(print_, nodes) == Printed(print_, nodes);
  }

  lemma ParseSound(print_: Printer, data: seq<Byte>, paths: seq<string>)
    returns (fields: seq<Byte>, nodes: seq<Node>, tail: seq<Byte>)
    requires Parse(print_, data) == Ok(Some(paths))
    ensures Encodable(fields, nodes)
    ensures data == EncodeEvent(fields, nodes) + tail
    ensures paths == Printed(print_, nodes)
  {
    hide FromLE, ToLE, Pow256, NestedPaths, EncodeNodes, Printed;
    var pathLen := FromLE(data[24..32]);
    EncodeDecodeLE(data[24..32]);
    nodes := NodesSound(print_, data[32..28 + pathLen], []);
    assert [] + Printed(print_, nodes) == Printed(print_, nodes);
    fields, tail := data[..24], data[28 + pathLen..];
    assert data == (data[..24] + (data[24..32] + data[32..28 + pathLen])) + tail;
  }
}
