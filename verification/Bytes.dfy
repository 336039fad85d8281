/** Result types shared by the models of the parsers and services. */
module Wrappers {

  datatype Option<+T> = None | Some(value: T) {
    predicate IsFailure() { None? }
    function PropagateFailure<U>(): Option<U>
      requires None?
    {
      None
    }
    function Extract(): T
      requires Some?
    {
      value
    }
  }

  /** What a call ends in: a value, a returned error, or a panic.  Slicing out of bounds, calling
      the wrong accessor and checked arithmetic overflow end in `Abort`. */
  datatype Outcome<+T, +E> = Ok(value: T) | Err(error: E) | Abort {
    predicate IsFailure() { !Ok? }
    function PropagateFailure<U>(): Outcome<U, E>
      requires !Ok?
    {
      if Err? then Err(error) else Abort
    }
    function Extract(): T
      requires Ok?
    {
      value
    }
  }

  /** Turn a missing value into the given error. */
  function OrErr<T, E>(o: Option<T>, e: E): Outcome<T, E> {
    if o.Some? then Ok(o.value) else Err(e)
  }

  /** Integer overflow panics in builds with overflow checks and wraps in builds without. */
  datatype OverflowMode = Panics | Wraps
}

/** Byte strings and little-endian integers. */
module Bytes {
  import opened Wrappers

  type Byte = x: int | 0 <= x < 256

  function Pow256(w: nat): nat {
    if w == 0 then 1 else 256 * Pow256(w - 1)
  }

  function FromLE(s: seq<Byte>): nat {
    if s == [] then 0 else s[0] + 256 * FromLE(s[1..])
  }

  function ToLE(n: nat, w: nat): (s: seq<Byte>)
    ensures |s| == w
  {
    if w == 0 then [] else [n % 256] + ToLE(n / 256, w - 1)
  }

  lemma Widths()
    ensures Pow256(1) == 0x100
    ensures Pow256(2) == 0x1_0000
    ensures Pow256(3) == 0x100_0000
    ensures Pow256(4) == 0x1_0000_0000
    ensures Pow256(8) == 0x1_0000_0000_0000_0000
  {
    assert Pow256(3) == 256 * Pow256(2);
    assert Pow256(6) == 256 * Pow256(5) == 256 * 256 * Pow256(4);
    assert Pow256(8) == 256 * Pow256(7) == 256 * 256 * Pow256(6);
  }

  /** Encoding then decoding gives the number back when it fits the width. */
  lemma {:induction false} DecodeEncodeLE(n: nat, w: nat)
    requires n < Pow256(w)
    ensures FromLE(ToLE(n, w)) == n
  {
    if w > 0 {
      DecodeEncodeLE(n / 256, w - 1);
      assert ToLE(n, w)[1..] == ToLE(n / 256, w - 1);
    }
  }

  /** Decoding then encoding gives the bytes back, and the number fits the width. */
  lemma {:induction false} EncodeDecodeLE(s: seq<Byte>)
    ensures FromLE(s) < Pow256(|s|)
    ensures ToLE(FromLE(s), |s|) == s
  {
    if s != [] {
      EncodeDecodeLE(s[1..]);
      assert FromLE(s) % 256 == s[0] && FromLE(s) / 256 == FromLE(s[1..]);
    }
  }

  /** `s` occupies the bytes of `data` that start at `at`. */
  predicate HasAt(data: seq<Byte>, at: nat, s: seq<Byte>) {
    at + |s| <= |data| && data[at..at + |s|] == s
  }

  lemma HasAtSplit(data: seq<Byte>, at: nat, a: seq<Byte>, b: seq<Byte>)
    ensures HasAt(data, at, a + b) <==> HasAt(data, at, a) && HasAt(data, at + |a|, b)
  {
    if at + |a| + |b| <= |data| {
      assert data[at..at + |a| + |b|] == data[at..at + |a|] + data[at + |a|..at + |a| + |b|];
      if HasAt(data, at, a + b) {
        assert data[at..at + |a|] == (a + b)[..|a|] == a;
        assert data[at + |a|..at + |a| + |b|] == (a + b)[|a|..] == b;
      }
    }
  }

  /** The little-endian integer of `w` bytes at `at`, when those bytes exist. */
  function ReadLE(data: seq<Byte>, at: nat, w: nat): Option<nat> {
    if at + w <= |data| then Some(FromLE(data[at..at + w])) else None
  }

  /** Reading yields `n` exactly when the encoding of `n` is what stands there. */
  lemma ReadIffHas(data: seq<Byte>, at: nat, w: nat, n: nat)
    ensures ReadLE(data, at, w) == Some(n) <==> n < Pow256(w) && HasAt(data, at, ToLE(n, w))
  {
    hide FromLE, ToLE, Pow256;
    if at + w <= |data| {
      EncodeDecodeLE(data[at..at + w]);
      if n < Pow256(w) {
        DecodeEncodeLE(n, w);
      }
    }
  }

  lemma Reassociate(a: seq<Byte>, b: seq<Byte>, c: seq<Byte>, d: seq<Byte>)
    ensures (a + (b + c)) + d == (a + b) + (c + d)
  {
  }

  function Zeros(n: nat): (s: seq<Byte>)
    ensures |s| == n
  {
    seq(n, _ => 0)
  }
}
