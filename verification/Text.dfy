/** Decimal and hexadecimal text. */
module Text {
  import opened Wrappers
  import opened Bytes

  predicate IsDigit(c: char) { '0' <= c <= '9' }

  predicate AllDigits(s: string) {
    forall i :: 0 <= i < |s| ==> IsDigit(s[i])
  }

  function Digit(n: nat): (c: char)
    requires n < 10
    ensures IsDigit(c)
  {
    '0' + n as char
  }

  function DigitValue(c: char): (n: nat)
    requires IsDigit(c)
    ensures n < 10 && Digit(n) == c
  {
    (c - '0') as nat
  }

  /** The decimal text of a number, without leading zeros. */
  function Dec(n: nat): (s: string)
    ensures s != [] && AllDigits(s)
    ensures s[0] == '0' ==> n == 0
    ensures n == 0 ==> s == "0"
  {
    if n < 10 then [Digit(n)] else Dec(n / 10) + [Digit(n % 10)]
  }

  /** The number that a digit string denotes. */
  function Value(s: string): nat
    requires AllDigits(s)
  {
    if s == [] then 0 else 10 * Value(s[..|s| - 1]) + DigitValue(s[|s| - 1])
  }

  lemma {:induction false} ValueOfDec(n: nat)
    ensures Value(Dec(n)) == n
  {
    if n >= 10 {
      ValueOfDec(n / 10);
      assert Dec(n)[..|Dec(n)| - 1] == Dec(n / 10);
    }
  }

  lemma DecInjective(m: nat, n: nat)
    ensures Dec(m) == Dec(n) <==> m == n
  {
    ValueOfDec(m);
    ValueOfDec(n);
  }

  /** A digit string without a leading zero is the decimal text of its value. */
  lemma {:induction false} DecOfValue(s: string)
    requires s != [] && AllDigits(s) && (s[0] == '0' ==> |s| == 1)
    ensures Dec(Value(s)) == s
  {
    var init := s[..|s| - 1];
    var last := DigitValue(s[|s| - 1]);
    if init == [] {
      assert Value(s) == last;
      assert s == [s[0]];
    } else {
      DecOfValue(init);
      assert s[0] == init[0];
      assert Value(s) / 10 == Value(init) && Value(s) % 10 == last;
      assert s == init + [s[|s| - 1]];
    }
  }

  function HexDigit(n: nat): char
    requires n < 16
  {
    "0123456789abcdef"[n]
  }

  /** Two hexadecimal digits per byte. */
  function Hex(s: seq<Byte>): (h: string)
    ensures |h| == 2 * |s|
  {
    if s == [] then [] else [HexDigit(s[0] / 16), HexDigit(s[0] % 16)] + Hex(s[1..])
  }

  /** The half byte that a lower-case hexadecimal digit stands for; no other character stands for one. */
  function HexValue(c: char): nat {
    if '0' <= c <= '9' then (c - '0') as nat
    else if 'a' <= c <= 'f' then 10 + (c - 'a') as nat
    else 16
  }

  /** The two digits of a byte stand at this place. */
  predicate ShowsByte(text: string, at: nat, b: Byte) {
    at + 2 <= |text| && HexValue(text[at]) == b / 16 && HexValue(text[at + 1]) == b % 16
  }

  /** The text is the digits of the bytes, one byte after the other. */
  predicate ShowsBytes(text: string, s: seq<Byte>) {
    |text| == 2 * |s| && forall k: nat :: k < |s| ==> ShowsByte(text, 2 * k, s[k])
  }

  lemma HexDigitValue(n: nat)
    requires n < 16
    ensures HexValue(HexDigit(n)) == n
  {
  }

  lemma {:induction false} HexShows(s: seq<Byte>)
    ensures ShowsBytes(Hex(s), s)
  {
    if s != [] {
      HexShows(s[1..]);
      HexDigitValue(s[0] / 16);
      HexDigitValue(s[0] % 16);
      hide HexValue, HexDigit;
      var rest := Hex(s[1..]);
      forall k: nat | k < |s|
        ensures ShowsByte(Hex(s), 2 * k, s[k])
      {
        if k > 0 {
          assert ShowsByte(rest, 2 * (k - 1), s[1..][k - 1]);
        }
      }
    }
  }

  /** Only one text shows the bytes. */
  lemma ShowsOnly(a: string, b: string, s: seq<Byte>)
    requires ShowsBytes(a, s) && ShowsBytes(b, s)
    ensures a == b
  {
    forall i | 0 <= i < |a|
      ensures a[i] == b[i]
    {
      assert ShowsByte(a, 2 * (i / 2), s[i / 2]) && ShowsByte(b, 2 * (i / 2), s[i / 2]);
      SameDigit(a[i], b[i]);
    }
  }

  lemma SameDigit(c: char, d: char)
    ensures HexValue(c) == HexValue(d) < 16 ==> c == d
  {
  }
}
