/** Bytes, big-endian numbers and UTF-8 well-formedness. */
module Bytes {
  type byte = x: int | 0 <= x < 256

  function Pow256(k: nat): (p: nat)
    ensures p > 0
  {
    if k == 0 then 1 else 256 * Pow256(k - 1)
  }

  lemma Powers()
    ensures Pow256(2) == 0x1_0000
    ensures Pow256(4) == 0x1_0000_0000
    ensures Pow256(16) == 0x1_0000_0000_0000_0000_0000_0000_0000_0000
  {
    assert Pow256(4) == 256 * 256 * Pow256(2);
    assert Pow256(6) == 256 * 256 * Pow256(4);
    assert Pow256(8) == 256 * 256 * Pow256(6);
    assert Pow256(10) == 256 * 256 * Pow256(8);
    assert Pow256(12) == 256 * 256 * Pow256(10);
    assert Pow256(14) == 256 * 256 * Pow256(12);
    assert Pow256(16) == 256 * 256 * Pow256(14);
  }

  /** `to_be_bytes` and `octets` for a number of `k` bytes. */
  function ToBe(n: nat, k: nat): (b: seq<byte>)
    ensures |b| == k
  {
    if k == 0 then [] else ToBe(n / 256, k - 1) + [n % 256]
  }

  /** `from_be_bytes`. */
  function FromBe(b: seq<byte>): nat {
    if b == [] then 0 else FromBe(b[..|b| - 1]) * 256 + b[|b| - 1]
  }

  lemma {:induction false} FromBeBound(b: seq<byte>)
    ensures FromBe(b) < Pow256(|b|)
    decreases |b|
  {
    if b == [] {
    } else {
      FromBeBound(b[..|b| - 1]);
    }
  }

  lemma {:induction false} DecodeEncode(n: nat, k: nat)
    requires n < Pow256(k)
    ensures FromBe(ToBe(n, k)) == n
    decreases k
  {
    if k == 0 {
    } else {
      DecodeEncode(n / 256, k - 1);
      assert ToBe(n, k)[..k - 1] == ToBe(n / 256, k - 1);
    }
  }

  lemma {:induction false} EncodeDecode(b: seq<byte>)
    ensures ToBe(FromBe(b), |b|) == b
    decreases |b|
  {
    if b == [] {
    } else {
      EncodeDecode(b[..|b| - 1]);
      assert FromBe(b) / 256 == FromBe(b[..|b| - 1]) && FromBe(b) % 256 == b[|b| - 1];
    }
  }

  /** The first bytes are the high ones. */
  lemma {:induction false} FromBeConcat(high: seq<byte>, low: seq<byte>)
    ensures FromBe(high + low) == FromBe(high) * Pow256(|low|) + FromBe(low)
    decreases |low|
  {
    if low == [] {
      assert high + low == high;
    } else {
      var n := |low| - 1;
      FromBeConcat(high, low[..n]);
      assert (high + low)[..|high + low| - 1] == high + low[..n];
      assert FromBe(high) * (256 * Pow256(n)) == 256 * (FromBe(high) * Pow256(n));
    }
  }

  lemma {:induction false} ZerosAreZero(b: seq<byte>)
    requires forall i :: 0 <= i < |b| ==> b[i] == 0
    ensures FromBe(b) == 0
    decreases |b|
  {
    if b == [] {
    } else {
      ZerosAreZero(b[..|b| - 1]);
    }
  }

  lemma FromBeTwo(a: byte, b: byte)
    ensures FromBe([a, b]) == a * 0x100 + b
  {
    assert [a, b][..1] == [a] && [a][..0] == [];
    assert FromBe([a]) == a;
  }

  lemma FromBeFour(a: byte, b: byte, c: byte, d: byte)
    ensures FromBe([a, b, c, d]) == a * 0x100_0000 + b * 0x1_0000 + c * 0x100 + d
  {
    FromBeConcat([a, b], [c, d]);
    assert [a, b] + [c, d] == [a, b, c, d];
    FromBeTwo(a, b);
    FromBeTwo(c, d);
    Powers();
  }

  predicate Between(b: byte, low: byte, high: byte) {
    low <= b <= high
  }

  /** The length of the well-formed sequence at the front of `s` (section 4 of RFC 3629), or
      0 if there is none. */
  function CharLength(s: seq<byte>): (n: nat)
    requires s != []
    ensures n <= |s|
  {
    if s[0] < 0x80 then 1
    else if |s| >= 2 && Between(s[0], 0xC2, 0xDF) && Between(s[1], 0x80, 0xBF) then 2
    else if |s| >= 3 && Between(s[2], 0x80, 0xBF)
            && ((s[0] == 0xE0 && Between(s[1], 0xA0, 0xBF))
                || (Between(s[0], 0xE1, 0xEC) && Between(s[1], 0x80, 0xBF))
                || (s[0] == 0xED && Between(s[1], 0x80, 0x9F))
                || (Between(s[0], 0xEE, 0xEF) && Between(s[1], 0x80, 0xBF))) then 3
    else if |s| >= 4 && Between(s[2], 0x80, 0xBF) && Between(s[3], 0x80, 0xBF)
            && ((s[0] == 0xF0 && Between(s[1], 0x90, 0xBF))
                || (Between(s[0], 0xF1, 0xF3) && Between(s[1], 0x80, 0xBF))
                || (s[0] == 0xF4 && Between(s[1], 0x80, 0x8F))) then 4
    else 0
  }

  /** `String::from_utf8` accepts `s`. */
  predicate ValidUtf8(s: seq<byte>)
    decreases |s|
  {
    s == [] || (CharLength(s) > 0 && ValidUtf8(s[CharLength(s)..]))
  }

  /** The bytes of a Rust `String`. */
  type Utf8 = s: seq<byte> | ValidUtf8(s) witness []

  /** A Unicode scalar value. */
  predicate Scalar(c: nat) {
    c < 0x11_0000 && !(0xD800 <= c < 0xE000)
  }

  /** Its encoding, by the table of section 3 of RFC 3629. */
  function EncodeChar(c: nat): seq<byte>
    requires Scalar(c)
  {
    if c < 0x80 then [c]
    else if c < 0x800 then [0xC0 + c / 0x40, 0x80 + c % 0x40]
    else if c < 0x1_0000 then [0xE0 + c / 0x1000, 0x80 + c / 0x40 % 0x40, 0x80 + c % 0x40]
    else [0xF0 + c / 0x4_0000, 0x80 + c / 0x1000 % 0x40, 0x80 + c / 0x40 % 0x40, 0x80 + c % 0x40]
  }

  function EncodeText(text: seq<nat>): seq<byte>
    requires forall c :: c in text ==> Scalar(c)
  {
    if text == [] then [] else EncodeChar(text[0]) + EncodeText(text[1..])
  }

  lemma CharIsRead(c: nat, rest: seq<byte>)
    requires Scalar(c)
    ensures CharLength(EncodeChar(c) + rest) == |EncodeChar(c)| > 0
  {}

  lemma Division(q: nat, r: nat)
    ensures r < 0x40 ==> (q * 0x40 + r) / 0x40 == q && (q * 0x40 + r) % 0x40 == r
    ensures r < 0x1000 ==> (q * 0x1000 + r) / 0x1000 == q
    ensures r < 0x4_0000 ==> (q * 0x4_0000 + r) / 0x4_0000 == q
  {}

  /** The digits of a number to the base 64. */
  lemma Digits(a: nat, b: nat, c: nat, d: nat)
    requires b < 0x40 && c < 0x40 && d < 0x40
    ensures var x := a * 0x4_0000 + b * 0x1000 + c * 0x40 + d;
            x / 0x4_0000 == a && x / 0x1000 == a * 0x40 + b && x / 0x1000 % 0x40 == b && x / 0x40 % 0x40 == c && x % 0x40 == d
  {
    Division(a * 0x1000 + b * 0x40 + c, d);
    Division(a * 0x40 + b, c * 0x40 + d);
    Division(a, b * 0x1000 + c * 0x40 + d);
    Division(a * 0x40 + b, c);
    Division(a, b);
  }

  lemma TwoBytes(a: nat, b: nat)
    requires 2 <= a < 0x20 && b < 0x40
    ensures EncodeChar(a * 0x40 + b) == [0xC0 + a, 0x80 + b]
  {
    Division(a, b);
  }

  lemma ThreeBytes(a: nat, b: nat, c: nat)
    requires a < 0x10 && b < 0x40 && c < 0x40
    requires a * 0x40 + b >= 0x20 && !(0x360 <= a * 0x40 + b < 0x380)
    ensures Scalar(a * 0x1000 + b * 0x40 + c)
    ensures EncodeChar(a * 0x1000 + b * 0x40 + c) == [0xE0 + a, 0x80 + b, 0x80 + c]
  {
    Digits(0, a, b, c);
  }

  lemma FourBytes(a: nat, b: nat, c: nat, d: nat)
    requires a < 5 && b < 0x40 && c < 0x40 && d < 0x40 && 0x10 <= a * 0x40 + b < 0x110
    ensures Scalar(a * 0x4_0000 + b * 0x1000 + c * 0x40 + d)
    ensures EncodeChar(a * 0x4_0000 + b * 0x1000 + c * 0x40 + d) == [0xF0 + a, 0x80 + b, 0x80 + c, 0x80 + d]
  {
    Digits(a, b, c, d);
  }

  /** What is accepted as a character is the encoding of one. */
  lemma CharIsScalar(s: seq<byte>) returns (c: nat)
    requires s != [] && CharLength(s) > 0
    ensures Scalar(c) && s[..CharLength(s)] == EncodeChar(c)
  {
    var low := seq(|s|, i requires 0 <= i < |s| => s[i] as int - 0x80);
    match CharLength(s)
    case 1 =>
      c := s[0];
    case 2 =>
      TwoBytes(low[0] - 0x40, low[1]);
      c := (low[0] - 0x40) * 0x40 + low[1];
    case 3 =>
      ThreeBytes(low[0] - 0x60, low[1], low[2]);
      c := (low[0] - 0x60) * 0x1000 + low[1] * 0x40 + low[2];
    case _ =>
      FourBytes(low[0] - 0x70, low[1], low[2], low[3]);
      c := (low[0] - 0x70) * 0x4_0000 + low[1] * 0x1000 + low[2] * 0x40 + low[3];
  }

  /** Every encoded text is valid, */
  lemma {:induction false} TextIsValid(text: seq<nat>)
    requires forall c :: c in text ==> Scalar(c)
    ensures ValidUtf8(EncodeText(text))
  {
    if text == [] {
    } else {
      var first, rest := EncodeChar(text[0]), EncodeText(text[1..]);
      CharIsRead(text[0], rest);
      TextIsValid(text[1..]);
      assert (first + rest)[|first|..] == rest;
    }
  }

  /** and whatever is valid is an encoded text. */
  lemma {:induction false} ValidIsText(s: seq<byte>) returns (text: seq<nat>)
    requires ValidUtf8(s)
    ensures (forall c :: c in text ==> Scalar(c)) && EncodeText(text) == s
    decreases |s|
  {
    if s == [] {
      text := [];
    } else {
      var n := CharLength(s);
      var c := CharIsScalar(s);
      var rest := ValidIsText(s[n..]);
      text := [c] + rest;
      assert text[1..] == rest;
    }
  }
}
