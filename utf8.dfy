/** UTF-8 as RFC 3629 defines it, for `String.getBytes(UTF_8)` and
    `new String(bytes, UTF_8)`.  A Dafny `string` is a sequence of Unicode
    scalar values, which is what a Java String without unpaired surrogates
    denotes. */
module Utf8 {
  import opened Bytes
  import opened Failures

  const REPLACEMENT: char := '\U{FFFD}'

  /** True for a continuation byte 10xxxxxx. */
  predicate IsCont(b: byte) {
    0x80 <= b < 0xC0
  }

  /** The one to four bytes of a scalar value (section 3 of RFC 3629). */
  function EncodeChar(c: char): (r: seq<byte>)
    ensures 1 <= |r| <= 4
    ensures (c as int < 0x80) == (|r| == 1)
  {
    var n := c as int;
    if n < 0x80 then
      [n as byte]
    else if n < 0x800 then
      [(0xC0 + n / 64) as byte, (0x80 + n % 64) as byte]
    else if n < 0x1_0000 then
      [(0xE0 + n / 4096) as byte, (0x80 + (n / 64) % 64) as byte, (0x80 + n % 64) as byte]
    else
      [(0xF0 + n / 262144) as byte, (0x80 + (n / 4096) % 64) as byte,
       (0x80 + (n / 64) % 64) as byte, (0x80 + n % 64) as byte]
  }

  /** String.getBytes(StandardCharsets.UTF_8). */
  function Encode(s: string): (r: seq<byte>)
    ensures |r| >= |s|
  {
    if s == [] then [] else EncodeChar(s[0]) + Encode(s[1..])
  }

  predicate IsScalar(v: int) {
    (0 <= v < 0xD800) || (0xE000 <= v < 0x11_0000)
  }

  /** The well-formed sequence at the front of `b`, if there is one (the
      table in section 4 of RFC 3629): the scalar and how many bytes it took. */
  function DecodeFirst(b: seq<byte>): (r: Option<(char, nat)>)
    requires |b| > 0
    ensures r.Some? ==> 1 <= r.value.1 <= |b|
  {
    var b0 := b[0] as int;
    if b0 < 0x80 then
      Some((b0 as char, 1))
    else if 0xC2 <= b0 < 0xE0 && |b| >= 2 && IsCont(b[1]) then
      Some((((b0 - 0xC0) * 64 + (b[1] as int - 0x80)) as char, 2))
    else if 0xE0 <= b0 < 0xF0 && |b| >= 3 && IsCont(b[1]) && IsCont(b[2]) then
      var v := (b0 - 0xE0) * 4096 + (b[1] as int - 0x80) * 64 + (b[2] as int - 0x80);
      if 0x800 <= v && IsScalar(v) then Some((v as char, 3)) else None
    else if 0xF0 <= b0 < 0xF5 && |b| >= 4 && IsCont(b[1]) && IsCont(b[2]) && IsCont(b[3]) then
      var v := (b0 - 0xF0) * 262144 + (b[1] as int - 0x80) * 4096
               + (b[2] as int - 0x80) * 64 + (b[3] as int - 0x80);
      if 0x1_0000 <= v < 0x11_0000 then Some((v as char, 4)) else None
    else
      None
  }

  /** new String(bytes, UTF_8): well-formed sequences decode to their
      scalar, and a byte that starts none is replaced by U+FFFD. */
  function Decode(b: seq<byte>): string
    decreases |b|
  {
    if b == [] then []
    else match DecodeFirst(b)
      case Some((c, k)) => [c] + Decode(b[k..])
      case None => [REPLACEMENT] + Decode(b[1..])
  }

  /** Six-bit groups of a scalar: the digits of `n` in base 64. */
  lemma Base64Digits(n: nat)
    ensures n == (n / 64) * 64 + n % 64
    ensures n / 4096 == (n / 64) / 64 && n % 4096 == ((n / 64) % 64) * 64 + n % 64
    ensures n / 262144 == (n / 4096) / 64
    ensures (n / 4096) % 64 == ((n / 64) / 64) % 64
  {
    var q, r := n / 64, n % 64;
    var a, t := q / 64, q % 64;
    ModUnique(n, 4096, a, t * 64 + r);
    var a2, t2 := a / 64, a % 64;
    ModUnique(n, 262144, a2, t2 * 4096 + t * 64 + r);
  }

  lemma DecodeFirstEncodeChar(c: char, rest: seq<byte>)
    ensures DecodeFirst(EncodeChar(c) + rest) == Some((c, |EncodeChar(c)|))
  {
    var n := c as int;
    var b := EncodeChar(c) + rest;
    Base64Digits(n);
    if n < 0x80 {
    } else if n < 0x800 {
      assert b[0] as int == 0xC0 + n / 64 && b[1] as int == 0x80 + n % 64;
    } else if n < 0x1_0000 {
      assert b[0] as int == 0xE0 + n / 4096;
      assert b[1] as int == 0x80 + (n / 64) % 64;
      assert b[2] as int == 0x80 + n % 64;
    } else {
      assert b[0] as int == 0xF0 + n / 262144;
      assert b[1] as int == 0x80 + (n / 4096) % 64;
      assert b[2] as int == 0x80 + (n / 64) % 64;
      assert b[3] as int == 0x80 + n % 64;
      assert n == (n / 262144) * 262144 + ((n / 4096) % 64) * 4096 + ((n / 64) % 64) * 64 + n % 64;
    }
  }

  /** Decoding an encoding restores the string. */
  lemma {:induction false} DecodeEncode(s: string)
    ensures Decode(Encode(s)) == s
  {
    if s != [] {
      var e := EncodeChar(s[0]);
      DecodeFirstEncodeChar(s[0], Encode(s[1..]));
      assert (e + Encode(s[1..]))[|e|..] == Encode(s[1..]);
      DecodeEncode(s[1..]);
    }
  }

  /** So the encoding is one-to-one: equal byte strings came from equal
      strings, which is what lets the model compare modes and paths by their
      encodings. */
  lemma EncodeInjective(s: string, t: string)
    requires Encode(s) == Encode(t)
    ensures s == t
  {
    DecodeEncode(s);
    DecodeEncode(t);
  }

  /** An ASCII string encodes to its own code points, one byte each. */
  lemma {:induction false} EncodeAscii(s: string)
    requires forall i | 0 <= i < |s| :: s[i] as int < 0x80
    ensures |Encode(s)| == |s|
    ensures forall i | 0 <= i < |s| :: Encode(s)[i] as int == s[i] as int
  {
    if s != [] {
      EncodeAscii(s[1..]);
    }
  }

  /** Concatenation is encoded piecewise. */
  lemma {:induction false} EncodeAppend(s: string, t: string)
    ensures Encode(s + t) == Encode(s) + Encode(t)
  {
    if s != [] {
      assert (s + t)[1..] == s[1..] + t;
      EncodeAppend(s[1..], t);
    } else {
      assert s + t == t;
    }
  }
}
