/** Bytes, Java's fixed-width integers, and the big-endian two's-complement
    layout that DataOutputStream.writeInt/writeLong, DataInputStream.readInt
    and ByteBuffer.getLong use. */
module Bytes {

  /** An octet on the wire.  Java's signed `byte` has the same bit pattern. */
  newtype byte = b: int | 0 <= b < 256

  const INT_MIN: int := -0x8000_0000
  const INT_MAX: int := 0x7fff_ffff
  const LONG_MIN: int := -0x8000_0000_0000_0000
  const LONG_MAX: int := 0x7fff_ffff_ffff_ffff

  /** The values of a Java `int`. */
  predicate IsInt(x: int) {
    INT_MIN <= x <= INT_MAX
  }

  /** The values of a Java `long`. */
  predicate IsLong(x: int) {
    LONG_MIN <= x <= LONG_MAX
  }

  /** A Java array cannot hold more elements than an `int` can count. */
  predicate IsArrayLength(n: int) {
    0 <= n <= INT_MAX
  }

  function Pow256(n: nat): (r: nat)
    ensures r >= 1
  {
    if n == 0 then 1 else 256 * Pow256(n - 1)
  }

  /** The low `n` bytes of `v`, most significant first.  Division is floor
      division here (the divisor is positive), so `v / 256` is Java's
      arithmetic shift `v >> 8` and `v % 256` is `v & 0xff`. */
  function BigEndian(v: int, n: nat): (r: seq<byte>)
    ensures |r| == n
    decreases n
  {
    if n == 0 then [] else BigEndian(v / 256, n - 1) + [(v % 256) as byte]
  }

  /** The unsigned number a big-endian byte sequence denotes. */
  function Unsigned(b: seq<byte>): (u: nat)
    ensures u < Pow256(|b|)
  {
    if b == [] then 0 else Unsigned(b[..|b| - 1]) * 256 + b[|b| - 1] as int
  }

  /** Two's-complement reading of an `n`-byte unsigned value. */
  function Signed(u: nat, n: nat): int {
    if u < Pow256(n) / 2 then u else u - Pow256(n)
  }

  /** writeInt: four bytes, big-endian, two's complement. */
  function Be32(x: int): (r: seq<byte>)
    requires IsInt(x)
    ensures |r| == 4
  {
    BigEndian(x, 4)
  }

  /** readInt on four bytes. */
  function FromBe32(b: seq<byte>): int
    requires |b| == 4
  {
    Signed(Unsigned(b), 4)
  }

  /** writeLong and longToBytes: eight bytes, big-endian, two's complement. */
  function Be64(x: int): (r: seq<byte>)
    requires IsLong(x)
    ensures |r| == 8
  {
    BigEndian(x, 8)
  }

  /** ByteBuffer.getLong over eight bytes. */
  function FromBe64(b: seq<byte>): int
    requires |b| == 8
  {
    Signed(Unsigned(b), 8)
  }

  // ---------------------------------------------------------------------
  // Arithmetic helpers

  lemma MulDistrib(a: int, x: int, y: int)
    ensures a * (x + y) == a * x + a * y && a * (x - y) == a * x - a * y
  {
  }

  lemma MulMonotone(a: int, x: int, y: int)
    requires a >= 0 && x <= y
    ensures a * x <= a * y
  {
    MulDistrib(a, y, x);
    assert a * (y - x) >= 0;
  }

  lemma MulAssoc(x: int, y: int, z: int)
    ensures x * (y * z) == (x * y) * z
  {
  }

  /** Division with remainder has only one answer. */
  lemma ModUnique(v: int, m: int, a: int, s: int)
    requires m > 0 && v == m * a + s && 0 <= s < m
    ensures v % m == s && v / m == a
  {
    var q, r := v / m, v % m;
    assert v == m * q + r;
    MulDistrib(m, a, q);
    assert m * (a - q) == r - s;
    if a - q >= 1 {
      MulMonotone(m, 1, a - q);
      assert false;
    } else if a - q <= -1 {
      MulMonotone(m, a - q, -1);
      assert false;
    }
  }

  /** Shifting twice is shifting by the sum: (v / a) / b == v / (a * b). */
  lemma DivDiv(v: int, a: int, b: int)
    requires a > 0 && b > 0
    ensures (v / a) / b == v / (a * b)
  {
    var q1, r1 := v / a, v % a;
    var q2, r2 := q1 / b, q1 % b;
    assert v == a * q1 + r1;
    assert q1 == b * q2 + r2;
    assert a * q1 == a * (b * q2) + a * r2 by {
      MulDistrib(a, b * q2, r2);
    }
    assert a * (b * q2) == (a * b) * q2 by {
      MulAssoc(a, b, q2);
    }
    assert 0 <= a * r2 <= a * (b - 1) by {
      MulMonotone(a, 0, r2);
      MulMonotone(a, r2, b - 1);
    }
    assert a * (b - 1) + a == a * b by {
      MulDistrib(a, b, 1);
    }
    ModUnique(v, a * b, q2, a * r2 + r1);
  }

  /** The last byte of a layout, and the layout of the rest. */
  lemma BigEndianSplit(v: int, n: nat)
    requires n > 0
    ensures BigEndian(v, n)[..n - 1] == BigEndian(v / 256, n - 1)
    ensures BigEndian(v, n)[n - 1] as int == v % 256
  {
  }

  lemma {:induction false} UnsignedBigEndian(v: int, n: nat)
    ensures Unsigned(BigEndian(v, n)) == v % Pow256(n)
    decreases n
  {
    if n > 0 {
      var q, r := v / 256, v % 256;
      UnsignedBigEndian(q, n - 1);
      BigEndianSplit(v, n);
      var m, p := Pow256(n - 1), Pow256(n);
      var a, c := q / m, q % m;
      assert Unsigned(BigEndian(v, n)) == c * 256 + r;
      assert v == 256 * q + r;
      assert q == m * a + c;
      assert 256 * q == (256 * m) * a + 256 * c by {
        MulDistrib(256, m * a, c);
        MulAssoc(256, m, a);
      }
      assert p == 256 * m;
      assert 256 * c + r < p by {
        MulMonotone(256, c, m - 1);
      }
      ModUnique(v, p, a, 256 * c + r);
    }
  }

  /** BigEndian only sees `v` modulo 256^n. */
  lemma {:induction false} BigEndianMod(v: int, w: int, n: nat)
    requires v % Pow256(n) == w % Pow256(n)
    ensures BigEndian(v, n) == BigEndian(w, n)
    decreases n
  {
    if n > 0 {
      var m, p := Pow256(n - 1), Pow256(n);
      var k := v / p - w / p;
      assert v - w == p * k by {
        assert v == p * (v / p) + v % p;
        assert w == p * (w / p) + w % p;
      }
      assert v == w + 256 * (m * k) by {
        MulAssoc(256, m, k);
      }
      ModUnique(v, 256, w / 256 + m * k, w % 256);
      ModUnique(v / 256, m, (w / 256) / m + k, (w / 256) % m);
      BigEndianMod(v / 256, w / 256, n - 1);
    }
  }

  lemma {:induction false} BigEndianUnsigned(b: seq<byte>)
    ensures BigEndian(Unsigned(b), |b|) == b
  {
    if b != [] {
      var n := |b|;
      var init := b[..n - 1];
      BigEndianUnsigned(init);
      var u := Unsigned(b);
      ModUnique(u, 256, Unsigned(init), b[n - 1] as int);
      assert b == init + [b[n - 1]];
    }
  }

  /** The byte at index `i` of the `n`-byte layout of `v` is
      (v >> 8 * (n - 1 - i)) & 0xff. */
  lemma {:induction false} BigEndianByte(v: int, n: nat, i: nat)
    requires i < n
    ensures BigEndian(v, n)[i] as int == (v / Pow256(n - 1 - i)) % 256
    decreases n
  {
    if i < n - 1 {
      BigEndianByte(v / 256, n - 1, i);
      assert BigEndian(v, n)[i] == BigEndian(v / 256, n - 1)[i];
      DivDiv(v, 256, Pow256(n - 2 - i));
      assert Pow256(n - 1 - i) == 256 * Pow256(n - 2 - i);
    }
  }

  // ---------------------------------------------------------------------
  // Round trips

  /** Reading back the bytes of any `n`-byte two's-complement value. */
  lemma SignedBigEndian(v: int, n: nat)
    requires n > 0 && -(Pow256(n) / 2) <= v < Pow256(n) / 2
    ensures Signed(Unsigned(BigEndian(v, n)), n) == v
  {
    UnsignedBigEndian(v, n);
    var p := Pow256(n);
    assert p == 256 * Pow256(n - 1);
    if v >= 0 {
      ModUnique(v, p, 0, v);
    } else {
      ModUnique(v, p, -1, v + p);
    }
  }

  /** Writing back the two's-complement value that bytes denote gives the bytes. */
  lemma BigEndianSigned(b: seq<byte>)
    requires |b| > 0
    ensures BigEndian(Signed(Unsigned(b), |b|), |b|) == b
  {
    var n := |b|;
    var u := Unsigned(b);
    var p := Pow256(n);
    BigEndianUnsigned(b);
    if u >= p / 2 {
      var w := (u as int) - (p as int);
      assert Signed(u, n) == w;
      ModUnique(u, p, 0, u);
      ModUnique(w, p, -1, u);
      BigEndianMod(w, u, n);
    }
  }

  /** readInt(writeInt(x)) == x. */
  lemma Be32RoundTrip(x: int)
    requires IsInt(x)
    ensures FromBe32(Be32(x)) == x
  {
    assert Pow256(4) == 0x1_0000_0000;
    SignedBigEndian(x, 4);
  }

  /** getLong reads back what longToBytes wrote. */
  lemma Be64RoundTrip(x: int)
    requires IsLong(x)
    ensures FromBe64(Be64(x)) == x
  {
    assert Pow256(8) == 0x1_0000_0000_0000_0000;
    SignedBigEndian(x, 8);
  }

  /** Every four bytes are the writeInt image of the int readInt gives. */
  lemma FromBe32Inverse(b: seq<byte>)
    requires |b| == 4
    ensures IsInt(FromBe32(b)) && Be32(FromBe32(b)) == b
  {
    assert Pow256(4) == 0x1_0000_0000;
    BigEndianSigned(b);
  }

  /** Every eight bytes are the longToBytes image of the long getLong gives. */
  lemma FromBe64Inverse(b: seq<byte>)
    requires |b| == 8
    ensures IsLong(FromBe64(b)) && Be64(FromBe64(b)) == b
  {
    assert Pow256(8) == 0x1_0000_0000_0000_0000;
    BigEndianSigned(b);
  }

  /** writeInt is one-to-one. */
  lemma Be32Injective(x: int, y: int)
    requires IsInt(x) && IsInt(y) && Be32(x) == Be32(y)
    ensures x == y
  {
    Be32RoundTrip(x);
    Be32RoundTrip(y);
  }

  /** Concatenation is associative. */
  lemma AppendAssoc<T>(a: seq<T>, b: seq<T>, c: seq<T>)
    ensures a + (b + c) == (a + b) + c
  {
    assert |a + (b + c)| == |(a + b) + c|;
    forall i | 0 <= i < |a + (b + c)|
      ensures (a + (b + c))[i] == ((a + b) + c)[i]
    {
    }
  }

  /** A slice holding `a + b` splits into a slice holding `a` and one
      holding `b`. */
  lemma SplitSlice<T>(s: seq<T>, pos: nat, a: seq<T>, b: seq<T>)
    requires pos + |a| + |b| <= |s| && s[pos..pos + |a| + |b|] == a + b
    ensures s[pos..pos + |a|] == a && s[pos + |a|..pos + |a| + |b|] == b
  {
    SliceOfSlice(s, pos, pos + |a| + |b|, 0, |a|);
    SliceOfSlice(s, pos, pos + |a| + |b|, |a|, |a| + |b|);
    assert (a + b)[0..|a|] == a && (a + b)[|a|..|a| + |b|] == b;
  }

  /** A slice of a slice is a slice of the whole. */
  lemma SliceOfSlice<T>(s: seq<T>, a: nat, b: nat, i: nat, j: nat)
    requires a <= b <= |s| && i <= j <= b - a
    ensures s[a..b][i..j] == s[a + i..a + j]
  {
    assert |s[a..b][i..j]| == j - i == |s[a + i..a + j]|;
    forall k | 0 <= k < j - i
      ensures s[a..b][i..j][k] == s[a + i..a + j][k]
    {
      assert s[a..b][i..j][k] == s[a..b][i + k] == s[a + i + k];
    }
  }
}
