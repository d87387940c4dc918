/**
 Bytes and machine words.

 Byte strings are sequences of values below 256.  A machine word is a natural
 number together with the width it is stored in; wrap-around is always written
 out by the code that needs it.
 */
module Bytes {

  type byte = x: int | 0 <= x < 256

  type bytes = seq<byte>

  /** A value, or none when a call reverts or finds nothing. */
  datatype Option<+T> = None | Some(value: T)

  const TWO32: nat := 0x1_0000_0000
  const TWO63: nat := 0x8000_0000_0000_0000
  const TWO64: nat := 0x1_0000_0000_0000_0000
  const TWO128: nat := 0x1_0000_0000_0000_0000_0000_0000_0000_0000
  const TWO160: nat := 0x1_0000_0000_0000_0000_0000_0000_0000_0000_0000_0000
  const TWO256: nat := TWO128 * TWO128

  type uint32 = x: int | 0 <= x < TWO32
  type uint64 = x: int | 0 <= x < TWO64
  type uint256 = x: int | 0 <= x < TWO256

  const ADDRESS_LEN: nat := 20
  const WORD_LEN: nat := 32

  /** A 20-byte account address, read as a number. */
  type Address = x: int | 0 <= x < TWO160

  /** 256-bit addition, which wraps around. */
  function Plus(x: uint256, y: uint256): (r: uint256) {
    if x + y < TWO256 then x + y else x + y - TWO256
  }

  /** 256 to the power n. */
  function Pow256(n: nat): (r: nat)
    ensures r > 0
  {
    if n == 0 then 1 else 256 * Pow256(n - 1)
  }

  /** The number a byte string denotes, most significant byte first. */
  function Value(s: bytes): (r: nat) {
    if s == [] then 0 else Value(s[..|s| - 1]) * 256 + s[|s| - 1]
  }

  /** Byte k of x, counted from the least significant one. */
  function Digit(x: nat, k: nat): (d: byte)
    decreases k
  {
    if k == 0 then x % 256 else Digit(x / 256, k - 1)
  }

  /** The low n bytes of x, most significant byte first. */
  function BigEndian(x: nat, n: nat): (s: bytes)
    ensures |s| == n
  {
    seq(n, i requires 0 <= i < n => Digit(x, n - 1 - i))
  }

  lemma {:induction false} BigEndianStep(x: nat, n: nat)
    requires n > 0
    ensures BigEndian(x, n) == BigEndian(x / 256, n - 1) + [x % 256]
  {
    var s, t := BigEndian(x, n), BigEndian(x / 256, n - 1) + [x % 256];
    forall i | 0 <= i < n
      ensures s[i] == t[i]
    {
      assert i < n - 1 ==> Digit(x, n - 1 - i) == Digit(x / 256, n - 2 - i);
    }
  }

  /** n zero bytes. */
  function Zeros(n: nat): (s: bytes)
    ensures |s| == n
    ensures forall i :: 0 <= i < n ==> s[i] == 0
  {
    seq(n, _ => 0)
  }

  lemma {:induction false} ValueBound(s: bytes)
    ensures Value(s) < Pow256(|s|)
  {
    if s != [] {
      ValueBound(s[..|s| - 1]);
    }
  }

  /** Reading back the low n bytes of x gives x modulo 256^n. */
  lemma {:induction false} ValueOfBigEndian(x: nat, n: nat)
    ensures Value(BigEndian(x, n)) == x % Pow256(n)
    decreases n
  {
    if n > 0 {
      var s := BigEndian(x, n);
      BigEndianStep(x, n);
      assert s[..|s| - 1] == BigEndian(x / 256, n - 1);
      ValueOfBigEndian(x / 256, n - 1);
      ModStep(x, Pow256(n - 1));
    }
  }

  lemma {:induction false} ModStep(x: nat, p: nat)
    requires p > 0
    ensures (x / 256) % p * 256 + x % 256 == x % (256 * p)
  {
    var q := x / 256;
    var d := q / p;
    assert q == p * d + q % p;
    assert x == 256 * q + x % 256;
    assert 256 * (p * d) == (256 * p) * d;
    var r := 256 * (q % p) + x % 256;
    assert x == (256 * p) * d + r;
    assert 0 <= r < 256 * p;
    DivModUnique(x, 256 * p, d, r);
  }

  lemma {:induction false} DivModUnique(x: int, p: int, q: int, r: int)
    requires p > 0 && 0 <= r < p && x == p * q + r
    ensures x / p == q && x % p == r
  {
    var q', r' := x / p, x % p;
    assert x == p * q' + r';
    assert p * (q - q') == r' - r;
    if q > q' {
      MulMono(1, q - q', p);
    } else if q < q' {
      MulMono(1, q' - q, p);
    }
  }

  lemma {:induction false} MulMono(a: int, b: int, p: int)
    requires a <= b && p >= 0
    ensures a * p <= b * p && p * a <= p * b
  {
  }

  /** A value that fits is read back exactly. */
  lemma {:induction false} ValueOfBigEndianExact(x: nat, n: nat)
    requires x < Pow256(n)
    ensures Value(BigEndian(x, n)) == x
  {
    ValueOfBigEndian(x, n);
    DivModUnique(x, Pow256(n), 0, x);
  }

  /** Writing out the value of a string at its own length gives the string back. */
  lemma {:induction false} BigEndianOfValue(s: bytes)
    ensures BigEndian(Value(s), |s|) == s
  {
    if s != [] {
      var t := s[..|s| - 1];
      BigEndianOfValue(t);
      BigEndianStep(Value(s), |s|);
      assert Value(s) / 256 == Value(t) && Value(s) % 256 == s[|s| - 1];
      assert s == t + [s[|s| - 1]];
    }
  }

  /** Fixed-width big-endian encoding is injective on values that fit. */
  lemma {:induction false} BigEndianInjective(x: nat, y: nat, n: nat)
    requires x < Pow256(n) && y < Pow256(n)
    requires BigEndian(x, n) == BigEndian(y, n)
    ensures x == y
  {
    ValueOfBigEndianExact(x, n);
    ValueOfBigEndianExact(y, n);
  }

  lemma {:induction false} MulThree(a: int, b: int, c: int)
    ensures a * (b * c) == (a * b) * c
  {
  }

  lemma {:induction false} PowAdd(m: nat, n: nat)
    ensures Pow256(m + n) == Pow256(m) * Pow256(n)
  {
    if m > 0 {
      PowAdd(m - 1, n);
      MulThree(256, Pow256(m - 1), Pow256(n));
    }
  }

  /** Concatenation shifts the first operand left by the length of the second. */
  lemma {:induction false} ValueConcat(a: bytes, b: bytes)
    ensures Value(a + b) == Value(a) * Pow256(|b|) + Value(b)
  {
    if b == [] {
      assert a + b == a;
    } else {
      var c := b[..|b| - 1];
      ValueConcat(a, c);
      assert (a + b)[..|a + b| - 1] == a + c;
      assert (Value(a) * Pow256(|c|)) * 256 == Value(a) * (256 * Pow256(|c|));
    }
  }

  lemma {:induction false} ValueOfZeros(n: nat)
    ensures Value(Zeros(n)) == 0
  {
    if n > 0 {
      ValueOfZeros(n - 1);
      assert Zeros(n)[..n - 1] == Zeros(n - 1);
    }
  }

  /** The widths used by the program, as numbers. */
  lemma {:induction false} PowWidths()
    ensures Pow256(4) == TWO32
    ensures Pow256(8) == TWO64
    ensures Pow256(16) == TWO128
    ensures Pow256(20) == TWO160
    ensures Pow256(32) == TWO256
  {
    assert Pow256(4) == TWO32 by {
      assert Pow256(1) == 256;
      assert Pow256(2) == 65536;
      assert Pow256(3) == 16777216;
    }
    PowAdd(4, 4);
    PowAdd(8, 8);
    PowAdd(16, 4);
    PowAdd(16, 16);
  }

  /** The shortest big-endian form of x: no leading zero, and nothing at all for 0. */
  function Minimal(x: nat): (s: bytes) {
    if x == 0 then [] else Minimal(x / 256) + [x % 256]
  }

  lemma {:induction false} ValueOfMinimal(x: nat)
    ensures Value(Minimal(x)) == x
    ensures x > 0 ==> Minimal(x) != [] && Minimal(x)[0] != 0
  {
    if x > 0 {
      ValueOfMinimal(x / 256);
      assert Minimal(x)[..|Minimal(x)| - 1] == Minimal(x / 256);
    }
  }

  /** Strings of equal length and value are equal. */
  lemma {:induction false} ValueInjective(a: bytes, b: bytes)
    requires |a| == |b| && Value(a) == Value(b)
    ensures a == b
  {
    BigEndianOfValue(a);
    BigEndianOfValue(b);
  }

  /** Writing out hi * 256^k + lo writes hi, then lo in k bytes. */
  lemma {:induction false} BigEndianSplit(hi: nat, lo: nat, n: nat, k: nat)
    requires hi < Pow256(n) && lo < Pow256(k)
    ensures BigEndian(hi * Pow256(k) + lo, n + k) == BigEndian(hi, n) + BigEndian(lo, k)
  {
    var x := hi * Pow256(k) + lo;
    var a, b := BigEndian(hi, n), BigEndian(lo, k);
    ValueOfBigEndianExact(hi, n);
    ValueOfBigEndianExact(lo, k);
    ValueConcat(a, b);
    ValueBound(a + b);
    ValueOfBigEndianExact(x, n + k);
    ValueInjective(BigEndian(x, n + k), a + b);
  }

  /** A string without leading zero is the shortest form of its value. */
  lemma {:induction false} MinimalOfValue(s: bytes)
    requires s != [] ==> s[0] != 0
    ensures Minimal(Value(s)) == s && (s != [] ==> Value(s) > 0)
  {
    if s != [] {
      var t := s[..|s| - 1];
      MinimalOfValue(t);
      assert Value(s) / 256 == Value(t) && Value(s) % 256 == s[|s| - 1];
      assert s == t + [s[|s| - 1]];
    }
  }

  /** Dropping leading zeros keeps the value. */
  lemma {:induction false} DropZeros(s: bytes, i: nat)
    requires i <= |s| && forall k :: 0 <= k < i ==> s[k] == 0
    ensures Value(s[i..]) == Value(s)
  {
    assert s[..i] == Zeros(i);
    assert s == s[..i] + s[i..];
    ValueOfZeros(i);
    ValueConcat(s[..i], s[i..]);
  }
}
