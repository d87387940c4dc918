/**
 How the exit queue packs a priority and a value into one 256-bit word:
 priority << 128 | value, split again by a shift and a truncation.
 */
module Packing {
  import opened Bytes

  /** Bitwise or of two naturals, one bit at a time. */
  function BitOr(a: nat, b: nat): (r: nat) {
    if a == 0 then b
    else if b == 0 then a
    else 2 * BitOr(a / 2, b / 2) + (if a % 2 == 1 || b % 2 == 1 then 1 else 0)
  }

  function Pow2(n: nat): (r: nat)
    ensures r > 0
  {
    if n == 0 then 1 else 2 * Pow2(n - 1)
  }

  /** a shifted left by n bits, in unbounded arithmetic. */
  function Shl(a: nat, n: nat): (r: nat) {
    if n == 0 then a else 2 * Shl(a, n - 1)
  }

  /** p << 128 in a 256-bit word: the high half of p is shifted out. */
  function Shl128(p: uint256): (r: uint256) {
    (p % TWO128) * TWO128
  }

  function Pack(priority: uint256, value: uint256): (e: nat) {
    BitOr(Shl128(priority), value)
  }

  function Priority(e: nat): (p: nat) {
    e / TWO128
  }

  function Position(e: nat): (v: nat) {
    e % TWO128
  }

  lemma {:induction false} Pow2Add(m: nat, n: nat)
    ensures Pow2(m + n) == Pow2(m) * Pow2(n)
  {
    if m > 0 {
      Pow2Add(m - 1, n);
      MulThree(2, Pow2(m - 1), Pow2(n));
    }
  }

  lemma {:induction false} Pow2Square(n: nat, v: nat)
    requires Pow2(n) == v
    ensures Pow2(n + n) == v * v
  {
    Pow2Add(n, n);
  }

  lemma {:induction false} Pow2Is128()
    ensures Pow2(128) == TWO128
  {
    var n := 1;
    assert Pow2(n) == 2;
    Pow2Square(n, 2);
    Pow2Square(n + n, 4);
    n := 4;
    Pow2Square(n, 16);
    Pow2Square(n + n, 256);
    n := 16;
    Pow2Square(n, 0x1_0000);
    Pow2Square(n + n, 0x1_0000_0000);
    n := 64;
    Pow2Square(n, 0x1_0000_0000_0000_0000);
  }

  /** Or works on the bits above and below position n separately. */
  lemma {:induction false} BitOrSplits(a1: nat, a0: nat, b1: nat, b0: nat, n: nat)
    requires a0 < Pow2(n) && b0 < Pow2(n)
    ensures BitOr(Shl(a1, n) + a0, Shl(b1, n) + b0) == Shl(BitOr(a1, b1), n) + BitOr(a0, b0)
    decreases n
  {
    if n > 0 {
      BitOrSplits(a1, a0 / 2, b1, b0 / 2, n - 1);
      BitOrDoubled(Shl(a1, n - 1), Shl(b1, n - 1), Shl(BitOr(a1, b1), n - 1), a0, b0);
    }
  }

  lemma {:induction false} ShlIsProduct(a: nat, n: nat)
    ensures Shl(a, n) == a * Pow2(n)
  {
    if n > 0 {
      ShlIsProduct(a, n - 1);
      assert 2 * (a * Pow2(n - 1)) == a * (2 * Pow2(n - 1));
    }
  }

  lemma {:induction false} BitOrDoubled(x: nat, y: nat, z: nat, a0: nat, b0: nat)
    requires BitOr(x + a0 / 2, y + b0 / 2) == z + BitOr(a0 / 2, b0 / 2)
    ensures BitOr(2 * x + a0, 2 * y + b0) == 2 * z + BitOr(a0, b0)
  {
    BitOrStep(2 * x + a0, 2 * y + b0);
    BitOrStep(a0, b0);
    assert (2 * x + a0) / 2 == x + a0 / 2 && (2 * y + b0) / 2 == y + b0 / 2;
  }

  /** The recursion equation of BitOr also holds when an operand is zero. */
  lemma {:induction false} BitOrStep(a: nat, b: nat)
    ensures BitOr(a, b) == 2 * BitOr(a / 2, b / 2) + (if a % 2 == 1 || b % 2 == 1 then 1 else 0)
  {
  }

  /** Bit n of a number. */
  predicate Bit(x: nat, n: nat) {
    x / Pow2(n) % 2 == 1
  }

  lemma {:induction false} BitBelow(x: nat, n: nat)
    requires n > 0
    ensures Bit(x, n) <==> Bit(x / 2, n - 1)
  {
    var p := Pow2(n - 1);
    var q, r := x / 2 / p, x / 2 % p;
    assert x == 2 * (x / 2) + x % 2;
    MulThree(2, p, q);
    DivModUnique(x, 2 * p, q, 2 * r + x % 2);
  }

  /** A bit of the result is set exactly if it is set in one of the two operands. */
  lemma {:induction false} BitOrBits(a: nat, b: nat, n: nat)
    ensures Bit(BitOr(a, b), n) <==> Bit(a, n) || Bit(b, n)
    decreases n
  {
    BitOrStep(a, b);
    if n > 0 {
      BitBelow(a, n);
      BitBelow(b, n);
      BitBelow(BitOr(a, b), n);
      BitOrBits(a / 2, b / 2, n - 1);
      assert BitOr(a, b) / 2 == BitOr(a / 2, b / 2);
    }
  }

  lemma {:induction false} BitOrBound(a: nat, b: nat, n: nat)
    requires a < Pow2(n) && b < Pow2(n)
    ensures BitOr(a, b) < Pow2(n)
    decreases n
  {
    if a > 0 && b > 0 {
      BitOrBound(a / 2, b / 2, n - 1);
    }
  }

  /** What a packed word holds, for any priority and value: the high half of the
      value is or-ed into the low half of the priority. */
  lemma {:induction false} PackedHalves(p: uint256, v: uint256)
    ensures Priority(Pack(p, v)) == BitOr(p % TWO128, v / TWO128)
    ensures Position(Pack(p, v)) == v % TWO128
    ensures Pack(p, v) < TWO256
  {
    Pow2Is128();
    var hi, lo := v / TWO128, v % TWO128;
    assert hi < TWO128;
    BitOrSplits(p % TWO128, 0, hi, lo, 128);
    ShlIsProduct(p % TWO128, 128);
    ShlIsProduct(hi, 128);
    ShlIsProduct(BitOr(p % TWO128, hi), 128);
    BitOrBound(p % TWO128, hi, 128);
    assert Pack(p, v) == TWO128 * BitOr(p % TWO128, hi) + lo;
  }

  /** Splitting a packed word returns what was packed exactly when both parts fit in 128 bits. */
  lemma {:induction false} PackRoundTrip(p: uint256, v: uint256)
    ensures (Priority(Pack(p, v)) == p && Position(Pack(p, v)) == v) <==> (p < TWO128 && v < TWO128)
    ensures p < TWO128 && v < TWO128 ==> Pack(p, v) == p * TWO128 + v
  {
    PackedHalves(p, v);
    if p < TWO128 && v < TWO128 {
      assert v / TWO128 == 0;
      assert BitOr(p, 0) == p;
      assert Pack(p, v) == Priority(Pack(p, v)) * TWO128 + Position(Pack(p, v));
    } else if p >= TWO128 {
      Pow2Is128();
      BitOrBound(p % TWO128, v / TWO128, 128);
    }
  }

  /** On 128-bit parts the numeric order of packed words is the lexicographic order. */
  lemma {:induction false} PackOrder(p: uint256, v: uint256, q: uint256, w: uint256)
    requires p < TWO128 && v < TWO128 && q < TWO128 && w < TWO128
    ensures Pack(p, v) < Pack(q, w) <==> p < q || (p == q && v < w)
    ensures Pack(p, v) == Pack(q, w) <==> p == q && v == w
  {
    PackRoundTrip(p, v);
    PackRoundTrip(q, w);
  }
}
