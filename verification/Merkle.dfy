/**
 Merkle roots, proofs and their verification.

 A tree over n leaves splits them into the first n/2 and the rest, all the way
 down.  A proof lists the sibling of every node on the way from a leaf to the
 root.  The verifier never sees the tree: it guesses on which side each sibling
 lies from the parity of the leaf index.

 The hash is any function on byte strings.  Results that depend on its collision
 resistance name the two colliding inputs, so they hold of every hash.
 */
module Merkle {
  import opened Bytes
  import opened Packing

  type Hasher = bytes -> bytes

  const HASH_LEN: nat := 32

  ghost predicate Yields32(K: Hasher) {
    forall x :: |K(x)| == HASH_LEN
  }

  predicate All32(s: seq<bytes>) {
    forall i :: 0 <= i < |s| ==> |s[i]| == HASH_LEN
  }

  // ---- The tree, as a function of its leaves ----

  function RootOf(K: Hasher, hs: seq<bytes>): (r: bytes)
    requires hs != []
  {
    if |hs| == 1 then hs[0]
    else K(RootOf(K, hs[..|hs| / 2]) + RootOf(K, hs[|hs| / 2..]))
  }

  /** The siblings on the way from leaf i to the root. */
  function ProofOf(K: Hasher, hs: seq<bytes>, i: nat): (p: seq<bytes>)
    requires i < |hs|
    decreases |hs|
  {
    var m := |hs| / 2;
    if |hs| == 1 then []
    else if i < m then ProofOf(K, hs[..m], i) + [RootOf(K, hs[m..])]
    else ProofOf(K, hs[m..], i - m) + [RootOf(K, hs[..m])]
  }

  /** The turns on the way from leaf i of n to the root: true when the node is a right child. */
  function Turns(n: nat, i: nat): (d: seq<bool>)
    requires i < n
  {
    if n == 1 then []
    else if i < n / 2 then Turns(n / 2, i) + [false]
    else Turns(n - n / 2, i - n / 2) + [true]
  }

  /** An odd number of leaves is padded with one zero leaf. */
  function Padded(hs: seq<bytes>): (r: seq<bytes>) {
    if |hs| % 2 != 0 then hs + [Zeros(HASH_LEN)] else hs
  }

  // ---- Verification ----

  /** A node and its sibling in hashing order. */
  function Pair(h: bytes, sibling: bytes, right: bool): (r: bytes) {
    if right then sibling + h else h + sibling
  }

  /** The hash reached from h by climbing along the given turns and siblings. */
  function Climb(K: Hasher, h: bytes, turns: seq<bool>, proof: seq<bytes>): (r: bytes)
    requires |turns| == |proof|
  {
    if proof == [] then h
    else
      var t := |proof| - 1;
      K(Pair(Climb(K, h, turns[..t], proof[..t]), proof[t], turns[t]))
  }

  /** i halved t times. */
  function Half(i: nat, t: nat): (r: nat) {
    if t == 0 then i else Half(i, t - 1) / 2
  }

  /** The turns the verifier assumes: the low n bits of the index. */
  function Bits(i: nat, n: nat): (d: seq<bool>)
    ensures |d| == n
  {
    if n == 0 then [] else Bits(i, n - 1) + [Half(i, n - 1) % 2 == 1]
  }

  predicate Accepts(K: Hasher, leaf: bytes, root: bytes, i: nat, proof: seq<bytes>) {
    Climb(K, leaf, Bits(i, |proof|), proof) == root
  }

  // ---- Climbing the tree ----

  lemma {:induction false} ProofUnfolds(K: Hasher, hs: seq<bytes>, i: nat)
    requires 1 < |hs| && i < |hs|
    ensures var m := |hs| / 2;
            ProofOf(K, hs, i) == if i < m then ProofOf(K, hs[..m], i) + [RootOf(K, hs[m..])]
                                 else ProofOf(K, hs[m..], i - m) + [RootOf(K, hs[..m])]
  {
  }

  lemma {:induction false} TurnsUnfold(n: nat, i: nat)
    requires 1 < n && i < n
    ensures Turns(n, i) == if i < n / 2 then Turns(n / 2, i) + [false] else Turns(n - n / 2, i - n / 2) + [true]
  {
  }

  lemma {:induction false} ClimbSnoc(K: Hasher, h: bytes, turns: seq<bool>, proof: seq<bytes>, d: bool, e: bytes)
    requires |turns| == |proof|
    ensures Climb(K, h, turns + [d], proof + [e]) == K(Pair(Climb(K, h, turns, proof), e, d))
  {
    assert (turns + [d])[..|proof|] == turns && (proof + [e])[..|proof|] == proof;
  }

  /** The order of hashing: the root of two leaves hashes the first, then the second; and a one-step proof of
      leaf 0 puts the sibling behind the leaf, of leaf 1 in front of it. */
  lemma {:induction false} TwoLeaves(K: Hasher, a: bytes, b: bytes, root: bytes)
    ensures RootOf(K, [a, b]) == K(a + b)
    ensures Accepts(K, a, root, 0, [b]) <==> root == K(a + b)
    ensures Accepts(K, b, root, 1, [a]) <==> root == K(a + b)
  {
    assert [a, b][..1] == [a] && [a, b][1..] == [b];
    OneStep(K, a, b, 0);
    OneStep(K, b, a, 1);
  }

  lemma {:induction false} OneStep(K: Hasher, h: bytes, e: bytes, i: nat)
    requires i < 2
    ensures |Bits(i, 1)| == 1 && Climb(K, h, Bits(i, 1), [e]) == K(if i == 1 then e + h else h + e)
  {
    assert Half(i, 0) == i && Bits(i, 0) == [] && Bits(i, 1) == [i == 1];
    ClimbSnoc(K, h, [], [], i == 1, e);
    assert [] + [i == 1] == [i == 1] && [] + [e] == [e];
  }

  predicate Reaches(K: Hasher, leaf: bytes, turns: seq<bool>, proof: seq<bytes>, root: bytes) {
    |turns| == |proof| && Climb(K, leaf, turns, proof) == root
  }

  lemma {:induction false} ReachesUp(K: Hasher, leaf: bytes, turns: seq<bool>, proof: seq<bytes>, root: bytes,
                                     turns': seq<bool>, proof': seq<bytes>, d: bool, e: bytes)
    requires Reaches(K, leaf, turns, proof, root)
    requires turns' == turns + [d] && proof' == proof + [e]
    ensures Reaches(K, leaf, turns', proof', K(Pair(root, e, d)))
  {
    ClimbSnoc(K, leaf, turns, proof, d, e);
  }

  /** One level of the tree: the half that holds leaf i, where it lies in it, its side and its sibling. */
  lemma {:induction false} Descend(K: Hasher, hs: seq<bytes>, i: nat)
    returns (sub: seq<bytes>, j: nat, d: bool, e: bytes)
    requires 1 < |hs| && i < |hs|
    ensures |sub| < |hs| && j < |sub| && sub[j] == hs[i]
    ensures |sub| == if d then |hs| - |hs| / 2 else |hs| / 2
    ensures Turns(|hs|, i) == Turns(|sub|, j) + [d]
    ensures ProofOf(K, hs, i) == ProofOf(K, sub, j) + [e]
    ensures RootOf(K, hs) == K(Pair(RootOf(K, sub), e, d))
  {
    var m := |hs| / 2;
    TurnsUnfold(|hs|, i);
    ProofUnfolds(K, hs, i);
    if i < m {
      sub, j, d, e := hs[..m], i, false, RootOf(K, hs[m..]);
    } else {
      sub, j, d, e := hs[m..], i - m, true, RootOf(K, hs[..m]);
    }
  }

  /** With the right turns, every leaf climbs to the root, whatever the number of leaves. */
  lemma {:induction false} ProofReachesRoot(K: Hasher, hs: seq<bytes>, i: nat)
    requires i < |hs|
    ensures Reaches(K, hs[i], Turns(|hs|, i), ProofOf(K, hs, i), RootOf(K, hs))
    decreases |hs|
  {
    if |hs| > 1 {
      var sub, j, d, e := Descend(K, hs, i);
      ProofReachesRoot(K, sub, j);
      ReachesUp(K, hs[i], Turns(|sub|, j), ProofOf(K, sub, j), RootOf(K, sub),
                Turns(|hs|, i), ProofOf(K, hs, i), d, e);
    }
  }

  lemma {:induction false} RootIs32(K: Hasher, hs: seq<bytes>)
    requires hs != [] && Yields32(K) && All32(hs)
    ensures |RootOf(K, hs)| == HASH_LEN
  {
  }

  lemma {:induction false} ProofIs32(K: Hasher, hs: seq<bytes>, i: nat)
    requires i < |hs| && Yields32(K) && All32(hs)
    ensures All32(ProofOf(K, hs, i))
    decreases |hs|
  {
    var m := |hs| / 2;
    if |hs| > 1 {
      RootIs32(K, hs[..m]);
      RootIs32(K, hs[m..]);
      if i < m {
        ProofIs32(K, hs[..m], i);
      } else {
        ProofIs32(K, hs[m..], i - m);
      }
    }
  }

  // ---- When do the index bits agree with the turns? ----

  /** The position of the highest bit of n. */
  function Log(n: nat): (k: nat)
    requires n > 0
  {
    if n == 1 then 0 else 1 + Log(n / 2)
  }

  /** The least k with n <= 2^k. */
  function CeilLog(n: nat): (k: nat)
    requires n > 0
  {
    if n == 1 then 0 else 1 + CeilLog((n + 1) / 2)
  }

  predicate IsPowerOfTwo(n: nat)
    requires n > 0
  {
    n == Pow2(Log(n))
  }

  lemma {:induction false} LogBounds(n: nat)
    requires n > 0
    ensures Pow2(Log(n)) <= n < 2 * Pow2(Log(n))
    ensures n <= Pow2(CeilLog(n)) < 2 * n
  {
    FloorLogBounds(n);
    CeilLogBounds(n);
  }

  lemma {:induction false} FloorLogBounds(n: nat)
    requires n > 0
    ensures Pow2(Log(n)) <= n < 2 * Pow2(Log(n))
  {
    if n > 1 {
      FloorLogBounds(n / 2);
    }
  }

  lemma {:induction false} CeilLogBounds(n: nat)
    requires n > 0
    ensures n <= Pow2(CeilLog(n)) < 2 * n
  {
    if n > 1 {
      CeilLogBounds((n + 1) / 2);
    }
  }

  lemma {:induction false} LogOfPow2(k: nat)
    ensures Log(Pow2(k)) == k
  {
    if k > 0 {
      LogOfPow2(k - 1);
    }
  }

  lemma {:induction false} LogMonotone(m: nat, n: nat)
    requires 0 < m <= n
    ensures Log(m) <= Log(n) && CeilLog(m) <= CeilLog(n)
  {
    if m > 1 {
      LogMonotone(m / 2, n / 2);
      LogMonotone((m + 1) / 2, (n + 1) / 2);
    }
  }

  /** A proof is as long as the logarithm of the leaf count, rounded down or up. */
  lemma {:induction false} ProofLength(K: Hasher, hs: seq<bytes>, i: nat)
    requires i < |hs|
    ensures Log(|hs|) <= |ProofOf(K, hs, i)| <= CeilLog(|hs|)
    decreases |hs|
  {
    if |hs| > 1 {
      var sub, j, d, e := Descend(K, hs, i);
      ProofLength(K, sub, j);
      LogStep(|hs|, |sub|, |ProofOf(K, sub, j)|);
    }
  }

  /** A bound on either half gives the bound on the whole. */
  lemma {:induction false} LogStep(n: nat, half: nat, k: nat)
    requires n > 1 && (half == n / 2 || half == n - n / 2) && Log(half) <= k <= CeilLog(half)
    ensures Log(n) <= k + 1 <= CeilLog(n)
  {
    LogMonotone(n / 2, half);
    LogMonotone(half, n - n / 2);
  }

  lemma {:induction false} HalfShift(i: nat, t: nat)
    requires t > 0
    ensures Half(i, t) == Half(i / 2, t - 1)
  {
    if t > 1 {
      HalfShift(i, t - 1);
    }
  }

  lemma {:induction false} HalfOfShl(x: nat, i: nat, t: nat)
    requires i < Pow2(t)
    ensures Half(Shl(x, t) + i, t) == x
    decreases t
  {
    if t > 0 {
      HalfShift(Shl(x, t) + i, t);
      HalfOfShl(x, i / 2, t - 1);
    }
  }

  lemma {:induction false} ShlDouble(x: nat, t: nat)
    ensures Shl(2 * x, t) == Shl(x, t + 1)
    ensures Shl(2 * x + 1, t) == Shl(x, t + 1) + Pow2(t)
  {
    if t > 0 {
      ShlDouble(x, t - 1);
    }
  }

  /** In a full tree that starts at a multiple of its size, the turns are the index bits. */
  lemma {:induction false} FullTreeTurns(k: nat, n: nat, x: nat, i: nat)
    requires n == Pow2(k) && i < n
    ensures Turns(n, i) == Bits(Shl(x, k) + i, k)
    decreases k
  {
    if k > 0 {
      var m, right := Pow2(k - 1), i >= Pow2(k - 1);
      var c, y := if right then i - m else i, if right then 2 * x + 1 else 2 * x;
      FullTreeTurns(k - 1, m, y, c);
      TopTurn(m, c, k, y, right);
      assert Shl(y, k - 1) + c == Shl(x, k) + i by {
        ShlDouble(x, k - 1);
      }
    }
  }

  /** The topmost turn of a full tree of 2h leaves is bit k - 1 of the index. */
  lemma {:induction false} TopTurn(h: nat, c: nat, k: nat, x: nat, right: bool)
    requires k > 0 && h == Pow2(k - 1) && c < h && (x % 2 == 1 <==> right)
    requires Turns(h, c) == Bits(Shl(x, k - 1) + c, k - 1)
    ensures Turns(2 * h, if right then h + c else c) == Bits(Shl(x, k - 1) + c, k)
  {
    HalfOfShl(x, c, k - 1);
    TurnsUnfold(2 * h, if right then h + c else c);
  }

  /** Every leaf of the subtree of s leaves that starts at leaf o has turns equal to its index bits. */
  ghost predicate TurnsAreBits(s: nat, o: nat) {
    forall i :: 0 <= i < s ==> Turns(s, i) == Bits(o + i, |Turns(s, i)|)
  }

  lemma {:induction false} TurnsAreBitsBelow(s: nat, o: nat)
    requires s > 1 && TurnsAreBits(s, o)
    ensures TurnsAreBits(s / 2, o) && TurnsAreBits(s - s / 2, o + s / 2)
  {
    var m := s / 2;
    forall i | 0 <= i < m
      ensures Turns(m, i) == Bits(o + i, |Turns(m, i)|)
    {
      assert Turns(s, i) == Turns(m, i) + [false];
      assert Turns(m, i) == Turns(s, i)[..|Turns(m, i)|];
    }
    var r := s - m;
    forall i | 0 <= i < r
      ensures Turns(r, i) == Bits(o + m + i, |Turns(r, i)|)
    {
      assert Turns(s, i + m) == Turns(r, i) + [true];
      assert Turns(r, i) == Turns(s, i + m)[..|Turns(r, i)|];
    }
  }

  lemma {:induction false} NoConsecutivePowers(a: nat, b: nat)
    ensures Pow2(a) + 1 == Pow2(b) ==> a == 0 && b == 1
  {
    assert a > 0 ==> Pow2(a) % 2 == 0;
    assert b > 0 ==> Pow2(b) % 2 == 0;
  }

  /** Two neighbouring subtrees that both satisfy the converse have the same size. */
  lemma {:induction false} EvenSplit(m: nat, r: nat, o: nat)
    requires 0 < m && (r == m || r == m + 1) && IsPowerOfTwo(m) && IsPowerOfTwo(r)
    requires Half(o, Log(m)) % 2 == 0 && o + m == Shl(Half(o + m, Log(r)), Log(r))
    ensures r == m
  {
    NoConsecutivePowers(Log(m), Log(r));
    assert Shl(Half(o + m, 1), 1) % 2 == 0;
  }

  /** The converse: turns and index bits agree on all leaves only in a full tree. */
  lemma {:induction false} OnlyFullTrees(s: nat, o: nat)
    requires s > 0 && TurnsAreBits(s, o)
    ensures IsPowerOfTwo(s) && o == Shl(Half(o, Log(s)), Log(s))
  {
    if s > 1 {
      var m := s / 2;
      TurnsAreBitsBelow(s, o);
      OnlyFullTrees(m, o);
      OnlyFullTrees(s - m, o + m);
      var a := Log(m);
      assert Turns(s, 0) == Turns(m, 0) + [false];
      FullTreeTurns(a, m, 0, 0);
      assert |Turns(m, 0)| == a;
      assert !Turns(s, 0)[a];
      assert Half(o, a) % 2 == 0;
      EvenSplit(m, s - m, o);
      assert s == 2 * m && Log(s) == a + 1;
      ShlDouble(Half(o, a) / 2, a);
    }
  }

  /** The verifier's reading of the index is right for every leaf of a tree exactly
      when the number of leaves is a power of two. */
  lemma {:induction false} BitsAreTurnsExactly(n: nat)
    requires n > 0
    ensures TurnsAreBits(n, 0) <==> IsPowerOfTwo(n)
  {
    if TurnsAreBits(n, 0) {
      OnlyFullTrees(n, 0);
    }
    if IsPowerOfTwo(n) {
      forall i | 0 <= i < n
        ensures Turns(n, i) == Bits(0 + i, |Turns(n, i)|)
      {
        FullTurns(n, i);
      }
    }
  }

  lemma {:induction false} FullTurns(n: nat, i: nat)
    requires i < n && IsPowerOfTwo(n)
    ensures Turns(n, i) == Bits(i, Log(n))
  {
    FullTreeTurns(Log(n), n, 0, i);
    ShlZero(Log(n));
  }

  lemma {:induction false} ShlZero(k: nat)
    ensures Shl(0, k) == 0
  {
    if k > 0 {
      ShlZero(k - 1);
    }
  }

  /** Completeness: on 2^k leaves every proof is accepted and has k elements. */
  lemma {:induction false} Completeness(K: Hasher, hs: seq<bytes>, i: nat)
    requires i < |hs| && IsPowerOfTwo(|hs|)
    ensures |ProofOf(K, hs, i)| == Log(|hs|)
    ensures Accepts(K, hs[i], RootOf(K, hs), i, ProofOf(K, hs, i))
  {
    ProofReachesRoot(K, hs, i);
    FullTurns(|hs|, i);
  }

  // ---- Soundness ----

  predicate IsCollision(K: Hasher, c: (bytes, bytes)) {
    c.0 != c.1 && K(c.0) == K(c.1)
  }

  /** Compare two climbs from the top down and return the first pair of hash inputs that differ. */
  function FirstDifference(K: Hasher, h1: bytes, t1: seq<bool>, p1: seq<bytes>,
                           h2: bytes, t2: seq<bool>, p2: seq<bytes>): (c: (bytes, bytes))
    requires |t1| == |p1| == |t2| == |p2|
    decreases |p1|
  {
    if p1 == [] then ([], [])
    else
      var n := |p1| - 1;
      var x := Pair(Climb(K, h1, t1[..n], p1[..n]), p1[n], t1[n]);
      var y := Pair(Climb(K, h2, t2[..n], p2[..n]), p2[n], t2[n]);
      if x != y then (x, y) else FirstDifference(K, h1, t1[..n], p1[..n], h2, t2[..n], p2[..n])
  }

  /** Two hash inputs built from 32-byte parts are equal only if their parts are. */
  lemma {:induction false} PairSplit(h1: bytes, e1: bytes, d1: bool, h2: bytes, e2: bytes, d2: bool)
    requires |h1| == |e1| == |h2| == |e2| == HASH_LEN
    requires d1 == d2 || e1 == e2
    requires Pair(h1, e1, d1) == Pair(h2, e2, d2)
    ensures h1 == h2 && e1 == e2
    ensures d1 != d2 ==> h1 == e1
  {
    var x, y := Pair(h1, e1, d1), Pair(h2, e2, d2);
    assert x[..HASH_LEN] == (if d1 then e1 else h1) && x[HASH_LEN..] == (if d1 then h1 else e1);
    assert y[..HASH_LEN] == (if d2 then e2 else h2) && y[HASH_LEN..] == (if d2 then h2 else e2);
  }

  /** Level t of a climb, where a wrong turn does no harm because both children are equal. */
  predicate Harmless(K: Hasher, h: bytes, t1: seq<bool>, p: seq<bytes>, t2: seq<bool>, t: nat)
    requires t < |p| == |t1| == |t2|
  {
    t1[t] == t2[t] || Climb(K, h, t1[..t], p[..t]) == p[t]
  }

  lemma {:induction false} Climb32(K: Hasher, h: bytes, turns: seq<bool>, proof: seq<bytes>)
    requires |turns| == |proof| && |h| == HASH_LEN && Yields32(K)
    ensures |Climb(K, h, turns, proof)| == HASH_LEN
  {
  }

  lemma {:induction false} HarmlessUp(K: Hasher, h: bytes, t1: seq<bool>, p: seq<bytes>, t2: seq<bool>)
    requires p != [] && |p| == |t1| == |t2|
    requires var n := |p| - 1;
             && (forall t :: 0 <= t < n ==> Harmless(K, h, t1[..n], p[..n], t2[..n], t))
             && Harmless(K, h, t1, p, t2, n)
    ensures forall t :: 0 <= t < |p| ==> Harmless(K, h, t1, p, t2, t)
  {
    var n := |p| - 1;
    forall t | 0 <= t < n
      ensures Harmless(K, h, t1, p, t2, t)
    {
      assert Harmless(K, h, t1[..n], p[..n], t2[..n], t);
      assert t1[..n][..t] == t1[..t] && p[..n][..t] == p[..t];
    }
  }

  /** Two climbs that meet at the top are the same climb, or show a collision. */
  lemma {:induction false} ClimbsMeet(K: Hasher, h1: bytes, t1: seq<bool>, p1: seq<bytes>,
                                      h2: bytes, t2: seq<bool>, p2: seq<bytes>)
    requires Yields32(K) && |h1| == |h2| == HASH_LEN && All32(p1) && All32(p2)
    requires |t1| == |p1| == |t2| == |p2|
    requires t1 == t2 || p1 == p2
    requires Climb(K, h1, t1, p1) == Climb(K, h2, t2, p2)
    ensures IsCollision(K, FirstDifference(K, h1, t1, p1, h2, t2, p2))
            || (h1 == h2 && p1 == p2 && forall t :: 0 <= t < |p1| ==> Harmless(K, h1, t1, p1, t2, t))
    decreases |p1|
  {
    if p1 != [] {
      var n := |p1| - 1;
      var x := Pair(Climb(K, h1, t1[..n], p1[..n]), p1[n], t1[n]);
      var y := Pair(Climb(K, h2, t2[..n], p2[..n]), p2[n], t2[n]);
      if x == y {
        Climb32(K, h1, t1[..n], p1[..n]);
        Climb32(K, h2, t2[..n], p2[..n]);
        PairSplit(Climb(K, h1, t1[..n], p1[..n]), p1[n], t1[n], Climb(K, h2, t2[..n], p2[..n]), p2[n], t2[n]);
        ClimbsMeet(K, h1, t1[..n], p1[..n], h2, t2[..n], p2[..n]);
        if !IsCollision(K, FirstDifference(K, h1, t1, p1, h2, t2, p2)) {
          assert p1 == p1[..n] + [p1[n]] && p2 == p2[..n] + [p2[n]];
          HarmlessUp(K, h1, t1, p1, t2);
        }
      }
    }
  }

  /** Soundness on 2^k leaves of 32 bytes: an accepted leaf and k-element proof are the
      tree's own leaf and proof, or the accepted climb and the tree's own climb contain two
      different inputs with the same hash. */
  lemma {:induction false} Soundness(K: Hasher, hs: seq<bytes>, i: nat, leaf: bytes, proof: seq<bytes>)
    requires Yields32(K) && All32(hs) && i < |hs| && IsPowerOfTwo(|hs|)
    requires |leaf| == HASH_LEN && All32(proof) && |proof| == Log(|hs|)
    requires Accepts(K, leaf, RootOf(K, hs), i, proof)
    ensures |ProofOf(K, hs, i)| == |proof|
    ensures (leaf == hs[i] && proof == ProofOf(K, hs, i))
            || IsCollision(K, FirstDifference(K, leaf, Bits(i, |proof|), proof,
                                              hs[i], Bits(i, |proof|), ProofOf(K, hs, i)))
  {
    Completeness(K, hs, i);
    ProofIs32(K, hs, i);
    ClimbsMeet(K, leaf, Bits(i, |proof|), proof, hs[i], Bits(i, |proof|), ProofOf(K, hs, i));
  }

  /** Over n leaves the verifier sees the index modulo n. */
  lemma {:induction false} IndexWraps(n: nat, i: nat)
    requires n > 0 && IsPowerOfTwo(n)
    ensures Bits(i, Log(n)) == Bits(i % n, Log(n))
  {
    DivMod(i, n);
    HighBitsIgnored(Log(n), n, i / n, i % n);
  }

  lemma {:induction false} DivMod(i: nat, n: nat)
    requires n > 0
    ensures i == i / n * n + i % n && i / n >= 0
  {
  }

  lemma {:induction false} HighBitsIgnored(k: nat, n: nat, x: nat, j: nat)
    requires n == Pow2(k) && j < n
    ensures Bits(x * n + j, k) == Bits(j, k)
  {
    FullTreeTurns(k, n, x, j);
    FullTreeTurns(k, n, 0, j);
    ShlZero(k);
    ShlIsProduct(x, k);
  }

  /** Any index and proof of the right length: the verifier accepts exactly the leaf at the index
      modulo n with the tree's own proof, unless the proof holds a collision. */
  lemma {:induction false} AcceptsExactly(K: Hasher, hs: seq<bytes>, i: nat, leaf: bytes, proof: seq<bytes>)
    requires hs != [] && Yields32(K) && All32(hs) && IsPowerOfTwo(|hs|)
    requires |leaf| == HASH_LEN && All32(proof) && |proof| == Log(|hs|)
    ensures |ProofOf(K, hs, i % |hs|)| == |proof|
    ensures var j, own := i % |hs|, ProofOf(K, hs, i % |hs|);
            && (leaf == hs[j] && proof == own ==> Accepts(K, leaf, RootOf(K, hs), i, proof))
            && (Accepts(K, leaf, RootOf(K, hs), i, proof) ==>
                  (leaf == hs[j] && proof == own)
                  || IsCollision(K, FirstDifference(K, leaf, Bits(j, |proof|), proof, hs[j], Bits(j, |proof|), own)))
  {
    var j := i % |hs|;
    IndexWraps(|hs|, i);
    Completeness(K, hs, j);
    if Accepts(K, leaf, RootOf(K, hs), i, proof) {
      Soundness(K, hs, j, leaf, proof);
    }
  }

  /** Exactly when the verifier accepts a tree's own proof, for any number of leaves: at every
      level the index bit is the turn, or the two children of that node are equal.  (The other
      way round it needs the hash to tell the two climbs apart.) */
  lemma {:induction false} AcceptsOwnProof(K: Hasher, hs: seq<bytes>, i: nat)
    requires Yields32(K) && All32(hs) && i < |hs|
    ensures |ProofOf(K, hs, i)| == |Turns(|hs|, i)|
    ensures var p, t := ProofOf(K, hs, i), Turns(|hs|, i);
            var fine := forall l :: 0 <= l < |p| ==> Harmless(K, hs[i], t, p, Bits(i, |p|), l);
            && (fine ==> Accepts(K, hs[i], RootOf(K, hs), i, p))
            && (Accepts(K, hs[i], RootOf(K, hs), i, p) ==>
                  fine || IsCollision(K, FirstDifference(K, hs[i], t, p, hs[i], Bits(i, |p|), p)))
  {
    var p, t := ProofOf(K, hs, i), Turns(|hs|, i);
    ProofReachesRoot(K, hs, i);
    ProofIs32(K, hs, i);
    if forall l :: 0 <= l < |p| ==> Harmless(K, hs[i], t, p, Bits(i, |p|), l) {
      HarmlessClimb(K, hs[i], t, p, Bits(i, |p|));
    }
    if Accepts(K, hs[i], RootOf(K, hs), i, p) {
      ClimbsMeet(K, hs[i], t, p, hs[i], Bits(i, |p|), p);
    }
  }

  lemma {:induction false} HarmlessClimb(K: Hasher, h: bytes, t1: seq<bool>, p: seq<bytes>, t2: seq<bool>)
    requires |t1| == |p| == |t2|
    requires forall l :: 0 <= l < |p| ==> Harmless(K, h, t1, p, t2, l)
    ensures Climb(K, h, t1, p) == Climb(K, h, t2, p)
    decreases |p|
  {
    if p != [] {
      var n := |p| - 1;
      forall l | 0 <= l < n
        ensures Harmless(K, h, t1[..n], p[..n], t2[..n], l)
      {
        assert Harmless(K, h, t1, p, t2, l);
        assert t1[..n][..l] == t1[..l] && p[..n][..l] == p[..l];
      }
      HarmlessClimb(K, h, t1[..n], p[..n], t2[..n]);
      assert Harmless(K, h, t1, p, t2, n);
    }
  }

  lemma {:induction false} ThreeBits()
    ensures Bits(1, 3) == [true, false, false]
  {
    assert Half(1, 1) == 0 && Half(1, 2) == 0;
    assert Bits(1, 1) == [true];
    assert Bits(1, 2) == [true, false];
  }

  /** Six leaves are split 3 + 3 and then 1 + 2, so leaf 1 is a left child although its index is odd:
      whatever the hash, the tree's own proof of leaf 1 is rejected when leaves 1 and 2 differ, unless
      the two climbs hold a collision. */
  lemma {:induction false} SixLeavesFail(K: Hasher, hs: seq<bytes>)
    requires Yields32(K) && |hs| == 6 && All32(hs) && hs[1] != hs[2]
    ensures !IsPowerOfTwo(6) && |ProofOf(K, hs, 1)| == 3 && Turns(6, 1) == [false, true, false]
    ensures var p := ProofOf(K, hs, 1);
            Accepts(K, hs[1], RootOf(K, hs), 1, p) ==>
              IsCollision(K, FirstDifference(K, hs[1], [false, true, false], p, hs[1], Bits(1, 3), p))
  {
    assert Log(6) == 2 && Pow2(2) == 4;
    SixLeavesProof(K, hs);
    ThreeBits();
    SixTurns();
    AcceptsOwnProof(K, hs, 1);
    var p := ProofOf(K, hs, 1);
    assert !Harmless(K, hs[1], Turns(6, 1), p, Bits(1, 3), 0);
  }

  lemma {:induction false} SixTurns()
    ensures Turns(6, 1) == [false, true, false]
  {
    TurnsUnfold(6, 1);
    TurnsUnfold(3, 1);
    TurnsUnfold(2, 0);
  }

  lemma {:induction false} SixLeavesProof(K: Hasher, hs: seq<bytes>)
    requires |hs| == 6
    ensures |ProofOf(K, hs, 1)| == 3 && ProofOf(K, hs, 1)[0] == hs[2]
  {
    var l, m := hs[..3], hs[..3][1..];
    ProofUnfolds(K, hs, 1);
    ProofUnfolds(K, l, 1);
    ProofUnfolds(K, m, 0);
    assert m == [hs[1], hs[2]];
  }

  // ---- Roots that are no pair of hashes ----

  /** The last thing hashed on a climb: the two halves under the root. */
  function TopInput(K: Hasher, leaf: bytes, i: nat, proof: seq<bytes>): (x: bytes)
    requires proof != []
  {
    var t := |proof| - 1;
    Pair(Climb(K, leaf, Bits(i, t), proof[..t]), proof[t], Half(i, t) % 2 == 1)
  }

  /** Against the hash of anything but two words, an accepted proof exhibits a collision. */
  lemma {:induction false} OddRootCollides(K: Hasher, leaf: bytes, x: bytes, i: nat, proof: seq<bytes>)
    requires Yields32(K) && |leaf| == HASH_LEN && All32(proof) && proof != [] && |x| != 2 * HASH_LEN
    requires Accepts(K, leaf, K(x), i, proof)
    ensures IsCollision(K, (x, TopInput(K, leaf, i, proof)))
  {
    var t := |proof| - 1;
    assert Bits(i, t + 1)[..t] == Bits(i, t);
    Climb32(K, leaf, Bits(i, t), proof[..t]);
  }

  // ---- The two verifiers ----

  /** A verifier's loop after the proof elements `done`: the hash so far and the index so far. */
  ghost predicate Climbing(K: Hasher, leaf: bytes, index: nat, done: seq<bytes>, h: bytes, idx: nat) {
    h == Climb(K, leaf, Bits(index, |done|), done) && idx == Half(index, |done|)
  }

  lemma {:induction false} ClimbOn(K: Hasher, leaf: bytes, index: nat, done: seq<bytes>, h: bytes, idx: nat, e: bytes)
    requires Climbing(K, leaf, index, done, h, idx)
    ensures Climbing(K, leaf, index, done + [e], K(Pair(h, e, idx % 2 == 1)), idx / 2)
  {
    ClimbSnoc(K, leaf, Bits(index, |done|), done, idx % 2 == 1, e);
  }

  function Abs(x: int): (r: nat) {
    if x < 0 then -x else x
  }

  /** Go's division by two, which truncates. */
  function TruncatedHalf(x: int): (r: int) {
    if x < 0 then -(-x / 2) else x / 2
  }

  lemma {:induction false} TruncatedHalfAbs(x: int)
    ensures Abs(TruncatedHalf(x)) == Abs(x) / 2 && (x % 2 == 0 <==> Abs(x) % 2 == 0)
  {
  }

  /** Go's Verify.  The index is a signed integer. */
  method Verify(K: Hasher, leafHash: bytes, rootHash: bytes, leafIdx: int, proof: seq<bytes>) returns (ok: bool)
    ensures ok == Accepts(K, leafHash, rootHash, Abs(leafIdx), proof)
  {
    var computedHash := leafHash;
    var idx := leafIdx;
    for t := 0 to |proof|
      invariant Climbing(K, leafHash, Abs(leafIdx), proof[..t], computedHash, Abs(idx))
    {
      ClimbOn(K, leafHash, Abs(leafIdx), proof[..t], computedHash, Abs(idx), proof[t]);
      assert proof[..t + 1] == proof[..t] + [proof[t]];
      TruncatedHalfAbs(idx);
      if idx % 2 == 0 {
        computedHash := K(computedHash + proof[t]);
      } else {
        computedHash := K(proof[t] + computedHash);
      }
      idx := TruncatedHalf(idx);
    }
    assert proof[..|proof|] == proof;
    return computedHash == rootHash;
  }

  const PROOF_BYTES: nat := 512

  /** The first t 32-byte words of a byte string. */
  function Words(p: bytes, t: nat): (r: seq<bytes>)
    requires 32 * t <= |p|
    ensures |r| == t && All32(r)
  {
    seq(t, j requires 0 <= j < t => p[32 * j..32 * j + 32])
  }

  /** A byte string cut into 32-byte words. */
  function Chunks(p: bytes): (r: seq<bytes>)
    ensures |r| == |p| / 32 && All32(r)
  {
    Words(p, |p| / 32)
  }

  lemma {:induction false} WordsSnoc(p: bytes, t: nat)
    requires 32 * (t + 1) <= |p|
    ensures Words(p, t + 1) == Words(p, t) + [p[32 * t..32 * t + 32]]
  {
  }

  /** One step of the loop below. */
  lemma {:induction false} WordOn(K: Hasher, leaf: bytes, index: nat, p: bytes, t: nat, h: bytes, idx: nat, e: bytes)
    requires 32 * (t + 1) <= |p| && e == p[32 * t..32 * t + 32] && Climbing(K, leaf, index, Words(p, t), h, idx)
    ensures Climbing(K, leaf, index, Words(p, t + 1), K(Pair(h, e, idx % 2 == 1)), idx / 2)
  {
    ClimbOn(K, leaf, index, Words(p, t), h, idx, e);
    WordsSnoc(p, t);
  }

  /** The contract's verifier: a 512-byte proof read one word at a time.  `None` is a revert. */
  method CheckMembership(K: Hasher, leaf: bytes, index: uint256, rootHash: bytes, proof: bytes)
    returns (r: Option<bool>)
    ensures r == None <==> |proof| != PROOF_BYTES
    ensures r.Some? ==> |Chunks(proof)| == 16 && r.value == Accepts(K, leaf, rootHash, index, Chunks(proof))
  {
    if |proof| != PROOF_BYTES {
      return None;
    }
    var computedHash := leaf;
    var idx: nat := index;
    var i := 32;
    ghost var t := 0;
    while i <= 512
      invariant i == 32 * (t + 1) && t <= 16
      invariant Climbing(K, leaf, index, Words(proof, t), computedHash, idx)
      decreases 544 - i
    {
      var proofElement := proof[i - 32..i];
      WordOn(K, leaf, index, proof, t, computedHash, idx, proofElement);
      if idx % 2 == 0 {
        computedHash := K(computedHash + proofElement);
      } else {
        computedHash := K(proofElement + computedHash);
      }
      idx := idx / 2;
      i := i + 32;
      t := t + 1;
    }
    return Some(computedHash == rootHash);
  }
}
