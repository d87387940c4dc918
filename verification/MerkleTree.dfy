/**
 The operator's Merkle tree: nodes linked to their parent and children, built by
 recursive halving.  A proof is read off by climbing parent links from a leaf.
 */
module MerkleTrees {
  import opened Bytes
  import opened Merkle

  class TNode {
    var hash: bytes
    var p: TNode?
    var l: TNode?
    var r: TNode?

    constructor (hash: bytes, l: TNode?, r: TNode?)
      ensures this.hash == hash && this.l == l && this.r == r && p == null
    {
      this.hash := hash;
      this.l, this.r := l, r;
      p := null;
    }
  }

  // ---- The shape of a tree, as a value ----

  datatype Shape = Tip(node: TNode) | Fork(node: TNode, left: Shape, right: Shape)

  function Nodes(s: Shape): (ns: set<TNode>)
    ensures s.node in ns
  {
    match s
    case Tip(n) => {n}
    case Fork(n, l, r) => {n} + Nodes(l) + Nodes(r)
  }

  /** The leaf nodes from left to right. */
  function Tips(s: Shape): (ns: seq<TNode>)
    ensures |ns| > 0
  {
    match s
    case Tip(n) => [n]
    case Fork(_, l, r) => Tips(l) + Tips(r)
  }

  /** No node occurs twice, and every fork puts half of its leaves, rounded down, on the left. */
  predicate Proper(s: Shape) {
    match s
    case Tip(_) => true
    case Fork(n, l, r) =>
      && n !in Nodes(l) && n !in Nodes(r) && Nodes(l) !! Nodes(r)
      && |Tips(l)| == (|Tips(l)| + |Tips(r)|) / 2
      && Proper(l) && Proper(r)
  }

  // ---- The shape on the heap ----

  /** The nodes are linked as the shape says, and every fork hashes its children.  The parent link
      of the topmost node is left open. */
  ghost predicate Linked(K: Hasher, s: Shape)
    requires Proper(s)
    reads Nodes(s)`hash, Nodes(s)`l, Nodes(s)`r, (Nodes(s) - {s.node})`p
  {
    match s
    case Tip(_) => true
    case Fork(n, l, r) =>
      && n.l == l.node && n.r == r.node && l.node.p == n && r.node.p == n
      && n.hash == K(l.node.hash + r.node.hash)
      && Linked(K, l) && Linked(K, r)
  }

  /** The hashes of the leaves from left to right. */
  ghost function LeafHashes(s: Shape): (hs: seq<bytes>)
    reads Nodes(s)`hash
    ensures |hs| == |Tips(s)|
  {
    match s
    case Tip(n) => [n.hash]
    case Fork(_, l, r) => LeafHashes(l) + LeafHashes(r)
  }

  lemma {:induction false} LeafHashAt(s: Shape, i: nat)
    requires i < |Tips(s)|
    ensures LeafHashes(s)[i] == Tips(s)[i].hash
    decreases s
  {
    if s.Fork? {
      var m := |Tips(s.left)|;
      if i < m {
        LeafHashAt(s.left, i);
      } else {
        LeafHashAt(s.right, i - m);
      }
    }
  }

  lemma {:induction false} Halves(s: Shape)
    requires Proper(s) && s.Fork?
    ensures var hs := LeafHashes(s);
            |hs| > 1 && hs[..|hs| / 2] == LeafHashes(s.left) && hs[|hs| / 2..] == LeafHashes(s.right)
            && |Tips(s.left)| == |hs| / 2
  {
  }

  /** The hash of the topmost node is the root of the leaf hashes. */
  lemma {:induction false} TopHash(K: Hasher, s: Shape)
    requires Proper(s) && Linked(K, s)
    ensures s.node.hash == RootOf(K, LeafHashes(s))
    decreases s
  {
    if s.Fork? {
      Halves(s);
      TopHash(K, s.left);
      TopHash(K, s.right);
    }
  }

  /** q is the parent of c, and e is the hash of c's sibling. */
  ghost predicate Link(c: TNode, q: TNode, e: bytes)
    reads c, q, q.l, q.r
  {
    c.p == q && q.l != null && q.r != null && e == if c == q.l then q.r.hash else q.l.hash
  }

  /** A climb along parent links past siblings with the hashes of the proof. */
  ghost predicate IsPath(path: seq<TNode>, proof: seq<bytes>)
    reads *
  {
    && |path| == |proof| + 1
    && (forall t {:trigger proof[t]} :: 0 <= t < |proof| ==> Link(path[t], path[t + 1], proof[t]))
  }

  /** From every leaf, parent links lead to the top past exactly the siblings of the proof. */
  lemma {:induction false} LeafPath(K: Hasher, s: Shape, i: nat) returns (path: seq<TNode>)
    requires Proper(s) && Linked(K, s) && i < |Tips(s)|
    ensures IsPath(path, ProofOf(K, LeafHashes(s), i))
    ensures path[0] == Tips(s)[i] && path[|path| - 1] == s.node
    decreases s
  {
    match s
    case Tip(n) =>
      path := [n];
    case Fork(n, l, r) =>
      var m := |Tips(l)|;
      Halves(s);
      ProofUnfolds(K, LeafHashes(s), i);
      TopHash(K, l);
      TopHash(K, r);
      if i < m {
        var below := LeafPath(K, l, i);
        path := below + [n];
        ExtendPath(below, ProofOf(K, LeafHashes(l), i), n, r.node.hash);
      } else {
        var below := LeafPath(K, r, i - m);
        path := below + [n];
        ExtendPath(below, ProofOf(K, LeafHashes(r), i - m), n, l.node.hash);
      }
  }

  lemma {:induction false} ExtendPath(below: seq<TNode>, proof: seq<bytes>, n: TNode, e: bytes)
    requires IsPath(below, proof) && Link(below[|below| - 1], n, e)
    ensures IsPath(below + [n], proof + [e])
  {
  }

  /** n is the top of a tree of shape s, made of the nodes ns, over the hashes hs. */
  ghost predicate Built(K: Hasher, n: TNode, s: Shape, ns: set<TNode>, hs: seq<bytes>)
    reads ns`hash, ns`l, ns`r, (ns - {n})`p
  {
    ns == Nodes(s) && n == s.node && Proper(s) && Linked(K, s) && LeafHashes(s) == hs
  }

  class MerkleTree {
    const K: Hasher
    var leaves: seq<TNode>
    var root: TNode?
    ghost var shape: Option<Shape>

    /** The tree over the hashes hs. */
    ghost predicate Over(hs: seq<bytes>)
      reads this, if shape.None? then {} else Nodes(shape.value)
    {
      && shape.Some? && root == shape.value.node && root.p == null
      && Proper(shape.value) && Linked(K, shape.value)
      && leaves == Tips(shape.value) && LeafHashes(shape.value) == hs
    }

    constructor (K: Hasher)
      ensures this.K == K && leaves == [] && root == null
    {
      this.K := K;
      leaves := [];
      root := null;
      shape := None;
    }

    /** Build the tree over some hashes; no tree for no hashes, and one zero leaf more for an odd number. */
    static method New(K: Hasher, hashs: seq<bytes>) returns (t: MerkleTree?)
      ensures t == null <==> hashs == []
      ensures t != null ==> t.K == K && t.Over(Padded(hashs))
      ensures t != null ==> t.root != null && t.root.hash == RootOf(K, Padded(hashs))
      ensures t != null ==> |t.leaves| == if |hashs| % 2 == 0 then |hashs| else |hashs| + 1
      ensures t != null ==> forall i :: 0 <= i < |hashs| ==> t.leaves[i].hash == hashs[i]
      ensures t != null && |hashs| % 2 != 0 ==>
                |t.leaves[|hashs|].hash| == 32 && forall k :: 0 <= k < 32 ==> t.leaves[|hashs|].hash[k] == 0
    {
      if |hashs| == 0 {
        return null;
      }
      var hs := hashs;
      if |hs| % 2 != 0 {
        hs := hs + [Zeros(HASH_LEN)];
      }
      t := new MerkleTree(K);
      t.Fill(hs);
      forall i | 0 <= i < |hs|
        ensures t.leaves[i].hash == hs[i]
      {
        LeafHashAt(t.shape.value, i);
      }
    }

    /** Build the tree over the given hashes into an empty object. */
    method Fill(hs: seq<bytes>)
      requires hs != [] && leaves == []
      modifies this
      ensures Over(hs) && root != null && root.hash == RootOf(K, hs)
    {
      var top, s, ns := BuildTree(hs);
      root := top;
      shape := Some(s);
      TopHash(K, s);
    }

    method BuildTree(hashs: seq<bytes>) returns (n: TNode, ghost s: Shape, ghost ns: set<TNode>)
      requires hashs != []
      modifies this`leaves
      ensures fresh(ns) && n.p == null && Built(K, n, s, ns, hashs)
      ensures leaves == old(leaves) + Tips(s)
      decreases |hashs|
    {
      if |hashs| == 1 {
        n, s, ns := BuildLeaf(hashs[0]);
        return;
      }
      var hl, hr := hashs[..|hashs| / 2], hashs[|hashs| / 2..];
      assert hl + hr == hashs;
      var l, sl, nl := BuildTree(hl);
      var r, sr, nr := BuildTree(hr);
      assert fresh(nl + nr) && nl !! nr;
      n, s, ns := Join(K, l, r, sl, sr, nl, nr, hl, hr);
      Associate(old(leaves), Tips(sl), Tips(sr));
    }

    /** Make a leaf and keep track of it. */
    method BuildLeaf(hash: bytes) returns (n: TNode, ghost s: Shape, ghost ns: set<TNode>)
      modifies this`leaves
      ensures fresh(ns) && n.p == null && Built(K, n, s, ns, [hash])
      ensures leaves == old(leaves) + Tips(s)
    {
      n := new TNode(hash, null, null);
      leaves := leaves + [n];
      s, ns := Tip(n), {n};
    }

    /** The proof of a leaf; none for an index past the last leaf. */
    method Proof(leafIdx: nat, ghost hs: seq<bytes>) returns (r: Option<seq<bytes>>)
      requires Over(hs)
      ensures r == if leafIdx < |hs| then Some(ProofOf(K, hs, leafIdx)) else None
    {
      if leafIdx >= |leaves| {
        return None;
      }
      ghost var path := LeafPath(K, shape.value, leafIdx);
      var proof := Siblings(leaves[leafIdx], path, ProofOf(K, hs, leafIdx));
      return Some(proof);
    }
  }

  /** The loop of Proof: collect the siblings on the way up until there is no parent. */
  method Siblings(start: TNode, ghost path: seq<TNode>, ghost expected: seq<bytes>) returns (proof: seq<bytes>)
    requires IsPath(path, expected) && start == path[0] && path[|path| - 1].p == null
    ensures proof == expected
  {
    var leaf := start;
    proof := [];
    while leaf.p != null
      invariant |proof| <= |expected| && leaf == path[|proof|]
      invariant proof == expected[..|proof|]
      invariant |proof| < |expected| ==> Link(leaf, path[|proof| + 1], expected[|proof|])
      decreases |expected| - |proof|
    {
      var p := leaf.p;
      assert |proof| < |expected|;
      if leaf == p.l {
        proof := proof + [p.r.hash];
      } else {
        proof := proof + [p.l.hash];
      }
      leaf := p;
    }
  }

  /** Give a tree a parent. */
  method SetParent(K: Hasher, c: TNode, n: TNode, ghost s: Shape, ghost ns: set<TNode>, ghost hs: seq<bytes>)
    requires Built(K, c, s, ns, hs)
    modifies c`p
    ensures c.p == n && Built(K, c, s, ns, hs)
  {
    c.p := n;
  }

  lemma {:induction false} Associate(a: seq<TNode>, b: seq<TNode>, c: seq<TNode>)
    ensures a + b + c == a + (b + c)
  {
  }

  /** Put a new node over two trees. */
  method Join(K: Hasher, l: TNode, r: TNode, ghost sl: Shape, ghost sr: Shape, ghost nl: set<TNode>,
              ghost nr: set<TNode>, ghost hl: seq<bytes>, ghost hr: seq<bytes>)
    returns (n: TNode, ghost s: Shape, ghost ns: set<TNode>)
    requires Built(K, l, sl, nl, hl) && Built(K, r, sr, nr, hr) && nl !! nr
    requires |hl| == (|hl| + |hr|) / 2
    modifies l`p, r`p
    ensures fresh(n) && n.p == null && ns == {n} + (nl + nr) && Tips(s) == Tips(sl) + Tips(sr)
    ensures Built(K, n, s, ns, hl + hr)
  {
    n := new TNode(K(l.hash + r.hash), l, r);
    SetParent(K, l, n, sl, nl, hl);
    SetParent(K, r, n, sr, nr, hr);
    s, ns := Fork(n, sl, sr), {n} + (nl + nr);
    Joined(K, n, l, r, sl, sr, nl, nr, hl, hr);
  }

  /** A node over two built trees, linked both ways, is a built tree. */
  lemma {:induction false} Joined(K: Hasher, n: TNode, l: TNode, r: TNode, sl: Shape, sr: Shape, nl: set<TNode>,
                                  nr: set<TNode>, hl: seq<bytes>, hr: seq<bytes>)
    requires Built(K, l, sl, nl, hl) && Built(K, r, sr, nr, hr) && nl !! nr && n !in nl + nr
    requires |hl| == (|hl| + |hr|) / 2
    requires n.l == l && n.r == r && l.p == n && r.p == n && n.hash == K(l.hash + r.hash)
    ensures Built(K, n, Fork(n, sl, sr), {n} + (nl + nr), hl + hr)
  {
  }
}
