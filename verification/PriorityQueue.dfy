/**
 The exit queue of the root chain: a binary heap in a growable array.

 Index 0 of the array holds a sentinel 0 and the heap proper starts at index 1.
 Elements move by percolating a hole: the moving value is written only once, at
 its final place.  The queue is proved against the simplest possible priority
 queue, an ascending list.
 */
module Queues {
  import opened Bytes
  import opened Packing

  // ---- The reference queue: an ascending list ----

  predicate Ascending(s: seq<nat>) {
    forall i, j :: 0 <= i < j < |s| ==> s[i] <= s[j]
  }

  /** Put x behind every element that is not larger. */
  function Place(s: seq<nat>, x: nat): (r: seq<nat>) {
    if s == [] || x < s[0] then [x] + s else [s[0]] + Place(s[1..], x)
  }

  lemma {:induction false} PlaceKeepsOrder(s: seq<nat>, x: nat)
    requires Ascending(s)
    ensures Ascending(Place(s, x))
  {
    if s != [] && s[0] <= x {
      PlaceKeepsOrder(s[1..], x);
      PlaceElements(s[1..], x);
      LeastInFront(s[0], Place(s[1..], x));
    }
  }

  lemma {:induction false} LeastInFront(x: nat, t: seq<nat>)
    requires Ascending(t) && forall e :: e in t ==> x <= e
    ensures Ascending([x] + t)
  {
    assert forall k :: 0 <= k < |t| ==> t[k] in t;
  }

  lemma {:induction false} PlaceElements(q: seq<nat>, x: nat)
    ensures |Place(q, x)| == |q| + 1
    ensures forall e :: e in Place(q, x) <==> e == x || e in q
  {
    if q != [] && q[0] <= x {
      PlaceElements(q[1..], x);
      assert q == [q[0]] + q[1..];
    }
  }

  lemma {:induction false} PlaceBag(s: seq<nat>, x: nat)
    ensures multiset(Place(s, x)) == multiset(s) + multiset{x}
  {
    if s != [] && s[0] <= x {
      PlaceBag(s[1..], x);
      assert s == [s[0]] + s[1..];
    }
  }

  lemma {:induction false} HeadIsLeast(s: seq<nat>, x: nat)
    requires Ascending(s) && x in multiset(s)
    ensures s != [] && s[0] <= x
  {
    assert x in s;
  }

  /** e is a least element of the bag b. */
  ghost predicate LeastOf(e: nat, b: multiset<nat>) {
    e in b && forall x :: x in b ==> e <= x
  }

  // ---- Heaps ----

  /** Every node at index 2..n is at least its parent. */
  predicate HeapOrder(a: seq<nat>, n: nat)
    requires n < |a|
  {
    forall j :: 2 <= j <= n ==> a[j / 2] <= a[j]
  }

  /** Heap order everywhere except between i and its parent; the children of i
      may not undercut that parent either. */
  predicate OrderButUp(a: seq<nat>, n: nat, i: nat)
    requires n < |a|
  {
    && (forall j :: 2 <= j <= n && j != i ==> a[j / 2] <= a[j])
    && (forall j :: 2 <= j <= n && j / 2 == i && 2 <= i ==> a[i / 2] <= a[j])
  }

  /** Heap order everywhere except between i and its children. */
  predicate OrderButDown(a: seq<nat>, n: nat, i: nat)
    requires n < |a|
  {
    && (forall j :: 2 <= j <= n && j / 2 != i ==> a[j / 2] <= a[j])
    && (forall j :: 2 <= j <= n && j / 2 == i && 2 <= i ==> a[i / 2] <= a[j])
  }

  /** The root of a heap is its least element. */
  lemma {:induction false} RootIsLeast(a: seq<nat>, n: nat, j: nat)
    requires n < |a| && HeapOrder(a, n) && 1 <= j <= n
    ensures a[1] <= a[j]
  {
    if j > 1 {
      RootIsLeast(a, n, j / 2);
    }
  }

  /** The bag of heap entries a[1..n]. */
  ghost function Bag(a: seq<nat>, n: nat): (b: multiset<nat>)
    requires n < |a|
  {
    multiset(a[1..n + 1])
  }

  lemma {:induction false} SwapKeepsBag(a: seq<nat>, n: nat, i: nat, j: nat)
    requires 1 <= i <= n && 1 <= j <= n && n < |a|
    ensures Bag(a[i := a[j]][j := a[i]], n) == Bag(a, n)
  {
    var s := a[1..n + 1];
    SwapKeepsElements(s, i - 1, j - 1);
    assert a[i := a[j]][j := a[i]][1..n + 1] == s[i - 1 := s[j - 1]][j - 1 := s[i - 1]];
  }

  lemma {:induction false} SwapKeepsElements(s: seq<nat>, i: nat, j: nat)
    requires i < |s| && j < |s|
    ensures multiset(s[i := s[j]][j := s[i]]) == multiset(s)
  {
  }

  /** Moving the last entry to the root leaves the bag without the old root. */
  lemma {:induction false} RootAndRest(a: seq<nat>, n: nat)
    requires 1 <= n < |a|
    ensures Bag(a[1 := a[n]][n := 0], n - 1) == Bag(a, n) - multiset{a[1]}
  {
    if n == 1 {
      assert a[1..2] == [a[1]];
    } else {
      assert a[1..n + 1] == [a[1]] + a[2..n] + [a[n]];
      assert a[1 := a[n]][n := 0][1..n] == [a[n]] + a[2..n];
    }
  }

  lemma {:induction false} RootReplaced(a: seq<nat>, n: nat)
    requires 1 <= n < |a| && HeapOrder(a, n)
    ensures OrderButDown(a[1 := a[n]][n := 0], n - 1, 1)
  {
  }

  /** Dropping the slot after the last entry changes nothing. */
  lemma {:induction false} TrimKeepsHeap(a: seq<nat>, n: nat)
    requires |a| == n + 2 && HeapOrder(a, n)
    ensures HeapOrder(a[..n + 1], n) && Bag(a[..n + 1], n) == Bag(a, n)
  {
    assert a[..n + 1][1..n + 1] == a[1..n + 1];
  }

  /** The state of the upward loop: value v is in hand and index i is the hole;
      with the hole filled the array is a heap but for i and its parent. */
  ghost predicate HoleUp(a: seq<nat>, n: nat, i: nat, v: nat, b: multiset<nat>) {
    && |a| == n + 1 && 1 <= i <= n && a[0] == 0
    && OrderButUp(a[i := v], n, i)
    && Bag(a[i := v], n) == b
  }

  lemma {:induction false} HoleUpStep(a: seq<nat>, n: nat, i: nat, v: nat, b: multiset<nat>)
    requires HoleUp(a, n, i, v, b) && v < a[i / 2]
    ensures HoleUp(a[i := a[i / 2]], n, i / 2, v, b)
  {
    var f := a[i := v];
    assert i / 2 != 0;
    assert f[i / 2] == a[i / 2] && f[i] == v;
    UpStep(f, n, i);
    SwapKeepsBag(f, n, i, i / 2);
    assert f[i := f[i / 2]][i / 2 := f[i]] == a[i := a[i / 2]][i / 2 := v];
  }

  lemma {:induction false} HoleUpDone(a: seq<nat>, n: nat, i: nat, v: nat, b: multiset<nat>)
    requires HoleUp(a, n, i, v, b) && v >= a[i / 2]
    ensures HeapOrder(a[i := v], n) && Bag(a[i := v], n) == b
  {
    var f := a[i := v];
    forall j | 2 <= j <= n
      ensures f[j / 2] <= f[j]
    {
      assert i >= 2 ==> f[i / 2] == a[i / 2];
    }
  }

  /** The state of the downward loop. */
  ghost predicate HoleDown(a: seq<nat>, n: nat, i: nat, v: nat, b: multiset<nat>) {
    && |a| == n + 2 && 1 <= i <= n + 1 && a[0] == 0
    && OrderButDown(a[i := v], n, i)
    && Bag(a[i := v], n) == b
  }

  /** c is the least child of i, or lies past the end when i has none. */
  predicate LeastChild(a: seq<nat>, n: nat, i: nat, c: nat)
    requires n < |a|
  {
    && c / 2 == i < c
    && (c <= n ==> forall j :: 2 <= j <= n && j / 2 == i ==> a[c] <= a[j])
    && (c > n ==> forall j :: 2 <= j <= n ==> j / 2 != i)
  }

  lemma {:induction false} HoleDownStep(a: seq<nat>, n: nat, i: nat, c: nat, v: nat, b: multiset<nat>)
    requires HoleDown(a, n, i, v, b) && LeastChild(a, n, i, c) && c <= n && v > a[c]
    ensures HoleDown(a[i := a[c]], n, c, v, b)
  {
    var f := a[i := v];
    DownStep(f, n, i, c);
    SwapKeepsBag(f, n, i, c);
    assert f[i := f[c]][c := f[i]] == a[i := a[c]][c := v];
  }

  lemma {:induction false} HoleDownDone(a: seq<nat>, n: nat, i: nat, c: nat, v: nat, b: multiset<nat>)
    requires HoleDown(a, n, i, v, b) && LeastChild(a, n, i, c) && (c <= n ==> v <= a[c])
    ensures HeapOrder(a[i := v], n) && Bag(a[i := v], n) == b
  {
    var f := a[i := v];
    forall j | 2 <= j <= n
      ensures f[j / 2] <= f[j]
    {
      if j / 2 == i {
        assert f[j] == a[j];
      }
    }
  }

  /** One step of the upward loop: the parent moves down into the hole. */
  lemma {:induction false} UpStep(f: seq<nat>, n: nat, i: nat)
    requires n < |f| && 2 <= i <= n && OrderButUp(f, n, i) && f[i] < f[i / 2]
    ensures OrderButUp(f[i := f[i / 2]][i / 2 := f[i]], n, i / 2)
  {
    var g := f[i := f[i / 2]][i / 2 := f[i]];
    forall j | 2 <= j <= n && j != i / 2
      ensures g[j / 2] <= g[j]
    {
      if j != i && j / 2 == i / 2 {
        assert f[j / 2] <= f[j];
      }
    }
    if 2 <= i / 2 {
      forall j | 2 <= j <= n && j / 2 == i / 2
        ensures g[i / 2 / 2] <= g[j]
      {
        assert f[i / 2 / 2] <= f[i / 2];
        assert j != i ==> f[j / 2] <= f[j];
      }
    }
  }

  /** One step of the downward loop: the smaller child moves up into the hole. */
  lemma {:induction false} DownStep(f: seq<nat>, n: nat, i: nat, c: nat)
    requires n < |f| && 1 <= i && c / 2 == i && 2 <= c <= n
    requires OrderButDown(f, n, i) && f[c] < f[i]
    requires forall j :: 2 <= j <= n && j / 2 == i ==> f[c] <= f[j]
    ensures OrderButDown(f[i := f[c]][c := f[i]], n, c)
  {
    var g := f[i := f[c]][c := f[i]];
    forall j | 2 <= j <= n && j / 2 != c
      ensures g[j / 2] <= g[j]
    {
      if j == i {
        assert f[i / 2] <= f[c];
      } else if j / 2 == i {
        assert f[c] <= f[j];
      } else {
        assert j != c && j / 2 != i && j / 2 != c;
      }
    }
  }

  /** The queue contract.  `None` and `false` stand for a reverted call, which
      leaves the storage as it was. */
  class PriorityQueue {
    const owner: Address
    var heapList: seq<nat>
    var currentSize: nat

    ghost predicate Valid()
      reads this
    {
      && |heapList| == currentSize + 1
      && heapList[0] == 0
      && HeapOrder(heapList, currentSize)
    }

    /** The bag of packed entries. */
    ghost function Contents(): (b: multiset<nat>)
      reads this
      requires Valid()
    {
      Bag(heapList, currentSize)
    }

    constructor (creator: Address)
      ensures Valid() && Contents() == multiset{} && owner == creator && currentSize == 0
    {
      owner := creator;
      heapList := [0];
      currentSize := 0;
    }

    method Insert(sender: Address, priority: uint256, value: uint256) returns (ok: bool)
      requires Valid()
      modifies this
      ensures Valid()
      ensures ok == (sender == owner)
      ensures ok ==> Contents() == old(Contents()) + multiset{Pack(priority, value)}
      ensures ok ==> currentSize == old(currentSize) + 1
      ensures !ok ==> heapList == old(heapList) && currentSize == old(currentSize)
    {
      if sender != owner {
        return false;
      }
      var element := Pack(priority, value);
      heapList := heapList + [element];
      currentSize := currentSize + 1;
      assert heapList[1..currentSize + 1] == old(heapList)[1..currentSize] + [element];
      PercUp(currentSize);
      return true;
    }

    method GetMin() returns (r: Option<(nat, nat)>)
      requires Valid()
      ensures r == None <==> Contents() == multiset{}
      ensures r.Some? ==> exists e: nat ::
                && LeastOf(e, Contents())
                && r.value == (Priority(e), Position(e))
    {
      if currentSize == 0 {
        assert heapList[1..1] == [];
        return None;
      }
      RootIsMinimum();
      return Some((Priority(heapList[1]), Position(heapList[1])));
    }

    lemma {:induction false} RootIsMinimum()
      requires Valid() && currentSize > 0
      ensures LeastOf(heapList[1], Contents())
    {
      var s := heapList[1..currentSize + 1];
      assert s[0] == heapList[1];
      forall x | x in Contents()
        ensures heapList[1] <= x
      {
        assert x in s;
        var k :| 0 <= k < |s| && s[k] == x;
        RootIsLeast(heapList, currentSize, k + 1);
      }
    }

    method DelMin(sender: Address) returns (r: Option<(nat, nat)>)
      requires Valid()
      modifies this
      ensures Valid()
      ensures r == None <==> sender != owner || old(Contents()) == multiset{}
      ensures r == None ==> heapList == old(heapList) && currentSize == old(currentSize)
      ensures r.Some? ==> currentSize == old(currentSize) - 1
      ensures r.Some? ==> exists e: nat ::
                && LeastOf(e, old(Contents()))
                && r.value == (Priority(e), Position(e))
                && Contents() == old(Contents()) - multiset{e}
    {
      if sender != owner {
        return None;
      }
      if currentSize == 0 {
        assert heapList[1..1] == [];
        return None;
      }
      RootIsMinimum();
      RootAndRest(heapList, currentSize);
      RootReplaced(heapList, currentSize);
      var retVal := heapList[1];
      heapList := heapList[1 := heapList[currentSize]];
      heapList := heapList[currentSize := 0];
      currentSize := currentSize - 1;
      PercDown(1);
      TrimKeepsHeap(heapList, currentSize);
      heapList := heapList[..|heapList| - 1];
      assert Contents() == old(Contents()) - multiset{retVal};
      return Some((Priority(retVal), Position(retVal)));
    }

    /** The index of the smaller child; past the end if there is none. */
    method MinChild(index: nat) returns (c: nat)
      requires 1 <= index && currentSize < |heapList|
      ensures LeastChild(heapList, currentSize, index, c)
    {
      if index * 2 + 1 > currentSize {
        return index * 2;
      } else {
        if heapList[index * 2] < heapList[index * 2 + 1] {
          return index * 2;
        } else {
          return index * 2 + 1;
        }
      }
    }

    /** Bubble the last element up.  The zero at index 0 stops the loop: nothing is below it. */
    method PercUp(start: nat)
      requires 1 <= start == currentSize && |heapList| == currentSize + 1 && heapList[0] == 0
      requires OrderButUp(heapList, currentSize, start)
      modifies this`heapList
      ensures Valid()
      ensures Contents() == old(Bag(heapList, currentSize))
    {
      var index: nat := start;
      var j := index;
      var newVal := heapList[index];
      ghost var b := Bag(heapList, currentSize);
      assert heapList[index := newVal] == heapList;
      while newVal < heapList[index / 2]
        invariant HoleUp(heapList, currentSize, index, newVal, b)
        invariant index == j ==> heapList[index := newVal] == heapList
        invariant index <= j
        decreases index
      {
        HoleUpStep(heapList, currentSize, index, newVal, b);
        heapList := heapList[index := heapList[index / 2]];
        index := index / 2;
      }
      HoleUpDone(heapList, currentSize, index, newVal, b);
      if index != j {
        heapList := heapList[index := newVal];
      }
    }

    /** Sink the element at the root.  The slot after the last element is still allocated. */
    method PercDown(start: nat)
      requires start == 1 && |heapList| == currentSize + 2 && heapList[0] == 0
      requires OrderButDown(heapList, currentSize, start)
      modifies this`heapList
      ensures |heapList| == currentSize + 2 && heapList[0] == 0
      ensures HeapOrder(heapList, currentSize)
      ensures Bag(heapList, currentSize) == old(Bag(heapList, currentSize))
    {
      var index: nat := start;
      var j := index;
      var newVal := heapList[index];
      ghost var b := Bag(heapList, currentSize);
      assert heapList[index := newVal] == heapList;
      var mc := MinChild(index);
      while mc <= currentSize && newVal > heapList[mc]
        invariant HoleDown(heapList, currentSize, index, newVal, b)
        invariant LeastChild(heapList, currentSize, index, mc)
        invariant index == j ==> heapList[index := newVal] == heapList
        invariant j <= index
        decreases currentSize + 1 - index
      {
        HoleDownStep(heapList, currentSize, index, mc, newVal, b);
        heapList := heapList[index := heapList[mc]];
        index := mc;
        mc := MinChild(index);
      }
      HoleDownDone(heapList, currentSize, index, mc, newVal, b);
      if index != j {
        heapList := heapList[index := newVal];
      }
    }
  }

  // ---- Every interleaving behaves like the ascending list ----

  datatype Op = Add(priority: uint256, value: uint256) | Take

  /** One operation on the reference queue, and what it answers. */
  function After(s: seq<nat>, op: Op): (r: seq<nat>) {
    match op
    case Add(p, v) => Place(s, Pack(p, v))
    case Take => if s == [] then s else s[1..]
  }

  function Answer(s: seq<nat>, op: Op): (r: seq<Option<(nat, nat)>>) {
    match op
    case Add(_, _) => []
    case Take => if s == [] then [None] else [Some((Priority(s[0]), Position(s[0])))]
  }

  /** What the reference queue holds after a run of operations. */
  function ListAfter(ops: seq<Op>): (s: seq<nat>) {
    if ops == [] then [] else After(ListAfter(ops[..|ops| - 1]), ops[|ops| - 1])
  }

  /** What the reference queue answers to a run of operations. */
  function Answers(ops: seq<Op>): (r: seq<Option<(nat, nat)>>) {
    if ops == [] then []
    else Answers(ops[..|ops| - 1]) + Answer(ListAfter(ops[..|ops| - 1]), ops[|ops| - 1])
  }

  lemma {:induction false} ListAscending(ops: seq<Op>)
    ensures Ascending(ListAfter(ops))
  {
    if ops != [] {
      ListAscending(ops[..|ops| - 1]);
      if ops[|ops| - 1].Add? {
        PlaceKeepsOrder(ListAfter(ops[..|ops| - 1]), Pack(ops[|ops| - 1].priority, ops[|ops| - 1].value));
      }
    }
  }

  /** The least element of a bag is the head of its ascending list. */
  lemma {:induction false} LeastIsHead(s: seq<nat>, e: nat)
    requires Ascending(s) && LeastOf(e, multiset(s))
    ensures s != [] && e == s[0] && multiset(s[1..]) == multiset(s) - multiset{e}
  {
    HeadIsLeast(s, e);
    assert s == [s[0]] + s[1..];
    assert s[0] in multiset(s);
  }

  /** One operation on the heap answers as the ascending list s of its contents does. */
  method Apply(q: PriorityQueue, op: Op, ghost s: seq<nat>) returns (a: seq<Option<(nat, nat)>>)
    requires q.Valid() && Ascending(s) && q.Contents() == multiset(s)
    modifies q
    ensures q.Valid()
    ensures q.Contents() == multiset(After(s, op)) && a == Answer(s, op)
  {
    match op
    case Add(p, v) =>
      PlaceBag(s, Pack(p, v));
      var ok := q.Insert(q.owner, p, v);
      a := [];
    case Take =>
      ghost var before := q.Contents();
      var r := q.DelMin(q.owner);
      if r.Some? {
        ghost var e: nat :| LeastOf(e, before) && r.value == (Priority(e), Position(e))
                            && q.Contents() == before - multiset{e};
        LeastIsHead(s, e);
      } else {
        assert |s| == |multiset(s)| == 0;
      }
      a := [r];
  }

  /** Run any interleaving of insertions and removals on the heap: the answers are
      those of the ascending list. */
  method Replay(owner: Address, ops: seq<Op>) returns (answers: seq<Option<(nat, nat)>>)
    ensures answers == Answers(ops)
  {
    var q := new PriorityQueue(owner);
    answers := [];
    for i := 0 to |ops|
      invariant q.Valid() && fresh(q)
      invariant q.Contents() == multiset(ListAfter(ops[..i]))
      invariant answers == Answers(ops[..i])
    {
      assert ops[..i + 1][..i] == ops[..i];
      ListAscending(ops[..i]);
      var a := Apply(q, ops[i], ListAfter(ops[..i]));
      answers := answers + a;
    }
    assert ops[..|ops|] == ops;
  }
}
