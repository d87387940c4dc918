/**
 What holds in every reachable state of the root-chain contract, whatever the
 interleaving of calls.

 The central object is the line of a state: the queue entries finalised so far
 followed by the entries still queued.  The line is strictly ascending in every
 reachable state.  Popping moves the boundary without touching the line, and a
 new exit always enters behind the boundary because it matures at least a week
 from now.  Order, uniqueness and priority of exits all follow from that.
 */
module ExitGameRuns {
  import opened Bytes
  import opened Protocol
  import opened Packing
  import opened Queues
  import opened ExitGame
  import Merkle

  /** No output of the hash is the zero word, which marks an unwritten block. */
  ghost predicate NeverZero(K: Merkle.Hasher) {
    forall x :: K(x) != Zeros(32)
  }

  /** Times and positions fit in 128 bits, and fee exits have not reached block 1. */
  predicate Bounded(s: State) {
    && s.now + 2 * TWO_WEEKS < TWO128
    && s.childBlock * BLOCK_UNIT <= TWO128
    && s.feeExit <= BLOCK_UNIT
  }

  // ---- Block numbering ----

  /** Child blocks are exactly the multiples of 1000 below childBlock; deposits fill a
      contiguous prefix strictly inside each interval. */
  ghost predicate Numbering(childBlock: nat, depositBlock: nat, blocks: set<nat>) {
    && CHILD_BLOCK_INTERVAL <= childBlock && childBlock % CHILD_BLOCK_INTERVAL == 0
    && 1 <= depositBlock <= CHILD_BLOCK_INTERVAL
    && (forall n :: n in blocks ==> 0 < n < childBlock - CHILD_BLOCK_INTERVAL + depositBlock)
    && (forall n: nat :: 0 < n < childBlock && n % CHILD_BLOCK_INTERVAL == 0 ==> n in blocks)
    && (forall n: nat :: childBlock - CHILD_BLOCK_INTERVAL < n < childBlock - CHILD_BLOCK_INTERVAL + depositBlock
                         ==> n in blocks)
    && (forall n {:trigger HasPrevious(blocks, n)} ::
          n in blocks && n % CHILD_BLOCK_INTERVAL > 1 ==> HasPrevious(blocks, n))
  }

  predicate HasPrevious(blocks: set<nat>, n: nat) {
    n > 0 && n - 1 in blocks
  }

  ghost predicate Dated(childChain: map<nat, ChildBlock>, now: nat) {
    forall n :: n in childChain ==> childChain[n].timestamp <= now
  }

  // ---- The exit line ----

  /** When an exit matures: two weeks after its output was made or a week after it was started. */
  function MaturesAt(x: Started): (t: nat) {
    Max(x.created + TWO_WEEKS, x.at + ONE_WEEK)
  }

  function ElementOf(x: Started, pos: nat): (e: nat) {
    MaturesAt(x) * TWO128 + pos
  }

  function Elements(f: seq<Finalised>): (r: seq<nat>)
    ensures |r| == |f|
    ensures forall i :: 0 <= i < |f| ==> r[i] == f[i].element
  {
    seq(|f|, i requires 0 <= i < |f| => f[i].element)
  }

  function Line(s: State): (r: seq<nat>) {
    Elements(s.finalised) + s.queue
  }

  ghost predicate Strict(r: seq<nat>) {
    forall i, j :: 0 <= i < j < |r| ==> r[i] < r[j]
  }

  /** The exits with a recorded amount are exactly the started ones. */
  ghost predicate Recorded(started: map<nat, Started>, exits: map<nat, Exit>) {
    && (forall p :: p in started ==> 0 < started[p].amount == Lookup(exits, p).amount)
    && (forall p :: p in exits && exits[p].amount > 0 ==> p in started)
  }

  /** Fee exits use the ids handed out so far; every other exit names a written block. */
  ghost predicate Placed(started: map<nat, Started>, feeExit: nat, blocks: set<nat>, now: nat) {
    forall p :: p in started ==>
      && p < TWO128 && MaturesAt(started[p]) < TWO128
      && started[p].at <= now
      && (if started[p].fee then 0 < p < feeExit else p / BLOCK_UNIT in blocks)
  }

  /** The line is the strictly ascending list of all started exits. */
  ghost predicate Lined(line: seq<nat>, started: map<nat, Started>) {
    && Strict(line)
    && (forall e :: e in line ==> Position(e) in started && e == ElementOf(started[Position(e)], Position(e)))
    && (forall p {:trigger ElementOf(started[p], p)} :: p in started ==> ElementOf(started[p], p) in line)
  }

  function Due(p: nat, started: map<nat, Started>, challenged: set<nat>): (a: Address) {
    if p in challenged || p !in started then 0 else started[p].owner
  }

  /** Who is owed: the exitor while queued and unchallenged, nobody otherwise. */
  ghost predicate Owed(queue: seq<nat>, exits: map<nat, Exit>, started: map<nat, Started>, challenged: set<nat>) {
    forall e :: e in queue ==> Lookup(exits, Position(e)).owner == Due(Position(e), started, challenged)
  }

  /** A finalised exit was mature, and paid its own amount to its exitor, or to nobody if challenged. */
  ghost predicate SettledOne(f: Finalised, started: map<nat, Started>, now: nat) {
    var p := Position(f.element);
    && p in started
    && Priority(f.element) < f.at <= now
    && f.amount == started[p].amount
    && f.paidTo == if f.challenged then 0 else started[p].owner
  }

  ghost predicate Settled(finalised: seq<Finalised>, started: map<nat, Started>, now: nat) {
    forall i :: 0 <= i < |finalised| ==> SettledOne(finalised[i], started, now)
  }

  function Paid(f: seq<Finalised>): (r: nat) {
    if f == [] then 0 else Paid(f[..|f| - 1]) + f[|f| - 1].amount
  }

  /** The root of every deposit block commits to the deposit made there. */
  ghost predicate Committed(K: Merkle.Hasher, s: State) {
    forall n :: n in s.childChain && n % CHILD_BLOCK_INTERVAL != 0 ==>
      n in s.deposits && s.childChain[n].root == K(DepositBytes(s.deposits[n].depositor, 0, s.deposits[n].amount))
  }

  ghost predicate Inv(s: State) {
    && Numbering(s.childBlock, s.depositBlock, s.childChain.Keys)
    && Dated(s.childChain, s.now)
    && 0 < s.feeExit
    && Recorded(s.started, s.exits)
    && Placed(s.started, s.feeExit, s.childChain.Keys, s.now)
    && s.challenged <= s.started.Keys
    && Lined(Line(s), s.started)
    && Owed(s.queue, s.exits, s.started, s.challenged)
    && Settled(s.finalised, s.started, s.now)
       // the contract holds what was deposited less what was paid out
    && s.balance + Paid(s.finalised) == s.deposited
  }

  lemma {:induction false} InitialInv(operator: Address, now: uint256)
    ensures Inv(Initial(operator, now))
  {
  }

  // ---- Packing of a started exit ----

  lemma {:induction false} ElementParts(x: Started, p: nat)
    requires p < TWO128
    ensures Priority(ElementOf(x, p)) == MaturesAt(x) && Position(ElementOf(x, p)) == p
  {
    DivModUnique(ElementOf(x, p), TWO128, MaturesAt(x), p);
  }

  lemma {:induction false} PackIsElement(now: uint256, created: uint256, p: uint256, x: Started)
    requires now + 2 * TWO_WEEKS < TWO128 && created <= now + 1 && p < TWO128
    requires x.created == created && x.at == now
    ensures Pack(ExitableAt(now, created), p) == ElementOf(x, p) && MaturesAt(x) < TWO128
  {
    AddExact(created, TWO_WEEKS);
    AddExact(now, ONE_WEEK);
    PackRoundTrip(ExitableAt(now, created), p);
  }

  lemma {:induction false} AddExact(x: uint256, y: uint256)
    requires x + y < TWO128 + TWO128
    ensures Plus(x, y) == x + y
  {
  }

  // ---- Inserting into the line ----

  lemma {:induction false} StrictPlace(q: seq<nat>, x: nat)
    requires Strict(q) && x !in q
    ensures Strict(Place(q, x))
  {
    if q != [] && q[0] <= x {
      StrictPlace(q[1..], x);
      PlaceElements(q[1..], x);
      var t := Place(q[1..], x);
      forall k | 0 <= k < |t|
        ensures q[0] < t[k]
      {
        assert t[k] in t;
        assert t[k] == x || t[k] in q[1..];
      }
    }
  }

  lemma {:induction false} StrictJoin(a: seq<nat>, b: seq<nat>)
    requires Strict(a) && Strict(b) && forall x, y :: x in a && y in b ==> x < y
    ensures Strict(a + b)
  {
    forall i, j | 0 <= i < j < |a + b|
      ensures (a + b)[i] < (a + b)[j]
    {
      if i < |a| <= j {
        assert a[i] in a && b[j - |a|] in b;
      }
    }
  }

  lemma {:induction false} StrictParts(a: seq<nat>, b: seq<nat>)
    requires Strict(a + b)
    ensures Strict(a) && Strict(b) && forall x, y :: x in a && y in b ==> x < y
  {
    forall i, j | 0 <= i < j < |a|
      ensures a[i] < a[j]
    {
      assert (a + b)[i] < (a + b)[j];
    }
    forall i, j | 0 <= i < j < |b|
      ensures b[i] < b[j]
    {
      assert (a + b)[|a| + i] < (a + b)[|a| + j];
    }
    forall x, y | x in a && y in b
      ensures x < y
    {
      var i :| 0 <= i < |a| && a[i] == x;
      var j :| 0 <= j < |b| && b[j] == y;
      assert (a + b)[i] < (a + b)[|a| + j];
    }
  }

  // ---- Starting an exit keeps the invariant ----

  lemma {:induction false} NewcomerIsLast(s: State, x: Started, pos: nat)
    requires Lined(Line(s), s.started) && Settled(s.finalised, s.started, s.now)
    requires pos < TWO128 && x.at == s.now && pos !in s.started
    ensures forall e :: e in Elements(s.finalised) ==> e < ElementOf(x, pos)
    ensures ElementOf(x, pos) !in s.queue
  {
    ElementParts(x, pos);
    forall e | e in Elements(s.finalised)
      ensures e < ElementOf(x, pos)
    {
      var i :| 0 <= i < |s.finalised| && s.finalised[i].element == e;
      assert SettledOne(s.finalised[i], s.started, s.now);
      assert e == Priority(e) * TWO128 + Position(e);
    }
    assert forall e :: e in s.queue ==> e in Line(s);
  }

  lemma {:induction false} EnteredLined(s: State, x: Started, pos: nat)
    requires Lined(Line(s), s.started) && Settled(s.finalised, s.started, s.now)
    requires pos < TWO128 && x.at == s.now && pos !in s.started
    ensures Lined(Elements(s.finalised) + Place(s.queue, ElementOf(x, pos)), s.started[pos := x])
  {
    var f, e := Elements(s.finalised), ElementOf(x, pos);
    var line := f + Place(s.queue, e);
    ElementParts(x, pos);
    NewcomerIsLast(s, x, pos);
    StrictParts(f, s.queue);
    StrictPlace(s.queue, e);
    PlaceElements(s.queue, e);
    StrictJoin(f, Place(s.queue, e));
    assert forall d :: d in line <==> d == e || d in Line(s);
  }

  lemma {:induction false} EnteredOwed(s: State, x: Started, pos: nat)
    requires Lined(Line(s), s.started) && Owed(s.queue, s.exits, s.started, s.challenged)
    requires pos < TWO128 && pos !in s.started && s.challenged <= s.started.Keys
    ensures Owed(Place(s.queue, ElementOf(x, pos)), s.exits[pos := Exit(x.owner, 0, x.amount)],
                 s.started[pos := x], s.challenged)
  {
    ElementParts(x, pos);
    PlaceElements(s.queue, ElementOf(x, pos));
    assert forall e :: e in s.queue ==> e in Line(s);
  }

  /** The state after an exit enters the queue. */
  function Entered(s: State, pos: uint256, x: Started, nextFee: uint256): (t: State) {
    s.(queue := Place(s.queue, Pack(ExitableAt(s.now, x.created), pos)),
       exits := s.exits[pos := Exit(x.owner, 0, x.amount)],
       started := s.started[pos := x],
       feeExit := nextFee)
  }

  lemma {:induction false} EnteredRecorded(started: map<nat, Started>, exits: map<nat, Exit>, pos: nat, x: Started)
    requires Recorded(started, exits) && x.amount > 0
    ensures Recorded(started[pos := x], exits[pos := Exit(x.owner, 0, x.amount)])
  {
  }

  lemma {:induction false} EnteredSettled(f: seq<Finalised>, started: map<nat, Started>, now: nat, pos: nat, x: Started)
    requires Settled(f, started, now) && pos !in started
    ensures Settled(f, started[pos := x], now)
  {
    forall i | 0 <= i < |f|
      ensures SettledOne(f[i], started[pos := x], now)
    {
      assert SettledOne(f[i], started, now);
    }
  }

  lemma {:induction false} EnteredPlaced(started: map<nat, Started>, fee: nat, blocks: set<nat>, now: nat, pos: nat,
                                         x: Started, fee': nat)
    requires Placed(started, fee, blocks, now) && fee <= fee'
    requires pos < TWO128 && MaturesAt(x) < TWO128 && x.at <= now
    requires if x.fee then 0 < pos < fee' else pos / BLOCK_UNIT in blocks
    ensures Placed(started[pos := x], fee', blocks, now)
  {
  }

  lemma {:induction false} PlacedLater(started: map<nat, Started>, fee: nat, blocks: set<nat>, now: nat,
                                       blocks': set<nat>, now': nat)
    requires Placed(started, fee, blocks, now) && blocks <= blocks' && now <= now'
    ensures Placed(started, fee, blocks', now')
  {
  }

  lemma {:induction false} EnteredInv(s: State, pos: uint256, x: Started, nextFee: uint256)
    requires Inv(s) && s.now + 2 * TWO_WEEKS < TWO128 && pos < TWO128
    requires x.created <= s.now + 1 && x.at == s.now && x.amount > 0 && ExitAt(s, pos).amount == 0
    requires s.feeExit <= nextFee
    requires if x.fee then 0 < pos < nextFee else pos / BLOCK_UNIT in s.childChain
    ensures Inv(Entered(s, pos, x, nextFee))
  {
    PackIsElement(s.now, x.created, pos, x);
    assert pos !in s.started;
    EnteredLined(s, x, pos);
    EnteredOwed(s, x, pos);
    EnteredRecorded(s.started, s.exits, pos, x);
    EnteredSettled(s.finalised, s.started, s.now, pos, x);
    EnteredPlaced(s.started, s.feeExit, s.childChain.Keys, s.now, pos, x, nextFee);
  }

  // ---- Popping keeps the invariant ----

  ghost predicate CanPop(s: State) {
    Inv(s) && s.queue != [] && Priority(s.queue[0]) < s.now && ExitAt(s, Position(s.queue[0])).amount <= s.balance
  }

  lemma {:induction false} PopLine(s: State)
    requires s.queue != [] && ExitAt(s, Position(s.queue[0])).amount <= s.balance
    ensures Line(Pop(s)) == Line(s)
  {
    assert Line(Pop(s)) == Elements(s.finalised) + [s.queue[0]] + s.queue[1..];
  }

  lemma {:induction false} PopOwed(s: State)
    requires s.queue != [] && Lined(Line(s), s.started) && Owed(s.queue, s.exits, s.started, s.challenged)
    ensures Owed(s.queue[1..], s.exits[Position(s.queue[0]) := ExitAt(s, Position(s.queue[0])).(owner := 0)],
                 s.started, s.challenged)
  {
    var q := s.queue;
    StrictParts(Elements(s.finalised), q);
    forall e | e in q[1..]
      ensures e in q && Position(e) != Position(q[0])
    {
      assert e in Line(s) && q[0] in Line(s);
      var i :| 0 <= i < |q[1..]| && q[1..][i] == e;
      assert q[0] < q[i + 1];
    }
  }

  lemma {:induction false} OwnerCleared(started: map<nat, Started>, exits: map<nat, Exit>, p: nat)
    requires Recorded(started, exits)
    ensures Recorded(started, exits[p := Lookup(exits, p).(owner := 0)])
  {
  }

  lemma {:induction false} PopSettled(s: State)
    requires CanPop(s)
    ensures Settled(Pop(s).finalised, s.started, s.now)
    ensures Paid(Pop(s).finalised) == Paid(s.finalised) + ExitAt(s, Position(s.queue[0])).amount
  {
    var t := Pop(s);
    var f := t.finalised[|s.finalised|];
    assert t.finalised == s.finalised + [f];
    HeadSettles(s, f);
    SettledSnoc(s.finalised, f, s.started, s.now);
  }

  lemma {:induction false} HeadSettles(s: State, f: Finalised)
    requires CanPop(s) && f == Pop(s).finalised[|s.finalised|]
    ensures SettledOne(f, s.started, s.now) && f.amount == ExitAt(s, Position(s.queue[0])).amount
  {
    assert s.queue[0] in Line(s);
  }

  lemma {:induction false} SettledSnoc(finalised: seq<Finalised>, f: Finalised, started: map<nat, Started>, now: nat)
    requires Settled(finalised, started, now) && SettledOne(f, started, now)
    ensures Settled(finalised + [f], started, now) && Paid(finalised + [f]) == Paid(finalised) + f.amount
  {
    assert (finalised + [f])[..|finalised|] == finalised;
  }

  lemma {:induction false} PopInv(s: State)
    requires CanPop(s)
    ensures Inv(Pop(s))
  {
    PopLine(s);
    PopOwed(s);
    PopSettled(s);
    OwnerCleared(s.started, s.exits, Position(s.queue[0]));
  }

  lemma {:induction false} DrainStep(s: State, refuses: set<Address>)
    requires s.queue != [] && Priority(s.queue[0]) < s.now && Drain(s, refuses).Some?
    ensures Payable(s, refuses) && Drain(s, refuses) == Drain(Pop(s), refuses)
  {
  }

  lemma {:induction false} DrainInv(s: State, refuses: set<Address>)
    requires Inv(s) && Drain(s, refuses).Some?
    ensures Inv(Drain(s, refuses).value)
    decreases |s.queue|
  {
    if s.queue != [] && Priority(s.queue[0]) < s.now {
      DrainStep(s, refuses);
      PopInv(s);
      DrainInv(Pop(s), refuses);
    }
  }

  // ---- The other calls ----

  lemma {:induction false} DepositNumbering(childBlock: nat, depositBlock: nat, blocks: set<nat>)
    requires Numbering(childBlock, depositBlock, blocks) && depositBlock < CHILD_BLOCK_INTERVAL
    ensures childBlock - CHILD_BLOCK_INTERVAL + depositBlock !in blocks
    ensures Numbering(childBlock, depositBlock + 1, blocks + {childBlock - CHILD_BLOCK_INTERVAL + depositBlock})
  {
    var d: nat := childBlock - CHILD_BLOCK_INTERVAL + depositBlock;
    forall n | n in blocks + {d} && n % CHILD_BLOCK_INTERVAL > 1
      ensures HasPrevious(blocks + {d}, n)
    {
      assert n in blocks ==> HasPrevious(blocks, n);
    }
  }

  lemma {:induction false} SubmitNumbering(childBlock: nat, depositBlock: nat, blocks: set<nat>)
    requires Numbering(childBlock, depositBlock, blocks)
    ensures childBlock !in blocks
    ensures Numbering(childBlock + CHILD_BLOCK_INTERVAL, 1, blocks + {childBlock})
  {
    forall n | n in blocks + {childBlock} && n % CHILD_BLOCK_INTERVAL > 1
      ensures HasPrevious(blocks + {childBlock}, n)
    {
      assert HasPrevious(blocks, n);
    }
  }

  lemma {:induction false} DepositInv(K: Merkle.Hasher, s: State, sender: Address, value: uint256)
    requires Inv(s) && DoDeposit(K, s, sender, value).Some?
    ensures Inv(DoDeposit(K, s, sender, value).value)
  {
    var t := DoDeposit(K, s, sender, value).value;
    DepositNumbering(s.childBlock, s.depositBlock, s.childChain.Keys);
    assert t.childChain.Keys == s.childChain.Keys + {s.childBlock - CHILD_BLOCK_INTERVAL + s.depositBlock};
    PlacedLater(s.started, s.feeExit, s.childChain.Keys, s.now, t.childChain.Keys, s.now);
  }

  lemma {:induction false} SubmitInv(s: State, sender: Address, root: bytes)
    requires Inv(s) && DoSubmitBlock(s, sender, root).Some?
    ensures Inv(DoSubmitBlock(s, sender, root).value)
  {
    var t := DoSubmitBlock(s, sender, root).value;
    SubmitNumbering(s.childBlock, s.depositBlock, s.childChain.Keys);
    assert t.childChain.Keys == s.childChain.Keys + {s.childBlock};
    PlacedLater(s.started, s.feeExit, s.childChain.Keys, s.now, t.childChain.Keys, s.now);
  }

  lemma {:induction false} ChallengeInv(K: Merkle.Hasher, s: State, ePos: uint256, cPos: uint256, leaf: bytes,
                                        proof: bytes, confirmer: Address)
    requires Inv(s) && DoChallenge(K, s, ePos, cPos, leaf, proof, confirmer).Some?
    ensures Inv(DoChallenge(K, s, ePos, cPos, leaf, proof, confirmer).value)
  {
    var t := DoChallenge(K, s, ePos, cPos, leaf, proof, confirmer).value;
    OwnerCleared(s.started, s.exits, ePos);
    ChallengedOwed(s.queue, s.exits, s.started, s.challenged, ePos);
  }

  lemma {:induction false} ChallengedOwed(queue: seq<nat>, exits: map<nat, Exit>, started: map<nat, Started>,
                                          challenged: set<nat>, p: nat)
    requires Owed(queue, exits, started, challenged) && Recorded(started, exits)
    ensures Owed(queue, exits[p := Lookup(exits, p).(owner := 0)], started,
                 if Lookup(exits, p).amount > 0 then challenged + {p} else challenged)
  {
  }

  lemma {:induction false} TickInv(s: State, later: uint256)
    requires Inv(s) && s.now <= later
    ensures Inv(s.(now := later))
  {
    forall i | 0 <= i < |s.finalised|
      ensures SettledOne(s.finalised[i], s.started, later)
    {
      assert SettledOne(s.finalised[i], s.started, s.now);
    }
  }

  // ---- Only positions in written blocks can be exited ----

  lemma {:induction false} NonzeroClimb(K: Merkle.Hasher, leaf: bytes, turns: seq<bool>, proof: seq<bytes>)
    requires NeverZero(K) && |turns| == |proof| > 0
    ensures Merkle.Climb(K, leaf, turns, proof) != Zeros(32)
  {
  }

  lemma {:induction false} MemberBlockExists(K: Merkle.Hasher, s: State, leaf: bytes, pos: uint256, proof: bytes)
    requires NeverZero(K) && Member(K, leaf, pos, BlockAt(s, pos / BLOCK_UNIT).root, proof)
    ensures pos / BLOCK_UNIT in s.childChain
  {
    var c := Merkle.Chunks(proof);
    assert |c| > 0;
    NonzeroClimb(K, leaf, Merkle.Bits(TxIndex(pos), |c|), c);
  }

  lemma {:induction false} PositionFits(s: State, pos: nat)
    requires Numbering(s.childBlock, s.depositBlock, s.childChain.Keys) && Bounded(s)
    requires pos / BLOCK_UNIT in s.childChain
    ensures BLOCK_UNIT <= pos < TWO128
  {
    assert 1 <= pos / BLOCK_UNIT < s.childBlock;
  }

  // ---- Every step keeps the invariant ----

  lemma {:induction false} StartDepositExitInv(K: Merkle.Hasher, s: State, sender: Address, pos: uint256,
                                               token: Address, amount: uint256)
    requires NeverZero(K) && Inv(s) && Bounded(s) && DoStartDepositExit(K, s, sender, pos, token, amount).Some?
    ensures Inv(DoStartDepositExit(K, s, sender, pos, token, amount).value)
  {
    var n := pos / BLOCK_UNIT;
    assert n in s.childChain;
    PositionFits(s, pos);
    EnteredInv(s, pos, Started(sender, amount, BlockAt(s, n).timestamp, s.now, false), s.feeExit);
  }

  lemma {:induction false} StartExitInv(K: Merkle.Hasher, s: State, sender: Address, pos: uint256, exitor: Address,
                                        token: Address, amount: uint256, sigsOk: bool, leaf: bytes, proof: bytes)
    requires NeverZero(K) && Inv(s) && Bounded(s)
    requires DoStartExit(K, s, sender, pos, exitor, token, amount, sigsOk, leaf, proof).Some?
    ensures Inv(DoStartExit(K, s, sender, pos, exitor, token, amount, sigsOk, leaf, proof).value)
  {
    MemberBlockExists(K, s, leaf, pos, proof);
    PositionFits(s, pos);
    EnteredInv(s, pos, Started(exitor, amount, BlockAt(s, pos / BLOCK_UNIT).timestamp, s.now, false), s.feeExit);
  }

  lemma {:induction false} StartFeeExitInv(s: State, sender: Address, token: Address, amount: uint256)
    requires Inv(s) && Bounded(s) && DoStartFeeExit(s, sender, token, amount).Some?
    ensures Inv(DoStartFeeExit(s, sender, token, amount).value)
  {
    AddExact(s.now, 1);
    var x := Started(sender, amount, s.now + 1, s.now, true);
    FeeExitEntered(s, sender, token, amount, x);
    EnteredInv(s, s.feeExit, x, s.feeExit + 1);
  }

  lemma {:induction false} FeeExitEntered(s: State, sender: Address, token: Address, amount: uint256, x: Started)
    requires DoStartFeeExit(s, sender, token, amount).Some?
    requires x == Started(sender, amount, Plus(s.now, 1), s.now, true)
    ensures DoStartFeeExit(s, sender, token, amount).value == Entered(s, s.feeExit, x, s.feeExit + 1)
    ensures amount > 0 && ExitAt(s, s.feeExit).amount == 0
  {
  }

  lemma {:induction false} BlockStepInv(K: Merkle.Hasher, s: State, a: Action)
    requires Inv(s) && (a.Deposit? || a.SubmitBlock?)
    ensures Inv(Step(K, s, a))
  {
    if Outcome(K, s, a).Some? {
      match a
      case Deposit(sender, value) => DepositInv(K, s, sender, value);
      case SubmitBlock(sender, root) => SubmitInv(s, sender, root);
    }
  }

  lemma {:induction false} DepositExitStepInv(K: Merkle.Hasher, s: State, a: Action)
    requires NeverZero(K) && Inv(s) && Bounded(s) && a.StartDepositExit?
    ensures Inv(Step(K, s, a))
  {
    if Outcome(K, s, a).Some? {
      StartDepositExitInv(K, s, a.sender, a.pos, a.token, a.amount);
    }
  }

  lemma {:induction false} FeeExitStepInv(K: Merkle.Hasher, s: State, a: Action)
    requires Inv(s) && Bounded(s) && a.StartFeeExit?
    ensures Inv(Step(K, s, a))
  {
    if Outcome(K, s, a).Some? {
      StartFeeExitInv(s, a.sender, a.token, a.amount);
    }
  }

  lemma {:induction false} ExitStepInv(K: Merkle.Hasher, s: State, a: Action)
    requires NeverZero(K) && Inv(s) && Bounded(s) && a.StartExit?
    ensures Inv(Step(K, s, a))
  {
    if Outcome(K, s, a).Some? {
      StartExitInv(K, s, a.sender, a.pos, a.exitor, a.token, a.amount, a.sigsOk, a.leaf, a.proof);
    }
  }

  lemma {:induction false} ChallengeStepInv(K: Merkle.Hasher, s: State, a: Action)
    requires Inv(s) && a.ChallengeExit?
    ensures Inv(Step(K, s, a))
  {
    if Outcome(K, s, a).Some? {
      ChallengeInv(K, s, a.ePos, a.cPos, a.leaf, a.proof, a.confirmer);
    }
  }

  lemma {:induction false} FinalizeStepInv(K: Merkle.Hasher, s: State, a: Action)
    requires Inv(s) && a.FinalizeExits?
    ensures Inv(Step(K, s, a))
  {
    if Outcome(K, s, a).Some? {
      DrainInv(s, a.refuses);
    }
  }

  lemma {:induction false} TickStepInv(K: Merkle.Hasher, s: State, a: Action)
    requires Inv(s) && a.Tick?
    ensures Inv(Step(K, s, a))
  {
    if Outcome(K, s, a).Some? {
      TickInv(s, s.now + a.seconds);
    }
  }

  lemma {:induction false} StepInv(K: Merkle.Hasher, s: State, a: Action)
    requires NeverZero(K) && Inv(s) && Bounded(s)
    ensures Inv(Step(K, s, a))
  {
    match a
    case Deposit(_, _) => BlockStepInv(K, s, a);
    case SubmitBlock(_, _) => BlockStepInv(K, s, a);
    case StartDepositExit(_, _, _, _) => DepositExitStepInv(K, s, a);
    case StartFeeExit(_, _, _) => FeeExitStepInv(K, s, a);
    case StartExit(_, _, _, _, _, _, _, _) => ExitStepInv(K, s, a);
    case ChallengeExit(_, _, _, _, _) => ChallengeStepInv(K, s, a);
    case FinalizeExits(_, _) => FinalizeStepInv(K, s, a);
    case Tick(_) => TickStepInv(K, s, a);
  }

  // ---- History only grows ----

  /** Nothing on record is ever changed or removed. */
  ghost predicate Extends(s: State, t: State) {
    && s.operator == t.operator
    && s.now <= t.now && s.childBlock <= t.childBlock && s.feeExit <= t.feeExit
    && (forall n :: n in s.childChain ==> n in t.childChain && t.childChain[n] == s.childChain[n])
    && (forall p :: p in s.started ==> p in t.started && t.started[p] == s.started[p])
    && s.challenged <= t.challenged
    && s.finalised <= t.finalised
  }

  lemma {:induction false} DrainExtends(s: State, refuses: set<Address>)
    requires Drain(s, refuses).Some?
    ensures var t := Drain(s, refuses).value;
            && Extends(s, t) && t.now == s.now && t.challenged == s.challenged && t.started == s.started
            && |t.queue| <= |s.queue| && t.queue == s.queue[|s.queue| - |t.queue|..]
            && Line(t) == Line(s)
    decreases |s.queue|
  {
    if s.queue != [] && Priority(s.queue[0]) < s.now {
      DrainStep(s, refuses);
      PopLine(s);
      DrainExtends(Pop(s), refuses);
    }
  }

  lemma {:induction false} StartExtends(K: Merkle.Hasher, s: State, a: Action)
    requires Recorded(s.started, s.exits)
    requires a.StartDepositExit? || a.StartExit? || a.StartFeeExit?
    ensures Extends(s, Step(K, s, a))
  {
    match a
    case StartDepositExit(sender, pos, token, amount) =>
      AddExtends(s, pos, sender, token, amount, BlockAt(s, pos / BLOCK_UNIT).timestamp, false);
    case StartExit(_, pos, exitor, token, amount, _, _, _) =>
      AddExtends(s, pos, exitor, token, amount, BlockAt(s, pos / BLOCK_UNIT).timestamp, false);
    case StartFeeExit(sender, token, amount) =>
      AddExtends(s, s.feeExit, sender, token, amount, Plus(s.now, 1), true);
  }

  lemma {:induction false} AddExtends(s: State, pos: uint256, exitor: Address, token: Address, amount: uint256,
                                      created: uint256, fee: bool)
    requires Recorded(s.started, s.exits)
    ensures var r := AddExit(s, pos, exitor, token, amount, created, fee);
            r.Some? ==> Extends(s, r.value) && r.value.feeExit == s.feeExit
  {
  }

  lemma {:induction false} BlockExtends(K: Merkle.Hasher, s: State, a: Action)
    requires Numbering(s.childBlock, s.depositBlock, s.childChain.Keys)
    requires a.Deposit? || a.SubmitBlock?
    ensures Extends(s, Step(K, s, a))
  {
    SubmitNumbering(s.childBlock, s.depositBlock, s.childChain.Keys);
    if s.depositBlock < CHILD_BLOCK_INTERVAL {
      DepositNumbering(s.childBlock, s.depositBlock, s.childChain.Keys);
    }
  }

  lemma {:induction false} StepExtends(K: Merkle.Hasher, s: State, a: Action)
    requires Inv(s)
    ensures Extends(s, Step(K, s, a))
  {
    if a.Deposit? || a.SubmitBlock? {
      BlockExtends(K, s, a);
    } else if a.FinalizeExits? {
      if Outcome(K, s, a).Some? {
        DrainExtends(s, a.refuses);
      }
    } else if !a.ChallengeExit? && !a.Tick? {
      StartExtends(K, s, a);
    }
  }

  /** Counters and the clock never go back, whatever the state. */
  lemma {:induction false} StepMonotone(K: Merkle.Hasher, s: State, a: Action)
    ensures var t := Step(K, s, a);
            s.now <= t.now && s.childBlock <= t.childBlock && s.feeExit <= t.feeExit
  {
    if a.FinalizeExits? && Outcome(K, s, a).Some? {
      DrainExtends(s, a.refuses);
    }
  }

  // ---- Whole runs ----

  function From(K: Merkle.Hasher, operator: Address, now: uint256, acts: seq<Action>): (s: State) {
    Run(K, Initial(operator, now), acts)
  }

  /** The invariant holds after every run that stays in range. */
  lemma {:induction false} RunInv(K: Merkle.Hasher, operator: Address, now: uint256, acts: seq<Action>)
    requires NeverZero(K) && Bounded(From(K, operator, now, acts))
    ensures Inv(From(K, operator, now, acts))
    decreases |acts|
  {
    if acts == [] {
      InitialInv(operator, now);
    } else {
      var prefix := acts[..|acts| - 1];
      StepMonotone(K, From(K, operator, now, prefix), acts[|acts| - 1]);
      RunInv(K, operator, now, prefix);
      StepInv(K, From(K, operator, now, prefix), acts[|acts| - 1]);
    }
  }

  lemma {:induction false} ExtendsTransitive(s: State, t: State, u: State)
    requires Extends(s, t) && Extends(t, u)
    ensures Extends(s, u)
  {
  }

  /** Every state of a run extends all earlier ones. */
  lemma {:induction false} RunExtends(K: Merkle.Hasher, operator: Address, now: uint256, acts: seq<Action>, k: nat)
    requires NeverZero(K) && Bounded(From(K, operator, now, acts)) && k <= |acts|
    ensures Extends(From(K, operator, now, acts[..k]), From(K, operator, now, acts))
    ensures Bounded(From(K, operator, now, acts[..k]))
    decreases |acts|
  {
    if k == |acts| {
      assert acts[..k] == acts;
    } else {
      var prefix := acts[..|acts| - 1];
      var s := From(K, operator, now, prefix);
      StepMonotone(K, s, acts[|acts| - 1]);
      assert prefix[..k] == acts[..k];
      RunExtends(K, operator, now, prefix, k);
      RunInv(K, operator, now, prefix);
      StepExtends(K, s, acts[|acts| - 1]);
      ExtendsTransitive(From(K, operator, now, acts[..k]), s, From(K, operator, now, acts));
    }
  }
}
