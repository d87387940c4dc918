/**
 Child-block numbers over the life of an operator, across rejected blocks, store
 failures, lost submissions and restarts.  The numbers form a small state machine
 of their own; the operator's counters and its store follow that machine step by
 step.
 */
module ChildNumbers {
  import opened Bytes
  import opened Protocol
  import opened Ledger
  import opened LedgerRuns
  import opened Store
  import opened Nodes
  import opened NodeRuns

  // ---- The state machine ----

  /** The numbers of an operator: its counter, the head in memory, the head in the store, the next
      number the root chain will give a child block, how many submissions are on their way to it, and the
      child numbers committed so far. */
  datatype Numbers = Numbers(child: nat, head: nat, stored: nat, next: nat, flying: nat, committed: seq<nat>)

  datatype NumberEvent =
      // a sealed block: does it pass validation, is it committed, is its submission sent
    | Sealed(valid: bool, committed: bool, sent: bool)
      // a submission on its way is mined on the root chain
    | Arrived
    | Deposited(number: nat, committed: bool)
    | Restarted

  function FirstStart(): (n: Numbers) {
    Numbers(0, 0, 0, CHILD_BLOCK_INTERVAL, 0, [])
  }

  /** A block above the head in memory becomes head there at once, and in the store when committed. */
  function Written(n: Numbers, number: nat, committed: bool): (r: Numbers) {
    if number > n.head then n.(head := number, stored := if committed then number else n.stored) else n
  }

  function NumberStep(n: Numbers, e: NumberEvent): (r: Numbers) {
    match e
    case Sealed(valid, committed, sent) =>
      var number := n.child + CHILD_BLOCK_INTERVAL;
      var m := n.(child := number);
      if !valid then m
      else if !committed then Written(m, number, false)
      else Written(m, number, true).(committed := m.committed + [number],
                                     flying := if sent then m.flying + 1 else m.flying)
    case Arrived =>
      if n.flying == 0 then n else n.(next := n.next + CHILD_BLOCK_INTERVAL, flying := n.flying - 1)
    case Deposited(number, committed) => Written(n, number, committed)
    case Restarted => n.(head := n.stored, child := n.stored / CHILD_BLOCK_INTERVAL * CHILD_BLOCK_INTERVAL)
  }

  function NumberRun(es: seq<NumberEvent>): (n: Numbers) {
    if es == [] then FirstStart() else NumberStep(NumberRun(es[..|es| - 1]), es[|es| - 1])
  }

  /** A number the root chain may have given a deposit when its next child number is `next`. */
  predicate IsDepositNumber(number: nat, next: nat) {
    number < next && number % CHILD_BLOCK_INTERVAL != 0
  }

  /** Deposit numbers come from the root chain, however late they arrive. */
  ghost predicate DepositsFromRootChain(es: seq<NumberEvent>) {
    forall i :: 0 <= i < |es| && es[i].Deposited? ==> IsDepositNumber(es[i].number, NumberRun(es[..i]).next)
  }

  function LastCommitted(n: Numbers): (c: nat) {
    if n.committed == [] then 0 else n.committed[|n.committed| - 1]
  }

  ghost predicate NumbersInv(n: Numbers) {
    && n.child % CHILD_BLOCK_INTERVAL == 0 && n.next % CHILD_BLOCK_INTERVAL == 0
    && n.stored <= n.head < n.child + CHILD_BLOCK_INTERVAL
    && n.next + CHILD_BLOCK_INTERVAL * n.flying <= CHILD_BLOCK_INTERVAL + LastCommitted(n)
    && LastCommitted(n) <= n.stored < LastCommitted(n) + CHILD_BLOCK_INTERVAL
    && (forall i :: 0 <= i < |n.committed| ==>
          n.committed[i] % CHILD_BLOCK_INTERVAL == 0 && n.committed[i] <= n.stored && n.committed[i] <= n.child)
    && (forall i, j :: 0 <= i < j < |n.committed| ==> n.committed[i] < n.committed[j])
  }

  lemma {:induction false} MultipleBelowFloor(c: nat, x: nat)
    requires c % CHILD_BLOCK_INTERVAL == 0 && c <= x
    ensures var floor := x / CHILD_BLOCK_INTERVAL * CHILD_BLOCK_INTERVAL;
            c <= floor <= x < floor + CHILD_BLOCK_INTERVAL
  {
    assert c == c / CHILD_BLOCK_INTERVAL * CHILD_BLOCK_INTERVAL;
  }

  lemma {:induction false} RestartInv(n: Numbers)
    requires NumbersInv(n)
    ensures NumbersInv(NumberStep(n, Restarted))
  {
    MultipleBelowFloor(0, n.stored);
    forall i | 0 <= i < |n.committed|
      ensures n.committed[i] <= n.stored / CHILD_BLOCK_INTERVAL * CHILD_BLOCK_INTERVAL
    {
      MultipleBelowFloor(n.committed[i], n.stored);
    }
  }

  lemma {:induction false} SealedInv(n: Numbers, e: NumberEvent)
    requires NumbersInv(n) && e.Sealed?
    ensures NumbersInv(NumberStep(n, e))
  {
    var r := NumberStep(n, e);
    assert r.committed == n.committed || r.committed == n.committed + [r.child];
  }

  /** A sealed number always lies above the head in memory. */
  lemma {:induction false} SealedNumbers(n: Numbers, e: NumberEvent)
    requires NumbersInv(n) && e.Sealed?
    ensures var r, number := NumberStep(n, e), n.child + CHILD_BLOCK_INTERVAL;
            && r.child == number > n.head && NumbersInv(r)
            && r.head == (if e.valid then number else n.head)
            && r.stored == (if e.valid && e.committed then number else n.stored)
  {
    SealedInv(n, e);
  }

  lemma {:induction false} NumberStepInv(n: Numbers, e: NumberEvent)
    requires NumbersInv(n)
    requires e.Deposited? ==> IsDepositNumber(e.number, n.next)
    ensures NumbersInv(NumberStep(n, e))
  {
    match e
    case Sealed(_, _, _) => SealedInv(n, e);
    case Arrived =>
    case Deposited(_, _) =>
    case Restarted => RestartInv(n);
  }

  /** Over every run with rejected blocks, failed commits, lost submissions and restarts from the
      stored head, the committed child numbers are strictly increasing multiples of 1000. */
  lemma {:induction false} ChildNumbersIncrease(es: seq<NumberEvent>)
    requires DepositsFromRootChain(es)
    ensures NumbersInv(NumberRun(es))
    decreases |es|
  {
    if es != [] {
      var k := |es| - 1;
      assert forall i :: 0 <= i < k ==> es[..k][..i] == es[..i];
      ChildNumbersIncrease(es[..k]);
      NumberStepInv(NumberRun(es[..k]), es[k]);
    }
  }

  // ---- Do the operator and the root chain agree on the next child number? ----

  predicate Commits(e: NumberEvent) {
    e.Sealed? && e.valid && e.committed
  }

  /** A sealed block that was never sent to the root chain. */
  predicate Lost(e: NumberEvent) {
    e.Sealed? && !(Commits(e) && e.sent)
  }

  /** By how many intervals the operator is ahead: `kept` in the store for good, `open` in memory only. */
  datatype Lead = Lead(kept: nat, open: nat)

  function LeadAfter(l: Lead, e: NumberEvent): (r: Lead) {
    match e
    case Sealed(_, _, sent) =>
      if Commits(e) then Lead(l.kept + l.open + if sent then 0 else 1, 0) else l.(open := l.open + 1)
    case Arrived => l
    case Deposited(_, _) => l
    case Restarted => l.(open := 0)
  }

  function LeadOf(es: seq<NumberEvent>): (l: Lead) {
    if es == [] then Lead(0, 0) else LeadAfter(LeadOf(es[..|es| - 1]), es[|es| - 1])
  }

  /** The numbers follow from the last committed child number, the lead and what is on its way. */
  ghost predicate Leads(n: Numbers, l: Lead) {
    && LastCommitted(n) + CHILD_BLOCK_INTERVAL == n.next + CHILD_BLOCK_INTERVAL * (l.kept + n.flying)
    && n.child == LastCommitted(n) + CHILD_BLOCK_INTERVAL * l.open
  }

  lemma {:induction false} LeadStep(n: Numbers, l: Lead, e: NumberEvent)
    requires NumbersInv(n) && Leads(n, l)
    ensures Leads(NumberStep(n, e), LeadAfter(l, e))
  {
    match e
    case Sealed(_, _, _) =>
      assert LastCommitted(NumberStep(n, e)) == if Commits(e) then n.child + CHILD_BLOCK_INTERVAL else LastCommitted(n);
    case Arrived =>
    case Deposited(_, _) =>
    case Restarted => FloorIsLastCommitted(n);
  }

  lemma {:induction false} LeadExact(es: seq<NumberEvent>)
    requires DepositsFromRootChain(es)
    ensures Leads(NumberRun(es), LeadOf(es))
    decreases |es|
  {
    if es != [] {
      var k := |es| - 1;
      assert forall i :: 0 <= i < k ==> es[..k][..i] == es[..i];
      LeadExact(es[..k]);
      ChildNumbersIncrease(es[..k]);
      LeadStep(NumberRun(es[..k]), LeadOf(es[..k]), es[k]);
    }
  }

  /** A restart goes back exactly to the last committed child block. */
  lemma {:induction false} FloorIsLastCommitted(n: Numbers)
    requires NumbersInv(n)
    ensures n.stored / CHILD_BLOCK_INTERVAL * CHILD_BLOCK_INTERVAL == LastCommitted(n)
  {
    assert LastCommitted(n) % CHILD_BLOCK_INTERVAL == 0;
    MultipleBelowFloor(LastCommitted(n), n.stored);
  }

  /** No block is committed after event i. */
  predicate Quiet(es: seq<NumberEvent>, i: nat) {
    forall k :: i < k < |es| ==> !Commits(es[k])
  }

  /** A restart undid the loss of event i: none was committed in between. */
  ghost predicate Undone(es: seq<NumberEvent>, i: nat) {
    exists j :: i < j < |es| && es[j].Restarted? && Quiet(es[..j], i)
  }

  /** Nothing has happened since event i that settles its number. */
  predicate Open(es: seq<NumberEvent>, i: nat) {
    Quiet(es, i) && forall k :: i < k < |es| ==> !es[k].Restarted?
  }

  /** Every block lost so far was lost before the store took it, and a restart undid it before the next commit. */
  ghost predicate NothingMissing(es: seq<NumberEvent>) {
    forall i :: 0 <= i < |es| && Lost(es[i]) ==> !Commits(es[i]) && Undone(es, i)
  }

  lemma {:induction false} OpenSnoc(es: seq<NumberEvent>, i: nat)
    requires es != [] && i < |es| - 1
    ensures var k := |es| - 1;
            && (Quiet(es, i) <==> Quiet(es[..k], i) && !Commits(es[k]))
            && (Open(es, i) <==> Open(es[..k], i) && !Commits(es[k]) && !es[k].Restarted?)
  {
    var k := |es| - 1;
    assert forall j :: i < j < k ==> es[..k][j] == es[j];
  }

  lemma {:induction false} UndoneSnoc(es: seq<NumberEvent>, i: nat)
    requires es != [] && i < |es| - 1
    ensures var k := |es| - 1;
            Undone(es, i) <==> Undone(es[..k], i) || (es[k].Restarted? && Quiet(es[..k], i))
  {
    var k := |es| - 1;
    assert forall j :: i < j < k ==> es[..k][j] == es[j] && es[..k][..j] == es[..j];
    if Undone(es[..k], i) {
      var j :| i < j < k && es[..k][j].Restarted? && Quiet(es[..k][..j], i);
      assert es[j].Restarted? && Quiet(es[..j], i);
    }
    if Undone(es, i) {
      var j :| i < j < |es| && es[j].Restarted? && Quiet(es[..j], i);
      assert j < k ==> es[..k][j].Restarted? && Quiet(es[..k][..j], i);
    }
  }

  ghost predicate NothingKept(es: seq<NumberEvent>) {
    forall i :: 0 <= i < |es| && Lost(es[i]) ==> !Commits(es[i]) && (Undone(es, i) || Open(es, i))
  }

  ghost predicate NothingOpen(es: seq<NumberEvent>) {
    forall i :: 0 <= i < |es| && Lost(es[i]) && !Commits(es[i]) ==> !Open(es, i)
  }

  lemma {:induction false} OpenCounted(es: seq<NumberEvent>)
    ensures LeadOf(es).open == 0 <==> NothingOpen(es)
    decreases |es|
  {
    if es != [] {
      var k := |es| - 1;
      OpenCounted(es[..k]);
      forall i | 0 <= i < k
        ensures Open(es, i) <==> Open(es[..k], i) && !Commits(es[k]) && !es[k].Restarted?
      {
        OpenSnoc(es, i);
      }
      assert forall i :: 0 <= i < k ==> es[..k][i] == es[i];
      assert Open(es, k);
    }
  }

  lemma {:induction false} KeptCounted(es: seq<NumberEvent>)
    ensures LeadOf(es).kept == 0 <==> NothingKept(es)
    decreases |es|
  {
    if es != [] {
      var k := |es| - 1;
      KeptCounted(es[..k]);
      OpenCounted(es[..k]);
      if Commits(es[k]) {
        CommitKeeps(es);
      } else {
        OthersKeepNothing(es);
      }
    }
  }

  /** What no commit follows is open, or undone by a restart. */
  lemma {:induction false} QuietSplits(es: seq<NumberEvent>, i: nat)
    requires Quiet(es, i)
    ensures Undone(es, i) || Open(es, i)
  {
    if !Open(es, i) {
      var j :| i < j < |es| && es[j].Restarted?;
      assert Quiet(es[..j], i);
    }
  }

  /** Without a commit nothing is settled for good. */
  lemma {:induction false} OthersKeepNothing(es: seq<NumberEvent>)
    requires es != [] && !Commits(es[|es| - 1])
    ensures NothingKept(es) <==> NothingKept(es[..|es| - 1])
  {
    var k := |es| - 1;
    forall i | 0 <= i < k
      ensures es[..k][i] == es[i]
      ensures Undone(es, i) || Open(es, i) <==> Undone(es[..k], i) || Open(es[..k], i)
    {
      OpenSnoc(es, i);
      UndoneSnoc(es, i);
      if Quiet(es[..k], i) {
        QuietSplits(es[..k], i);
      }
    }
    assert Open(es, k);
  }

  /** A commit settles for good what was open before it. */
  lemma {:induction false} CommitKeeps(es: seq<NumberEvent>)
    requires es != [] && Commits(es[|es| - 1])
    ensures var k := |es| - 1;
            NothingKept(es) <==> NothingKept(es[..k]) && NothingOpen(es[..k]) && es[k].sent
  {
    var k := |es| - 1;
    forall i | 0 <= i < k
      ensures es[..k][i] == es[i] && !Open(es, i)
      ensures Undone(es, i) <==> Undone(es[..k], i)
      ensures !(Undone(es[..k], i) && Open(es[..k], i))
    {
      OpenSnoc(es, i);
      UndoneSnoc(es, i);
    }
  }

  /** Over every run, restarts included: the operator and the root chain agree on the number of the
      next child block exactly if nothing is on its way and every block lost so far was lost before the
      store took it and undone by a restart before the next commit; otherwise the operator is ahead, by
      `LeadOf` intervals and what is on its way. */
  lemma {:induction false} NumbersAgreeExactly(es: seq<NumberEvent>)
    requires DepositsFromRootChain(es)
    ensures var n, l := NumberRun(es), LeadOf(es);
            && n.child + CHILD_BLOCK_INTERVAL == n.next + CHILD_BLOCK_INTERVAL * (l.kept + l.open + n.flying)
            && (n.child + CHILD_BLOCK_INTERVAL == n.next <==> NothingMissing(es) && n.flying == 0)
  {
    LeadExact(es);
    KeptCounted(es);
    OpenCounted(es);
    forall i | 0 <= i < |es|
      ensures !(Undone(es, i) && Open(es, i))
    {
    }
  }

  // ---- What a restart reads from the store ----

  predicate HeaderStored(kv: map<bytes, bytes>, number: nat, hash: bytes) {
    HeaderKey(number, hash) in kv && kv[HeaderKey(number, hash)] != []
  }

  function NumberOf(kv: map<bytes, bytes>, hash: bytes): (r: Option<nat>) {
    var key := HeaderNumberKey(hash);
    if key !in kv || |kv[key]| != 8 then None else Some(Value(kv[key]))
  }

  /** The numbers of the head block and the head header found in the store, if the head block is there. */
  function LastState(kv: map<bytes, bytes>): (r: Option<(nat, nat)>) {
    var hash, headerHash := HashUnder(kv, HEAD_BLOCK_KEY), HashUnder(kv, HEAD_HEADER_KEY);
    var number, headerNumber := NumberOf(kv, hash), NumberOf(kv, headerHash);
    if hash == Zeros(32) || number.None? || !HasBlock(kv, number.value, hash) then None
    else if headerHash != Zeros(32) && headerNumber.Some? && HeaderStored(kv, headerNumber.value, headerHash) then
      Some((number.value, headerNumber.value))
    else Some((number.value, number.value))
  }

  method ReadHeaderNumber(db: LDBDatabase, hash: bytes) returns (r: Option<nat>)
    requires db.Valid()
    ensures r == NumberOf(db.kv, hash)
    ensures var key := Ascii("H") + hash;
            r == if key in db.kv && |db.kv[key]| == 8 then Some(Value(db.kv[key])) else None
  {
    BlockKeyBytes(0, hash);
    var data := db.Get(HeaderNumberKey(hash), false);
    if data.None? || |data.value| != 8 {
      return None;
    }
    return Some(Value(data.value));
  }

  /** Read the heads back from the store; None if the head block is not there. */
  method LoadLastState(db: LDBDatabase) returns (r: Option<(nat, nat)>)
    requires db.Valid()
    ensures r == LastState(db.kv)
    ensures var hash := HashUnder(db.kv, Ascii("LastBlock"));
            var number := NumberOf(db.kv, hash);
            && (r.Some? <==> hash != Zeros(32) && number.Some? && HasBlock(db.kv, number.value, hash))
            && (r.Some? ==> r.value.0 == number.value)
    ensures var hash := HashUnder(db.kv, Ascii("LastHeader"));
            var number := NumberOf(db.kv, hash);
            var found := hash != Zeros(32) && number.Some? && HeaderStored(db.kv, number.value, hash);
            r.Some? ==> r.value.1 == if found then number.value else r.value.0
  {
    HeadKeyBytes();
    var hash := ReadHash(db, HEAD_BLOCK_KEY);
    if hash == Zeros(32) {
      return None;
    }
    var number := ReadHeaderNumber(db, hash);
    if number.None? || !HasBlock(db.kv, number.value, hash) {
      return None;
    }
    var headerHash := ReadHash(db, HEAD_HEADER_KEY);
    var headerNumber := ReadHeaderNumber(db, headerHash);
    if headerHash != Zeros(32) && headerNumber.Some? && HeaderStored(db.kv, headerNumber.value, headerHash) {
      return Some((number.value, headerNumber.value));
    }
    return Some((number.value, number.value));
  }

  /** Both heads in the store are block n, and no higher block was ever made canonical. */
  ghost predicate HeadIs(kv: map<bytes, bytes>, n: nat) {
    var h := HashUnder(kv, HEAD_BLOCK_KEY);
    && n < TWO64 && |h| == 32 && h != Zeros(32) && HashUnder(kv, HEAD_HEADER_KEY) == h
    && NumberOf(kv, h) == Some(n) && HasBlock(kv, n, h)
    && (forall m: nat :: n < m < TWO64 ==> HeaderHashKey(m) !in kv)
  }

  /** A block as it reaches the store: its hash is a nonzero word and its encodings are not empty. */
  predicate Storable(b: Block) {
    b.number < TWO63 && |b.hash| == 32 && b.hash != Zeros(32) && b.header != [] && b.body != []
  }

  lemma {:induction false} TxsOpsAvoidChain(number: nat, txs: seq<Tx>)
    ensures forall i :: 0 <= i < |TxsOps(number, txs)| ==> !IsChainKey(TxsOps(number, txs)[i].key)
    decreases |txs|
  {
    if txs != [] {
      TxsOpsAvoidChain(number, txs[..|txs| - 1]);
    }
  }

  /** Block and head keys see only the block's own writes. */
  lemma {:induction false} ChainKeyAfter(kv: map<bytes, bytes>, head: nat, b: Block, key: bytes)
    requires IsChainKey(key)
    ensures var r, c := ApplyOps(kv, AllOps(kv, head, b)), ApplyOps(kv, BlockOps(kv, head, b));
            (key in r <==> key in c) && (key in c ==> r[key] == c[key])
  {
    TxsOpsAvoidChain(b.number, b.txs);
    ApplyOpsConcat(kv, BlockOps(kv, head, b), TxsOps(b.number, b.txs));
    UnwrittenKept(ApplyOps(kv, BlockOps(kv, head, b)), TxsOps(b.number, b.txs), key);
  }

  lemma {:induction false} CanonicalKeysDiffer(m: nat, n: nat)
    requires m < TWO64 && n < TWO64 && HeaderHashKey(m) == HeaderHashKey(n)
    ensures m == n
  {
    PowWidths();
    assert HeaderHashKey(m)[1..9] == EncodeNumber(m) && HeaderHashKey(n)[1..9] == EncodeNumber(n);
    BigEndianInjective(m, n, 8);
  }

  /** The keys read at a restart are told apart by their first byte, their length or their hash. */
  lemma {:induction false} RestartKeys(number: nat, hash: bytes, h: bytes, m: nat)
    requires |hash| == |h| == 32
    ensures |HeaderNumberKey(h)| == 33 && HeaderNumberKey(h)[0] == HEADER_NUMBER_PREFIX
    ensures |HeaderHashKey(m)| == 10 && HeaderHashKey(m)[0] == HEADER_PREFIX
    ensures |BodyKey(number, hash)| == |HeaderKey(number, hash)| == 41
    ensures HeaderNumberKey(h) == HeaderNumberKey(hash) ==> h == hash
  {
    assert HeaderNumberKey(h)[1..] == h && HeaderNumberKey(hash)[1..] == hash;
  }

  /** Committing a block above the head makes it the head in the store. */
  lemma {:induction false} CommitMovesHead(kv: map<bytes, bytes>, n: nat, head: nat, b: Block)
    requires HeadIs(kv, n) && Storable(b) && n <= head < b.number
    ensures CanonicalHash(kv, b.number) != b.hash
    ensures HeadIs(ApplyOps(kv, AllOps(kv, head, b)), b.number)
  {
    var r := ApplyOps(kv, AllOps(kv, head, b));
    assert HeaderHashKey(b.number) !in kv;
    HeadKeysMoved(kv, head, b);
    CommitKnows(kv, head, b, b.number, b.hash);
    forall m: nat | b.number < m < TWO64
      ensures HeaderHashKey(m) !in r
    {
      CanonicalKeyUnwritten(kv, head, b, m);
    }
  }

  lemma {:induction false} HeadKeysMoved(kv: map<bytes, bytes>, head: nat, b: Block)
    requires Storable(b) && head < b.number && CanonicalHash(kv, b.number) != b.hash
    ensures var r := ApplyOps(kv, AllOps(kv, head, b));
            && HashUnder(r, HEAD_BLOCK_KEY) == HashUnder(r, HEAD_HEADER_KEY) == b.hash
            && NumberOf(r, b.hash) == Some(b.number)
  {
    var ops := BlockOps(kv, head, b);
    assert ops == ChainOps(b) + HeadOps(kv, b) && |ops| == 7;
    ChainKeys(b.number, b.hash);
    RestartKeys(b.number, b.hash, b.hash, b.number);
    LastWriteWins(kv, ops, 1);
    LastWriteWins(kv, ops, 4);
    LastWriteWins(kv, ops, 5);
    ChainKeyAfter(kv, head, b, HeaderNumberKey(b.hash));
    ChainKeyAfter(kv, head, b, HEAD_BLOCK_KEY);
    ChainKeyAfter(kv, head, b, HEAD_HEADER_KEY);
    PowWidths();
    ValueOfBigEndianExact(b.number, 8);
  }

  lemma {:induction false} CanonicalKeyUnwritten(kv: map<bytes, bytes>, head: nat, b: Block, m: nat)
    requires |b.hash| == 32 && b.number < TWO64 && m < TWO64 && HeaderHashKey(m) !in kv
    requires m != b.number || b.number <= head
    ensures HeaderHashKey(m) !in ApplyOps(kv, AllOps(kv, head, b))
  {
    ChainKeys(m, b.hash);
    RestartKeys(b.number, b.hash, b.hash, m);
    if HeaderHashKey(m) == HeaderHashKey(b.number) {
      CanonicalKeysDiffer(m, b.number);
    }
    UnwrittenKept(kv, BlockOps(kv, head, b), HeaderHashKey(m));
    ChainKeyAfter(kv, head, b, HeaderHashKey(m));
  }

  /** Committing a block not above the head in memory leaves the stored head alone. */
  lemma {:induction false} CommitKeepsHead(kv: map<bytes, bytes>, n: nat, head: nat, b: Block)
    requires HeadIs(kv, n) && Storable(b) && b.number <= head
    requires b.hash == HashUnder(kv, HEAD_BLOCK_KEY) ==> b.number == n
    ensures HeadIs(ApplyOps(kv, AllOps(kv, head, b)), n)
  {
    var h := HashUnder(kv, HEAD_BLOCK_KEY);
    var r := ApplyOps(kv, AllOps(kv, head, b));
    HeadKeysKept(kv, head, b);
    HeadNumberKept(kv, n, head, b);
    CommitKnows(kv, head, b, n, h);
    forall m: nat | n < m < TWO64
      ensures HeaderHashKey(m) !in r
    {
      CanonicalKeyUnwritten(kv, head, b, m);
    }
  }

  lemma {:induction false} HeadKeysKept(kv: map<bytes, bytes>, head: nat, b: Block)
    requires |b.hash| == 32 && b.number <= head
    ensures var r := ApplyOps(kv, AllOps(kv, head, b));
            HashUnder(r, HEAD_BLOCK_KEY) == HashUnder(kv, HEAD_BLOCK_KEY)
            && HashUnder(r, HEAD_HEADER_KEY) == HashUnder(kv, HEAD_HEADER_KEY)
  {
    ChainKeys(b.number, b.hash);
    RestartKeys(b.number, b.hash, b.hash, b.number);
    UnwrittenKept(kv, BlockOps(kv, head, b), HEAD_BLOCK_KEY);
    UnwrittenKept(kv, BlockOps(kv, head, b), HEAD_HEADER_KEY);
    ChainKeyAfter(kv, head, b, HEAD_BLOCK_KEY);
    ChainKeyAfter(kv, head, b, HEAD_HEADER_KEY);
  }

  lemma {:induction false} HeadNumberKept(kv: map<bytes, bytes>, n: nat, head: nat, b: Block)
    requires HeadIs(kv, n) && Storable(b) && b.number <= head
    requires b.hash == HashUnder(kv, HEAD_BLOCK_KEY) ==> b.number == n
    ensures NumberOf(ApplyOps(kv, AllOps(kv, head, b)), HashUnder(kv, HEAD_BLOCK_KEY)) == Some(n)
  {
    var h := HashUnder(kv, HEAD_BLOCK_KEY);
    var ops := BlockOps(kv, head, b);
    assert ops == ChainOps(b);
    ChainKeys(n, h);
    RestartKeys(b.number, b.hash, h, n);
    ChainKeyAfter(kv, head, b, HeaderNumberKey(h));
    if h == b.hash {
      LastWriteWins(kv, ops, 1);
      PowWidths();
      ValueOfBigEndianExact(n, 8);
    } else {
      UnwrittenKept(kv, ops, HeaderNumberKey(h));
    }
  }

  // ---- The operator follows the state machine ----

  /** The operator's counter, its heads in memory and the head in its store are those of n. */
  ghost predicate Tracks(op: Operator, n: Numbers)
    reads op, op.chain, op.chain.db, op.chain.db.defaultBatch
  {
    && op.chain.db.Valid() && op.chain.db.batch == null
    && op.currentChildBlock == n.child && op.chain.head == op.chain.header == n.head
    && HeadIs(op.chain.db.kv, n.stored) && NumbersInv(n)
  }

  /** The store after a block was or was not committed to it. */
  function Committed(kv: map<bytes, bytes>, head: nat, b: Block, committed: bool): (r: map<bytes, bytes>) {
    if committed then ApplyOps(kv, AllOps(kv, head, b)) else kv
  }

  /** Writing a block moves the numbers as the state machine says, whatever the store does. */
  lemma {:induction false} WrittenHeads(kv: map<bytes, bytes>, n: Numbers, b: Block, committed: bool)
    requires HeadIs(kv, n.stored) && n.stored <= n.head && Storable(b)
    requires b.hash == HashUnder(kv, HEAD_BLOCK_KEY) ==> b.number == n.stored
    ensures b.number > n.head ==> CanonicalHash(kv, b.number) != b.hash
    ensures HeadIs(Committed(kv, n.head, b, committed), Written(n, b.number, committed).stored)
  {
    if b.number > n.head {
      CommitMovesHead(kv, n.stored, n.head, b);
    } else {
      CommitKeepsHead(kv, n.stored, n.head, b);
    }
  }

  /** Sealing a block is one step of the machine, with any faults; whether the submission is sent is open. */
  method TrackSeal(op: Operator, txs: seq<Tx>, hash: bytes, rootOk: bool, header: bytes, body: bytes, f: Faults,
                   ghost b: Block, ghost u: Utxos, ghost n: Numbers, ghost sent: bool) returns (v: Verdict)
    requires Tracks(op, n) && Represents(op.chain.db.kv, u)
    requires b == Block(n.child + CHILD_BLOCK_INTERVAL, hash, txs, rootOk, header, body) && Storable(b)
    modifies op, op.chain, op.chain.db, op.chain.db.defaultBatch
    ensures var valid := BlockVerdict(op.chain.sg, u, HasBlock(old(op.chain.db.kv), b.number, b.hash), b).Ok?;
            && v.Ok? == (valid && !Stumbles(f, |b.txs|) && !f.commit)
            && Tracks(op, NumberStep(n, Sealed(valid, v.Ok?, sent)))
    ensures op.chain.db.kv == Committed(old(op.chain.db.kv), n.head, b, v.Ok?)
  {
    ghost var kv := op.chain.db.kv;
    var b';
    v, b' := op.Seal(txs, hash, rootOk, header, body, f, u);
    SealTracked(op, kv, b, f, u, n, sent, v);
  }

  /** What a written seal leaves is the next step of the machine. */
  lemma {:induction false} SealTracked(op: Operator, kv: map<bytes, bytes>, b: Block, f: Faults, u: Utxos, n: Numbers,
                                       sent: bool, v: Verdict)
    requires op.Wrote(kv, n.head, n.head, b, f, u, v) && op.currentChildBlock == b.number
    requires HeadIs(kv, n.stored) && NumbersInv(n) && Storable(b) && b.number == n.child + CHILD_BLOCK_INTERVAL
    ensures var valid := BlockVerdict(op.chain.sg, u, HasBlock(kv, b.number, b.hash), b).Ok?;
            && v.Ok? == (valid && !Stumbles(f, |b.txs|) && !f.commit)
            && Tracks(op, NumberStep(n, Sealed(valid, v.Ok?, sent)))
    ensures op.chain.db.kv == Committed(kv, n.head, b, v.Ok?)
  {
    CommitMovesHead(kv, n.stored, n.head, b);
    SealedNumbers(n, Sealed(BlockVerdict(op.chain.sg, u, HasBlock(kv, b.number, b.hash), b).Ok?, v.Ok?, sent));
  }

  /** A deposit is one step of the machine, with any faults. */
  method TrackDeposit(op: Operator, number: nat, depositor: Address, amount: nat, hash: bytes, header: bytes,
                      body: bytes, f: Faults, ghost b: Block, ghost u: Utxos, ghost n: Numbers) returns (v: Verdict)
    requires Tracks(op, n) && Represents(op.chain.db.kv, u)
    requires b == Block(number, hash, [DepositTx(depositor, amount)], true, header, body) && Storable(b)
    requires IsDepositNumber(number, n.next)
    requires hash == HashUnder(op.chain.db.kv, HEAD_BLOCK_KEY) ==> number == n.stored
    modifies op, op.chain, op.chain.db, op.chain.db.defaultBatch
    ensures v.Ok? == (!Stumbles(f, 1) && !f.commit)
    ensures Tracks(op, NumberStep(n, Deposited(number, v.Ok?)))
    ensures op.chain.db.kv == Committed(old(op.chain.db.kv), n.head, b, v.Ok?)
  {
    WrittenHeads(op.chain.db.kv, n, b, true);
    var b';
    v, b' := op.HandleDepositEvent(number, depositor, amount, hash, header, body, f, u);
    NumberStepInv(n, Deposited(number, v.Ok?));
  }

  lemma {:induction false} LastStateIs(kv: map<bytes, bytes>, n: nat)
    requires HeadIs(kv, n)
    ensures LastState(kv) == Some((n, n))
  {
  }

  lemma {:induction false} FloorUnique(x: nat, c: nat)
    requires c % CHILD_BLOCK_INTERVAL == 0 && c <= x < c + CHILD_BLOCK_INTERVAL
    ensures c == x / CHILD_BLOCK_INTERVAL * CHILD_BLOCK_INTERVAL
  {
  }

  /** A restart on the same store finds its heads again and is one step of the machine. */
  method TrackRestart(db: LDBDatabase, sg: Signer, ghost n: Numbers) returns (op: Operator)
    requires db.Valid() && db.batch == null && HeadIs(db.kv, n.stored) && NumbersInv(n)
    ensures Tracks(op, NumberStep(n, Restarted)) && op.chain.db == db && op.chain.sg == sg
    ensures fresh(op) && fresh(op.chain)
  {
    LastStateIs(db.kv, n.stored);
    RestartInv(n);
    var heads := LoadLastState(db);
    var chain := new BlockChain(db, sg, heads.value.0, heads.value.1);
    op := new Operator(chain);
    FloorUnique(n.stored, op.currentChildBlock);
  }
}
