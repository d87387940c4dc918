/**
 What the ledger keeps over every run of the operator: money is conserved, and no
 output is made twice, spent twice or spent by anyone but its owner.
 */
module LedgerRuns {
  import opened Bytes
  import opened Protocol
  import opened Ledger

  // ---- The money in a set of outputs ----

  ghost function Sum(u: Utxos): (a: nat)
    decreases |u|
  {
    if u == map[] then 0
    else
      var k :| k in u;
      assert (u - {k}).Keys == u.Keys - {k};
      u[k].amount + Sum(u - {k})
  }

  lemma {:induction false} SumWithout(u: Utxos, k: UTXOID)
    requires k in u
    ensures Sum(u) == u[k].amount + Sum(u - {k})
    decreases |u|
  {
    var j :| j in u && Sum(u) == u[j].amount + Sum(u - {j});
    if j != k {
      assert (u - {j}).Keys == u.Keys - {j} && (u - {k}).Keys == u.Keys - {k};
      SumWithout(u - {j}, k);
      SumWithout(u - {k}, j);
      assert u - {j} - {k} == u - {k} - {j};
    }
  }

  lemma {:induction false} SumPut(u: Utxos, k: UTXOID, c: Coin)
    requires k !in u
    ensures Sum(u[k := c]) == Sum(u) + c.amount
  {
    SumWithout(u[k := c], k);
    assert u[k := c] - {k} == u;
  }

  lemma {:induction false} SumDelete(u: Utxos, k: UTXOID)
    ensures Sum(u - {k}) == Sum(u) - if k in u then u[k].amount else 0
  {
    if k in u {
      SumWithout(u, k);
    } else {
      assert u - {k} == u;
    }
  }

  /** The effect of one transaction on the money, when its outputs are new. */
  lemma {:induction false} ApplyTxSum(u: Utxos, number: nat, txIdx: nat, tx: Tx)
    requires tx.ins[0] != tx.ins[1]
    requires forall id :: id in u ==> !IsNull(id)
    requires MakeId(number, txIdx, 0) !in u && MakeId(number, txIdx, 1) !in u
    requires tx.outs[0].amount >= 0 && tx.outs[1].amount >= 0
    ensures Sum(ApplyTx(u, number, txIdx, tx)) == Sum(u) - InTotal(u, tx) + OutTotal(tx)
  {
    var a, b := tx.ins[0], tx.ins[1];
    var i, j := MakeId(number, txIdx, 0), MakeId(number, txIdx, 1);
    SumDelete(u, a);
    SumDelete(u - {a}, b);
    SumPut(u - {a} - {b}, i, MakeCoin(tx.outs[0]));
    SumPut((u - {a} - {b})[i := MakeCoin(tx.outs[0])], j, MakeCoin(tx.outs[1]));
  }

  // ---- The effect of a valid block ----

  function Fees(txs: seq<Tx>): (f: int) {
    if txs == [] then 0 else Fees(txs[..|txs| - 1]) + txs[|txs| - 1].fee
  }

  /** No output of block `number` exists yet, and none of block 0 ever does. */
  ghost predicate Room(u: Utxos, number: nat) {
    && 0 < number < TWO64
    && (forall id :: id in u ==> !IsNull(id) && id.blockNum != number)
  }

  /** The ids a block of n transactions makes. */
  predicate MadeBy(id: UTXOID, number: nat, n: nat) {
    id.blockNum == number && id.txIndex < n && id.outIndex < 2
  }

  /** The coin that transaction list txs makes under an id of its block. */
  function CoinOf(txs: seq<Tx>, id: UTXOID): (c: Coin)
    requires id.txIndex < |txs| && id.outIndex < 2
  {
    MakeCoin(txs[id.txIndex].outs[id.outIndex])
  }

  /** r is u without the spent outputs, with the outputs of the transactions of block `number` added. */
  ghost predicate Result(u: Utxos, number: nat, spent: set<UTXOID>, txs: seq<Tx>, r: Utxos) {
    && (forall id :: id in r <==> (id in u && id !in spent) || MadeBy(id, number, |txs|))
    && (forall id :: id in u && id !in spent ==> r[id] == u[id])
    && (forall id :: MadeBy(id, number, |txs|) ==> r[id] == CoinOf(txs, id))
  }

  lemma {:induction false} ResultStep(u: Utxos, number: nat, spent: set<UTXOID>, txs: seq<Tx>, r: Utxos, tx: Tx)
    requires Room(u, number) && |txs| < TWO32 && Result(u, number, spent, txs, r)
    requires forall i :: 0 <= i < 2 && !IsNull(tx.ins[i]) ==> tx.ins[i] in u
    ensures Result(u, number, spent + Spends(tx), txs + [tx], ApplyTx(r, number, |txs|, tx))
  {
    var n := |txs|;
    var t := ApplyTx(r, number, n, tx);
    forall id
      ensures id in t <==> (id in u && id !in spent + Spends(tx)) || MadeBy(id, number, n + 1)
      ensures MadeBy(id, number, n + 1) ==> t[id] == CoinOf(txs + [tx], id)
    {
      assert MadeBy(id, number, n + 1) <==>
             MadeBy(id, number, n) || id == MakeId(number, n, 0) || id == MakeId(number, n, 1);
      assert id in u ==> (id in Spends(tx) <==> id == tx.ins[0] || id == tx.ins[1]);
    }
  }

  /** A valid block removes exactly what it spends, adds exactly its own outputs, and the money that
      leaves the ledger is the fees. */
  lemma {:induction false} BlockEffect(sg: Signer, u: Utxos, number: nat, txs: seq<Tx>)
    requires Room(u, number) && |txs| <= TWO32 && ValidTxs(sg, u, txs)
    ensures Result(u, number, SpentBy(txs), txs, ApplyTxs(u, number, txs))
    ensures Sum(ApplyTxs(u, number, txs)) + Fees(txs) == Sum(u)
    decreases |txs|
  {
    if txs != [] {
      var n := |txs| - 1;
      var init, tx := txs[..n], txs[n];
      var r := ApplyTxs(u, number, init);
      ValidUnsnoc(sg, u, txs);
      BlockEffect(sg, u, number, init);
      ResultStep(u, number, SpentBy(init), init, r, tx);
      assert init + [tx] == txs;
      SameWorth(sg, u, number, SpentBy(init), init, r, tx);
      ApplyTxSum(r, number, n, tx);
    }
  }

  /** Output o of transaction k is held under block, transaction and output index, with the owner and amount
      the transaction states. */
  lemma {:induction false} BlockOutputs(sg: Signer, u: Utxos, number: nat, txs: seq<Tx>, k: nat, o: nat)
    requires Room(u, number) && |txs| <= TWO32 && ValidTxs(sg, u, txs) && k < |txs| && o < 2
    ensures var r, id := ApplyTxs(u, number, txs), UTXOID(number, k, o);
            id in r && r[id] == Coin(txs[k].outs[o].owner, txs[k].outs[o].amount)
  {
    BlockEffect(sg, u, number, txs);
    assert ValidTx(sg, u, txs[k]);
    assert MadeBy(UTXOID(number, k, o), number, |txs|);
  }

  /** The inputs of the next transaction are still there, with the amounts validation saw. */
  lemma {:induction false} SameWorth(sg: Signer, u: Utxos, number: nat, spent: set<UTXOID>, txs: seq<Tx>, r: Utxos,
                                     tx: Tx)
    requires Room(u, number) && |txs| < TWO32 && Result(u, number, spent, txs, r)
    requires ValidTx(sg, u, tx) && spent !! Spends(tx)
    ensures InTotal(r, tx) == InTotal(u, tx)
    ensures forall id :: id in r ==> !IsNull(id)
    ensures MakeId(number, |txs|, 0) !in r && MakeId(number, |txs|, 1) !in r
  {
    forall i | 0 <= i < 2
      ensures Worth(r, tx.ins[i]) == Worth(u, tx.ins[i])
    {
      if !IsNull(tx.ins[i]) {
        assert tx.ins[i] in Spends(tx);
      }
    }
  }

  // ---- The operator as a state machine ----

  /** One output as a block makes it. */
  datatype Output = Output(id: UTXOID, coin: Coin)

  /** One consumed output: what it was worth, and the input of the transaction that consumed it. */
  datatype Spend = Spend(id: UTXOID, coin: Coin, tx: Tx, input: nat)

  /** The operator's ledger.  The last five fields are its history. */
  datatype Node = Node(
    utxos: Utxos,
    known: set<(nat, bytes)>,
    child: nat,
    used: set<nat>,
    deposited: nat,
    fees: int,
    created: seq<Output>,
    spends: seq<Spend>)

  /** `stored` says whether the store takes the block if it is valid; a store that fails leaves no
      trace of it.  A restart sets the child counter anew. */
  datatype Event =
    | Seal(txs: seq<Tx>, hash: bytes, rootOk: bool, header: bytes, body: bytes, stored: bool)
    | DepositEvent(number: nat, depositor: Address, amount: nat, hash: bytes, header: bytes, body: bytes, stored: bool)
    | Restart(child: nat)

  /** A fresh operator on an empty ledger, with the given blocks stored and the given head number. */
  function Fresh(head: nat, known: set<(nat, bytes)>): (n: Node) {
    Node(map[], known, head / CHILD_BLOCK_INTERVAL * CHILD_BLOCK_INTERVAL, {}, 0, 0, [], [])
  }

  /** The outputs a block makes, in order. */
  function Made(number: nat, txs: seq<Tx>): (r: seq<Output>) {
    if txs == [] then []
    else
      var n := |txs| - 1;
      Made(number, txs[..n]) + [Output(MakeId(number, n, 0), MakeCoin(txs[n].outs[0])),
                                Output(MakeId(number, n, 1), MakeCoin(txs[n].outs[1]))]
  }

  /** The spend at input i, as a sequence of at most one. */
  function SpendAt(u: Utxos, tx: Tx, i: nat): (s: seq<Spend>)
    requires i < 2
  {
    if IsNull(tx.ins[i]) || tx.ins[i] !in u then [] else [Spend(tx.ins[i], u[tx.ins[i]], tx, i)]
  }

  function SpendsOf(u: Utxos, txs: seq<Tx>): (s: seq<Spend>) {
    if txs == [] then []
    else
      var tx := txs[|txs| - 1];
      SpendsOf(u, txs[..|txs| - 1]) + SpendAt(u, tx, 0) + SpendAt(u, tx, 1)
  }

  /** Write a block: rejected blocks change nothing. */
  function WriteBlock(sg: Signer, n: Node, b: Block): (r: Node) {
    if BlockVerdict(sg, n.utxos, (b.number, b.hash) in n.known, b).Err? then n
    else n.(utxos := ApplyTxs(n.utxos, b.number, b.txs),
            known := n.known + {(b.number, b.hash)},
            used := n.used + {b.number},
            created := n.created + Made(b.number, b.txs))
  }

  function SealedBlock(n: Node, e: Event): (b: Block)
    requires e.Seal?
  {
    Block(n.child + CHILD_BLOCK_INTERVAL, e.hash, e.txs, e.rootOk, e.header, e.body)
  }

  function DepositBlock(e: Event): (b: Block)
    requires e.DepositEvent?
  {
    Block(e.number, e.hash, [DepositTx(e.depositor, e.amount)], true, e.header, e.body)
  }

  /** The number a block event takes, and the block it writes. */
  function BlockOf(n: Node, e: Event): (b: Block)
    requires !e.Restart?
  {
    if e.Seal? then SealedBlock(n, e) else DepositBlock(e)
  }

  /** Validation accepts the block of the event, and the store takes it. */
  predicate Accepted(sg: Signer, n: Node, e: Event)
    requires !e.Restart?
  {
    var b := BlockOf(n, e);
    BlockVerdict(sg, n.utxos, (b.number, b.hash) in n.known, b).Ok? && e.stored
  }

  /** Sealing takes the next child number even if the block is then rejected or lost. */
  function Step(sg: Signer, n: Node, e: Event): (r: Node)
    ensures r.child == match e case Seal(_, _, _, _, _, _) => n.child + CHILD_BLOCK_INTERVAL
                               case DepositEvent(_, _, _, _, _, _, _) => n.child
                               case Restart(c) => c
  {
    match e
    case Seal(txs, _, _, _, _, _) =>
      var b := SealedBlock(n, e);
      var m := n.(child := b.number);
      if !Accepted(sg, n, e) then m
      else WriteBlock(sg, m, b).(fees := m.fees + Fees(txs), spends := m.spends + SpendsOf(m.utxos, txs))
    case DepositEvent(_, _, amount, _, _, _, _) =>
      if !Accepted(sg, n, e) then n
      else WriteBlock(sg, n, DepositBlock(e)).(deposited := n.deposited + amount)
    case Restart(c) => n.(child := c)
  }

  function Run(sg: Signer, start: Node, es: seq<Event>): (n: Node) {
    if es == [] then start else Step(sg, Run(sg, start, es[..|es| - 1]), es[|es| - 1])
  }

  // ---- Invariants ----

  predicate Distinct(ids: seq<UTXOID>) {
    forall i, j :: 0 <= i < j < |ids| ==> ids[i] != ids[j]
  }

  function Ids(s: seq<Spend>): (ids: seq<UTXOID>)
    ensures |ids| == |s|
    ensures forall i :: 0 <= i < |s| ==> ids[i] == s[i].id
  {
    seq(|s|, i requires 0 <= i < |s| => s[i].id)
  }

  function OutputIds(s: seq<Output>): (ids: seq<UTXOID>)
    ensures |ids| == |s|
    ensures forall i :: 0 <= i < |s| ==> ids[i] == s[i].id
  {
    seq(|s|, i requires 0 <= i < |s| => s[i].id)
  }

  /** The outputs are those made and not spent; nothing was made twice or spent twice. */
  ghost predicate Accounted(utxos: Utxos, created: seq<UTXOID>, spent: seq<UTXOID>) {
    && Distinct(created) && Distinct(spent)
    && (forall id :: id in utxos <==> id in created && id !in spent)
    && (forall id :: id in spent ==> id in created)
  }

  /** Unspent and spent outputs alike have the owner and the amount they were made with. */
  ghost predicate Genuine(utxos: Utxos, created: seq<Output>, spends: seq<Spend>) {
    && (forall id :: id in utxos ==> Output(id, utxos[id]) in created)
    && (forall i :: 0 <= i < |spends| ==> Output(spends[i].id, spends[i].coin) in created)
  }

  /** Everything made lies in a block that was written; child blocks are multiples of 1000 up to child. */
  ghost predicate Numbered(created: seq<UTXOID>, used: set<nat>, child: nat) {
    && child % CHILD_BLOCK_INTERVAL == 0
    && (forall m :: m in used ==> 0 < m < TWO64 && (m % CHILD_BLOCK_INTERVAL == 0 ==> m <= child))
    && (forall id :: id in created ==> id.blockNum in used)
  }

  /** The output is the one the input names; the first recovered sender answers for the first input, the
      second for the second, and that sender is its owner. */
  predicate SignedFor(sg: Signer, x: Spend) {
    && x.input < 2 && x.tx.ins[x.input] == x.id && sg.senders(x.tx).Some?
    && (x.input == 0 ==> x.coin.owner == sg.senders(x.tx).value.0)
    && (x.input == 1 ==> x.coin.owner == sg.senders(x.tx).value.1)
  }

  ghost predicate Authorised(sg: Signer, spends: seq<Spend>) {
    forall i :: 0 <= i < |spends| ==> SignedFor(sg, spends[i])
  }

  ghost predicate Inv(sg: Signer, n: Node) {
    && Accounted(n.utxos, OutputIds(n.created), Ids(n.spends))
    && Genuine(n.utxos, n.created, n.spends)
    && Numbered(OutputIds(n.created), n.used, n.child)
    && Authorised(sg, n.spends)
    && Sum(n.utxos) + n.fees == n.deposited
  }

  lemma {:induction false} RoomFor(sg: Signer, n: Node, number: nat)
    requires Inv(sg, n) && 0 < number < TWO64 && number !in n.used
    ensures Room(n.utxos, number)
  {
  }

  lemma {:induction false} MadeMeaning(number: nat, txs: seq<Tx>)
    requires number < TWO64 && |txs| <= TWO32
    ensures Distinct(OutputIds(Made(number, txs)))
    ensures forall id :: id in OutputIds(Made(number, txs)) <==> MadeBy(id, number, |txs|)
    ensures forall id :: MadeBy(id, number, |txs|) ==> Output(id, CoinOf(txs, id)) in Made(number, txs)
    decreases |txs|
  {
    if txs != [] {
      var n := |txs| - 1;
      var init := txs[..n];
      MadeMeaning(number, init);
      var a, b := MakeId(number, n, 0), MakeId(number, n, 1);
      var x, y := Output(a, MakeCoin(txs[n].outs[0])), Output(b, MakeCoin(txs[n].outs[1]));
      assert Made(number, txs) == Made(number, init) + [x, y];
      assert OutputIds(Made(number, txs)) == OutputIds(Made(number, init)) + [a, b];
      assert a !in OutputIds(Made(number, init)) && b !in OutputIds(Made(number, init)) && a != b;
      forall id
        ensures id in OutputIds(Made(number, txs)) <==> MadeBy(id, number, n + 1)
        ensures MadeBy(id, number, n + 1) ==> Output(id, CoinOf(txs, id)) in Made(number, txs)
      {
        assert MadeBy(id, number, n + 1) <==> MadeBy(id, number, n) || id == a || id == b;
        assert MadeBy(id, number, n) ==> CoinOf(init, id) == CoinOf(txs, id);
      }
    }
  }

  lemma {:induction false} DistinctJoin(a: seq<UTXOID>, b: seq<UTXOID>)
    requires Distinct(a) && Distinct(b) && forall id :: id in a ==> id !in b
    ensures Distinct(a + b)
  {
    forall i, j | 0 <= i < j < |a + b|
      ensures (a + b)[i] != (a + b)[j]
    {
      if i < |a| <= j {
        assert a[i] in a && b[j - |a|] in b;
      }
    }
  }

  lemma {:induction false} JoinSpends(sg: Signer, a: seq<Spend>, b: seq<Spend>)
    ensures Ids(a + b) == Ids(a) + Ids(b)
    ensures Authorised(sg, a) && Authorised(sg, b) ==> Authorised(sg, a + b)
  {
  }

  /** The spends consume exactly the given outputs, once each, each signed for by its owner. */
  ghost predicate SpendExactly(sg: Signer, s: seq<Spend>, ids: set<UTXOID>) {
    Distinct(Ids(s)) && (forall id :: id in Ids(s) <==> id in ids) && Authorised(sg, s)
  }

  lemma {:induction false} SpendMore(sg: Signer, a: seq<Spend>, b: seq<Spend>, x: set<UTXOID>, y: set<UTXOID>)
    requires SpendExactly(sg, a, x) && SpendExactly(sg, b, y) && x !! y
    ensures SpendExactly(sg, a + b, x + y)
  {
    JoinSpends(sg, a, b);
    DistinctJoin(Ids(a), Ids(b));
  }

  /** The spends of a valid list of transactions are its real inputs, once each, each signed by its owner. */
  lemma {:induction false} SpendsMeaning(sg: Signer, u: Utxos, txs: seq<Tx>)
    requires ValidTxs(sg, u, txs)
    ensures SpendExactly(sg, SpendsOf(u, txs), SpentBy(txs))
    decreases |txs|
  {
    if txs != [] {
      var n := |txs| - 1;
      var init, tx := txs[..n], txs[n];
      ValidUnsnoc(sg, u, txs);
      SpendsMeaning(sg, u, init);
      TxSpendsMeaning(sg, u, tx);
      var more := SpendAt(u, tx, 0) + SpendAt(u, tx, 1);
      SpendMore(sg, SpendsOf(u, init), more, SpentBy(init), Spends(tx));
      assert SpendsOf(u, txs) == SpendsOf(u, init) + more;
    }
  }

  lemma {:induction false} TxSpendsMeaning(sg: Signer, u: Utxos, tx: Tx)
    requires ValidTx(sg, u, tx)
    ensures SpendExactly(sg, SpendAt(u, tx, 0) + SpendAt(u, tx, 1), Spends(tx))
  {
    var s := SpendAt(u, tx, 0) + SpendAt(u, tx, 1);
    forall id
      ensures id in Ids(s) <==> id in Spends(tx)
    {
      if id in Spends(tx) {
        var i :| 0 <= i < 2 && !IsNull(tx.ins[i]) && id == tx.ins[i];
        assert Spend(id, u[id], tx, i) in s;
        var k :| 0 <= k < |s| && s[k] == Spend(id, u[id], tx, i);
        assert Ids(s)[k] == id;
      }
      if id in Ids(s) {
        var k :| 0 <= k < |s| && Ids(s)[k] == id;
        assert id == tx.ins[0] || id == tx.ins[1];
      }
    }
  }

  /** Joining new outputs and new spends to an accounted ledger. */
  lemma {:induction false} AccountedStep(u: Utxos, number: nat, created: seq<UTXOID>, spent: seq<UTXOID>,
                                         txs: seq<Tx>, more: seq<UTXOID>, r: Utxos)
    requires Accounted(u, created, spent) && 0 < number < TWO64 && |txs| <= TWO32
    requires forall id :: id in created ==> id.blockNum != number
    requires Distinct(more) && (forall id :: id in more <==> id in SpentBy(txs))
    requires forall id :: id in more ==> id in u
    requires Result(u, number, SpentBy(txs), txs, r)
    ensures Accounted(r, created + OutputIds(Made(number, txs)), spent + more)
  {
    MadeMeaning(number, txs);
    DistinctJoin(created, OutputIds(Made(number, txs)));
    DistinctJoin(spent, more);
  }

  lemma {:induction false} GenuineStep(u: Utxos, number: nat, created: seq<Output>, spends: seq<Spend>, txs: seq<Tx>,
                                       more: seq<Spend>, r: Utxos)
    requires Genuine(u, created, spends) && 0 < number < TWO64 && |txs| <= TWO32
    requires forall i :: 0 <= i < |more| ==> more[i].id in u && u[more[i].id] == more[i].coin
    requires Result(u, number, SpentBy(txs), txs, r)
    ensures Genuine(r, created + Made(number, txs), spends + more)
  {
    MadeMeaning(number, txs);
  }

  /** A spend records the output as the ledger held it. */
  lemma {:induction false} SpendsHeld(sg: Signer, u: Utxos, txs: seq<Tx>)
    ensures forall i :: 0 <= i < |SpendsOf(u, txs)| ==>
              SpendsOf(u, txs)[i].id in u && u[SpendsOf(u, txs)[i].id] == SpendsOf(u, txs)[i].coin
    decreases |txs|
  {
    if txs != [] {
      SpendsHeld(sg, u, txs[..|txs| - 1]);
    }
  }

  lemma {:induction false} JoinOutputs(a: seq<Output>, b: seq<Output>)
    ensures OutputIds(a + b) == OutputIds(a) + OutputIds(b)
  {
  }

  lemma {:induction false} NumberedStep(created: seq<UTXOID>, used: set<nat>, child: nat, number: nat,
                                        txs: seq<Tx>, child': nat)
    requires Numbered(created, used, child) && child <= child' && child' % CHILD_BLOCK_INTERVAL == 0
    requires 0 < number < TWO64 && |txs| <= TWO32 && (number % CHILD_BLOCK_INTERVAL == 0 ==> number <= child')
    ensures Numbered(created + OutputIds(Made(number, txs)), used + {number}, child')
  {
    MadeMeaning(number, txs);
  }

  lemma {:induction false} SealedAccounts(sg: Signer, u: Utxos, number: nat, txs: seq<Tx>, created: seq<Output>,
                                          spends: seq<Spend>)
    requires Room(u, number) && |txs| <= TWO32 && ValidTxs(sg, u, txs)
    requires Accounted(u, OutputIds(created), Ids(spends)) && Genuine(u, created, spends) && Authorised(sg, spends)
    requires forall id :: id in OutputIds(created) ==> id.blockNum != number
    ensures var r, all := ApplyTxs(u, number, txs), spends + SpendsOf(u, txs);
            && Accounted(r, OutputIds(created + Made(number, txs)), Ids(all))
            && Genuine(r, created + Made(number, txs), all) && Authorised(sg, all)
  {
    var more := SpendsOf(u, txs);
    BlockEffect(sg, u, number, txs);
    SpendsReady(sg, u, txs);
    SpendsHeld(sg, u, txs);
    AccountedStep(u, number, OutputIds(created), Ids(spends), txs, Ids(more), ApplyTxs(u, number, txs));
    GenuineStep(u, number, created, spends, txs, more, ApplyTxs(u, number, txs));
    JoinSpends(sg, spends, more);
    JoinOutputs(created, Made(number, txs));
  }

  lemma {:induction false} SpendsReady(sg: Signer, u: Utxos, txs: seq<Tx>)
    requires ValidTxs(sg, u, txs)
    ensures var ids := Ids(SpendsOf(u, txs));
            Distinct(ids) && (forall id :: id in ids <==> id in SpentBy(txs)) && (forall id :: id in ids ==> id in u)
    ensures Authorised(sg, SpendsOf(u, txs))
  {
    SpendsMeaning(sg, u, txs);
    SpentInUtxos(sg, u, txs);
  }

  lemma {:induction false} SealInv(sg: Signer, n: Node, e: Event)
    requires Inv(sg, n) && e.Seal? && |e.txs| <= TWO32 && n.child + CHILD_BLOCK_INTERVAL < TWO64
    ensures Inv(sg, Step(sg, n, e))
  {
    var b := SealedBlock(n, e);
    if Accepted(sg, n, e) {
      RoomFor(sg, n, b.number);
      TxsVerdictMeaning(sg, n.utxos, e.txs);
      BlockEffect(sg, n.utxos, b.number, e.txs);
      SealedAccounts(sg, n.utxos, b.number, e.txs, n.created, n.spends);
      NumberedStep(OutputIds(n.created), n.used, n.child, b.number, e.txs, b.number);
      JoinOutputs(n.created, Made(b.number, e.txs));
    }
  }

  lemma {:induction false} SpentInUtxos(sg: Signer, u: Utxos, txs: seq<Tx>)
    requires ValidTxs(sg, u, txs)
    ensures SpentBy(txs) <= u.Keys
    decreases |txs|
  {
    if txs != [] {
      var n := |txs| - 1;
      assert forall k :: 0 <= k < n ==> txs[..n][k] == txs[k];
      SpentInUtxos(sg, u, txs[..n]);
    }
  }

  /** A deposit block adds the deposit and an empty output; its null inputs remove nothing. */
  lemma {:induction false} DepositEffect(u: Utxos, number: nat, owner: Address, amount: nat)
    requires Room(u, number)
    ensures var txs := [DepositTx(owner, amount)];
            && SpentBy(txs) == {}
            && Result(u, number, {}, txs, ApplyTxs(u, number, txs))
            && Sum(ApplyTxs(u, number, txs)) == Sum(u) + amount
            && (var r, a, b := ApplyTxs(u, number, txs), UTXOID(number, 0, 0), UTXOID(number, 0, 1);
                a in r && r[a] == Coin(owner, amount) && b in r && r[b] == Coin(0, 0))
  {
    var tx := DepositTx(owner, amount);
    var txs := [tx];
    assert txs[..0] == [];
    assert Spends(tx) == {};
    assert ApplyTxs(u, number, []) == u;
    ResultStep(u, number, {}, [], u, tx);
    assert MadeBy(UTXOID(number, 0, 0), number, 1) && MadeBy(UTXOID(number, 0, 1), number, 1);
    assert [] + [tx] == txs;
    assert u - {NULL_ID} - {NULL_ID} == u;
    SumPut(u, MakeId(number, 0, 0), MakeCoin(tx.outs[0]));
    SumPut(u[MakeId(number, 0, 0) := MakeCoin(tx.outs[0])], MakeId(number, 0, 1), MakeCoin(tx.outs[1]));
  }

  /** A deposit event that names a child-block number is rejected by validation. */
  lemma {:induction false} DepositAtChildNumber(sg: Signer, u: Utxos, known: bool, e: Event)
    requires e.DepositEvent? && e.number % CHILD_BLOCK_INTERVAL == 0
    ensures BlockVerdict(sg, u, known, DepositBlock(e)).Err?
  {
    var txs := DepositBlock(e).txs;
    assert txs[..0] == [];
    assert TxVerdict(sg, u, txs[0]).Err?;
  }

  lemma {:induction false} DepositInv(sg: Signer, n: Node, e: Event)
    requires Inv(sg, n) && e.DepositEvent? && e.number < TWO64 && e.number !in n.used
    ensures Inv(sg, Step(sg, n, e))
  {
    if e.number % CHILD_BLOCK_INTERVAL == 0 {
      DepositAtChildNumber(sg, n.utxos, (e.number, e.hash) in n.known, e);
    } else {
      var txs := DepositBlock(e).txs;
      RoomFor(sg, n, e.number);
      DepositEffect(n.utxos, e.number, e.depositor, e.amount);
      DepositAccounts(n.utxos, e.number, txs, n.created, n.spends);
      NumberedStep(OutputIds(n.created), n.used, n.child, e.number, txs, n.child);
      JoinOutputs(n.created, Made(e.number, txs));
    }
  }

  lemma {:induction false} DepositAccounts(u: Utxos, number: nat, txs: seq<Tx>, created: seq<Output>,
                                           spends: seq<Spend>)
    requires Accounted(u, OutputIds(created), Ids(spends)) && Genuine(u, created, spends)
    requires 0 < number < TWO64 && |txs| <= TWO32 && forall id :: id in OutputIds(created) ==> id.blockNum != number
    requires SpentBy(txs) == {} && Result(u, number, {}, txs, ApplyTxs(u, number, txs))
    ensures var r := ApplyTxs(u, number, txs);
            && Accounted(r, OutputIds(created + Made(number, txs)), Ids(spends))
            && Genuine(r, created + Made(number, txs), spends)
  {
    var r := ApplyTxs(u, number, txs);
    AccountedStep(u, number, OutputIds(created), Ids(spends), txs, [], r);
    GenuineStep(u, number, created, spends, txs, [], r);
    JoinOutputs(created, Made(number, txs));
    assert Ids(spends) + [] == Ids(spends) && spends + [] == spends;
  }

  // ---- Whole runs ----

  /** A restart does not go back behind a child block that was written. */
  predicate RestartsAt(n: Node, child: nat) {
    child % CHILD_BLOCK_INTERVAL == 0 && forall m :: m in n.used && m % CHILD_BLOCK_INTERVAL == 0 ==> m <= child
  }

  /** Blocks and numbers fit their widths, a stored deposit names a block not written before, and a
      restart goes back behind no child block that was written. */
  ghost predicate Clean(sg: Signer, start: Node, es: seq<Event>) {
    es == [] || (var k := |es| - 1; Clean(sg, start, es[..k]) && CleanStep(Run(sg, start, es[..k]), es[k]))
  }

  ghost predicate CleanStep(n: Node, e: Event) {
    match e
    case Seal(txs, _, _, _, _, _) => |txs| <= TWO32 && n.child + CHILD_BLOCK_INTERVAL < TWO64
    case DepositEvent(number, _, _, _, _, _, stored) => number < TWO64 && (stored ==> number !in n.used)
    case Restart(child) => RestartsAt(n, child)
  }

  lemma {:induction false} CleanSnoc(sg: Signer, start: Node, es: seq<Event>, e: Event)
    requires Clean(sg, start, es) && CleanStep(Run(sg, start, es), e)
    ensures Clean(sg, start, es + [e]) && Run(sg, start, es + [e]) == Step(sg, Run(sg, start, es), e)
  {
    assert (es + [e])[..|es|] == es;
  }

  /** The invariant holds after every clean run of seals, deposits, store failures and restarts. */
  lemma {:induction false} RunInv(sg: Signer, start: Node, es: seq<Event>)
    requires Inv(sg, start) && Clean(sg, start, es)
    ensures Inv(sg, Run(sg, start, es))
    decreases |es|
  {
    if es != [] {
      var k := |es| - 1;
      var n, e := Run(sg, start, es[..k]), es[k];
      RunInv(sg, start, es[..k]);
      if e.Seal? {
        SealInv(sg, n, e);
      } else if e.DepositEvent? && e.stored {
        DepositInv(sg, n, e);
      }
    }
  }

  lemma {:induction false} FreshInv(sg: Signer, head: nat, known: set<(nat, bytes)>)
    ensures Inv(sg, Fresh(head, known))
  {
  }

  /** Conservation: what is unspent plus all fees of accepted child blocks is what was deposited. */
  lemma {:induction false} Conservation(sg: Signer, head: nat, known: set<(nat, bytes)>, es: seq<Event>)
    requires Clean(sg, Fresh(head, known), es)
    ensures var n := Run(sg, Fresh(head, known), es);
            Sum(n.utxos) + n.fees == n.deposited
  {
    FreshInv(sg, head, known);
    RunInv(sg, Fresh(head, known), es);
  }

  /** No output is made twice, and the ledger holds exactly the outputs made and not consumed, each
      as it was made. */
  lemma {:induction false} LedgerExact(sg: Signer, head: nat, known: set<(nat, bytes)>, es: seq<Event>)
    requires Clean(sg, Fresh(head, known), es)
    ensures var n := Run(sg, Fresh(head, known), es);
            && (forall a, b :: 0 <= a < b < |n.created| ==> n.created[a].id != n.created[b].id)
            && (forall o: Output ::
                  o.id in n.utxos && n.utxos[o.id] == o.coin <==> o in n.created && o.id !in Ids(n.spends))
  {
    var n := Run(sg, Fresh(head, known), es);
    FreshInv(sg, head, known);
    RunInv(sg, Fresh(head, known), es);
    forall a, b | 0 <= a < b < |n.created|
      ensures n.created[a].id != n.created[b].id
    {
      assert OutputIds(n.created)[a] != OutputIds(n.created)[b];
    }
    forall o: Output
      ensures o.id in n.utxos && n.utxos[o.id] == o.coin <==> o in n.created && o.id !in Ids(n.spends)
    {
      HeldAsMade(sg, n, o);
    }
  }

  lemma {:induction false} HeldAsMade(sg: Signer, n: Node, o: Output)
    requires Inv(sg, n)
    ensures o.id in n.utxos && n.utxos[o.id] == o.coin <==> o in n.created && o.id !in Ids(n.spends)
  {
    if o in n.created && o.id !in Ids(n.spends) {
      var k :| 0 <= k < |n.created| && n.created[k] == o;
      assert OutputIds(n.created)[k] == o.id;
      MadeOnce(n.created, o, Output(o.id, n.utxos[o.id]));
    }
  }

  lemma {:induction false} MadeOnce(created: seq<Output>, a: Output, b: Output)
    requires Distinct(OutputIds(created)) && a in created && b in created && a.id == b.id
    ensures a == b
  {
    var k :| 0 <= k < |created| && created[k] == a;
    var j :| 0 <= j < |created| && created[j] == b;
    assert OutputIds(created)[k] == OutputIds(created)[j];
  }

  /** Some event seals a block with the transaction. */
  ghost predicate SealedIn(es: seq<Event>, tx: Tx) {
    exists k :: 0 <= k < |es| && es[k].Seal? && tx in es[k].txs
  }

  lemma {:induction false} SpendsOfBlock(u: Utxos, txs: seq<Tx>)
    ensures forall i :: 0 <= i < |SpendsOf(u, txs)| ==> SpendsOf(u, txs)[i].tx in txs
    decreases |txs|
  {
    if txs != [] {
      SpendsOfBlock(u, txs[..|txs| - 1]);
    }
  }

  lemma {:induction false} SpendsSealed(sg: Signer, start: Node, es: seq<Event>, i: nat)
    requires start.spends == [] && i < |Run(sg, start, es).spends|
    ensures SealedIn(es, Run(sg, start, es).spends[i].tx)
    decreases |es|
  {
    var k := |es| - 1;
    var n := Run(sg, start, es[..k]);
    if i < |n.spends| {
      SpendsSealed(sg, start, es[..k], i);
      var j :| 0 <= j < k && es[..k][j].Seal? && n.spends[i].tx in es[..k][j].txs;
      assert es[j] == es[..k][j];
    } else {
      SpendsOfBlock(n.utxos, es[k].txs);
    }
  }

  /** No double spend and no unauthorised spend: an output is consumed at most once, as it was made,
      by an input of a sealed transaction that names it, and only with its owner's signature for that
      input. */
  lemma {:induction false} NoDoubleSpend(sg: Signer, head: nat, known: set<(nat, bytes)>, es: seq<Event>, i: nat)
    requires Clean(sg, Fresh(head, known), es) && i < |Run(sg, Fresh(head, known), es).spends|
    ensures var n := Run(sg, Fresh(head, known), es);
            var x := n.spends[i];
            && (forall j :: 0 <= j < |n.spends| && n.spends[j].id == x.id ==> j == i)
            && Output(x.id, x.coin) in n.created && SealedIn(es, x.tx)
            && x.input < 2 && x.tx.ins[x.input] == x.id && sg.senders(x.tx).Some?
            && (x.input == 0 ==> x.coin.owner == sg.senders(x.tx).value.0)
            && (x.input == 1 ==> x.coin.owner == sg.senders(x.tx).value.1)
  {
    var n := Run(sg, Fresh(head, known), es);
    FreshInv(sg, head, known);
    RunInv(sg, Fresh(head, known), es);
    SpendsSealed(sg, Fresh(head, known), es, i);
    assert SignedFor(sg, n.spends[i]);
    forall j | 0 <= j < |n.spends| && n.spends[j].id == n.spends[i].id
      ensures j == i
    {
      assert Ids(n.spends)[j] == Ids(n.spends)[i];
    }
  }

  // ---- Deposits and child blocks commute ----

  lemma {:induction false} ApplyTxPut(u: Utxos, number: nat, txIdx: nat, tx: Tx, k: UTXOID, c: Coin)
    requires k !in tx.ins && k.blockNum != number < TWO64
    ensures ApplyTx(u[k := c], number, txIdx, tx) == ApplyTx(u, number, txIdx, tx)[k := c]
  {
    assert tx.ins[0] in tx.ins && tx.ins[1] in tx.ins;
  }

  /** Putting an output that a block does not touch can be done before or after the block. */
  lemma {:induction false} ApplyTxsPut(u: Utxos, number: nat, txs: seq<Tx>, k: UTXOID, c: Coin)
    requires k.blockNum != number < TWO64 && forall i :: 0 <= i < |txs| ==> k !in txs[i].ins
    ensures ApplyTxs(u[k := c], number, txs) == ApplyTxs(u, number, txs)[k := c]
    decreases |txs|
  {
    if txs != [] {
      var n := |txs| - 1;
      ApplyTxsPut(u, number, txs[..n], k, c);
      ApplyTxPut(ApplyTxs(u, number, txs[..n]), number, n, txs[n], k, c);
    }
  }

  lemma {:induction false} DepositIsTwoPuts(u: Utxos, d: nat, owner: Address, amount: nat)
    requires forall id :: id in u ==> !IsNull(id)
    ensures ApplyTxs(u, d, [DepositTx(owner, amount)])
            == u[MakeId(d, 0, 0) := Coin(owner, amount)][MakeId(d, 0, 1) := Coin(0, 0)]
  {
    var tx := DepositTx(owner, amount);
    assert [tx][..0] == [];
    assert ApplyTxs(u, d, []) == u;
    assert u - {NULL_ID} - {NULL_ID} == u;
  }

  /** A transaction's verdict does not see outputs it does not name. */
  lemma {:induction false} ValidTxPut(sg: Signer, u: Utxos, tx: Tx, k: UTXOID, c: Coin)
    requires k !in tx.ins
    ensures ValidTx(sg, u[k := c], tx) <==> ValidTx(sg, u, tx)
  {
    assert tx.ins[0] in tx.ins && tx.ins[1] in tx.ins;
  }

  lemma {:induction false} ValidTxsPut(sg: Signer, u: Utxos, txs: seq<Tx>, k: UTXOID, c: Coin)
    requires forall i :: 0 <= i < |txs| ==> k !in txs[i].ins
    ensures ValidTxs(sg, u[k := c], txs) <==> ValidTxs(sg, u, txs)
  {
    forall i | 0 <= i < |txs|
      ensures ValidTx(sg, u[k := c], txs[i]) <==> ValidTx(sg, u, txs[i])
    {
      ValidTxPut(sg, u, txs[i], k, c);
    }
  }

  /** A child block that is valid before a fresh deposit stays valid after it, and both orders end in
      the same ledger. */
  lemma {:induction false} DepositCommutes(sg: Signer, u: Utxos, number: nat, txs: seq<Tx>, d: nat, owner: Address,
                                           amount: nat)
    requires Room(u, number) && Room(u, d) && number != d && |txs| <= TWO32
    requires ValidTxs(sg, u, txs)
    ensures var deposit := [DepositTx(owner, amount)];
            && ValidTxs(sg, ApplyTxs(u, d, deposit), txs)
            && ApplyTxs(ApplyTxs(u, d, deposit), number, txs) == ApplyTxs(ApplyTxs(u, number, txs), d, deposit)
  {
    var i, j := MakeId(d, 0, 0), MakeId(d, 0, 1);
    NothingNamed(sg, u, d, txs);
    RealIds(sg, u, number, txs);
    DepositIsTwoPuts(u, d, owner, amount);
    DepositIsTwoPuts(ApplyTxs(u, number, txs), d, owner, amount);
    TwoPuts(sg, u, number, txs, i, Coin(owner, amount), j, Coin(0, 0));
  }

  /** Two outputs that no transaction names can be put before or after the block. */
  lemma {:induction false} TwoPuts(sg: Signer, u: Utxos, number: nat, txs: seq<Tx>, i: UTXOID, c: Coin, j: UTXOID,
                                   z: Coin)
    requires i.blockNum != number < TWO64 && j.blockNum != number && ValidTxs(sg, u, txs)
    requires forall k :: 0 <= k < |txs| ==> i !in txs[k].ins && j !in txs[k].ins
    ensures ValidTxs(sg, u[i := c][j := z], txs)
    ensures ApplyTxs(u[i := c][j := z], number, txs) == ApplyTxs(u, number, txs)[i := c][j := z]
  {
    ValidTxsPut(sg, u, txs, i, c);
    ValidTxsPut(sg, u[i := c], txs, j, z);
    ApplyTxsPut(u, number, txs, i, c);
    ApplyTxsPut(u[i := c], number, txs, j, z);
  }

  lemma {:induction false} NothingNamed(sg: Signer, u: Utxos, d: nat, txs: seq<Tx>)
    requires Room(u, d) && ValidTxs(sg, u, txs)
    ensures forall k :: 0 <= k < |txs| ==> MakeId(d, 0, 0) !in txs[k].ins && MakeId(d, 0, 1) !in txs[k].ins
  {
    forall k | 0 <= k < |txs|
      ensures MakeId(d, 0, 0) !in txs[k].ins && MakeId(d, 0, 1) !in txs[k].ins
    {
      NamesOnlyOld(sg, u, d, txs[k]);
    }
  }

  lemma {:induction false} RealIds(sg: Signer, u: Utxos, number: nat, txs: seq<Tx>)
    requires Room(u, number) && |txs| <= TWO32 && ValidTxs(sg, u, txs)
    ensures forall id :: id in ApplyTxs(u, number, txs) ==> !IsNull(id)
  {
    BlockEffect(sg, u, number, txs);
  }

  lemma {:induction false} NamesOnlyOld(sg: Signer, u: Utxos, d: nat, tx: Tx)
    requires Room(u, d) && ValidTx(sg, u, tx)
    ensures MakeId(d, 0, 0) !in tx.ins && MakeId(d, 0, 1) !in tx.ins
  {
    forall i | 0 <= i < 2
      ensures tx.ins[i].blockNum != d
    {
      assert !IsNull(tx.ins[i]) ==> tx.ins[i] in u;
    }
  }
}
