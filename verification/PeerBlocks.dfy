/**
 A node that takes its blocks from peers.  A child block is validated; a block under
 any other number is taken as it is, as if it were a deposit.  What such a block does
 to the ledger, when it is no more than a deposit, and what then holds over every
 sequence of blocks, in any order.
 */
module PeerBlocks {
  import opened Bytes
  import opened Protocol
  import opened Ledger
  import opened LedgerRuns
  import opened Store
  import opened Nodes
  import opened NodeRuns

  predicate IsChild(b: Block) {
    b.number % CHILD_BLOCK_INTERVAL == 0
  }

  // ---- One block that is not validated ----

  /** The ledger with one deposit more: the deposit itself and the empty second output. */
  function WithDeposit(u: Utxos, number: nat, c: Coin): (r: Utxos) {
    u[MakeId(number, 0, 0) := c][MakeId(number, 0, 1) := Coin(0, 0)]
  }

  /** The block takes a number without outputs and adds one deposit, and nothing else. */
  ghost predicate AddsDeposit(u: Utxos, b: Block) {
    Room(u, b.number) && exists c :: ApplyTxs(u, b.number, b.txs) == WithDeposit(u, b.number, c)
  }

  /** One transaction that names no output there is, and whose second output is empty. */
  predicate DepositShaped(u: Utxos, txs: seq<Tx>) {
    |txs| == 1 && txs[0].ins[0] !in u && txs[0].ins[1] !in u && txs[0].outs[1] == TxOut(0, 0)
  }

  lemma {:induction false} OneTx(u: Utxos, number: nat, tx: Tx)
    ensures ApplyTxs(u, number, [tx]) == ApplyTx(u, number, 0, tx)
  {
    assert [tx][..0] == [];
    assert ApplyTxs(u, number, []) == u;
  }

  lemma {:induction false} ShapedAdds(u: Utxos, number: nat, txs: seq<Tx>)
    requires DepositShaped(u, txs)
    ensures ApplyTxs(u, number, txs) == WithDeposit(u, number, MakeCoin(txs[0].outs[0]))
    ensures var o := txs[0].outs[0];
            var amount := if o.amount < 0 then 0 - o.amount else o.amount;
            ApplyTxs(u, number, txs) == WithDeposit(u, number, Coin(o.owner, amount))
  {
    assert txs == [txs[0]];
    OneTx(u, number, txs[0]);
    assert u - {txs[0].ins[0]} - {txs[0].ins[1]} == u;
  }

  /** The last transaction of a block leaves its outputs there. */
  lemma {:induction false} LastMade(u: Utxos, number: nat, txs: seq<Tx>)
    requires txs != []
    ensures MakeId(number, |txs| - 1, 0) in ApplyTxs(u, number, txs)
  {
  }

  lemma {:induction false} OneDeposit(u: Utxos, number: nat, txs: seq<Tx>, c: Coin)
    requires Room(u, number) && |txs| <= TWO32 && ApplyTxs(u, number, txs) == WithDeposit(u, number, c)
    ensures |txs| == 1
  {
    if txs != [] {
      LastMade(u, number, txs);
    }
  }

  lemma {:induction false} AddedShape(u: Utxos, number: nat, tx: Tx, c: Coin)
    requires Room(u, number) && ApplyTx(u, number, 0, tx) == WithDeposit(u, number, c)
    ensures tx.ins[0] !in u && tx.ins[1] !in u && tx.outs[1] == TxOut(0, 0)
  {
    var r := ApplyTx(u, number, 0, tx);
    assert r[MakeId(number, 0, 1)] == MakeCoin(tx.outs[1]);
    TxLeaves(u, number, 0, tx, tx.ins[0]);
    TxLeaves(u, number, 0, tx, tx.ins[1]);
  }

  /** For every ledger and every block that is no child block: it is taken, and it adds one deposit and
      nothing else if and only if its number has no outputs yet and it is shaped like a deposit. */
  lemma {:induction false} UnvalidatedExact(sg: Signer, u: Utxos, known: bool, b: Block)
    requires !IsChild(b) && |b.txs| <= TWO32
    ensures BlockVerdict(sg, u, known, b).Ok?
    ensures AddsDeposit(u, b) <==> Room(u, b.number) && DepositShaped(u, b.txs)
  {
    if Room(u, b.number) && DepositShaped(u, b.txs) {
      ShapedAdds(u, b.number, b.txs);
    }
    if AddsDeposit(u, b) {
      var c :| ApplyTxs(u, b.number, b.txs) == WithDeposit(u, b.number, c);
      OneDeposit(u, b.number, b.txs, c);
      assert b.txs == [b.txs[0]];
      OneTx(u, b.number, b.txs[0]);
      AddedShape(u, b.number, b.txs[0], c);
    }
  }

  /** A transaction that names an output and is signed by nobody. */
  function Unsigned(id: UTXOID, owner: Address, amount: nat): (tx: Tx) {
    TxData([id, NULL_ID], [TxOut(owner, amount), TxOut(0, 0)], 0, [])
  }

  /** Whatever output there is, a block that is no child block can take it away unsigned and make another
      of any amount, although its header does not match its transactions. */
  lemma {:induction false} UnsignedTaken(sg: Signer, u: Utxos, known: bool, id: UTXOID, owner: Address, amount: nat,
                                         b: Block)
    requires id in u && Room(u, b.number) && !IsChild(b)
    requires b.txs == [Unsigned(id, owner, amount)] && !b.rootOk
    ensures BlockVerdict(sg, u, known, b).Ok? && !AddsDeposit(u, b)
    ensures var r := ApplyTxs(u, b.number, b.txs);
            id !in r && Sum(r) == Sum(u) - u[id].amount + amount
  {
    var tx := Unsigned(id, owner, amount);
    UnvalidatedExact(sg, u, known, b);
    OneTx(u, b.number, tx);
    TxLeaves(u, b.number, 0, tx, id);
    ApplyTxSum(u, b.number, 0, tx);
  }

  // ---- Every sequence of blocks ----

  /** Give a node a block: an accepted child block pays its fees and spends its inputs, any other block
      counts as a deposit of its first output. */
  function Take(sg: Signer, n: Node, b: Block): (r: Node) {
    var w := WriteBlock(sg, n, b);
    if BlockVerdict(sg, n.utxos, (b.number, b.hash) in n.known, b).Err? then n
    else if IsChild(b) then
      w.(fees := n.fees + Fees(b.txs), spends := n.spends + SpendsOf(n.utxos, b.txs))
    else w.(deposited := n.deposited + if b.txs == [] then 0 else MakeCoin(b.txs[0].outs[0]).amount)
  }

  function TakeAll(sg: Signer, n: Node, blocks: seq<Block>): (r: Node) {
    if blocks == [] then n else Take(sg, TakeAll(sg, n, blocks[..|blocks| - 1]), blocks[|blocks| - 1])
  }

  /** Everything made lies in a block whose number is in use. */
  ghost predicate InUse(created: seq<Output>, used: set<nat>) {
    (forall m :: m in used ==> 0 < m < TWO64) && (forall id :: id in OutputIds(created) ==> id.blockNum in used)
  }

  /** The ledger invariant without an order among the child numbers, which peers need not keep. */
  ghost predicate Balanced(sg: Signer, n: Node) {
    && Accounted(n.utxos, OutputIds(n.created), Ids(n.spends))
    && Genuine(n.utxos, n.created, n.spends)
    && InUse(n.created, n.used)
    && Authorised(sg, n.spends)
    && Sum(n.utxos) + n.fees == n.deposited
  }

  /** The block names a number not used before, and is a child block or shaped like a deposit. */
  predicate Proper(n: Node, b: Block) {
    && 0 < b.number < TWO64 && b.number !in n.used && |b.txs| <= TWO32
    && (IsChild(b) || DepositShaped(n.utxos, b.txs))
  }

  lemma {:induction false} RoomLeft(sg: Signer, n: Node, number: nat)
    requires Balanced(sg, n) && 0 < number < TWO64 && number !in n.used
    ensures Room(n.utxos, number)
    ensures forall id :: id in OutputIds(n.created) ==> id.blockNum != number
  {
  }

  lemma {:induction false} MadeUsed(created: seq<Output>, used: set<nat>, number: nat, txs: seq<Tx>)
    requires InUse(created, used) && 0 < number < TWO64 && |txs| <= TWO32
    ensures InUse(created + Made(number, txs), used + {number})
  {
    MadeMeaning(number, txs);
    JoinOutputs(created, Made(number, txs));
  }

  lemma {:induction false} FeesLeave(sg: Signer, u: Utxos, number: nat, txs: seq<Tx>)
    requires Room(u, number) && |txs| <= TWO32 && TxsVerdict(sg, u, txs).Ok?
    ensures ValidTxs(sg, u, txs) && Sum(ApplyTxs(u, number, txs)) + Fees(txs) == Sum(u)
  {
    TxsVerdictMeaning(sg, u, txs);
    BlockEffect(sg, u, number, txs);
  }

  lemma {:induction false} TakesChild(sg: Signer, n: Node, b: Block)
    requires IsChild(b) && BlockVerdict(sg, n.utxos, (b.number, b.hash) in n.known, b).Ok?
    ensures Take(sg, n, b) ==
            Node(ApplyTxs(n.utxos, b.number, b.txs), n.known + {(b.number, b.hash)}, n.child, n.used + {b.number},
                 n.deposited, n.fees + Fees(b.txs), n.created + Made(b.number, b.txs),
                 n.spends + SpendsOf(n.utxos, b.txs))
  {
  }

  lemma {:induction false} ChildBalanced(sg: Signer, n: Node, b: Block)
    requires Balanced(sg, n) && Proper(n, b) && IsChild(b)
    requires BlockVerdict(sg, n.utxos, (b.number, b.hash) in n.known, b).Ok?
    ensures Balanced(sg, Take(sg, n, b))
  {
    TakesChild(sg, n, b);
    RoomLeft(sg, n, b.number);
    FeesLeave(sg, n.utxos, b.number, b.txs);
    SealedAccounts(sg, n.utxos, b.number, b.txs, n.created, n.spends);
    MadeUsed(n.created, n.used, b.number, b.txs);
  }

  /** A block shaped like a deposit does what the deposit of its first output does. */
  lemma {:induction false} ShapedIsDeposit(u: Utxos, number: nat, txs: seq<Tx>)
    requires Room(u, number) && DepositShaped(u, txs)
    ensures var c := MakeCoin(txs[0].outs[0]);
            var deposit := [DepositTx(c.owner, c.amount)];
            ApplyTxs(u, number, txs) == ApplyTxs(u, number, deposit) && Made(number, txs) == Made(number, deposit)
  {
    var c := MakeCoin(txs[0].outs[0]);
    var deposit := [DepositTx(c.owner, c.amount)];
    ShapedAdds(u, number, txs);
    DepositIsTwoPuts(u, number, c.owner, c.amount);
    assert txs[..0] == [] && deposit[..0] == [];
    assert Made(number, txs[..0]) == [];
  }

  lemma {:induction false} TakesDeposit(sg: Signer, n: Node, b: Block)
    requires !IsChild(b) && b.txs != []
    ensures Take(sg, n, b) ==
            Node(ApplyTxs(n.utxos, b.number, b.txs), n.known + {(b.number, b.hash)}, n.child, n.used + {b.number},
                 n.deposited + MakeCoin(b.txs[0].outs[0]).amount, n.fees, n.created + Made(b.number, b.txs), n.spends)
  {
  }

  lemma {:induction false} ShapedAccounts(u: Utxos, number: nat, txs: seq<Tx>, created: seq<Output>, spends: seq<Spend>)
    requires Room(u, number) && DepositShaped(u, txs)
    requires Accounted(u, OutputIds(created), Ids(spends)) && Genuine(u, created, spends)
    requires forall id :: id in OutputIds(created) ==> id.blockNum != number
    ensures var r, all := ApplyTxs(u, number, txs), created + Made(number, txs);
            && Accounted(r, OutputIds(all), Ids(spends)) && Genuine(r, all, spends)
            && Sum(r) == Sum(u) + MakeCoin(txs[0].outs[0]).amount
  {
    var c := MakeCoin(txs[0].outs[0]);
    var deposit := [DepositTx(c.owner, c.amount)];
    ShapedIsDeposit(u, number, txs);
    DepositEffect(u, number, c.owner, c.amount);
    DepositAccounts(u, number, deposit, created, spends);
  }

  lemma {:induction false} DepositBalanced(sg: Signer, n: Node, b: Block)
    requires Balanced(sg, n) && Proper(n, b) && !IsChild(b)
    ensures Balanced(sg, Take(sg, n, b))
  {
    TakesDeposit(sg, n, b);
    RoomLeft(sg, n, b.number);
    ShapedAccounts(n.utxos, b.number, b.txs, n.created, n.spends);
    MadeUsed(n.created, n.used, b.number, b.txs);
  }

  /** Every accepted block is proper when it is taken. */
  ghost predicate ProperBlocks(sg: Signer, n: Node, blocks: seq<Block>) {
    blocks == [] ||
    (var k := |blocks| - 1;
     var before := TakeAll(sg, n, blocks[..k]);
     && ProperBlocks(sg, n, blocks[..k])
     && (BlockVerdict(sg, before.utxos, (blocks[k].number, blocks[k].hash) in before.known, blocks[k]).Ok? ==>
           Proper(before, blocks[k])))
  }

  /** Over every sequence of blocks in any order: if every accepted block names a new number and is a child
      block or shaped like a deposit, nothing is made or spent twice or without its owner's signature,
      and unspent outputs plus fees are the deposits. */
  lemma {:induction false} PeersBalanced(sg: Signer, n: Node, blocks: seq<Block>)
    requires Balanced(sg, n) && ProperBlocks(sg, n, blocks)
    ensures Balanced(sg, TakeAll(sg, n, blocks))
    decreases |blocks|
  {
    if blocks != [] {
      var k := |blocks| - 1;
      var before, b := TakeAll(sg, n, blocks[..k]), blocks[k];
      PeersBalanced(sg, n, blocks[..k]);
      if BlockVerdict(sg, before.utxos, (b.number, b.hash) in before.known, b).Ok? {
        if IsChild(b) {
          ChildBalanced(sg, before, b);
        } else {
          DepositBalanced(sg, before, b);
        }
      }
    }
  }

  // ---- On the store ----

  /** A block as peers send it: its hash has 32 bytes and its encodings are not empty. */
  predicate Sendable(b: Block) {
    b.number < TWO64 && |b.hash| == 32 && b.header != [] && b.body != []
  }

  /** The store of a node that was given the blocks holds the ledger that taking them leads to. */
  lemma {:induction false} ReplicaHolds(sg: Signer, r: Replica, n: Node, blocks: seq<Block>)
    requires Refines(r.kv, n) && r.outputs == n.utxos
    requires forall i :: 0 <= i < |blocks| ==> Sendable(blocks[i])
    ensures var t, m := ReplicaAfter(sg, r, blocks), TakeAll(sg, n, blocks);
            Refines(t.kv, m) && t.outputs == m.utxos
    decreases |blocks|
  {
    if blocks != [] {
      var k := |blocks| - 1;
      ReplicaHolds(sg, r, n, blocks[..k]);
      var s := ReplicaAfter(sg, r, blocks[..k]);
      WriteRefines(sg, s.kv, s.head, TakeAll(sg, n, blocks[..k]), blocks[k]);
    }
  }

  /** So what the store of such a node holds, with the fees, is what was deposited. */
  lemma {:induction false} ReplicaBalanced(sg: Signer, r: Replica, n: Node, blocks: seq<Block>)
    requires Refines(r.kv, n) && r.outputs == n.utxos && Balanced(sg, n) && ProperBlocks(sg, n, blocks)
    requires forall i :: 0 <= i < |blocks| ==> Sendable(blocks[i])
    ensures var t, m := ReplicaAfter(sg, r, blocks), TakeAll(sg, n, blocks);
            Represents(t.kv, m.utxos) && Balanced(sg, m) && Sum(t.outputs) + m.fees == m.deposited
  {
    ReplicaHolds(sg, r, n, blocks);
    PeersBalanced(sg, n, blocks);
  }
}
