/**
 Whole runs of the block writers on their stores: the operator's store follows
 the ledger's state machine block by block, and the validator's store follows the operator's.
 */
module NodeRuns {
  import opened Bytes
  import opened Ledger
  import opened LedgerRuns
  import opened Store
  import opened Nodes

  // ---- The store refines the ledger state ----

  /** The store holds the outputs and the blocks of the ledger state n. */
  ghost predicate Refines(kv: map<bytes, bytes>, n: Node) {
    && Represents(kv, n.utxos)
    && (forall m: nat, h: bytes :: m < TWO64 && |h| == 32 ==> (HasBlock(kv, m, h) <==> (m, h) in n.known))
  }

  /** A key of the shape used for headers and bodies: a prefix, a number and a hash. */
  predicate IsBlockKey(k: bytes) {
    |k| == 41 && (k[0] == HEADER_PREFIX || k[0] == BODY_PREFIX)
  }

  lemma {:induction false} BlockKeysInjective(m: nat, h: bytes, m': nat, h': bytes)
    requires m < TWO64 && m' < TWO64 && |h| == |h'| == 32
    ensures HeaderKey(m, h) == HeaderKey(m', h') ==> m == m' && h == h'
    ensures BodyKey(m, h) == BodyKey(m', h') ==> m == m' && h == h'
    ensures HeaderKey(m, h) != BodyKey(m', h')
    ensures HeaderKey(m, h) != HeaderNumberKey(h') && BodyKey(m, h) != HeaderNumberKey(h')
    ensures IsBlockKey(HeaderKey(m, h)) && IsBlockKey(BodyKey(m, h))
  {
    PowWidths();
    assert HeaderKey(m, h)[1..9] == EncodeNumber(m) == BodyKey(m, h)[1..9];
    assert HeaderKey(m', h')[1..9] == EncodeNumber(m') == BodyKey(m', h')[1..9];
    assert HeaderKey(m, h)[9..] == h == BodyKey(m, h)[9..];
    assert HeaderKey(m', h')[9..] == h' == BodyKey(m', h')[9..];
    if EncodeNumber(m) == EncodeNumber(m') {
      BigEndianInjective(m, m', 8);
    }
  }

  lemma {:induction false} TxsOpsMiss(number: nat, txs: seq<Tx>)
    ensures forall i :: 0 <= i < |TxsOps(number, txs)| ==> !IsBlockKey(TxsOps(number, txs)[i].key)
    decreases |txs|
  {
    if txs != [] {
      TxsOpsMiss(number, txs[..|txs| - 1]);
    }
  }

  /** After the block itself, nothing an accepted block writes is a header or a body. */
  lemma {:induction false} RestMisses(kv: map<bytes, bytes>, head: nat, b: Block)
    ensures var rest := (if b.number > head then HeadOps(kv, b) else []) + TxsOps(b.number, b.txs);
            && AllOps(kv, head, b) == ChainOps(b) + rest
            && (forall i :: 0 <= i < |rest| ==> !IsBlockKey(rest[i].key))
  {
    TxsOpsMiss(b.number, b.txs);
    var heads := if b.number > head then HeadOps(kv, b) else [];
    assert forall i :: 0 <= i < |heads| ==> !IsBlockKey(heads[i].key);
    Associate(ChainOps(b), heads, TxsOps(b.number, b.txs));
  }

  lemma {:induction false} ApplyThree(kv: map<bytes, bytes>, a: Op, b: Op, c: Op)
    ensures ApplyOps(kv, [a, b, c]) == ApplyOp(ApplyOp(ApplyOp(kv, a), b), c)
  {
    ApplyOne(kv, a);
    assert [a, b][..1] == [a] && [a, b, c][..2] == [a, b];
    assert ApplyOps(kv, [a, b]) == ApplyOp(ApplyOps(kv, [a]), b);
  }

  /** Committing a block makes exactly that block known. */
  lemma {:induction false} CommitKnows(kv: map<bytes, bytes>, head: nat, b: Block, m: nat, h: bytes)
    requires m < TWO64 && |h| == 32 && b.number < TWO64 && |b.hash| == 32 && b.header != [] && b.body != []
    ensures HasBlock(ApplyOps(kv, AllOps(kv, head, b)), m, h) <==> HasBlock(kv, m, h) || (m, h) == (b.number, b.hash)
  {
    var rest := (if b.number > head then HeadOps(kv, b) else []) + TxsOps(b.number, b.txs);
    var c := ChainOps(b);
    var mid := ApplyOps(kv, c);
    RestMisses(kv, head, b);
    ApplyOpsConcat(kv, c, rest);
    BlockKeysInjective(m, h, b.number, b.hash);
    BlockKeysInjective(b.number, b.hash, m, h);
    UnwrittenKept(mid, rest, HeaderKey(m, h));
    UnwrittenKept(mid, rest, BodyKey(m, h));
    assert HasBlock(ApplyOps(mid, rest), m, h) <==> HasBlock(mid, m, h);
    ApplyThree(kv, c[0], c[1], c[2]);
  }

  /** Writing a block on the store refines writing it on the ledger state. */
  lemma {:induction false} WriteRefines(sg: Signer, kv: map<bytes, bytes>, head: nat, n: Node, b: Block)
    requires Refines(kv, n) && b.number < TWO64 && |b.hash| == 32 && b.header != [] && b.body != []
    ensures var verdict := BlockVerdict(sg, n.utxos, HasBlock(kv, b.number, b.hash), b);
            && verdict == BlockVerdict(sg, n.utxos, (b.number, b.hash) in n.known, b)
            && (verdict.Ok? ==> Refines(ApplyOps(kv, AllOps(kv, head, b)), WriteBlock(sg, n, b)))
  {
    CommitRepresents(kv, n.utxos, head, b);
    var kv' := ApplyOps(kv, AllOps(kv, head, b));
    forall m: nat, h: bytes | m < TWO64 && |h| == 32
      ensures HasBlock(kv', m, h) <==> HasBlock(kv, m, h) || (m, h) == (b.number, b.hash)
    {
      CommitKnows(kv, head, b, m, h);
    }
  }

  /** The encodings of a block are never empty and its hash has 32 bytes. */
  predicate Encoded(e: Event)
    requires !e.Restart?
  {
    |e.hash| == 32 && e.header != [] && e.body != []
  }

  function NoFaults(): (f: Faults) {
    Faults((k, i) => false, (k, i) => false, false)
  }

  /** One block on the store refines one step of the ledger, whether the store takes it or not. */
  lemma {:induction false} StepRefines(sg: Signer, kv: map<bytes, bytes>, head: nat, n: Node, e: Event)
    requires Refines(kv, n) && !e.Restart? && Encoded(e) && BlockOf(n, e).number < TWO64
    ensures var b := BlockOf(n, e);
            && (BlockVerdict(sg, n.utxos, HasBlock(kv, b.number, b.hash), b).Ok? && e.stored <==> Accepted(sg, n, e))
            && Refines(if Accepted(sg, n, e) then ApplyOps(kv, AllOps(kv, head, b)) else kv, Step(sg, n, e))
  {
    var b := BlockOf(n, e);
    var m := if e.Seal? then n.(child := b.number) else n;
    assert Refines(kv, m);
    WriteRefines(sg, kv, head, m, b);
  }

  lemma {:induction false} NothingStumbles(n: nat)
    ensures !Stumbles(NoFaults(), n)
  {
  }

  // ---- The validator follows the operator ----

  lemma {:induction false} NoLoss(number: nat, txs: seq<Tx>)
    ensures LossyTxsOps(number, txs, NoFaults()) == TxsOps(number, txs)
    decreases |txs|
  {
    if txs != [] {
      var n := |txs| - 1;
      NoLoss(number, txs[..n]);
      TwoDeletes(n, txs[n], NoFaults());
      assert LossyTxOps(number, n, txs[n], NoFaults()) == TxOps(number, n, txs[n]);
    }
  }

  lemma {:induction false} NoPutStumbles(n: nat)
    ensures !StumblesOnPut(NoFaults(), n)
  {
  }

  /** A node without store errors: its store, its head, the outputs its store holds and the verdicts
      it gave so far. */
  datatype Replica = Replica(kv: map<bytes, bytes>, head: nat, outputs: Utxos, verdicts: seq<Verdict>)

  /** One more block: an accepted block is written as a whole, a rejected one leaves no trace. */
  function ReplicaStep(sg: Signer, r: Replica, b: Block): (t: Replica) {
    var v := BlockVerdict(sg, r.outputs, HasBlock(r.kv, b.number, b.hash), b);
    if v.Err? then r.(verdicts := r.verdicts + [v])
    else Replica(ApplyOps(r.kv, AllOps(r.kv, r.head, b)), if b.number > r.head then b.number else r.head,
                 ApplyTxs(r.outputs, b.number, b.txs), r.verdicts + [v])
  }

  function ReplicaAfter(sg: Signer, r: Replica, blocks: seq<Block>): (t: Replica) {
    if blocks == [] then r else ReplicaStep(sg, ReplicaAfter(sg, r, blocks[..|blocks| - 1]), blocks[|blocks| - 1])
  }

  /** The chain object and the verdicts given are those of r. */
  ghost predicate IsReplica(chain: BlockChain, verdicts: seq<Verdict>, r: Replica)
    reads chain, chain.db, chain.db.defaultBatch
  {
    && chain.db.Valid() && chain.db.batch == null
    && chain.db.kv == r.kv && chain.head == r.head && verdicts == r.verdicts && Represents(r.kv, r.outputs)
  }

  method ReplicateOne(op: Operator, b: Block, vs: seq<Verdict>, ghost r: Replica) returns (vs': seq<Verdict>)
    requires IsReplica(op.chain, vs, r) && b.number < TWO63
    modifies op.chain, op.chain.db, op.chain.db.defaultBatch
    ensures IsReplica(op.chain, vs', ReplicaStep(op.chain.sg, r, b))
  {
    NothingStumbles(|b.txs|);
    var v := op.WriteBlock(b, NoFaults(), r.outputs);
    vs' := vs + [v];
  }

  method ReplicateOther(val: Validator, b: Block, vs: seq<Verdict>, ghost r: Replica) returns (vs': seq<Verdict>)
    requires IsReplica(val.chain, vs, r) && b.number < TWO63
    modifies val, val.chain, val.chain.db, val.chain.db.defaultBatch
    ensures IsReplica(val.chain, vs', ReplicaStep(val.chain.sg, r, b))
  {
    NoPutStumbles(|b.txs|);
    NoLoss(b.number, b.txs);
    CommitRepresents(r.kv, r.outputs, r.head, b);
    var v := val.WriteBlock(b, NoFaults(), r.outputs);
    vs' := vs + [v];
  }

  /** From equal stores and without store errors, the operator and the validator give each block the
      same verdict, decided by the blocks accepted before it, and both stores hold exactly what the
      accepted blocks write, whatever blocks they are given. */
  method Replicate(op: Operator, val: Validator, blocks: seq<Block>, ghost u: Utxos)
    returns (vo: seq<Verdict>, vv: seq<Verdict>)
    requires op.chain != val.chain && op.chain.db != val.chain.db
    requires op.chain.db.defaultBatch != val.chain.db.defaultBatch
    requires op.chain.db.Valid() && op.chain.db.batch == null && val.chain.db.Valid() && val.chain.db.batch == null
    requires op.chain.sg == val.chain.sg && op.chain.head == val.chain.head && op.chain.db.kv == val.chain.db.kv
    requires Represents(op.chain.db.kv, u)
    requires forall i :: 0 <= i < |blocks| ==> blocks[i].number < TWO63
    modifies op.chain, op.chain.db, op.chain.db.defaultBatch
    modifies val, val.chain, val.chain.db, val.chain.db.defaultBatch
    ensures var r := ReplicaAfter(op.chain.sg, Replica(old(op.chain.db.kv), old(op.chain.head), u, []), blocks);
            IsReplica(op.chain, vo, r) && IsReplica(val.chain, vv, r)
  {
    vo, vv := [], [];
    ghost var r0 := Replica(op.chain.db.kv, op.chain.head, u, []);
    for i := 0 to |blocks|
      invariant IsReplica(op.chain, vo, ReplicaAfter(op.chain.sg, r0, blocks[..i]))
      invariant IsReplica(val.chain, vv, ReplicaAfter(op.chain.sg, r0, blocks[..i]))
    {
      ghost var r := ReplicaAfter(op.chain.sg, r0, blocks[..i]);
      assert blocks[..i + 1][..i] == blocks[..i];
      vo := ReplicateOne(op, blocks[i], vo, r);
      vv := ReplicateOther(val, blocks[i], vv, r);
    }
    assert blocks[..|blocks|] == blocks;
  }

  /** One verdict per block, each that of validation against the outputs and blocks accepted before. */
  lemma {:induction false} ReplicaVerdicts(sg: Signer, r: Replica, blocks: seq<Block>, i: nat)
    requires i < |blocks|
    ensures var t := ReplicaAfter(sg, r, blocks);
            var before := ReplicaAfter(sg, r, blocks[..i]);
            && |t.verdicts| == |r.verdicts| + |blocks|
            && t.verdicts[|r.verdicts| + i] ==
               BlockVerdict(sg, before.outputs, HasBlock(before.kv, blocks[i].number, blocks[i].hash), blocks[i])
    decreases |blocks|
  {
    var k := |blocks| - 1;
    ReplicaCount(sg, r, blocks[..k]);
    GivesVerdict(sg, ReplicaAfter(sg, r, blocks[..k]), blocks[k]);
    if i < k {
      ReplicaVerdicts(sg, r, blocks[..k], i);
      assert blocks[..k][..i] == blocks[..i];
    }
  }

  lemma {:induction false} GivesVerdict(sg: Signer, r: Replica, b: Block)
    ensures ReplicaStep(sg, r, b).verdicts ==
            r.verdicts + [BlockVerdict(sg, r.outputs, HasBlock(r.kv, b.number, b.hash), b)]
  {
  }

  lemma {:induction false} ReplicaCount(sg: Signer, r: Replica, blocks: seq<Block>)
    ensures |ReplicaAfter(sg, r, blocks).verdicts| == |r.verdicts| + |blocks|
    decreases |blocks|
  {
    if blocks != [] {
      ReplicaCount(sg, r, blocks[..|blocks| - 1]);
    }
  }

  // ---- Failed deletes on the validator ----

  predicate MakesId(number: nat, k: nat, id: UTXOID) {
    id == MakeId(number, k, 0) || id == MakeId(number, k, 1)
  }

  /** Is the output there after the transactions, if it was or was not before: skipping failed deletes. */
  predicate There(before: bool, number: nat, txs: seq<Tx>, f: Faults, id: UTXOID) {
    if txs == [] then before
    else
      var n := |txs| - 1;
      || MakesId(number, n, id)
      || (&& There(before, number, txs[..n], f, id)
          && (id == txs[n].ins[0] ==> f.del(n, 0)) && (id == txs[n].ins[1] ==> f.del(n, 1)))
  }

  /** The same with all deletes made. */
  predicate Left(before: bool, number: nat, txs: seq<Tx>, id: UTXOID) {
    if txs == [] then before
    else
      var n := |txs| - 1;
      MakesId(number, n, id) || (Left(before, number, txs[..n], id) && id != txs[n].ins[0] && id != txs[n].ins[1])
  }

  /** From transaction k on every delete of the output fails, and no transaction makes it. */
  ghost predicate Untouched(number: nat, txs: seq<Tx>, f: Faults, k: nat, id: UTXOID) {
    && (forall j, l :: k <= j < |txs| && 0 <= l < 2 && txs[j].ins[l] == id ==> f.del(j, l))
    && (forall j :: k <= j < |txs| ==> !MakesId(number, j, id))
  }

  /** Delete i of transaction k fails although the output it names is there, and nothing later in the
      block deletes it after all or makes it anew. */
  ghost predicate Spares(u: Utxos, number: nat, txs: seq<Tx>, f: Faults, k: nat, i: nat) {
    && k < |txs| && i < 2 && f.del(k, i) && There(txs[k].ins[i] in u, number, txs[..k], f, txs[k].ins[i])
    && Untouched(number, txs, f, k, txs[k].ins[i])
  }

  /** A failed delete spares the output. */
  ghost predicate Spared(u: Utxos, number: nat, txs: seq<Tx>, f: Faults, id: UTXOID) {
    exists k: nat, i: nat :: Spares(u, number, txs, f, k, i) && txs[k].ins[i] == id
  }

  ghost predicate Within(r: Utxos, t: Utxos) {
    forall id :: id in r ==> id in t && t[id] == r[id]
  }

  lemma {:induction false} TxLeaves(u: Utxos, number: nat, k: nat, tx: Tx, id: UTXOID)
    ensures id in ApplyTx(u, number, k, tx) <==>
              MakesId(number, k, id) || (id in u && id != tx.ins[0] && id != tx.ins[1])
  {
  }

  lemma {:induction false} LossyTxLeaves(u: Utxos, number: nat, k: nat, tx: Tx, f: Faults, id: UTXOID)
    ensures id in LossyTx(u, number, k, tx, f) <==>
              || MakesId(number, k, id)
              || (id in u && (id == tx.ins[0] ==> f.del(k, 0)) && (id == tx.ins[1] ==> f.del(k, 1)))
  {
  }

  lemma {:induction false} LeftExact(u: Utxos, number: nat, txs: seq<Tx>, id: UTXOID)
    ensures id in ApplyTxs(u, number, txs) <==> Left(id in u, number, txs, id)
    decreases |txs|
  {
    if txs != [] {
      var n := |txs| - 1;
      LeftExact(u, number, txs[..n], id);
      TxLeaves(ApplyTxs(u, number, txs[..n]), number, n, txs[n], id);
    }
  }

  lemma {:induction false} ThereExact(u: Utxos, number: nat, txs: seq<Tx>, f: Faults, id: UTXOID)
    ensures id in LossyTxs(u, number, txs, f) <==> There(id in u, number, txs, f, id)
    decreases |txs|
  {
    if txs != [] {
      var n := |txs| - 1;
      ThereExact(u, number, txs[..n], f, id);
      LossyTxLeaves(LossyTxs(u, number, txs[..n], f), number, n, txs[n], f, id);
    }
  }

  lemma {:induction false} TxWithin(r: Utxos, t: Utxos, number: nat, k: nat, tx: Tx, f: Faults)
    requires Within(r, t)
    ensures Within(ApplyTx(r, number, k, tx), LossyTx(t, number, k, tx, f))
  {
    var a := r - {tx.ins[0]} - {tx.ins[1]};
    var b := t - (if f.del(k, 0) then {} else {tx.ins[0]}) - (if f.del(k, 1) then {} else {tx.ins[1]});
    assert Within(a, b);
    PutWithin(a, b, MakeId(number, k, 0), MakeCoin(tx.outs[0]));
    PutWithin(a[MakeId(number, k, 0) := MakeCoin(tx.outs[0])], b[MakeId(number, k, 0) := MakeCoin(tx.outs[0])],
              MakeId(number, k, 1), MakeCoin(tx.outs[1]));
  }

  lemma {:induction false} PutWithin(a: Utxos, b: Utxos, id: UTXOID, c: Coin)
    requires Within(a, b)
    ensures Within(a[id := c], b[id := c])
  {
  }

  lemma {:induction false} LossyHasAll(u: Utxos, number: nat, txs: seq<Tx>, f: Faults)
    ensures Within(ApplyTxs(u, number, txs), LossyTxs(u, number, txs, f))
    decreases |txs|
  {
    if txs != [] {
      var n := |txs| - 1;
      LossyHasAll(u, number, txs[..n], f);
      TxWithin(ApplyTxs(u, number, txs[..n]), LossyTxs(u, number, txs[..n], f), number, n, txs[n], f);
    }
  }

  /** The validator's outputs are the operator's and exactly those that a failed delete spared, for every
      block, valid or not; so both agree if and only if no output is spared. */
  lemma {:induction false} ValidatorEffectExact(u: Utxos, number: nat, txs: seq<Tx>, f: Faults)
    ensures var r, t := ApplyTxs(u, number, txs), LossyTxs(u, number, txs, f);
            && (forall id :: id in r ==> id in t && t[id] == r[id])
            && (forall id :: id in t && id !in r <==> Spared(u, number, txs, f, id))
            && (t == r <==> forall id :: !Spared(u, number, txs, f, id))
  {
    LossyHasAll(u, number, txs, f);
    forall id
      ensures id in LossyTxs(u, number, txs, f) && id !in ApplyTxs(u, number, txs) <==> Spared(u, number, txs, f, id)
    {
      SparedExact(u, number, txs, f, id);
    }
    SameIfWithin(ApplyTxs(u, number, txs), LossyTxs(u, number, txs, f));
  }

  lemma {:induction false} SameIfWithin(r: Utxos, t: Utxos)
    requires Within(r, t)
    ensures t == r <==> forall id :: id in t ==> id in r
  {
  }

  lemma {:induction false} SparedExact(u: Utxos, number: nat, txs: seq<Tx>, f: Faults, id: UTXOID)
    ensures id in LossyTxs(u, number, txs, f) && id !in ApplyTxs(u, number, txs) <==> Spared(u, number, txs, f, id)
  {
    LeftExact(u, number, txs, id);
    ThereExact(u, number, txs, f, id);
    if There(id in u, number, txs, f, id) && !Left(id in u, number, txs, id) {
      var k, i := FindSpared(u, number, txs, f, id);
    }
    if Spared(u, number, txs, f, id) {
      var k: nat, i: nat :| Spares(u, number, txs, f, k, i) && txs[k].ins[i] == id;
      SparedStays(u, number, txs, f, k, i);
    }
  }

  lemma {:induction false} FindSpared(u: Utxos, number: nat, txs: seq<Tx>, f: Faults, id: UTXOID)
    returns (k: nat, i: nat)
    requires There(id in u, number, txs, f, id) && !Left(id in u, number, txs, id)
    ensures Spares(u, number, txs, f, k, i) && txs[k].ins[i] == id
    decreases |txs|
  {
    var n := |txs| - 1;
    var init := txs[..n];
    if Left(id in u, number, init, id) {
      k, i := n, if txs[n].ins[0] == id then 0 else 1;
    } else {
      k, i := FindSpared(u, number, init, f, id);
      SparesOn(u, number, txs, f, k, i);
    }
  }

  /** What is spared before the last transaction is spared if that does not touch it. */
  lemma {:induction false} SparesOn(u: Utxos, number: nat, txs: seq<Tx>, f: Faults, k: nat, i: nat)
    requires txs != [] && k < |txs| - 1 && i < 2
    ensures var n, id := |txs| - 1, txs[k].ins[i];
            Spares(u, number, txs, f, k, i) <==>
              && Spares(u, number, txs[..n], f, k, i)
              && (forall l :: 0 <= l < 2 && txs[n].ins[l] == id ==> f.del(n, l))
              && !MakesId(number, n, id)
  {
    var n := |txs| - 1;
    assert txs[..n][..k] == txs[..k];
    assert forall j :: k <= j < n ==> txs[..n][j] == txs[j];
  }

  lemma {:induction false} SparedStays(u: Utxos, number: nat, txs: seq<Tx>, f: Faults, k: nat, i: nat)
    requires Spares(u, number, txs, f, k, i)
    ensures var id := txs[k].ins[i];
            There(id in u, number, txs, f, id) && !Left(id in u, number, txs, id)
    decreases |txs|
  {
    var n, id := |txs| - 1, txs[k].ins[i];
    var init := txs[..n];
    if k < n {
      SparesOn(u, number, txs, f, k, i);
      SparedStays(u, number, init, f, k, i);
    }
  }

  /** A deposit block has the operator's effect whatever deletes fail: its inputs name nothing. */
  lemma {:induction false} DepositBlockEffect(u: Utxos, number: nat, owner: Address, amount: nat, f: Faults)
    requires forall id :: id in u ==> !IsNull(id)
    ensures var txs := [DepositTx(owner, amount)];
            LossyTxs(u, number, txs, f) == ApplyTxs(u, number, txs)
  {
    var txs := [DepositTx(owner, amount)];
    ValidatorEffectExact(u, number, txs, f);
    assert txs[..0] == [];
  }

  /** A delete of the first n transactions that fails although it names a real output. */
  ghost predicate LosesDelete(f: Faults, txs: seq<Tx>) {
    exists k, i :: 0 <= k < |txs| && 0 <= i < 2 && f.del(k, i) && !IsNull(txs[k].ins[i])
  }

  /** A valid child block changes the validator's outputs as it does the operator's exactly when no
      delete of a real input failed on the way; otherwise a spent output stays spendable. */
  lemma {:induction false} ChildBlockEffect(sg: Signer, u: Utxos, number: nat, txs: seq<Tx>, f: Faults)
    requires Room(u, number) && |txs| <= TWO32 && ValidTxs(sg, u, txs)
    ensures LossyTxs(u, number, txs, f) == ApplyTxs(u, number, txs) <==> !LosesDelete(f, txs)
  {
    if LosesDelete(f, txs) {
      var k, i :| 0 <= k < |txs| && 0 <= i < 2 && f.del(k, i) && !IsNull(txs[k].ins[i]);
      var id := txs[k].ins[i];
      BlockEffect(sg, u, number, txs);
      assert id in Spends(txs[k]);
      SpentByContains(txs, id);
      OnlyNamedOnce(sg, u, txs, k, i);
      LossyKeeps(u, number, txs, f, id);
    } else {
      NullDeletes(sg, u, number, txs, f);
    }
  }

  /** In a valid block an output is named by one input only. */
  lemma {:induction false} OnlyNamedOnce(sg: Signer, u: Utxos, txs: seq<Tx>, k: nat, i: nat)
    requires ValidTxs(sg, u, txs) && k < |txs| && i < 2 && !IsNull(txs[k].ins[i])
    ensures forall j, l :: 0 <= j < |txs| && 0 <= l < 2 && txs[j].ins[l] == txs[k].ins[i] ==> j == k && l == i
  {
    var id := txs[k].ins[i];
    forall j, l | 0 <= j < |txs| && 0 <= l < 2 && txs[j].ins[l] == id
      ensures j == k && l == i
    {
      assert id in Spends(txs[j]) && id in Spends(txs[k]);
      assert ValidTx(sg, u, txs[k]);
    }
  }

  lemma {:induction false} LossyKeeps(u: Utxos, number: nat, txs: seq<Tx>, f: Faults, id: UTXOID)
    requires id in u
    requires forall j, l :: 0 <= j < |txs| && 0 <= l < 2 && txs[j].ins[l] == id ==> f.del(j, l)
    ensures id in LossyTxs(u, number, txs, f)
    decreases |txs|
  {
    if txs != [] {
      LossyKeeps(u, number, txs[..|txs| - 1], f, id);
    }
  }

  /** Skipping deletes of null inputs makes no difference: there is nothing to delete. */
  lemma {:induction false} NullDeletes(sg: Signer, u: Utxos, number: nat, txs: seq<Tx>, f: Faults)
    requires Room(u, number) && |txs| <= TWO32 && ValidTxs(sg, u, txs) && !LosesDelete(f, txs)
    ensures LossyTxs(u, number, txs, f) == ApplyTxs(u, number, txs)
    decreases |txs|
  {
    if txs != [] {
      var n := |txs| - 1;
      var init, tx := txs[..n], txs[n];
      ValidUnsnoc(sg, u, txs);
      assert !LosesDelete(f, init) by {
        assert forall k :: 0 <= k < n ==> init[k] == txs[k];
      }
      NullDeletes(sg, u, number, init, f);
      var r := ApplyTxs(u, number, init);
      RealIds(sg, u, number, init);
      NullDelete(r, tx.ins[0], f.del(n, 0));
      NullDelete(r - {tx.ins[0]}, tx.ins[1], f.del(n, 1));
    }
  }

  lemma {:induction false} NullDelete(r: Utxos, id: UTXOID, skip: bool)
    requires skip ==> IsNull(id)
    requires forall x :: x in r ==> !IsNull(x)
    ensures r - (if skip then {} else {id}) == r - {id}
  {
    if skip {
      assert r - {id} == r && r - {} == r;
    }
  }
}
