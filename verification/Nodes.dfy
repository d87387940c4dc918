/**
 The two writers of blocks: the operator and the validator.  Both apply a block
 inside one store transaction: the block itself, the new head if the block is
 higher than the current one, and the change to the unspent outputs.

 `Faults` says which requests the store fails.  A failed request changes nothing.
 */
module Nodes {
  import opened Bytes
  import opened Protocol
  import opened Ledger
  import opened Store

  datatype Faults = Faults(del: (nat, nat) -> bool, put: (nat, nat) -> bool, commit: bool)

  // ---- What a block writes ----

  /** A block is known when both its header and its body are stored. */
  predicate HasBlock(kv: map<bytes, bytes>, number: nat, hash: bytes) {
    && HeaderKey(number, hash) in kv && kv[HeaderKey(number, hash)] != []
    && BodyKey(number, hash) in kv && kv[BodyKey(number, hash)] != []
  }

  /** The hash stored under a key; the zero word if there is none. */
  function HashUnder(kv: map<bytes, bytes>, key: bytes): (h: bytes) {
    if key !in kv || kv[key] == [] then Zeros(32) else kv[key]
  }

  method ReadHash(db: LDBDatabase, key: bytes) returns (h: bytes)
    requires db.Valid()
    ensures h == HashUnder(db.kv, key)
    ensures h == if key in db.kv && db.kv[key] != [] then db.kv[key] else Zeros(32)
  {
    var data := db.Get(key, false);
    if data.None? || data.value == [] {
      return Zeros(32);
    }
    return data.value;
  }

  function CanonicalHash(kv: map<bytes, bytes>, number: nat): (h: bytes) {
    HashUnder(kv, HeaderHashKey(number))
  }

  function ChainOps(b: Block): (ops: seq<Op>) {
    [PutOp(BodyKey(b.number, b.hash), b.body),
     PutOp(HeaderNumberKey(b.hash), EncodeNumber(b.number)),
     PutOp(HeaderKey(b.number, b.hash), b.header)]
  }

  function HeadOps(kv: map<bytes, bytes>, b: Block): (ops: seq<Op>) {
    [PutOp(HeaderHashKey(b.number), b.hash), PutOp(HEAD_BLOCK_KEY, b.hash)] +
    if CanonicalHash(kv, b.number) != b.hash then [PutOp(HEAD_HEADER_KEY, b.hash), PutOp(HEAD_FAST_KEY, b.hash)] else []
  }

  /** The writes of an accepted block before those of its transactions. */
  function BlockOps(kv: map<bytes, bytes>, head: nat, b: Block): (ops: seq<Op>) {
    ChainOps(b) + if b.number > head then HeadOps(kv, b) else []
  }

  /** Everything an accepted block writes. */
  function AllOps(kv: map<bytes, bytes>, head: nat, b: Block): (ops: seq<Op>) {
    BlockOps(kv, head, b) + TxsOps(b.number, b.txs)
  }

  lemma {:induction false} BlockOpsAreChainWrites(kv: map<bytes, bytes>, head: nat, b: Block)
    ensures forall i :: 0 <= i < |BlockOps(kv, head, b)| ==> IsChainKey(BlockOps(kv, head, b)[i].key)
  {
    ChainKeys(b.number, b.hash);
  }

  /** Committing a block turns the outputs u into what the block makes of them. */
  lemma {:induction false} CommitRepresents(kv: map<bytes, bytes>, u: Utxos, head: nat, b: Block)
    requires Represents(kv, u)
    ensures Represents(ApplyOps(kv, AllOps(kv, head, b)), ApplyTxs(u, b.number, b.txs))
  {
    var ops := BlockOps(kv, head, b);
    BlockOpsAreChainWrites(kv, head, b);
    RepresentsChainWrites(kv, u, ops);
    ApplyOpsConcat(kv, ops, TxsOps(b.number, b.txs));
    RepresentsTxs(ApplyOps(kv, ops), u, b.number, b.txs);
  }

  // ---- The chain object shared by both writers ----

  class BlockChain {
    const db: LDBDatabase
    const sg: Signer
    /** The numbers of the head block and the head header held in memory. */
    var head: nat
    var header: nat

    constructor (db: LDBDatabase, sg: Signer, head: nat, header: nat)
      ensures this.db == db && this.sg == sg && this.head == head && this.header == header
    {
      this.db := db;
      this.sg := sg;
      this.head := head;
      this.header := header;
    }

    /** Queue the writes of a block's body and header. */
    method Append(b: Block)
      requires db.Valid() && db.batch != null
      modifies db`kv, db.defaultBatch
      ensures db.Valid() && db.kv == old(db.kv)
      ensures db.Pending() == old(db.Pending()) + ChainOps(b)
    {
      var ok := db.Put(BodyKey(b.number, b.hash), b.body, false);
      ok := db.Put(HeaderNumberKey(b.hash), EncodeNumber(b.number), false);
      ok := db.Put(HeaderKey(b.number, b.hash), b.header, false);
    }

    /** Are both the header and the body of a block stored? */
    method Knows(number: nat, hash: bytes) returns (r: bool)
      requires db.Valid()
      ensures r == HasBlock(db.kv, number, hash)
      ensures r <==>
                && HeaderKey(number, hash) in db.kv && db.kv[HeaderKey(number, hash)] != []
                && BodyKey(number, hash) in db.kv && db.kv[BodyKey(number, hash)] != []
    {
      var header := db.Get(HeaderKey(number, hash), false);
      if header.None? || header.value == [] {
        return false;
      }
      var body := db.Get(BodyKey(number, hash), false);
      return body.Some? && body.value != [];
    }

    /** Validate a child block against the committed outputs, then queue it. */
    method WriteBlock(b: Block, ghost u: Utxos) returns (v: Verdict)
      requires db.Valid() && db.batch != null && Represents(db.kv, u)
      requires b.number % CHILD_BLOCK_INTERVAL == 0
      modifies db`kv, db.defaultBatch
      ensures db.Valid() && db.kv == old(db.kv)
      ensures v == BlockVerdict(sg, u, HasBlock(db.kv, b.number, b.hash), b)
      ensures db.Pending() == old(db.Pending()) + if v.Ok? then ChainOps(b) else []
    {
      var known := Knows(b.number, b.hash);
      if known {
        return Err(KnownBlock);
      }
      if !b.rootOk {
        return Err(TxRootMismatch);
      }
      var kv := db.kv;
      v := ValidateTxs(sg, id => ReadUTXO(kv, id), u, b.txs);
      if v.Ok? {
        Append(b);
      }
    }

    /** Make a block the head, in memory and among the queued writes. */
    method ReplaceHead(b: Block)
      requires db.Valid() && db.batch != null
      modifies this`head, this`header, db`kv, db.defaultBatch
      ensures db.Valid() && db.kv == old(db.kv)
      ensures db.Pending() == old(db.Pending()) + HeadOps(db.kv, b)
      ensures head == b.number
      ensures header == if CanonicalHash(db.kv, b.number) != b.hash then b.number else old(header)
    {
      var canonical := ReadHash(db, HeaderHashKey(b.number));
      var updateHeads := canonical != b.hash;
      var ok := db.Put(HeaderHashKey(b.number), b.hash, false);
      ok := db.Put(HEAD_BLOCK_KEY, b.hash, false);
      head := b.number;
      if updateHeads {
        ok := db.Put(HEAD_HEADER_KEY, b.hash, false);
        header := b.number;
        ok := db.Put(HEAD_FAST_KEY, b.hash, false);
      }
    }

    /** Check or take the block and queue it with its head update: the part both writers share. */
    method Accept(b: Block, ghost u: Utxos) returns (v: Verdict)
      requires db.Valid() && db.batch != null && db.Pending() == [] && Represents(db.kv, u)
      modifies this`head, this`header, db`kv, db.defaultBatch
      ensures db.Valid() && db.kv == old(db.kv)
      ensures v == BlockVerdict(sg, u, HasBlock(db.kv, b.number, b.hash), b)
      ensures v.Ok? ==> db.Pending() == BlockOps(db.kv, old(head), b)
      ensures head == if v.Ok? && b.number > old(head) then b.number else old(head)
      ensures header == if v.Ok? && b.number > old(head) && CanonicalHash(db.kv, b.number) != b.hash then b.number
                        else old(header)
    {
      if b.number % CHILD_BLOCK_INTERVAL != 0 {
        Append(b);
        v := Ok;
      } else {
        v := WriteBlock(b, u);
        if v.Err? {
          return v;
        }
      }
      if b.number > head {
        ReplaceHead(b);
      }
    }
  }

  // ---- The unspent outputs, on top of the store ----

  /** Delete an output; a fault is reported and nothing is queued. */
  method DelUtxo(db: LDBDatabase, id: UTXOID, fault: bool) returns (ok: bool)
    requires db.Valid() && db.batch != null
    modifies db`kv, db.defaultBatch
    ensures db.Valid() && db.kv == old(db.kv) && ok == !fault
    ensures db.Pending() == old(db.Pending()) + if ok then [DeleteOp(UtxoKey(id))] else []
  {
    if fault {
      return false;
    }
    var key := MakeUtxoKey(id);
    ok := db.Delete(key, false);
  }

  method PutUtxo(db: LDBDatabase, id: UTXOID, c: Coin, fault: bool) returns (ok: bool)
    requires db.Valid() && db.batch != null
    modifies db`kv, db.defaultBatch
    ensures db.Valid() && db.kv == old(db.kv) && ok == !fault
    ensures db.Pending() == old(db.Pending()) + if ok then [PutOp(UtxoKey(id), CoinValue(c))] else []
  {
    if fault {
      return false;
    }
    var key := MakeUtxoKey(id);
    ok := db.Put(key, CoinValue(c), false);
  }

  // ---- The operator ----

  predicate FailsDel(f: Faults, k: nat) {
    f.del(k, 0) || f.del(k, 1)
  }

  predicate FailsPut(f: Faults, k: nat) {
    f.put(k, 0) || f.put(k, 1)
  }

  /** Some delete or put of the first n transactions fails. */
  ghost predicate Stumbles(f: Faults, n: nat) {
    exists k :: 0 <= k < n && (FailsDel(f, k) || FailsPut(f, k))
  }

  lemma {:induction false} Associate(a: seq<Op>, b: seq<Op>, c: seq<Op>)
    ensures a + b + c == a + (b + c)
  {
  }

  lemma {:induction false} TxsOpsStep(number: nat, txs: seq<Tx>, k: nat)
    requires k < |txs|
    ensures TxsOps(number, txs[..k + 1]) == TxsOps(number, txs[..k]) + TxOps(number, k, txs[k])
  {
    assert txs[..k + 1][..k] == txs[..k];
  }

  class Operator {
    const chain: BlockChain
    var currentChildBlock: nat

    /** A (re)started operator continues from the head header. */
    constructor (chain: BlockChain)
      ensures this.chain == chain
      ensures currentChildBlock % CHILD_BLOCK_INTERVAL == 0
      ensures currentChildBlock <= chain.header < currentChildBlock + CHILD_BLOCK_INTERVAL
    {
      this.chain := chain;
      currentChildBlock := chain.header / CHILD_BLOCK_INTERVAL * CHILD_BLOCK_INTERVAL;
    }

    /** Take the next child number and apply a block of transactions under it.  The number is used up
        even when the block is rejected. */
    method Seal(txs: seq<Tx>, hash: bytes, rootOk: bool, header: bytes, body: bytes, f: Faults, ghost u: Utxos)
      returns (v: Verdict, b: Block)
      requires chain.db.Valid() && chain.db.batch == null && Represents(chain.db.kv, u)
      requires currentChildBlock + CHILD_BLOCK_INTERVAL < TWO63
      modifies this, chain`head, chain`header, chain.db, chain.db.defaultBatch
      ensures currentChildBlock == old(currentChildBlock) + CHILD_BLOCK_INTERVAL
      ensures b == Block(currentChildBlock, hash, txs, rootOk, header, body)
      ensures Wrote(old(chain.db.kv), old(chain.head), old(chain.header), b, f, u, v)
    {
      currentChildBlock := currentChildBlock + CHILD_BLOCK_INTERVAL;
      b := Block(currentChildBlock, hash, txs, rootOk, header, body);
      v := WriteBlock(b, f, u);
    }

    /** Apply the block of a deposit event. */
    method HandleDepositEvent(number: nat, depositor: Address, amount: nat, hash: bytes, header: bytes, body: bytes,
                              f: Faults, ghost u: Utxos) returns (v: Verdict, b: Block)
      requires chain.db.Valid() && chain.db.batch == null && Represents(chain.db.kv, u) && number < TWO63
      modifies chain`head, chain`header, chain.db, chain.db.defaultBatch
      ensures b == Block(number, hash, [DepositTx(depositor, amount)], true, header, body)
      ensures b.txs == [TxData([UTXOID(0, 0, 0), UTXOID(0, 0, 0)], [TxOut(depositor, amount), TxOut(0, 0)], 1, [])]
      ensures Wrote(old(chain.db.kv), old(chain.head), old(chain.header), b, f, u, v)
    {
      b := Block(number, hash, [DepositTx(depositor, amount)], true, header, body);
      v := WriteBlock(b, f, u);
    }

    /** The outcome of writing block b onto the store kv with the given heads, with no transaction open before. */
    ghost predicate Wrote(kv: map<bytes, bytes>, head: nat, header: nat, b: Block, f: Faults, u: Utxos, v: Verdict)
      reads chain, chain.db, chain.db.defaultBatch
    {
      var verdict := BlockVerdict(chain.sg, u, HasBlock(kv, b.number, b.hash), b);
      && chain.db.Valid() && chain.db.batch == null
      && v == (if verdict.Err? then verdict
               else if Stumbles(f, |b.txs|) || f.commit then Err(StoreFailure) else Ok)
      && chain.head == (if verdict.Ok? && b.number > head then b.number else head)
      && chain.header == (if verdict.Ok? && b.number > head && CanonicalHash(kv, b.number) != b.hash then b.number
                          else header)
      && chain.db.kv == (if v.Ok? then ApplyOps(kv, AllOps(kv, head, b)) else kv)
      && Represents(chain.db.kv, if v.Ok? then ApplyTxs(u, b.number, b.txs) else u)
    }

    /** Queue the deletes and puts of one transaction, up to the first that fails. */
    method MoveTx(number: nat, k: nat, tx: Tx, f: Faults) returns (ok: bool)
      requires chain.db.Valid() && chain.db.batch != null
      modifies chain.db`kv, chain.db.defaultBatch
      ensures chain.db.Valid() && chain.db.kv == old(chain.db.kv)
      ensures ok <==> !FailsDel(f, k) && !FailsPut(f, k)
      ensures ok ==> chain.db.Pending() == old(chain.db.Pending()) + TxOps(number, k, tx)
    {
      ghost var before := chain.db.Pending();
      for i := 0 to 2
        invariant chain.db.Valid() && chain.db.kv == old(chain.db.kv)
        invariant chain.db.Pending() == before + TxOps(number, k, tx)[..i]
        invariant forall j :: 0 <= j < i ==> !f.del(k, j)
      {
        ok := DelUtxo(chain.db, tx.ins[i], f.del(k, i));
        if !ok {
          return;
        }
      }
      for i := 0 to 2
        invariant chain.db.Valid() && chain.db.kv == old(chain.db.kv)
        invariant chain.db.Pending() == before + TxOps(number, k, tx)[..2 + i]
        invariant forall j :: 0 <= j < i ==> !f.put(k, j)
      {
        ok := PutUtxo(chain.db, MakeId(number, k, i), MakeCoin(tx.outs[i]), f.put(k, i));
        if !ok {
          return;
        }
      }
      return true;
    }

    /** Queue the change to the unspent outputs, up to the first request that fails. */
    method MoveOutputs(b: Block, f: Faults) returns (ok: bool)
      requires chain.db.Valid() && chain.db.batch != null
      modifies chain.db`kv, chain.db.defaultBatch
      ensures chain.db.Valid() && chain.db.kv == old(chain.db.kv)
      ensures ok <==> !Stumbles(f, |b.txs|)
      ensures ok ==> chain.db.Pending() == old(chain.db.Pending()) + TxsOps(b.number, b.txs)
    {
      ghost var base := chain.db.Pending();
      for k := 0 to |b.txs|
        invariant chain.db.Valid() && chain.db.kv == old(chain.db.kv)
        invariant chain.db.Pending() == base + TxsOps(b.number, b.txs[..k])
        invariant !Stumbles(f, k)
      {
        ok := MoveTx(b.number, k, b.txs[k], f);
        if !ok {
          return;
        }
        TxsOpsStep(b.number, b.txs, k);
        Associate(base, TxsOps(b.number, b.txs[..k]), TxOps(b.number, k, b.txs[k]));
      }
      assert b.txs[..|b.txs|] == b.txs;
      return true;
    }

    /** Apply a block.  Whatever fails, the transaction opened here is closed, and the store holds
        either everything the block writes or nothing of it. */
    method WriteBlock(b: Block, f: Faults, ghost u: Utxos) returns (v: Verdict)
      requires chain.db.Valid() && Represents(chain.db.kv, u) && b.number < TWO63
      modifies chain`head, chain`header, chain.db, chain.db.defaultBatch
      ensures old(chain.db.batch) != null ==>
                && v == Err(DatabaseRace) && chain.db.Valid()
                && chain.db.kv == old(chain.db.kv) && chain.db.batch == old(chain.db.batch)
                && chain.db.Pending() == old(chain.db.Pending())
                && chain.head == old(chain.head) && chain.header == old(chain.header)
      ensures old(chain.db.batch) == null ==>
                Wrote(old(chain.db.kv), old(chain.head), old(chain.header), b, f, u, v)
    {
      var db := chain.db;
      ghost var kv := db.kv;
      var newDbTx := db.BeginTx();
      if !newDbTx {
        return Err(DatabaseRace);
      }
      v := chain.Accept(b, u);
      if v.Err? {
        var _ := db.RollbackTx();
        return v;
      }
      var ok := MoveOutputs(b, f);
      if !ok {
        var _ := db.RollbackTx();
        return Err(StoreFailure);
      }
      CommitRepresents(kv, u, old(chain.head), b);
      ok := db.CommitTx(f.commit);
      if !ok {
        var _ := db.RollbackTx();
        return Err(StoreFailure);
      }
      return Ok;
    }
  }

  // ---- The validator ----

  /** The writes of one transaction when failed deletes are skipped. */
  function LossyTxOps(number: nat, k: nat, tx: Tx, f: Faults): (ops: seq<Op>) {
    LossyDeletes(k, tx, f, 2) + TxPuts(number, k, tx)
  }

  function LossyDelete(k: nat, tx: Tx, f: Faults, i: nat): (ops: seq<Op>)
    requires i < 2
  {
    if f.del(k, i) then [] else [DeleteOp(UtxoKey(tx.ins[i]))]
  }

  /** The deletes of the first n inputs that do not fail. */
  function LossyDeletes(k: nat, tx: Tx, f: Faults, n: nat): (ops: seq<Op>)
    requires n <= 2
  {
    if n == 0 then [] else LossyDeletes(k, tx, f, n - 1) + LossyDelete(k, tx, f, n - 1)
  }

  lemma {:induction false} TwoDeletes(k: nat, tx: Tx, f: Faults)
    ensures LossyDeletes(k, tx, f, 2) == LossyDelete(k, tx, f, 0) + LossyDelete(k, tx, f, 1)
  {
    assert LossyDeletes(k, tx, f, 1) == LossyDelete(k, tx, f, 0);
  }

  function TxPuts(number: nat, k: nat, tx: Tx): (ops: seq<Op>) {
    [PutOp(UtxoKey(MakeId(number, k, 0)), CoinValue(MakeCoin(tx.outs[0]))),
     PutOp(UtxoKey(MakeId(number, k, 1)), CoinValue(MakeCoin(tx.outs[1])))]
  }

  function LossyTxsOps(number: nat, txs: seq<Tx>, f: Faults): (ops: seq<Op>) {
    if txs == [] then []
    else LossyTxsOps(number, txs[..|txs| - 1], f) + LossyTxOps(number, |txs| - 1, txs[|txs| - 1], f)
  }

  /** The effect of one transaction when failed deletes are skipped. */
  function LossyTx(u: Utxos, number: nat, k: nat, tx: Tx, f: Faults): (r: Utxos) {
    (u - (if f.del(k, 0) then {} else {tx.ins[0]}) - (if f.del(k, 1) then {} else {tx.ins[1]}))
    [MakeId(number, k, 0) := MakeCoin(tx.outs[0])]
    [MakeId(number, k, 1) := MakeCoin(tx.outs[1])]
  }

  function LossyTxs(u: Utxos, number: nat, txs: seq<Tx>, f: Faults): (r: Utxos) {
    if txs == [] then u
    else LossyTx(LossyTxs(u, number, txs[..|txs| - 1], f), number, |txs| - 1, txs[|txs| - 1], f)
  }

  lemma {:induction false} RepresentsLossyTxs(kv: map<bytes, bytes>, u: Utxos, number: nat, txs: seq<Tx>, f: Faults)
    requires Represents(kv, u)
    ensures Represents(ApplyOps(kv, LossyTxsOps(number, txs, f)), LossyTxs(u, number, txs, f))
  {
    if txs != [] {
      var n := |txs| - 1;
      RepresentsLossyTxs(kv, u, number, txs[..n], f);
      ApplyOpsConcat(kv, LossyTxsOps(number, txs[..n], f), LossyTxOps(number, n, txs[n], f));
      RepresentsLossyTx(ApplyOps(kv, LossyTxsOps(number, txs[..n], f)), LossyTxs(u, number, txs[..n], f),
                        number, n, txs[n], f);
    }
  }

  lemma {:induction false} RepresentsMaybeDelete(kv: map<bytes, bytes>, u: Utxos, id: UTXOID, skip: bool)
    requires Represents(kv, u)
    ensures Represents(ApplyOps(kv, if skip then [] else [DeleteOp(UtxoKey(id))]), u - if skip then {} else {id})
  {
    if skip {
      assert u - {} == u;
    } else {
      RepresentsDelete(kv, u, id);
      ApplyOne(kv, DeleteOp(UtxoKey(id)));
    }
  }

  lemma {:induction false} RepresentsLossyTx(kv: map<bytes, bytes>, u: Utxos, number: nat, k: nat, tx: Tx, f: Faults)
    requires Represents(kv, u)
    ensures Represents(ApplyOps(kv, LossyTxOps(number, k, tx, f)), LossyTx(u, number, k, tx, f))
  {
    var d0, d1, puts := LossyDelete(k, tx, f, 0), LossyDelete(k, tx, f, 1), TxPuts(number, k, tx);
    TwoDeletes(k, tx, f);
    var kv1, u1 := ApplyOps(kv, d0), u - if f.del(k, 0) then {} else {tx.ins[0]};
    RepresentsMaybeDelete(kv, u, tx.ins[0], f.del(k, 0));
    var kv2, u2 := ApplyOps(kv1, d1), u1 - if f.del(k, 1) then {} else {tx.ins[1]};
    RepresentsMaybeDelete(kv1, u1, tx.ins[1], f.del(k, 1));
    RepresentsPuts(kv2, u2, MakeId(number, k, 0), MakeCoin(tx.outs[0]), MakeId(number, k, 1), MakeCoin(tx.outs[1]));
    ApplyOpsConcat(kv, d0, d1);
    ApplyOpsConcat(kv, d0 + d1, puts);
  }

  lemma {:induction false} RepresentsPuts(kv: map<bytes, bytes>, u: Utxos, i: UTXOID, c: Coin, j: UTXOID, d: Coin)
    requires Represents(kv, u)
    ensures Represents(ApplyOps(kv, [PutOp(UtxoKey(i), CoinValue(c)), PutOp(UtxoKey(j), CoinValue(d))]),
                       u[i := c][j := d])
  {
    var a, b := PutOp(UtxoKey(i), CoinValue(c)), PutOp(UtxoKey(j), CoinValue(d));
    RepresentsPut(kv, u, i, c);
    RepresentsPut(ApplyOp(kv, a), u[i := c], j, d);
    ApplyOne(kv, a);
    ApplyOne(ApplyOp(kv, a), b);
    ApplyOpsConcat(kv, [a], [b]);
    assert [a] + [b] == [a, b];
  }

  /** Some put of the first n transactions fails. */
  ghost predicate StumblesOnPut(f: Faults, n: nat) {
    exists k :: 0 <= k < n && FailsPut(f, k)
  }

  lemma {:induction false} LossyTxsOpsStep(number: nat, txs: seq<Tx>, k: nat, f: Faults)
    requires k < |txs|
    ensures LossyTxsOps(number, txs[..k + 1], f) == LossyTxsOps(number, txs[..k], f) + LossyTxOps(number, k, txs[k], f)
  {
    assert txs[..k + 1][..k] == txs[..k];
  }

  class Validator {
    const chain: BlockChain
    var currentChildBlock: nat

    constructor (chain: BlockChain)
      ensures this.chain == chain
      ensures currentChildBlock % CHILD_BLOCK_INTERVAL == 0
      ensures chain.header <= currentChildBlock < chain.header + CHILD_BLOCK_INTERVAL
    {
      this.chain := chain;
      if chain.header % CHILD_BLOCK_INTERVAL == 0 {
        currentChildBlock := chain.header;
      } else {
        currentChildBlock := (chain.header / CHILD_BLOCK_INTERVAL + 1) * CHILD_BLOCK_INTERVAL;
      }
    }

    /** Queue the deletes and puts of one transaction; a failed delete is only logged. */
    method MoveTx(number: nat, k: nat, tx: Tx, f: Faults) returns (ok: bool)
      requires chain.db.Valid() && chain.db.batch != null
      modifies chain.db`kv, chain.db.defaultBatch
      ensures chain.db.Valid() && chain.db.kv == old(chain.db.kv)
      ensures ok <==> !FailsPut(f, k)
      ensures ok ==> chain.db.Pending() == old(chain.db.Pending()) + LossyTxOps(number, k, tx, f)
    {
      ghost var before := chain.db.Pending();
      for i := 0 to 2
        invariant chain.db.Valid() && chain.db.kv == old(chain.db.kv)
        invariant chain.db.Pending() == before + LossyDeletes(k, tx, f, i)
      {
        var _ := DelUtxo(chain.db, tx.ins[i], f.del(k, i));
        Associate(before, LossyDeletes(k, tx, f, i), LossyDelete(k, tx, f, i));
      }
      ghost var deleted := chain.db.Pending();
      for i := 0 to 2
        invariant chain.db.Valid() && chain.db.kv == old(chain.db.kv)
        invariant chain.db.Pending() == deleted + TxPuts(number, k, tx)[..i]
        invariant forall j :: 0 <= j < i ==> !f.put(k, j)
      {
        ok := PutUtxo(chain.db, MakeId(number, k, i), MakeCoin(tx.outs[i]), f.put(k, i));
        if !ok {
          return;
        }
      }
      Associate(before, LossyDeletes(k, tx, f, 2), TxPuts(number, k, tx));
      return true;
    }

    method MoveOutputs(b: Block, f: Faults) returns (ok: bool)
      requires chain.db.Valid() && chain.db.batch != null
      modifies chain.db`kv, chain.db.defaultBatch
      ensures chain.db.Valid() && chain.db.kv == old(chain.db.kv)
      ensures ok <==> !StumblesOnPut(f, |b.txs|)
      ensures ok ==> chain.db.Pending() == old(chain.db.Pending()) + LossyTxsOps(b.number, b.txs, f)
    {
      ghost var base := chain.db.Pending();
      for k := 0 to |b.txs|
        invariant chain.db.Valid() && chain.db.kv == old(chain.db.kv)
        invariant chain.db.Pending() == base + LossyTxsOps(b.number, b.txs[..k], f)
        invariant !StumblesOnPut(f, k)
      {
        ok := MoveTx(b.number, k, b.txs[k], f);
        if !ok {
          return;
        }
        LossyTxsOpsStep(b.number, b.txs, k, f);
        Associate(base, LossyTxsOps(b.number, b.txs[..k], f), LossyTxOps(b.number, k, b.txs[k], f));
      }
      assert b.txs[..|b.txs|] == b.txs;
      return true;
    }

    /** Apply a block, as the operator does except that a failed delete does not stop it. */
    method WriteBlock(b: Block, f: Faults, ghost u: Utxos) returns (v: Verdict)
      requires chain.db.Valid() && Represents(chain.db.kv, u) && b.number < TWO63
      modifies this, chain`head, chain`header, chain.db, chain.db.defaultBatch
      ensures chain.db.Valid()
      ensures old(chain.db.batch) != null ==>
                && v == Err(DatabaseRace)
                && chain.db.kv == old(chain.db.kv) && chain.db.batch == old(chain.db.batch)
                && chain.db.Pending() == old(chain.db.Pending())
                && chain.head == old(chain.head) && chain.header == old(chain.header)
                && currentChildBlock == old(currentChildBlock)
      ensures old(chain.db.batch) == null ==>
                && chain.db.batch == null
                && (var verdict := BlockVerdict(chain.sg, u, HasBlock(old(chain.db.kv), b.number, b.hash), b);
                    && v == (if verdict.Err? then verdict
                             else if StumblesOnPut(f, |b.txs|) || f.commit then Err(StoreFailure) else Ok)
                    && chain.head == (if verdict.Ok? && b.number > old(chain.head) then b.number else old(chain.head))
                    && chain.header == (if verdict.Ok? && b.number > old(chain.head)
                                           && CanonicalHash(old(chain.db.kv), b.number) != b.hash then b.number
                                        else old(chain.header))
                    && currentChildBlock == if verdict.Ok? then b.number else old(currentChildBlock))
      ensures chain.db.kv ==
              if v.Ok? then ApplyOps(old(chain.db.kv),
                                     BlockOps(old(chain.db.kv), old(chain.head), b) + LossyTxsOps(b.number, b.txs, f))
              else old(chain.db.kv)
      ensures Represents(chain.db.kv, if v.Ok? then LossyTxs(u, b.number, b.txs, f) else u)
    {
      var db := chain.db;
      ghost var kv := db.kv;
      var newDbTx := db.BeginTx();
      if !newDbTx {
        return Err(DatabaseRace);
      }
      v := chain.Accept(b, u);
      if v.Err? {
        var _ := db.RollbackTx();
        return v;
      }
      currentChildBlock := b.number;
      var ok := MoveOutputs(b, f);
      if !ok {
        var _ := db.RollbackTx();
        return Err(StoreFailure);
      }
      LossyCommitRepresents(kv, u, old(chain.head), b, f);
      ok := db.CommitTx(f.commit);
      if !ok {
        var _ := db.RollbackTx();
        return Err(StoreFailure);
      }
      return Ok;
    }
  }

  lemma {:induction false} LossyCommitRepresents(kv: map<bytes, bytes>, u: Utxos, head: nat, b: Block, f: Faults)
    requires Represents(kv, u)
    ensures Represents(ApplyOps(kv, BlockOps(kv, head, b) + LossyTxsOps(b.number, b.txs, f)),
                       LossyTxs(u, b.number, b.txs, f))
  {
    var ops := BlockOps(kv, head, b);
    BlockOpsAreChainWrites(kv, head, b);
    RepresentsChainWrites(kv, u, ops);
    ApplyOpsConcat(kv, ops, LossyTxsOps(b.number, b.txs, f));
    RepresentsLossyTxs(ApplyOps(kv, ops), u, b.number, b.txs, f);
  }
}
