/**
 The child chain's ledger of unspent outputs: transactions, their validation
 and the effect of a block.

 A transaction has exactly two inputs and two outputs; an input in block 0 stands
 for no input.  Validation reads only the outputs that were committed before the
 block.  Signature recovery and the encoded size of a transaction are given.
 */
module Ledger {
  import opened Bytes
  import opened Protocol

  datatype UTXOID = UTXOID(blockNum: uint64, txIndex: uint32, outIndex: byte)

  /** An output as a transaction states it: the amount is a signed big integer. */
  datatype TxOut = TxOut(owner: Address, amount: int)

  /** An unspent output as the ledger stores it. */
  datatype Coin = Coin(owner: Address, amount: nat)

  datatype TxData = TxData(ins: seq<UTXOID>, outs: seq<TxOut>, fee: int, sigs: seq<bytes>)

  const NULL_ID := UTXOID(0, 0, 0)

  type Tx = t: TxData | |t.ins| == 2 && |t.outs| == 2
    witness TxData([NULL_ID, NULL_ID], [TxOut(0, 0), TxOut(0, 0)], 0, [])

  type Utxos = map<UTXOID, Coin>

  /** The foreign parts of validation: who signed each input, and the encoded size. */
  datatype Signer = Signer(senders: Tx -> Option<(Address, Address)>, size: Tx -> nat)

  datatype Error =
    | OversizedData | NotEnoughTxFee | InvalidSender | DuplicateSpent | AlreadySpent | TxOutNotOwned
    | InvalidOutputAmount | TxTotalAmountNotEqual | KnownBlock | TxRootMismatch | DatabaseRace | StoreFailure

  datatype Verdict = Ok | Err(error: Error)

  /** A reader of unspent outputs, as the validators see it. */
  type UtxoReader = UTXOID -> Option<Coin>

  /** The reader answers from the outputs u. */
  ghost predicate ReadsFrom(get: UtxoReader, u: Utxos) {
    forall id :: get(id) == if id in u then Some(u[id]) else None
  }

  const MAX_TX_SIZE: nat := 32 * 1024

  predicate IsNull(id: UTXOID) {
    id.blockNum == 0
  }

  function SenderOf(s: (Address, Address), i: nat): (a: Address) {
    if i == 0 then s.0 else s.1
  }

  // ---- Validity of one transaction ----

  /** The amount an input brings in. */
  function Worth(u: Utxos, id: UTXOID): (a: nat) {
    if IsNull(id) || id !in u then 0 else u[id].amount
  }

  function InTotal(u: Utxos, tx: Tx): (a: nat) {
    Worth(u, tx.ins[0]) + Worth(u, tx.ins[1])
  }

  function OutTotal(tx: Tx): (a: int) {
    tx.outs[0].amount + tx.outs[1].amount
  }

  /** The real inputs of a transaction. */
  function Spends(tx: Tx): (ids: set<UTXOID>) {
    set i | 0 <= i < 2 && !IsNull(tx.ins[i]) :: tx.ins[i]
  }

  /** What a valid transaction is: small, signed, paying a fee; its inputs are distinct, unspent and
      owned by their signers; its outputs are not negative; and no money appears or disappears. */
  predicate ValidTx(sg: Signer, u: Utxos, tx: Tx) {
    && sg.size(tx) <= MAX_TX_SIZE
    && tx.fee > 0
    && sg.senders(tx).Some?
    && tx.ins[0] != tx.ins[1]
    && (forall i :: 0 <= i < 2 && !IsNull(tx.ins[i]) ==>
          tx.ins[i] in u && u[tx.ins[i]].owner == SenderOf(sg.senders(tx).value, i))
    && (forall i :: 0 <= i < 2 ==> tx.outs[i].amount >= 0)
    && InTotal(u, tx) == OutTotal(tx) + tx.fee
  }

  /** What is wrong with input i, if anything. */
  function InputVerdict(u: Utxos, id: UTXOID, sender: Address): (v: Verdict) {
    if IsNull(id) then Ok
    else if id !in u then Err(AlreadySpent)
    else if u[id].owner != sender then Err(TxOutNotOwned)
    else Ok
  }

  /** The verdict on a transaction: the first check that fails, in the order they are made. */
  function TxVerdict(sg: Signer, u: Utxos, tx: Tx): (v: Verdict) {
    if sg.size(tx) > MAX_TX_SIZE then Err(OversizedData)
    else if tx.fee <= 0 then Err(NotEnoughTxFee)
    else if sg.senders(tx).None? then Err(InvalidSender)
    else if tx.ins[0] == tx.ins[1] then Err(DuplicateSpent)
    else if InputVerdict(u, tx.ins[0], sg.senders(tx).value.0).Err? then
      InputVerdict(u, tx.ins[0], sg.senders(tx).value.0)
    else if InputVerdict(u, tx.ins[1], sg.senders(tx).value.1).Err? then
      InputVerdict(u, tx.ins[1], sg.senders(tx).value.1)
    else if tx.outs[0].amount < 0 || tx.outs[1].amount < 0 then Err(InvalidOutputAmount)
    else if InTotal(u, tx) != OutTotal(tx) + tx.fee then Err(TxTotalAmountNotEqual)
    else Ok
  }

  /** The validator: loops over the inputs and outputs, with early returns. */
  method Validate(sg: Signer, get: UtxoReader, ghost u: Utxos, tx: Tx) returns (v: Verdict)
    requires ReadsFrom(get, u)
    ensures v == TxVerdict(sg, u, tx)
    ensures v.Ok? <==> ValidTx(sg, u, tx)
    ensures v.Ok? && tx.ins[0].blockNum != 0 ==>
              tx.ins[0] in u && sg.senders(tx).Some? && u[tx.ins[0]].owner == sg.senders(tx).value.0
    ensures v.Ok? && tx.ins[1].blockNum != 0 ==>
              tx.ins[1] in u && sg.senders(tx).Some? && u[tx.ins[1]].owner == sg.senders(tx).value.1
  {
    if sg.size(tx) > MAX_TX_SIZE {
      return Err(OversizedData);
    }
    if tx.fee <= 0 {
      return Err(NotEnoughTxFee);
    }
    var senders := sg.senders(tx);
    if senders.None? {
      return Err(InvalidSender);
    }
    if tx.ins[0] == tx.ins[1] {
      return Err(DuplicateSpent);
    }
    var totalIn := 0;
    for i := 0 to 2
      invariant totalIn == (if i > 0 then Worth(u, tx.ins[0]) else 0) + (if i > 1 then Worth(u, tx.ins[1]) else 0)
      invariant forall k :: 0 <= k < i ==> InputVerdict(u, tx.ins[k], SenderOf(senders.value, k)).Ok?
    {
      var id := tx.ins[i];
      if id.blockNum == 0 {
        continue;
      }
      var utxo := get(id);
      if utxo.None? {
        return Err(AlreadySpent);
      }
      if utxo.value.owner != SenderOf(senders.value, i) {
        return Err(TxOutNotOwned);
      }
      totalIn := totalIn + utxo.value.amount;
    }
    var totalOut := 0;
    for i := 0 to 2
      invariant totalOut == (if i > 0 then tx.outs[0].amount else 0) + (if i > 1 then tx.outs[1].amount else 0)
      invariant forall k :: 0 <= k < i ==> tx.outs[k].amount >= 0
    {
      if tx.outs[i].amount == 0 {
        continue;
      }
      if tx.outs[i].amount <= 0 {
        return Err(InvalidOutputAmount);
      }
      totalOut := totalOut + tx.outs[i].amount;
    }
    if totalIn != totalOut + tx.fee {
      return Err(TxTotalAmountNotEqual);
    }
    return Ok;
  }

  /** A real input that the ledger does not hold. */
  predicate Absent(u: Utxos, id: UTXOID) {
    id.blockNum != 0 && id !in u
  }

  /** A real input that belongs to somebody else. */
  predicate Foreign(u: Utxos, id: UTXOID, a: Address) {
    id.blockNum != 0 && id in u && u[id].owner != a
  }

  /** No input, or one that is there and belongs to a. */
  predicate Fits(u: Utxos, id: UTXOID, a: Address) {
    id.blockNum == 0 || (id in u && u[id].owner == a)
  }

  function AmountOf(u: Utxos, id: UTXOID): (a: nat) {
    if id.blockNum != 0 && id in u then u[id].amount else 0
  }

  /** Small enough, paying a fee, signed, and naming two different inputs. */
  predicate Wellformed(sg: Signer, tx: Tx) {
    sg.size(tx) <= 32_768 && tx.fee > 0 && sg.senders(tx).Some? && tx.ins[0] != tx.ins[1]
  }

  /** Which error a transaction gets: the exact condition of each, and of acceptance. */
  lemma {:induction false} TxErrors(sg: Signer, u: Utxos, tx: Tx)
    ensures TxVerdict(sg, u, tx) == Err(OversizedData) <==> sg.size(tx) > 32_768
    ensures TxVerdict(sg, u, tx) == Err(NotEnoughTxFee) <==> sg.size(tx) <= 32_768 && tx.fee <= 0
    ensures TxVerdict(sg, u, tx) == Err(InvalidSender) <==>
              sg.size(tx) <= 32_768 && tx.fee > 0 && sg.senders(tx).None?
    ensures TxVerdict(sg, u, tx) == Err(DuplicateSpent) <==>
              sg.size(tx) <= 32_768 && tx.fee > 0 && sg.senders(tx).Some? && tx.ins[0] == tx.ins[1]
    ensures Wellformed(sg, tx) ==>
              var v, a, b := TxVerdict(sg, u, tx), tx.ins[0], tx.ins[1];
              var (s, t) := sg.senders(tx).value;
              var owned := Fits(u, a, s) && Fits(u, b, t);
              var out := tx.outs[0].amount + tx.outs[1].amount;
              && (v == Err(AlreadySpent) <==> Absent(u, a) || (Fits(u, a, s) && Absent(u, b)))
              && (v == Err(TxOutNotOwned) <==> Foreign(u, a, s) || (Fits(u, a, s) && Foreign(u, b, t)))
              && (v == Err(InvalidOutputAmount) <==> owned && (tx.outs[0].amount < 0 || tx.outs[1].amount < 0))
              && (v == Err(TxTotalAmountNotEqual) <==>
                    && owned && tx.outs[0].amount >= 0 && tx.outs[1].amount >= 0
                    && AmountOf(u, a) + AmountOf(u, b) != out + tx.fee)
              && (v == Ok <==>
                    && owned && tx.outs[0].amount >= 0 && tx.outs[1].amount >= 0
                    && AmountOf(u, a) + AmountOf(u, b) == out + tx.fee)
  {
  }

  /** Every valid transaction has a real input, and spends real money. */
  lemma {:induction false} ValidTxSpends(sg: Signer, u: Utxos, tx: Tx)
    requires ValidTx(sg, u, tx)
    ensures Spends(tx) != {} && Spends(tx) <= u.Keys && InTotal(u, tx) > 0
  {
    assert !IsNull(tx.ins[0]) || !IsNull(tx.ins[1]);
    if !IsNull(tx.ins[0]) {
      assert tx.ins[0] in Spends(tx);
    } else {
      assert tx.ins[1] in Spends(tx);
    }
  }

  // ---- Validity of a block's transactions ----

  function SpentBy(txs: seq<Tx>): (ids: set<UTXOID>) {
    if txs == [] then {} else SpentBy(txs[..|txs| - 1]) + Spends(txs[|txs| - 1])
  }

  /** Every transaction is valid on its own and no output is spent twice in the block. */
  predicate ValidTxs(sg: Signer, u: Utxos, txs: seq<Tx>) {
    && (forall k :: 0 <= k < |txs| ==> ValidTx(sg, u, txs[k]))
    && (forall j, k :: 0 <= j < k < |txs| ==> Spends(txs[j]) !! Spends(txs[k]))
  }

  function TxsVerdict(sg: Signer, u: Utxos, txs: seq<Tx>): (v: Verdict) {
    if txs == [] then Ok
    else
      var n := |txs| - 1;
      if TxsVerdict(sg, u, txs[..n]).Err? then TxsVerdict(sg, u, txs[..n])
      else if TxVerdict(sg, u, txs[n]).Err? then TxVerdict(sg, u, txs[n])
      else if !(SpentBy(txs[..n]) !! Spends(txs[n])) then Err(DuplicateSpent)
      else Ok
  }

  lemma {:induction false} TxVerdictMeaning(sg: Signer, u: Utxos, tx: Tx)
    ensures TxVerdict(sg, u, tx).Ok? <==> ValidTx(sg, u, tx)
  {
  }

  lemma {:induction false} SpentByContains(txs: seq<Tx>, id: UTXOID)
    ensures id in SpentBy(txs) <==> exists k :: 0 <= k < |txs| && id in Spends(txs[k])
  {
    if txs != [] {
      var n := |txs| - 1;
      SpentByContains(txs[..n], id);
      if id in SpentBy(txs[..n]) {
        var k :| 0 <= k < n && id in Spends(txs[..n][k]);
        assert id in Spends(txs[k]);
      }
      if exists k :: 0 <= k < |txs| && id in Spends(txs[k]) {
        var k :| 0 <= k < |txs| && id in Spends(txs[k]);
        if k < n {
          assert id in Spends(txs[..n][k]);
        }
      }
    }
  }

  lemma {:induction false} TxsVerdictMeaning(sg: Signer, u: Utxos, txs: seq<Tx>)
    ensures TxsVerdict(sg, u, txs).Ok? <==> ValidTxs(sg, u, txs)
  {
    if txs != [] {
      var init, last := txs[..|txs| - 1], txs[|txs| - 1];
      TxsVerdictMeaning(sg, u, init);
      TxVerdictMeaning(sg, u, last);
      if ValidTxs(sg, u, txs) {
        ValidUnsnoc(sg, u, txs);
      }
      if TxsVerdict(sg, u, txs).Ok? {
        ValidSnoc(sg, u, init, last);
        assert txs == init + [last];
      }
    }
  }

  lemma {:induction false} ValidUnsnoc(sg: Signer, u: Utxos, txs: seq<Tx>)
    requires txs != [] && ValidTxs(sg, u, txs)
    ensures ValidTxs(sg, u, txs[..|txs| - 1]) && ValidTx(sg, u, txs[|txs| - 1])
    ensures SpentBy(txs[..|txs| - 1]) !! Spends(txs[|txs| - 1])
  {
    var init := txs[..|txs| - 1];
    assert forall k :: 0 <= k < |init| ==> init[k] == txs[k];
    forall id | id in SpentBy(init)
      ensures id !in Spends(txs[|txs| - 1])
    {
      SpentByContains(init, id);
    }
  }

  lemma {:induction false} ValidSnoc(sg: Signer, u: Utxos, init: seq<Tx>, last: Tx)
    requires ValidTxs(sg, u, init) && ValidTx(sg, u, last) && SpentBy(init) !! Spends(last)
    ensures ValidTxs(sg, u, init + [last])
  {
    var txs := init + [last];
    forall j, k | 0 <= j < k < |txs|
      ensures Spends(txs[j]) !! Spends(txs[k])
    {
      if k == |init| {
        forall id | id in Spends(txs[j])
          ensures id !in Spends(last)
        {
          assert txs[j] == init[j];
          SpentByContains(init, id);
        }
      }
    }
  }

  /** Transaction k is the first that is not valid, or that names an input of an earlier one; the error is
      its own, or a duplicate spend. */
  ghost predicate FirstFault(sg: Signer, u: Utxos, txs: seq<Tx>, k: nat, e: Error) {
    && k < |txs| && ValidTxs(sg, u, txs[..k])
    && if TxVerdict(sg, u, txs[k]).Err? then TxVerdict(sg, u, txs[k]) == Err(e)
       else e == DuplicateSpent && exists j :: 0 <= j < k && !(Spends(txs[j]) !! Spends(txs[k]))
  }

  lemma {:induction false} TxsErrors(sg: Signer, u: Utxos, txs: seq<Tx>) returns (k: nat)
    requires TxsVerdict(sg, u, txs).Err?
    ensures FirstFault(sg, u, txs, k, TxsVerdict(sg, u, txs).error)
    decreases |txs|
  {
    k := |txs| - 1;
    if TxsVerdict(sg, u, txs[..k]).Err? {
      var n := k;
      k := TxsErrors(sg, u, txs[..n]);
      assert txs[..n][..k] == txs[..k] && txs[..n][k] == txs[k];
      assert forall j :: 0 <= j < k ==> txs[..n][j] == txs[j];
    } else {
      TxsVerdictMeaning(sg, u, txs[..k]);
      if TxVerdict(sg, u, txs[k]).Ok? {
        var id :| id in SpentBy(txs[..k]) && id in Spends(txs[k]);
        SpentByContains(txs[..k], id);
        var j :| 0 <= j < k && id in Spends(txs[..k][j]);
        assert txs[..k][j] == txs[j];
      }
    }
  }

  /** Mark the inputs of a valid transaction as spent, unless one already is. */
  method MarkSpent(sg: Signer, get: UtxoReader, ghost u: Utxos, tx: Tx, spent: map<UTXOID, Coin>)
    returns (ok: bool, r: map<UTXOID, Coin>)
    requires ReadsFrom(get, u) && ValidTx(sg, u, tx)
    ensures ok <==> spent.Keys !! Spends(tx)
    ensures ok ==> r.Keys == spent.Keys + Spends(tx)
  {
    r := spent;
    for i := 0 to 2
      invariant r.Keys == spent.Keys + (set j | 0 <= j < i && !IsNull(tx.ins[j]) :: tx.ins[j])
      invariant forall j :: 0 <= j < i && !IsNull(tx.ins[j]) ==> tx.ins[j] !in spent
    {
      var id := tx.ins[i];
      if IsNull(id) {
        continue;
      }
      if id in r {
        assert id in Spends(tx);
        return false, r;
      }
      var utxo := get(id);
      // an input that passed validation is in the ledger
      assert utxo.Some?;
      r := r[id := utxo.value];
    }
    return true, r;
  }

  /** The block validator's loop, with its map of spent outputs. */
  method ValidateTxs(sg: Signer, get: UtxoReader, ghost u: Utxos, txs: seq<Tx>) returns (v: Verdict)
    requires ReadsFrom(get, u)
    ensures v == TxsVerdict(sg, u, txs)
    ensures v.Ok? <==> ValidTxs(sg, u, txs)
  {
    TxsVerdictMeaning(sg, u, txs);
    var spent: map<UTXOID, Coin> := map[];
    for k := 0 to |txs|
      invariant TxsVerdict(sg, u, txs[..k]).Ok?
      invariant spent.Keys == SpentBy(txs[..k])
    {
      assert txs[..k + 1][..k] == txs[..k];
      v := Validate(sg, get, u, txs[k]);
      if v.Err? {
        PrefixVerdict(sg, u, txs, k + 1);
        return v;
      }
      var ok;
      ok, spent := MarkSpent(sg, get, u, txs[k], spent);
      if !ok {
        PrefixVerdict(sg, u, txs, k + 1);
        return Err(DuplicateSpent);
      }
    }
    assert txs[..|txs|] == txs;
    return Ok;
  }

  /** A rejected prefix settles the verdict. */
  lemma {:induction false} PrefixVerdict(sg: Signer, u: Utxos, txs: seq<Tx>, k: nat)
    requires k <= |txs| && TxsVerdict(sg, u, txs[..k]).Err?
    ensures TxsVerdict(sg, u, txs) == TxsVerdict(sg, u, txs[..k])
  {
    if k == |txs| {
      assert txs[..k] == txs;
    } else {
      var n := |txs| - 1;
      assert txs[..n][..k] == txs[..k];
      PrefixVerdict(sg, u, txs[..n], k);
    }
  }

  // ---- The effect of a block ----

  /** The id of an output, in the widths it is stored with. */
  function MakeId(number: nat, txIdx: nat, outIdx: nat): (id: UTXOID) {
    UTXOID(number % TWO64, txIdx % TWO32, outIdx % 256)
  }

  /** An output as it is stored: the sign of the amount is lost. */
  function MakeCoin(o: TxOut): (c: Coin) {
    Coin(o.owner, if o.amount < 0 then -o.amount else o.amount)
  }

  /** Delete both inputs, then put both outputs. */
  function ApplyTx(u: Utxos, number: nat, txIdx: nat, tx: Tx): (r: Utxos) {
    (u - {tx.ins[0]} - {tx.ins[1]})
    [MakeId(number, txIdx, 0) := MakeCoin(tx.outs[0])]
    [MakeId(number, txIdx, 1) := MakeCoin(tx.outs[1])]
  }

  function ApplyTxs(u: Utxos, number: nat, txs: seq<Tx>): (r: Utxos) {
    if txs == [] then u
    else ApplyTx(ApplyTxs(u, number, txs[..|txs| - 1]), number, |txs| - 1, txs[|txs| - 1])
  }

  // ---- Blocks ----

  /** A block.  Its hash, its encodings and whether its header commits to its transactions are given. */
  datatype Block = Block(number: nat, hash: bytes, txs: seq<Tx>, rootOk: bool, header: bytes, body: bytes)

  /** Deposit blocks are taken as they are; child blocks must be new, match their header and be valid. */
  function BlockVerdict(sg: Signer, u: Utxos, known: bool, b: Block): (v: Verdict) {
    if b.number % CHILD_BLOCK_INTERVAL != 0 then Ok
    else if known then Err(KnownBlock)
    else if !b.rootOk then Err(TxRootMismatch)
    else TxsVerdict(sg, u, b.txs)
  }

  /** Which blocks are taken, and which error the others get: a block whose number is not a multiple of 1000
      is always taken; a child block is refused if it is known, then if its header does not match, then
      for the first fault among its transactions. */
  lemma {:induction false} BlockErrors(sg: Signer, u: Utxos, known: bool, b: Block)
    ensures var v := BlockVerdict(sg, u, known, b);
            && (b.number % 1000 != 0 ==> v == Ok)
            && (b.number % 1000 == 0 ==>
                  && (v == Err(KnownBlock) <==> known)
                  && (v == Err(TxRootMismatch) <==> !known && !b.rootOk)
                  && (v == Ok <==> !known && b.rootOk && ValidTxs(sg, u, b.txs))
                  && (v.Err? && !known && b.rootOk ==> exists k :: FirstFault(sg, u, b.txs, k, v.error)))
  {
    if b.number % 1000 == 0 && !known && b.rootOk {
      TxsVerdictMeaning(sg, u, b.txs);
      if TxsVerdict(sg, u, b.txs).Err? {
        var k := TxsErrors(sg, u, b.txs);
        assert FirstFault(sg, u, b.txs, k, TxsVerdict(sg, u, b.txs).error);
      }
    }
  }

  /** The transaction made for a deposit: two null inputs, the deposit and an empty second output. */
  function DepositTx(owner: Address, amount: nat): (tx: Tx) {
    TxData([NULL_ID, NULL_ID], [TxOut(owner, amount), TxOut(0, 0)], 1, [])
  }
}
