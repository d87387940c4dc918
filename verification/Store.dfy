/**
 The key-value store under the ledger, its simulated transactions, and the byte
 layout of everything the node keeps in it.
 */
module Store {
  import opened Bytes
  import opened Ledger

  // ---- Keys and values ----

  const HEADER_PREFIX: byte := 104        // "h"
  const HEADER_HASH_SUFFIX: byte := 110   // "n"
  const HEADER_NUMBER_PREFIX: byte := 72  // "H"
  const BODY_PREFIX: byte := 98           // "b"
  const UTXO_PREFIX: byte := 99           // "c"

  const HEAD_BLOCK_KEY: bytes := [76, 97, 115, 116, 66, 108, 111, 99, 107]            // "LastBlock"
  const HEAD_HEADER_KEY: bytes := [76, 97, 115, 116, 72, 101, 97, 100, 101, 114]      // "LastHeader"
  const HEAD_FAST_KEY: bytes := [76, 97, 115, 116, 70, 97, 115, 116]                  // "LastFast"

  function EncodeNumber(number: nat): (r: bytes) {
    BigEndian(number, 8)
  }

  function HeaderKey(number: nat, hash: bytes): (k: bytes) {
    [HEADER_PREFIX] + EncodeNumber(number) + hash
  }

  function HeaderHashKey(number: nat): (k: bytes) {
    [HEADER_PREFIX] + EncodeNumber(number) + [HEADER_HASH_SUFFIX]
  }

  function HeaderNumberKey(hash: bytes): (k: bytes) {
    [HEADER_NUMBER_PREFIX] + hash
  }

  function BodyKey(number: nat, hash: bytes): (k: bytes) {
    [BODY_PREFIX] + EncodeNumber(number) + hash
  }

  function UtxoKey(id: UTXOID): (k: bytes) {
    [UTXO_PREFIX] + BigEndian(id.blockNum, 8) + BigEndian(id.txIndex, 4) + [id.outIndex]
  }

  /** Write the low n bytes of x into a buffer, most significant first. */
  method PutBigEndian(a: array<byte>, at: nat, x: nat, n: nat)
    requires at + n <= a.Length
    modifies a
    ensures a[..] == old(a[..at]) + BigEndian(x, n) + old(a[at + n..])
  {
    ghost var was := a[..];
    forall i | at <= i < at + n {
      a[i] := Digit(x, at + n - 1 - i);
    }
    ghost var r := was[..at] + BigEndian(x, n) + was[at + n..];
    forall i | 0 <= i < a.Length
      ensures a[i] == r[i]
    {
    }
    assert a[..] == r;
  }

  /** The key as the program builds it, field by field in a 14-byte buffer. */
  method MakeUtxoKey(id: UTXOID) returns (k: bytes)
    ensures k == UtxoKey(id)
  {
    var key := new byte[14](i => 0);
    key[0] := UTXO_PREFIX;
    PutBigEndian(key, 1, id.blockNum, 8);
    PutBigEndian(key, 9, id.txIndex, 4);
    key[13] := id.outIndex;
    return key[..];
  }

  /** Different outputs have different keys. */
  lemma {:induction false} UtxoKeyInjective(a: UTXOID, b: UTXOID)
    requires UtxoKey(a) == UtxoKey(b)
    ensures a == b
  {
    var x, y := UtxoKey(a), UtxoKey(b);
    assert x[1..9] == BigEndian(a.blockNum, 8) && y[1..9] == BigEndian(b.blockNum, 8);
    assert x[9..13] == BigEndian(a.txIndex, 4) && y[9..13] == BigEndian(b.txIndex, 4);
    assert x[13] == a.outIndex && y[13] == b.outIndex;
    PowWidths();
    BigEndianInjective(a.blockNum, b.blockNum, 8);
    BigEndianInjective(a.txIndex, b.txIndex, 4);
  }

  /** The keys of blocks and heads. */
  predicate IsChainKey(k: bytes) {
    k != [] && (k[0] == HEADER_PREFIX || k[0] == HEADER_NUMBER_PREFIX || k[0] == BODY_PREFIX || k[0] == 76)
  }

  lemma {:induction false} ChainKeys(number: nat, hash: bytes)
    ensures IsChainKey(HeaderKey(number, hash)) && IsChainKey(HeaderHashKey(number))
    ensures IsChainKey(HeaderNumberKey(hash)) && IsChainKey(BodyKey(number, hash))
    ensures IsChainKey(HEAD_BLOCK_KEY) && IsChainKey(HEAD_HEADER_KEY) && IsChainKey(HEAD_FAST_KEY)
    ensures forall id :: !IsChainKey(UtxoKey(id))
  {
  }

  /** The stored form of an output: the owner's 20 bytes, then the amount without leading zeros. */
  function CoinValue(c: Coin): (r: bytes) {
    BigEndian(c.owner, ADDRESS_LEN) + Minimal(c.amount)
  }

  /** Reading an output.  A value shorter than an address would crash the program; none is ever
      written under an output key. */
  function ReadUTXO(kv: map<bytes, bytes>, id: UTXOID): (r: Option<Coin>) {
    var key := UtxoKey(id);
    if key !in kv || |kv[key]| < ADDRESS_LEN then None
    else Some(Coin(Value(kv[key][..ADDRESS_LEN]) % TWO160, Value(kv[key][ADDRESS_LEN..])))
  }

  /** A stored output is read back as it was. */
  lemma {:induction false} CoinRoundTrip(kv: map<bytes, bytes>, id: UTXOID, c: Coin)
    requires UtxoKey(id) in kv && kv[UtxoKey(id)] == CoinValue(c)
    ensures ReadUTXO(kv, id) == Some(c)
  {
    var v := CoinValue(c);
    assert v[..ADDRESS_LEN] == BigEndian(c.owner, ADDRESS_LEN) && v[ADDRESS_LEN..] == Minimal(c.amount);
    PowWidths();
    ValueOfBigEndianExact(c.owner, ADDRESS_LEN);
    ValueOfMinimal(c.amount);
  }

  // ---- The bytes of keys and values ----

  /** The bytes of a text in ASCII. */
  function Ascii(text: string): (r: bytes)
    requires forall i :: 0 <= i < |text| ==> text[i] as int < 128
  {
    seq(|text|, i requires 0 <= i < |text| => text[i] as int)
  }

  /** The keys of a block: a letter, the number in eight bytes and the hash; the canonical hash of a number is
      under the number and another letter, and the number of a hash under a letter and the hash. */
  lemma {:induction false} BlockKeyBytes(number: nat, hash: bytes)
    requires number < TWO64
    ensures var header, body, canonical := HeaderKey(number, hash), BodyKey(number, hash), HeaderHashKey(number);
            && |header| == |body| == 9 + |hash| && header[..1] == Ascii("h") && body[..1] == Ascii("b")
            && Value(header[1..9]) == Value(body[1..9]) == number && header[9..] == body[9..] == hash
            && |canonical| == 10 && canonical[..1] == Ascii("h") && Value(canonical[1..9]) == number
            && canonical[9..] == Ascii("n") && HeaderNumberKey(hash) == Ascii("H") + hash
  {
    PowWidths();
    ValueOfBigEndianExact(number, 8);
    assert HeaderKey(number, hash)[1..9] == BodyKey(number, hash)[1..9] == HeaderHashKey(number)[1..9]
           == BigEndian(number, 8);
  }

  lemma {:induction false} HeadKeyBytes()
    ensures HEAD_BLOCK_KEY == Ascii("LastBlock") && HEAD_HEADER_KEY == Ascii("LastHeader")
    ensures HEAD_FAST_KEY == Ascii("LastFast")
  {
  }

  /** An output key: a letter, block number, transaction index and output index in 8, 4 and 1 bytes; its
      value: 20 bytes of owner, then the amount without leading zeros. */
  lemma {:induction false} OutputBytes(id: UTXOID, c: Coin)
    ensures var k := UtxoKey(id);
            && |k| == 14 && k[..1] == Ascii("c") && Value(k[1..9]) == id.blockNum && Value(k[9..13]) == id.txIndex
            && k[13] == id.outIndex
    ensures var v := CoinValue(c);
            && |v| >= 20 && Value(v[..20]) == c.owner && Value(v[20..]) == c.amount
            && (|v| > 20 ==> v[20] != 0)
  {
    var k, v := UtxoKey(id), CoinValue(c);
    PowWidths();
    ValueOfBigEndianExact(id.blockNum, 8);
    ValueOfBigEndianExact(id.txIndex, 4);
    ValueOfBigEndianExact(c.owner, 20);
    ValueOfMinimal(c.amount);
    assert k[1..9] == BigEndian(id.blockNum, 8) && k[9..13] == BigEndian(id.txIndex, 4);
    assert v[..20] == BigEndian(c.owner, 20) && v[20..] == Minimal(c.amount);
  }

  // ---- Batches of writes ----

  datatype Op = PutOp(key: bytes, value: bytes) | DeleteOp(key: bytes)

  function ApplyOp(kv: map<bytes, bytes>, op: Op): (r: map<bytes, bytes>) {
    match op
    case PutOp(k, v) => kv[k := v]
    case DeleteOp(k) => kv - {k}
  }

  /** Apply writes in order. */
  function ApplyOps(kv: map<bytes, bytes>, ops: seq<Op>): (r: map<bytes, bytes>) {
    if ops == [] then kv else ApplyOp(ApplyOps(kv, ops[..|ops| - 1]), ops[|ops| - 1])
  }

  lemma {:induction false} ApplyOpsConcat(kv: map<bytes, bytes>, a: seq<Op>, b: seq<Op>)
    ensures ApplyOps(kv, a + b) == ApplyOps(ApplyOps(kv, a), b)
  {
    if b == [] {
      assert a + b == a;
    } else {
      var n := |b| - 1;
      ApplyOpsConcat(kv, a, b[..n]);
      assert (a + b)[..|a + b| - 1] == a + b[..n];
    }
  }

  /** A key that is not written keeps its value. */
  lemma {:induction false} UnwrittenKept(kv: map<bytes, bytes>, ops: seq<Op>, key: bytes)
    requires forall i :: 0 <= i < |ops| ==> ops[i].key != key
    ensures var r := ApplyOps(kv, ops);
            (key in r <==> key in kv) && (key in kv ==> r[key] == kv[key])
  {
    if ops != [] {
      UnwrittenKept(kv, ops[..|ops| - 1], key);
    }
  }

  /** The last write to a key wins. */
  lemma {:induction false} LastWriteWins(kv: map<bytes, bytes>, ops: seq<Op>, i: nat)
    requires i < |ops| && forall j :: i < j < |ops| ==> ops[j].key != ops[i].key
    ensures var r, key := ApplyOps(kv, ops), ops[i].key;
            (key in r <==> ops[i].PutOp?) && (ops[i].PutOp? ==> r[key] == ops[i].value)
  {
    var done, rest := ops[..i + 1], ops[i + 1..];
    assert ops == done + rest;
    assert done[..i] == ops[..i];
    ApplyOpsConcat(kv, done, rest);
    UnwrittenKept(ApplyOps(kv, done), rest, ops[i].key);
  }

  // ---- The database ----

  class Batch {
    var ops: seq<Op>

    constructor ()
      ensures ops == []
    {
      ops := [];
    }
  }

  /** A store with at most one open transaction, simulated by a shared batch of pending writes.
      `fault` says whether the underlying store fails the request; a failed request changes nothing. */
  class LDBDatabase {
    var kv: map<bytes, bytes>
    const defaultBatch: Batch
    var batch: Batch?

    /** The batch is the shared one, and it is empty whenever no transaction is open. */
    ghost predicate Valid()
      reads this, defaultBatch
    {
      && (batch == null || batch == defaultBatch)
      && (batch == null ==> defaultBatch.ops == [])
    }

    /** The writes waiting for a commit. */
    ghost function Pending(): (ops: seq<Op>)
      reads this, defaultBatch
    {
      defaultBatch.ops
    }

    constructor ()
      ensures Valid() && kv == map[] && batch == null && fresh(defaultBatch)
    {
      kv := map[];
      defaultBatch := new Batch();
      batch := null;
    }

    method Put(key: bytes, value: bytes, fault: bool) returns (ok: bool)
      requires Valid()
      modifies this`kv, defaultBatch
      ensures Valid()
      ensures batch != null ==> ok && kv == old(kv) && Pending() == old(Pending()) + [PutOp(key, value)]
      ensures batch == null ==> ok == !fault && kv == (if ok then old(kv)[key := value] else old(kv))
    {
      if batch != null {
        batch.ops := batch.ops + [PutOp(key, value)];
        return true;
      }
      if fault {
        return false;
      }
      kv := kv[key := value];
      return true;
    }

    /** Reads never see pending writes.  A read that fails and a key that is missing are both errors. */
    method Get(key: bytes, fault: bool) returns (r: Option<bytes>)
      requires Valid()
      ensures r == if !fault && key in kv then Some(kv[key]) else None
    {
      if !fault && key in kv {
        return Some(kv[key]);
      }
      return None;
    }

    /** None is an error of the store. */
    method Has(key: bytes, fault: bool) returns (r: Option<bool>)
      requires Valid()
      ensures r == if fault then None else Some(key in kv)
    {
      if fault {
        return None;
      }
      return Some(key in kv);
    }

    method Delete(key: bytes, fault: bool) returns (ok: bool)
      requires Valid()
      modifies this`kv, defaultBatch
      ensures Valid()
      ensures batch != null ==> ok && kv == old(kv) && Pending() == old(Pending()) + [DeleteOp(key)]
      ensures batch == null ==> ok == !fault && kv == (if ok then old(kv) - {key} else old(kv))
    {
      if batch != null {
        batch.ops := batch.ops + [DeleteOp(key)];
        return true;
      }
      if fault {
        return false;
      }
      kv := kv - {key};
      return true;
    }

    method BeginTx() returns (created: bool)
      requires Valid()
      modifies this`batch
      ensures Valid() && batch != null
      ensures created == (old(batch) == null)
      ensures created ==> Pending() == []
    {
      if batch != null {
        return false;
      }
      batch := defaultBatch;
      return true;
    }

    method CommitTx(fault: bool) returns (ok: bool)
      requires Valid()
      modifies this, defaultBatch
      ensures Valid()
      ensures ok == (old(batch) != null && !fault)
      ensures ok ==> kv == ApplyOps(old(kv), old(Pending())) && batch == null
      ensures !ok ==> kv == old(kv) && batch == old(batch) && Pending() == old(Pending())
    {
      if batch == null {
        return false;
      }
      if fault {
        return false;
      }
      kv := ApplyOps(kv, batch.ops);
      ResetTx();
      return true;
    }

    method RollbackTx() returns (ok: bool)
      requires Valid()
      modifies this`batch, defaultBatch
      ensures Valid() && batch == null
      ensures ok == (old(batch) != null)
    {
      if batch == null {
        return false;
      }
      ResetTx();
      return true;
    }

    method ResetTx()
      requires batch == defaultBatch
      modifies this`batch, defaultBatch
      ensures Valid() && batch == null
    {
      batch.ops := [];
      batch := null;
    }
  }

  // ---- The store as a set of outputs ----

  /** The store holds exactly the outputs u. */
  ghost predicate Represents(kv: map<bytes, bytes>, u: Utxos) {
    forall id :: ReadUTXO(kv, id) == if id in u then Some(u[id]) else None
  }

  lemma {:induction false} RepresentsPut(kv: map<bytes, bytes>, u: Utxos, id: UTXOID, c: Coin)
    requires Represents(kv, u)
    ensures Represents(kv[UtxoKey(id) := CoinValue(c)], u[id := c])
  {
    var kv', u' := kv[UtxoKey(id) := CoinValue(c)], u[id := c];
    forall x
      ensures ReadUTXO(kv', x) == if x in u' then Some(u'[x]) else None
    {
      if x == id {
        CoinRoundTrip(kv', id, c);
      } else if UtxoKey(x) == UtxoKey(id) {
        UtxoKeyInjective(x, id);
      }
    }
  }

  lemma {:induction false} RepresentsDelete(kv: map<bytes, bytes>, u: Utxos, id: UTXOID)
    requires Represents(kv, u)
    ensures Represents(kv - {UtxoKey(id)}, u - {id})
  {
    var kv', u' := kv - {UtxoKey(id)}, u - {id};
    forall x
      ensures ReadUTXO(kv', x) == if x in u' then Some(u'[x]) else None
    {
      if x != id && UtxoKey(x) == UtxoKey(id) {
        UtxoKeyInjective(x, id);
      }
    }
  }

  /** Writing blocks and heads does not touch the outputs. */
  lemma {:induction false} RepresentsChainWrites(kv: map<bytes, bytes>, u: Utxos, ops: seq<Op>)
    requires Represents(kv, u) && forall i :: 0 <= i < |ops| ==> IsChainKey(ops[i].key)
    ensures Represents(ApplyOps(kv, ops), u)
  {
    if ops != [] {
      var n := |ops| - 1;
      RepresentsChainWrites(kv, u, ops[..n]);
      ChainKeys(0, []);
      assert forall id :: UtxoKey(id) != ops[n].key;
      assert forall id :: ReadUTXO(ApplyOps(kv, ops), id) == ReadUTXO(ApplyOps(kv, ops[..n]), id);
    }
  }

  /** A store represents at most one set of outputs. */
  lemma {:induction false} RepresentsUnique(kv: map<bytes, bytes>, u: Utxos, v: Utxos)
    requires Represents(kv, u) && Represents(kv, v)
    ensures u == v
  {
    forall id
      ensures id in u <==> id in v
      ensures id in u && id in v ==> u[id] == v[id]
    {
      assert ReadUTXO(kv, id) == ReadUTXO(kv, id);
    }
  }

  // ---- The writes of a transaction ----

  function TxOps(number: nat, txIdx: nat, tx: Tx): (ops: seq<Op>) {
    [DeleteOp(UtxoKey(tx.ins[0])), DeleteOp(UtxoKey(tx.ins[1])),
     PutOp(UtxoKey(MakeId(number, txIdx, 0)), CoinValue(MakeCoin(tx.outs[0]))),
     PutOp(UtxoKey(MakeId(number, txIdx, 1)), CoinValue(MakeCoin(tx.outs[1])))]
  }

  function TxsOps(number: nat, txs: seq<Tx>): (ops: seq<Op>) {
    if txs == [] then [] else TxsOps(number, txs[..|txs| - 1]) + TxOps(number, |txs| - 1, txs[|txs| - 1])
  }

  lemma {:induction false} ApplyOne(kv: map<bytes, bytes>, a: Op)
    ensures ApplyOps(kv, [a]) == ApplyOp(kv, a)
  {
    assert [a][..0] == [];
  }

  lemma {:induction false} ApplyFour(kv: map<bytes, bytes>, a: Op, b: Op, c: Op, d: Op)
    ensures ApplyOps(kv, [a, b, c, d]) == ApplyOp(ApplyOp(ApplyOp(ApplyOp(kv, a), b), c), d)
  {
    ApplyOne(kv, a);
    assert [a, b][..1] == [a] && [a, b, c][..2] == [a, b] && [a, b, c, d][..3] == [a, b, c];
    assert ApplyOps(kv, [a, b]) == ApplyOp(ApplyOps(kv, [a]), b);
    assert ApplyOps(kv, [a, b, c]) == ApplyOp(ApplyOps(kv, [a, b]), c);
  }

  lemma {:induction false} RepresentsTx(kv: map<bytes, bytes>, u: Utxos, number: nat, txIdx: nat, tx: Tx)
    requires Represents(kv, u)
    ensures Represents(ApplyOps(kv, TxOps(number, txIdx, tx)), ApplyTx(u, number, txIdx, tx))
  {
    var o := TxOps(number, txIdx, tx);
    ApplyFour(kv, o[0], o[1], o[2], o[3]);
    var a, b := tx.ins[0], tx.ins[1];
    RepresentsDelete(kv, u, a);
    var kv1, u1 := kv - {UtxoKey(a)}, u - {a};
    RepresentsDelete(kv1, u1, b);
    var kv2, u2 := kv1 - {UtxoKey(b)}, u1 - {b};
    RepresentsPut(kv2, u2, MakeId(number, txIdx, 0), MakeCoin(tx.outs[0]));
    RepresentsPut(ApplyOp(kv2, o[2]), u2[MakeId(number, txIdx, 0) := MakeCoin(tx.outs[0])],
                  MakeId(number, txIdx, 1), MakeCoin(tx.outs[1]));
  }

  /** Committing the writes of a list of transactions has the effect of the transactions. */
  lemma {:induction false} RepresentsTxs(kv: map<bytes, bytes>, u: Utxos, number: nat, txs: seq<Tx>)
    requires Represents(kv, u)
    ensures Represents(ApplyOps(kv, TxsOps(number, txs)), ApplyTxs(u, number, txs))
  {
    if txs != [] {
      var n := |txs| - 1;
      RepresentsTxs(kv, u, number, txs[..n]);
      ApplyOpsConcat(kv, TxsOps(number, txs[..n]), TxOps(number, n, txs[n]));
      RepresentsTx(ApplyOps(kv, TxsOps(number, txs[..n])), ApplyTxs(u, number, txs[..n]), number, n, txs[n]);
    }
  }
}
