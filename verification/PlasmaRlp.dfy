/**
 What the contract reads out of the bytes of a transaction: the fields of the output
 that is exited, and the position that a challenge names.  The position is the sum
 of three fields in a row, from wherever the challenger says.  At the place of an
 input it names the output that input spends only when block and transaction index
 are zero; at another place it can name any output.
 */
module PlasmaRlp {
  import opened Bytes
  import opened EvmMemory
  import opened Rlp
  import Ledger
  import ExitGame
  import Merkle

  // ---- The readers ----

  /** What each element of a list reads as, as a number and as an address. */
  function Numbers(m: Mem, list: seq<RLPItem>): (r: seq<uint256>)
    ensures |r| == |list|
  {
    seq(|list|, i requires 0 <= i < |list| => ToUint(m, list[i]))
  }

  function Accounts(m: Mem, list: seq<RLPItem>): (r: seq<Option<Address>>)
    ensures |r| == |list|
  {
    seq(|list|, i requires 0 <= i < |list| => ToAddress(m, list[i]))
  }

  /** Three elements in a row, added up in 256-bit arithmetic; an index past the end reverts. */
  function SumOfThree(ns: seq<uint256>, shift: uint256): (r: Option<uint256>) {
    var i, j := Plus(1, shift), Plus(2, shift);
    if shift >= |ns| || i >= |ns| || j >= |ns| then None else Some((ns[shift] + ns[i] + ns[j]) % TWO256)
  }

  /** The position a challenging transaction names. */
  function GetUtxoPos(m: Mem, item: RLPItem, oIndex: uint256): (r: Option<uint256>) {
    match Items(m, item)
    case None => None
    case Some(list) => SumOfThree(Numbers(m, list), oIndex * 3 % TWO256)
  }

  datatype ExitingTx = ExitingTx(exitor: Address, token: Address, amount: uint256, inputCount: uint256)

  /** The fields of output oindex; an index past the end, or an element that is no address, reverts. */
  function OutputAt(ns: seq<uint256>, accounts: seq<Option<Address>>, oindex: uint256): (r: Option<ExitingTx>)
    requires |ns| == |accounts|
  {
    var i, j := Plus(7, Plus(oindex, oindex)), Plus(8, Plus(oindex, oindex));
    if i >= |ns| || j >= |ns| || |ns| < 7 || accounts[i].None? || accounts[6].None? then None
    else Some(ExitingTx(accounts[i].value, accounts[6].value, ns[j], ns[0] * ns[3] % TWO256))
  }

  /** The output of a transaction that an exit is for. */
  function CreateExitingTx(m: Mem, item: RLPItem, oindex: uint256): (r: Option<ExitingTx>) {
    match Items(m, item)
    case None => None
    case Some(list) => OutputAt(Numbers(m, list), Accounts(m, list), oindex)
  }

  // ---- Transactions as the contract expects them ----

  datatype Field = Number(x: uint256) | Account(a: Address)

  /** Two inputs, the token and two outputs, as one flat list of eleven fields. */
  datatype PlainTx = PlainTx(in0: Ledger.UTXOID, in1: Ledger.UTXOID, token: Address,
                             owner0: Address, amount0: uint256, owner1: Address, amount1: uint256)

  function Fields(tx: PlainTx): (fs: seq<Field>)
    ensures |fs| == 11
  {
    [Number(tx.in0.blockNum), Number(tx.in0.txIndex), Number(tx.in0.outIndex),
     Number(tx.in1.blockNum), Number(tx.in1.txIndex), Number(tx.in1.outIndex),
     Account(tx.token), Account(tx.owner0), Number(tx.amount0), Account(tx.owner1), Number(tx.amount1)]
  }

  /** A field as it is encoded, and the number read back from it. */
  function ItemOf(f: Field): (i: Item) {
    match f
    case Number(x) => Str(Minimal(x))
    case Account(a) => Str(BigEndian(a, ADDRESS_LEN))
  }

  function ValueOf(f: Field): (v: uint256) {
    match f
    case Number(x) => x
    case Account(a) => a
  }

  function ItemsOf(fs: seq<Field>): (xs: seq<Item>)
    ensures |xs| == |fs|
  {
    seq(|fs|, i requires 0 <= i < |fs| => ItemOf(fs[i]))
  }

  lemma {:induction false} FieldLength(f: Field)
    ensures Encode(ItemOf(f)).Some? && |Encode(ItemOf(f)).value| <= 33
  {
    if f.Number? {
      PowWidths();
      ShortMinimal(f.x, 32);
    }
  }

  lemma {:induction false} FieldsEncode(xs: seq<Item>)
    requires forall k :: 0 <= k < |xs| ==> Encode(xs[k]).Some? && |Encode(xs[k]).value| <= 33
    ensures EncodeAll(xs).Some? && |Concat(EncodeAll(xs).value)| <= 33 * |xs|
  {
    if xs != [] {
      FieldsEncode(xs[1..]);
      var e, es := Encode(xs[0]).value, EncodeAll(xs[1..]).value;
      assert ([e] + es)[1..] == es;
    }
  }

  /** Every transaction can be encoded. */
  lemma {:induction false} TxEncodes(tx: PlainTx)
    ensures Encode(Lst(ItemsOf(Fields(tx)))).Some?
  {
    var fs := Fields(tx);
    forall k | 0 <= k < |fs|
      ensures Encode(ItemsOf(fs)[k]).Some? && |Encode(ItemsOf(fs)[k]).value| <= 33
    {
      FieldLength(fs[k]);
    }
    FieldsEncode(ItemsOf(fs));
  }

  function TxBytes(tx: PlainTx): (e: bytes) {
    TxEncodes(tx);
    Encode(Lst(ItemsOf(Fields(tx)))).value
  }

  // ---- What is read back ----

  lemma {:induction false} FieldRead(m: Mem, p: nat, f: Field, e: bytes)
    requires Encode(ItemOf(f)) == Some(e) && Lies(m, p, e)
    ensures ToUint(m, RLPItem(|e|, p)) == ValueOf(f)
    ensures f.Account? ==> ToAddress(m, RLPItem(|e|, p)) == Some(f.a)
  {
    match f
    case Number(x) => UintRoundTrip(m, p, x);
    case Account(a) =>
      AddressRoundTrip(m, p, a);
      var s := BigEndian(a, ADDRESS_LEN);
      LiesSplit(m, p, [ADDRESS_LEN + STRING_SHORT], s);
      PrefixRead(m, p, ADDRESS_LEN, STRING_SHORT);
      LeadingAddress(m, p + 1, a);
  }

  /** What is read is what the fields hold. */
  predicate Holds(ns: seq<uint256>, accounts: seq<Option<Address>>, fs: seq<Field>) {
    && |ns| == |accounts| == |fs|
    && (forall k :: 0 <= k < |fs| ==> ns[k] == ValueOf(fs[k]))
    && (forall k :: 0 <= k < |fs| && fs[k].Account? ==> accounts[k] == Some(ValueOf(fs[k])))
  }

  /** Which field stands where: three numbers for each input, the token, and owner and amount of each output. */
  predicate InOrder(ns: seq<uint256>, accounts: seq<Option<Address>>, tx: PlainTx) {
    && |ns| == |accounts| == 11
    && ns[0] == tx.in0.blockNum && ns[1] == tx.in0.txIndex && ns[2] == tx.in0.outIndex
    && ns[3] == tx.in1.blockNum && ns[4] == tx.in1.txIndex && ns[5] == tx.in1.outIndex
    && accounts[6] == Some(tx.token)
    && accounts[7] == Some(tx.owner0) && ns[8] == tx.amount0
    && accounts[9] == Some(tx.owner1) && ns[10] == tx.amount1
  }

  lemma {:induction false} FieldsInOrder(ns: seq<uint256>, accounts: seq<Option<Address>>, tx: PlainTx)
    requires Holds(ns, accounts, Fields(tx))
    ensures InOrder(ns, accounts, tx)
  {
    var fs := Fields(tx);
    assert fs[6] == Account(tx.token) && fs[7] == Account(tx.owner0) && fs[9] == Account(tx.owner1);
  }

  lemma {:induction false} TxRead(m: Mem, p: nat, tx: PlainTx)
    requires Lies(m, p, TxBytes(tx))
    ensures var r := Items(m, RLPItem(|TxBytes(tx)|, p));
            && r.Some? && Holds(Numbers(m, r.value), Accounts(m, r.value), Fields(tx))
            && InOrder(Numbers(m, r.value), Accounts(m, r.value), tx)
  {
    var fs := Fields(tx);
    var xs := ItemsOf(fs);
    TxEncodes(tx);
    ListRoundTrip(m, p, xs);
    var list, es := Items(m, RLPItem(|TxBytes(tx)|, p)).value, EncodeAll(xs).value;
    forall k | 0 <= k < |fs|
      ensures ToUint(m, list[k]) == ValueOf(fs[k])
      ensures fs[k].Account? ==> ToAddress(m, list[k]) == Some(ValueOf(fs[k]))
    {
      assert Encode(xs[k]) == Some(es[k]) && Lies(m, list[k].memPtr, es[k]) && list[k].len == |es[k]|;
      FieldRead(m, list[k].memPtr, fs[k], es[k]);
    }
    FieldsInOrder(Numbers(m, list), Accounts(m, list), tx);
  }

  /** Three fields in a row. */
  function FieldSum(fs: seq<Field>, shift: nat): (x: nat)
    requires shift + 2 < |fs|
  {
    ValueOf(fs[shift]) + ValueOf(fs[shift + 1]) + ValueOf(fs[shift + 2])
  }

  lemma {:induction false} SmallWord(x: nat)
    requires x < TWO256
    ensures x % TWO256 == x
  {
  }

  lemma {:induction false} SumHeld(ns: seq<uint256>, fs: seq<Field>, shift: uint256)
    requires |ns| == |fs| < TWO64 && forall k :: 0 <= k < |fs| ==> ns[k] == ValueOf(fs[k])
    ensures SumOfThree(ns, shift) == if shift + 2 < |fs| then Some(FieldSum(fs, shift) % TWO256) else None
  {
  }

  /** For every index a challenger gives: the position named is the sum of three fields in a row, and an
      index that runs past the fields reverts. */
  lemma {:induction false} NamedPosition(m: Mem, p: nat, tx: PlainTx, oIndex: uint256)
    requires Lies(m, p, TxBytes(tx))
    ensures var shift := oIndex * 3 % TWO256;
            GetUtxoPos(m, RLPItem(|TxBytes(tx)|, p), oIndex) ==
            if shift > 8 then None else Some(FieldSum(Fields(tx), shift) % TWO256)
  {
    TxRead(m, p, tx);
    SumHeld(Numbers(m, Items(m, RLPItem(|TxBytes(tx)|, p)).value), Fields(tx), oIndex * 3 % TWO256);
  }

  /** Index 2 names the sum of the token, the first owner and the first amount. */
  lemma {:induction false} IndexTwoNames(m: Mem, p: nat, tx: PlainTx)
    requires Lies(m, p, TxBytes(tx))
    ensures GetUtxoPos(m, RLPItem(|TxBytes(tx)|, p), 2) == Some((tx.token + tx.owner0 + tx.amount0) % TWO256)
  {
    SmallWord(6);
    NamedPosition(m, p, tx, 2);
    assert FieldSum(Fields(tx), 6) == tx.token + tx.owner0 + tx.amount0;
  }

  /** The exit of output o. */
  function ExitOf(tx: PlainTx, o: nat): (x: ExitingTx)
    requires o < 2
  {
    BlockProduct(tx.in0.blockNum, tx.in1.blockNum);
    ExitingTx(if o == 0 then tx.owner0 else tx.owner1, tx.token, if o == 0 then tx.amount0 else tx.amount1,
              tx.in0.blockNum * tx.in1.blockNum)
  }

  lemma {:induction false} OutputHeld(ns: seq<uint256>, accounts: seq<Option<Address>>, fs: seq<Field>, o: uint256)
    requires Holds(ns, accounts, fs) && |fs| == 11 && o < ExitGame.TX_UNIT
    requires fs[6].Account? && fs[7].Account? && fs[9].Account?
    ensures OutputAt(ns, accounts, o) ==
            if o >= 2 then None
            else Some(ExitingTx(ValueOf(fs[7 + 2 * o]), ValueOf(fs[6]), ValueOf(fs[8 + 2 * o]),
                                ValueOf(fs[0]) * ValueOf(fs[3]) % TWO256))
  {
    assert o < 2 ==> 7 + 2 * o == 7 || 7 + 2 * o == 9;
  }

  lemma {:induction false} OutputFields(tx: PlainTx, o: nat)
    requires o < 2
    ensures var fs := Fields(tx);
            ExitOf(tx, o) == ExitingTx(ValueOf(fs[7 + 2 * o]), ValueOf(fs[6]), ValueOf(fs[8 + 2 * o]),
                                       ValueOf(fs[0]) * ValueOf(fs[3]) % TWO256)
  {
    BlockProduct(tx.in0.blockNum, tx.in1.blockNum);
    SmallWord(tx.in0.blockNum * tx.in1.blockNum);
  }

  /** For every position: the exit is for the output it names, of the two a transaction has; other output
      indexes revert.  What is called the input count is the product of the inputs' block numbers. */
  lemma {:induction false} ExitedOutput(m: Mem, p: nat, tx: PlainTx, pos: uint256)
    requires Lies(m, p, TxBytes(tx))
    ensures var o := pos % ExitGame.TX_UNIT;
            CreateExitingTx(m, RLPItem(|TxBytes(tx)|, p), o) == if o >= 2 then None else Some(ExitOf(tx, o))
  {
    TxRead(m, p, tx);
    var o := pos % ExitGame.TX_UNIT;
    var list := Items(m, RLPItem(|TxBytes(tx)|, p)).value;
    OutputHeld(Numbers(m, list), Accounts(m, list), Fields(tx), o);
    if o < 2 {
      OutputFields(tx, o);
    }
  }

  lemma {:induction false} BlockProduct(a: uint64, b: uint64)
    ensures 0 <= a * b < TWO256
  {
    MulMono(a, TWO64, b);
    MulMono(b, TWO64, TWO64);
  }

  // ---- Does a challenge name the output it spends? ----

  function Input(tx: PlainTx, i: nat): (id: Ledger.UTXOID)
    requires i < 2
  {
    if i == 0 then tx.in0 else tx.in1
  }

  /** The position of an output. */
  function PositionOf(id: Ledger.UTXOID): (pos: uint256) {
    id.blockNum * ExitGame.BLOCK_UNIT + id.txIndex * ExitGame.TX_UNIT + id.outIndex
  }

  /** A challenge with a transaction names the output that input i spends exactly if block and
      transaction index of that output are zero. */
  lemma {:induction false} NamesItsInput(m: Mem, p: nat, tx: PlainTx, i: nat)
    requires Lies(m, p, TxBytes(tx)) && i < 2
    ensures var id := Input(tx, i);
            var named := GetUtxoPos(m, RLPItem(|TxBytes(tx)|, p), i);
            && named == Some(id.blockNum + id.txIndex + id.outIndex)
            && (named == Some(PositionOf(id)) <==> id.blockNum == 0 && id.txIndex == 0)
  {
    SmallWord(i * 3);
    NamedPosition(m, p, tx, i);
    InputSum(tx, i);
    SmallWord(FieldSum(Fields(tx), i * 3));
    OwnPosition(Input(tx, i));
  }

  lemma {:induction false} InputSum(tx: PlainTx, i: nat)
    requires i < 2
    ensures var id := Input(tx, i);
            FieldSum(Fields(tx), i * 3) == id.blockNum + id.txIndex + id.outIndex < TWO256
  {
  }

  lemma {:induction false} OwnPosition(id: Ledger.UTXOID)
    ensures id.blockNum + id.txIndex + id.outIndex == PositionOf(id) <==> id.blockNum == 0 && id.txIndex == 0
  {
  }

  // ---- Exits and challenges by transaction bytes ----

  /** The call startExit: the exit is for the output of the bytes that the position names. */
  function Exit(K: Merkle.Hasher, s: ExitGame.State, sender: Address, pos: uint256, m: Mem, item: RLPItem,
                sigsOk: bool, leaf: bytes, proof: bytes): (r: Option<ExitGame.State>)
  {
    match CreateExitingTx(m, item, pos % ExitGame.TX_UNIT)
    case None => None
    case Some(x) =>
      ExitGame.Outcome(K, s, ExitGame.StartExit(sender, pos, x.exitor, x.token, x.amount, sigsOk, leaf, proof))
  }

  /** The call challengeExit: the position comes out of the bytes; bytes that name none revert. */
  function Challenge(K: Merkle.Hasher, s: ExitGame.State, m: Mem, item: RLPItem, oIndex: uint256, cPos: uint256,
                     leaf: bytes, proof: bytes, confirmer: Address): (r: Option<ExitGame.State>)
  {
    ChallengeNamed(K, s, GetUtxoPos(m, item, oIndex), cPos, leaf, proof, confirmer)
  }

  function ChallengeNamed(K: Merkle.Hasher, s: ExitGame.State, named: Option<uint256>, cPos: uint256, leaf: bytes,
                          proof: bytes, confirmer: Address): (r: Option<ExitGame.State>)
  {
    match named
    case None => None
    case Some(pos) => ExitGame.Outcome(K, s, ExitGame.ChallengeExit(pos, cPos, leaf, proof, confirmer))
  }

  /** Three fields in a row, from three times the given index on, add up to the position. */
  predicate Reaches(tx: PlainTx, oIndex: uint256, pos: nat) {
    var shift := oIndex * 3 % TWO256;
    shift <= 8 && FieldSum(Fields(tx), shift) % TWO256 == pos
  }

  /** The exit of the position is confirmed by its owner, and the leaf is in the named block. */
  predicate Proven(K: Merkle.Hasher, s: ExitGame.State, pos: uint256, cPos: uint256, leaf: bytes, proof: bytes,
                   confirmer: Address)
  {
    && ExitGame.ExitAt(s, pos).owner == confirmer
    && ExitGame.Member(K, leaf, cPos, ExitGame.BlockAt(s, cPos / ExitGame.BLOCK_UNIT).root, proof)
  }

  /** In every state, for every transaction, every index a challenger gives and every position: the call
      challenges that position exactly if the fields at the index add up to it and the proofs are good.
      Otherwise the exit at that position stays as it was. */
  lemma {:induction false} ChallengesExactly(K: Merkle.Hasher, s: ExitGame.State, m: Mem, p: nat, tx: PlainTx,
                                             oIndex: uint256, pos: uint256, cPos: uint256, leaf: bytes, proof: bytes,
                                             confirmer: Address)
    requires Lies(m, p, TxBytes(tx))
    ensures var r := Challenge(K, s, m, RLPItem(|TxBytes(tx)|, p), oIndex, cPos, leaf, proof, confirmer);
            var hit := Reaches(tx, oIndex, pos) && Proven(K, s, pos, cPos, leaf, proof, confirmer);
            && (Reaches(tx, oIndex, pos) ==> (r.Some? <==> hit))
            && (r.Some? ==>
                  && ExitGame.ExitAt(r.value, pos) ==
                     (if hit then ExitGame.ExitAt(s, pos).(owner := 0) else ExitGame.ExitAt(s, pos))
                  && (pos in r.value.challenged <==>
                        pos in s.challenged || (hit && ExitGame.ExitAt(s, pos).amount > 0)))
  {
    NamedPosition(m, p, tx, oIndex);
  }

  /** In every state: a challenge with a transaction clears the owner of the exit of the output that input
      i spends if and only if the fields at the challenger's index add up to its position, the proofs are
      good and there is an owner to clear. */
  lemma {:induction false} SpendClearsExit(K: Merkle.Hasher, s: ExitGame.State, m: Mem, p: nat, tx: PlainTx, i: nat,
                                           oIndex: uint256, cPos: uint256, leaf: bytes, proof: bytes,
                                           confirmer: Address)
    requires Lies(m, p, TxBytes(tx)) && i < 2
    ensures var r := Challenge(K, s, m, RLPItem(|TxBytes(tx)|, p), oIndex, cPos, leaf, proof, confirmer);
            var own := PositionOf(Input(tx, i));
            r.Some? && ExitGame.ExitAt(r.value, own) != ExitGame.ExitAt(s, own) <==>
              Reaches(tx, oIndex, own) && Proven(K, s, own, cPos, leaf, proof, confirmer) && confirmer != 0
  {
    ChallengesExactly(K, s, m, p, tx, oIndex, PositionOf(Input(tx, i)), cPos, leaf, proof, confirmer);
  }

  /** At the place of an input the fields never add up to the position of an output of a real block. */
  lemma {:induction false} OwnIndexMisses(tx: PlainTx, i: nat)
    requires i < 2
    ensures Reaches(tx, i, PositionOf(Input(tx, i))) <==> Input(tx, i).blockNum == 0 && Input(tx, i).txIndex == 0
  {
    SmallWord(i * 3);
    InputSum(tx, i);
    SmallWord(FieldSum(Fields(tx), i * 3));
    OwnPosition(Input(tx, i));
  }

  /** A transaction that spends the first output of block n and pays as much as the number of its position
      to the account zero: index 2 reads token, first owner and first amount. */
  function PayingItsPosition(n: uint64, owner: Address, change: uint256): (tx: PlainTx) {
    PositionFits(n);
    PlainTx(Ledger.UTXOID(n, 0, 0), Ledger.UTXOID(0, 0, 0), 0, 0, n * ExitGame.BLOCK_UNIT, owner, change)
  }

  lemma {:induction false} PositionFits(n: uint64)
    ensures n * ExitGame.BLOCK_UNIT < TWO256
  {
  }

  /** Index 2 does reach the output such a transaction spends, in every block, although it is the index of
      no input; the index of the input reaches it in no real block. */
  lemma {:induction false} IndexTwoReaches(n: uint64, owner: Address, change: uint256)
    requires n > 0
    ensures var tx := PayingItsPosition(n, owner, change);
            Reaches(tx, 2, PositionOf(tx.in0)) && !Reaches(tx, 0, PositionOf(tx.in0))
  {
    var tx := PayingItsPosition(n, owner, change);
    SmallWord(6);
    SmallWord(n * ExitGame.BLOCK_UNIT);
    OwnIndexMisses(tx, 0);
  }
}
