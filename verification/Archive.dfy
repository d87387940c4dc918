/**
 What the store keeps of every block that was committed to it: the header, the body
 and the number, each under its own key, for as long as no other block of the same
 hash is committed; and which keys a commit writes for the head of the chain.
 */
module Archive {
  import opened Bytes
  import opened Protocol
  import opened Ledger
  import opened LedgerRuns
  import opened Store
  import opened Nodes
  import opened NodeRuns
  import opened ChildNumbers

  /** The header, the body and the number of the block are found under its hash. */
  predicate Files(kv: map<bytes, bytes>, b: Block) {
    var header, body, number := HeaderKey(b.number, b.hash), BodyKey(b.number, b.hash), HeaderNumberKey(b.hash);
    && header in kv && kv[header] == b.header
    && body in kv && kv[body] == b.body
    && number in kv && |kv[number]| == 8 && Value(kv[number]) == b.number
  }

  predicate IsNumberKey(k: bytes) {
    |k| == 33 && k[0] == HEADER_NUMBER_PREFIX
  }

  lemma {:induction false} TxsOpsKeys(number: nat, txs: seq<Tx>)
    ensures forall i :: 0 <= i < |TxsOps(number, txs)| ==> !IsNumberKey(TxsOps(number, txs)[i].key)
    decreases |txs|
  {
    if txs != [] {
      TxsOpsKeys(number, txs[..|txs| - 1]);
    }
  }

  /** After the block itself, an accepted block writes no number key either. */
  lemma {:induction false} RestKeys(kv: map<bytes, bytes>, head: nat, b: Block)
    ensures var rest := (if b.number > head then HeadOps(kv, b) else []) + TxsOps(b.number, b.txs);
            forall i :: 0 <= i < |rest| ==> !IsNumberKey(rest[i].key)
  {
    TxsOpsKeys(b.number, b.txs);
    var heads := if b.number > head then HeadOps(kv, b) else [];
    assert forall i :: 0 <= i < |heads| ==> !IsNumberKey(heads[i].key);
  }

  /** A header, body or number key sees only the three writes of the block itself. */
  lemma {:induction false} SeesBlockOnly(kv: map<bytes, bytes>, head: nat, b: Block, key: bytes)
    requires IsBlockKey(key) || IsNumberKey(key)
    ensures var r, c := ApplyOps(kv, AllOps(kv, head, b)), ApplyOps(kv, ChainOps(b));
            (key in r <==> key in c) && (key in c ==> r[key] == c[key])
  {
    var rest := (if b.number > head then HeadOps(kv, b) else []) + TxsOps(b.number, b.txs);
    RestMisses(kv, head, b);
    RestKeys(kv, head, b);
    ApplyOpsConcat(kv, ChainOps(b), rest);
    UnwrittenKept(ApplyOps(kv, ChainOps(b)), rest, key);
  }

  lemma {:induction false} ThreeKeys(m: nat, h: bytes)
    requires m < TWO64 && |h| == 32
    ensures IsBlockKey(HeaderKey(m, h)) && IsBlockKey(BodyKey(m, h)) && IsNumberKey(HeaderNumberKey(h))
    ensures HeaderKey(m, h) != BodyKey(m, h)
    ensures HeaderKey(m, h) != HeaderNumberKey(h) && BodyKey(m, h) != HeaderNumberKey(h)
  {
    BlockKeysInjective(m, h, m, h);
  }

  lemma {:induction false} WritesThree(kv: map<bytes, bytes>, b: Block)
    requires b.number < TWO64 && |b.hash| == 32
    ensures Files(ApplyOps(kv, ChainOps(b)), b)
  {
    var c := ChainOps(b);
    ThreeKeys(b.number, b.hash);
    ApplyThree(kv, c[0], c[1], c[2]);
    PowWidths();
    ValueOfBigEndianExact(b.number, 8);
  }

  /** After a commit the header, the body and the number of the block are there. */
  lemma {:induction false} CommitFiles(kv: map<bytes, bytes>, head: nat, b: Block)
    requires b.number < TWO64 && |b.hash| == 32
    ensures Files(ApplyOps(kv, AllOps(kv, head, b)), b)
  {
    ThreeKeys(b.number, b.hash);
    WritesThree(kv, b);
    SeesBlockOnly(kv, head, b, HeaderKey(b.number, b.hash));
    SeesBlockOnly(kv, head, b, BodyKey(b.number, b.hash));
    SeesBlockOnly(kv, head, b, HeaderNumberKey(b.hash));
  }

  /** The three keys of a block are not among those of a block with another hash. */
  lemma {:induction false} OtherKeys(b: Block, m: nat, h: bytes)
    requires b.number < TWO64 && |b.hash| == 32 && m < TWO64 && |h| == 32 && h != b.hash
    ensures forall i :: 0 <= i < |ChainOps(b)| ==>
              ChainOps(b)[i].key != HeaderKey(m, h) && ChainOps(b)[i].key != BodyKey(m, h)
              && ChainOps(b)[i].key != HeaderNumberKey(h)
  {
    BlockKeysInjective(m, h, b.number, b.hash);
    BlockKeysInjective(b.number, b.hash, m, h);
    RestartKeys(b.number, b.hash, h, m);
  }

  /** Committing a block with another hash leaves what is kept of a block as it was. */
  lemma {:induction false} CommitKeepsFile(kv: map<bytes, bytes>, head: nat, b: Block, c: Block)
    requires b.number < TWO64 && |b.hash| == 32 && c.number < TWO64 && |c.hash| == 32 && c.hash != b.hash
    requires Files(kv, c)
    ensures Files(ApplyOps(kv, AllOps(kv, head, b)), c)
  {
    ThreeKeys(c.number, c.hash);
    OtherKeys(b, c.number, c.hash);
    UnwrittenKept(kv, ChainOps(b), HeaderKey(c.number, c.hash));
    UnwrittenKept(kv, ChainOps(b), BodyKey(c.number, c.hash));
    UnwrittenKept(kv, ChainOps(b), HeaderNumberKey(c.hash));
    SeesBlockOnly(kv, head, b, HeaderKey(c.number, c.hash));
    SeesBlockOnly(kv, head, b, BodyKey(c.number, c.hash));
    SeesBlockOnly(kv, head, b, HeaderNumberKey(c.hash));
  }

  // ---- The head of the chain ----

  /** The keys under which the heads and the canonical hash of a number are kept. */
  predicate IsHeadKey(k: bytes, number: nat) {
    k == HeaderHashKey(number) || k == HEAD_BLOCK_KEY || k == HEAD_HEADER_KEY || k == HEAD_FAST_KEY
  }

  lemma {:induction false} HeadKeysApart(number: nat)
    ensures HeaderHashKey(number) != HEAD_BLOCK_KEY && HeaderHashKey(number) != HEAD_HEADER_KEY
    ensures HeaderHashKey(number) != HEAD_FAST_KEY && HEAD_BLOCK_KEY != HEAD_HEADER_KEY
    ensures HEAD_BLOCK_KEY != HEAD_FAST_KEY && HEAD_HEADER_KEY != HEAD_FAST_KEY
    ensures forall k :: IsHeadKey(k, number) ==> IsChainKey(k) && !IsBlockKey(k) && !IsNumberKey(k)
  {
    assert |HEAD_BLOCK_KEY| == 9 && |HEAD_HEADER_KEY| == 10 && |HEAD_FAST_KEY| == 8;
    assert |HeaderHashKey(number)| == 10 && HeaderHashKey(number)[0] == HEADER_PREFIX;
  }

  lemma {:induction false} HeadWrites(kv: map<bytes, bytes>, b: Block, key: bytes)
    requires IsHeadKey(key, b.number)
    ensures var r := ApplyOps(kv, HeadOps(kv, b));
            if key == HeaderHashKey(b.number) || key == HEAD_BLOCK_KEY || CanonicalHash(kv, b.number) != b.hash then
              key in r && r[key] == b.hash
            else
              (key in r <==> key in kv) && (key in kv ==> r[key] == kv[key])
  {
    var ops := HeadOps(kv, b);
    HeadKeysApart(b.number);
    if key == HeaderHashKey(b.number) {
      LastWriteWins(kv, ops, 0);
    } else if key == HEAD_BLOCK_KEY {
      LastWriteWins(kv, ops, 1);
    } else if CanonicalHash(kv, b.number) == b.hash {
      UnwrittenKept(kv, ops, key);
    } else {
      LastWriteWins(kv, ops, if key == HEAD_HEADER_KEY then 2 else 3);
    }
  }

  lemma {:induction false} ChainMissesHeads(kv: map<bytes, bytes>, b: Block, key: bytes)
    requires IsHeadKey(key, b.number) && |b.hash| == 32 && b.number < TWO64
    ensures var r := ApplyOps(kv, ChainOps(b));
            (key in r <==> key in kv) && (key in kv ==> r[key] == kv[key])
  {
    ThreeKeys(b.number, b.hash);
    HeadKeysApart(b.number);
    UnwrittenKept(kv, ChainOps(b), key);
  }

  /** A commit above the head makes the block canonical under its number and the last block, and, unless it
      was canonical already, the last header and the last fast block; any other commit leaves these keys
      alone. */
  lemma {:induction false} CommitHeads(kv: map<bytes, bytes>, head: nat, b: Block, key: bytes)
    requires IsHeadKey(key, b.number) && |b.hash| == 32 && b.number < TWO64
    ensures var r := ApplyOps(kv, AllOps(kv, head, b));
            var first := key == HeaderHashKey(b.number) || key == HEAD_BLOCK_KEY;
            if b.number > head && (first || CanonicalHash(kv, b.number) != b.hash) then key in r && r[key] == b.hash
            else (key in r <==> key in kv) && (key in kv ==> r[key] == kv[key])
  {
    var mid := ApplyOps(kv, ChainOps(b));
    HeadKeysApart(b.number);
    ChainMissesHeads(kv, b, key);
    ChainKeyAfter(kv, head, b, key);
    if b.number > head {
      ChainMissesHeads(kv, b, HeaderHashKey(b.number));
      assert HeadOps(mid, b) == HeadOps(kv, b);
      ApplyOpsConcat(kv, ChainOps(b), HeadOps(kv, b));
      HeadWrites(mid, b, key);
    } else {
      assert BlockOps(kv, head, b) == ChainOps(b);
    }
  }

  // ---- A node that is given blocks ----

  predicate Addressable(b: Block) {
    b.number < TWO64 && |b.hash| == 32
  }

  /** The node accepts the last block, after what the blocks before it left. */
  predicate TakesLast(sg: Signer, r: Replica, blocks: seq<Block>)
    requires blocks != []
  {
    var before, b := ReplicaAfter(sg, r, blocks[..|blocks| - 1]), blocks[|blocks| - 1];
    BlockVerdict(sg, before.outputs, HasBlock(before.kv, b.number, b.hash), b).Ok?
  }

  /** Block i was accepted, and no block of the same hash was accepted after it. */
  predicate LatestOfItsHash(sg: Signer, r: Replica, blocks: seq<Block>, i: nat)
    requires i < |blocks|
    decreases |blocks|
  {
    var k := |blocks| - 1;
    if i == k then TakesLast(sg, r, blocks)
    else
      && LatestOfItsHash(sg, r, blocks[..k], i)
      && (TakesLast(sg, r, blocks) ==> blocks[k].hash != blocks[i].hash)
  }

  lemma {:induction false} LastFiled(sg: Signer, r: Replica, b: Block)
    requires Addressable(b) && BlockVerdict(sg, r.outputs, HasBlock(r.kv, b.number, b.hash), b).Ok?
    ensures Files(ReplicaStep(sg, r, b).kv, b)
  {
    CommitFiles(r.kv, r.head, b);
  }

  lemma {:induction false} OthersFiled(sg: Signer, r: Replica, b: Block, c: Block)
    requires Addressable(b) && Addressable(c) && Files(r.kv, c)
    requires BlockVerdict(sg, r.outputs, HasBlock(r.kv, b.number, b.hash), b).Ok? ==> b.hash != c.hash
    ensures Files(ReplicaStep(sg, r, b).kv, c)
  {
    if BlockVerdict(sg, r.outputs, HasBlock(r.kv, b.number, b.hash), b).Ok? {
      CommitKeepsFile(r.kv, r.head, b, c);
    }
  }

  /** Every accepted block is kept until another accepted block has its hash. */
  lemma {:induction false} ReplicaFiles(sg: Signer, r: Replica, blocks: seq<Block>, i: nat)
    requires i < |blocks| && LatestOfItsHash(sg, r, blocks, i) && forall b :: b in blocks ==> Addressable(b)
    ensures Files(ReplicaAfter(sg, r, blocks).kv, blocks[i])
    decreases |blocks|
  {
    var k := |blocks| - 1;
    var before := ReplicaAfter(sg, r, blocks[..k]);
    if i == k {
      LastFiled(sg, before, blocks[k]);
    } else {
      ReplicaFiles(sg, r, blocks[..k], i);
      OthersFiled(sg, before, blocks[k], blocks[i]);
    }
  }

  // ---- An operator ----

  /** The blocks that a run of the ledger accepted. */
  function Taken(sg: Signer, start: Node, es: seq<Event>): (bs: seq<Block>) {
    if es == [] then []
    else
      var k := |es| - 1;
      var n := Run(sg, start, es[..k]);
      Taken(sg, start, es[..k]) + if !es[k].Restart? && Accepted(sg, n, es[k]) then [BlockOf(n, es[k])] else []
  }

  /** The hash of a block: it covers the header, with its time and parent, and through it the transactions. */
  type BlockHash = (nat, seq<Tx>, bytes) -> bytes

  /** Every block taken is kept; it has its own hash and a number that is in use. */
  ghost predicate Filed(kv: map<bytes, bytes>, H: BlockHash, bs: seq<Block>, used: set<nat>) {
    forall i :: 0 <= i < |bs| ==> FiledOne(kv, H, bs[i], used)
  }

  predicate FiledOne(kv: map<bytes, bytes>, H: BlockHash, b: Block, used: set<nat>) {
    Files(kv, b) && b.number in used && b.number < TWO63 && |b.hash| == 32 && b.hash == H(b.number, b.txs, b.header)
  }

  /** Committing a block under a new number keeps all others. */
  lemma {:induction false} FiledMore(kv: map<bytes, bytes>, head: nat, H: BlockHash, bs: seq<Block>, used: set<nat>,
                                     b: Block)
    requires Filed(kv, H, bs, used) && b.number !in used && b.number < TWO63 && |b.hash| == 32
    requires b.hash == H(b.number, b.txs, b.header)
    requires forall i :: 0 <= i < |bs| && bs[i].hash == b.hash ==> bs[i].number == b.number
    ensures Filed(ApplyOps(kv, AllOps(kv, head, b)), H, bs + [b], used + {b.number})
  {
    var r := ApplyOps(kv, AllOps(kv, head, b));
    CommitFiles(kv, head, b);
    forall i | 0 <= i < |bs|
      ensures FiledOne(r, H, bs[i], used + {b.number})
    {
      assert FiledOne(kv, H, bs[i], used);
      CommitKeepsFile(kv, head, b, bs[i]);
    }
  }
}
