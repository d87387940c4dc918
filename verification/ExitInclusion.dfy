/**
 Exits and challenges that rest on a Merkle proof, over every run.  Which calls the
 contract accepts depends on what the root of the named block is the hash of:
 against the root of a full tree of 16 levels it accepts exactly that tree's
 leaves; against the hash of anything but two words it accepts nothing.  Every
 exception yields two inputs with the same hash.
 */
module ExitInclusion {
  import opened Bytes
  import opened Protocol
  import opened Packing
  import opened ExitGame
  import opened ExitGameRuns
  import opened ExitGuarantees
  import opened Merkle
  import opened EvmMemory
  import opened Rlp
  import opened PlasmaRlp

  /** The contract checks proofs of 16 levels. */
  const BLOCK_LEAVES: nat := 65536

  lemma {:induction false} SixteenLevels()
    ensures Log(BLOCK_LEAVES) == 16 && IsPowerOfTwo(BLOCK_LEAVES)
  {
    assert Pow2(8) == 256;
    Pow2Add(8, 8);
    LogOfPow2(16);
  }

  /** The root is that of a full tree over the hashed transactions hs. */
  ghost predicate CommitsTo(K: Hasher, root: bytes, hs: seq<bytes>) {
    |hs| == BLOCK_LEAVES && All32(hs) && RootOf(K, hs) == root
  }

  /** The leaf a position names: its transaction index, of which the proof sees 16 bits. */
  function LeafOf(pos: nat): (j: nat)
    ensures j < BLOCK_LEAVES
    ensures TxIndex(pos) < BLOCK_LEAVES ==> j == TxIndex(pos)
  {
    TxIndex(pos) % BLOCK_LEAVES
  }

  /** The proof is the tree's own proof that its leaf named by pos is `leaf`. */
  ghost predicate Proves(K: Hasher, hs: seq<bytes>, pos: nat, leaf: bytes, proof: bytes)
    requires |hs| == BLOCK_LEAVES
  {
    && |proof| == PROOF_BYTES
    && leaf == hs[LeafOf(pos)]
    && Chunks(proof) == ProofOf(K, hs, LeafOf(pos))
  }

  /** The leaf and proof hold two different byte strings with the same hash. */
  ghost predicate Collides(K: Hasher, hs: seq<bytes>, pos: nat, leaf: bytes, proof: bytes)
    requires |hs| == BLOCK_LEAVES
  {
    var own, bits := ProofOf(K, hs, LeafOf(pos)), Bits(LeafOf(pos), 16);
    |own| == |Chunks(proof)| == 16 &&
    IsCollision(K, FirstDifference(K, leaf, bits, Chunks(proof), hs[LeafOf(pos)], bits, own))
  }

  lemma {:induction false} MemberExactly(K: Hasher, hs: seq<bytes>, pos: uint256, root: bytes, leaf: bytes,
                                         proof: bytes)
    requires Yields32(K) && CommitsTo(K, root, hs) && |leaf| == HASH_LEN
    ensures Proves(K, hs, pos, leaf, proof) ==> Member(K, leaf, pos, root, proof)
    ensures Member(K, leaf, pos, root, proof) ==>
              Proves(K, hs, pos, leaf, proof) || Collides(K, hs, pos, leaf, proof)
  {
    if |proof| == PROOF_BYTES {
      SixteenLevels();
      AcceptsExactly(K, hs, TxIndex(pos), leaf, Chunks(proof));
    }
  }

  /** The proof against the hash of x, which is not two words, holds two inputs with that hash. */
  predicate Forges(K: Hasher, x: bytes, pos: nat, leaf: bytes, proof: bytes) {
    |Chunks(proof)| == 16 && IsCollision(K, (x, TopInput(K, leaf, TxIndex(pos), Chunks(proof))))
  }

  /** No leaf is included under the hash of anything but two words, unless a collision is shown. */
  lemma {:induction false} MemberOfOddRoot(K: Hasher, x: bytes, pos: uint256, leaf: bytes, proof: bytes)
    requires Yields32(K) && |leaf| == HASH_LEN && |x| != 2 * HASH_LEN && Member(K, leaf, pos, K(x), proof)
    ensures Forges(K, x, pos, leaf, proof)
  {
    OddRootCollides(K, leaf, x, TxIndex(pos), Chunks(proof));
  }

  /** What membership under a root means, for the two kinds of roots: that of a full tree over hs, and
      the hash of some x that is not two words. */
  ghost predicate Includes(K: Hasher, root: bytes, hs: seq<bytes>, x: bytes, pos: uint256, leaf: bytes, proof: bytes) {
    && (CommitsTo(K, root, hs) ==>
          && (Proves(K, hs, pos, leaf, proof) ==> Member(K, leaf, pos, root, proof))
          && (Member(K, leaf, pos, root, proof) ==>
                Proves(K, hs, pos, leaf, proof) || Collides(K, hs, pos, leaf, proof)))
    && (root == K(x) && |x| != 2 * HASH_LEN && Member(K, leaf, pos, root, proof) ==> Forges(K, x, pos, leaf, proof))
  }

  lemma {:induction false} Inclusion(K: Hasher, root: bytes, hs: seq<bytes>, x: bytes, pos: uint256, leaf: bytes,
                                     proof: bytes)
    requires Yields32(K) && |leaf| == HASH_LEN
    ensures Includes(K, root, hs, x, pos, leaf, proof)
  {
    if CommitsTo(K, root, hs) {
      MemberExactly(K, hs, pos, root, leaf, proof);
    }
    if root == K(x) && |x| != 2 * HASH_LEN && Member(K, leaf, pos, root, proof) {
      MemberOfOddRoot(K, x, pos, leaf, proof);
    }
  }

  /** Over every run, whatever the root: an exit of a transaction output is accepted if and only if the
      exitor itself asks for it, the signatures are good, the amount is positive ether, the position was
      never started, and the transaction is included under the root of a block that was written. */
  lemma {:induction false} StartExitExact(K: Hasher, operator: Address, now: uint256, acts: seq<Action>,
                                          sender: Address, pos: uint256, exitor: Address, token: Address,
                                          amount: uint256, sigsOk: bool, leaf: bytes, proof: bytes,
                                          hs: seq<bytes>, x: bytes)
    requires Yields32(K) && NeverZero(K) && Bounded(From(K, operator, now, acts)) && |leaf| == HASH_LEN
    ensures var s := From(K, operator, now, acts);
            var root := BlockAt(s, pos / BLOCK_UNIT).root;
            var accepted := Outcome(K, s, StartExit(sender, pos, exitor, token, amount, sigsOk, leaf, proof)).Some?;
            && (accepted <==>
                  && sender == exitor && sigsOk && token == 0 && amount > 0 && pos !in s.started
                  && pos / BLOCK_UNIT in s.childChain && Member(K, leaf, pos, root, proof))
            && Includes(K, root, hs, x, pos, leaf, proof)
  {
    RunInv(K, operator, now, acts);
    var s := From(K, operator, now, acts);
    var root := BlockAt(s, pos / BLOCK_UNIT).root;
    Inclusion(K, root, hs, x, pos, leaf, proof);
    if Member(K, leaf, pos, root, proof) {
      MemberBlockExists(K, s, leaf, pos, proof);
    }
    assert Recorded(s.started, s.exits);
  }

  /** What a challenge that names the given position does to a live exit of the state s. */
  ghost predicate ChallengedBy(K: Hasher, s: State, pos: nat, named: Option<uint256>, cPos: uint256, leaf: bytes,
                               proof: bytes, confirmer: Address)
    requires pos in s.started
  {
    var hit := named.Some? && named.value == pos;
    var r := ChallengeNamed(K, s, named, cPos, leaf, proof, confirmer);
    && (hit ==>
          (r.Some? <==>
             && confirmer == s.started[pos].owner
             && Member(K, leaf, cPos, BlockAt(s, cPos / BLOCK_UNIT).root, proof)))
    && (r.Some? ==>
          && (if hit then r.value.challenged == s.challenged + {pos} else pos !in r.value.challenged)
          && Due(pos, r.value.started, r.value.challenged) == if hit then 0 else Due(pos, s.started, s.challenged))
  }

  lemma {:induction false} ChallengeLive(K: Hasher, s: State, i: nat, named: Option<uint256>, cPos: uint256,
                                         leaf: bytes, proof: bytes, confirmer: Address)
    requires Lined(Line(s), s.started) && Recorded(s.started, s.exits)
    requires Owed(s.queue, s.exits, s.started, s.challenged)
    requires i < |s.queue| && Position(s.queue[i]) !in s.challenged
    ensures var pos := Position(s.queue[i]);
            pos in s.started && ChallengedBy(K, s, pos, named, cPos, leaf, proof, confirmer)
  {
    EntryIsLive(s, i);
    assert s.queue[i] in s.queue;
  }

  /** Over every run, whatever the bytes and the root: a queued exit not yet challenged is challenged by
      a call exactly if the bytes name its position at the given index, the spend is confirmed by its
      exitor and the transaction is included under the root of the named block; and then the exit pays
      nobody.  A call whose bytes name another position leaves the exit due as it was. */
  lemma {:induction false} ChallengeExact(K: Hasher, operator: Address, now: uint256, acts: seq<Action>, i: nat,
                                          m: Mem, item: RLPItem, oIndex: uint256, cPos: uint256, leaf: bytes,
                                          proof: bytes, confirmer: Address, hs: seq<bytes>, x: bytes)
    requires Yields32(K) && NeverZero(K) && Bounded(From(K, operator, now, acts)) && |leaf| == HASH_LEN
    requires var s := From(K, operator, now, acts);
             i < |s.queue| && Position(s.queue[i]) !in s.challenged
    ensures var s := From(K, operator, now, acts);
            var pos := Position(s.queue[i]);
            && pos in s.started
            && ChallengedBy(K, s, pos, GetUtxoPos(m, item, oIndex), cPos, leaf, proof, confirmer)
            && Includes(K, BlockAt(s, cPos / BLOCK_UNIT).root, hs, x, cPos, leaf, proof)
  {
    RunInv(K, operator, now, acts);
    var s := From(K, operator, now, acts);
    Inclusion(K, BlockAt(s, cPos / BLOCK_UNIT).root, hs, x, cPos, leaf, proof);
    ChallengeLive(K, s, i, GetUtxoPos(m, item, oIndex), cPos, leaf, proof, confirmer);
  }

  // ---- Deposit blocks ----

  /** The bytes the root of deposit block n commits to. */
  function DepositPreimage(s: State, n: nat): (x: bytes)
    requires n in s.deposits
    ensures |x| == 72
  {
    DepositBytes(s.deposits[n].depositor, 0, s.deposits[n].amount)
  }

  /** Over every run: a deposit block is exited only through a deposit exit; a transaction exit at one
      of its positions exhibits a collision with the deposit itself. */
  lemma {:induction false} DepositBlockExits(K: Hasher, operator: Address, now: uint256, acts: seq<Action>, a: Action)
    requires Yields32(K) && NeverZero(K) && Bounded(From(K, operator, now, acts))
    requires a.StartExit? && |a.leaf| == HASH_LEN && (a.pos / BLOCK_UNIT) % CHILD_BLOCK_INTERVAL != 0
    requires Outcome(K, From(K, operator, now, acts), a).Some?
    ensures var s, n := From(K, operator, now, acts), a.pos / BLOCK_UNIT;
            n in s.deposits && Forges(K, DepositPreimage(s, n), a.pos, a.leaf, a.proof)
  {
    var s, n := From(K, operator, now, acts), a.pos / BLOCK_UNIT;
    RunCommitted(K, operator, now, acts);
    MemberBlockExists(K, s, a.leaf, a.pos, a.proof);
    MemberOfOddRoot(K, DepositPreimage(s, n), a.pos, a.leaf, a.proof);
  }
}
