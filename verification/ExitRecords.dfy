/**
 Where everything on the contract's record comes from, over every run: which call
 wrote a block or started an exit, who made it and when; and exactly when the
 calls of the depositors and of the operator succeed.
 */
module ExitRecords {
  import opened Bytes
  import opened Protocol
  import opened Packing
  import opened Queues
  import opened ExitGame
  import opened ExitGameRuns
  import opened ExitGuarantees
  import Merkle

  // ---- Blocks ----

  /** The call a writes block n of state s with the given entry. */
  ghost predicate Writes(K: Merkle.Hasher, operator: Address, s: State, a: Action, n: nat, b: ChildBlock) {
    && n !in s.childChain && b.timestamp == s.now
    && if n % CHILD_BLOCK_INTERVAL == 0 then a == SubmitBlock(operator, b.root)
       else a.Deposit? && b.root == K(DepositBytes(a.sender, 0, a.value))
  }

  lemma {:induction false} NewBlock(K: Merkle.Hasher, s: State, a: Action, n: nat)
    requires Numbering(s.childBlock, s.depositBlock, s.childChain.Keys)
    requires n !in s.childChain && n in Step(K, s, a).childChain
    ensures Writes(K, s.operator, s, a, n, Step(K, s, a).childChain[n])
  {
    if a.FinalizeExits? {
      DrainKeepsBlocks(s, a.refuses);
    }
  }

  /** Every block was written by one call of the run, at the time of that call: child blocks by the
      operator, with the root it submitted, and deposit blocks by a deposit that the root commits to. */
  lemma {:induction false} BlockProvenance(K: Merkle.Hasher, operator: Address, now: uint256, acts: seq<Action>, n: nat)
    returns (i: nat)
    requires NeverZero(K) && Bounded(From(K, operator, now, acts)) && n in From(K, operator, now, acts).childChain
    ensures i < |acts|
    ensures Writes(K, operator, From(K, operator, now, acts[..i]), acts[i], n,
                   From(K, operator, now, acts).childChain[n])
    decreases |acts|
  {
    var k := |acts| - 1;
    var s := From(K, operator, now, acts[..k]);
    StepMonotone(K, s, acts[k]);
    RunInv(K, operator, now, acts[..k]);
    StepExtends(K, s, acts[k]);
    if n in s.childChain {
      i := BlockProvenance(K, operator, now, acts[..k], n);
      assert acts[..k][..i] == acts[..i];
    } else {
      i := k;
      NewBlock(K, s, acts[k], n);
      SameOperator(K, operator, now, acts[..k]);
    }
  }

  lemma {:induction false} SameOperator(K: Merkle.Hasher, operator: Address, now: uint256, acts: seq<Action>)
    requires NeverZero(K) && Bounded(From(K, operator, now, acts))
    ensures From(K, operator, now, acts).operator == operator
  {
    RunExtends(K, operator, now, acts, 0);
    assert acts[..0] == [];
  }

  // ---- Exits ----

  /** The call a starts the exit x at position p of state s: made by the exitor itself, for the recorded
      amount, dated by the block the position names, or a second ahead for a fee exit. */
  ghost predicate Starts(K: Merkle.Hasher, operator: Address, s: State, a: Action, p: nat, x: Started) {
    && p !in s.started && x.at == s.now && Outcome(K, s, a).Some?
    && (if x.fee then
          a == StartFeeExit(operator, 0, x.amount) && x.owner == operator && p == s.feeExit && x.created == s.now + 1
        else
          && p / BLOCK_UNIT in s.childChain && x.created == s.childChain[p / BLOCK_UNIT].timestamp
          && (a.StartDepositExit? || (a.StartExit? && a.exitor == x.owner && a.sigsOk))
          && a.sender == x.owner && a.pos == p && a.token == 0 && a.amount == x.amount)
  }

  lemma {:induction false} NewExit(K: Merkle.Hasher, s: State, a: Action, p: nat)
    requires NeverZero(K) && Bounded(s)
    ensures p !in s.started && p in Step(K, s, a).started ==>
              Starts(K, s.operator, s, a, p, Step(K, s, a).started[p])
  {
    if p !in s.started && p in Step(K, s, a).started {
      match a
      case StartExit(_, pos, _, _, _, _, leaf, proof) =>
        MemberBlockExists(K, s, leaf, pos, proof);
      case StartFeeExit(_, _, _) =>
        AddExact(s.now, 1);
      case FinalizeExits(_, refuses) =>
        DrainExtends(s, refuses);
      case _ =>
    }
  }

  /** Every exit on record was started by one call of the run, made by its exitor, at the recorded time. */
  lemma {:induction false} ExitProvenance(K: Merkle.Hasher, operator: Address, now: uint256, acts: seq<Action>, p: nat)
    returns (i: nat)
    requires NeverZero(K) && Bounded(From(K, operator, now, acts)) && p in From(K, operator, now, acts).started
    ensures i < |acts|
    ensures Starts(K, operator, From(K, operator, now, acts[..i]), acts[i], p, From(K, operator, now, acts).started[p])
    decreases |acts|
  {
    var k := |acts| - 1;
    var s := From(K, operator, now, acts[..k]);
    StepMonotone(K, s, acts[k]);
    RunInv(K, operator, now, acts[..k]);
    StepExtends(K, s, acts[k]);
    if p in s.started {
      i := ExitProvenance(K, operator, now, acts[..k], p);
      assert acts[..k][..i] == acts[..i];
    } else {
      i := k;
      NewExit(K, s, acts[k], p);
      SameOperator(K, operator, now, acts[..k]);
    }
  }

  // ---- When the other calls succeed ----

  /** Over every run: the operator, and nobody else, can always submit a block; anyone can deposit
      exactly while fewer than 999 deposits follow the last child block; and the operator, and nobody
      else, can start a fee exit of any positive amount of ether. */
  lemma {:induction false} CallsExact(K: Merkle.Hasher, operator: Address, now: uint256, acts: seq<Action>,
                                      sender: Address, root: bytes, value: uint256, token: Address)
    requires NeverZero(K) && Bounded(From(K, operator, now, acts)) && From(K, operator, now, acts).feeExit < BLOCK_UNIT
    ensures var s := From(K, operator, now, acts);
            && (Outcome(K, s, SubmitBlock(sender, root)).Some? <==> sender == operator)
            && (Outcome(K, s, Deposit(sender, value)).Some? <==>
                  exists n: nat :: s.childBlock - CHILD_BLOCK_INTERVAL < n < s.childBlock && n !in s.childChain)
            && (Outcome(K, s, StartFeeExit(sender, token, value)).Some? <==>
                  sender == operator && token == 0 && value > 0)
  {
    var s := From(K, operator, now, acts);
    RunInv(K, operator, now, acts);
    SameOperator(K, operator, now, acts);
    FeeExitsApart(K, operator, now, acts, value);
    DepositRoom(s.childBlock, s.depositBlock, s.childChain.Keys);
  }

  /** There is a free number in the current interval exactly while the deposit counter is below 1000. */
  lemma {:induction false} DepositRoom(childBlock: nat, depositBlock: nat, blocks: set<nat>)
    requires Numbering(childBlock, depositBlock, blocks)
    ensures depositBlock < CHILD_BLOCK_INTERVAL <==>
              exists n: nat :: childBlock - CHILD_BLOCK_INTERVAL < n < childBlock && n !in blocks
  {
    if depositBlock < CHILD_BLOCK_INTERVAL {
      var n: nat := childBlock - CHILD_BLOCK_INTERVAL + depositBlock;
      assert n !in blocks;
    }
  }
}
