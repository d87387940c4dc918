/**
 The root-chain contract itself: storage updated call by call, with the exit
 queue as a separate heap contract.  Every method is one public call and is
 proved to do what the state machine ExitGame says.  The result `false` is a
 revert.
 */
module RootChains {
  import opened Bytes
  import opened Protocol
  import opened Packing
  import opened Queues
  import opened ExitGame
  import Merkle
  import opened EvmMemory
  import opened Rlp
  import opened PlasmaRlp

  class RootChain {
    const K: Merkle.Hasher
    const self: Address
    const operator: Address
    var currentChildBlock: uint256
    var currentDepositBlock: nat
    var currentFeeExit: uint256
    var childChain: map<nat, ChildBlock>
    var exits: map<nat, Exit>
    const ethQueue: PriorityQueue
    var balance: nat
    /** The timestamp of the block in which the next call is executed. */
    var now: uint256
    /** The state of the state machine, history included. */
    ghost var model: State

    /** The storage holds what the state m says. */
    ghost predicate Holds(m: State)
      reads this, ethQueue
    {
      && m.operator == operator && m.now == now
      && m.childBlock == currentChildBlock && m.depositBlock == currentDepositBlock && m.feeExit == currentFeeExit
      && m.childChain == childChain && m.exits == exits && m.balance == balance
      && ethQueue.Valid() && ethQueue.owner == self
      && Ascending(m.queue) && ethQueue.Contents() == multiset(m.queue)
    }

    ghost predicate Valid()
      reads this, ethQueue
    {
      Holds(model)
    }

    constructor (K: Merkle.Hasher, self: Address, sender: Address, now: uint256)
      ensures Valid() && model == Initial(sender, now) && this.K == K && fresh(ethQueue)
    {
      this.K := K;
      this.self := self;
      operator := sender;
      currentChildBlock := CHILD_BLOCK_INTERVAL;
      currentDepositBlock := 1;
      currentFeeExit := 1;
      childChain := map[];
      exits := map[];
      balance := 0;
      this.now := now;
      model := Initial(sender, now);
      ethQueue := new PriorityQueue(self);
    }

    method AdvanceTime(seconds: nat)
      requires Valid() && now + seconds < TWO256
      modifies this
      ensures Valid() && model == Step(K, old(model), Tick(seconds))
    {
      now := now + seconds;
      model := model.(now := now);
    }

    method SubmitBlock(sender: Address, root: bytes) returns (ok: bool)
      requires Valid()
      modifies this
      ensures Valid() && model == Step(K, old(model), ExitGame.SubmitBlock(sender, root))
      ensures ok == Outcome(K, old(model), ExitGame.SubmitBlock(sender, root)).Some?
    {
      if sender != operator || currentChildBlock + CHILD_BLOCK_INTERVAL >= TWO256 {
        return false;
      }
      childChain := childChain[currentChildBlock := ChildBlock(root, now)];
      currentChildBlock := currentChildBlock + CHILD_BLOCK_INTERVAL;
      currentDepositBlock := 1;
      model := DoSubmitBlock(model, sender, root).value;
      return true;
    }

    method Deposit(sender: Address, value: uint256) returns (ok: bool)
      requires Valid()
      modifies this
      ensures Valid() && model == Step(K, old(model), ExitGame.Deposit(sender, value))
      ensures ok == Outcome(K, old(model), ExitGame.Deposit(sender, value)).Some?
    {
      if currentDepositBlock >= CHILD_BLOCK_INTERVAL {
        return false;
      }
      var root := K(DepositBytes(sender, 0, value));
      var depositBlock := currentChildBlock - CHILD_BLOCK_INTERVAL + currentDepositBlock;
      if currentChildBlock < CHILD_BLOCK_INTERVAL || depositBlock >= TWO256 {
        return false;
      }
      childChain := childChain[depositBlock := ChildBlock(root, now)];
      currentDepositBlock := currentDepositBlock + 1;
      balance := balance + value;
      model := DoDeposit(K, model, sender, value).value;
      return true;
    }

    /** The checks and the queue insertion shared by all three ways to start an exit. */
    method AddExitToQueue(pos: uint256, exitor: Address, token: Address, amount: uint256, created: uint256,
                          ghost fee: bool)
      returns (ok: bool)
      requires Valid()
      modifies this, ethQueue
      ensures Valid()
      ensures ok == AddExit(old(model), pos, exitor, token, amount, created, fee).Some?
      ensures model == if ok then AddExit(old(model), pos, exitor, token, amount, created, fee).value else old(model)
    {
      // only ETH has a queue
      if token != 0 {
        return false;
      }
      if !(amount > 0) || Lookup(exits, pos).amount != 0 {
        return false;
      }
      var exitableAt := Max(Plus(created, TWO_WEEKS), Plus(now, ONE_WEEK));
      PlaceBag(model.queue, Pack(exitableAt, pos));
      PlaceKeepsOrder(model.queue, Pack(exitableAt, pos));
      var inserted := ethQueue.Insert(self, exitableAt, pos);
      exits := exits[pos := Exit(exitor, token, amount)];
      model := AddExit(model, pos, exitor, token, amount, created, fee).value;
      return true;
    }

    method StartDepositExit(sender: Address, pos: uint256, token: Address, amount: uint256) returns (ok: bool)
      requires Valid()
      modifies this, ethQueue
      ensures Valid() && model == Step(K, old(model), ExitGame.StartDepositExit(sender, pos, token, amount))
      ensures ok == Outcome(K, old(model), ExitGame.StartDepositExit(sender, pos, token, amount)).Some?
    {
      var blknum := pos / BLOCK_UNIT;
      if blknum % CHILD_BLOCK_INTERVAL == 0 {
        return false;
      }
      var b := if blknum in childChain then childChain[blknum] else ChildBlock(Zeros(32), 0);
      if b.root != K(DepositBytes(sender, token, amount)) {
        return false;
      }
      ok := AddExitToQueue(pos, sender, token, amount, b.timestamp, false);
    }

    method StartFeeExit(sender: Address, token: Address, amount: uint256) returns (ok: bool)
      requires Valid()
      modifies this, ethQueue
      ensures Valid() && model == Step(K, old(model), ExitGame.StartFeeExit(sender, token, amount))
      ensures ok == Outcome(K, old(model), ExitGame.StartFeeExit(sender, token, amount)).Some?
    {
      if sender != operator || currentFeeExit + 1 >= TWO256 {
        return false;
      }
      ok := AddExitToQueue(currentFeeExit, sender, token, amount, Plus(now, 1), true);
      if ok {
        currentFeeExit := currentFeeExit + 1;
        model := model.(feeExit := currentFeeExit);
      }
    }

    /** The transaction is given as an item in memory; its signatures are good or not. */
    method StartExit(sender: Address, pos: uint256, m: Mem, item: RLPItem, sigsOk: bool, leaf: bytes, proof: bytes)
      returns (ok: bool)
      requires Valid()
      modifies this, ethQueue
      ensures Valid()
      ensures var r := PlasmaRlp.Exit(K, old(model), sender, pos, m, item, sigsOk, leaf, proof);
              ok == r.Some? && model == if ok then r.value else old(model)
    {
      var blknum := pos / BLOCK_UNIT;
      var txindex := TxIndex(pos);
      var oindex := pos % TX_UNIT;
      var exiting := CreateExitingTx(m, item, oindex);
      if exiting.None? || sender != exiting.value.exitor {
        return false;
      }
      var b := if blknum in childChain then childChain[blknum] else ChildBlock(Zeros(32), 0);
      if !sigsOk {
        return false;
      }
      var included := Merkle.CheckMembership(K, leaf, txindex, b.root, proof);
      if included != Some(true) {
        return false;
      }
      ok := AddExitToQueue(pos, exiting.value.exitor, exiting.value.token, exiting.value.amount, b.timestamp, false);
    }

    /** The challenging transaction is given as an item in memory, with the index of the fields that name
        the challenged position. */
    method ChallengeExit(cPos: uint256, oIndex: uint256, m: Mem, item: RLPItem, leaf: bytes, proof: bytes,
                         confirmer: Address) returns (ok: bool)
      requires Valid()
      modifies this
      ensures Valid()
      ensures var r := PlasmaRlp.Challenge(K, old(model), m, item, oIndex, cPos, leaf, proof, confirmer);
              ok == r.Some? && model == if ok then r.value else old(model)
    {
      var named := GetUtxoPos(m, item, oIndex);
      ok := ChallengeAt(named, cPos, leaf, proof, confirmer);
    }

    method ChallengeAt(named: Option<uint256>, cPos: uint256, leaf: bytes, proof: bytes, confirmer: Address)
      returns (ok: bool)
      requires Valid()
      modifies this
      ensures Valid()
      ensures var r := ChallengeNamed(K, old(model), named, cPos, leaf, proof, confirmer);
              ok == r.Some? && model == if ok then r.value else old(model)
    {
      if named.None? {
        return false;
      }
      var ePos := named.value;
      var txindex := TxIndex(cPos);
      var blknum := cPos / BLOCK_UNIT;
      var root := if blknum in childChain then childChain[blknum].root else Zeros(32);
      var owner := Lookup(exits, ePos).owner;
      if owner != confirmer {
        return false;
      }
      var included := Merkle.CheckMembership(K, leaf, txindex, root, proof);
      if included != Some(true) {
        return false;
      }
      exits := exits[ePos := Lookup(exits, ePos).(owner := 0)];
      model := DoChallenge(K, model, ePos, cPos, leaf, proof, confirmer).value;
      return true;
    }

    /** The next exit of a token: when it can be processed, and its position.  There is a queue for ether
        only; asking for another token, or when no exit is queued, reverts. */
    method GetNextExit(token: Address, ghost m: State) returns (r: Option<(nat, nat)>)
      requires ethQueue.Valid() && Ascending(m.queue) && ethQueue.Contents() == multiset(m.queue)
      ensures r == if token != 0 || m.queue == [] then None
                   else Some((Priority(m.queue[0]), Position(m.queue[0])))
    {
      if token != 0 {
        return None;
      }
      r := ethQueue.GetMin();
      if m.queue != [] {
        assert m.queue[0] in multiset(m.queue);
        ghost var e: nat :| LeastOf(e, ethQueue.Contents()) && r.value == (Priority(e), Position(e));
        LeastIsHead(m.queue, e);
      }
    }

    /** Take the head off the queue. */
    method DropMin(ghost m: State)
      requires ethQueue.Valid() && ethQueue.owner == self
      requires Ascending(m.queue) && ethQueue.Contents() == multiset(m.queue) && m.queue != []
      modifies ethQueue
      ensures ethQueue.Valid() && ethQueue.Contents() == multiset(m.queue[1..])
    {
      assert m.queue[0] in multiset(m.queue);
      ghost var before := ethQueue.Contents();
      var r := ethQueue.DelMin(self);
      ghost var e: nat :| LeastOf(e, before) && ethQueue.Contents() == before - multiset{e};
      LeastIsHead(m.queue, e);
    }

    /** Pay the exit at the head of the queue, remove it and clear its owner. */
    method PayHead(ghost m: State, utxoPos: nat)
      requires Holds(m) && m.queue != [] && utxoPos == Position(m.queue[0])
      requires Lookup(exits, utxoPos).amount <= balance
      modifies this`balance, this`exits, ethQueue
      ensures Holds(Pop(m))
    {
      var currentExit := Lookup(exits, utxoPos);
      balance := balance - currentExit.amount;
      DropMin(m);
      exits := exits[utxoPos := currentExit.(owner := 0)];
    }

    method FinalizeExits(token: Address, refuses: set<Address>) returns (ok: bool)
      requires Valid()
      modifies this, ethQueue
      ensures Valid() && model == Step(K, old(model), ExitGame.FinalizeExits(token, refuses))
      ensures ok == Outcome(K, old(model), ExitGame.FinalizeExits(token, refuses)).Some?
    {
      ghost var m := model;
      var next := GetNextExit(token, m);
      if next.None? {
        return false;
      }
      var exitableAt, utxoPos := next.value.0, next.value.1;
      // what a revert restores
      var savedExits, savedBalance := exits, balance;
      var savedList, savedSize := ethQueue.heapList, ethQueue.currentSize;
      while exitableAt < now
        invariant model == old(model) && now == old(now)
        invariant Holds(m) && m.queue != []
        invariant exitableAt == Priority(m.queue[0]) && utxoPos == Position(m.queue[0])
        invariant Drain(m, refuses) == Drain(model, refuses)
        invariant unchanged(`currentChildBlock, `currentDepositBlock, `currentFeeExit, `childChain)
        decreases |m.queue|
      {
        var currentExit := Lookup(exits, utxoPos);
        if currentExit.owner in refuses || currentExit.amount > balance {
          assert !Payable(m, refuses) && Drain(m, refuses) == None;
          exits, balance := savedExits, savedBalance;
          ethQueue.heapList, ethQueue.currentSize := savedList, savedSize;
          return false;
        }
        assert Payable(m, refuses);
        PayHead(m, utxoPos);
        m := Pop(m);
        BagSizeOf(m);
        if ethQueue.currentSize > 0 {
          next := GetNextExit(token, m);
          exitableAt, utxoPos := next.value.0, next.value.1;
        } else {
          model := m;
          return true;
        }
      }
      model := m;
      return true;
    }

    lemma {:induction false} BagSizeOf(m: State)
      requires ethQueue.Valid() && ethQueue.Contents() == multiset(m.queue)
      ensures |m.queue| == ethQueue.currentSize
    {
      assert |m.queue| == |multiset(m.queue)|;
      assert |ethQueue.heapList[1..ethQueue.currentSize + 1]| == ethQueue.currentSize;
    }
  }
}
