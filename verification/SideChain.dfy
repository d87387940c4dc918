/**
 The two chains together: the root-chain contract in the hands of everybody, and an
 operator that hears of deposits from it and submits the blocks it seals to it.
 What the contract took in covers what the ledger holds, and every deposit on the
 ledger can be exited on the root chain by its owner.
 */
module SideChain {
  import opened Bytes
  import opened Protocol
  import opened Ledger
  import opened LedgerRuns
  import opened Store
  import opened Nodes
  import opened NodeRuns
  import opened ChildNumbers
  import opened OperatorLives
  import opened OperatorRuns
  import opened Archive
  import ExitGame
  import ExitGameRuns
  import ExitGuarantees
  import Merkle
  import Packing

  // ---- The joint state machine ----

  /** The contract, the life of the operator, the roots on their way to the contract, and the calls made on
      the contract so far. */
  datatype World = World(chain: ExitGame.State, life: Life, flight: seq<bytes>, acts: seq<ExitGame.Action>)

  /** A call on the contract by anyone, something that happens at the operator, with the root that a
      sealed block is sent with, or the arrival of the k-th root on its way. */
  datatype Move = OnChain(a: ExitGame.Action) | AtOperator(call: Call, root: bytes) | Arrival(k: nat)

  /** The operator submits only what it seals, and hears of deposits only from the contract. */
  predicate Proper(operator: Address, m: Move) {
    match m
    case OnChain(a) => !(a.SubmitBlock? && a.sender == operator)
    case AtOperator(call, _) => !call.ContractDeposit? && !call.ArriveCall? && Encodable(call)
    case Arrival(_) => true
  }

  ghost function OnContract(K: Merkle.Hasher, w: World, a: ExitGame.Action): (r: World) {
    w.(chain := ExitGame.Step(K, w.chain, a), acts := w.acts + [a])
  }

  /** The move as the operator sees it: it hears of a deposit, and of nothing else on the contract. */
  function CallOf(m: Move): (call: Option<Call>) {
    match m
    case OnChain(a) => if a.Deposit? then Some(ContractDeposit(a.sender, a.value)) else None
    case AtOperator(call, _) => Some(call)
    case Arrival(k) => Some(ArriveCall(k))
  }

  ghost function LifeMove(sg: Signer, H: BlockHash, start: Node, l: Life, call: Option<Call>): (r: Life) {
    if call.None? then l else LifeStep(sg, H, start, l, call.value)
  }

  function Except(s: seq<bytes>, k: nat): (r: seq<bytes>)
    requires k < |s|
  {
    s[..k] + s[k + 1..]
  }

  /** The next world, given the operator's life after the move: a block that is sent puts its root on the
      way, and a root that arrives is submitted to the contract. */
  ghost function Moved(K: Merkle.Hasher, operator: Address, w: World, m: Move, life: Life): (r: World) {
    match m
    case OnChain(a) => OnContract(K, w, a).(life := life)
    case AtOperator(_, root) =>
      w.(life := life, flight := if life.c.flying > w.life.c.flying then w.flight + [root] else w.flight)
    case Arrival(k) =>
      if k >= |w.flight| then w.(life := life)
      else
        OnContract(K, w, ExitGame.SubmitBlock(operator, w.flight[k])).(life := life, flight := Except(w.flight, k))
  }

  ghost function WorldStep(K: Merkle.Hasher, sg: Signer, H: BlockHash, start: Node, operator: Address, w: World,
                           m: Move): (r: World)
  {
    Moved(K, operator, w, m, LifeMove(sg, H, start, w.life, CallOf(m)))
  }

  ghost function Genesis(operator: Address, now: uint256): (w: World) {
    World(ExitGame.Initial(operator, now), Newborn(), [], [])
  }

  ghost function WorldAt(K: Merkle.Hasher, sg: Signer, H: BlockHash, start: Node, operator: Address, now: uint256,
                         moves: seq<Move>, i: nat): (w: World)
    requires i <= |moves|
  {
    if i == 0 then Genesis(operator, now)
    else WorldStep(K, sg, H, start, operator, WorldAt(K, sg, H, start, operator, now, moves, i - 1), moves[i - 1])
  }

  // ---- What the two chains know of each other ----

  /** The contract shows the operator its own counters and its own deposits. */
  ghost predicate Shown(s: ExitGame.State, c: Contract) {
    && c.next == s.childBlock && c.depositBlock == s.depositBlock && c.total == s.deposited
    && (forall i :: 0 <= i < |c.pending| ==>
          IsDeposit(s, c.pending[i].number, c.pending[i].depositor, c.pending[i].amount))
    && (forall d :: d in s.deposits ==> d in s.childChain && d < Frontier(c))
  }

  predicate IsDeposit(s: ExitGame.State, number: nat, depositor: Address, amount: nat) {
    number in s.deposits && s.deposits[number].depositor == depositor && s.deposits[number].amount == amount
  }

  /** Every output of a deposit block is the deposit made under that number, or the empty second output. */
  ghost predicate Funded(s: ExitGame.State, created: seq<Output>) {
    forall i :: 0 <= i < |created| && created[i].id.blockNum % CHILD_BLOCK_INTERVAL != 0 ==>
      FundedOne(s, created[i])
  }

  predicate FundedOne(s: ExitGame.State, o: Output) {
    o.id.blockNum in s.deposits &&
    if o.id.outIndex == 0 then IsDeposit(s, o.id.blockNum, o.coin.owner, o.coin.amount) else o.coin.amount == 0
  }

  ghost predicate Joined(K: Merkle.Hasher, sg: Signer, start: Node, operator: Address, now: uint256, w: World) {
    && Sound(sg, start, w.life) && Shown(w.chain, w.life.c)
    && Funded(w.chain, Run(sg, start, w.life.es).created)
    && |w.flight| == w.life.c.flying
    && w.chain == ExitGameRuns.From(K, operator, now, w.acts) && w.chain.operator == operator
  }

  // ---- The contract's calls ----

  /** Every call but a deposit or a submission leaves counters, blocks and deposits alone. */
  lemma {:induction false} OtherCalls(K: Merkle.Hasher, s: ExitGame.State, a: ExitGame.Action)
    requires !a.Deposit? && !(a.SubmitBlock? && a.sender == s.operator)
    ensures var t := ExitGame.Step(K, s, a);
            && t.childBlock == s.childBlock && t.depositBlock == s.depositBlock && t.deposited == s.deposited
            && t.deposits == s.deposits && t.childChain == s.childChain && t.operator == s.operator
  {
    if a.FinalizeExits? && ExitGame.Outcome(K, s, a).Some? {
      DrainKeepsCounters(s, a.refuses);
    }
  }

  lemma {:induction false} DrainKeepsCounters(s: ExitGame.State, refuses: set<Address>)
    requires ExitGame.Drain(s, refuses).Some?
    ensures var t := ExitGame.Drain(s, refuses).value;
            && t.childBlock == s.childBlock && t.depositBlock == s.depositBlock && t.deposited == s.deposited
            && t.deposits == s.deposits && t.childChain == s.childChain && t.operator == s.operator
    decreases |s.queue|
  {
    if s.queue != [] && Packing.Priority(s.queue[0]) < s.now {
      ExitGameRuns.DrainStep(s, refuses);
      DrainKeepsCounters(ExitGame.Pop(s), refuses);
    }
  }

  /** A deposit on the contract is a deposit as the operator sees it. */
  lemma {:induction false} DepositShown(K: Merkle.Hasher, s: ExitGame.State, c: Contract, sender: Address,
                                        value: uint256)
    requires Shown(s, c) && CHILD_BLOCK_INTERVAL <= c.next < TWO64
    ensures var t := ExitGame.Step(K, s, ExitGame.Deposit(sender, value));
            && Shown(t, MakeDeposit(c, sender, value)) && t.operator == s.operator
            && (forall d :: d in s.deposits ==> d in t.deposits && t.deposits[d] == s.deposits[d])
  {
    var r := MakeDeposit(c, sender, value);
    if c.depositBlock < CHILD_BLOCK_INTERVAL {
      assert r.pending[..|c.pending|] == c.pending;
    }
  }

  /** A submission on the contract is a submission as the operator sees it. */
  lemma {:induction false} SubmitShown(K: Merkle.Hasher, s: ExitGame.State, c: Contract, root: bytes)
    requires Shown(s, c) && CHILD_BLOCK_INTERVAL <= c.next < TWO64 && c.depositBlock <= CHILD_BLOCK_INTERVAL
    requires c.flying > 0
    ensures var t := ExitGame.Step(K, s, ExitGame.SubmitBlock(s.operator, root));
            Shown(t, Submit(c)) && t.deposits == s.deposits && t.operator == s.operator
  {
  }

  lemma {:induction false} FundedKept(s: ExitGame.State, t: ExitGame.State, created: seq<Output>)
    requires Funded(s, created)
    requires forall d :: d in s.deposits ==> d in t.deposits && t.deposits[d] == s.deposits[d]
    ensures Funded(t, created)
  {
  }

  // ---- Every move keeps the chains joined ----

  /** The contract's next child number is at most one interval above the operator's counter. */
  lemma {:induction false} NextBelow(sg: Signer, start: Node, l: Life)
    requires Sound(sg, start, l)
    ensures CHILD_BLOCK_INTERVAL <= l.c.next <= l.n.child + CHILD_BLOCK_INTERVAL
    ensures l.c.depositBlock <= CHILD_BLOCK_INTERVAL
  {
  }

  lemma {:induction false} OnChainJoined(K: Merkle.Hasher, sg: Signer, H: BlockHash, start: Node, operator: Address,
                                         now: uint256, w: World, m: Move)
    requires Joined(K, sg, start, operator, now, w) && m.OnChain? && Proper(operator, m)
    requires Numerable(w.life)
    ensures Joined(K, sg, start, operator, now, WorldStep(K, sg, H, start, operator, w, m))
  {
    var r := WorldStep(K, sg, H, start, operator, w, m);
    assert (w.acts + [m.a])[..|w.acts|] == w.acts;
    NextBelow(sg, start, w.life);
    if m.a.Deposit? {
      LifeStepSound(sg, H, start, w.life, ContractDeposit(m.a.sender, m.a.value));
      DepositShown(K, w.chain, w.life.c, m.a.sender, m.a.value);
      FundedKept(w.chain, r.chain, Run(sg, start, w.life.es).created);
    } else {
      OtherCalls(K, w.chain, m.a);
    }
  }

  /** The outputs of a child block need no deposit of their own. */
  lemma {:induction false} FundedSeal(s: ExitGame.State, created: seq<Output>, number: nat, txs: seq<Tx>)
    requires Funded(s, created) && number < TWO64 && number % CHILD_BLOCK_INTERVAL == 0 && |txs| <= TWO32
    ensures Funded(s, created + Made(number, txs))
  {
    var more := Made(number, txs);
    MadeMeaning(number, txs);
    forall i | 0 <= i < |more|
      ensures more[i].id.blockNum == number
    {
      assert OutputIds(more)[i] in OutputIds(more);
    }
  }

  lemma {:induction false} FundedDelivery(s: ExitGame.State, created: seq<Output>, d: DepositNote)
    requires Funded(s, created) && IsDeposit(s, d.number, d.depositor, d.amount) && d.number < TWO64
    ensures Funded(s, created + Made(d.number, [DepositTx(d.depositor, d.amount)]))
  {
    var tx := DepositTx(d.depositor, d.amount);
    assert [tx][..0] == [];
    assert Made(d.number, []) == [];
  }

  /** A sound life whose outputs are funded is joined to the contract as it was. */
  lemma {:induction false} MovedJoined(K: Merkle.Hasher, sg: Signer, start: Node, operator: Address, now: uint256,
                                       w: World, m: Move, life: Life)
    requires Joined(K, sg, start, operator, now, w) && m.AtOperator?
    requires Sound(sg, start, life) && Funded(w.chain, Run(sg, start, life.es).created)
    requires Shown(w.chain, life.c) && (life.c.flying == w.life.c.flying || life.c == Send(w.life.c))
    ensures Joined(K, sg, start, operator, now, Moved(K, operator, w, m, life))
  {
  }

  /** A submission that arrives moves the contract on, and the operator's view of it. */
  lemma {:induction false} ArrivalJoined(K: Merkle.Hasher, sg: Signer, H: BlockHash, start: Node, operator: Address,
                                         now: uint256, w: World, m: Move)
    requires Joined(K, sg, start, operator, now, w) && m.Arrival? && Numerable(w.life)
    ensures Joined(K, sg, start, operator, now, WorldStep(K, sg, H, start, operator, w, m))
  {
    ArrivalSound(sg, H, start, w.life, m.k);
    NextBelow(sg, start, w.life);
    if m.k < |w.flight| {
      var a := ExitGame.SubmitBlock(operator, w.flight[m.k]);
      SubmitShown(K, w.chain, w.life.c, w.flight[m.k]);
      assert (w.acts + [a])[..|w.acts|] == w.acts;
      FundedKept(w.chain, ExitGame.Step(K, w.chain, a), Run(sg, start, w.life.es).created);
    }
  }

  lemma {:induction false} SealMakes(sg: Signer, node: Node, e: Event)
    requires e.Seal?
    ensures var made := Step(sg, node, e).created;
            made == node.created || made == node.created + Made(node.child + CHILD_BLOCK_INTERVAL, e.txs)
  {
  }

  lemma {:induction false} SealedFunded(sg: Signer, s: ExitGame.State, node: Node, e: Event)
    requires e.Seal? && |e.txs| <= TWO32 && Funded(s, node.created)
    requires node.child % CHILD_BLOCK_INTERVAL == 0 && node.child + CHILD_BLOCK_INTERVAL < TWO64
    ensures Funded(s, Step(sg, node, e).created)
  {
    SealMakes(sg, node, e);
    FundedSeal(s, node.created, node.child + CHILD_BLOCK_INTERVAL, e.txs);
  }

  lemma {:induction false} SealFunded(sg: Signer, H: BlockHash, start: Node, s: ExitGame.State, l: Life, call: Call)
    requires Run(sg, start, l.es).child == l.n.child && l.n.child % CHILD_BLOCK_INTERVAL == 0
    requires Funded(s, Run(sg, start, l.es).created)
    requires call.SealCall? && Encodable(call) && Numerable(l)
    ensures var r := LifeStep(sg, H, start, l, call);
            Funded(s, Run(sg, start, r.es).created) && (r.c == l.c || r.c == Send(l.c))
  {
    var node, e := Run(sg, start, l.es), SealEvent(H, l.n, call);
    OperatorRuns.RunSnoc(sg, start, l.es, e);
    SealedFunded(sg, s, node, e);
    assert LifeStep(sg, H, start, l, call).es == l.es + [e];
  }

  lemma {:induction false} DeliverFunded(sg: Signer, H: BlockHash, start: Node, s: ExitGame.State, l: Life, call: Call)
    requires Sound(sg, start, l) && Shown(s, l.c) && Funded(s, Run(sg, start, l.es).created)
    requires call.Deliver? && Numerable(l)
    ensures var r := LifeStep(sg, H, start, l, call);
            Funded(s, Run(sg, start, r.es).created) && Shown(s, r.c) && r.c.flying == l.c.flying
  {
    if call.k < |l.c.pending| {
      var node, e := Run(sg, start, l.es), DeliveredEvent(H, l.c.pending[call.k], call);
      EventNumber(node, Missed(sg, start, l.es), l.n, l.c, call.k);
      OperatorRuns.RunSnoc(sg, start, l.es, e);
      FundedDelivery(s, node.created, l.c.pending[call.k]);
      ShownWithout(s, l.c, call.k);
    }
  }

  lemma {:induction false} ShownWithout(s: ExitGame.State, c: Contract, k: nat)
    requires Shown(s, c) && k < |c.pending|
    ensures Shown(s, c.(pending := Without(c.pending, k)))
  {
  }

  lemma {:induction false} RestartFunded(sg: Signer, H: BlockHash, start: Node, s: ExitGame.State, l: Life)
    requires Funded(s, Run(sg, start, l.es).created)
    ensures var r := LifeStep(sg, H, start, l, RestartCall);
            Funded(s, Run(sg, start, r.es).created) && r.c == l.c
  {
    OperatorRuns.RunSnoc(sg, start, l.es, Restart(NumberStep(l.n, Restarted).child));
  }

  /** What the operator lives keeps its outputs funded; it may have sent a block, and sees the contract as it is. */
  lemma {:induction false} LifeFunded(sg: Signer, H: BlockHash, start: Node, s: ExitGame.State, l: Life, call: Call,
                                      r: Life)
    requires Sound(sg, start, l) && Shown(s, l.c) && Funded(s, Run(sg, start, l.es).created)
    requires !call.ContractDeposit? && !call.ArriveCall? && Encodable(call) && Numerable(l)
    requires r == LifeStep(sg, H, start, l, call)
    ensures Funded(s, Run(sg, start, r.es).created)
    ensures Shown(s, r.c) && (r.c.flying == l.c.flying || r.c == Send(l.c))
  {
    match call
    case SealCall(_, _, _, _, _, _) => SealFunded(sg, H, start, s, l, call);
    case Deliver(_, _, _, _) => DeliverFunded(sg, H, start, s, l, call);
    case RestartCall => RestartFunded(sg, H, start, s, l);
  }

  lemma {:induction false} AtOperatorJoined(K: Merkle.Hasher, sg: Signer, H: BlockHash, start: Node, operator: Address,
                                            now: uint256, w: World, m: Move, life: Life)
    requires Joined(K, sg, start, operator, now, w) && m.AtOperator? && Proper(operator, m)
    requires Numerable(w.life) && life == LifeStep(sg, H, start, w.life, m.call)
    ensures Joined(K, sg, start, operator, now, Moved(K, operator, w, m, life))
  {
    LifeStepSound(sg, H, start, w.life, m.call);
    LifeFunded(sg, H, start, w.chain, w.life, m.call, life);
    MovedJoined(K, sg, start, operator, now, w, m, life);
  }

  lemma {:induction false} MoveJoined(K: Merkle.Hasher, sg: Signer, H: BlockHash, start: Node, operator: Address,
                                      now: uint256, w: World, m: Move)
    requires Joined(K, sg, start, operator, now, w) && Proper(operator, m)
    requires Numerable(w.life)
    ensures Joined(K, sg, start, operator, now, WorldStep(K, sg, H, start, operator, w, m))
  {
    match m
    case OnChain(_) => OnChainJoined(K, sg, H, start, operator, now, w, m);
    case AtOperator(call, _) =>
      AtOperatorJoined(K, sg, H, start, operator, now, w, m, LifeStep(sg, H, start, w.life, call));
    case Arrival(_) => ArrivalJoined(K, sg, H, start, operator, now, w, m);
  }

  /** The moves are proper, and the child numbers are not used up at any time. */
  ghost predicate ProperMoves(K: Merkle.Hasher, sg: Signer, H: BlockHash, start: Node, operator: Address, now: uint256,
                              moves: seq<Move>)
  {
    forall i {:trigger ProperMove(K, sg, H, start, operator, now, moves, i)} :: 0 <= i < |moves| ==>
      ProperMove(K, sg, H, start, operator, now, moves, i)
  }

  ghost predicate ProperMove(K: Merkle.Hasher, sg: Signer, H: BlockHash, start: Node, operator: Address, now: uint256,
                             moves: seq<Move>, i: nat)
    requires i < |moves|
  {
    Proper(operator, moves[i]) && Numerable(WorldAt(K, sg, H, start, operator, now, moves, i).life)
  }

  lemma {:induction false} GenesisJoined(K: Merkle.Hasher, sg: Signer, known: set<(nat, bytes)>, operator: Address,
                                         now: uint256)
    ensures Joined(K, sg, Fresh(0, known), operator, now, Genesis(operator, now))
  {
    NewbornSound(sg, known);
  }

  /** After every sequence of moves the chains are joined. */
  lemma {:induction false} WorldJoined(K: Merkle.Hasher, sg: Signer, H: BlockHash, start: Node, operator: Address,
                                       now: uint256, moves: seq<Move>, i: nat)
    requires Joined(K, sg, start, operator, now, Genesis(operator, now))
    requires ProperMoves(K, sg, H, start, operator, now, moves) && i <= |moves|
    ensures Joined(K, sg, start, operator, now, WorldAt(K, sg, H, start, operator, now, moves, i))
  {
    if i > 0 {
      var w := WorldAt(K, sg, H, start, operator, now, moves, i - 1);
      WorldJoined(K, sg, H, start, operator, now, moves, i - 1);
      assert ProperMove(K, sg, H, start, operator, now, moves, i - 1);
      MoveJoined(K, sg, H, start, operator, now, w, moves[i - 1]);
    }
  }

  // ---- What holds of both chains ----

  /** Over every run of both chains: what is unspent on the ledger, all fees, the deposits still to be
      delivered and those missed add up to what the contract holds plus what it has paid out. */
  lemma {:induction false} LedgerBacked(K: Merkle.Hasher, sg: Signer, H: BlockHash, known: set<(nat, bytes)>,
                                        operator: Address, now: uint256, moves: seq<Move>)
    requires ExitGameRuns.NeverZero(K) && ProperMoves(K, sg, H, Fresh(0, known), operator, now, moves)
    requires ExitGameRuns.Bounded(WorldAt(K, sg, H, Fresh(0, known), operator, now, moves, |moves|).chain)
    ensures var w := WorldAt(K, sg, H, Fresh(0, known), operator, now, moves, |moves|);
            var node := Run(sg, Fresh(0, known), w.life.es);
            Sum(node.utxos) + node.fees + PendingTotal(w.life.c.pending) + Missed(sg, Fresh(0, known), w.life.es)
            == w.chain.balance + ExitGameRuns.Paid(w.chain.finalised)
  {
    var start := Fresh(0, known);
    var w := WorldAt(K, sg, H, start, operator, now, moves, |moves|);
    GenesisJoined(K, sg, known, operator, now);
    WorldJoined(K, sg, H, start, operator, now, moves, |moves|);
    NewbornSound(sg, known);
    LedgerRuns.RunInv(sg, start, w.life.es);
    ExitGuarantees.Solvency(K, operator, now, w.acts);
  }

  /** Over every run of both chains: a deposit as it was made on the ledger was made on the contract, and
      its owner can exit it there, for exactly its amount, as long as its position was not started. */
  lemma {:induction false} DepositsExitable(K: Merkle.Hasher, sg: Signer, H: BlockHash, known: set<(nat, bytes)>,
                                            operator: Address, now: uint256, moves: seq<Move>, o: Output)
    requires ExitGameRuns.NeverZero(K) && ProperMoves(K, sg, H, Fresh(0, known), operator, now, moves)
    requires var w := WorldAt(K, sg, H, Fresh(0, known), operator, now, moves, |moves|);
             && ExitGameRuns.Bounded(w.chain) && o in Run(sg, Fresh(0, known), w.life.es).created
    requires o.id.blockNum % CHILD_BLOCK_INTERVAL != 0 && o.coin.amount > 0
    ensures var s := WorldAt(K, sg, H, Fresh(0, known), operator, now, moves, |moves|).chain;
            var pos := o.id.blockNum * ExitGame.BLOCK_UNIT;
            && IsDeposit(s, o.id.blockNum, o.coin.owner, o.coin.amount)
            && (ExitGame.Outcome(K, s, ExitGame.StartDepositExit(o.coin.owner, pos, 0, o.coin.amount)).Some? <==>
                  pos !in s.started)
  {
    var start := Fresh(0, known);
    var w := WorldAt(K, sg, H, start, operator, now, moves, |moves|);
    GenesisJoined(K, sg, known, operator, now);
    WorldJoined(K, sg, H, start, operator, now, moves, |moves|);
    var created := Run(sg, start, w.life.es).created;
    var i :| 0 <= i < |created| && created[i] == o;
    assert FundedOne(w.chain, o);
    FirstPosition(o.id.blockNum);
    ExitGuarantees.DepositExitExact(K, operator, now, w.acts, o.coin.owner, o.id.blockNum * ExitGame.BLOCK_UNIT, 0,
                                    o.coin.amount);
  }

  lemma {:induction false} FirstPosition(n: uint64)
    ensures n * ExitGame.BLOCK_UNIT < TWO256 && n * ExitGame.BLOCK_UNIT / ExitGame.BLOCK_UNIT == n
  {
  }

  // ---- On the store ----

  /** One move, as far as it reaches the operator. */
  method ServeMove(op0: Operator, H: BlockHash, call: Option<Call>, c0: Contract, ghost start: Node, ghost l: Life)
    returns (op: Operator, c: Contract)
    requires NamesNumbers(H) && Lives(op0, H, start, l) && c0 == l.c
    requires (call.Some? ==> Encodable(call.value)) && Numerable(l)
    modifies op0, op0.chain, op0.chain.db, op0.chain.db.defaultBatch
    ensures op.chain.db == op0.chain.db && op.chain.sg == op0.chain.sg
    ensures (op == op0 || fresh(op)) && (op.chain == op0.chain || fresh(op.chain))
    ensures Lives(op, H, start, LifeMove(op.chain.sg, H, start, l, call))
    ensures c == LifeMove(op.chain.sg, H, start, l, call).c
  {
    if call.None? {
      return op0, c0;
    }
    op, c := LiveCall(op0, H, call.value, c0, start, l);
  }

  /** The world after a move, with the life it comes from. */
  lemma {:induction false} NextWorld(K: Merkle.Hasher, sg: Signer, H: BlockHash, start: Node, operator: Address,
                                     now: uint256, moves: seq<Move>, i: nat, life: Life) returns (w: World)
    requires i < |moves|
    requires life == LifeMove(sg, H, start, WorldAt(K, sg, H, start, operator, now, moves, i).life, CallOf(moves[i]))
    ensures w == WorldAt(K, sg, H, start, operator, now, moves, i + 1) && w.life == life
  {
    w := WorldAt(K, sg, H, start, operator, now, moves, i + 1);
  }

  /** The next move of a run. */
  method ServeNext(op0: Operator, H: BlockHash, moves: seq<Move>, i: nat, c0: Contract, ghost K: Merkle.Hasher,
                   ghost operator: Address, ghost now: uint256, ghost known: set<(nat, bytes)>, ghost w: World)
    returns (op: Operator, c: Contract, ghost r: World)
    requires NamesNumbers(H) && i < |moves|
    requires ProperMoves(K, op0.chain.sg, H, Fresh(0, known), operator, now, moves)
    requires w == WorldAt(K, op0.chain.sg, H, Fresh(0, known), operator, now, moves, i)
    requires Lives(op0, H, Fresh(0, known), w.life) && c0 == w.life.c
    modifies op0, op0.chain, op0.chain.db, op0.chain.db.defaultBatch
    ensures op.chain.db == op0.chain.db && op.chain.sg == op0.chain.sg
    ensures (op == op0 || fresh(op)) && (op.chain == op0.chain || fresh(op.chain))
    ensures r == WorldAt(K, op.chain.sg, H, Fresh(0, known), operator, now, moves, i + 1)
    ensures Lives(op, H, Fresh(0, known), r.life) && c == r.life.c
  {
    assert ProperMove(K, op0.chain.sg, H, Fresh(0, known), operator, now, moves, i);
    r := NextWorld(K, op0.chain.sg, H, Fresh(0, known), operator, now, moves, i,
                   LifeMove(op0.chain.sg, H, Fresh(0, known), w.life, CallOf(moves[i])));
    op, c := ServeMove(op0, H, CallOf(moves[i]), c0, Fresh(0, known), w.life);
  }

  /** Run an operator beside the contract, from a first start: its store and its view of the contract are
      those of the world after the moves. */
  method ServeAll(op0: Operator, H: BlockHash, moves: seq<Move>, ghost K: Merkle.Hasher, ghost operator: Address,
                  ghost now: uint256, ghost known: set<(nat, bytes)>) returns (op: Operator, ghost w: World)
    requires NamesNumbers(H) && Lives(op0, H, Fresh(0, known), Newborn())
    requires ProperMoves(K, op0.chain.sg, H, Fresh(0, known), operator, now, moves)
    modifies op0, op0.chain, op0.chain.db, op0.chain.db.defaultBatch
    ensures op.chain.db == op0.chain.db && op.chain.sg == op0.chain.sg
    ensures w == WorldAt(K, op.chain.sg, H, Fresh(0, known), operator, now, moves, |moves|)
    ensures Lives(op, H, Fresh(0, known), w.life)
  {
    var c := Contract(CHILD_BLOCK_INTERVAL, 1, 0, [], 0);
    op, w := op0, Genesis(operator, now);
    for i := 0 to |moves|
      invariant op.chain.db == op0.chain.db && op.chain.sg == op0.chain.sg
      invariant (op == op0 || fresh(op)) && (op.chain == op0.chain || fresh(op.chain))
      invariant w == WorldAt(K, op0.chain.sg, H, Fresh(0, known), operator, now, moves, i)
      invariant Lives(op, H, Fresh(0, known), w.life) && c == w.life.c
    {
      op, c, w := ServeNext(op, H, moves, i, c, K, operator, now, known, w);
    }
  }

  /** What the bytes in the operator's store say is unspent, with the fees and what was not taken over, is
      what the contract holds and has paid. */
  method Serve(op0: Operator, H: BlockHash, moves: seq<Move>, ghost K: Merkle.Hasher, ghost operator: Address,
               ghost now: uint256, ghost known: set<(nat, bytes)>) returns (op: Operator, ghost w: World)
    requires NamesNumbers(H) && Lives(op0, H, Fresh(0, known), Newborn())
    requires ExitGameRuns.NeverZero(K) && ProperMoves(K, op0.chain.sg, H, Fresh(0, known), operator, now, moves)
    requires ExitGameRuns.Bounded(WorldAt(K, op0.chain.sg, H, Fresh(0, known), operator, now, moves, |moves|).chain)
    modifies op0, op0.chain, op0.chain.db, op0.chain.db.defaultBatch
    ensures op.chain.db == op0.chain.db && op.chain.sg == op0.chain.sg
    ensures w == WorldAt(K, op.chain.sg, H, Fresh(0, known), operator, now, moves, |moves|)
    ensures var node := Run(op.chain.sg, Fresh(0, known), w.life.es);
            && Represents(op.chain.db.kv, node.utxos)
            && Sum(node.utxos) + node.fees + PendingTotal(w.life.c.pending)
               + Missed(op.chain.sg, Fresh(0, known), w.life.es)
               == w.chain.balance + ExitGameRuns.Paid(w.chain.finalised)
  {
    LedgerBacked(K, op0.chain.sg, H, known, operator, now, moves);
    op, w := ServeAll(op0, H, moves, K, operator, now, known);
  }
}
