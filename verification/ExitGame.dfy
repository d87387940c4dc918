/**
 The root-chain contract as a state machine over values.

 One action is one public call, executed at the block timestamp `now`; a call
 that reverts leaves the state unchanged.  The last five fields of the state are
 the history an observer collects from events and transfers; the contract never
 reads them.
 */
module ExitGame {
  import opened Bytes
  import opened Protocol
  import opened Packing
  import opened Queues
  import Merkle

  const BLOCK_UNIT: nat := 1_000_000_000
  const TX_UNIT: nat := 10_000
  const ONE_WEEK: nat := 604_800
  const TWO_WEEKS: nat := 1_209_600

  datatype ChildBlock = ChildBlock(root: bytes, timestamp: uint256)

  datatype Exit = Exit(owner: Address, token: Address, amount: uint256)

  /** A deposit, as its Deposit event shows it. */
  datatype DepositMade = DepositMade(depositor: Address, amount: uint256)

  /** A started exit, as its ExitStarted event and block show it. */
  datatype Started = Started(owner: Address, amount: uint256, created: uint256, at: uint256, fee: bool)

  /** A finalised exit: the queue entry popped, the transfer made and when. */
  datatype Finalised = Finalised(element: nat, paidTo: Address, amount: uint256, at: uint256, challenged: bool)

  datatype State = State(
    operator: Address,
    now: uint256,
    childBlock: uint256,
    depositBlock: nat,
    feeExit: uint256,
    childChain: map<nat, ChildBlock>,
    exits: map<nat, Exit>,
    queue: seq<nat>,
    balance: nat,
    deposited: nat,
    deposits: map<nat, DepositMade>,
    started: map<nat, Started>,
    challenged: set<nat>,
    finalised: seq<Finalised>)

  datatype Action =
    | Deposit(sender: Address, value: uint256)
    | SubmitBlock(sender: Address, root: bytes)
    | StartDepositExit(sender: Address, pos: uint256, token: Address, amount: uint256)
    | StartFeeExit(sender: Address, token: Address, amount: uint256)
      // the transaction's fields, its leaf hash and the verdict on its signatures are given
    | StartExit(sender: Address, pos: uint256, exitor: Address, token: Address, amount: uint256,
                sigsOk: bool, leaf: bytes, proof: bytes)
      // the position the challenging transaction spends and its confirmation signer are given
    | ChallengeExit(ePos: uint256, cPos: uint256, leaf: bytes, proof: bytes, confirmer: Address)
      // accounts in `refuses` make a transfer to them fail
    | FinalizeExits(token: Address, refuses: set<Address>)
    | Tick(seconds: nat)

  function Initial(operator: Address, now: uint256): (s: State) {
    State(operator, now, CHILD_BLOCK_INTERVAL, 1, 1, map[], map[], [], 0, 0, map[], map[], {}, [])
  }

  // ---- Storage with default values ----

  function Lookup(exits: map<nat, Exit>, pos: nat): (x: Exit) {
    if pos in exits then exits[pos] else Exit(0, 0, 0)
  }

  function ExitAt(s: State, pos: nat): (x: Exit) {
    Lookup(s.exits, pos)
  }

  function BlockAt(s: State, n: nat): (b: ChildBlock) {
    if n in s.childChain then s.childChain[n] else ChildBlock(Zeros(32), 0)
  }

  function Max(x: nat, y: nat): (r: nat) {
    if x >= y then x else y
  }

  /** The bytes hashed into a deposit root: two addresses and the amount, tightly packed. */
  function DepositBytes(owner: Address, token: Address, amount: uint256): (r: bytes) {
    BigEndian(owner, ADDRESS_LEN) + BigEndian(token, ADDRESS_LEN) + BigEndian(amount, WORD_LEN)
  }

  /** The transaction index in a position. */
  function TxIndex(pos: nat): (i: nat) {
    (pos % BLOCK_UNIT) / TX_UNIT
  }

  /** A position is block number, transaction index and output index, in this order and with these weights. */
  lemma {:induction false} PositionOfOutput(blknum: nat, txindex: nat, oindex: nat)
    requires txindex < 100_000 && oindex < 10_000
    ensures var pos := blknum * 1_000_000_000 + txindex * 10_000 + oindex;
            pos / BLOCK_UNIT == blknum && TxIndex(pos) == txindex && pos % TX_UNIT == oindex
  {
    var low := txindex * 10_000 + oindex;
    DivModUnique(blknum * 1_000_000_000 + low, BLOCK_UNIT, blknum, low);
    DivModUnique(low, TX_UNIT, txindex, oindex);
    DivModUnique(blknum * 1_000_000_000 + low, TX_UNIT, blknum * 100_000 + txindex, oindex);
  }

  lemma {:induction false} CutInThree(a: bytes, b: bytes, c: bytes)
    requires |a| == |b| == 20 && |c| == 32
    ensures var r := a + b + c;
            |r| == 72 && r[..20] == a && r[20..40] == b && r[40..72] == c
  {
  }

  /** Where each field of a deposit lies: 20 bytes of owner, 20 of token and 32 of amount, each most
      significant byte first. */
  lemma {:induction false} DepositFields(owner: Address, token: Address, amount: uint256)
    ensures var r := DepositBytes(owner, token, amount);
            |r| == 72 && Value(r[..20]) == owner && Value(r[20..40]) == token && Value(r[40..72]) == amount
  {
    PowWidths();
    ValueOfBigEndianExact(owner, 20);
    ValueOfBigEndianExact(token, 20);
    ValueOfBigEndianExact(amount, 32);
    CutInThree(BigEndian(owner, 20), BigEndian(token, 20), BigEndian(amount, 32));
  }

  predicate Member(K: Merkle.Hasher, leaf: bytes, pos: uint256, root: bytes, proof: bytes) {
    && |proof| == Merkle.PROOF_BYTES
    && Merkle.Accepts(K, leaf, root, TxIndex(pos), Merkle.Chunks(proof))
  }

  // ---- The calls.  None is a revert. ----

  function ExitableAt(now: uint256, created: uint256): (r: uint256) {
    Max(Plus(created, TWO_WEEKS), Plus(now, ONE_WEEK))
  }

  function AddExit(s: State, pos: uint256, exitor: Address, token: Address, amount: uint256,
                   created: uint256, fee: bool): (r: Option<State>)
  {
    if token != 0 || amount == 0 || ExitAt(s, pos).amount != 0 then None
    else Some(s.(queue := Place(s.queue, Pack(ExitableAt(s.now, created), pos)),
                 exits := s.exits[pos := Exit(exitor, token, amount)],
                 started := s.started[pos := Started(exitor, amount, created, s.now, fee)]))
  }

  function DoDeposit(K: Merkle.Hasher, s: State, sender: Address, value: uint256): (r: Option<State>) {
    var n := s.childBlock - CHILD_BLOCK_INTERVAL + s.depositBlock;
    if s.depositBlock >= CHILD_BLOCK_INTERVAL || s.childBlock < CHILD_BLOCK_INTERVAL || n >= TWO256 then None
    else Some(s.(childChain := s.childChain[n := ChildBlock(K(DepositBytes(sender, 0, value)), s.now)],
                 depositBlock := s.depositBlock + 1,
                 balance := s.balance + value,
                 deposited := s.deposited + value,
                 deposits := s.deposits[n := DepositMade(sender, value)]))
  }

  function DoSubmitBlock(s: State, sender: Address, root: bytes): (r: Option<State>) {
    if sender != s.operator || s.childBlock + CHILD_BLOCK_INTERVAL >= TWO256 then None
    else Some(s.(childChain := s.childChain[s.childBlock := ChildBlock(root, s.now)],
                 childBlock := s.childBlock + CHILD_BLOCK_INTERVAL,
                 depositBlock := 1))
  }

  function DoStartDepositExit(K: Merkle.Hasher, s: State, sender: Address, pos: uint256, token: Address,
                              amount: uint256): (r: Option<State>)
  {
    var n := pos / BLOCK_UNIT;
    if n % CHILD_BLOCK_INTERVAL == 0 || BlockAt(s, n).root != K(DepositBytes(sender, token, amount)) then None
    else AddExit(s, pos, sender, token, amount, BlockAt(s, n).timestamp, false)
  }

  function DoStartFeeExit(s: State, sender: Address, token: Address, amount: uint256): (r: Option<State>) {
    if sender != s.operator || s.feeExit + 1 >= TWO256 then None
    else
      match AddExit(s, s.feeExit, sender, token, amount, Plus(s.now, 1), true)
      case None => None
      case Some(t) => Some(t.(feeExit := s.feeExit + 1))
  }

  function DoStartExit(K: Merkle.Hasher, s: State, sender: Address, pos: uint256, exitor: Address, token: Address,
                       amount: uint256, sigsOk: bool, leaf: bytes, proof: bytes): (r: Option<State>)
  {
    var b := BlockAt(s, pos / BLOCK_UNIT);
    if sender != exitor || !sigsOk || !Member(K, leaf, pos, b.root, proof) then None
    else AddExit(s, pos, exitor, token, amount, b.timestamp, false)
  }

  function DoChallenge(K: Merkle.Hasher, s: State, ePos: uint256, cPos: uint256, leaf: bytes, proof: bytes,
                       confirmer: Address): (r: Option<State>)
  {
    if ExitAt(s, ePos).owner != confirmer || !Member(K, leaf, cPos, BlockAt(s, cPos / BLOCK_UNIT).root, proof) then None
    else Some(s.(exits := s.exits[ePos := ExitAt(s, ePos).(owner := 0)],
                 challenged := if ExitAt(s, ePos).amount > 0 then s.challenged + {ePos} else s.challenged))
  }

  predicate Payable(s: State, refuses: set<Address>)
    requires s.queue != []
  {
    var x := ExitAt(s, Position(s.queue[0]));
    x.owner !in refuses && x.amount <= s.balance
  }

  /** Pay the exit at the head of the queue, pop it and clear its owner. */
  function Pop(s: State): (t: State)
    requires s.queue != [] && ExitAt(s, Position(s.queue[0])).amount <= s.balance
  {
    var pos := Position(s.queue[0]);
    var x := ExitAt(s, pos);
    s.(queue := s.queue[1..],
       balance := s.balance - x.amount,
       exits := s.exits[pos := x.(owner := 0)],
       finalised := s.finalised + [Finalised(s.queue[0], x.owner, x.amount, s.now, pos in s.challenged)])
  }

  /** Pop matured exits until the head is not mature; one failing transfer reverts everything. */
  function Drain(s: State, refuses: set<Address>): (r: Option<State>)
    decreases |s.queue|
  {
    if s.queue == [] || Priority(s.queue[0]) >= s.now then Some(s)
    else if !Payable(s, refuses) then None
    else Drain(Pop(s), refuses)
  }

  function DoFinalize(s: State, token: Address, refuses: set<Address>): (r: Option<State>) {
    if token != 0 || s.queue == [] then None else Drain(s, refuses)
  }

  function Outcome(K: Merkle.Hasher, s: State, a: Action): (r: Option<State>) {
    match a
    case Deposit(sender, value) => DoDeposit(K, s, sender, value)
    case SubmitBlock(sender, root) => DoSubmitBlock(s, sender, root)
    case StartDepositExit(sender, pos, token, amount) => DoStartDepositExit(K, s, sender, pos, token, amount)
    case StartFeeExit(sender, token, amount) => DoStartFeeExit(s, sender, token, amount)
    case StartExit(sender, pos, exitor, token, amount, sigsOk, leaf, proof) =>
      DoStartExit(K, s, sender, pos, exitor, token, amount, sigsOk, leaf, proof)
    case ChallengeExit(ePos, cPos, leaf, proof, confirmer) => DoChallenge(K, s, ePos, cPos, leaf, proof, confirmer)
    case FinalizeExits(token, refuses) => DoFinalize(s, token, refuses)
    case Tick(seconds) => if s.now + seconds >= TWO256 then None else Some(s.(now := s.now + seconds))
  }

  function Step(K: Merkle.Hasher, s: State, a: Action): (t: State) {
    match Outcome(K, s, a)
    case None => s
    case Some(t) => t
  }

  /** The state after a run of calls. */
  function Run(K: Merkle.Hasher, init: State, acts: seq<Action>): (s: State) {
    if acts == [] then init else Step(K, Run(K, init, acts[..|acts| - 1]), acts[|acts| - 1])
  }
}
