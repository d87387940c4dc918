/**
 How often one output can be exited.  The contract keeps its records by position,
 and more than one position can name the same output: every position of a deposit
 block names the deposit, and transaction indexes that are equal modulo 65536 name
 the same leaf.  Here is when each output is exited at most once, and that the
 guards are needed.
 */
module ExitOnce {
  import opened Bytes
  import opened Protocol
  import opened Packing
  import opened Queues
  import opened ExitGame
  import opened ExitGameRuns
  import opened ExitGuarantees
  import opened ExitRecords
  import opened ExitInclusion
  import Merkle

  /** The leaves of transaction exits are hashes. */
  predicate HashedLeaves(acts: seq<Action>) {
    forall i :: 0 <= i < |acts| && acts[i].StartExit? ==> |acts[i].leaf| == Merkle.HASH_LEN
  }

  /** An exit of an output, not of fees. */
  predicate IsExit(s: State, p: nat) {
    p in s.started && !s.started[p].fee
  }

  /** After an accepted start, one more position is started and the blocks are as before. */
  lemma {:induction false} StartedNext(K: Merkle.Hasher, operator: Address, now: uint256, acts: seq<Action>, a: Action)
    requires a.StartDepositExit? || a.StartExit?
    requires Bounded(From(K, operator, now, acts)) && Outcome(K, From(K, operator, now, acts), a).Some?
    ensures var s, t := From(K, operator, now, acts), From(K, operator, now, acts + [a]);
            && Bounded(t) && t.childChain == s.childChain && t.deposits == s.deposits
            && t.started.Keys == s.started.Keys + {a.pos}
  {
    assert (acts + [a])[..|acts|] == acts;
    StartRecords(K, From(K, operator, now, acts), a);
  }

  lemma {:induction false} StartRecords(K: Merkle.Hasher, s: State, a: Action)
    requires (a.StartDepositExit? || a.StartExit?) && Bounded(s) && Outcome(K, s, a).Some?
    ensures var t := Step(K, s, a);
            && Bounded(t) && t.childChain == s.childChain && t.deposits == s.deposits
            && t.started.Keys == s.started.Keys + {a.pos}
  {
  }

  // ---- Deposits ----

  /** Every deposit exit of the run names the first position of its block. */
  predicate NamesFirstPosition(acts: seq<Action>) {
    forall i :: 0 <= i < |acts| && acts[i].StartDepositExit? ==> acts[i].pos % BLOCK_UNIT == 0
  }

  /** Call i of the run is a transaction exit at position p whose proof collides with the deposit there. */
  ghost predicate ForgedAt(K: Merkle.Hasher, operator: Address, now: uint256, acts: seq<Action>, i: nat, p: nat) {
    && i < |acts| && acts[i].StartExit? && acts[i].pos == p
    && (var s, n := From(K, operator, now, acts[..i]), p / BLOCK_UNIT;
        n in s.deposits && Forges(K, DepositPreimage(s, n), p, acts[i].leaf, acts[i].proof))
  }

  /** An exit in a deposit block was started by a deposit exit at its position, or forged. */
  lemma {:induction false} DepositExitOrigin(K: Merkle.Hasher, operator: Address, now: uint256, acts: seq<Action>,
                                             p: nat)
    returns (i: nat)
    requires NeverZero(K) && Merkle.Yields32(K) && Bounded(From(K, operator, now, acts)) && HashedLeaves(acts)
    requires IsExit(From(K, operator, now, acts), p) && (p / BLOCK_UNIT) % CHILD_BLOCK_INTERVAL != 0
    ensures i < |acts|
    ensures (acts[i].StartDepositExit? && acts[i].pos == p) || ForgedAt(K, operator, now, acts, i, p)
  {
    i := ExitProvenance(K, operator, now, acts, p);
    if acts[i].StartExit? {
      RunExtends(K, operator, now, acts, i);
      DepositBlockExits(K, operator, now, acts[..i], acts[i]);
    }
  }

  /** Over every run in which deposit exits name the first position of their block, a deposit is exited
      at most once, unless a transaction exit of the run holds a collision. */
  lemma {:induction false} DepositExitedOnce(K: Merkle.Hasher, operator: Address, now: uint256, acts: seq<Action>,
                                             p: nat, q: nat)
    requires NeverZero(K) && Merkle.Yields32(K) && Bounded(From(K, operator, now, acts))
    requires HashedLeaves(acts) && NamesFirstPosition(acts)
    requires IsExit(From(K, operator, now, acts), p) && IsExit(From(K, operator, now, acts), q)
    requires p / BLOCK_UNIT == q / BLOCK_UNIT && (p / BLOCK_UNIT) % CHILD_BLOCK_INTERVAL != 0
    ensures p == q || exists i :: ForgedAt(K, operator, now, acts, i, p) || ForgedAt(K, operator, now, acts, i, q)
  {
    var i := DepositExitOrigin(K, operator, now, acts, p);
    var j := DepositExitOrigin(K, operator, now, acts, q);
    if acts[i].StartDepositExit? && acts[j].StartDepositExit? {
      assert p % BLOCK_UNIT == 0 == q % BLOCK_UNIT;
    }
  }

  /** The guard is needed: over every run, a depositor who has started an exit at one position of the
      block can start another at every other position not started yet. */
  lemma {:induction false} SecondDepositExit(K: Merkle.Hasher, operator: Address, now: uint256, acts: seq<Action>,
                                             p: uint256, q: uint256, depositor: Address, amount: uint256)
    requires NeverZero(K) && Bounded(From(K, operator, now, acts)) && p / BLOCK_UNIT == q / BLOCK_UNIT
    requires var s, n := From(K, operator, now, acts), p / BLOCK_UNIT;
             && n in s.childChain && n % CHILD_BLOCK_INTERVAL != 0
             && n in s.deposits && s.deposits[n] == DepositMade(depositor, amount)
    requires Outcome(K, From(K, operator, now, acts), StartDepositExit(depositor, p, 0, amount)).Some?
    ensures var s := From(K, operator, now, acts + [StartDepositExit(depositor, p, 0, amount)]);
            Outcome(K, s, StartDepositExit(depositor, q, 0, amount)).Some? <==>
              q != p && q !in From(K, operator, now, acts).started
  {
    var a := StartDepositExit(depositor, p, 0, amount);
    StartedNext(K, operator, now, acts, a);
    DepositExitExact(K, operator, now, acts + [a], depositor, q, 0, amount);
  }

  // ---- Outputs of transactions ----

  /** The output a position of a child block names: block, leaf and output index. */
  function OutputOf(p: nat): (o: (nat, nat, nat)) {
    (p / BLOCK_UNIT, LeafOf(p), p % TX_UNIT)
  }

  /** Every transaction exit of the run has a transaction index below 65536. */
  predicate IndexesFit(acts: seq<Action>) {
    forall i :: 0 <= i < |acts| && acts[i].StartExit? ==> TxIndex(acts[i].pos) < BLOCK_LEAVES
  }

  lemma {:induction false} PositionParts(p: nat)
    ensures p == p / BLOCK_UNIT * BLOCK_UNIT + TxIndex(p) * TX_UNIT + p % TX_UNIT
  {
    assert (p % BLOCK_UNIT) % TX_UNIT == p % TX_UNIT;
  }

  /** An exit in a child block was started by a transaction exit at its position. */
  lemma {:induction false} ChildExitOrigin(K: Merkle.Hasher, operator: Address, now: uint256, acts: seq<Action>, p: nat)
    returns (i: nat)
    requires NeverZero(K) && Bounded(From(K, operator, now, acts))
    requires IsExit(From(K, operator, now, acts), p) && (p / BLOCK_UNIT) % CHILD_BLOCK_INTERVAL == 0
    ensures i < |acts| && acts[i].StartExit? && acts[i].pos == p
  {
    i := ExitProvenance(K, operator, now, acts, p);
  }

  /** Over every run in which transaction indexes stay below 65536, an output is exited at most once. */
  lemma {:induction false} OutputExitedOnce(K: Merkle.Hasher, operator: Address, now: uint256, acts: seq<Action>,
                                            p: nat, q: nat)
    requires NeverZero(K) && Bounded(From(K, operator, now, acts)) && IndexesFit(acts)
    requires IsExit(From(K, operator, now, acts), p) && IsExit(From(K, operator, now, acts), q)
    requires (p / BLOCK_UNIT) % CHILD_BLOCK_INTERVAL == 0 && OutputOf(p) == OutputOf(q)
    ensures p == q
  {
    var i := ChildExitOrigin(K, operator, now, acts, p);
    var j := ChildExitOrigin(K, operator, now, acts, q);
    PositionParts(p);
    PositionParts(q);
  }

  /** A proof for one position is a proof for every other with the same leaf, whatever the root. */
  lemma {:induction false} SameLeafMember(K: Merkle.Hasher, leaf: bytes, p: uint256, q: uint256, root: bytes,
                                          proof: bytes)
    requires LeafOf(p) == LeafOf(q)
    ensures Member(K, leaf, p, root, proof) <==> Member(K, leaf, q, root, proof)
  {
    SixteenLevels();
    Merkle.IndexWraps(BLOCK_LEAVES, TxIndex(p));
    Merkle.IndexWraps(BLOCK_LEAVES, TxIndex(q));
  }

  /** The guard is needed: over every run, once an exit was accepted, the same exit is accepted again at
      every other position of the block that names the same output and was not started yet. */
  lemma {:induction false} SecondOutputExit(K: Merkle.Hasher, operator: Address, now: uint256, acts: seq<Action>,
                                            p: uint256, q: uint256, exitor: Address, amount: uint256, leaf: bytes,
                                            proof: bytes)
    requires NeverZero(K) && Merkle.Yields32(K) && Bounded(From(K, operator, now, acts)) && |leaf| == Merkle.HASH_LEN
    requires OutputOf(p) == OutputOf(q)
    requires Outcome(K, From(K, operator, now, acts), StartExit(exitor, p, exitor, 0, amount, true, leaf, proof)).Some?
    ensures var s := From(K, operator, now, acts + [StartExit(exitor, p, exitor, 0, amount, true, leaf, proof)]);
            Outcome(K, s, StartExit(exitor, q, exitor, 0, amount, true, leaf, proof)).Some? <==>
              q != p && q !in From(K, operator, now, acts).started
  {
    var a := StartExit(exitor, p, exitor, 0, amount, true, leaf, proof);
    var s := From(K, operator, now, acts);
    StartedNext(K, operator, now, acts, a);
    StartExitExact(K, operator, now, acts, exitor, p, exitor, 0, amount, true, leaf, proof, [], []);
    StartExitExact(K, operator, now, acts + [a], exitor, q, exitor, 0, amount, true, leaf, proof, [], []);
    SameLeafMember(K, leaf, p, q, BlockAt(s, p / BLOCK_UNIT).root, proof);
  }

  // ---- Two runs in which one output is paid twice ----

  lemma {:induction false} RunSnoc(K: Merkle.Hasher, init: State, acts: seq<Action>, a: Action)
    ensures Run(K, init, acts + [a]) == Step(K, Run(K, init, acts), a)
  {
    assert (acts + [a])[..|acts|] == acts;
  }

  /** A contract just deployed, with nothing queued. */
  predicate Idle(s: State) {
    s.queue == [] && s.finalised == [] && s.challenged == {} && s.exits == map[] && s.now == 0
  }

  /** Two exits were started for the same owner and amount, and both were paid. */
  predicate PaidBoth(s: State, p: nat, q: nat, owner: Address, v: nat) {
    && |s.finalised| == 2 && Paid(s.finalised) == 2 * v
    && FinalisedAt(s, 0, p) && s.finalised[0].paidTo == owner && s.finalised[0].amount == v
    && FinalisedAt(s, 1, q) && s.finalised[1].paidTo == owner && s.finalised[1].amount == v
  }

  /** The state once both exits are queued and mature. */
  function Ripe(s: State, p: uint256, q: uint256, owner: Address, v: uint256): (t: State) {
    s.(now := TWO_WEEKS + 1,
       queue := [Pack(TWO_WEEKS, p), Pack(TWO_WEEKS, q)],
       exits := s.exits[p := Exit(owner, 0, v)][q := Exit(owner, 0, v)],
       started := s.started[p := Started(owner, v, 0, 0, false)][q := Started(owner, v, 0, 0, false)])
  }

  lemma {:induction false} BothStarted(s: State, p: uint256, q: uint256, owner: Address, v: uint256)
    requires Idle(s) && p < q < TWO128 && 0 < v
    ensures var one := AddExit(s, p, owner, 0, v, 0, false);
            && one.Some?
            && (var two := AddExit(one.value, q, owner, 0, v, 0, false);
                two.Some? && two.value.(now := TWO_WEEKS + 1) == Ripe(s, p, q, owner, v))
  {
    var e, f := Pack(TWO_WEEKS, p), Pack(TWO_WEEKS, q);
    PackOrder(TWO_WEEKS, p, TWO_WEEKS, q);
    AddExact(0, TWO_WEEKS);
    AddExact(0, ONE_WEEK);
    assert ExitableAt(0, 0) == TWO_WEEKS;
    assert Place([], e) == [e];
    assert [e][1..] == [] && Place([e], f) == [e] + Place([], f) == [e, f];
  }

  lemma {:induction false} BothDrained(s: State, p: uint256, q: uint256, owner: Address, v: uint256)
    requires Idle(s) && p < q < TWO128 && 2 * v <= s.balance
    ensures var end := Drain(Ripe(s, p, q, owner, v), {});
            end.Some? && end.value.deposits == s.deposits && PaidBoth(end.value, p, q, owner, v)
  {
    PackRoundTrip(TWO_WEEKS, p);
    PackRoundTrip(TWO_WEEKS, q);
    var t := Ripe(s, p, q, owner, v);
    TwoPops(t, {});
    var end := Pop(Pop(t));
    assert end.finalised == [Pop(t).finalised[0], end.finalised[1]];
    PaidTwo(end.finalised);
  }

  lemma {:induction false} PaidTwo(f: seq<Finalised>)
    requires |f| == 2
    ensures Paid(f) == f[0].amount + f[1].amount
  {
    assert f[..1] == [f[0]] && f[..1][..0] == [];
    assert Paid(f[..1]) == f[0].amount;
  }

  lemma {:induction false} TwoPops(s: State, refuses: set<Address>)
    requires |s.queue| == 2 && Priority(s.queue[0]) < s.now && Priority(s.queue[1]) < s.now
    requires Position(s.queue[0]) != Position(s.queue[1])
    requires forall i :: 0 <= i < 2 ==> ExitAt(s, Position(s.queue[i])).owner !in refuses
    requires ExitAt(s, Position(s.queue[0])).amount + ExitAt(s, Position(s.queue[1])).amount <= s.balance
    ensures Drain(s, refuses) == Some(Pop(Pop(s)))
  {
    var t := Pop(s);
    assert t.queue == [s.queue[1]] && ExitAt(t, Position(s.queue[1])) == ExitAt(s, Position(s.queue[1]));
    assert Payable(s, refuses) && Payable(t, refuses);
    var u := Pop(t);
    assert u.queue == [];
    assert Drain(u, refuses) == Some(u);
    assert Drain(t, refuses) == Drain(u, refuses);
  }

  /** The calls that start two exits and finalise them. */
  function Twice(one: Action, two: Action): (acts: seq<Action>) {
    [one, two, Tick(TWO_WEEKS + 1), FinalizeExits(0, {})]
  }

  lemma {:induction false} TickStep(K: Merkle.Hasher, s: State)
    requires s.now == 0
    ensures Step(K, s, Tick(TWO_WEEKS + 1)) == s.(now := TWO_WEEKS + 1)
  {
  }

  lemma {:induction false} FinalizeStep(K: Merkle.Hasher, s: State, end: State)
    requires s.queue != [] && Drain(s, {}) == Some(end)
    ensures Step(K, s, FinalizeExits(0, {})) == end
  {
  }

  lemma {:induction false} StartStep(K: Merkle.Hasher, s: State, a: Action, t: State)
    requires Outcome(K, s, a) == Some(t)
    ensures Step(K, s, a) == t
  {
  }

  /** The calls one and two each enter an exit of v for the owner, at p and then at q. */
  ghost predicate StartBoth(K: Merkle.Hasher, s: State, one: Action, two: Action, p: uint256, q: uint256,
                            owner: Address, v: uint256)
  {
    var t := AddExit(s, p, owner, 0, v, 0, false);
    Outcome(K, s, one) == t && (t.Some? ==> Outcome(K, t.value, two) == AddExit(t.value, q, owner, 0, v, 0, false))
  }

  /** From an idle state, two calls that each enter an exit of the same owner and amount end in two payments. */
  lemma {:induction false} TwicePaid(K: Merkle.Hasher, s: State, one: Action, two: Action,
                                     p: uint256, q: uint256, owner: Address, v: uint256)
    requires Idle(s) && p < q < TWO128 && 0 < v && 2 * v <= s.balance && StartBoth(K, s, one, two, p, q, owner, v)
    ensures var end := Step(K, Step(K, Step(K, Step(K, s, one), two), Tick(TWO_WEEKS + 1)), FinalizeExits(0, {}));
            PaidBoth(end, p, q, owner, v) && end.deposits == s.deposits
  {
    BothStarted(s, p, q, owner, v);
    BothDrained(s, p, q, owner, v);
    var t := AddExit(s, p, owner, 0, v, 0, false).value;
    var u := AddExit(t, q, owner, 0, v, 0, false).value;
    StartStep(K, s, one, t);
    StartStep(K, t, two, u);
    TickStep(K, u);
    FinalizeStep(K, Ripe(s, p, q, owner, v), Drain(Ripe(s, p, q, owner, v), {}).value);
  }

  lemma {:induction false} RunFour(K: Merkle.Hasher, init: State, acts: seq<Action>, a: Action, b: Action, c: Action,
                                   d: Action)
    ensures Run(K, init, acts + [a, b, c, d]) == Step(K, Step(K, Step(K, Step(K, Run(K, init, acts), a), b), c), d)
  {
    RunSnoc(K, init, acts, a);
    RunSnoc(K, init, acts + [a], b);
    RunSnoc(K, init, acts + [a] + [b], c);
    RunSnoc(K, init, acts + [a] + [b] + [c], d);
    assert acts + [a] + [b] + [c] + [d] == acts + [a, b, c, d];
  }

  /** One deposit, exited at the first two positions of its block, is paid twice; the second payment comes
      out of somebody else's deposit. */
  lemma {:induction false} DepositPaidTwice(K: Merkle.Hasher, operator: Address, depositor: Address, other: Address,
                                            v: uint256)
    requires v > 0
    ensures var p := BLOCK_UNIT;
            var acts := [Deposit(depositor, v), Deposit(other, v)]
                        + Twice(StartDepositExit(depositor, p, 0, v), StartDepositExit(depositor, p + 1, 0, v));
            var s := From(K, operator, 0, acts);
            && s.deposits == map[1 := DepositMade(depositor, v), 2 := DepositMade(other, v)]
            && PaidBoth(s, p, p + 1, depositor, v)
  {
    var p := BLOCK_UNIT;
    var acts := [Deposit(depositor, v), Deposit(other, v)];
    var s := Run(K, Initial(operator, 0), acts);
    var one, two := StartDepositExit(depositor, p, 0, v), StartDepositExit(depositor, p + 1, 0, v);
    TwoDeposits(K, operator, depositor, other, v);
    BothDepositExits(K, s, depositor, v);
    TwicePaid(K, s, one, two, p, p + 1, depositor, v);
    RunFour(K, Initial(operator, 0), acts, one, two, Tick(TWO_WEEKS + 1), FinalizeExits(0, {}));
  }

  lemma {:induction false} BothDepositExits(K: Merkle.Hasher, s: State, d: Address, v: uint256)
    requires BlockAt(s, 1) == ChildBlock(K(DepositBytes(d, 0, v)), 0)
    ensures StartBoth(K, s, StartDepositExit(d, BLOCK_UNIT, 0, v), StartDepositExit(d, BLOCK_UNIT + 1, 0, v),
                      BLOCK_UNIT, BLOCK_UNIT + 1, d, v)
  {
    DepositExitEnters(K, s, BLOCK_UNIT, d, v);
    var t := AddExit(s, BLOCK_UNIT, d, 0, v, 0, false);
    if t.Some? {
      assert t.value.childChain == s.childChain;
      DepositExitEnters(K, t.value, BLOCK_UNIT + 1, d, v);
    }
  }

  lemma {:induction false} DepositExitEnters(K: Merkle.Hasher, s: State, p: uint256, d: Address, v: uint256)
    requires BlockAt(s, 1) == ChildBlock(K(DepositBytes(d, 0, v)), 0) && p / BLOCK_UNIT == 1
    ensures Outcome(K, s, StartDepositExit(d, p, 0, v)) == AddExit(s, p, d, 0, v, 0, false)
  {
  }

  lemma {:induction false} TwoDeposits(K: Merkle.Hasher, operator: Address, d: Address, e: Address, v: uint256)
    ensures var s := Run(K, Initial(operator, 0), [Deposit(d, v), Deposit(e, v)]);
            && Idle(s) && s.balance == 2 * v
            && s.deposits == map[1 := DepositMade(d, v), 2 := DepositMade(e, v)]
            && BlockAt(s, 1) == ChildBlock(K(DepositBytes(d, 0, v)), 0)
            && s.operator == operator && s.childBlock == CHILD_BLOCK_INTERVAL
  {
    var init := Initial(operator, 0);
    RunTwo(K, init, Deposit(d, v), Deposit(e, v));
    DepositStep(K, init, d, v);
    DepositStep(K, Step(K, init, Deposit(d, v)), e, v);
  }

  lemma {:induction false} RunTwo(K: Merkle.Hasher, init: State, a: Action, b: Action)
    ensures Run(K, init, [a, b]) == Step(K, Step(K, init, a), b)
  {
    RunSnoc(K, init, [], a);
    RunSnoc(K, init, [a], b);
    assert [] + [a] == [a] && [a] + [b] == [a, b];
  }

  /** A deposit early in the first interval. */
  lemma {:induction false} DepositStep(K: Merkle.Hasher, s: State, d: Address, v: uint256)
    requires s.childBlock == CHILD_BLOCK_INTERVAL && s.depositBlock < CHILD_BLOCK_INTERVAL
    ensures var n := s.depositBlock;
            Step(K, s, Deposit(d, v)) ==
            s.(childChain := s.childChain[n := ChildBlock(K(DepositBytes(d, 0, v)), s.now)], depositBlock := n + 1,
               balance := s.balance + v, deposited := s.deposited + v,
               deposits := s.deposits[n := DepositMade(d, v)])
  {
  }

  const FIRST_OUTPUT: uint256 := 1000 * BLOCK_UNIT
  const SAME_OUTPUT: uint256 := 1000 * BLOCK_UNIT + 65536 * TX_UNIT

  /** The root that a leaf and a proof lead to from the first output of a block. */
  function RootFor(K: Merkle.Hasher, leaf: bytes, proof: bytes): (root: bytes)
    requires |proof| == Merkle.PROOF_BYTES
    ensures Member(K, leaf, FIRST_OUTPUT, root, proof)
  {
    Merkle.Climb(K, leaf, Merkle.Bits(TxIndex(FIRST_OUTPUT), 16), Merkle.Chunks(proof))
  }

  /** One output of the first child block, exited at transaction indexes 0 and 65536, is paid twice,
      whatever its leaf and its proof are. */
  lemma {:induction false} OutputPaidTwice(K: Merkle.Hasher, operator: Address, exitor: Address, other: Address,
                                           v: uint256, leaf: bytes, proof: bytes)
    requires v > 0 && |proof| == Merkle.PROOF_BYTES
    ensures var root := RootFor(K, leaf, proof);
            var acts := [Deposit(other, v), Deposit(other, v), SubmitBlock(operator, root)]
                        + Twice(StartExit(exitor, FIRST_OUTPUT, exitor, 0, v, true, leaf, proof),
                                StartExit(exitor, SAME_OUTPUT, exitor, 0, v, true, leaf, proof));
            && OutputOf(FIRST_OUTPUT) == OutputOf(SAME_OUTPUT)
            && PaidBoth(From(K, operator, 0, acts), FIRST_OUTPUT, SAME_OUTPUT, exitor, v)
  {
    var root := RootFor(K, leaf, proof);
    var acts := [Deposit(other, v), Deposit(other, v), SubmitBlock(operator, root)];
    var s := Run(K, Initial(operator, 0), acts);
    var one := StartExit(exitor, FIRST_OUTPUT, exitor, 0, v, true, leaf, proof);
    var two := StartExit(exitor, SAME_OUTPUT, exitor, 0, v, true, leaf, proof);
    SameOutput();
    BlockSubmitted(K, operator, other, v, root);
    BothOutputExits(K, s, exitor, v, root, leaf, proof);
    TwicePaid(K, s, one, two, FIRST_OUTPUT, SAME_OUTPUT, exitor, v);
    RunFour(K, Initial(operator, 0), acts, one, two, Tick(TWO_WEEKS + 1), FinalizeExits(0, {}));
  }

  lemma {:induction false} SameOutput()
    ensures OutputOf(FIRST_OUTPUT) == OutputOf(SAME_OUTPUT) && FIRST_OUTPUT / BLOCK_UNIT == 1000
  {
  }

  lemma {:induction false} BothOutputExits(K: Merkle.Hasher, s: State, exitor: Address, v: uint256, root: bytes,
                                           leaf: bytes, proof: bytes)
    requires BlockAt(s, 1000) == ChildBlock(root, 0) && Member(K, leaf, FIRST_OUTPUT, root, proof)
    ensures StartBoth(K, s, StartExit(exitor, FIRST_OUTPUT, exitor, 0, v, true, leaf, proof),
                      StartExit(exitor, SAME_OUTPUT, exitor, 0, v, true, leaf, proof),
                      FIRST_OUTPUT, SAME_OUTPUT, exitor, v)
  {
    SameOutput();
    SameLeafMember(K, leaf, FIRST_OUTPUT, SAME_OUTPUT, root, proof);
  }

  lemma {:induction false} BlockSubmitted(K: Merkle.Hasher, operator: Address, other: Address, v: uint256, root: bytes)
    ensures var s := Run(K, Initial(operator, 0), [Deposit(other, v), Deposit(other, v), SubmitBlock(operator, root)]);
            Idle(s) && s.balance == 2 * v && BlockAt(s, 1000) == ChildBlock(root, 0)
  {
    var init := Initial(operator, 0);
    var deposits := [Deposit(other, v), Deposit(other, v)];
    TwoDeposits(K, operator, other, other, v);
    RunSnoc(K, init, deposits, SubmitBlock(operator, root));
    assert deposits + [SubmitBlock(operator, root)]
        == [Deposit(other, v), Deposit(other, v), SubmitBlock(operator, root)];
  }
}
