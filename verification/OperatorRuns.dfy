/**
 An operator on its store, driven through a whole life.  Whatever happens, the
 bytes in the store are those of the ledger run that the life determines, so
 everything proved of such runs holds of the store.
 */
module OperatorRuns {
  import opened Bytes
  import opened Protocol
  import opened Ledger
  import opened LedgerRuns
  import opened Store
  import opened Nodes
  import opened NodeRuns
  import opened ChildNumbers
  import opened OperatorLives
  import opened Archive

  // ---- Block hashes ----

  /** Blocks with different numbers have different hashes, and no hash is the zero word. */
  ghost predicate NamesNumbers(H: BlockHash) {
    && (forall m: nat, x: seq<Tx>, h: bytes :: |H(m, x, h)| == 32 && H(m, x, h) != Zeros(32))
    && (forall m: nat, x: seq<Tx>, h: bytes, n: nat, y: seq<Tx>, g: bytes ::
          m < TWO63 && n < TWO63 && H(m, x, h) == H(n, y, g) ==> m == n)
  }

  /** Only block n can have the hash of the stored head. */
  ghost predicate HeadHash(H: BlockHash, kv: map<bytes, bytes>, n: nat) {
    forall m: nat, x: seq<Tx>, h: bytes :: m < TWO63 && H(m, x, h) == HashUnder(kv, HEAD_BLOCK_KEY) ==> m == n
  }

  /** The hash of the stored head goes with its number. */
  lemma {:induction false} HeadHashAfter(H: BlockHash, kv: map<bytes, bytes>, n: Numbers, b: Block)
    requires NamesNumbers(H) && HeadHash(H, kv, n.stored) && HeadIs(kv, n.stored) && n.stored <= n.head
    requires Storable(b) && b.hash == H(b.number, b.txs, b.header)
    ensures HeadHash(H, ApplyOps(kv, AllOps(kv, n.head, b)), Written(n, b.number, true).stored)
  {
    if b.number > n.head {
      assert HeaderHashKey(b.number) !in kv;
      HeadKeysMoved(kv, n.head, b);
    } else {
      HeadKeysKept(kv, n.head, b);
    }
  }

  // ---- The store of a life ----

  lemma {:induction false} RunSnoc(sg: Signer, start: Node, es: seq<Event>, e: Event)
    ensures Run(sg, start, es + [e]) == Step(sg, Run(sg, start, es), e)
  {
    assert (es + [e])[..|es|] == es;
  }

  /** The bytes kv are those of the ledger run of the life: its outputs, its known blocks, and the header,
      body and number of every block it took. */
  ghost predicate Carries(sg: Signer, kv: map<bytes, bytes>, H: BlockHash, start: Node, l: Life) {
    && Sound(sg, start, l) && Refines(kv, Run(sg, start, l.es)) && HeadHash(H, kv, l.n.stored)
    && FiledRun(sg, kv, H, start, l.es)
  }

  ghost predicate FiledRun(sg: Signer, kv: map<bytes, bytes>, H: BlockHash, start: Node, es: seq<Event>) {
    Filed(kv, H, Taken(sg, start, es), Run(sg, start, es).used)
  }

  /** Only the same number has the same hash. */
  lemma {:induction false} HashesApart(H: BlockHash, kv: map<bytes, bytes>, bs: seq<Block>, used: set<nat>, b: Block)
    requires NamesNumbers(H) && Filed(kv, H, bs, used) && b.number < TWO63 && b.hash == H(b.number, b.txs, b.header)
    ensures forall i :: 0 <= i < |bs| && bs[i].hash == b.hash ==> bs[i].number == b.number
  {
    forall i | 0 <= i < |bs| && bs[i].hash == b.hash
      ensures bs[i].number == b.number
    {
      assert FiledOne(kv, H, bs[i], used);
    }
  }

  lemma {:induction false} TakenSnoc(sg: Signer, start: Node, es: seq<Event>, e: Event)
    ensures var n := Run(sg, start, es);
            Taken(sg, start, es + [e]) ==
            Taken(sg, start, es) + if !e.Restart? && Accepted(sg, n, e) then [BlockOf(n, e)] else []
  {
    assert (es + [e])[..|es|] == es;
  }

  lemma {:induction false} UsedAfter(sg: Signer, n: Node, e: Event)
    ensures Step(sg, n, e).used == if !e.Restart? && Accepted(sg, n, e) then n.used + {BlockOf(n, e).number} else n.used
  {
  }

  /** A block event files its block if it is taken, and keeps all others. */
  lemma {:induction false} FiledStep(sg: Signer, kv: map<bytes, bytes>, head: nat, H: BlockHash, start: Node,
                                     es: seq<Event>, e: Event, b: Block)
    requires NamesNumbers(H) && FiledRun(sg, kv, H, start, es) && !e.Restart? && b == BlockOf(Run(sg, start, es), e)
    requires b.number < TWO63 && b.hash == H(b.number, b.txs, b.header) && b.number !in Run(sg, start, es).used
    ensures FiledRun(sg, Committed(kv, head, b, Accepted(sg, Run(sg, start, es), e)), H, start, es + [e])
  {
    var n := Run(sg, start, es);
    TakenSnoc(sg, start, es, e);
    RunSnoc(sg, start, es, e);
    UsedAfter(sg, n, e);
    if Accepted(sg, n, e) {
      HashesApart(H, kv, Taken(sg, start, es), n.used, b);
      FiledMore(kv, head, H, Taken(sg, start, es), n.used, b);
    }
  }

  lemma {:induction false} FiledRestart(sg: Signer, kv: map<bytes, bytes>, H: BlockHash, start: Node, es: seq<Event>,
                                        child: nat)
    requires FiledRun(sg, kv, H, start, es)
    ensures FiledRun(sg, kv, H, start, es + [Restart(child)])
  {
    TakenSnoc(sg, start, es, Restart(child));
    RunSnoc(sg, start, es, Restart(child));
  }

  /** The next child number was never used. */
  lemma {:induction false} SealNumberNew(sg: Signer, start: Node, l: Life)
    requires Sound(sg, start, l)
    ensures Run(sg, start, l.es).child == l.n.child
    ensures l.n.child + CHILD_BLOCK_INTERVAL !in Run(sg, start, l.es).used
  {
  }

  /** The operator between two calls: its store and its counters are those of the life. */
  ghost predicate Lives(op: Operator, H: BlockHash, start: Node, l: Life)
    reads op, op.chain, op.chain.db, op.chain.db.defaultBatch
  {
    Carries(op.chain.sg, op.chain.db.kv, H, start, l) && Tracks(op, l.n)
  }

  /** The block of a seal, and what validation says of it on the store kv. */
  function SealedBlockOf(H: BlockHash, n: Numbers, call: Call): (b: Block)
    requires call.SealCall?
  {
    Block(n.child + CHILD_BLOCK_INTERVAL, H(n.child + CHILD_BLOCK_INTERVAL, call.txs, call.header), call.txs,
          call.rootOk, call.header, call.body)
  }

  function ValidOn(sg: Signer, kv: map<bytes, bytes>, u: Utxos, b: Block): (valid: bool) {
    BlockVerdict(sg, u, HasBlock(kv, b.number, b.hash), b).Ok?
  }

  /** Committing a sealed block, or not, leaves the bytes of the next moment of the life. */
  lemma {:induction false} SealCarries(sg: Signer, kv: map<bytes, bytes>, H: BlockHash, start: Node, l: Life,
                                       call: Call, b: Block)
    requires NamesNumbers(H) && Carries(sg, kv, H, start, l) && HeadIs(kv, l.n.stored)
    requires call.SealCall? && Encodable(call) && Numerable(l)
    requires b == SealedBlockOf(H, l.n, call)
    ensures var valid := ValidOn(sg, kv, Run(sg, start, l.es).utxos, b);
            var taken := valid && Takes(call.f, |call.txs|);
            var r := LifeStep(sg, H, start, l, call);
            && Storable(b) && Carries(sg, Committed(kv, l.n.head, b, taken), H, start, r)
            && r.n == NumberStep(l.n, Sealed(valid, taken, call.sent))
            && r.c == (if taken && call.sent then Send(l.c) else l.c)
  {
    var node, e := Run(sg, start, l.es), SealEvent(H, l.n, call);
    assert b == SealedBlock(node, e);
    SealSound(sg, H, start, l, call);
    RunSnoc(sg, start, l.es, e);
    StepRefines(sg, kv, l.n.head, node, e);
    HeadHashAfter(H, kv, l.n, b);
    SealNumberNew(sg, start, l);
    FiledStep(sg, kv, l.n.head, H, start, l.es, e, b);
    SealedNumbers(l.n, SealOutcome(sg, node, e, call.sent));
  }

  method LiveSeal(op: Operator, H: BlockHash, call: Call, c0: Contract, ghost start: Node, ghost l: Life)
    returns (c: Contract)
    requires NamesNumbers(H) && Lives(op, H, start, l) && c0 == l.c
    requires call.SealCall? && Encodable(call) && Numerable(l)
    modifies op, op.chain, op.chain.db, op.chain.db.defaultBatch
    ensures Lives(op, H, start, LifeStep(op.chain.sg, H, start, l, call))
    ensures c == LifeStep(op.chain.sg, H, start, l, call).c
  {
    ghost var b := SealedBlockOf(H, l.n, call);
    SealCarries(op.chain.sg, op.chain.db.kv, H, start, l, call, b);
    var hash := H(op.currentChildBlock + CHILD_BLOCK_INTERVAL, call.txs, call.header);
    var v := TrackSeal(op, call.txs, hash, call.rootOk, call.header, call.body, call.f, b,
                       Run(op.chain.sg, start, l.es).utxos, l.n, call.sent);
    c := if v.Ok? && call.sent then Send(c0) else c0;
  }

  function DeliveredBlockOf(H: BlockHash, d: DepositNote, call: Call): (b: Block)
    requires call.Deliver?
  {
    var txs := [DepositTx(d.depositor, d.amount)];
    Block(d.number, H(d.number, txs, call.header), txs, true, call.header, call.body)
  }

  /** The block of a deposit event on the store, taken or not. */
  lemma {:induction false} DepositStored(sg: Signer, kv: map<bytes, bytes>, H: BlockHash, node: Node, n: Numbers,
                                         e: Event, b: Block)
    requires NamesNumbers(H) && Refines(kv, node) && HeadHash(H, kv, n.stored) && HeadIs(kv, n.stored)
    requires n.stored <= n.head && e.DepositEvent? && b == DepositBlock(e) && Storable(b)
    requires b.hash == H(b.number, b.txs, b.header) && b.number % CHILD_BLOCK_INTERVAL != 0
    ensures Accepted(sg, node, e) == e.stored
    ensures b.hash == HashUnder(kv, HEAD_BLOCK_KEY) ==> b.number == n.stored
    ensures Refines(Committed(kv, n.head, b, e.stored), Step(sg, node, e))
    ensures HeadHash(H, Committed(kv, n.head, b, e.stored), NumberStep(n, Deposited(b.number, e.stored)).stored)
  {
    StepRefines(sg, kv, n.head, node, e);
    HeadHashAfter(H, kv, n, b);
  }

  lemma {:induction false} DeliverCarries(sg: Signer, kv: map<bytes, bytes>, H: BlockHash, start: Node, l: Life,
                                          call: Call, b: Block)
    requires NamesNumbers(H) && Carries(sg, kv, H, start, l) && HeadIs(kv, l.n.stored)
    requires call.Deliver? && Encodable(call) && call.k < |l.c.pending| && Numerable(l)
    requires b == DeliveredBlockOf(H, l.c.pending[call.k], call)
    ensures var taken := Takes(call.f, 1);
            var r := LifeStep(sg, H, start, l, call);
            && Storable(b) && IsDepositNumber(b.number, l.n.next)
            && (b.hash == HashUnder(kv, HEAD_BLOCK_KEY) ==> b.number == l.n.stored)
            && Carries(sg, Committed(kv, l.n.head, b, taken), H, start, r)
            && r.n == NumberStep(l.n, Deposited(b.number, taken))
  {
    var d := l.c.pending[call.k];
    var node, e := Run(sg, start, l.es), DeliveredEvent(H, d, call);
    EventNumber(node, Missed(sg, start, l.es), l.n, l.c, call.k);
    DepositStored(sg, kv, H, node, l.n, e, b);
    DeliverSound(sg, H, start, l, call);
    FiledStep(sg, kv, l.n.head, H, start, l.es, e, b);
    RunSnoc(sg, start, l.es, e);
  }

  method LiveDeposit(op: Operator, H: BlockHash, call: Call, c0: Contract, ghost start: Node, ghost l: Life)
    returns (c: Contract)
    requires NamesNumbers(H) && Lives(op, H, start, l) && c0 == l.c
    requires call.Deliver? && Encodable(call) && call.k < |c0.pending| && Numerable(l)
    modifies op, op.chain, op.chain.db, op.chain.db.defaultBatch
    ensures Lives(op, H, start, LifeStep(op.chain.sg, H, start, l, call))
    ensures c == LifeStep(op.chain.sg, H, start, l, call).c
  {
    var d := c0.pending[call.k];
    ghost var b := DeliveredBlockOf(H, d, call);
    DeliverCarries(op.chain.sg, op.chain.db.kv, H, start, l, call, b);
    var hash := H(d.number, [DepositTx(d.depositor, d.amount)], call.header);
    var v := TrackDeposit(op, d.number, d.depositor, d.amount, hash, call.header, call.body, call.f, b,
                          Run(op.chain.sg, start, l.es).utxos, l.n);
    c := c0.(pending := Without(c0.pending, call.k));
  }

  method LiveRestart(op0: Operator, H: BlockHash, ghost start: Node, ghost l: Life) returns (op: Operator)
    requires Lives(op0, H, start, l)
    ensures op.chain.sg == op0.chain.sg && op.chain.db == op0.chain.db && fresh(op) && fresh(op.chain)
    ensures Lives(op, H, start, LifeStep(op.chain.sg, H, start, l, RestartCall))
  {
    RestartSound(op0.chain.sg, H, start, l);
    RunSnoc(op0.chain.sg, start, l.es, Restart(NumberStep(l.n, Restarted).child));
    FiledRestart(op0.chain.sg, op0.chain.db.kv, H, start, l.es, NumberStep(l.n, Restarted).child);
    op := TrackRestart(op0.chain.db, op0.chain.sg, l.n);
  }

  // ---- Whole lives ----

  lemma {:induction false} FilesTaken(kv: map<bytes, bytes>, H: BlockHash, bs: seq<Block>, used: set<nat>)
    requires Filed(kv, H, bs, used)
    ensures forall i :: 0 <= i < |bs| ==> Files(kv, bs[i])
  {
    forall i | 0 <= i < |bs|
      ensures Files(kv, bs[i])
    {
      assert FiledOne(kv, H, bs[i], used);
    }
  }

  method LiveCall(op0: Operator, H: BlockHash, call: Call, c0: Contract, ghost start: Node, ghost l: Life)
    returns (op: Operator, c: Contract)
    requires NamesNumbers(H) && Lives(op0, H, start, l) && c0 == l.c
    requires Encodable(call) && Numerable(l)
    modifies op0, op0.chain, op0.chain.db, op0.chain.db.defaultBatch
    ensures op.chain.db == op0.chain.db && op.chain.sg == op0.chain.sg
    ensures (op == op0 || fresh(op)) && (op.chain == op0.chain || fresh(op.chain))
    ensures Lives(op, H, start, LifeStep(op.chain.sg, H, start, l, call))
    ensures c == LifeStep(op.chain.sg, H, start, l, call).c
  {
    op, c := op0, c0;
    match call
    case SealCall(_, _, _, _, _, _) =>
      c := LiveSeal(op, H, call, c0, start, l);
    case ArriveCall(k) =>
      LifeStepSound(op.chain.sg, H, start, l, call);
      if k < c0.flying {
        c := Submit(c0);
      }
    case ContractDeposit(depositor, amount) =>
      LifeStepSound(op.chain.sg, H, start, l, call);
      c := MakeDeposit(c0, depositor, amount);
    case Deliver(k, _, _, _) =>
      if k < |c0.pending| {
        c := LiveDeposit(op, H, call, c0, start, l);
      }
    case RestartCall =>
      op := LiveRestart(op0, H, start, l);
  }

  /** Drive an operator through any life: seals, deposits delivered in any order, any store failures,
      submissions that arrive late or never, and restarts.  The store, the counters and the contract are
      exactly those of the life that the calls determine. */
  method Operate(op0: Operator, H: BlockHash, calls: seq<Call>, c0: Contract, ghost start: Node, ghost l: Life)
    returns (op: Operator, c: Contract)
    requires NamesNumbers(H) && Lives(op0, H, start, l) && c0 == l.c
    requires Livable(op0.chain.sg, H, start, l, calls)
    modifies op0, op0.chain, op0.chain.db, op0.chain.db.defaultBatch
    ensures op.chain.db == op0.chain.db && op.chain.sg == op0.chain.sg
    ensures Lives(op, H, start, LifeAfter(op.chain.sg, H, start, l, calls))
    ensures c == LifeAfter(op.chain.sg, H, start, l, calls).c
    ensures var taken := Taken(op.chain.sg, start, LifeAfter(op.chain.sg, H, start, l, calls).es);
            forall i :: 0 <= i < |taken| ==> Files(op.chain.db.kv, taken[i])
    ensures var life := LifeAfter(op.chain.sg, H, start, l, calls);
            var node := Run(op.chain.sg, start, life.es);
            LedgerRuns.Inv(op.chain.sg, start) ==>
              && LedgerRuns.Inv(op.chain.sg, node) && Represents(op.chain.db.kv, node.utxos)
              && Sum(node.utxos) + node.fees == node.deposited
              && node.deposited + PendingTotal(c.pending) + Missed(op.chain.sg, start, life.es) == c.total
  {
    if LedgerRuns.Inv(op0.chain.sg, start) {
      LifeSound(op0.chain.sg, H, start, l, calls);
    }
    op, c := op0, c0;
    ghost var r := l;
    for i := 0 to |calls|
      invariant op.chain.db == op0.chain.db && op.chain.sg == op0.chain.sg
      invariant (op == op0 || fresh(op)) && (op.chain == op0.chain || fresh(op.chain))
      invariant r == LifeAt(op0.chain.sg, H, start, l, calls, i)
      invariant Lives(op, H, start, r) && c == r.c
    {
      assert LivableCall(op0.chain.sg, H, start, l, calls, i);
      op, c := LiveCall(op, H, calls[i], c, start, r);
      r := LifeStep(op0.chain.sg, H, start, r, calls[i]);
    }
    FilesTaken(op.chain.db.kv, H, Taken(op.chain.sg, start, r.es), Run(op.chain.sg, start, r.es).used);
  }

  // ---- The first start ----

  /** The blocks a store knows. */
  function KnownBlocks(kv: map<bytes, bytes>): (r: set<(nat, bytes)>) {
    set k | k in kv.Keys && |k| == 41 && HasBlock(kv, Value(k[1..9]), k[9..]) :: (Value(k[1..9]), k[9..])
  }

  lemma {:induction false} KnownBlocksExact(kv: map<bytes, bytes>, m: nat, h: bytes)
    requires m < TWO64 && |h| == 32
    ensures (m, h) in KnownBlocks(kv) <==> HasBlock(kv, m, h)
  {
    var k := HeaderKey(m, h);
    assert k[1..9] == EncodeNumber(m) && k[9..] == h;
    PowWidths();
    ValueOfBigEndianExact(m, 8);
  }

  /** Any store that holds a genesis block as its head and no outputs is a first start, whatever other
      blocks it holds. */
  lemma {:induction false} FirstStartLives(op: Operator, H: BlockHash)
    requires op.chain.db.Valid() && op.chain.db.batch == null
    requires op.currentChildBlock == 0 && op.chain.head == op.chain.header == 0
    requires HeadIs(op.chain.db.kv, 0) && HeadHash(H, op.chain.db.kv, 0) && Represents(op.chain.db.kv, map[])
    ensures Lives(op, H, Fresh(0, KnownBlocks(op.chain.db.kv)), Newborn())
  {
    var kv := op.chain.db.kv;
    NewbornSound(op.chain.sg, KnownBlocks(kv));
    forall m: nat, h: bytes | m < TWO64 && |h| == 32
      ensures HasBlock(kv, m, h) <==> (m, h) in KnownBlocks(kv)
    {
      KnownBlocksExact(kv, m, h);
    }
  }
}
