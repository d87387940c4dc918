/**
 The life of an operator as a state machine: seals, deposits on the root chain and
 their events delivered in any order, failing stores, submissions that arrive late
 or never, and restarts.  A life determines a run of the ledger, the child numbers and what the
 contract shows; the three always fit together.
 */
module OperatorLives {
  import opened Bytes
  import opened Protocol
  import opened Ledger
  import opened LedgerRuns
  import opened Nodes
  import opened ChildNumbers
  import opened Archive

  // ---- What the root chain shows the operator ----

  datatype DepositNote = DepositNote(number: nat, depositor: Address, amount: nat)

  /** The contract's counters, what was deposited so far, and what is on its way between the chains: the
      deposit events not yet delivered and the number of submissions not yet mined. */
  datatype Contract = Contract(next: nat, depositBlock: nat, total: nat, pending: seq<DepositNote>, flying: nat)

  /** The number the next deposit gets. */
  function Frontier(c: Contract): (n: int) {
    c.next - CHILD_BLOCK_INTERVAL + c.depositBlock
  }

  /** A deposit; the contract takes at most 999 between two child blocks. */
  function MakeDeposit(c: Contract, depositor: Address, amount: nat): (r: Contract) {
    if c.depositBlock >= CHILD_BLOCK_INTERVAL || Frontier(c) < 0 then c
    else c.(pending := c.pending + [DepositNote(Frontier(c), depositor, amount)],
            depositBlock := c.depositBlock + 1, total := c.total + amount)
  }

  /** A submission is sent; later it is mined, which is when the contract moves on. */
  function Send(c: Contract): (r: Contract) {
    c.(flying := c.flying + 1)
  }

  function Submit(c: Contract): (r: Contract)
    requires c.flying > 0
  {
    c.(next := c.next + CHILD_BLOCK_INTERVAL, depositBlock := 1, flying := c.flying - 1)
  }

  function Without(s: seq<DepositNote>, k: nat): (r: seq<DepositNote>)
    requires k < |s|
  {
    s[..k] + s[k + 1..]
  }

  function PendingTotal(s: seq<DepositNote>): (a: nat) {
    if s == [] then 0 else PendingTotal(s[..|s| - 1]) + s[|s| - 1].amount
  }

  lemma {:induction false} TotalWithout(s: seq<DepositNote>, k: nat)
    requires k < |s|
    ensures PendingTotal(s) == PendingTotal(Without(s, k)) + s[k].amount
    decreases |s|
  {
    var n := |s| - 1;
    if k == n {
      assert Without(s, k) == s[..n];
    } else {
      TotalWithout(s[..n], k);
      assert Without(s, k)[..n - 1] == Without(s[..n], k);
    }
  }

  lemma {:induction false} TotalMore(s: seq<DepositNote>, d: DepositNote)
    ensures PendingTotal(s + [d]) == PendingTotal(s) + d.amount
  {
    assert (s + [d])[..|s|] == s;
  }

  /** Undelivered events name deposit blocks of their own, none of them written or still to come. */
  ghost predicate Emitted(c: Contract, used: set<nat>) {
    && 1 <= c.depositBlock <= CHILD_BLOCK_INTERVAL <= c.next && c.next % CHILD_BLOCK_INTERVAL == 0
    && (forall i :: 0 <= i < |c.pending| ==>
          c.pending[i].number < Frontier(c) && c.pending[i].number % CHILD_BLOCK_INTERVAL != 0
          && c.pending[i].number !in used)
    && (forall i, j :: 0 <= i < j < |c.pending| ==> c.pending[i].number != c.pending[j].number)
    && (forall m :: m in used && m % CHILD_BLOCK_INTERVAL != 0 ==> m < Frontier(c))
  }

  // ---- Ledger, numbers and contract side by side ----

  /** The amounts of the deposits that were delivered and not taken: an event is delivered once, so what
      the store did not take then is never heard of again. */
  function Missed(sg: Signer, start: Node, es: seq<Event>): (a: nat) {
    if es == [] then 0
    else
      var k := |es| - 1;
      Missed(sg, start, es[..k]) + MissedAt(sg, Run(sg, start, es[..k]), es[k])
  }

  function MissedAt(sg: Signer, node: Node, e: Event): (a: nat) {
    if e.DepositEvent? && !Accepted(sg, node, e) then e.amount else 0
  }

  lemma {:induction false} MissedSnoc(sg: Signer, start: Node, es: seq<Event>, e: Event)
    ensures Missed(sg, start, es + [e]) == Missed(sg, start, es) + MissedAt(sg, Run(sg, start, es), e)
  {
    assert (es + [e])[..|es|] == es;
  }

  /** No child number in use lies above the last one committed. */
  ghost predicate ChildrenUpTo(used: set<nat>, last: nat) {
    forall m :: m in used && m % CHILD_BLOCK_INTERVAL == 0 ==> m <= last
  }

  /** Every deposit of the contract is on the ledger, still to be delivered, or among the missed ones. */
  ghost predicate Agrees(node: Node, missed: nat, n: Numbers, c: Contract) {
    && node.child == n.child && n.next == c.next && n.flying == c.flying && Emitted(c, node.used)
    && ChildrenUpTo(node.used, LastCommitted(n))
    && node.deposited + PendingTotal(c.pending) + missed == c.total
  }

  lemma {:induction false} FrontierOffset(next: nat, depositBlock: nat)
    requires next % CHILD_BLOCK_INTERVAL == 0 && depositBlock < CHILD_BLOCK_INTERVAL <= next
    ensures (next - CHILD_BLOCK_INTERVAL + depositBlock) % CHILD_BLOCK_INTERVAL == depositBlock
  {
  }

  lemma {:induction false} EmittedMore(c: Contract, used: set<nat>, d: DepositNote)
    requires Emitted(c, used) && c.depositBlock < CHILD_BLOCK_INTERVAL
    requires d.number == Frontier(c) && d.number % CHILD_BLOCK_INTERVAL != 0
    ensures Emitted(Contract(c.next, c.depositBlock + 1, c.total + d.amount, c.pending + [d], c.flying), used)
  {
  }

  lemma {:induction false} SealAgrees(sg: Signer, node: Node, missed: nat, n: Numbers, c: Contract, e: Event,
                                      ne: NumberEvent)
    requires Agrees(node, missed, n, c) && NumbersInv(n) && e.Seal? && ne.Sealed?
    requires Commits(ne) <==> Accepted(sg, node, e)
    ensures Agrees(Step(sg, node, e), missed, NumberStep(n, ne), if Commits(ne) && ne.sent then Send(c) else c)
  {
    var r, number := NumberStep(n, ne), n.child + CHILD_BLOCK_INTERVAL;
    if Commits(ne) {
      assert LastCommitted(r) == number;
      assert number % CHILD_BLOCK_INTERVAL == 0;
      EmittedSeal(c, node.used, number);
      assert Step(sg, node, e).used == node.used + {number};
    }
  }

  lemma {:induction false} ArrivalAgrees(node: Node, missed: nat, n: Numbers, c: Contract)
    requires Agrees(node, missed, n, c) && n.flying > 0
    ensures Agrees(node, missed, NumberStep(n, Arrived), Submit(c))
  {
  }

  /** A child block takes no deposit number. */
  lemma {:induction false} EmittedSeal(c: Contract, used: set<nat>, number: nat)
    requires Emitted(c, used) && number % CHILD_BLOCK_INTERVAL == 0
    ensures Emitted(c, used + {number})
  {
  }

  /** What a deposit event does to the ledger, as far as the contract is concerned. */
  lemma {:induction false} DepositTaken(sg: Signer, node: Node, e: Event)
    requires e.DepositEvent?
    ensures var r := Step(sg, node, e);
            && r.child == node.child
            && r.used == (if Accepted(sg, node, e) then node.used + {e.number} else node.used)
            && r.deposited == node.deposited + if Accepted(sg, node, e) then e.amount else 0
  {
  }

  /** Delivering an event takes it off the list, and its number may then be in use. */
  lemma {:induction false} EmittedWithout(c: Contract, used: set<nat>, k: nat)
    requires Emitted(c, used) && k < |c.pending|
    ensures Emitted(c.(pending := Without(c.pending, k)), used)
    ensures Emitted(c.(pending := Without(c.pending, k)), used + {c.pending[k].number})
  {
    var rest := Without(c.pending, k);
    forall i | 0 <= i < |rest|
      ensures rest[i] == c.pending[if i < k then i else i + 1]
      ensures rest[i].number != c.pending[k].number
    {
    }
  }

  /** Only the heads of the numbers change with a deposit. */
  lemma {:induction false} DepositedNumbers(n: Numbers, number: nat, committed: bool)
    ensures var r := NumberStep(n, Deposited(number, committed));
            r.child == n.child && r.next == n.next && r.flying == n.flying && r.committed == n.committed
  {
  }

  /** A deposit number in use, an event less and the books in balance keep the three together. */
  lemma {:induction false} AgreesOn(node: Node, missed: nat, n: Numbers, c: Contract, number: nat, node': Node,
                                    missed': nat, n': Numbers, c': Contract)
    requires Agrees(node, missed, n, c) && number % CHILD_BLOCK_INTERVAL != 0
    requires node'.child == node.child && (node'.used == node.used || node'.used == node.used + {number})
    requires n'.child == n.child && n'.next == n.next && n'.flying == n.flying && n'.committed == n.committed
    requires c'.next == c.next && c'.flying == c.flying && Emitted(c', node'.used)
    requires node'.deposited + PendingTotal(c'.pending) + missed' == c'.total
    ensures Agrees(node', missed', n', c')
  {
  }

  lemma {:induction false} MakeDepositAgrees(node: Node, missed: nat, n: Numbers, c: Contract, depositor: Address,
                                             amount: nat)
    requires Agrees(node, missed, n, c)
    ensures Agrees(node, missed, n, MakeDeposit(c, depositor, amount))
  {
    if c.depositBlock < CHILD_BLOCK_INTERVAL {
      FrontierOffset(c.next, c.depositBlock);
      var d := DepositNote(Frontier(c), depositor, amount);
      EmittedMore(c, node.used, d);
      TotalMore(c.pending, d);
      AgreesOn(node, missed, n, c, 1, node, missed, n, MakeDeposit(c, depositor, amount));
    }
  }

  lemma {:induction false} DepositAgrees(sg: Signer, node: Node, missed: nat, n: Numbers, c: Contract, k: nat,
                                         e: Event, committed: bool)
    requires Agrees(node, missed, n, c) && k < |c.pending| && e.DepositEvent?
    requires c.pending[k] == DepositNote(e.number, e.depositor, e.amount)
    requires committed <==> Accepted(sg, node, e)
    ensures Agrees(Step(sg, node, e), missed + MissedAt(sg, node, e), NumberStep(n, Deposited(e.number, committed)),
                   c.(pending := Without(c.pending, k)))
  {
    TotalWithout(c.pending, k);
    EmittedWithout(c, node.used, k);
    DepositTaken(sg, node, e);
    DepositedNumbers(n, e.number, committed);
    AgreesOn(node, missed, n, c, e.number, Step(sg, node, e), missed + MissedAt(sg, node, e),
             NumberStep(n, Deposited(e.number, committed)), c.(pending := Without(c.pending, k)));
  }

  lemma {:induction false} RestartAgrees(sg: Signer, node: Node, missed: nat, n: Numbers, c: Contract)
    requires Agrees(node, missed, n, c) && NumbersInv(n)
    ensures RestartsAt(node, NumberStep(n, Restarted).child)
    ensures Agrees(Step(sg, node, Restart(NumberStep(n, Restarted).child)), missed, NumberStep(n, Restarted), c)
  {
    FloorIsLastCommitted(n);
  }

  // ---- The calls of a life ----

  datatype Call =
    | SealCall(txs: seq<Tx>, rootOk: bool, header: bytes, body: bytes, f: Faults, sent: bool)
      // the k-th submission on its way is mined
    | ArriveCall(k: nat)
      // a deposit on the root chain, and the delivery of the k-th event still outstanding
    | ContractDeposit(depositor: Address, amount: nat)
    | Deliver(k: nat, header: bytes, body: bytes, f: Faults)
    | RestartCall

  /** Encodings are not empty and blocks fit their width. */
  predicate Encodable(call: Call) {
    match call
    case SealCall(txs, _, header, body, _, _) => |txs| <= TWO32 && header != [] && body != []
    case Deliver(_, header, body, _) => header != [] && body != []
    case _ => true
  }

  /** The store takes a block of n transactions. */
  ghost predicate Takes(f: Faults, n: nat) {
    !Stumbles(f, n) && !f.commit
  }

  /** What was lived so far: the ledger's events, the child numbers and the contract. */
  datatype Life = Life(es: seq<Event>, n: Numbers, c: Contract)

  ghost function SealEvent(H: BlockHash, n: Numbers, call: Call): (e: Event)
    requires call.SealCall?
  {
    Seal(call.txs, H(n.child + CHILD_BLOCK_INTERVAL, call.txs, call.header), call.rootOk, call.header, call.body,
         Takes(call.f, |call.txs|))
  }

  ghost function DeliveredEvent(H: BlockHash, d: DepositNote, call: Call): (e: Event)
    requires call.Deliver?
  {
    DepositEvent(d.number, d.depositor, d.amount, H(d.number, [DepositTx(d.depositor, d.amount)], call.header),
                 call.header, call.body, Takes(call.f, 1))
  }

  /** What becomes of a sealed block: is it valid, is it committed, is its submission sent. */
  function SealOutcome(sg: Signer, node: Node, e: Event, sent: bool): (ne: NumberEvent)
    requires e.Seal?
  {
    var b := SealedBlock(node, e);
    Sealed(BlockVerdict(sg, node.utxos, (b.number, b.hash) in node.known, b).Ok?, Accepted(sg, node, e), sent)
  }

  /** One call: a seal, a delivery and a restart are each one event of the ledger and of the numbers; a
      deposit is made, and a submission arrives, at the contract alone. */
  ghost function LifeStep(sg: Signer, H: BlockHash, start: Node, l: Life, call: Call): (r: Life) {
    var node := Run(sg, start, l.es);
    match call
    case SealCall(_, _, _, _, _, sent) =>
      var e := SealEvent(H, l.n, call);
      var ne := SealOutcome(sg, node, e, sent);
      Life(l.es + [e], NumberStep(l.n, ne), if Commits(ne) && sent then Send(l.c) else l.c)
    case ArriveCall(k) => if k >= l.c.flying then l else l.(n := NumberStep(l.n, Arrived), c := Submit(l.c))
    case ContractDeposit(depositor, amount) => l.(c := MakeDeposit(l.c, depositor, amount))
    case Deliver(k, _, _, _) =>
      if k >= |l.c.pending| then l
      else
        var e := DeliveredEvent(H, l.c.pending[k], call);
        Life(l.es + [e], NumberStep(l.n, Deposited(e.number, Accepted(sg, node, e))),
             l.c.(pending := Without(l.c.pending, k)))
    case RestartCall =>
      var n := NumberStep(l.n, Restarted);
      Life(l.es + [Restart(n.child)], n, l.c)
  }

  /** The life after the first i calls. */
  ghost function LifeAt(sg: Signer, H: BlockHash, start: Node, l: Life, calls: seq<Call>, i: nat): (r: Life)
    requires i <= |calls|
  {
    if i == 0 then l else LifeStep(sg, H, start, LifeAt(sg, H, start, l, calls, i - 1), calls[i - 1])
  }

  ghost function LifeAfter(sg: Signer, H: BlockHash, start: Node, l: Life, calls: seq<Call>): (r: Life) {
    LifeAt(sg, H, start, l, calls, |calls|)
  }

  // ---- Every life is sound ----

  /** The ledger run is clean, and ledger, numbers and contract fit together. */
  ghost predicate Sound(sg: Signer, start: Node, l: Life) {
    && Clean(sg, start, l.es) && NumbersInv(l.n)
    && Agrees(Run(sg, start, l.es), Missed(sg, start, l.es), l.n, l.c)
  }

  lemma {:induction false} SealSound(sg: Signer, H: BlockHash, start: Node, l: Life, call: Call)
    requires Sound(sg, start, l) && call.SealCall? && Encodable(call) && Numerable(l)
    ensures var r := LifeStep(sg, H, start, l, call);
            Sound(sg, start, r) && r.n.child == l.n.child + CHILD_BLOCK_INTERVAL
  {
    var node := Run(sg, start, l.es);
    var e := SealEvent(H, l.n, call);
    var ne := SealOutcome(sg, node, e, call.sent);
    CleanSnoc(sg, start, l.es, e);
    MissedSnoc(sg, start, l.es, e);
    SealedNumbers(l.n, ne);
    SealAgrees(sg, node, Missed(sg, start, l.es), l.n, l.c, e, ne);
  }

  lemma {:induction false} DeliverSound(sg: Signer, H: BlockHash, start: Node, l: Life, call: Call)
    requires Sound(sg, start, l) && call.Deliver? && Encodable(call) && Numerable(l)
    ensures var r := LifeStep(sg, H, start, l, call);
            Sound(sg, start, r) && r.n.child == l.n.child
  {
    if call.k < |l.c.pending| {
      var node := Run(sg, start, l.es);
      var e := DeliveredEvent(H, l.c.pending[call.k], call);
      EventNumber(node, Missed(sg, start, l.es), l.n, l.c, call.k);
      CleanSnoc(sg, start, l.es, e);
      MissedSnoc(sg, start, l.es, e);
      NumberStepInv(l.n, Deposited(e.number, Accepted(sg, node, e)));
      DepositAgrees(sg, node, Missed(sg, start, l.es), l.n, l.c, call.k, e, Accepted(sg, node, e));
    }
  }

  /** An undelivered event names a deposit block below the operator's next child number. */
  lemma {:induction false} EventNumber(node: Node, missed: nat, n: Numbers, c: Contract, k: nat)
    requires Agrees(node, missed, n, c) && NumbersInv(n) && k < |c.pending|
    ensures IsDepositNumber(c.pending[k].number, n.next) && c.pending[k].number < n.child + CHILD_BLOCK_INTERVAL
    ensures c.pending[k].number !in node.used
  {
  }

  lemma {:induction false} RestartSound(sg: Signer, H: BlockHash, start: Node, l: Life)
    requires Sound(sg, start, l)
    ensures var r := LifeStep(sg, H, start, l, RestartCall);
            Sound(sg, start, r) && r.n.child <= l.n.child
  {
    RestartAgrees(sg, Run(sg, start, l.es), Missed(sg, start, l.es), l.n, l.c);
    CleanSnoc(sg, start, l.es, Restart(NumberStep(l.n, Restarted).child));
    MissedSnoc(sg, start, l.es, Restart(NumberStep(l.n, Restarted).child));
    RestartInv(l.n);
    FloorIsLastCommitted(l.n);
  }

  lemma {:induction false} ArrivalSound(sg: Signer, H: BlockHash, start: Node, l: Life, k: nat)
    requires Sound(sg, start, l)
    ensures var r := LifeStep(sg, H, start, l, ArriveCall(k));
            Sound(sg, start, r) && r.n.child == l.n.child
  {
    if k < l.c.flying {
      NumberStepInv(l.n, Arrived);
      ArrivalAgrees(Run(sg, start, l.es), Missed(sg, start, l.es), l.n, l.c);
    }
  }

  lemma {:induction false} LifeStepSound(sg: Signer, H: BlockHash, start: Node, l: Life, call: Call)
    requires Sound(sg, start, l) && Encodable(call) && Numerable(l)
    ensures var r := LifeStep(sg, H, start, l, call);
            Sound(sg, start, r) && r.n.child <= l.n.child + CHILD_BLOCK_INTERVAL
  {
    match call
    case SealCall(_, _, _, _, _, _) => SealSound(sg, H, start, l, call);
    case ArriveCall(k) => ArrivalSound(sg, H, start, l, k);
    case ContractDeposit(depositor, amount) =>
      MakeDepositAgrees(Run(sg, start, l.es), Missed(sg, start, l.es), l.n, l.c, depositor, amount);
    case Deliver(_, _, _, _) => DeliverSound(sg, H, start, l, call);
    case RestartCall => RestartSound(sg, H, start, l);
  }

  /** There is a child number left for the next seal. */
  predicate Numerable(l: Life) {
    l.n.child + CHILD_BLOCK_INTERVAL < TWO63
  }

  /** The calls are encodable, and the child numbers are not used up at any time. */
  ghost predicate Livable(sg: Signer, H: BlockHash, start: Node, l: Life, calls: seq<Call>) {
    forall i {:trigger LivableCall(sg, H, start, l, calls, i)} :: 0 <= i < |calls| ==>
      LivableCall(sg, H, start, l, calls, i)
  }

  ghost predicate LivableCall(sg: Signer, H: BlockHash, start: Node, l: Life, calls: seq<Call>, i: nat)
    requires i < |calls|
  {
    Encodable(calls[i]) && Numerable(LifeAt(sg, H, start, l, calls, i))
  }

  lemma {:induction false} LifeAtSound(sg: Signer, H: BlockHash, start: Node, l: Life, calls: seq<Call>, i: nat)
    requires Sound(sg, start, l) && Livable(sg, H, start, l, calls) && i <= |calls|
    ensures Sound(sg, start, LifeAt(sg, H, start, l, calls, i))
  {
    if i > 0 {
      LifeAtSound(sg, H, start, l, calls, i - 1);
      assert LivableCall(sg, H, start, l, calls, i - 1);
      LifeStepSound(sg, H, start, LifeAt(sg, H, start, l, calls, i - 1), calls[i - 1]);
    }
  }

  lemma {:induction false} UpTo(i: nat, k: nat)
    requires i <= k
    ensures CHILD_BLOCK_INTERVAL * i <= CHILD_BLOCK_INTERVAL * k
  {
    MulMono(i, k, CHILD_BLOCK_INTERVAL);
  }

  /** The life is sound, and its counter has moved on by at most i intervals. */
  ghost predicate SoundWithin(sg: Signer, start: Node, l: Life, child: nat, i: nat) {
    Sound(sg, start, l) && l.n.child <= child + CHILD_BLOCK_INTERVAL * i
  }

  lemma {:induction false} NextChild(sg: Signer, H: BlockHash, start: Node, r: Life, call: Call, child: nat, i: nat,
                                     k: nat)
    requires SoundWithin(sg, start, r, child, i) && Encodable(call)
    requires i < k && child + CHILD_BLOCK_INTERVAL * (k + 1) < TWO63
    ensures SoundWithin(sg, start, LifeStep(sg, H, start, r, call), child, i + 1)
  {
    UpTo(i + 1, k + 1);
    LifeStepSound(sg, H, start, r, call);
  }

  predicate AllEncodable(calls: seq<Call>) {
    forall i :: 0 <= i < |calls| ==> Encodable(calls[i])
  }

  lemma {:induction false} LifeAtNext(sg: Signer, H: BlockHash, start: Node, l: Life, calls: seq<Call>, i: nat)
    requires i < |calls|
    ensures LifeAt(sg, H, start, l, calls, i + 1) == LifeStep(sg, H, start, LifeAt(sg, H, start, l, calls, i), calls[i])
  {
  }

  lemma {:induction false} ChildAt(sg: Signer, H: BlockHash, start: Node, l: Life, calls: seq<Call>, child: nat, i: nat)
    requires SoundWithin(sg, start, l, child, 0) && AllEncodable(calls)
    requires child + CHILD_BLOCK_INTERVAL * (|calls| + 1) < TWO63 && i <= |calls|
    ensures SoundWithin(sg, start, LifeAt(sg, H, start, l, calls, i), child, i)
  {
    if i > 0 {
      ChildAt(sg, H, start, l, calls, child, i - 1);
      LifeAtNext(sg, H, start, l, calls, i - 1);
      var r := LifeAt(sg, H, start, l, calls, i - 1);
      NextChild(sg, H, start, r, calls[i - 1], child, i - 1, |calls|);
    }
  }

  /** A life of encodable calls is livable if one child number per call is left at its start. */
  lemma {:induction false} ShortLife(sg: Signer, H: BlockHash, start: Node, l: Life, calls: seq<Call>)
    requires Sound(sg, start, l) && AllEncodable(calls)
    requires l.n.child + CHILD_BLOCK_INTERVAL * (|calls| + 1) < TWO63
    ensures Livable(sg, H, start, l, calls)
  {
    forall i | 0 <= i < |calls|
      ensures LivableCall(sg, H, start, l, calls, i)
    {
      ChildAt(sg, H, start, l, calls, l.n.child, i);
      UpTo(i + 1, |calls| + 1);
    }
  }

  /** Over every life: the ledger run is clean, its invariant holds, and what the contract took in is
      what is unspent, the fees, the deposits still to be delivered and those missed. */
  lemma {:induction false} LifeSound(sg: Signer, H: BlockHash, start: Node, l: Life, calls: seq<Call>)
    requires Sound(sg, start, l) && LedgerRuns.Inv(sg, start) && Livable(sg, H, start, l, calls)
    ensures var r := LifeAfter(sg, H, start, l, calls);
            var node := Run(sg, start, r.es);
            && Sound(sg, start, r) && LedgerRuns.Inv(sg, node)
            && Sum(node.utxos) + node.fees == node.deposited
            && node.deposited + PendingTotal(r.c.pending) + Missed(sg, start, r.es) == r.c.total
  {
    LifeAtSound(sg, H, start, l, calls, |calls|);
    LedgerRuns.RunInv(sg, start, LifeAfter(sg, H, start, l, calls).es);
  }

  /** A first start: no events yet, the numbers and the contract as they are deployed. */
  function Newborn(): (l: Life) {
    Life([], FirstStart(), Contract(CHILD_BLOCK_INTERVAL, 1, 0, [], 0))
  }

  lemma {:induction false} NewbornSound(sg: Signer, known: set<(nat, bytes)>)
    ensures Sound(sg, Fresh(0, known), Newborn()) && LedgerRuns.Inv(sg, Fresh(0, known))
  {
  }
}
