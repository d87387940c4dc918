/**
 What the root-chain contract promises over whole runs: who is paid, when, in
 what order and at most once.
 */
module ExitGuarantees {
  import opened Bytes
  import opened Protocol
  import opened Packing
  import opened Queues
  import opened ExitGame
  import opened ExitGameRuns
  import Merkle

  /** Index i of the list of finalised exits is the exit of position p. */
  predicate FinalisedAt(s: State, i: nat, p: nat) {
    i < |s.finalised| && Position(s.finalised[i].element) == p
  }

  /** Exit priority: an exit started within a week (in seconds) of its output's creation is finalised before
      any exit of an output created strictly later, whatever calls were made and in what order. */
  lemma {:induction false} ExitPriority(K: Merkle.Hasher, operator: Address, now: uint256, acts: seq<Action>, a: nat,
                                        b: nat, j: nat)
    requires NeverZero(K) && Bounded(From(K, operator, now, acts))
    requires var s := From(K, operator, now, acts);
             && a in s.started && s.started[a].at <= s.started[a].created + 604_800
             && b in s.started && s.started[a].created < s.started[b].created
             && FinalisedAt(s, j, b)
    ensures exists i: nat :: i < j && FinalisedAt(From(K, operator, now, acts), i, a)
  {
    var s := From(K, operator, now, acts);
    RunInv(K, operator, now, acts);
    var line := Line(s);
    var ea, eb := ElementOf(s.started[a], a), ElementOf(s.started[b], b);
    ElementParts(s.started[a], a);
    assert line[j] == s.finalised[j].element && line[j] in line;
    assert line[j] == eb;
    assert MaturesAt(s.started[a]) < MaturesAt(s.started[b]);
    assert ea < eb;
    var i: nat :| i < |line| && line[i] == ea;
    assert i < j;
    assert FinalisedAt(s, i, a);
  }

  /** Over a whole run exits are finalised in strictly ascending queue order, each position at most once. */
  lemma {:induction false} FinalisedOnce(K: Merkle.Hasher, operator: Address, now: uint256, acts: seq<Action>,
                                         i: nat, j: nat)
    requires NeverZero(K) && Bounded(From(K, operator, now, acts))
    requires i < j < |From(K, operator, now, acts).finalised|
    ensures var s := From(K, operator, now, acts);
            var f, g := s.finalised[i], s.finalised[j];
            f.element < g.element && Position(f.element) != Position(g.element)
  {
    RunInv(K, operator, now, acts);
    var line := Line(From(K, operator, now, acts));
    DistinctPositions(line, From(K, operator, now, acts).started, i, j);
    assert line[i] < line[j];
  }

  /** The position of the j-th finalised exit was challenged before it was finalised. */
  ghost predicate ChallengedBefore(K: Merkle.Hasher, operator: Address, now: uint256, acts: seq<Action>, j: nat)
    requires j < |From(K, operator, now, acts).finalised|
  {
    var p := Position(From(K, operator, now, acts).finalised[j].element);
    exists k :: 0 <= k <= |acts| && ChallengedIn(From(K, operator, now, acts[..k]), p, j)
  }

  predicate ChallengedIn(s: State, p: nat, j: nat) {
    p in s.challenged && |s.finalised| <= j
  }

  /** Every finalised exit was mature, with both waiting periods over, and paid the amount it was started
      with: to its exitor, or to nobody exactly if it was challenged before it was finalised. */
  lemma {:induction false} FinalisedRight(K: Merkle.Hasher, operator: Address, now: uint256, acts: seq<Action>, j: nat)
    requires NeverZero(K) && Bounded(From(K, operator, now, acts))
    requires j < |From(K, operator, now, acts).finalised|
    ensures var s := From(K, operator, now, acts);
            var g := s.finalised[j];
            && Position(g.element) in s.started
            && (var x := s.started[Position(g.element)];
                && g.at > x.created + 1_209_600 && g.at > x.at + 604_800
                && g.amount == x.amount
                && g.paidTo == if ChallengedBefore(K, operator, now, acts, j) then 0 else x.owner)
  {
    var s := From(K, operator, now, acts);
    RunInv(K, operator, now, acts);
    FlagExact(K, operator, now, acts, j);
    var line := Line(s);
    assert line[j] == s.finalised[j].element && line[j] in line;
    assert SettledOne(s.finalised[j], s.started, s.now);
    ElementParts(s.started[Position(line[j])], Position(line[j]));
  }

  /** The flag on a finalised exit says exactly whether it was challenged before it was finalised. */
  lemma {:induction false} FlagExact(K: Merkle.Hasher, operator: Address, now: uint256, acts: seq<Action>, j: nat)
    requires NeverZero(K) && Bounded(From(K, operator, now, acts))
    requires j < |From(K, operator, now, acts).finalised|
    ensures From(K, operator, now, acts).finalised[j].challenged <==> ChallengedBefore(K, operator, now, acts, j)
  {
    var s := From(K, operator, now, acts);
    var p := Position(s.finalised[j].element);
    if s.finalised[j].challenged {
      var k := FlaggedSince(K, operator, now, acts, j);
    }
    if ChallengedBefore(K, operator, now, acts, j) {
      var k :| 0 <= k <= |acts| && ChallengedIn(From(K, operator, now, acts[..k]), p, j);
      FlaggedAfterChallenge(K, operator, now, acts, k, p, j);
    }
  }

  lemma {:induction false} FlaggedSince(K: Merkle.Hasher, operator: Address, now: uint256, acts: seq<Action>, j: nat)
    returns (k: nat)
    requires NeverZero(K) && Bounded(From(K, operator, now, acts))
    requires j < |From(K, operator, now, acts).finalised| && From(K, operator, now, acts).finalised[j].challenged
    ensures k <= |acts|
    ensures var p := Position(From(K, operator, now, acts).finalised[j].element);
            ChallengedIn(From(K, operator, now, acts[..k]), p, j)
    decreases |acts|
  {
    k := |acts| - 1;
    var s := From(K, operator, now, acts[..k]);
    StepMonotone(K, s, acts[k]);
    RunInv(K, operator, now, acts[..k]);
    StepExtends(K, s, acts[k]);
    if j < |s.finalised| {
      var i := FlaggedSince(K, operator, now, acts[..k], j);
      assert acts[..k][..i] == acts[..i];
      k := i;
    } else {
      NewPopsCarryFlag(K, s, acts[k], j);
    }
  }

  /** What the successful deposits of a run brought in. */
  function TakenIn(K: Merkle.Hasher, operator: Address, now: uint256, acts: seq<Action>): (a: nat) {
    if acts == [] then 0
    else
      var k := |acts| - 1;
      TakenIn(K, operator, now, acts[..k]) +
      if acts[k].Deposit? && Outcome(K, From(K, operator, now, acts[..k]), acts[k]).Some? then acts[k].value else 0
  }

  lemma {:induction false} DrainKeepsCounts(s: State, refuses: set<Address>)
    requires Drain(s, refuses).Some?
    ensures var t := Drain(s, refuses).value;
            t.deposited == s.deposited && t.feeExit == s.feeExit
    decreases |s.queue|
  {
    if s.queue != [] && Priority(s.queue[0]) < s.now {
      DrainStep(s, refuses);
      DrainKeepsCounts(Pop(s), refuses);
    }
  }

  /** Only a deposit adds to what was deposited, and only a fee exit moves the fee counter on. */
  lemma {:induction false} StepCounts(K: Merkle.Hasher, s: State, a: Action)
    ensures var t, done := Step(K, s, a), Outcome(K, s, a).Some?;
            && t.deposited == s.deposited + (if a.Deposit? && done then a.value else 0)
            && t.feeExit == s.feeExit + (if a.StartFeeExit? && done then 1 else 0)
            && (a.StartFeeExit? && done ==> s.feeExit in t.started && t.started[s.feeExit].fee)
  {
    if a.FinalizeExits? && Outcome(K, s, a).Some? {
      DrainKeepsCounts(s, a.refuses);
    }
  }

  lemma {:induction false} DepositedIsTakenIn(K: Merkle.Hasher, operator: Address, now: uint256, acts: seq<Action>)
    ensures From(K, operator, now, acts).deposited == TakenIn(K, operator, now, acts)
    decreases |acts|
  {
    if acts != [] {
      var k := |acts| - 1;
      var s := From(K, operator, now, acts[..k]);
      DepositedIsTakenIn(K, operator, now, acts[..k]);
      StepCounts(K, s, acts[k]);
      assert From(K, operator, now, acts) == Step(K, s, acts[k]);
    }
  }

  /** Money: the contract always holds exactly what the successful deposits brought in less what finalised
      exits paid. */
  lemma {:induction false} Solvency(K: Merkle.Hasher, operator: Address, now: uint256, acts: seq<Action>)
    requires NeverZero(K) && Bounded(From(K, operator, now, acts))
    ensures var s := From(K, operator, now, acts);
            s.balance == s.deposited - Paid(s.finalised) && s.deposited == TakenIn(K, operator, now, acts)
  {
    RunInv(K, operator, now, acts);
    DepositedIsTakenIn(K, operator, now, acts);
  }

  /** Entry i of the queue is a started exit with a recorded positive amount, it matures at the later of two
      weeks after creation and one week after the start, and it is nowhere else on the line. */
  predicate LiveEntry(s: State, i: nat)
    requires i < |s.queue|
  {
    var p := Position(s.queue[i]);
    && p in s.started && ExitAt(s, p).amount == s.started[p].amount > 0
    && Priority(s.queue[i]) >= s.started[p].created + 1_209_600 && Priority(s.queue[i]) >= s.started[p].at + 604_800
    && (Priority(s.queue[i]) == s.started[p].created + 1_209_600 || Priority(s.queue[i]) == s.started[p].at + 604_800)
    && (forall j :: i < j < |s.queue| ==> Position(s.queue[j]) != p)
    && (forall k :: 0 <= k < |s.finalised| ==> Position(s.finalised[k].element) != p)
  }

  lemma {:induction false} EntryIsLive(s: State, i: nat)
    requires Lined(Line(s), s.started) && Recorded(s.started, s.exits) && i < |s.queue|
    ensures LiveEntry(s, i)
  {
    var n, p := |s.finalised|, Position(s.queue[i]);
    assert Line(s)[n + i] == s.queue[i] && s.queue[i] in Line(s);
    ElementParts(s.started[p], p);
    forall j | i < j < |s.queue|
      ensures Position(s.queue[j]) != p
    {
      assert Line(s)[n + j] == s.queue[j];
      DistinctPositions(Line(s), s.started, n + i, n + j);
    }
    forall k | 0 <= k < n
      ensures Position(s.finalised[k].element) != p
    {
      assert Line(s)[k] == s.finalised[k].element;
      DistinctPositions(Line(s), s.started, k, n + i);
    }
  }

  /** Every queued entry of every reachable state is live. */
  lemma {:induction false} QueueHoldsLiveExits(K: Merkle.Hasher, operator: Address, now: uint256, acts: seq<Action>)
    requires NeverZero(K) && Bounded(From(K, operator, now, acts))
    ensures var s := From(K, operator, now, acts);
            forall i :: 0 <= i < |s.queue| ==> LiveEntry(s, i)
  {
    RunInv(K, operator, now, acts);
    var s := From(K, operator, now, acts);
    forall i | 0 <= i < |s.queue|
      ensures LiveEntry(s, i)
    {
      EntryIsLive(s, i);
    }
  }

  lemma {:induction false} DistinctPositions(line: seq<nat>, started: map<nat, Started>, i: nat, j: nat)
    requires Lined(line, started) && i < j < |line|
    ensures Position(line[i]) != Position(line[j])
  {
    assert line[i] in line && line[j] in line;
  }

  /** The call would start an exit at position p. */
  predicate StartsAt(s: State, a: Action, p: nat) {
    ((a.StartDepositExit? || a.StartExit?) && a.pos == p) || (a.StartFeeExit? && s.feeExit == p)
  }

  /** An exit started at any point of a run can never be started again later in it, by any call. */
  lemma {:induction false} NoRestart(K: Merkle.Hasher, operator: Address, now: uint256, acts: seq<Action>, k: nat,
                                     p: uint256, a: Action)
    requires NeverZero(K) && Bounded(From(K, operator, now, acts)) && k <= |acts|
    requires p in From(K, operator, now, acts[..k]).started
    ensures var s := From(K, operator, now, acts);
            && p in s.started && s.started[p] == From(K, operator, now, acts[..k]).started[p]
            && (StartsAt(s, a, p) ==> Outcome(K, s, a) == None)
  {
    RunInv(K, operator, now, acts);
    RunExtends(K, operator, now, acts, k);
  }

  /** Once challenged while unfinalised, an exit never pays anyone, for the rest of the run. */
  lemma {:induction false} ChallengedNeverPaid(K: Merkle.Hasher, operator: Address, now: uint256, acts: seq<Action>,
                                               k: nat, p: nat, j: nat)
    requires NeverZero(K) && Bounded(From(K, operator, now, acts)) && k <= |acts|
    requires p in From(K, operator, now, acts[..k]).challenged
    requires |From(K, operator, now, acts[..k]).finalised| <= j
    requires FinalisedAt(From(K, operator, now, acts), j, p)
    ensures From(K, operator, now, acts).finalised[j].paidTo == 0
  {
    RunInv(K, operator, now, acts);
    FlaggedAfterChallenge(K, operator, now, acts, k, p, j);
    var s := From(K, operator, now, acts);
    assert SettledOne(s.finalised[j], s.started, s.now);
  }

  lemma {:induction false} FlaggedAfterChallenge(K: Merkle.Hasher, operator: Address, now: uint256, acts: seq<Action>,
                                                 k: nat, p: nat, j: nat)
    requires NeverZero(K) && Bounded(From(K, operator, now, acts)) && k <= |acts|
    requires p in From(K, operator, now, acts[..k]).challenged
    requires |From(K, operator, now, acts[..k]).finalised| <= j
    requires FinalisedAt(From(K, operator, now, acts), j, p)
    ensures From(K, operator, now, acts).finalised[j].challenged
    decreases |acts|
  {
    assert acts[..|acts|] == acts;
    if k < |acts| {
      var prefix, last := acts[..|acts| - 1], acts[|acts| - 1];
      var s := From(K, operator, now, prefix);
      assert prefix[..k] == acts[..k];
      StepMonotone(K, s, last);
      RunInv(K, operator, now, prefix);
      RunExtends(K, operator, now, prefix, k);
      StepExtends(K, s, last);
      if j < |s.finalised| {
        FlaggedAfterChallenge(K, operator, now, prefix, k, p, j);
      } else {
        NewPopsCarryFlag(K, s, last, j);
      }
    }
  }

  /** An entry finalised by this step is flagged exactly if its position was challenged before. */
  lemma {:induction false} NewPopsCarryFlag(K: Merkle.Hasher, s: State, a: Action, j: nat)
    requires |s.finalised| <= j < |Step(K, s, a).finalised|
    ensures var f := Step(K, s, a).finalised[j];
            f.challenged == (Position(f.element) in s.challenged)
  {
    if a.FinalizeExits? {
      DrainFlags(s, a.refuses, j);
    }
  }

  lemma {:induction false} DrainFlags(s: State, refuses: set<Address>, j: nat)
    requires Drain(s, refuses).Some? && |s.finalised| <= j < |Drain(s, refuses).value.finalised|
    ensures var f := Drain(s, refuses).value.finalised[j];
            f.challenged == (Position(f.element) in s.challenged)
    decreases |s.queue|
  {
    if s.queue != [] && Priority(s.queue[0]) < s.now {
      DrainStep(s, refuses);
      DrainExtends(Pop(s), refuses);
      if j > |s.finalised| {
        DrainFlags(Pop(s), refuses, j);
      }
    }
  }

  // ---- What the contract keeps of an exit ----

  /** The exit at p was finalised. */
  ghost predicate IsFinalised(finalised: seq<Finalised>, p: nat) {
    exists j :: 0 <= j < |finalised| && Position(finalised[j].element) == p
  }

  /** The entry at p: nothing if no exit was started there; otherwise ether, the amount it was started
      with, and its exitor until it is challenged or finalised. */
  ghost predicate Kept(s: State, p: nat) {
    ExitAt(s, p) == if p !in s.started then Exit(0, 0, 0)
                    else if p in s.challenged || IsFinalised(s.finalised, p) then Exit(0, 0, s.started[p].amount)
                    else Exit(s.started[p].owner, 0, s.started[p].amount)
  }

  lemma {:induction false} FinalisedStarted(s: State, p: nat)
    requires Settled(s.finalised, s.started, s.now) && IsFinalised(s.finalised, p)
    ensures p in s.started
  {
    var j :| 0 <= j < |s.finalised| && Position(s.finalised[j].element) == p;
    assert SettledOne(s.finalised[j], s.started, s.now);
  }

  lemma {:induction false} FinalisedSnoc(finalised: seq<Finalised>, f: Finalised, p: nat)
    ensures IsFinalised(finalised + [f], p) <==> IsFinalised(finalised, p) || Position(f.element) == p
  {
    var all := finalised + [f];
    if IsFinalised(finalised, p) {
      var j :| 0 <= j < |finalised| && Position(finalised[j].element) == p;
      assert all[j] == finalised[j];
    }
    assert all[|finalised|] == f;
  }

  lemma {:induction false} AddKept(s: State, pos: uint256, exitor: Address, token: Address, amount: uint256,
                                   created: uint256, fee: bool, p: nat)
    requires Recorded(s.started, s.exits) && Settled(s.finalised, s.started, s.now)
    requires s.challenged <= s.started.Keys && Kept(s, p)
    ensures var r := AddExit(s, pos, exitor, token, amount, created, fee);
            r.Some? ==> Kept(r.value, p)
  {
    if p == pos && p !in s.started && IsFinalised(s.finalised, p) {
      FinalisedStarted(s, p);
    }
  }

  lemma {:induction false} PopKept(s: State, p: nat)
    requires CanPop(s) && Kept(s, p)
    ensures Kept(Pop(s), p)
  {
    assert s.queue[0] in Line(s);
    FinalisedSnoc(s.finalised, Pop(s).finalised[|s.finalised|], p);
  }

  lemma {:induction false} DrainKept(s: State, refuses: set<Address>, p: nat)
    requires Inv(s) && Drain(s, refuses).Some? && Kept(s, p)
    ensures Kept(Drain(s, refuses).value, p)
    decreases |s.queue|
  {
    if s.queue != [] && Priority(s.queue[0]) < s.now {
      DrainStep(s, refuses);
      PopInv(s);
      PopKept(s, p);
      DrainKept(Pop(s), refuses, p);
    }
  }

  lemma {:induction false} StepKept(K: Merkle.Hasher, s: State, a: Action, p: nat)
    requires Inv(s) && Kept(s, p)
    ensures Kept(Step(K, s, a), p)
  {
    match a
    case StartDepositExit(sender, pos, token, amount) =>
      AddKept(s, pos, sender, token, amount, BlockAt(s, pos / BLOCK_UNIT).timestamp, false, p);
    case StartExit(_, pos, exitor, token, amount, _, _, _) =>
      AddKept(s, pos, exitor, token, amount, BlockAt(s, pos / BLOCK_UNIT).timestamp, false, p);
    case StartFeeExit(sender, token, amount) =>
      AddKept(s, s.feeExit, sender, token, amount, Plus(s.now, 1), true, p);
    case FinalizeExits(_, refuses) =>
      if Outcome(K, s, a).Some? {
        DrainKept(s, refuses, p);
      }
    case _ =>
  }

  /** Over every run, at every position: the contract keeps exactly the token and amount an exit was
      started with, and its exitor exactly until it is challenged or finalised. */
  lemma {:induction false} ExitsKept(K: Merkle.Hasher, operator: Address, now: uint256, acts: seq<Action>, p: nat)
    requires NeverZero(K) && Bounded(From(K, operator, now, acts))
    ensures Kept(From(K, operator, now, acts), p)
    decreases |acts|
  {
    if acts != [] {
      var k := |acts| - 1;
      var s := From(K, operator, now, acts[..k]);
      StepMonotone(K, s, acts[k]);
      RunInv(K, operator, now, acts[..k]);
      ExitsKept(K, operator, now, acts[..k], p);
      StepKept(K, s, acts[k], p);
    }
  }

  /** Over every run: the exit of every finalised position has no owner any more, its amount stays on
      record, and no challenge confirmed by an account succeeds against it. */
  lemma {:induction false} FinalisedCleared(K: Merkle.Hasher, operator: Address, now: uint256, acts: seq<Action>,
                                            j: nat, cPos: uint256, leaf: bytes, proof: bytes, confirmer: Address)
    requires NeverZero(K) && Bounded(From(K, operator, now, acts))
    requires j < |From(K, operator, now, acts).finalised|
    ensures var s := From(K, operator, now, acts);
            var p := Position(s.finalised[j].element);
            && p in s.started && ExitAt(s, p) == Exit(0, 0, s.started[p].amount)
            && (confirmer != 0 ==>
                  Outcome(K, s, ChallengeExit(p, cPos, leaf, proof, confirmer)) == None)
  {
    var s := From(K, operator, now, acts);
    var p := Position(s.finalised[j].element);
    RunInv(K, operator, now, acts);
    ExitsKept(K, operator, now, acts, p);
    assert IsFinalised(s.finalised, p);
    FinalisedStarted(s, p);
  }

  /** A completed finalisation pops exactly the matured entries, in queue order, and leaves no matured entry. */
  lemma {:induction false} FinalizeExact(s: State, refuses: set<Address>)
    requires Strict(s.queue) && Drain(s, refuses).Some?
    ensures var t := Drain(s, refuses).value;
            var k := |s.queue| - |t.queue|;
            && 0 <= k && t.queue == s.queue[k..]
            && Elements(t.finalised) == Elements(s.finalised) + s.queue[..k]
            && (forall i :: 0 <= i < |s.queue| ==> (Priority(s.queue[i]) < s.now <==> i < k))
  {
    var t := Drain(s, refuses).value;
    var k := |s.queue| - |t.queue|;
    DrainExtends(s, refuses);
    DrainStops(s, refuses);
    SplitLine(Elements(s.finalised), s.queue, Elements(t.finalised), t.queue, k);
    forall i | k <= i < |s.queue|
      ensures Priority(s.queue[i]) >= s.now
    {
      assert t.queue[0] == s.queue[k] <= s.queue[i];
    }
  }

  lemma {:induction false} SplitLine(f: seq<nat>, q: seq<nat>, f': seq<nat>, q': seq<nat>, k: nat)
    requires f + q == f' + q' && k <= |q| && q' == q[k..]
    ensures f' == f + q[..k]
  {
    assert f' == (f' + q')[..|f'|];
  }

  lemma {:induction false} DrainStops(s: State, refuses: set<Address>)
    requires Drain(s, refuses).Some?
    ensures var t := Drain(s, refuses).value;
            && |t.queue| <= |s.queue|
            && (t.queue == [] || Priority(t.queue[0]) >= s.now)
            && (forall i :: 0 <= i < |s.queue| - |t.queue| ==> Priority(s.queue[i]) < s.now)
    decreases |s.queue|
  {
    if s.queue != [] && Priority(s.queue[0]) < s.now {
      DrainStep(s, refuses);
      DrainStops(Pop(s), refuses);
      var t := Drain(s, refuses).value;
      forall i | 0 <= i < |s.queue| - |t.queue|
        ensures Priority(s.queue[i]) < s.now
      {
        assert i > 0 ==> s.queue[i] == Pop(s).queue[i - 1];
      }
    }
  }

  /** How many entries at the front of the queue are mature. */
  function Matured(q: seq<nat>, now: nat): (k: nat)
    ensures k <= |q|
    ensures forall i :: 0 <= i < k ==> Priority(q[i]) < now
    ensures k < |q| ==> Priority(q[k]) >= now
  {
    if q == [] || Priority(q[0]) >= now then 0 else 1 + Matured(q[1..], now)
  }

  /** What the exits of the given entries amount to. */
  function Amounts(exits: map<nat, Exit>, q: seq<nat>): (a: nat) {
    if q == [] then 0 else Lookup(exits, Position(q[0])).amount + Amounts(exits, q[1..])
  }

  ghost predicate PositionsApart(q: seq<nat>) {
    forall i, j :: 0 <= i < j < |q| ==> Position(q[i]) != Position(q[j])
  }

  /** No owner of the given entries refuses the money. */
  predicate Willing(exits: map<nat, Exit>, q: seq<nat>, refuses: set<Address>) {
    forall i :: 0 <= i < |q| ==> Lookup(exits, Position(q[i])).owner !in refuses
  }

  lemma {:induction false} WillingStep(exits: map<nat, Exit>, q: seq<nat>, refuses: set<Address>)
    requires q != []
    ensures Willing(exits, q, refuses) <==>
              Lookup(exits, Position(q[0])).owner !in refuses && Willing(exits, q[1..], refuses)
  {
    if Lookup(exits, Position(q[0])).owner !in refuses && Willing(exits, q[1..], refuses) {
      forall i | 0 <= i < |q|
        ensures Lookup(exits, Position(q[i])).owner !in refuses
      {
        assert i > 0 ==> q[i] == q[1..][i - 1];
      }
    }
  }

  /** Clearing the owner at a position none of the entries has changes nothing for them. */
  lemma {:induction false} OthersKept(exits: map<nat, Exit>, q: seq<nat>, p: nat, refuses: set<Address>)
    requires forall i :: 0 <= i < |q| ==> Position(q[i]) != p
    ensures var exits' := exits[p := Lookup(exits, p).(owner := 0)];
            Amounts(exits', q) == Amounts(exits, q) && (Willing(exits', q, refuses) <==> Willing(exits, q, refuses))
    decreases |q|
  {
    if q != [] {
      OthersKept(exits, q[1..], p, refuses);
      WillingStep(exits, q, refuses);
      WillingStep(exits[p := Lookup(exits, p).(owner := 0)], q, refuses);
    }
  }

  /** The entries that are due. */
  function DueNow(s: State): (q: seq<nat>) {
    s.queue[..Matured(s.queue, s.now)]
  }

  ghost predicate CanDrain(s: State, refuses: set<Address>) {
    Willing(s.exits, DueNow(s), refuses) && Amounts(s.exits, DueNow(s)) <= s.balance
  }

  lemma {:induction false} DueStep(s: State)
    requires s.queue != [] && Priority(s.queue[0]) < s.now
    ensures DueNow(s) != [] && DueNow(s)[0] == s.queue[0]
    ensures DueNow(s)[1..] == s.queue[1..][..Matured(s.queue[1..], s.now)]
  {
  }

  lemma {:induction false} CanDrainStep(s: State, refuses: set<Address>)
    requires PositionsApart(s.queue) && s.queue != [] && Priority(s.queue[0]) < s.now
    ensures CanDrain(s, refuses) <==> Payable(s, refuses) && CanDrain(Pop(s), refuses)
  {
    var due, p := DueNow(s), Position(s.queue[0]);
    DueStep(s);
    WillingStep(s.exits, due, refuses);
    var rest := due[1..];
    forall i | 0 <= i < |rest|
      ensures Position(rest[i]) != p
    {
      assert rest[i] == s.queue[i + 1];
    }
    OthersKept(s.exits, rest, p, refuses);
    if ExitAt(s, p).amount <= s.balance {
      assert DueNow(Pop(s)) == rest;
    }
  }

  /** The finalisation loop completes exactly if no exitor due refuses and the balance covers all that is due. */
  lemma {:induction false} DrainSucceeds(s: State, refuses: set<Address>)
    requires PositionsApart(s.queue)
    ensures Drain(s, refuses).Some? <==> CanDrain(s, refuses)
    decreases |s.queue|
  {
    if s.queue != [] && Priority(s.queue[0]) < s.now {
      CanDrainStep(s, refuses);
      if Payable(s, refuses) {
        var t := Pop(s);
        assert forall i :: 0 <= i < |t.queue| ==> t.queue[i] == s.queue[i + 1];
        DrainSucceeds(t, refuses);
      }
    }
  }

  lemma {:induction false} WillingDues(s: State, k: nat, refuses: set<Address>)
    requires Owed(s.queue, s.exits, s.started, s.challenged) && k <= |s.queue|
    ensures Willing(s.exits, s.queue[..k], refuses) <==>
              forall i :: 0 <= i < k ==> Due(Position(s.queue[i]), s.started, s.challenged) !in refuses
  {
    var due := s.queue[..k];
    forall i | 0 <= i < k
      ensures due[i] == s.queue[i]
      ensures Lookup(s.exits, Position(s.queue[i])).owner == Due(Position(s.queue[i]), s.started, s.challenged)
    {
      assert s.queue[i] in s.queue;
    }
  }

  lemma {:induction false} QueueApart(s: State)
    requires Lined(Line(s), s.started)
    ensures PositionsApart(s.queue)
  {
    var n := |s.finalised|;
    forall i, j | 0 <= i < j < |s.queue|
      ensures Position(s.queue[i]) != Position(s.queue[j])
    {
      assert Line(s)[n + i] == s.queue[i] && Line(s)[n + j] == s.queue[j];
      DistinctPositions(Line(s), s.started, n + i, n + j);
    }
  }

  /** No exitor due refuses the money, and the balance covers everything due. */
  ghost predicate CanPayAllDue(s: State, refuses: set<Address>) {
    var k := Matured(s.queue, s.now);
    && (forall i :: 0 <= i < k ==> Due(Position(s.queue[i]), s.started, s.challenged) !in refuses)
    && Amounts(s.exits, s.queue[..k]) <= s.deposited - Paid(s.finalised)
  }

  lemma {:induction false} DrainPaysAllDue(s: State, refuses: set<Address>)
    requires Lined(Line(s), s.started) && Owed(s.queue, s.exits, s.started, s.challenged)
    requires s.balance + Paid(s.finalised) == s.deposited
    ensures Drain(s, refuses).Some? <==> CanPayAllDue(s, refuses)
  {
    QueueApart(s);
    DrainSucceeds(s, refuses);
    WillingDues(s, Matured(s.queue, s.now), refuses);
  }

  /** Over every run: finalising succeeds exactly if the token is ether, the queue is not empty, no exitor due
      refuses the money and the balance covers everything due. */
  lemma {:induction false} FinalizeSucceedsExactly(K: Merkle.Hasher, operator: Address, now: uint256, acts: seq<Action>,
                                                   token: Address, refuses: set<Address>)
    requires NeverZero(K) && Bounded(From(K, operator, now, acts))
    ensures var s := From(K, operator, now, acts);
            Outcome(K, s, FinalizeExits(token, refuses)).Some? <==>
              token == 0 && s.queue != [] && CanPayAllDue(s, refuses)
  {
    RunInv(K, operator, now, acts);
    DrainPaysAllDue(From(K, operator, now, acts), refuses);
  }

  /** Numbering over every run: the written numbers are the multiples of 1000 below childBlock and a
      gap-free run of deposits after each, and no entry of an earlier state was changed or removed. */
  lemma {:induction false} BlockNumbers(K: Merkle.Hasher, operator: Address, now: uint256, acts: seq<Action>, k: nat)
    requires NeverZero(K) && Bounded(From(K, operator, now, acts)) && k <= |acts|
    ensures var s, t := From(K, operator, now, acts[..k]), From(K, operator, now, acts);
            && Numbering(t.childBlock, t.depositBlock, t.childChain.Keys)
            && (forall n :: n in s.childChain ==> n in t.childChain && t.childChain[n] == s.childChain[n])
  {
    RunExtends(K, operator, now, acts, k);
    RunInv(K, operator, now, acts);
  }

  /** The fee exits used all ids below the next one. */
  ghost predicate FeeIdsUsed(started: map<nat, Started>, feeExit: nat) {
    forall p: nat :: 0 < p < feeExit ==> p in started && started[p].fee
  }

  lemma {:induction false} FeeIdsMore(started: map<nat, Started>, feeExit: nat, started': map<nat, Started>,
                                      feeExit': nat)
    requires FeeIdsUsed(started, feeExit)
    requires forall p :: p in started ==> p in started' && started'[p] == started[p]
    requires feeExit' == feeExit || (feeExit' == feeExit + 1 && feeExit in started' && started'[feeExit].fee)
    ensures FeeIdsUsed(started', feeExit')
  {
  }

  lemma {:induction false} RunFeeIds(K: Merkle.Hasher, operator: Address, now: uint256, acts: seq<Action>)
    requires NeverZero(K) && Bounded(From(K, operator, now, acts))
    ensures var s := From(K, operator, now, acts);
            FeeIdsUsed(s.started, s.feeExit)
    decreases |acts|
  {
    if acts != [] {
      var k := |acts| - 1;
      var s := From(K, operator, now, acts[..k]);
      StepMonotone(K, s, acts[k]);
      RunInv(K, operator, now, acts[..k]);
      RunFeeIds(K, operator, now, acts[..k]);
      StepExtends(K, s, acts[k]);
      StepCounts(K, s, acts[k]);
      var t := From(K, operator, now, acts);
      FeeIdsMore(s.started, s.feeExit, t.started, t.feeExit);
    }
  }

  /** Fee exits take the ids 1, 2, 3 and so on, which are never the position of an output, so the operator's
      next fee exit is never blocked. */
  lemma {:induction false} FeeExitsApart(K: Merkle.Hasher, operator: Address, now: uint256, acts: seq<Action>,
                                         amount: uint256)
    requires NeverZero(K) && Bounded(From(K, operator, now, acts))
    ensures var s := From(K, operator, now, acts);
            && (forall p :: p in s.started ==> (s.started[p].fee <==> p < 1_000_000_000))
            && (forall p: nat :: p in s.started && s.started[p].fee <==> 0 < p < s.feeExit)
            && (amount > 0 && s.feeExit < 1_000_000_000 ==>
                  Outcome(K, s, StartFeeExit(operator, 0, amount)).Some?)
  {
    var s := From(K, operator, now, acts);
    RunInv(K, operator, now, acts);
    RunFeeIds(K, operator, now, acts);
    RunExtends(K, operator, now, acts, 0);
    assert acts[..0] == [];
    forall p | p in s.started
      ensures s.started[p].fee <==> p < BLOCK_UNIT
    {
      if !s.started[p].fee {
        PositionFits(s, p);
      }
    }
  }

  // ---- Deposit exits belong to the depositor ----

  lemma {:induction false} DepositBytesInjective(o1: Address, t1: Address, a1: uint256, o2: Address, t2: Address,
                                                 a2: uint256)
    requires DepositBytes(o1, t1, a1) == DepositBytes(o2, t2, a2)
    ensures o1 == o2 && t1 == t2 && a1 == a2
  {
    var x, y := DepositBytes(o1, t1, a1), DepositBytes(o2, t2, a2);
    assert x[..20] == BigEndian(o1, 20) && y[..20] == BigEndian(o2, 20);
    assert x[20..40] == BigEndian(t1, 20) && y[20..40] == BigEndian(t2, 20);
    assert x[40..] == BigEndian(a1, 32) && y[40..] == BigEndian(a2, 32);
    PowWidths();
    BigEndianInjective(o1, o2, 20);
    BigEndianInjective(t1, t2, 20);
    BigEndianInjective(a1, a2, 32);
  }

  lemma {:induction false} StepCommitted(K: Merkle.Hasher, s: State, a: Action)
    requires Inv(s) && Committed(K, s)
    ensures Committed(K, Step(K, s, a))
  {
    if a.FinalizeExits? && Outcome(K, s, a).Some? {
      DrainKeepsBlocks(s, a.refuses);
    }
  }

  lemma {:induction false} DrainKeepsBlocks(s: State, refuses: set<Address>)
    requires Drain(s, refuses).Some?
    ensures Drain(s, refuses).value.childChain == s.childChain && Drain(s, refuses).value.deposits == s.deposits
    decreases |s.queue|
  {
    if s.queue != [] && Priority(s.queue[0]) < s.now {
      DrainStep(s, refuses);
      DrainKeepsBlocks(Pop(s), refuses);
    }
  }

  lemma {:induction false} RunCommitted(K: Merkle.Hasher, operator: Address, now: uint256, acts: seq<Action>)
    requires NeverZero(K) && Bounded(From(K, operator, now, acts))
    ensures Committed(K, From(K, operator, now, acts))
    decreases |acts|
  {
    if acts != [] {
      var prefix := acts[..|acts| - 1];
      StepMonotone(K, From(K, operator, now, prefix), acts[|acts| - 1]);
      RunInv(K, operator, now, prefix);
      RunCommitted(K, operator, now, prefix);
      StepCommitted(K, From(K, operator, now, prefix), acts[|acts| - 1]);
    }
  }

  /** Exactly who can exit a deposit block: the depositor, in ETH, for the whole deposit, at a
      position not started before.  Anyone else succeeds only with a hash collision in hand. */
  lemma {:induction false} DepositExitExact(K: Merkle.Hasher, operator: Address, now: uint256, acts: seq<Action>,
                         sender: Address, pos: uint256, token: Address, amount: uint256)
    requires NeverZero(K) && Bounded(From(K, operator, now, acts))
    ensures var s := From(K, operator, now, acts);
            var n := pos / BLOCK_UNIT;
            var accepted := Outcome(K, s, StartDepositExit(sender, pos, token, amount)).Some?;
            var own := n in s.deposits && s.deposits[n] == DepositMade(sender, amount) && token == 0;
            && (n in s.childChain && n % CHILD_BLOCK_INTERVAL != 0 && own && amount > 0 && pos !in s.started ==>
                  accepted)
            && (accepted ==>
                  && n in s.childChain && n % CHILD_BLOCK_INTERVAL != 0 && n in s.deposits
                  && amount > 0 && pos !in s.started
                  && (own || Merkle.IsCollision(K, (DepositBytes(sender, token, amount),
                                                    DepositBytes(s.deposits[n].depositor, 0, s.deposits[n].amount)))))
  {
    var s := From(K, operator, now, acts);
    var n := pos / BLOCK_UNIT;
    RunInv(K, operator, now, acts);
    RunCommitted(K, operator, now, acts);
    if Outcome(K, s, StartDepositExit(sender, pos, token, amount)).Some? {
      assert n in s.childChain;
      var made := s.deposits[n];
      if DepositBytes(sender, token, amount) == DepositBytes(made.depositor, 0, made.amount) {
        DepositBytesInjective(sender, token, amount, made.depositor, 0, made.amount);
      }
    }
  }
}
