# A verified model of a Plasma MVP side chain

This project models, in Dafny, the core of a Plasma side chain: the root-chain contract that guards
deposits and runs the exit game, the child-chain ledger of unspent outputs that the operator and the
validators maintain, the transactional byte store under that ledger, and the data structures both sides
share (Merkle trees, RLP, the exit queue). Every result is a statement about all inputs or all runs.

`dafny verify dfyconfig.toml` checks the whole project.

## Layout

| file | content |
|---|---|
| `Protocol.dfy` | the interval between child blocks, which both chains share |
| `Bytes.dfy`, `Packing.dfy` | byte strings, big-endian numbers, 256-bit shift and or, queue entries `priority << 128 or position` |
| `PriorityQueue.dfy` | the array heap with its two percolation loops, against an ascending list |
| `ExitGame.dfy` | the root-chain contract as a state machine: one action per public call, plus the passing of time |
| `ExitGameRuns.dfy` | the invariant of the state machine and its preservation by every action |
| `ExitGuarantees.dfy` | what the invariant means over whole runs |
| `ExitInclusion.dfy` | exits and challenges that rest on a Merkle proof: exactly which ones the contract accepts, by the kind of root |
| `ExitRecords.dfy` | which call put each block and exit on record; when submissions, deposits and fee exits succeed |
| `ExitOnce.dfy` | when an output is exited at most once, and the runs in which it is exited and paid twice |
| `RootChain.dfy` | the contract as an object with storage and the heap, refining the state machine call by call |
| `Merkle.dfy`, `MerkleTree.dfy` | roots, proofs and the two verifiers; the pointer tree that builds them |
| `Ledger.dfy`, `LedgerRuns.dfy` | transaction and block validation; the ledger's state machine and its whole-run laws |
| `Store.dfy` | keys, values, batches and the simulated transaction over the key-value store |
| `Nodes.dfy`, `NodeRuns.dfy` | operator and validator writing blocks to the store under arbitrary faults; one block on the store against one step of the ledger; the validator against the operator |
| `Archive.dfy` | what the store keeps of every block, and the keys of the head of the chain |
| `PeerBlocks.dfy` | a node that takes its blocks from peers: blocks that are not validated, and runs of blocks in any order |
| `ChildNumbers.dfy` | child-block numbers across rejections, failures, submissions on their way or lost, and restarts |
| `OperatorLives.dfy` | the life of an operator as a state machine: seals, deposit events in any order, faults, submissions that arrive late or never, and restarts |
| `OperatorRuns.dfy` | an operator on its store, following such a life byte for byte |
| `SideChain.dfy` | the contract and the operator together: one run of both chains |
| `EvmMemory.dfy`, `Rlp.dfy` | contract memory, the word-wise slice, and the RLP encoder and decoder on memory |
| `PlasmaRlp.dfy` | what the contract reads out of transaction bytes: the exited output, and the position a challenge names |
| `Downloader.dfy` | the scan for missing block numbers |

## Assumptions

- The hash is an arbitrary function on byte strings. Where a result depends on its collision resistance,
  the result names the two colliding inputs instead of assuming there are none. The exit game assumes that
  no hash value is the zero word, which the contract uses for "no block" (`NeverZero`).
- Signature recovery, the encoded size of a transaction, the match between a header and its transactions,
  and the byte encodings of headers and bodies are given with each transaction or block.
- Exit-game runs are those whose clock and positions stay below 2^128 and that start fewer than 10^9 fee
  exits (`Bounded`). The clock never goes back. A transfer fails when the account refuses it or the balance
  is too small. The only exit queue is the one the constructor makes, for ether.
- A public call or a block write is one atomic step; a call that reverts changes nothing; the store applies
  a batch atomically, and a failed request changes nothing.
- A deposit event is delivered at most once, in any order, at any time after the contract made it; amounts
  are present; block numbers given to the store are below 2^63, a block has at most 2^32 transactions, and
  blocks with different numbers have different hashes, whatever their headers (`Clean`, `Livable`,
  `NamesNumbers`; `OperatorLives.ShortLife` says how many calls the numbers last for). In the runs of nodes
  the store may fail any write, delete or commit, but reads succeed.
- In the runs of both chains the operator's account submits the blocks that the operator seals and nothing
  else; everybody else may call the contract in any way (`ProperMoves`).
- The fee field and output amounts are signed integers of any size, as in the program.

## Where the code does not do what one would expect

Each of these is kept as it is, with the exact condition under which the expected law holds.

- A queue entry splits back into its parts if and only if both are below 2^128 (`Packing.PackRoundTrip`);
  `PackedHalves` says what it splits into otherwise.
- A deposit exit looks only at the block part of the position, so every position of a deposit block names
  the same deposit. A depositor who has exited at one position is accepted again at every other position
  not started yet (`ExitOnce.SecondDepositExit`), and both exits are paid (`ExitOnce.DepositPaidTwice`). A
  deposit is exited at most once if deposit exits name the first position of their block
  (`ExitOnce.DepositExitedOnce`).
- The contract checks proofs of 16 levels, so it sees the transaction index of a position modulo 65536
  (`Merkle.AcceptsExactly`). An exit that was accepted is accepted again at every other position of the
  same output (`ExitOnce.SecondOutputExit`), and both are paid (`ExitOnce.OutputPaidTwice`). An output is
  exited at most once if transaction indexes stay below 65536 (`ExitOnce.OutputExitedOnce`).
- The Merkle verifiers take the sides of a proof from the bits of the leaf index. That agrees with the tree
  for every leaf if and only if the number of leaves, after padding, is a power of two
  (`Merkle.BitsAreTurnsExactly`). Padding only makes the number even; with six leaves, whatever the hash, a
  valid proof is rejected when its leaf and sibling differ (`Merkle.SixLeavesFail`).
- A challenge names the sum of three fields in a row, starting at three times an index the challenger gives,
  not the position the fields of an input stand for. With good proofs it challenges a position if and only if the
  fields add up to it (`PlasmaRlp.ChallengesExactly`, `SpendClearsExit`). At the index of an input that is the output the input
  spends only if block number and transaction index are zero (`PlasmaRlp.OwnIndexMisses`); at index 2, which
  reads token, first owner and first amount, it can be (`PlasmaRlp.IndexTwoReaches`). What the reader calls the
  input count is the product of the two block numbers (`PlasmaRlp.ExitedOutput`).
- The contract expects a transaction as one flat list of eleven fields with a token and no fee. The node's own
  encoding is nested inputs and outputs, a fee and signatures (`core/types/transaction.go:43-51`), so the bytes
  that the node stores and hashes are not the bytes that the contract reads.
- A block whose number is not a multiple of 1000 is written without validation. Whatever output there is, such a
  block can remove it unsigned and make another of any amount (`PeerBlocks.UnsignedTaken`). It adds one deposit
  and nothing else if and only if its number has no outputs yet and it holds one transaction that names no
  existing output and has an empty second output (`PeerBlocks.UnvalidatedExact`). If all accepted blocks are such
  or child blocks, and no number is used twice, the ledger of a node fed by peers is balanced
  (`PeerBlocks.PeersBalanced`).
- A deposit event is marked as handled whether or not the operator's store took it
  (`core/rootchain.go:203-209`). What it did not take is missing from the ledger for good; the contract's total is
  the deposits taken over, those still to be delivered and those missed (`OperatorLives.LifeSound`).
- The operator submits the root of a trie over its transactions as the block root
  (`core/rootchain.go:279-289`), and nothing calls its own Merkle proof (`core/operator.go:320-328`). The
  contract's check against the root of a full binary tree is exact (`ExitInclusion.MemberExactly`), but
  against the hash of anything that is not 64 bytes long nothing is included, unless a collision is shown
  (`ExitInclusion.MemberOfOddRoot`). Deposit roots are of that kind (`ExitInclusion.DepositBlockExits`).
- The range check of a slice is made on a sum that wraps around at 2^256, so a slice can begin before its array,
  or have a huge length in front of bytes that were never copied (`EvmMemory.Memory.Slice`). The result is the
  subsequence for every range whose sum does not wrap and that is not empty.
- An empty slice never writes its length, so it comes out empty if and only if the word at the free pointer
  happens to be zero (`EvmMemory.Memory.Slice`, `EmptySliceCounterexample`). The address encoder has the
  same dependence on the memory it builds in (`LayOutAddress`).
- The validator only logs a failed delete. For every block it commits, its outputs are the operator's and exactly
  those that a failed delete spared (`NodeRuns.ValidatorEffectExact`); for a valid child block there are none if
  and only if no delete of a real input failed (`ChildBlockEffect`), and for a deposit block there never are
  (`DepositBlockEffect`). With this store a delete inside an open transaction never fails
  (`Store.LDBDatabase.Delete`), so such a failure can only come from another implementation of the output store.
- The operator's next child number and the contract's agree if and only if no submission is on its way and
  every block lost so far was lost before the store took it and undone by a restart before the next commit. A
  block committed but not sent, or lost and then followed by a commit, puts the operator ahead for good
  (`ChildNumbers.NumbersAgreeExactly`).
- A challenged exit still reaches the head of the queue and is then paid to the zero address. "Nobody"
  below means that its exitor, and every other account, gets nothing.
- The comment on `BeginTx` says that the transaction manages all later operations. Only writes are: reads
  see the committed store (`Store.LDBDatabase.Get`), so a block's inputs are checked against the state
  before the block.

## Model

| member | source | states |
|---|---|---|
| `Packing.PackedHalves` | rootchain/contracts/PriorityQueue.sol:138-142 | for all 256-bit arguments, what `priority << 128 or value` splits into: the low half of the priority or-ed with the high half of the value, and the low half of the value |
| `Packing.BitOrBits` | rootchain/contracts/PriorityQueue.sol:53-53 | a bit of the or used for packing is set exactly if it is set in one of the operands |
| `Packing.PackRoundTrip` | rootchain/contracts/PriorityQueue.sol:53-142 | packing and splitting are inverse if and only if both parts are below 2^128 |
| `Packing.PackOrder` | rootchain/contracts/PriorityQueue.sol:53-53 | below 2^128, entries compare as (priority, value) pairs, and are equal only if the pairs are |
| `Queues.PriorityQueue.constructor` | rootchain/contracts/PriorityQueue.sol:36-40 | a new queue is a valid empty heap owned by its creator |
| `Queues.PriorityQueue.Insert` | rootchain/contracts/PriorityQueue.sol:52-57 | only the owner inserts; the contents gain exactly the packed entry; heap order and the zero at index 0 are kept |
| `Queues.PriorityQueue.GetMin` | rootchain/contracts/PriorityQueue.sol:63-65 | fails exactly on the empty queue, otherwise returns the parts of a least entry |
| `Queues.PriorityQueue.DelMin` | rootchain/contracts/PriorityQueue.sol:71-79 | fails exactly for strangers and on the empty queue; otherwise removes one least entry and returns its parts |
| `Queues.PriorityQueue.MinChild` | rootchain/contracts/PriorityQueue.sol:91-101 | a child that no child undercuts |
| `Queues.PriorityQueue.PercUp` | rootchain/contracts/PriorityQueue.sol:106-115 | the upward hole loop stops at the sentinel, restores heap order and keeps the multiset |
| `Queues.PriorityQueue.PercDown` | rootchain/contracts/PriorityQueue.sol:120-131 | the downward hole loop restores heap order and keeps the multiset |
| `Queues.HoleUpStep` | rootchain/contracts/PriorityQueue.sol:109-113 | moving the parent into the hole keeps the order around the hole and the multiset of the virtual heap |
| `Queues.HoleDownStep` | rootchain/contracts/PriorityQueue.sol:123-129 | moving the least child into the hole keeps the order around the hole and the multiset |
| `Queues.RootIsLeast` | rootchain/contracts/PriorityQueue.sol:63-65 | in heap order the root is at most every entry |
| `Queues.Replay` | rootchain/contracts/PriorityQueue.sol:52-79 | for every interleaving of inserts and removals the heap gives exactly the answers of an ascending list |
| `ExitGameRuns.StepInv` | rootchain/contracts/RootChain.sol:112-292 | every action, succeeding or reverting, keeps the invariant: numbering, recorded amounts, the single ascending line of finalised and queued exits, who is owed what, maturity of everything finalised, and the balance |
| `ExitGameRuns.RunInv` | rootchain/contracts/RootChain.sol:93-292 | the invariant holds after every run from deployment |
| `ExitGameRuns.RunExtends` | rootchain/contracts/RootChain.sol:112-292 | blocks, deposits, started, challenged and finalised exits on record are never changed or removed by the rest of a run |
| `ExitGameRuns.EnteredInv` | rootchain/contracts/RootChain.sol:350-378 | entering an exit into the queue keeps the invariant, in particular nothing already finalised lies behind it |
| `ExitGameRuns.DrainInv` | rootchain/contracts/RootChain.sol:268-292 | the finalisation loop keeps the invariant for every set of refusing accounts |
| `ExitGameRuns.DepositNumbering` | rootchain/contracts/RootChain.sol:131-147 | a deposit takes a number not used before and extends the gap-free run after the last child block |
| `ExitGameRuns.SubmitNumbering` | rootchain/contracts/RootChain.sol:112-126 | a submission takes the next unused multiple of 1000 and starts a new interval |
| `ExitGuarantees.ExitPriority` | rootchain/contracts/RootChain.sol:268-378 | over every run: an exit started within a week of its output's creation is finalised before any finalised exit of an output created strictly later |
| `ExitGuarantees.FinalisedOnce` | rootchain/contracts/RootChain.sol:268-292 | over every run: finalisations are in strictly ascending queue order, at distinct positions |
| `ExitGuarantees.FinalisedRight` | rootchain/contracts/RootChain.sol:268-292 | over every run: every finalised exit was finalised only after creation + 1209600 and start + 604800 seconds, for the recorded amount, and to the exitor, or to nobody exactly if it was challenged before |
| `ExitGuarantees.FlagExact` | rootchain/contracts/RootChain.sol:225-292 | over every run: a finalised exit is marked as challenged if and only if some earlier state has it challenged and not yet finalised |
| `ExitGuarantees.Solvency` | rootchain/contracts/RootChain.sol:131-292 | over every run the balance is what the successful deposits brought in less the amounts of finalised exits |
| `ExitGuarantees.QueueHoldsLiveExits` | rootchain/contracts/RootChain.sol:350-378 | every queued entry of every reachable state is a started exit with a recorded positive amount, maturing at the later of creation + 1209600 and start + 604800 seconds, queued once and not finalised |
| `ExitGuarantees.ExitsKept` | rootchain/contracts/RootChain.sol:225-378 | over every run, at every position: the contract's entry is empty if no exit was started there; otherwise it keeps ether and the amount, and the exitor exactly until the exit is challenged or finalised |
| `ExitGuarantees.FinalisedCleared` | rootchain/contracts/RootChain.sol:225-292 | over every run: a finalised exit has no owner left, its amount stays on record, and no challenge that an account confirmed succeeds against it |
| `ExitGuarantees.NoRestart` | rootchain/contracts/RootChain.sol:359-375 | over every run: a position started at any point keeps its record and can never be started again, by any of the three calls |
| `ExitGuarantees.ChallengedNeverPaid` | rootchain/contracts/RootChain.sol:225-292 | over every run: an exit challenged before it is finalised is finalised, if ever, to the zero address |
| `ExitGuarantees.FinalizeExact` | rootchain/contracts/RootChain.sol:268-292 | a finalisation that completes pops exactly the matured entries, in queue order, and leaves no matured entry |
| `ExitGuarantees.FinalizeSucceedsExactly` | rootchain/contracts/RootChain.sol:268-292 | over every run: finalising succeeds if and only if the token is ether, the queue is not empty, no exitor due refuses the money, and deposits less earlier payments cover everything due |
| `ExitGuarantees.DrainSucceeds` | rootchain/contracts/RootChain.sol:276-290 | the same for the loop alone, from any state with distinct queued positions |
| `ExitGuarantees.BlockNumbers` | rootchain/contracts/RootChain.sol:93-147 | over every run: no block entry of any earlier state ever changes, and the numbers in use are the multiples of 1000 below the child counter and a gap-free run of deposits strictly inside each interval |
| `ExitGuarantees.FeeExitsApart` | rootchain/contracts/RootChain.sol:176-182 | over every run: the fee exits are exactly the started positions below 10^9, they took the ids 1, 2, 3 and so on without a gap, and the operator's next fee exit with a positive amount succeeds |
| `ExitGuarantees.DepositBytesInjective` | rootchain/contracts/RootChain.sol:131-169 | the packed bytes a deposit root commits to determine owner, token and amount |
| `ExitGame.DepositFields` | rootchain/contracts/RootChain.sol:131-169 | the bytes a deposit root commits to are 20 of owner, 20 of token and 32 of amount, most significant first |
| `ExitGame.PositionOfOutput` | rootchain/contracts/RootChain.sol:191-205 | a position is block number times 10^9 plus transaction index times 10^4 plus output index, and is taken apart so |
| `ExitGuarantees.DepositExitExact` | rootchain/contracts/RootChain.sol:155-169 | over every run: the depositor's own exit of a positive amount at an unstarted position is accepted, and any accepted call is such an exit or exhibits a hash collision |
| `ExitInclusion.MemberExactly` | rootchain/contracts/Merkle.sol:9-30 | against the root of a full tree the contract accepts the tree's own proof of the leaf a position names, and anything else it accepts exhibits a collision |
| `ExitInclusion.MemberOfOddRoot` | rootchain/contracts/Merkle.sol:9-30 | against the hash of anything but two words, any accepted proof exhibits a collision with it |
| `ExitInclusion.StartExitExact` | rootchain/contracts/RootChain.sol:191-214 | over every run and for every root: an exit is accepted if and only if the exitor itself asks, signatures are good, the amount is positive ether, the position was never started and the transaction is included in a written block; inclusion is exact for full-tree roots and a collision for hashes of anything but two words |
| `ExitInclusion.ChallengeExact` | rootchain/contracts/RootChain.sol:225-249 | over every run, for all transaction bytes, every index and every root: a call whose bytes name the position of a queued, unchallenged exit succeeds if and only if the exitor confirmed the spend and the transaction is included in the named block, and then nobody is due its amount; any other call leaves the exit as it was |
| `ExitInclusion.DepositBlockExits` | rootchain/contracts/RootChain.sol:131-214 | over every run: a transaction exit accepted at a position of a deposit block exhibits a collision with that deposit |
| `ExitOnce.DepositExitedOnce` | rootchain/contracts/RootChain.sol:155-169 | over every run whose deposit exits name the first position of their block: a deposit is exited at most once, or a transaction exit of the run exhibits a collision |
| `ExitOnce.SecondDepositExit` | rootchain/contracts/RootChain.sol:155-169 | over every run: after a depositor's exit at one position, the same exit at another position of the block is accepted if and only if that position is different and was never started |
| `ExitOnce.DepositPaidTwice` | rootchain/contracts/RootChain.sol:155-292 | a run of six calls in which one deposit is exited at the first two positions of its block and paid twice |
| `ExitOnce.OutputExitedOnce` | rootchain/contracts/RootChain.sol:191-214 | over every run whose transaction indexes stay below 65536: an output of a child block is exited at most once |
| `ExitOnce.SecondOutputExit` | rootchain/contracts/RootChain.sol:191-214 | over every run: after an accepted exit, the same exit at another position of the same output is accepted if and only if that position is different and was never started |
| `ExitOnce.OutputPaidTwice` | rootchain/contracts/RootChain.sol:191-292 | for every leaf, every 512-byte proof and every positive amount: a run in which one output is exited at transaction indexes 0 and 65536 and paid twice |
| `ExitRecords.BlockProvenance` | rootchain/contracts/RootChain.sol:112-147 | over every run: each block was written by one call, at the time it carries; child blocks by the operator with the submitted root, deposit blocks by a deposit its root commits to |
| `ExitRecords.ExitProvenance` | rootchain/contracts/RootChain.sol:155-214 | over every run: each exit was started by one call of its own exitor, for its amount, dated by the block its position names, or one second ahead for the operator's fee exits |
| `ExitRecords.CallsExact` | rootchain/contracts/RootChain.sol:112-182 | over every run: submission succeeds exactly for the operator, a deposit exactly while the current interval has a free number, a fee exit exactly for the operator and a positive amount of ether |
| `RootChains.RootChain.constructor` | rootchain/contracts/RootChain.sol:93-103 | deployment establishes the initial state of the state machine |
| `RootChains.RootChain.SubmitBlock` | rootchain/contracts/RootChain.sol:112-126 | refines the submit action; succeeds exactly when the state machine's action does |
| `RootChains.RootChain.Deposit` | rootchain/contracts/RootChain.sol:131-147 | refines the deposit action |
| `RootChains.RootChain.AddExitToQueue` | rootchain/contracts/RootChain.sol:350-378 | storage and heap change as the state machine's queue insertion says, or not at all |
| `RootChains.RootChain.StartDepositExit` | rootchain/contracts/RootChain.sol:155-169 | refines the deposit-exit action |
| `RootChains.RootChain.StartFeeExit` | rootchain/contracts/RootChain.sol:176-182 | refines the fee-exit action |
| `RootChains.RootChain.StartExit` | rootchain/contracts/RootChain.sol:191-214 | refines the exit action on the output read from the transaction bytes, with the contract's own membership loop; unreadable bytes revert |
| `RootChains.RootChain.ChallengeExit` | rootchain/contracts/RootChain.sol:225-249 | refines the challenge action on the position read from the transaction bytes at the challenger's index; bytes that name none revert |
| `RootChains.RootChain.GetNextExit` | rootchain/contracts/RootChain.sol:256-262 | reverts exactly for a token without a queue and for an empty queue; otherwise the maturity time and position of the head of the abstract queue |
| `RootChains.RootChain.FinalizeExits` | rootchain/contracts/RootChain.sol:268-292 | the popping loop on storage and heap terminates and refines the finalisation action |
| `Merkle.ProofReachesRoot` | core/merkle.go:47-104 | for any number of leaves, climbing from a leaf along its proof on the tree's own sides reaches the root |
| `Merkle.TwoLeaves` | core/merkle.go:72-104 | the order of hashing: the root of two leaves hashes the first, then the second, and a one-step proof puts the sibling behind leaf 0 and in front of leaf 1 |
| `Merkle.ProofLength` | core/merkle.go:47-68 | for any n leaves every proof is at least the floor and at most the ceiling of log2 n long |
| `Merkle.LogBounds` | core/merkle.go:86-104 | the two logarithms used are the floor and the ceiling of log2 |
| `Merkle.BitsAreTurnsExactly` | core/merkle.go:72-104 | the index bits name the right side at every level for every leaf if and only if the leaf count is a power of two |
| `Merkle.Completeness` | core/merkle.go:47-104 | with a power of two of leaves the verifier accepts every leaf's own proof, of length log2 n |
| `Merkle.Soundness` | core/merkle.go:47-104 | with 2^k leaves, an accepted k-element proof of 32-byte words at index i is the tree's own proof of leaf i, or two colliding hash inputs are exhibited |
| `Merkle.IndexWraps` | core/merkle.go:72-84 | over 2^k leaves the verifier sees an index modulo 2^k |
| `Merkle.AcceptsExactly` | core/merkle.go:72-84 | for any index and any proof of k words: accepted if and only if it is the tree's own proof of the leaf at the index modulo 2^k, up to an exhibited collision |
| `Merkle.AcceptsOwnProof` | core/merkle.go:47-104 | for any leaf count: the verifier accepts the tree's own proof exactly when every level where the index bit names the wrong side has equal siblings, up to an exhibited collision |
| `Merkle.SixLeavesFail` | core/merkle.go:72-104 | for every hash: the tree's own proof of leaf 1 of six is rejected when leaves 1 and 2 differ, or the two climbs exhibit a collision |
| `Merkle.OddRootCollides` | core/merkle.go:72-84 | for every hash: a proof accepted against the hash of anything but two words exhibits a collision |
| `Merkle.Verify` | core/merkle.go:72-84 | the loop decides acceptance by index bits; a negative index counts by its absolute value, as truncating division and remainder make it |
| `Merkle.CheckMembership` | rootchain/contracts/Merkle.sol:9-30 | reverts exactly unless the proof has 512 bytes, and then decides the same acceptance on the proof cut into 32-byte words |
| `MerkleTrees.TopHash` | core/merkle.go:86-104 | the hash at the top of a linked tree is the root of its leaf hashes |
| `MerkleTrees.LeafPath` | core/merkle.go:47-68 | from each leaf the parent links lead to the top past exactly the siblings of its proof |
| `MerkleTrees.MerkleTree.New` | core/merkle.go:30-42 | no tree for no leaves; otherwise a linked tree whose leaf i has hash i, with one leaf of 32 zero bytes at the end exactly for an odd number, and the root of all leaves on top |
| `MerkleTrees.MerkleTree.BuildTree` | core/merkle.go:86-104 | allocates a fresh linked tree over the given hashes and appends its tips to the leaves in order |
| `MerkleTrees.MerkleTree.Proof` | core/merkle.go:47-68 | climbing the parent links returns the proof of the leaf, and nothing for an index out of range |
| `Ledger.Validate` | core/tx_validator.go:24-84 | the loops with early returns give the first failing check, and accept exactly the valid transactions; the first recovered sender owns the first real input of an accepted one, the second the second |
| `Ledger.TxErrors` | core/tx_validator.go:24-84 | the exact condition of each of the eight errors a transaction can get, and of acceptance |
| `Ledger.ValidTxSpends` | core/tx_validator.go:30-81 | every accepted transaction has a real input, spends only existing outputs and moves a positive amount |
| `Ledger.MarkSpent` | core/block_validator.go:57-74 | adds the inputs of a transaction to the spent map, failing exactly if one is there already |
| `Ledger.ValidateTxs` | core/block_validator.go:51-77 | accepts exactly the lists of valid transactions with pairwise disjoint inputs |
| `Ledger.TxsVerdictMeaning` | core/block_validator.go:51-77 | the sequential verdict is acceptance if and only if all transactions are valid and no input repeats |
| `Ledger.TxsErrors` | core/block_validator.go:51-77 | a rejected list gets the error of the first transaction that is not valid, or a duplicate spend for the first that names an input of an earlier one |
| `Ledger.BlockErrors` | core/block_validator.go:32-49 | a number that is not a multiple of 1000 is always taken; a child block is refused if known, then if its header does not match, then for the first fault among its transactions, and taken otherwise |
| `LedgerRuns.BlockEffect` | core/operator.go:186-221 | a valid block removes exactly its inputs, adds exactly its outputs, and the ledger loses exactly the fees |
| `LedgerRuns.BlockOutputs` | core/operator.go:195-221 | output o of transaction k of a valid block is held under (block number, k, o) with the owner and amount the transaction states |
| `LedgerRuns.DepositEffect` | core/operator.go:251-270 | a deposit block adds the deposit under output 0 and an empty output 1, and nothing else; its null inputs remove nothing |
| `LedgerRuns.DepositAtChildNumber` | core/operator.go:170-178 | a deposit event that names a multiple of 1000 is validated as a child block and rejected |
| `LedgerRuns.RunInv` | core/operator.go:162-285 | the ledger invariant (outputs made and not spent, nothing made or spent twice, every output as it was made, numbers in use, money) holds after every run of seals, deposits, store failures and restarts |
| `LedgerRuns.Conservation` | core/operator.go:162-285 | over every run: unspent outputs plus the fees of accepted child blocks equal the deposits |
| `LedgerRuns.LedgerExact` | core/operator.go:162-285 | over every run: no output is made twice, and the ledger holds exactly the outputs made and not consumed, each with the owner and amount it was made with |
| `LedgerRuns.NoDoubleSpend` | core/operator.go:162-285 | over every run: no output is consumed twice; every consumed output was made with that owner and amount, and an input of a sealed transaction names it whose own recovered sender, first for the first input and second for the second, is its owner |
| `LedgerRuns.DepositCommutes` | core/operator.go:162-270 | a valid child block stays valid after a fresh deposit, and both orders give the same ledger |
| `Store.MakeUtxoKey` | core/rawdb/schema.go:119-126 | the 14-byte buffer filled field by field is the prefix and the three fields, most significant byte first |
| `Store.UtxoKeyInjective` | core/rawdb/schema.go:119-126 | different output ids have different keys |
| `Store.OutputBytes` | core/rawdb/schema.go:119-126 | the 14 bytes of an output key and the bytes of its value, field by field |
| `Store.BlockKeyBytes` | core/rawdb/schema.go:77-108 | the bytes of the header, body, canonical and number keys, field by field |
| `Store.HeadKeyBytes` | core/rawdb/schema.go:32-39 | the three head keys are the texts LastBlock, LastHeader and LastFast |
| `Store.ChainKeys` | core/rawdb/schema.go:78-126 | no header, body, canonical, number or head key is ever an output key |
| `Store.CoinRoundTrip` | core/rawdb/accessors_chain.go:325-350 | a written output is read back as it was |
| `Store.LastWriteWins` | store/database.go:143-155 | after a batch a key has the value of its last write |
| `Store.UnwrittenKept` | store/database.go:143-155 | a key the batch does not write keeps its value |
| `Store.LDBDatabase.Put` | store/database.go:68-74 | inside a transaction only the batch grows; outside the store changes unless it fails |
| `Store.LDBDatabase.Get` | store/database.go:81-87 | reads see the committed store only; a failed read and a missing key are both errors |
| `Store.LDBDatabase.Has` | store/database.go:76-78 | presence in the committed store, or an error |
| `Store.LDBDatabase.Delete` | store/database.go:90-96 | inside a transaction only the batch grows; outside the key is removed unless the store fails |
| `Store.LDBDatabase.BeginTx` | store/database.go:131-139 | opens an empty transaction, or reports that one is open |
| `Store.LDBDatabase.CommitTx` | store/database.go:143-155 | applies all pending writes in order and closes, or changes nothing |
| `Store.LDBDatabase.RollbackTx` | store/database.go:158-166 | drops the pending writes, leaves the store and closes |
| `Store.RepresentsTxs` | core/rawdb/accessors_chain.go:340-350 | committing the writes of a list of transactions turns the represented ledger into what the transactions make of it |
| `Store.RepresentsUnique` | core/rawdb/accessors_chain.go:325-337 | a store represents at most one ledger |
| `Nodes.CommitRepresents` | core/operator.go:162-233 | committing everything an accepted block writes, head keys included, turns the represented ledger into the block's result |
| `Nodes.BlockChain.WriteBlock` | core/blockchain.go:514-533 | validates against the committed outputs and queues header and body exactly on acceptance |
| `Nodes.BlockChain.ReplaceHead` | core/blockchain.go:322-340 | queues the canonical and head keys and moves the heads in memory |
| `Nodes.Operator.constructor` | core/operator.go:75-76 | the counter starts at the multiple of 1000 at or below the head header |
| `Nodes.Operator.Seal` | core/operator.go:135-155 | takes the next multiple of 1000 even when the block is rejected, and writes the block |
| `Nodes.Operator.HandleDepositEvent` | core/operator.go:251-270 | writes the block with the one deposit transaction: two null inputs, the deposit, an empty output and fee 1 |
| `Nodes.Operator.WriteBlock` | core/operator.go:162-233 | for every pattern of failures the transaction opened here is closed and the store holds everything the block writes or is unchanged; an open transaction is left alone |
| `Nodes.Validator.constructor` | core/validator.go:44-61 | the counter starts at the multiple of 1000 at or above the head header |
| `Nodes.Validator.WriteBlock` | core/validator.go:95-160 | as the operator's, except that failed deletes are skipped: the exact verdict, store, ledger, heads and child counter for every pattern of failures |
| `NodeRuns.CommitKnows` | core/rawdb/accessors_chain.go:284-287 | committing a block makes that block known and no other |
| `NodeRuns.StepRefines` | core/operator.go:162-233 | one block on the store, taken or not, refines one step of the ledger |
| `NodeRuns.Replicate` | core/validator.go:95-160 | from equal stores and without store errors, both nodes take a block sequence to the same store, heads and verdicts: those of validating each block against what the blocks before it left and committing it exactly if it is valid |
| `NodeRuns.ReplicaVerdicts` | core/operator.go:162-233 | for every block sequence there is one verdict per block, and each is the validation of the block against the state after the blocks before it |
| `Archive.CommitFiles` | core/rawdb/accessors_chain.go:283-287 | after a commit the header, the body and the number of the block are found under its header, body and number key |
| `Archive.CommitKeepsFile` | core/rawdb/accessors_chain.go:283-287 | a commit of a block with another hash leaves all three as they were |
| `Archive.CommitHeads` | core/blockchain.go:322-340 | a commit above the head writes the block's hash under its canonical key and as last block, and, unless it was canonical, as last header and last fast block; any other commit leaves these keys alone |
| `Archive.ReplicaFiles` | core/validator.go:95-160 | for every block sequence: an accepted block is found in the store, header, body and number, until a later accepted block has its hash |
| `NodeRuns.ValidatorEffectExact` | core/validator.go:122-146 | for every block, valid or not, and every pattern of failed deletes: the validator's outputs are the operator's and exactly those that a failed delete spared and nothing later in the block touched |
| `NodeRuns.ChildBlockEffect` | core/validator.go:122-146 | a valid child block has the operator's effect on the validator if and only if no delete of a real input failed |
| `NodeRuns.DepositBlockEffect` | core/validator.go:101-146 | a deposit block has the operator's effect on the validator whatever deletes fail |
| `PeerBlocks.UnvalidatedExact` | core/validator.go:101-104 | every block that is no child block is taken; it adds one deposit and nothing else if and only if its number has no outputs yet and it is shaped like a deposit |
| `PeerBlocks.UnsignedTaken` | core/validator.go:101-146 | for every output of every ledger: a block at an unused deposit number removes it unsigned and makes another of any amount, although its header does not match |
| `PeerBlocks.PeersBalanced` | core/validator.go:95-160 | over every sequence of blocks in any order, if accepted blocks name new numbers and are child blocks or shaped like deposits: nothing is made or spent twice or without its owner's signature, and unspent outputs plus fees are the deposits |
| `PeerBlocks.ReplicaHolds` | core/validator.go:95-160 | the store of a node given any blocks holds the ledger that taking them leads to |
| `PeerBlocks.ReplicaBalanced` | core/validator.go:95-160 | so what that store holds, with the fees, is what was deposited, under the same condition on the blocks |
| `ChildNumbers.ChildNumbersIncrease` | core/operator.go:273-276 | over every run with rejections, failed commits, submissions that arrive late or never, and restarts, the committed child numbers are strictly increasing multiples of 1000 |
| `ChildNumbers.NumbersAgreeExactly` | core/operator.go:75-285 | over every run, restarts included: by how many intervals the operator is ahead of the contract, and that they agree if and only if no submission is on its way and every lost block was lost before the store took it and undone by a restart before the next commit |
| `ChildNumbers.LoadLastState` | core/blockchain.go:180-218 | nothing exactly if the last block is missing; otherwise its number, and the number of the last header if that is stored, else that of the block again |
| `ChildNumbers.CommitMovesHead` | core/blockchain.go:322-340 | committing a block above the head makes it the block a restart finds |
| `ChildNumbers.CommitKeepsHead` | core/operator.go:162-233 | committing a block not above the head in memory leaves what a restart finds alone |
| `ChildNumbers.TrackSeal` | core/operator.go:135-233 | sealing with any faults is one step of the number machine, for the counter, the heads in memory and the head in the store |
| `ChildNumbers.TrackDeposit` | core/operator.go:235-270 | a deposit with any faults is one step of the number machine |
| `ChildNumbers.TrackRestart` | core/blockchain.go:180-218 | a restart reads its heads from the store and is one step of the number machine |
| `OperatorLives.LifeSound` | core/operator.go:75-285 | over every life (seals, deposits delivered in any order, store failures, submissions mined later or never, restarts) the ledger's events are a clean run, its invariant holds, unspent outputs plus fees equal the deposits taken over, and the contract's total is exactly those, the deposits still to be delivered and those missed |
| `OperatorLives.ShortLife` | core/operator.go:273-276 | the child numbers last for every life with one interval left per call |
| `OperatorRuns.Operate` | core/operator.go:75-285 | for every sequence of calls the operator on its store ends exactly where the state machine of lives ends: stored outputs, known blocks, counter, heads and its view of the contract are those the calls determine; the header, body and number of every block ever taken are found under its keys; the ledger invariant holds, and the contract's total is what the stored bytes say is unspent, the fees, the deposits still to be delivered and those missed |
| `OperatorRuns.FirstStartLives` | core/operator.go:58-78 | any store with a genesis block as head and no outputs, whatever other blocks it holds, is a start of such a life |
| `SideChain.DepositShown` | rootchain/contracts/RootChain.sol:131-147 | a deposit on the contract, accepted or not, is the deposit the operator's view of the contract makes |
| `SideChain.SubmitShown` | rootchain/contracts/RootChain.sol:112-126 | a submission by the operator is the submission in its view of the contract |
| `SideChain.OtherCalls` | rootchain/contracts/RootChain.sol:155-292 | no exit, challenge or finalisation, and no submission by a stranger, changes counters, blocks or deposits |
| `SideChain.WorldJoined` | core/rootchain.go:280-303 | after every run of both chains, with submissions mined at any later time and calls by anyone in between: the operator's life is sound, its view agrees with the contract's storage, every deposit block of the ledger is a deposit of the contract, and the contract is where its own calls lead |
| `SideChain.LedgerBacked` | core/operator.go:162-285 | over every run of both chains: unspent outputs, all fees, the deposits still to be delivered and those missed add up exactly to the contract's balance plus what it has paid out |
| `SideChain.DepositsExitable` | rootchain/contracts/RootChain.sol:131-169 | over every run of both chains: a deposit on the ledger was made on the contract with that owner and amount, and its owner's exit is accepted if and only if its position was not started |
| `SideChain.Serve` | core/operator.go:75-285 | the operator on its store, run beside the contract: the stored bytes are the ledger of the joint run, and the same equation holds of what they say is unspent |
| `EvmMemory.Memory.CopyWords` | rootchain/contracts/ByteUtils.sol:22-34 | the word loop copies exactly its range and changes nothing below it |
| `EvmMemory.Memory.Slice` | rootchain/contracts/ByteUtils.sol:9-49 | for every start and length whose sum does not wrap: reverts exactly past the end of the array; a non-empty result is the subsequence and the free pointer moves to the first multiple of 32 behind it; an empty one is empty if and only if the free word was zero. For a sum that wraps: exactly when it is accepted, and what is then copied or, if the end of the copy wraps too, that only the length is written. Memory below the free pointer, apart from the pointer itself, is unchanged |
| `EvmMemory.EmptySliceCounterexample` | rootchain/contracts/ByteUtils.sol:9-49 | a memory in which the array left at the free pointer, which an empty slice returns, is not empty |
| `EvmMemory.AddressLaidOut` | rootchain/contracts/RLPEncode.sol:29-38 | the array built by the assembly is the address if and only if the 20 bytes it leaves unwritten in the length word were zero |
| `EvmMemory.Memory.LayOutAddress` | rootchain/contracts/RLPEncode.sol:29-38 | the same for the assembly block itself, with the free pointer moved by 52 |
| `Rlp.MergeBytes` | rootchain/contracts/RLPEncode.sol:91-104 | the byte loops build the concatenation |
| `Rlp.ToBinary` | rootchain/contracts/RLPEncode.sol:130-145 | writing 32 bytes and skipping zeros gives the shortest big-endian form |
| `Rlp.BuildList` | rootchain/contracts/RLPEncode.sol:76-82 | the merging loop gives prefix and concatenated items |
| `Rlp.NumItems` | rootchain/contracts/RLP.sol:72-82 | the pointer walk ends and counts the items |
| `Rlp.ToList` | rootchain/contracts/RLP.sol:39-52 | reverts exactly on a non-list and otherwise collects the items of the walk |
| `Rlp.PrefixRead` | rootchain/contracts/RLP.sol:85-138 | from an encoded prefix, whatever follows it, the decoder reads the item's length, its payload offset and whether it is a list (Appendix B of the Ethereum Yellow Paper) |
| `Rlp.EncodedSelfDelimiting` | rootchain/contracts/RLPEncode.sol:17-122 | every encoding, nested lists included, is read as one item of its own length whatever follows it |
| `Rlp.BytesShortest` | rootchain/contracts/RLPEncode.sol:17-26 | the encoding of a string is the shortest of all byte strings that are read back as it, and the only one of its length |
| `Rlp.TreeShortest` | rootchain/contracts/RLPEncode.sol:17-122 | the same for every nested structure, among all encodings whose items end where their prefixes say |
| `Rlp.SmallEncodings` | rootchain/contracts/RLPEncode.sol:17-82 | numbers from 1 to 127 are their own encoding; zero and the empty list are the bytes 128 and 192 |
| `Rlp.UintRead` | rootchain/contracts/RLP.sol:166-177 | from any item: a payload of 1 to 32 bytes as a number, and 0 for any other length |
| `Rlp.AddressRead` | rootchain/contracts/RLP.sol:153-164 | from any item: the 20 bytes behind the first one if it is 21 bytes long, and a revert otherwise |
| `Rlp.ListRoundTrip` | rootchain/contracts/RLP.sol:39-138 | decoding an encoded list in any memory returns exactly the encodings of its items, in order |
| `Rlp.TreeRoundTrip` | rootchain/contracts/RLP.sol:39-138 | the whole nested structure comes back, to any depth |
| `Rlp.UintRoundTrip` | rootchain/contracts/RLP.sol:166-177 | every 256-bit number, zero included, comes back whatever lies behind it in memory, and its encoding has no leading zero |
| `Rlp.AddressRoundTrip` | rootchain/contracts/RLP.sol:153-164 | every address comes back whatever lies behind it in memory |
| `PlasmaRlp.TxRead` | rootchain/contracts/RLP.sol:39-177 | the eleven fields of an encoded transaction come back as they were, each at its own index, in any memory |
| `PlasmaRlp.NamedPosition` | rootchain/contracts/PlasmaRLP.sol:17-28 | for every index a challenger gives: the position read from a transaction is the 256-bit sum of three fields in a row, and an index past the fields reverts |
| `PlasmaRlp.IndexTwoNames` | rootchain/contracts/PlasmaRLP.sol:17-28 | index 2 names the 256-bit sum of token, first owner and first amount |
| `PlasmaRlp.NamesItsInput` | rootchain/contracts/PlasmaRLP.sol:17-28 | the position read for an input is block number plus transaction index plus output index; it is the position of the spent output if and only if the first two are zero |
| `PlasmaRlp.ChallengesExactly` | rootchain/contracts/RootChain.sol:225-249 | in every state, for every transaction, index and position: the call clears the exit at the position exactly if the fields at the index add up to it and the proofs are good, and otherwise leaves it as it was |
| `PlasmaRlp.SpendClearsExit` | rootchain/contracts/RootChain.sol:225-249 | in every state and for every index: a challenge with a transaction changes the exit of an output it spends if and only if the fields at the index add up to its position, the proofs are good and there is an owner to clear |
| `PlasmaRlp.OwnIndexMisses` | rootchain/contracts/PlasmaRLP.sol:17-28 | at the index of an input the fields add up to the position of the output it spends if and only if block number and transaction index are zero |
| `PlasmaRlp.IndexTwoReaches` | rootchain/contracts/PlasmaRLP.sol:17-28 | for every real block: a transaction that spends its first output and whose first amount is that position reaches it at index 2, and not at the index of its input |
| `PlasmaRlp.ExitedOutput` | rootchain/contracts/PlasmaRLP.sol:30-42 | for every position: owner, token and amount read are those of the output it names; output indexes from 2 on revert; the input count is the product of the inputs' block numbers |
| `Downloader.MaxIsLargest` | network/p2phandlers/block.go:166-176 | the number computed from the two counters is the largest block number written so far |
| `Downloader.SkipLosesNothing` | network/p2phandlers/block.go:106-110 | when a number has no entry, nothing up to the end of its interval has one |
| `Downloader.Scan` | network/p2phandlers/block.go:101-111 | the loop with its jumps terminates and requests, in ascending order, exactly the written numbers above the start |

## Left out

- Keccak, secp256k1 recovery, the trie behind the transaction root, LevelDB and the LRU caches: code of other projects; they appear as given functions or as a map.
- The signature checks (`Validate.sol`, `ECRecovery.sol`): their verdicts are arbitrary inputs of the exit and challenge actions.
- Transaction bytes in the exit actions: the state machine takes the fields read from the bytes as inputs, so its laws hold for whatever is read; `RootChains.RootChain.StartExit` and `ChallengeExit` read them, and `PlasmaRlp` says what is read from well-formed bytes.
- Tokens other than ether: the contract never creates a second queue, so every call that names another token reverts, as modelled.
- `RLP.copy`, `RLP.toBytes`, `RLP.toBoolean`, `encodeInt`, `encodeBool`: not on the contract's path.
- Event polling, replay after a restart and ABI calls in `rootchain.go`: network input; deposit events arrive as inputs.
- `HeaderChain`, `InsertChain`, `TxPool` and `Validator.ProcessRemoteBlock`: inherited code for parent-linked chains, or without a caller.
- Commands, peer-to-peer and HTTP plumbing, logging, genesis files: no logic to state laws about.
- Goroutines sharing one batch: a block write is one step; only the guard against a second open transaction is modelled.
- Absent (nil) amounts, owners or outputs: the program would crash on them.
- A value under an output key shorter than an address: the program would crash on it; no such value is ever written.
- Failing reads in the runs of nodes: the store's read methods model the error; validation and restarts are stated for reads that succeed.
- Heap sizes and byte lengths beyond 2^256: sizes are unbounded.
- `Rlp.EncodeAddress`: takes the 20 bytes as given; how the contract lays them out in memory is `EvmMemory.Memory.LayOutAddress`.
- Downloading from peers: the scan assumes a peer answers and a fixed contract state.
