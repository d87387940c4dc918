/**
 How a validator scans the root chain for blocks it does not have: one number
 after the other, jumping to the next multiple of 1000 at the first number
 without an entry.
 */
module Downloader {
  import opened Bytes
  import opened Protocol
  import opened ExitGame
  import opened ExitGameRuns

  /** The highest number to look at, computed from the contract's two counters. */
  function MaxBlockNum(childBlock: nat, depositBlock: nat): (r: int) {
    childBlock - CHILD_BLOCK_INTERVAL + depositBlock - 1
  }

  /** It is the largest number written so far, or 0 if there is none. */
  lemma {:induction false} MaxIsLargest(childBlock: nat, depositBlock: nat, blocks: set<nat>)
    requires Numbering(childBlock, depositBlock, blocks)
    ensures var top := MaxBlockNum(childBlock, depositBlock);
            && (forall n :: n in blocks ==> n <= top)
            && (if blocks == {} then top == 0 else top in blocks)
  {
    var top := MaxBlockNum(childBlock, depositBlock);
    assert top > 0 ==> top in blocks;
  }

  /** Inside an interval the written numbers have no gaps. */
  lemma {:induction false} NoGapBelow(childBlock: nat, depositBlock: nat, blocks: set<nat>, b: nat, n: nat)
    requires Numbering(childBlock, depositBlock, blocks)
    requires n in blocks && b <= n && b % CHILD_BLOCK_INTERVAL > 0
    requires b / CHILD_BLOCK_INTERVAL == n / CHILD_BLOCK_INTERVAL
    ensures b in blocks
    decreases n - b
  {
    if b < n {
      assert (n - 1) / CHILD_BLOCK_INTERVAL == b / CHILD_BLOCK_INTERVAL;
      assert HasPrevious(blocks, n);
      NoGapBelow(childBlock, depositBlock, blocks, b, n - 1);
    }
  }

  /** Skipping to the next interval skips no entry. */
  lemma {:induction false} SkipLosesNothing(childBlock: nat, depositBlock: nat, blocks: set<nat>, b: nat, n: nat)
    requires Numbering(childBlock, depositBlock, blocks)
    requires 0 < b <= MaxBlockNum(childBlock, depositBlock) && b !in blocks
    requires b <= n < b / CHILD_BLOCK_INTERVAL * CHILD_BLOCK_INTERVAL + CHILD_BLOCK_INTERVAL
    ensures n !in blocks
  {
    assert b % CHILD_BLOCK_INTERVAL > 0;
    assert n / CHILD_BLOCK_INTERVAL == b / CHILD_BLOCK_INTERVAL;
    if n in blocks {
      NoGapBelow(childBlock, depositBlock, blocks, b, n);
    }
  }

  /** One pass over the numbers above `start`: the blocks requested are exactly those with an entry,
      in ascending order. */
  method Scan(childBlock: nat, depositBlock: nat, root: nat -> bytes, start: nat, ghost blocks: set<nat>)
    returns (requested: seq<nat>)
    requires Numbering(childBlock, depositBlock, blocks)
    requires forall n :: root(n) == Zeros(32) <==> n !in blocks
    ensures forall n :: n in requested <==> start < n && n in blocks
    ensures forall i, j :: 0 <= i < j < |requested| ==> requested[i] < requested[j]
  {
    var maxBlockNum := MaxBlockNum(childBlock, depositBlock);
    MaxIsLargest(childBlock, depositBlock, blocks);
    requested := [];
    var blockNum: nat := start + 1;
    while blockNum <= maxBlockNum
      invariant start < blockNum
      invariant forall n :: n in requested <==> start < n < blockNum && n in blocks
      invariant forall i, j :: 0 <= i < j < |requested| ==> requested[i] < requested[j]
      decreases maxBlockNum - blockNum
    {
      if root(blockNum) == Zeros(32) {
        var next := blockNum / CHILD_BLOCK_INTERVAL * CHILD_BLOCK_INTERVAL + CHILD_BLOCK_INTERVAL - 1;
        forall n: nat | blockNum <= n <= next
          ensures n !in blocks
        {
          SkipLosesNothing(childBlock, depositBlock, blocks, blockNum, n);
        }
        blockNum := next;
      } else {
        assert forall i :: 0 <= i < |requested| ==> requested[i] in requested;
        requested := requested + [blockNum];
      }
      blockNum := blockNum + 1;
    }
  }
}
