/**
 * Reward-record synthesis: the records for the block reward and the uncle
 * rewards, which the EVM tracer does not produce.
 */
module Rewards {
  import opened Wrappers
  import opened TraceTypes
  import opened Backend

  /**
   * The wire shape of a synthesised reward record: type "reward", an action
   * carrying the amount, the credited account and the reward kind, no
   * sub-traces, an empty trace address, no transaction, and the block's own
   * hash and number.
   */
  predicate IsRewardRecord(t: ParityTrace, block: Block, rewardType: string, author: Address, value: nat)
  {
    && t.traceType == "reward"
    && t.action == TraceRewardAction(Some(value), Some(author), rewardType)
    && t.subtraces == 0
    && t.traceAddress == []
    && t.transactionHash.None?
    && t.transactionPosition.None?
    && t.blockHash == block.hash
    && t.blockNumber == block.header.number
    && t.error == ""
    && t.result == Nil
  }

  function RewardTrace(block: Block, author: Address, value: nat, rewardType: string): ParityTrace
  {
    ParityTrace(
      action := TraceRewardAction(Some(value), Some(author), rewardType),
      blockHash := block.hash,
      blockNumber := block.header.number,
      error := "",
      result := Nil,
      subtraces := 0,
      traceAddress := [],
      transactionHash := None,
      transactionPosition := None,
      traceType := "reward")
  }

  /** `traceBlockReward`: the miner's reward, credited to the block's coinbase. */
  function TraceBlockReward(eth: Ethereum, block: Block): (t: ParityTrace)
    ensures IsRewardRecord(t, block, "block", block.header.coinbase,
                           eth.getRewards(block.header, block.uncles).miner)
  {
    RewardTrace(block, block.header.coinbase, eth.getRewards(block.header, block.uncles).miner, "block")
  }

  /**
   * The slots `traceBlockUncleRewards` returns for a block and its uncle-reward
   * list: one slot per reward; slot i holds the "uncle" record of uncle i when
   * that uncle exists and stays nil otherwise. Uncles past the reward list get
   * no slot.
   */
  function UncleRewardSlots(block: Block, uncleRewards: seq<nat>): (slots: seq<Option<ParityTrace>>)
    ensures |slots| == |uncleRewards|
    ensures forall i :: 0 <= i < |slots| ==> (slots[i].Some? <==> i < |block.uncles|)
    ensures forall i :: 0 <= i < |slots| && i < |block.uncles| ==>
              IsRewardRecord(slots[i].value, block, "uncle", block.uncles[i].coinbase, uncleRewards[i])
  {
    seq(|uncleRewards|, i requires 0 <= i < |uncleRewards| =>
      if i < |block.uncles| then Some(RewardTrace(block, block.uncles[i].coinbase, uncleRewards[i], "uncle"))
      else None)
  }

  /** `traceBlockUncleRewards`: fills a nil-initialised slice, one uncle at a time. */
  method TraceBlockUncleRewards(eth: Ethereum, block: Block) returns (results: seq<Option<ParityTrace>>)
    ensures results == UncleRewardSlots(block, eth.getRewards(block.header, block.uncles).uncles)
  {
    var uncleRewards := eth.getRewards(block.header, block.uncles).uncles;
    var slots := new Option<ParityTrace>[|uncleRewards|](_ => None);
    var i := 0;
    while i < |block.uncles|
      invariant 0 <= i <= |block.uncles|
      invariant forall k :: 0 <= k < slots.Length && k < i ==>
                  slots[k] == Some(RewardTrace(block, block.uncles[k].coinbase, uncleRewards[k], "uncle"))
      invariant forall k :: i <= k < slots.Length ==> slots[k] == None
    {
      if i < |uncleRewards| {
        slots[i] := Some(RewardTrace(block, block.uncles[i].coinbase, uncleRewards[i], "uncle"));
      }
      i := i + 1;
    }
    results := slots[..];
  }
}
