/**
 * The node services the trace module calls but does not implement: block
 * lookup, the consensus reward rules, the EVM tracers and the JSON decoder.
 * Each is a field of `Ethereum`, so every statement of the model holds for
 * whatever those services return.
 */
module Backend {
  import opened Wrappers
  import opened TraceTypes
  import opened TraceConfigs

  /** rpc.PendingBlockNumber */
  const PendingBlockNumber: Int64 := -2

  /** rpc.LatestBlockNumber */
  const LatestBlockNumber: Int64 := -1

  datatype Ethereum = Ethereum(
    /** miner.PendingBlock() */
    pendingBlock: Option<Block>,
    /** blockchain.CurrentBlock() */
    currentBlock: Option<Block>,
    /** blockchain.GetBlockByNumber, a partial map from block numbers */
    blocks: map<Uint64, Block>,
    /** ethash.GetRewards under the chain configuration: miner reward and uncle rewards */
    getRewards: (Header, seq<Header>) -> Rewards,
    /** traceBlockByNumber: the raw result of each transaction, in block order */
    traceBlockByNumber: (Int64, TraceConfigValue) -> Result<seq<RawMessage>, Error>,
    /** traceTransaction */
    traceTransaction: (Hash, TraceConfigValue) -> Result<Value, Error>,
    /** traceChain: starts the stream of traces between two blocks */
    traceChain: (Block, Block, TraceConfigValue) -> Result<Subscription, Error>,
    /** traceCall */
    traceCall: (CallArgs, BlockNumberOrHash, TraceConfigValue) -> Result<Value, Error>,
    /** traceCallMany */
    traceCallMany: (seq<CallArgs>, BlockNumberOrHash, TraceConfigValue) -> Result<Value, Error>,
    /** json.Unmarshal of a raw payload into a `[]interface{}` */
    unmarshalArray: RawMessage -> Result<seq<Value>, string>)

  /** blockchain.GetBlockByNumber */
  function GetBlockByNumber(eth: Ethereum, n: Uint64): Option<Block>
  {
    if n in eth.blocks then Some(eth.blocks[n]) else None
  }

  /**
   * The block a `Block` request names: the pending block, the current head,
   * or the block whose number is the request's number read as a uint64.
   */
  function ResolveBlock(eth: Ethereum, number: Int64): (b: Option<Block>)
    ensures number == PendingBlockNumber ==> b == eth.pendingBlock
    ensures number == LatestBlockNumber ==> b == eth.currentBlock
    ensures number >= 0 ==> b == GetBlockByNumber(eth, number)
    ensures number < PendingBlockNumber ==> b == GetBlockByNumber(eth, number + TWO_POW_64)
  {
    if number == PendingBlockNumber then eth.pendingBlock
    else if number == LatestBlockNumber then eth.currentBlock
    else GetBlockByNumber(eth, ToUint64(number))
  }
}
