/**
 * Values exchanged by the Parity-style trace module: block numbers, hashes,
 * the schema-free results produced by tracers, and the `ParityTrace` record
 * with its reward action.
 */
module TraceTypes {
  import opened Wrappers

  const TWO_POW_64: int := 0x1_0000_0000_0000_0000

  /** Go's uint64. */
  type Uint64 = x: int | 0 <= x < TWO_POW_64

  /** Go's int64, the representation of rpc.BlockNumber. */
  type Int64 = x: int | -0x8000_0000_0000_0000 <= x < 0x8000_0000_0000_0000

  /** Go's conversion `uint64(n)` of an int64: negative numbers wrap around. */
  function ToUint64(n: Int64): Uint64
  {
    if n < 0 then n + TWO_POW_64 else n
  }

  /** A 32-byte hash (common.Hash). */
  type Hash = s: seq<bv8> | |s| == 32 witness seq(32, _ => 0)

  /** A 20-byte account address (common.Address). */
  type Address = s: seq<bv8> | |s| == 20 witness seq(20, _ => 0)

  /**
   * A Go `interface{}` as this code handles it: a decoded JSON value, or a
   * `*ParityTrace` stored in an interface (`Trace(None)` is a nil pointer,
   * which is serialised as JSON null). Numbers are kept as their literal text.
   */
  datatype Value =
    | Nil
    | Bool(b: bool)
    | Number(literal: string)
    | Str(s: string)
    | Array(elems: seq<Value>)
    | Object(fields: map<string, Value>)
    | Trace(trace: Option<ParityTrace>)

  /** The action of a reward record: amount in wei, credited account, "block" or "uncle". */
  datatype TraceRewardAction = TraceRewardAction(
    value: Option<nat>,
    author: Option<Address>,
    rewardType: string)

  /** One trace record in the Parity/OpenEthereum format. */
  datatype ParityTrace = ParityTrace(
    action: TraceRewardAction,
    blockHash: Hash,
    blockNumber: Uint64,
    error: string,
    result: Value,
    subtraces: int,
    traceAddress: seq<int>,
    transactionHash: Option<Hash>,
    transactionPosition: Option<Uint64>,
    traceType: string)

  /** The arguments of a range (filter) trace request. */
  datatype TraceFilterArgs = TraceFilterArgs(
    fromBlock: Uint64,
    toBlock: Uint64,
    fromAddress: Option<Address>,
    toAddress: Option<Address>,
    after: Uint64,
    count: Uint64)

  /** The part of a block header this code reads. */
  datatype Header = Header(number: Uint64, coinbase: Address)

  /** A block: its header, its hash and the headers of the uncles it includes. */
  datatype Block = Block(header: Header, hash: Hash, uncles: seq<Header>)

  /** What the consensus engine's reward rules return for a block. */
  datatype Rewards = Rewards(miner: nat, uncles: seq<nat>)

  /** The undecoded JSON payload of one transaction's trace. */
  type RawMessage = seq<bv8>

  /** A reference to the base state of a call trace (rpc.BlockNumberOrHash). */
  datatype BlockNumberOrHash = ByNumber(number: Int64) | ByHash(hash: Hash)

  /** The arguments of a hypothetical call; this code never looks inside them. */
  datatype CallArgs = CallArgs(encoded: seq<bv8>)

  /** The handle of a streaming range trace. */
  datatype Subscription = Subscription(id: string)

  /** The errors the trace module reports, by kind and the numbers they carry. */
  datatype Error =
    | BlockNotFound(number: Int64)
    | StartBlockNotFound(startBlock: Uint64)
    | EndBlockNotFound(endBlock: Uint64)
    | EndNotAfterStart(endBlock: Uint64, startBlock: Uint64)
    | DecodeError(message: string)
    | Upstream(message: string)
}
