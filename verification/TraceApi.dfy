/**
 * The request handlers of the Parity-style trace module (`PrivateTraceAPI`):
 * each resolves the caller's configuration, delegates to a tracer and shapes
 * the answer.
 */
module TraceApi {
  import opened Wrappers
  import opened TraceTypes
  import opened TraceConfigs
  import opened Decorate
  import opened Backend
  import opened Rewards
  import opened BlockTrace

  /** A node's chain is consistent when each block is stored under its own number. */
  ghost predicate NumberedByHeight(eth: Ethereum)
  {
    forall n :: n in eth.blocks ==> eth.blocks[n].header.number == n
  }

  /**
   * `Filter` as a function of the node's state, the request and the caller's
   * configuration: the start block must exist (checked first), then the end
   * block, then the start must come strictly before the end; only then is the
   * chain tracer started, on exactly those two blocks.
   */
  function FilterSpec(eth: Ethereum, args: TraceFilterArgs, config: Option<TraceConfigValue>): (r: Result<Subscription, Error>)
    ensures GetBlockByNumber(eth, args.fromBlock).None? ==> r == Failure(StartBlockNotFound(args.fromBlock))
    ensures GetBlockByNumber(eth, args.fromBlock).Some? && GetBlockByNumber(eth, args.toBlock).None? ==>
              r == Failure(EndBlockNotFound(args.toBlock))
    ensures forall from, to ::
              GetBlockByNumber(eth, args.fromBlock) == Some(from) && GetBlockByNumber(eth, args.toBlock) == Some(to) ==>
              r == if from.header.number >= to.header.number then Failure(EndNotAfterStart(args.toBlock, args.fromBlock))
                   else eth.traceChain(from, to, WithDefaultTracer(config))
  {
    var start := args.fromBlock;
    var end := args.toBlock;
    var from := GetBlockByNumber(eth, start);
    var to := GetBlockByNumber(eth, end);
    if from.None? then Failure(StartBlockNotFound(start))
    else if to.None? then Failure(EndBlockNotFound(end))
    else if from.value.header.number >= to.value.header.number then Failure(EndNotAfterStart(end, start))
    else eth.traceChain(from.value, to.value, WithDefaultTracer(config))
  }

  /**
   * On a chain whose blocks are stored under their own numbers, a range whose
   * endpoints both exist is rejected when it is empty or reversed
   * (fromBlock >= toBlock), and otherwise handed to the chain tracer.
   */
  lemma FilterRejectsEmptyRange(eth: Ethereum, args: TraceFilterArgs, config: Option<TraceConfigValue>)
    requires NumberedByHeight(eth)
    requires args.fromBlock in eth.blocks && args.toBlock in eth.blocks
    ensures args.fromBlock >= args.toBlock ==>
              FilterSpec(eth, args, config) == Failure(EndNotAfterStart(args.toBlock, args.fromBlock))
    ensures args.fromBlock < args.toBlock ==>
              FilterSpec(eth, args, config) ==
                eth.traceChain(eth.blocks[args.fromBlock], eth.blocks[args.toBlock], WithDefaultTracer(config))
  {
  }

  /**
   * `Call` as a function: the call tracer runs under the resolved
   * configuration, and its result is decorated according to that same
   * resolved configuration.
   */
  function CallSpec(eth: Ethereum, args: CallArgs, blockNrOrHash: BlockNumberOrHash, config: Option<TraceConfigValue>): (r: Result<Value, Error>)
    ensures var resolved := WithDefaultTracer(config);
            var traced := eth.traceCall(args, blockNrOrHash, resolved);
            && (traced.Failure? ==> r == traced)
            && (traced.Success? && !resolved.nestedTraceOutput ==> r == traced)
            && (traced.Success? && resolved.nestedTraceOutput ==>
                  r == Success(DecorateNestedTraceResponse(traced.value, resolved.tracer.value)))
  {
    var resolved := WithDefaultTracer(config);
    match eth.traceCall(args, blockNrOrHash, resolved)
    case Failure(e) => Failure(e)
    case Success(res) => DecorateResponse(res, Some(resolved))
  }

  /**
   * A caller that asks for nested output without naming a tracer gets the
   * default call tracer's result wrapped under "trace".
   */
  lemma CallNestedDefaultTracer(eth: Ethereum, args: CallArgs, blockNrOrHash: BlockNumberOrHash, v: Value)
    requires eth.traceCall(args, blockNrOrHash, TraceConfigValue(Some(CallTracerParity), true)) == Success(v)
    ensures CallSpec(eth, args, blockNrOrHash, Some(TraceConfigValue(None, true))) == Success(Object(map["trace" := v]))
  {
  }

  /** A caller that passes no configuration gets the default call tracer's result unwrapped. */
  lemma CallNilConfigUnwrapped(eth: Ethereum, args: CallArgs, blockNrOrHash: BlockNumberOrHash, v: Value)
    requires eth.traceCall(args, blockNrOrHash, TraceConfigValue(Some(CallTracerParity), false)) == Success(v)
    ensures CallSpec(eth, args, blockNrOrHash, None) == Success(v)
  {
  }

  /** The trace-module RPC service; `eth` is the node it serves. */
  class PrivateTraceAPI {
    const eth: Ethereum

    constructor (eth: Ethereum)
      ensures this.eth == eth
    {
      this.eth := eth;
    }

    /**
     * `Block`: resolves the block (pending, latest or by number), fills in the
     * default tracer, traces every transaction, and appends the decoded arrays,
     * the block reward and the uncle-reward slots, in that order. The caller's
     * configuration is resolved in place only once the block is found.
     */
    method Block(number: Int64, config: TraceConfig?) returns (res: Result<seq<Value>, Error>)
      modifies config
      ensures res == BlockSpec(eth, number, old(ValueOf(config)))
      ensures config != null ==>
                config.Value() == if ResolveBlock(eth, number).Some? then WithDefaultTracer(old(ValueOf(config)))
                                  else old(config.Value())
    {
      ghost var before := ValueOf(config);
      var block := ResolveBlock(eth, number);
      if block.None? {
        return Failure(BlockNotFound(number));
      }

      var cfg := SetTraceConfigDefaultTracer(config);

      var traceResults := eth.traceBlockByNumber(number, cfg.Value());
      if traceResults.Failure? {
        return Failure(traceResults.error);
      }
      var raws := traceResults.value;

      var traceReward := TraceBlockReward(eth, block.value);
      var traceUncleRewards := TraceBlockUncleRewards(eth, block.value);

      var results: seq<Value> := [];
      var i := 0;
      while i < |raws|
        invariant 0 <= i <= |raws|
        invariant FlattenTx(raws[..i], eth.unmarshalArray) == Success(results)
      {
        var tmp := eth.unmarshalArray(raws[i]);
        if tmp.Failure? {
          assert raws[..i + 1][..i] == raws[..i];
          FlattenTxFailureExtends(raws, i + 1, eth.unmarshalArray);
          return Failure(DecodeError(tmp.error));
        }
        assert raws[..i + 1][..i] == raws[..i];
        results := results + tmp.value;
        i := i + 1;
      }
      assert raws[..i] == raws;
      ghost var txValues := results;

      results := results + [Trace(Some(traceReward))];

      var j := 0;
      while j < |traceUncleRewards|
        invariant 0 <= j <= |traceUncleRewards|
        invariant results == txValues + [Trace(Some(traceReward))] + SlotValues(traceUncleRewards[..j])
      {
        assert traceUncleRewards[..j + 1] == traceUncleRewards[..j] + [traceUncleRewards[j]];
        results := results + [Trace(traceUncleRewards[j])];
        j := j + 1;
      }
      assert traceUncleRewards[..j] == traceUncleRewards;

      return Success(results);
    }

    /** `Transaction`: fills in the default tracer and delegates to the transaction tracer. */
    method Transaction(hash: Hash, config: TraceConfig?) returns (res: Result<Value, Error>)
      modifies config
      ensures res == eth.traceTransaction(hash, WithDefaultTracer(old(ValueOf(config))))
      ensures config != null ==> config.Value() == WithDefaultTracer(old(ValueOf(config)))
    {
      var cfg := SetTraceConfigDefaultTracer(config);
      res := eth.traceTransaction(hash, cfg.Value());
    }

    /**
     * `Filter`: fills in the default tracer (in place, before any check), then
     * validates the range and starts the chain trace.
     */
    method Filter(args: TraceFilterArgs, config: TraceConfig?) returns (res: Result<Subscription, Error>)
      modifies config
      ensures res == FilterSpec(eth, args, old(ValueOf(config)))
      ensures config != null ==> config.Value() == WithDefaultTracer(old(ValueOf(config)))
    {
      var cfg := SetTraceConfigDefaultTracer(config);

      var start := args.fromBlock;
      var end := args.toBlock;

      var from := GetBlockByNumber(eth, start);
      var to := GetBlockByNumber(eth, end);

      if from.None? {
        return Failure(StartBlockNotFound(start));
      }
      if to.None? {
        return Failure(EndBlockNotFound(end));
      }
      if from.value.header.number >= to.value.header.number {
        return Failure(EndNotAfterStart(end, start));
      }
      res := eth.traceChain(from.value, to.value, cfg.Value());
    }

    /** `Call`: fills in the default tracer, traces the call and decorates its result. */
    method Call(args: CallArgs, blockNrOrHash: BlockNumberOrHash, config: TraceConfig?) returns (res: Result<Value, Error>)
      modifies config
      ensures res == CallSpec(eth, args, blockNrOrHash, old(ValueOf(config)))
      ensures config != null ==> config.Value() == WithDefaultTracer(old(ValueOf(config)))
    {
      var cfg := SetTraceConfigDefaultTracer(config);
      var traced := eth.traceCall(args, blockNrOrHash, cfg.Value());
      if traced.Failure? {
        return Failure(traced.error);
      }
      res := DecorateResponse(traced.value, ValueOf(cfg));
    }

    /**
     * `CallMany`: fills in the default tracer and returns the tracer's result
     * as it is; unlike `Call`, it never decorates, even for nested output.
     */
    method CallMany(txs: seq<CallArgs>, blockNrOrHash: BlockNumberOrHash, config: TraceConfig?) returns (res: Result<Value, Error>)
      modifies config
      ensures res == eth.traceCallMany(txs, blockNrOrHash, WithDefaultTracer(old(ValueOf(config))))
      ensures config != null ==> config.Value() == WithDefaultTracer(old(ValueOf(config)))
    {
      var cfg := SetTraceConfigDefaultTracer(config);
      var traced := eth.traceCallMany(txs, blockNrOrHash, cfg.Value());
      if traced.Failure? {
        return Failure(traced.error);
      }
      return Success(traced.value);
    }
  }
}
