/**
 * Block-trace aggregation: every transaction's decoded array, flattened in
 * block order, then the block-reward record, then every uncle-reward slot.
 */
module BlockTrace {
  import opened Wrappers
  import opened TraceTypes
  import opened TraceConfigs
  import opened Backend
  import opened Rewards

  /**
   * The transaction part of a block trace: the concatenation of the arrays the
   * raw results decode to, or the error of the first result that does not
   * decode as an array. On success there are as many values as the decoded
   * arrays hold together.
   */
  function FlattenTx(raws: seq<RawMessage>, unmarshal: RawMessage -> Result<seq<Value>, string>): (r: Result<seq<Value>, string>)
    ensures r.Success? ==> |r.value| == DecodedCount(raws, unmarshal)
    decreases |raws|
  {
    if raws == [] then Success([])
    else
      match FlattenTx(raws[..|raws| - 1], unmarshal)
      case Failure(m) => Failure(m)
      case Success(prefix) =>
        match unmarshal(raws[|raws| - 1])
        case Failure(m) => Failure(m)
        case Success(xs) => Success(prefix + xs)
  }

  /** The number of values all transactions together decode to. */
  function DecodedCount(raws: seq<RawMessage>, unmarshal: RawMessage -> Result<seq<Value>, string>): nat
    decreases |raws|
  {
    if raws == [] then 0
    else
      DecodedCount(raws[..|raws| - 1], unmarshal)
      + (match unmarshal(raws[|raws| - 1]) case Success(xs) => |xs| case Failure(_) => 0)
  }

  /** A failed prefix makes the whole flattening fail with the same error. */
  lemma {:induction false} FlattenTxFailureExtends(raws: seq<RawMessage>, n: nat, unmarshal: RawMessage -> Result<seq<Value>, string>)
    requires n <= |raws|
    requires FlattenTx(raws[..n], unmarshal).Failure?
    ensures FlattenTx(raws, unmarshal) == FlattenTx(raws[..n], unmarshal)
    decreases |raws| - n
  {
    if n < |raws| {
      assert raws[..n + 1][..n] == raws[..n];
      FlattenTxFailureExtends(raws, n + 1, unmarshal);
    } else {
      assert raws[..n] == raws;
    }
  }

  /**
   * Flattening fails exactly when some transaction's result does not decode,
   * and then with the error of the first such result.
   */
  lemma {:induction false} FlattenTxFirstFailure(raws: seq<RawMessage>, unmarshal: RawMessage -> Result<seq<Value>, string>, m: string)
    ensures FlattenTx(raws, unmarshal) == Failure(m) <==>
            exists j :: 0 <= j < |raws| && unmarshal(raws[j]) == Failure(m)
                        && forall k :: 0 <= k < j ==> unmarshal(raws[k]).Success?
    decreases |raws|
  {
    if raws != [] {
      var last := |raws| - 1;
      var init := raws[..last];
      FlattenTxFirstFailure(init, unmarshal, m);
      FlattenTxSucceeds(init, unmarshal);
      if FlattenTx(raws, unmarshal) == Failure(m) {
        if FlattenTx(init, unmarshal) == Failure(m) {
          var j :| 0 <= j < |init| && unmarshal(init[j]) == Failure(m)
                   && forall k :: 0 <= k < j ==> unmarshal(init[k]).Success?;
          assert unmarshal(raws[j]) == Failure(m);
          assert forall k :: 0 <= k < j ==> unmarshal(raws[k]).Success? by {
            forall k | 0 <= k < j ensures unmarshal(raws[k]).Success? {
              assert raws[k] == init[k];
            }
          }
        } else {
          assert unmarshal(raws[last]) == Failure(m);
          assert forall k :: 0 <= k < last ==> unmarshal(raws[k]).Success? by {
            forall k | 0 <= k < last ensures unmarshal(raws[k]).Success? {
              assert raws[k] == init[k];
            }
          }
        }
      }
      if exists j :: 0 <= j < |raws| && unmarshal(raws[j]) == Failure(m)
                     && forall k :: 0 <= k < j ==> unmarshal(raws[k]).Success? {
        var j :| 0 <= j < |raws| && unmarshal(raws[j]) == Failure(m)
                 && forall k :: 0 <= k < j ==> unmarshal(raws[k]).Success?;
        if j < last {
          assert unmarshal(init[j]) == Failure(m);
          assert forall k :: 0 <= k < j ==> unmarshal(init[k]).Success?;
        } else {
          assert forall k :: 0 <= k < |init| ==> unmarshal(init[k]).Success?;
        }
      }
    }
  }

  /** Flattening succeeds exactly when every transaction's result decodes as an array. */
  lemma {:induction false} FlattenTxSucceeds(raws: seq<RawMessage>, unmarshal: RawMessage -> Result<seq<Value>, string>)
    ensures FlattenTx(raws, unmarshal).Success? <==> forall j :: 0 <= j < |raws| ==> unmarshal(raws[j]).Success?
    decreases |raws|
  {
    if raws != [] {
      var init := raws[..|raws| - 1];
      FlattenTxSucceeds(init, unmarshal);
      assert forall j :: 0 <= j < |init| ==> init[j] == raws[j];
    }
  }

  /**
   * Transaction order is kept: on success the flattened sequence is the
   * flattening of the first j transactions, then transaction j's own array,
   * then the flattening of the rest.
   */
  lemma {:induction false} FlattenTxInOrder(raws: seq<RawMessage>, unmarshal: RawMessage -> Result<seq<Value>, string>, j: nat)
    requires j < |raws|
    requires FlattenTx(raws, unmarshal).Success?
    ensures FlattenTx(raws[..j], unmarshal).Success?
    ensures unmarshal(raws[j]).Success?
    ensures FlattenTx(raws[j + 1..], unmarshal).Success?
    ensures FlattenTx(raws, unmarshal).value ==
              FlattenTx(raws[..j], unmarshal).value + unmarshal(raws[j]).value + FlattenTx(raws[j + 1..], unmarshal).value
    decreases |raws|
  {
    var last := |raws| - 1;
    var init := raws[..last];
    if j == last {
      assert raws[j + 1..] == [];
    } else {
      FlattenTxInOrder(init, unmarshal, j);
      assert init[..j] == raws[..j];
      assert init[j] == raws[j];
      var tail := raws[j + 1..];
      assert tail[..|tail| - 1] == init[j + 1..];
      assert tail[|tail| - 1] == raws[last];
    }
  }

  /**
   * The block trace once its block has been resolved: the tracer's error as is,
   * a decode error, or the transaction values followed by the block reward
   * and one entry per uncle reward.
   */
  function TraceResolvedBlock(eth: Ethereum, number: Int64, block: Block, config: TraceConfigValue): (r: Result<seq<Value>, Error>)
    ensures eth.traceBlockByNumber(number, config).Failure? ==> r == Failure(eth.traceBlockByNumber(number, config).error)
    ensures r.Failure? && eth.traceBlockByNumber(number, config).Success? ==> r.error.DecodeError?
    ensures r.Success? ==>
              var n := DecodedCount(eth.traceBlockByNumber(number, config).value, eth.unmarshalArray);
              && eth.traceBlockByNumber(number, config).Success?
              && |r.value| == n + 1 + |eth.getRewards(block.header, block.uncles).uncles|
              && FlattenTx(eth.traceBlockByNumber(number, config).value, eth.unmarshalArray) == Success(r.value[..n])
              && r.value[n] == Trace(Some(TraceBlockReward(eth, block)))
              && r.value[n + 1..] == SlotValues(UncleRewardSlots(block, eth.getRewards(block.header, block.uncles).uncles))
  {
    match eth.traceBlockByNumber(number, config)
    case Failure(e) => Failure(e)
    case Success(raws) =>
      match FlattenTx(raws, eth.unmarshalArray)
      case Failure(m) => Failure(DecodeError(m))
      case Success(txValues) =>
        var out := txValues + [Trace(Some(TraceBlockReward(eth, block)))]
                   + SlotValues(UncleRewardSlots(block, eth.getRewards(block.header, block.uncles).uncles));
        assert out[..|txValues|] == txValues;
        Success(out)
  }

  /** Each slot boxed as an interface value, nil slots included. */
  function SlotValues(slots: seq<Option<ParityTrace>>): (vs: seq<Value>)
    ensures |vs| == |slots|
    ensures forall i :: 0 <= i < |slots| ==> vs[i] == Trace(slots[i])
  {
    seq(|slots|, i requires 0 <= i < |slots| => Trace(slots[i]))
  }

  /**
   * `Block` as a function of the node's state, the requested number and the
   * caller's configuration (None for a nil pointer).
   */
  function BlockSpec(eth: Ethereum, number: Int64, config: Option<TraceConfigValue>): (r: Result<seq<Value>, Error>)
    ensures ResolveBlock(eth, number).None? ==> r == Failure(BlockNotFound(number))
    ensures r.Success? ==>
              && ResolveBlock(eth, number).Some?
              && eth.traceBlockByNumber(number, WithDefaultTracer(config)).Success?
              && |r.value| > DecodedCount(eth.traceBlockByNumber(number, WithDefaultTracer(config)).value, eth.unmarshalArray)
  {
    match ResolveBlock(eth, number)
    case None => Failure(BlockNotFound(number))
    case Some(block) => TraceResolvedBlock(eth, number, block, WithDefaultTracer(config))
  }

  /**
   * `Block` fails as a whole, never with partial results: with "not found"
   * when no block resolves (before any tracing), with the tracer's own error,
   * or with the decode error of the first transaction result that is not an
   * array. Otherwise it succeeds.
   */
  lemma {:induction false} BlockFailures(eth: Ethereum, number: Int64, config: Option<TraceConfigValue>, m: string)
    ensures ResolveBlock(eth, number).None? ==> BlockSpec(eth, number, config) == Failure(BlockNotFound(number))
    ensures ResolveBlock(eth, number).Some? && eth.traceBlockByNumber(number, WithDefaultTracer(config)).Failure? ==>
              BlockSpec(eth, number, config) == Failure(eth.traceBlockByNumber(number, WithDefaultTracer(config)).error)
    ensures ResolveBlock(eth, number).Some? && eth.traceBlockByNumber(number, WithDefaultTracer(config)).Success? ==>
              var raws := eth.traceBlockByNumber(number, WithDefaultTracer(config)).value;
              && (BlockSpec(eth, number, config).Success? <==>
                    forall j :: 0 <= j < |raws| ==> eth.unmarshalArray(raws[j]).Success?)
              && (BlockSpec(eth, number, config) == Failure(DecodeError(m)) <==>
                    exists j :: 0 <= j < |raws| && eth.unmarshalArray(raws[j]) == Failure(m)
                                && forall k :: 0 <= k < j ==> eth.unmarshalArray(raws[k]).Success?)
  {
    var traced := eth.traceBlockByNumber(number, WithDefaultTracer(config));
    if ResolveBlock(eth, number).Some? && traced.Success? {
      FlattenTxSucceeds(traced.value, eth.unmarshalArray);
      FlattenTxFirstFailure(traced.value, eth.unmarshalArray, m);
    }
  }

  /**
   * The layout of a successful block trace: the flattened transaction values,
   * Σ|tx arrays| of them, then the block-reward record, then one entry per
   * uncle-reward slot in index order (a nil slot is kept as a nil entry), so
   * the length is Σ|tx arrays| + 1 + len(uncleRewards).
   */
  lemma {:induction false} BlockLayout(eth: Ethereum, number: Int64, config: Option<TraceConfigValue>,
                                       block: Block, raws: seq<RawMessage>, items: seq<Value>)
    requires ResolveBlock(eth, number) == Some(block)
    requires eth.traceBlockByNumber(number, WithDefaultTracer(config)) == Success(raws)
    requires BlockSpec(eth, number, config) == Success(items)
    ensures var n := DecodedCount(raws, eth.unmarshalArray);
            var uncleRewards := eth.getRewards(block.header, block.uncles).uncles;
            && |items| == n + 1 + |uncleRewards|
            && FlattenTx(raws, eth.unmarshalArray) == Success(items[..n])
            && items[n] == Trace(Some(TraceBlockReward(eth, block)))
            && forall i :: 0 <= i < |uncleRewards| ==>
                 items[n + 1 + i] == Trace(UncleRewardSlots(block, uncleRewards)[i])
                 && (items[n + 1 + i].trace.Some? <==> i < |block.uncles|)
  {
  }

  /**
   * A block without uncles contributes no uncle-reward record: every entry
   * after the block reward is a nil slot, and when the reward list is empty
   * too, the block reward is the last entry.
   */
  lemma {:induction false} BlockWithoutUncles(eth: Ethereum, number: Int64, config: Option<TraceConfigValue>,
                                              block: Block, raws: seq<RawMessage>, items: seq<Value>)
    requires ResolveBlock(eth, number) == Some(block)
    requires block.uncles == []
    requires eth.traceBlockByNumber(number, WithDefaultTracer(config)) == Success(raws)
    requires BlockSpec(eth, number, config) == Success(items)
    ensures var n := DecodedCount(raws, eth.unmarshalArray);
            && |items| == n + 1 + |eth.getRewards(block.header, block.uncles).uncles|
            && items[n] == Trace(Some(TraceBlockReward(eth, block)))
            && forall k :: n < k < |items| ==> items[k] == Trace(None)
    ensures eth.getRewards(block.header, block.uncles).uncles == [] ==>
              items[|items| - 1] == Trace(Some(TraceBlockReward(eth, block)))
  {
  }

  /**
   * A block with two transactions whose results decode to [a] and [b, c] and
   * one uncle with a reward traces as [a, b, c, block reward, uncle reward].
   */
  lemma {:induction false} BlockTwoTransactionsOneUncle(eth: Ethereum, number: Int64, config: Option<TraceConfigValue>,
                                                        block: Block, r1: RawMessage, r2: RawMessage,
                                                        a: Value, b: Value, c: Value, u: nat)
    requires ResolveBlock(eth, number) == Some(block)
    requires eth.traceBlockByNumber(number, WithDefaultTracer(config)) == Success([r1, r2])
    requires eth.unmarshalArray(r1) == Success([a])
    requires eth.unmarshalArray(r2) == Success([b, c])
    requires |block.uncles| == 1
    requires eth.getRewards(block.header, block.uncles).uncles == [u]
    ensures BlockSpec(eth, number, config) ==
              Success([a, b, c,
                       Trace(Some(RewardTrace(block, block.header.coinbase, eth.getRewards(block.header, block.uncles).miner, "block"))),
                       Trace(Some(RewardTrace(block, block.uncles[0].coinbase, u, "uncle")))])
  {
    assert [r1, r2][..1] == [r1];
    assert [r1][..0] == [];
    assert FlattenTx([], eth.unmarshalArray) == Success([]);
    assert FlattenTx([r1], eth.unmarshalArray) == Success([] + [a]);
    assert [] + [a] == [a];
    assert FlattenTx([r1, r2], eth.unmarshalArray) == Success([a] + [b, c]);
    assert [a] + [b, c] == [a, b, c];
    var uncle := Some(RewardTrace(block, block.uncles[0].coinbase, u, "uncle"));
    assert UncleRewardSlots(block, [u]) == [uncle];
    assert SlotValues([uncle]) == [Trace(uncle)];
    var reward := Trace(Some(TraceBlockReward(eth, block)));
    assert BlockSpec(eth, number, config) == Success([a, b, c] + [reward] + [Trace(uncle)]);
    assert [a, b, c] + [reward] + [Trace(uncle)] == [a, b, c, reward, Trace(uncle)];
    assert TraceBlockReward(eth, block) ==
           RewardTrace(block, block.header.coinbase, eth.getRewards(block.header, block.uncles).miner, "block");
  }
}
