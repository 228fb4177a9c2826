# Parity-style trace module of core-geth, modelled in Dafny

This project models the compatibility layer in `eth/api_tracer_parity.go`. The layer exposes
execution traces in the Parity/OpenEthereum `trace_*` format. It sits between the JSON-RPC
handlers and the EVM tracer, and it does five things:

- it fills in the default tracer `"callTracerParity"` when a request names none;
- it wraps a call-trace result under `"trace"` or `"stateDiff"` when nested output is asked for;
- it builds the `"reward"` records for the block reward and the uncle rewards, which the EVM
  tracer does not produce;
- for a whole block, it appends each transaction's decoded trace array, in block order, then the
  block-reward record, then every uncle-reward slot;
- for a range (filter) trace, it checks that both endpoint blocks exist and that the start comes
  strictly before the end, and only then starts the chain tracer.

Modules, one per component:

- `Wrappers`: `Option` (a Go pointer, `None` is nil) and `Result` (a Go `(value, error)` pair).
- `TraceTypes`: block numbers (`Int64`, `Uint64`), 32-byte hashes, 20-byte addresses, `Value`,
  `ParityTrace`, `TraceRewardAction`, `TraceFilterArgs`, block headers and the error kinds.
  `Value` is a Go `interface{}`: a decoded JSON value, or a `*ParityTrace` stored in an interface.
- `TraceConfigs`: the caller-owned `TraceConfig` class and the default-tracer resolver.
  The resolver updates the caller's configuration in place.
- `Decorate`: the response decorator.
- `Backend`: the node services this layer calls. They are the fields of `Ethereum`:
  - the pending block, the head block, and lookup by number (a partial map);
  - the consensus reward rules;
  - the five tracer entry points;
  - the JSON array decoder.
- `Rewards`: reward-record synthesis. `TraceBlockUncleRewards` fills a nil-initialised array
  one uncle at a time, as the source does.
- `BlockTrace`: the specification of a block trace (`BlockSpec`) and the lemmas about it.
  They cover ordering, length, nil uncle slots, and failure without partial results.
- `TraceApi`: the handlers of `PrivateTraceAPI`, each proved equal to its specification.
  The handlers are `Block`, `Transaction`, `Filter`, `Call` and `CallMany`.

Behaviours of the code that are easy to misread, which the model follows as written:

- The uncle-reward result has one slot per entry of the reward list, not one per uncle. A slot
  past the last uncle stays nil, and `Block` still appends it as a nil entry (a JSON null).
  An uncle past the end of the reward list produces nothing.
- Each transaction's raw result must decode as an array; there is no fallback to a single value.
  The first result that fails aborts the whole block trace.
- The reward builders never fail, so the only failures of a block trace are these:
  the block is not found (checked before any tracing), the tracer fails, or a decode fails.
- `Filter` resolves the caller's configuration in place before it validates the range, so the
  configuration is updated even when the range is rejected. `Block` resolves it only after the
  block has been found.
- `CallMany`, unlike `Call`, does not decorate its result. This asymmetry is kept as written.

## Model

| member | source | states |
|---|---|---|
| `TraceConfigs.WithDefaultTracer` | eth/api_tracer_parity.go:63-75 | after resolution the tracer is always set; a nil config becomes the zero config with tracer "callTracerParity"; a tracer the caller set is kept, and so is the nesting flag |
| `TraceConfigs.WithDefaultTracerIdempotent` | eth/api_tracer_parity.go:63-75 | resolving an already resolved configuration changes nothing |
| `TraceConfigs.TraceConfig.constructor` | eth/api_tracer_parity.go:65-67 | the configuration allocated for a nil pointer has no tracer and flat output |
| `TraceConfigs.SetTraceConfigDefaultTracer` | eth/api_tracer_parity.go:64-75 | returns the caller's own object when there is one, else a fresh one; its new contents are the resolved contents of the old |
| `Decorate.DecorateNestedTraceResponse` | eth/api_tracer_parity.go:100-110 | "callTracerParity" gives an object whose only key is "trace" mapped to the result; "stateDiffTracer" gives one whose only key is "stateDiff"; any other tracer gives the result itself |
| `Decorate.DecorateNestedTraceResponseInjective` | eth/api_tracer_parity.go:100-110 | wrapping loses nothing: two results decorated for the same tracer are equal only if the results are |
| `Decorate.DecorateResponse` | eth/api_tracer_parity.go:77-83 | never fails; returns the result unchanged when the config is nil, nested output is off or no tracer is set, and decorates it by tracer otherwise |
| `Backend.ResolveBlock` | eth/api_tracer_parity.go:164-173 | pending (-2) gives the miner's pending block, latest (-1) the current head, any other number the block stored under that number read as a uint64 (with wrap-around for other negatives) |
| `Rewards.TraceBlockReward` | eth/api_tracer_parity.go:112-131 | one record of type "reward" and reward type "block", credited to the block's coinbase with the miner reward; no sub-traces, empty trace address, no transaction hash or position, the block's own hash and number |
| `Rewards.UncleRewardSlots` | eth/api_tracer_parity.go:133-157 | one slot per uncle reward; slot i is set exactly when uncle i exists, and then holds a "reward"/"uncle" record for that uncle's coinbase and the i-th reward |
| `Rewards.TraceBlockUncleRewards` | eth/api_tracer_parity.go:133-157 | the array the loop fills over the uncles equals the uncle-reward slots of the block |
| `BlockTrace.FlattenTx` | eth/api_tracer_parity.go:196-204 | the decode-and-append loop as a function: the concatenation of the decoded arrays or the first decode error; on success it holds as many values as the decoded arrays together |
| `BlockTrace.FlattenTxFailureExtends` | eth/api_tracer_parity.go:198-204 | once a transaction's result fails to decode, the whole flattening fails with that error, whatever follows |
| `BlockTrace.FlattenTxSucceeds` | eth/api_tracer_parity.go:198-204 | flattening succeeds exactly when every transaction's result decodes as an array |
| `BlockTrace.FlattenTxFirstFailure` | eth/api_tracer_parity.go:198-204 | flattening fails with error m exactly when the first result that does not decode fails with m |
| `BlockTrace.FlattenTxInOrder` | eth/api_tracer_parity.go:196-204 | transaction order is kept: the flattening is that of the earlier transactions, then transaction j's own array, then that of the later ones |
| `BlockTrace.TraceResolvedBlock` | eth/api_tracer_parity.go:179-212 | after the block is found: a tracer error is returned as is, any other failure is a decode error, and a success holds the flattened transaction values, then the block-reward record at index Σ len(tx arrays), then the uncle-reward slots, with length Σ len(tx arrays) + 1 + len(uncleRewards) |
| `BlockTrace.BlockSpec` | eth/api_tracer_parity.go:162-213 | `Block` as a function: a block that does not resolve gives "block #n not found"; a success needs a resolved block and holds more entries than the transactions decode to (the block reward always follows them) |
| `BlockTrace.BlockFailures` | eth/api_tracer_parity.go:166-204 | a missing block gives "block #n not found" before any tracing; a tracer error is returned as is; otherwise the trace succeeds exactly when every result decodes, and fails with the first decode error; never partial results |
| `BlockTrace.BlockLayout` | eth/api_tracer_parity.go:196-212 | a successful block trace is the flattened transaction values, then the block-reward record, then every uncle-reward slot in index order (nil ones included); length is the sum of the array lengths + 1 + the number of uncle rewards |
| `BlockTrace.BlockWithoutUncles` | eth/api_tracer_parity.go:206-210 | a block without uncles yields no uncle record: every entry after the block reward is nil, and with an empty reward list the block reward is last |
| `BlockTrace.BlockTwoTransactionsOneUncle` | eth/api_tracer_parity.go:162-213 | two transactions decoding to [a] and [b, c] and one rewarded uncle give [a, b, c, block reward, uncle reward] |
| `TraceApi.FilterSpec` | eth/api_tracer_parity.go:225-246 | a missing start block is reported first, then a missing end block; with both present, a start whose number is not below the end's is rejected, else the chain tracer runs on exactly those two blocks |
| `TraceApi.FilterRejectsEmptyRange` | eth/api_tracer_parity.go:229-245 | on a chain stored by height with both endpoints present, fromBlock >= toBlock is rejected and fromBlock < toBlock is delegated |
| `TraceApi.CallSpec` | eth/api_tracer_parity.go:251-258 | a tracer error is returned as is; a result is decorated according to the resolved configuration |
| `TraceApi.CallNestedDefaultTracer` | eth/api_tracer_parity.go:251-258 | nested output with no tracer named wraps the default call tracer's result under "trace" |
| `TraceApi.CallNilConfigUnwrapped` | eth/api_tracer_parity.go:251-258 | a nil config resolves to flat output, so the default call tracer's result is returned unwrapped |
| `TraceApi.PrivateTraceAPI.Block` | eth/api_tracer_parity.go:162-213 | the appending loops return exactly the block-trace specification; the caller's config is resolved in place only when the block was found |
| `TraceApi.PrivateTraceAPI.Transaction` | eth/api_tracer_parity.go:217-220 | delegates to the transaction tracer under the resolved configuration, which it also stores in place |
| `TraceApi.PrivateTraceAPI.Filter` | eth/api_tracer_parity.go:225-246 | returns exactly the range-validation specification; the caller's config is resolved in place before any check |
| `TraceApi.PrivateTraceAPI.Call` | eth/api_tracer_parity.go:251-258 | returns exactly the call-trace specification: traced under, and decorated by, the resolved configuration |
| `TraceApi.PrivateTraceAPI.CallMany` | eth/api_tracer_parity.go:263-270 | returns the multi-call tracer's result undecorated, whatever the nesting flag |

## Left out

- The EVM tracer entry points (`traceBlockByNumber`, `traceTransaction`, `traceChain`, `traceCall`,
  `traceCallMany`) are foreign code. They are function fields of `Ethereum`, and every property
  holds for whatever they return.
- `ethash.GetRewards` and the chain configuration are consensus code not part of this model.
  They are one function field from a header and its uncles to a miner reward and uncle rewards.
- `json.Unmarshal` is not modelled as a JSON parser. It is a partial decoder from raw bytes to a
  sequence of values, failing with a message.
- `traceBlockByNumber` returns records whose other fields this code never reads, so the model
  keeps only each transaction's raw result. The type assertion to `json.RawMessage`, which
  would panic on any other kind of result, is not modelled.
- Block and chain storage, the miner, `context.Context` and `rpc.Subscription` streaming are node
  plumbing and concurrency. Block lookup is a partial map plus two optional blocks, and a started
  range trace is an opaque `Subscription` handle.
- The reward builders also return an `error`, which is always nil. The model omits that result,
  and `Block` has no branch for it.
- `TraceConfig`'s other fields are declared outside this file and are not part of this model;
  only `Tracer` and `NestedTraceOutput` are read or written here. The Go tracers receive the
  `*TraceConfig` pointer itself; the model hands them a snapshot of its contents, so the
  handlers' statements about the caller's configuration assume the tracers do not change it.
- JSON field tags, `hexutil` encoding and the wording of `fmt` error messages are left out. An
  error is its kind plus the numbers the message carries. `json.Unmarshal` into `[]interface{}`
  decodes JSON numbers as float64, which can lose precision; the abstract decoder stands for
  that lossy decoding, and `Value` keeps a number as its literal text.
- `TraceFilterArgs`'s `FromAddress`, `ToAddress`, `After` and `Count` are carried but, as in the
  source, never read.
- TraceApi.FilterRejectsEmptyRange: stated only for a chain whose blocks are stored under their
  own numbers, because the source compares the numbers of the blocks it found, not the
  requested numbers.
