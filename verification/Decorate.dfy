/**
 * Response decoration: when nested output is requested, a tracer's result is
 * placed under the one key the Parity format uses for that tracer.
 */
module Decorate {
  import opened Wrappers
  import opened TraceTypes
  import opened TraceConfigs

  /** `decorateNestedTraceResponse`: wrap under "trace" or "stateDiff", or leave as is. */
  function DecorateNestedTraceResponse(res: Value, tracer: string): (r: Value)
    ensures tracer == CallTracerParity ==> r.Object? && r.fields.Keys == {"trace"} && r.fields["trace"] == res
    ensures tracer == StateDiffTracer ==> r.Object? && r.fields.Keys == {"stateDiff"} && r.fields["stateDiff"] == res
    ensures tracer != CallTracerParity && tracer != StateDiffTracer ==> r == res
  {
    if tracer == CallTracerParity then Object(map["trace" := res])
    else if tracer == StateDiffTracer then Object(map["stateDiff" := res])
    else res
  }

  /** Decoration loses nothing: two results decorated for the same tracer stay apart. */
  lemma DecorateNestedTraceResponseInjective(res1: Value, res2: Value, tracer: string)
    requires DecorateNestedTraceResponse(res1, tracer) == DecorateNestedTraceResponse(res2, tracer)
    ensures res1 == res2
  {
  }

  /**
   * `decorateResponse`, given the contents of the configuration pointer (None
   * for nil): never fails; it decorates only when the configuration exists,
   * asks for nested output and names a tracer.
   */
  function DecorateResponse(res: Value, config: Option<TraceConfigValue>): (r: Result<Value, Error>)
    ensures r.Success?
    ensures config.None? || !config.value.nestedTraceOutput || config.value.tracer.None? ==> r.value == res
    ensures config.Some? && config.value.nestedTraceOutput && config.value.tracer.Some? ==>
              r.value == DecorateNestedTraceResponse(res, config.value.tracer.value)
  {
    if config.Some? && config.value.nestedTraceOutput && config.value.tracer.Some? then
      Success(DecorateNestedTraceResponse(res, config.value.tracer.value))
    else
      Success(res)
  }
}
