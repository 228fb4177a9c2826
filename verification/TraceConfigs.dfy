/**
 * The tracer configuration a caller passes with a request, and the resolver
 * that fills in the default tracer (`setTraceConfigDefaultTracer`).
 */
module TraceConfigs {
  import opened Wrappers

  /** The tracer used when a request names none. */
  const CallTracerParity: string := "callTracerParity"

  /** The tracer whose nested output goes under "stateDiff". */
  const StateDiffTracer: string := "stateDiffTracer"

  /** The contents of a configuration, as handed to the tracers. */
  datatype TraceConfigValue = TraceConfigValue(tracer: Option<string>, nestedTraceOutput: bool)

  /** A caller-owned configuration, updated in place by the resolver. */
  class TraceConfig {
    var tracer: Option<string>
    var nestedTraceOutput: bool

    /** `&TraceConfig{}`: no tracer, flat output. */
    constructor ()
      ensures Value() == TraceConfigValue(None, false)
    {
      tracer := None;
      nestedTraceOutput := false;
    }

    function Value(): TraceConfigValue
      reads this
    {
      TraceConfigValue(tracer, nestedTraceOutput)
    }
  }

  /** The contents of a possibly nil configuration pointer. */
  function ValueOf(config: TraceConfig?): Option<TraceConfigValue>
    reads config
  {
    if config == null then None else Some(config.Value())
  }

  /**
   * What a configuration holds after `setTraceConfigDefaultTracer`: a nil
   * configuration becomes the zero configuration, and an unset tracer becomes
   * "callTracerParity". A tracer the caller set, and the nesting flag, are kept.
   */
  function WithDefaultTracer(c: Option<TraceConfigValue>): (r: TraceConfigValue)
    ensures r.tracer.Some?
    ensures c.None? ==> r == TraceConfigValue(Some(CallTracerParity), false)
    ensures c.Some? && c.value.tracer.Some? ==> r == c.value
    ensures c.Some? && c.value.tracer.None? ==> r.tracer == Some(CallTracerParity)
    ensures c.Some? ==> r.nestedTraceOutput == c.value.nestedTraceOutput
  {
    var v := if c.None? then TraceConfigValue(None, false) else c.value;
    if v.tracer.None? then v.(tracer := Some(CallTracerParity)) else v
  }

  /** Resolving a configuration that is already resolved changes nothing. */
  lemma WithDefaultTracerIdempotent(c: Option<TraceConfigValue>)
    ensures WithDefaultTracer(Some(WithDefaultTracer(c))) == WithDefaultTracer(c)
  {
  }

  /**
   * `setTraceConfigDefaultTracer`: allocates a zero configuration for nil,
   * otherwise sets the tracer of the caller's configuration in place when it
   * is unset, and returns the configuration to use.
   */
  method SetTraceConfigDefaultTracer(config: TraceConfig?) returns (r: TraceConfig)
    modifies config
    ensures config != null ==> r == config
    ensures config == null ==> fresh(r)
    ensures r.Value() == WithDefaultTracer(old(ValueOf(config)))
  {
    if config == null {
      r := new TraceConfig();
    } else {
      r := config;
    }
    if r.tracer.None? {
      r.tracer := Some(CallTracerParity);
    }
  }
}
