/**
  OTelInitializer: one-shot, process-wide set-up of the tracer provider and
  propagators, and the bounded flush-then-shutdown at exit. The environment is
  a parameter; the SDK objects are the values of module Tracing and the calls
  made on them are recorded in the process's events.
*/
module OTel {
  import opened Wrappers
  import opened JavaString
  import opened Tracing

  const ExporterTypeVariable := "OTEL_EXPORTER_TYPE"
  const HttpEndpointVariable := "OTEL_EXPORTER_OTLP_HTTP_ENDPOINT"
  const GrpcEndpointVariable := "OTEL_EXPORTER_OTLP_ENDPOINT"
  const DefaultExporterType := "grpc"
  const DefaultHttpEndpoint := "http://collector:4318"
  const DefaultGrpcEndpoint := "http://collector:4317"

  /** How long each of forceFlush and shutdown is waited for, in seconds. */
  const ShutdownWaitSeconds: nat := 10

  /** The composite propagator: W3C trace context first, then W3C baggage. */
  const Propagators := [W3CTraceContext, W3CBaggage]

  /**
    The exporter `initialize` builds: OTLP over HTTP exactly when
    OTEL_EXPORTER_TYPE is set to "http" in any mix of case, OTLP over gRPC
    otherwise (unset, empty or any other value); each kind reads its own
    endpoint variable and falls back to its own default.
  */
  function SelectExporter(env: map<string, string>): (e: Exporter)
    ensures e.OtlpHttp? <==>
      ExporterTypeVariable in env && |env[ExporterTypeVariable]| == 4 &&
      env[ExporterTypeVariable][0] in "hH" && env[ExporterTypeVariable][1] in "tT" &&
      env[ExporterTypeVariable][2] in "tT" && env[ExporterTypeVariable][3] in "pP"
    ensures ExporterTypeVariable !in env ==> e.OtlpGrpc?
    ensures e.OtlpHttp? ==>
      e.endpoint == if HttpEndpointVariable in env then env[HttpEndpointVariable] else "http://collector:4318"
    ensures e.OtlpGrpc? ==>
      e.endpoint == if GrpcEndpointVariable in env then env[GrpcEndpointVariable] else "http://collector:4317"
  {
    // System.getenv().getOrDefault for each of the three variables
    var exporterType := if ExporterTypeVariable in env then env[ExporterTypeVariable] else DefaultExporterType;
    EqualsIgnoreCaseHttp(exporterType);
    if EqualsIgnoreCase("http", exporterType) then
      OtlpHttp(if HttpEndpointVariable in env then env[HttpEndpointVariable] else DefaultHttpEndpoint)
    else
      OtlpGrpc(if GrpcEndpointVariable in env then env[GrpcEndpointVariable] else DefaultGrpcEndpoint)
  }

  /** The provider a first `initialize` builds: the selected exporter, sampling every span. */
  function NewProvider(env: map<string, string>): TracerProvider {
    TracerProvider(SelectExporter(env), AlwaysOn)
  }

  /** What `initialize` does to the SDK: register a new provider globally, unless already initialized. */
  function InitializeCalls(wasInitialized: bool, env: map<string, string>): seq<Event> {
    if wasInitialized then [] else [ProviderRegistered(NewProvider(env), Propagators)]
  }

  /** What `shutdown` does to the SDK: flush, then shut down, each waited for a bounded time; nothing without a provider. */
  function ShutdownCalls(provider: Option<TracerProvider>): seq<Event> {
    match provider
    case None => []
    case Some(p) => [ProviderFlushed(p, ShutdownWaitSeconds), ProviderShutDown(p, ShutdownWaitSeconds)]
  }

  /** The two static fields of OTelInitializer; `None` stands for a null provider. */
  class OTelInitializer {
    var initialized: bool
    var tracerProvider: Option<TracerProvider>

    /** A provider is present exactly when initialization has completed. */
    ghost predicate Valid()
      reads this
    {
      initialized <==> tracerProvider.Some?
    }

    /** The static initial values: not initialized, no provider. */
    constructor ()
      ensures Valid() && !initialized && tracerProvider == None
    {
      initialized := false;
      tracerProvider := None;
    }

    /**
      The first call builds the provider from the environment, registers it
      with the two propagators and sets the flag; every later call changes
      nothing.
    */
    method Initialize(env: map<string, string>, process: Process)
      requires Valid()
      modifies this, process`events
      ensures Valid() && initialized
      ensures old(initialized) ==> tracerProvider == old(tracerProvider)
      ensures !old(initialized) ==> tracerProvider == Some(NewProvider(env))
      ensures process.events == old(process.events) + InitializeCalls(old(initialized), env)
    {
      if initialized {
        return;
      }
      var exporter := SelectExporter(env);
      tracerProvider := Some(TracerProvider(exporter, AlwaysOn));
      process.events := process.events + [ProviderRegistered(tracerProvider.value, Propagators)];
      initialized := true;
    }

    /**
      With a provider, flush and then shut it down, each waited for at most
      ten seconds; without one, only report that there is nothing to shut
      down. Neither the flag nor the provider field is reset.
    */
    method Shutdown(process: Process)
      modifies process`events
      ensures process.events == old(process.events) + ShutdownCalls(tracerProvider)
    {
      if tracerProvider.Some? {
        process.events := process.events + [ProviderFlushed(tracerProvider.value, ShutdownWaitSeconds)];
        process.events := process.events + [ProviderShutDown(tracerProvider.value, ShutdownWaitSeconds)];
      }
    }
  }

  /**
    Shutdown leaves the initializer initialized, so an `initialize` after it
    is a no-op: the same provider stays and nothing is registered again.
  */
  method ShutdownThenInitialize(otel: OTelInitializer, process: Process, env: map<string, string>)
    requires otel.Valid() && otel.initialized
    modifies otel, process`events
    ensures otel.Valid() && otel.initialized
    ensures otel.tracerProvider == old(otel.tracerProvider)
    ensures process.events == old(process.events) + ShutdownCalls(old(otel.tracerProvider))
  {
    otel.Shutdown(process);
    otel.Initialize(env, process);
  }
}
