/**
  The part of the OpenTelemetry API and SDK that the client and the server use,
  seen from outside: a tracer that starts spans, the current context that
  `makeCurrent` replaces and its scope restores, `end`, and a record of every
  call the program makes on them and on the tracer provider. The SDK objects
  themselves (exporters, batch processor, tracer provider) are plain values.
*/
module Tracing {
  import opened Wrappers

  /** A header carrier: what `inject` writes and `extract` reads. */
  type Carrier = map<string, string>

  /** One carrier entry as it is iterated: (key, value). */
  type Entry = (string, string)

  /** Spans are numbered in the order they are started. */
  type SpanId = nat

  datatype SpanKind = Client | Server

  /**
    What Context.current() returns: the root context, a context read from a
    remote carrier (its span context is not interpreted here), or a context in
    which a local span was made current on top of an outer one.
  */
  datatype Context = Root | Remote(spanContext: nat) | Active(span: SpanId, outer: Context)

  /** What a span builder was given before `startSpan`. */
  datatype SpanData = SpanData(name: string, kind: SpanKind, parent: Context, attributes: map<string, string>)

  /** The scope that `makeCurrent` returns; closing it restores `previous`. */
  datatype Scope = Scope(span: SpanId, previous: Context)

  /** The span exporter that the batch processor hands finished spans to. */
  datatype Exporter = OtlpHttp(endpoint: string) | OtlpGrpc(endpoint: string)

  datatype Sampler = AlwaysOn

  /** An SdkTracerProvider with one BatchSpanProcessor around `exporter`. */
  datatype TracerProvider = TracerProvider(exporter: Exporter, sampler: Sampler)

  datatype Propagator = W3CTraceContext | W3CBaggage

  /** Everything the program does that another party can observe, in order. */
  datatype Event =
    | ProviderRegistered(provider: TracerProvider, propagators: seq<Propagator>)
    | ProviderFlushed(provider: TracerProvider, waitSeconds: nat)
    | ProviderShutDown(provider: TracerProvider, waitSeconds: nat)
    | SpanStarted(span: SpanId)
    | ScopeOpened(span: SpanId)
    | ScopeClosed(span: SpanId)
    | SpanEnded(span: SpanId)
    | HeadersInjected(carrier: Carrier)
    | ContextExtracted(carrier: Carrier, extracted: Context)
    | MessageBuilt(message: string)
    | EventLoopCreated
    | Connected
    | MessageWritten(message: string)
    | ChannelClosed
    | EventLoopShutDown
    | PayloadProcessed(payload: string)
    | PayloadMissing

  /** Every occurrence of `a` in `es` comes before every occurrence of `b`, and both occur. */
  ghost predicate Precedes(es: seq<Event>, a: Event, b: Event) {
    a in es && b in es &&
    forall i, j :: 0 <= i < |es| && 0 <= j < |es| && es[i] == a && es[j] == b ==> i < j
  }

  /** An event that occurs only in the first part of a trace precedes one that occurs only in the second. */
  lemma PrecedesAcross(x: seq<Event>, y: seq<Event>, a: Event, b: Event)
    requires a in x && a !in y
    requires b in y && b !in x
    ensures Precedes(x + y, a, b)
  {
    var es := x + y;
    forall i | 0 <= i < |es|
      ensures if i < |x| then es[i] in x else es[i] in y
    {
      if i < |x| {
        assert es[i] == x[i];
      } else {
        assert es[i] == y[i - |x|];
      }
    }
  }

  /** Appending events that are neither `a` nor `b` keeps their order. */
  lemma PrecedesPrefix(x: seq<Event>, y: seq<Event>, a: Event, b: Event)
    requires Precedes(x, a, b)
    requires a !in y && b !in y
    ensures Precedes(x + y, a, b)
  {
    var es := x + y;
    forall i | 0 <= i < |es|
      ensures if i < |x| then es[i] in x && es[i] == x[i] else es[i] in y && es[i] == y[i - |x|]
    {
    }
  }

  /** Prepending events that are neither `a` nor `b` keeps their order. */
  lemma PrecedesSuffix(x: seq<Event>, y: seq<Event>, a: Event, b: Event)
    requires Precedes(y, a, b)
    requires a !in x && b !in x
    ensures Precedes(x + y, a, b)
  {
    var es := x + y;
    forall i | 0 <= i < |es|
      ensures if i < |x| then es[i] in x && es[i] == x[i] else es[i] in y && es[i] == y[i - |x|]
    {
    }
  }

  /** How many times `e` occurs in `es`. */
  function Count(es: seq<Event>, e: Event): (n: nat)
    ensures n == 0 <==> e !in es
  {
    if es == [] then 0
    else
      assert es == es[..|es| - 1] + [es[|es| - 1]];
      Count(es[..|es| - 1], e) + (if es[|es| - 1] == e then 1 else 0)
  }

  /** Counting distributes over concatenation. */
  lemma {:induction false} CountAppend(a: seq<Event>, b: seq<Event>, e: Event)
    ensures Count(a + b, e) == Count(a, e) + Count(b, e)
    decreases |b|
  {
    if b != [] {
      assert (a + b)[..|a + b| - 1] == a + b[..|b| - 1];
      CountAppend(a, b[..|b| - 1], e);
    } else {
      assert a + b == a;
    }
  }

  /**
    The tracing state of one process: the spans started so far, which of them
    have ended, the current context of the executing thread and the record of
    observable events.
  */
  class Process {
    var spans: seq<SpanData>
    var ended: set<SpanId>
    var current: Context
    var events: seq<Event>

    /** Only spans that were started can have ended. */
    ghost predicate Valid()
      reads this
    {
      forall id :: id in ended ==> id < |spans|
    }

    constructor ()
      ensures Valid()
      ensures spans == [] && ended == {} && current == Root && events == []
    {
      spans, ended, current, events := [], {}, Root, [];
    }

    /** SpanBuilder.startSpan: a new span with the next number, not yet ended. */
    method StartSpan(data: SpanData) returns (id: SpanId)
      requires Valid()
      modifies this
      ensures Valid()
      ensures id == old(|spans|) && id !in ended
      ensures spans == old(spans) + [data] && ended == old(ended) && current == old(current)
      ensures events == old(events) + [SpanStarted(id)]
    {
      id := |spans|;
      spans := spans + [data];
      events := events + [SpanStarted(id)];
    }

    /** Span.makeCurrent: the span becomes current on top of the old context. */
    method MakeCurrent(id: SpanId) returns (scope: Scope)
      modifies this
      ensures scope == Scope(id, old(current))
      ensures current == Active(id, old(current))
      ensures spans == old(spans) && ended == old(ended)
      ensures events == old(events) + [ScopeOpened(id)]
    {
      scope := Scope(id, current);
      current := Active(id, current);
      events := events + [ScopeOpened(id)];
    }

    /** Scope.close: the context from before `makeCurrent` is current again. */
    method CloseScope(scope: Scope)
      modifies this
      ensures current == scope.previous
      ensures spans == old(spans) && ended == old(ended)
      ensures events == old(events) + [ScopeClosed(scope.span)]
    {
      current := scope.previous;
      events := events + [ScopeClosed(scope.span)];
    }

    /** Span.end: the first call ends the span; a later call has no effect. */
    method End(id: SpanId)
      requires Valid() && id < |spans|
      modifies this
      ensures Valid()
      ensures ended == old(ended) + {id}
      ensures spans == old(spans) && current == old(current)
      ensures events == old(events) + (if id in old(ended) then [] else [SpanEnded(id)])
    {
      if id !in ended {
        ended := ended + {id};
        events := events + [SpanEnded(id)];
      }
    }
  }
}
