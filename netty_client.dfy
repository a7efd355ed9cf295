/**
  NettyClient: inject the current trace context into a fresh carrier, frame
  it as `key:value` lines, a blank line and the greeting, send it once, and
  bracket all of it in a CLIENT span that is ended, and telemetry shut down,
  on every path.
*/
module Client {
  import opened Wrappers
  import opened JavaString
  import opened Tracing
  import opened OTel

  /** The payload the client sends after the header block. */
  const Greeting := "Hello from the Client"

  /** One header line: `key:value` and a line feed. */
  function Line(e: Entry): string {
    e.0 + ":" + e.1 + "\n"
  }

  /** The header lines of `order`, in that order, with nothing between them. */
  function HeaderBlock(order: seq<Entry>): string {
    if order == [] then "" else Line(order[0]) + HeaderBlock(order[1..])
  }

  /** The framed message: the header block, one more line feed, then the payload as is. */
  function Encode(order: seq<Entry>, payload: string): string {
    HeaderBlock(order) + "\n" + payload
  }

  /** The message the client sends. */
  function ClientMessage(order: seq<Entry>): string {
    Encode(order, Greeting)
  }

  /** No key occurs twice in `order`. */
  ghost predicate DistinctKeys(order: seq<Entry>) {
    forall i, j :: 0 <= i < j < |order| ==> order[i].0 != order[j].0
  }

  /** The keys that occur in `order`. */
  ghost function KeySet(order: seq<Entry>): set<string> {
    set e | e in order :: e.0
  }

  /** `order` lists, each once and with its value in `m`, exactly the keys in `done`. */
  ghost predicate EnumeratesKeys(order: seq<Entry>, m: Carrier, done: set<string>) {
    && DistinctKeys(order)
    && KeySet(order) == done
    && forall e :: e in order ==> e.0 in m && m[e.0] == e.1
  }

  /** `order` is one iteration order of the map `m`: each entry of `m` exactly once. */
  ghost predicate Enumerates(order: seq<Entry>, m: Carrier) {
    EnumeratesKeys(order, m, m.Keys)
  }

  /** Before the first visit nothing is enumerated. */
  lemma EnumerationStart(m: Carrier)
    ensures EnumeratesKeys([], m, {})
  {
  }

  /** Visiting one more key not visited before extends the enumeration by that key. */
  lemma EnumerationStep(order: seq<Entry>, m: Carrier, done: set<string>, k: string)
    requires EnumeratesKeys(order, m, done)
    requires k in m && k !in done
    ensures EnumeratesKeys(order + [(k, m[k])], m, done + {k})
  {
    var next := order + [(k, m[k])];
    forall i, j | 0 <= i < j < |next| ensures next[i].0 != next[j].0 {
      if j == |order| {
        assert order[i] in order;
      }
    }
    assert KeySet(next) == done + {k} by {
      forall x | x in next ensures x.0 in done + {k} {
        if x != (k, m[k]) {
          assert x in order;
        }
      }
      forall key | key in done ensures key in KeySet(next) {
        var e :| e in order && e.0 == key;
        assert e in next;
      }
      assert (k, m[k]) in next;
    }
  }

  /** Σ (|key| + |value| + 2) over the entries. */
  function EntriesLength(order: seq<Entry>): nat {
    if order == [] then 0 else |order[0].0| + |order[0].1| + 2 + EntriesLength(order[1..])
  }

  /** Appending entries appends their lines: the block of `a + b` is the block of `a` followed by that of `b`. */
  lemma {:induction false} HeaderBlockConcat(a: seq<Entry>, b: seq<Entry>)
    ensures HeaderBlock(a + b) == HeaderBlock(a) + HeaderBlock(b)
  {
    if a == [] {
      assert a + b == b;
    } else {
      assert (a + b)[1..] == a[1..] + b;
      HeaderBlockConcat(a[1..], b);
    }
  }

  /** Appending an entry appends exactly its line, written out piece by piece as the StringBuilder does. */
  lemma HeaderBlockAppend(order: seq<Entry>, k: string, v: string)
    ensures HeaderBlock(order + [(k, v)]) == HeaderBlock(order) + k + ":" + v + "\n"
  {
    HeaderBlockConcat(order, [(k, v)]);
    assert [(k, v)][1..] == [];
  }

  /** The message is |keys| + |values| + 2 per entry, plus 22 for the blank line and the greeting. */
  lemma {:induction false} ClientMessageLength(order: seq<Entry>)
    ensures |HeaderBlock(order)| == EntriesLength(order)
    ensures |ClientMessage(order)| == EntriesLength(order) + 22
  {
    if order != [] {
      ClientMessageLength(order[1..]);
    }
  }

  /** The header block is a prefix of the message and the payload follows the extra line feed unmodified. */
  lemma MessageLayout(order: seq<Entry>, payload: string)
    ensures Encode(order, payload)[..|HeaderBlock(order)|] == HeaderBlock(order)
    ensures Encode(order, payload)[|HeaderBlock(order)|] == '\n'
    ensures Encode(order, payload)[|HeaderBlock(order)| + 1..] == payload
  {
  }

  /** No key or value contains a line feed. */
  ghost predicate SingleLineEntries(order: seq<Entry>) {
    forall e :: e in order ==> '\n' !in e.0 && '\n' !in e.1
  }

  /** No two line feeds stand next to each other in `s`. */
  ghost predicate NoBlankLine(s: string) {
    forall j :: 0 <= j < |s| - 1 ==> !(s[j] == '\n' && s[j + 1] == '\n')
  }

  lemma NoBlankLineConcat(a: string, b: string)
    requires NoBlankLine(a) && NoBlankLine(b)
    requires a == [] || b == [] || a[|a| - 1] != '\n' || b[0] != '\n'
    ensures NoBlankLine(a + b)
  {
    var s := a + b;
    forall j | 0 <= j < |s| - 1
      ensures !(s[j] == '\n' && s[j + 1] == '\n')
    {
      if j + 1 < |a| {
        assert s[j] == a[j] && s[j + 1] == a[j + 1];
      } else if j >= |a| {
        assert s[j] == b[j - |a|] && s[j + 1] == b[j + 1 - |a|];
      }
    }
  }

  /**
    With single-line entries, the header block holds no blank line; when it is
    not empty it ends with a line feed and does not start with one.
  */
  lemma {:induction false} HeaderBlockShape(order: seq<Entry>)
    requires SingleLineEntries(order)
    ensures NoBlankLine(HeaderBlock(order))
    ensures order != [] ==> |HeaderBlock(order)| >= 2
    ensures order != [] ==> HeaderBlock(order)[|HeaderBlock(order)| - 1] == '\n'
    ensures order != [] ==> HeaderBlock(order)[0] != '\n'
  {
    if order != [] {
      var e := order[0];
      var line := Line(e);
      assert e in order;
      assert line[0] != '\n' by {
        if |e.0| > 0 {
          assert line[0] == e.0[0];
        } else {
          assert line[0] == ':';
        }
      }
      assert NoBlankLine(line) by {
        forall j | 0 <= j < |line| - 1
          ensures !(line[j] == '\n' && line[j + 1] == '\n')
        {
          if j < |e.0| {
            assert line[j] == e.0[j];
          } else if j == |e.0| {
            assert line[j] == ':';
          } else {
            assert line[j] == e.1[j - |e.0| - 1];
          }
        }
      }
      assert SingleLineEntries(order[1..]) by {
        forall x | x in order[1..] ensures '\n' !in x.0 && '\n' !in x.1 {
          assert x in order;
        }
      }
      HeaderBlockShape(order[1..]);
      NoBlankLineConcat(line, HeaderBlock(order[1..]));
    }
  }

  /**
    With a non-empty carrier of single-line entries, the first blank line of
    the message is the one that ends the last header line, and what follows it
    is exactly the payload.
  */
  lemma FirstBlankLineEndsHeaders(order: seq<Entry>, payload: string)
    requires order != [] && SingleLineEntries(order)
    ensures var n := |HeaderBlock(order)|;
      && OccursAt(Encode(order, payload), "\n\n", n - 1)
      && (forall j :: 0 <= j < n - 1 ==> !OccursAt(Encode(order, payload), "\n\n", j))
      && Encode(order, payload)[n + 1..] == payload
  {
    var hb := HeaderBlock(order);
    var msg := Encode(order, payload);
    var n := |hb|;
    HeaderBlockShape(order);
    assert msg[n - 1..n + 1] == "\n\n";
    forall j | 0 <= j < n - 1
      ensures !OccursAt(msg, "\n\n", j)
    {
      assert msg[j..j + 2] == [msg[j], msg[j + 1]];
      assert msg[j] == hb[j] && msg[j + 1] == hb[j + 1];
    }
  }

  /** An empty carrier frames to the bare line feed and greeting, which holds no blank line at all. */
  lemma EmptyCarrierMessage()
    ensures ClientMessage([]) == "\n" + Greeting
    ensures forall j :: !OccursAt(ClientMessage([]), "\n\n", j)
  {
    var msg := ClientMessage([]);
    assert msg == "\n" + Greeting;
    assert '\n' !in Greeting;
    forall j ensures !OccursAt(msg, "\n\n", j) {
      if 0 <= j && j + 2 <= |msg| {
        assert msg[j..j + 2] == [msg[j], msg[j + 1]];
        assert msg[j + 1] == Greeting[j];
      }
    }
  }

  /**
    The StringBuilder loop over the carrier (HashMap.forEach): the entries are
    visited in some order, chosen here by picking any key not yet visited, and
    each appends its line; then the blank line and the greeting are appended.
  */
  method BuildMessage(headers: Carrier) returns (message: string, ghost order: seq<Entry>)
    ensures Enumerates(order, headers)
    ensures message == ClientMessage(order)
  {
    message := "";
    order := [];
    var remaining := headers.Keys;
    ghost var visited: set<string> := {};
    EnumerationStart(headers);
    while remaining != {}
      invariant visited + remaining == headers.Keys && visited !! remaining
      invariant EnumeratesKeys(order, headers, visited)
      invariant message == HeaderBlock(order)
      decreases remaining
    {
      var k :| k in remaining;
      var v := headers[k];
      message := message + k + ":" + v + "\n";
      HeaderBlockAppend(order, k, v);
      EnumerationStep(order, headers, visited, k);
      order := order + [(k, v)];
      visited := visited + {k};
      remaining := remaining - {k};
    }
    message := message + "\n" + Greeting;
  }

  /** Where the client's single send attempt throws, if it does. */
  datatype TransportFault = NoFault | ConnectFails | WriteFails | CloseFails

  /** How `main` leaves: normally, or with the exception of the failed step. */
  datatype Outcome = Completed | Threw(fault: TransportFault)

  /** The attributes set on the CLIENT span. */
  const ClientAttributes := map["service.name" := "client", "deployment.environment" := "nettytest", "version" := "1.0.0"]

  /** The CLIENT span as built by the span builder; its parent is the context current at start. */
  function ClientSpanData(parent: Context): SpanData {
    SpanData("client-send", Client, parent, ClientAttributes)
  }

  /** Connect, write the message and close the channel, stopping at the step that throws. */
  function TransportEvents(message: string, fault: TransportFault): seq<Event> {
    match fault
    case ConnectFails => []
    case WriteFails => [Connected]
    case CloseFails => [Connected, MessageWritten(message)]
    case NoFault => [Connected, MessageWritten(message), ChannelClosed]
  }

  /** Starting the span and making it current. */
  function Opening(span: SpanId): seq<Event> {
    [SpanStarted(span), ScopeOpened(span)]
  }

  /** The inner try and its finally: the event loop group is shut down whatever the transport does. */
  function Send(message: string, fault: TransportFault): seq<Event> {
    [EventLoopCreated] + TransportEvents(message, fault) + [EventLoopShutDown]
  }

  /** Closing the scope (try-with-resources), then ending the span (the outer finally). */
  function Closing(span: SpanId): seq<Event> {
    [ScopeClosed(span), SpanEnded(span)]
  }

  /**
    The span-bracketed part of `main`: start the span and make it current,
    inject, build the message, run the transport inside its own try/finally,
    close the scope and end the span.
  */
  function SpanEvents(span: SpanId, headers: Carrier, message: string, fault: TransportFault): seq<Event> {
    Opening(span) + [HeadersInjected(headers), MessageBuilt(message)] + Send(message, fault) + Closing(span)
  }

  /** What `main` does after `initialize`: the span-bracketed part, then the telemetry shutdown. */
  function ClientEvents(span: SpanId, headers: Carrier, message: string, fault: TransportFault,
                        provider: Option<TracerProvider>): seq<Event> {
    SpanEvents(span, headers, message, fault) + ShutdownCalls(provider)
  }

  /** The transport, and the telemetry shutdown, neither start nor end nor scope a span. */
  lemma SendAndShutdownTouchNoSpan(message: string, fault: TransportFault, provider: Option<TracerProvider>,
                                   e: Event)
    requires e.SpanStarted? || e.SpanEnded? || e.ScopeOpened? || e.ScopeClosed?
      || e.HeadersInjected? || e.MessageBuilt?
    ensures e !in Send(message, fault) && e !in ShutdownCalls(provider)
  {
  }

  /** The client span is started once and ended once, whether the transport completes or throws. */
  lemma ClientSpanEndedOnce(span: SpanId, headers: Carrier, message: string, fault: TransportFault,
                            provider: Option<TracerProvider>)
    ensures Count(ClientEvents(span, headers, message, fault, provider), SpanStarted(span)) == 1
    ensures Count(ClientEvents(span, headers, message, fault, provider), SpanEnded(span)) == 1
  {
    var started, ended := SpanStarted(span), SpanEnded(span);
    var o, hm, s, c, p := Opening(span), [HeadersInjected(headers), MessageBuilt(message)],
      Send(message, fault), Closing(span), ShutdownCalls(provider);
    SendAndShutdownTouchNoSpan(message, fault, provider, started);
    SendAndShutdownTouchNoSpan(message, fault, provider, ended);
    forall e | e == started || e == ended
      ensures Count(ClientEvents(span, headers, message, fault, provider), e)
        == Count(o, e) + Count(hm, e) + Count(s, e) + Count(c, e) + Count(p, e)
    {
      CountAppend(o, hm, e);
      CountAppend(o + hm, s, e);
      CountAppend(o + hm + s, c, e);
      CountAppend(o + hm + s + c, p, e);
    }
    assert Count(o, started) == 1 && Count(o, ended) == 0 by {
      CountAppend([started], [ScopeOpened(span)], started);
      CountAppend([started], [ScopeOpened(span)], ended);
    }
    assert Count(c, started) == 0 && Count(c, ended) == 1 by {
      CountAppend([ScopeClosed(span)], [ended], started);
      CountAppend([ScopeClosed(span)], [ended], ended);
    }
  }

  /** The span is current when the headers are injected, and they are injected before the message is built. */
  lemma ClientInjectOrder(span: SpanId, headers: Carrier, message: string, fault: TransportFault,
                          provider: Option<TracerProvider>)
    ensures var es := ClientEvents(span, headers, message, fault, provider);
      && Precedes(es, ScopeOpened(span), HeadersInjected(headers))
      && Precedes(es, HeadersInjected(headers), MessageBuilt(message))
  {
    var o, s, c, d := Opening(span), Send(message, fault), Closing(span), ShutdownCalls(provider);
    var h, m := HeadersInjected(headers), MessageBuilt(message);
    var hm := [h, m];
    SendAndShutdownTouchNoSpan(message, fault, provider, ScopeOpened(span));
    SendAndShutdownTouchNoSpan(message, fault, provider, h);
    SendAndShutdownTouchNoSpan(message, fault, provider, m);
    PrecedesAcross(o, hm, ScopeOpened(span), h);
    PrecedesAcross([h], [m], h, m);
    assert [h] + [m] == hm;
    PrecedesSuffix(o, hm, h, m);
    forall a, b | (a, b) in {(ScopeOpened(span), h), (h, m)} && Precedes(o + hm, a, b)
      ensures Precedes(o + hm + s + c + d, a, b)
    {
      PrecedesPrefix(o + hm, s, a, b);
      PrecedesPrefix(o + hm + s, c, a, b);
      PrecedesPrefix(o + hm + s + c, d, a, b);
    }
  }

  /** The message is built while the scope is open, and the scope is closed before the span ends. */
  lemma ClientScopeOrder(span: SpanId, headers: Carrier, message: string, fault: TransportFault,
                         provider: Option<TracerProvider>)
    ensures var es := ClientEvents(span, headers, message, fault, provider);
      && Precedes(es, MessageBuilt(message), ScopeClosed(span))
      && Precedes(es, ScopeClosed(span), SpanEnded(span))
  {
    var o, s, c, d := Opening(span), Send(message, fault), Closing(span), ShutdownCalls(provider);
    var h, m, sc, se := HeadersInjected(headers), MessageBuilt(message), ScopeClosed(span), SpanEnded(span);
    SendAndShutdownTouchNoSpan(message, fault, provider, m);
    SendAndShutdownTouchNoSpan(message, fault, provider, sc);
    SendAndShutdownTouchNoSpan(message, fault, provider, se);
    PrecedesAcross(o + [h, m] + s, c, m, sc);
    PrecedesPrefix(o + [h, m] + s + c, d, m, sc);
    PrecedesAcross([sc], [se], sc, se);
    assert [sc] + [se] == c;
    PrecedesSuffix(o + [h, m] + s, c, sc, se);
    PrecedesPrefix(o + [h, m] + s + c, d, sc, se);
  }

  /** With a provider, the span ends before the provider is flushed, and the flush comes before the shutdown. */
  lemma ClientShutdownOrder(span: SpanId, headers: Carrier, message: string, fault: TransportFault,
                            p: TracerProvider)
    ensures var es := ClientEvents(span, headers, message, fault, Some(p));
      && Precedes(es, SpanEnded(span), ProviderFlushed(p, ShutdownWaitSeconds))
      && Precedes(es, ProviderFlushed(p, ShutdownWaitSeconds), ProviderShutDown(p, ShutdownWaitSeconds))
  {
    var o, s, c, d := Opening(span), Send(message, fault), Closing(span), ShutdownCalls(Some(p));
    var h, m := HeadersInjected(headers), MessageBuilt(message);
    var flushed, shut := ProviderFlushed(p, ShutdownWaitSeconds), ProviderShutDown(p, ShutdownWaitSeconds);
    SendAndShutdownTouchNoSpan(message, fault, Some(p), SpanEnded(span));
    var front := o + [h, m] + s + c;
    assert flushed !in front && shut !in front;
    PrecedesAcross(front, d, SpanEnded(span), flushed);
    PrecedesAcross([flushed], [shut], flushed, shut);
    assert [flushed] + [shut] == d;
    PrecedesSuffix(front, d, flushed, shut);
  }

  /**
    The inner try of `main`: create the event loop group, connect, write the
    message and close the channel, stopping at the step that throws; the
    finally shuts the group down on every path.
  */
  method Transport(process: Process, message: string, fault: TransportFault) returns (outcome: Outcome)
    modifies process`events
    ensures outcome == if fault == NoFault then Completed else Threw(fault)
    ensures process.events == old(process.events) + Send(message, fault)
  {
    process.events := process.events + [EventLoopCreated];
    if fault == ConnectFails {
      outcome := Threw(fault);
    } else {
      process.events := process.events + [Connected];
      if fault == WriteFails {
        outcome := Threw(fault);
      } else {
        process.events := process.events + [MessageWritten(message)];
        if fault == CloseFails {
          outcome := Threw(fault);
        } else {
          process.events := process.events + [ChannelClosed];
          outcome := Completed;
        }
      }
    }
    process.events := process.events + [EventLoopShutDown];
  }

  /** ContextPropagatorHelper.inject(Context.current(), headers) into a fresh empty map. */
  method InjectCurrent(process: Process, inject: Context -> Carrier) returns (headers: Carrier)
    modifies process`events
    ensures headers == inject(process.current)
    ensures process.events == old(process.events) + [HeadersInjected(headers)]
  {
    headers := map[];
    headers := headers + inject(process.current);
    process.events := process.events + [HeadersInjected(headers)];
  }

  /** Inject the current context into a fresh carrier, then build the message from it. */
  method Prepare(process: Process, inject: Context -> Carrier)
    returns (headers: Carrier, message: string, ghost order: seq<Entry>)
    modifies process`events
    ensures headers == inject(process.current)
    ensures Enumerates(order, headers) && message == ClientMessage(order)
    ensures process.events == old(process.events) + [HeadersInjected(headers), MessageBuilt(message)]
  {
    headers := InjectCurrent(process, inject);
    message, order := BuildMessage(headers);
    process.events := process.events + [MessageBuilt(message)];
  }

  /** Start the CLIENT span under the current context and make it current (the try-with-resources header). */
  method OpenSpan(process: Process) returns (id: SpanId, scope: Scope)
    requires process.Valid()
    modifies process
    ensures process.Valid()
    ensures id == old(|process.spans|) && id !in process.ended && id < |process.spans|
    ensures scope == Scope(id, old(process.current))
    ensures process.spans == old(process.spans) + [ClientSpanData(old(process.current))]
    ensures process.ended == old(process.ended)
    ensures process.current == Active(id, old(process.current))
    ensures process.events == old(process.events) + Opening(id)
  {
    id := process.StartSpan(ClientSpanData(process.current));
    scope := process.MakeCurrent(id);
  }

  /** Close the scope, restoring the outer context, then end the span (try-with-resources, then the outer finally). */
  method CloseSpan(process: Process, scope: Scope)
    requires process.Valid() && scope.span < |process.spans| && scope.span !in process.ended
    modifies process
    ensures process.Valid()
    ensures process.spans == old(process.spans)
    ensures process.ended == old(process.ended) + {scope.span}
    ensures process.current == scope.previous
    ensures process.events == old(process.events) + Closing(scope.span)
  {
    process.CloseScope(scope);
    process.End(scope.span);
  }

  /**
    The body of `main` between `initialize` and the outer finally's
    `shutdown`: start the CLIENT span with the current context as parent,
    make it current, inject into a fresh empty carrier, build the message and
    try to send it; whatever the transport does, the scope is closed and the
    span ended.
  */
  method SendInSpan(process: Process, inject: Context -> Carrier, fault: TransportFault)
    returns (outcome: Outcome, ghost span: SpanId, ghost order: seq<Entry>)
    requires process.Valid()
    modifies process
    ensures process.Valid()
    ensures outcome == if fault == NoFault then Completed else Threw(fault)
    ensures span == old(|process.spans|)
    ensures process.spans == old(process.spans) + [ClientSpanData(old(process.current))]
    ensures process.ended == old(process.ended) + {span}
    ensures process.current == old(process.current)
    ensures Enumerates(order, inject(Active(span, old(process.current))))
    ensures process.events == old(process.events)
      + SpanEvents(span, inject(Active(span, old(process.current))), ClientMessage(order), fault)
  {
    var id, scope := OpenSpan(process);
    span := id;

    var headers, message;
    headers, message, order := Prepare(process, inject);
    ghost var built := process.events;
    assert built == old(process.events) + Opening(id) + [HeadersInjected(headers), MessageBuilt(message)];

    outcome := Transport(process, message, fault);
    CloseSpan(process, scope);
    assert process.events == built + Send(message, fault) + Closing(id);
  }

  /**
    NettyClient.main: initialize telemetry, send the message inside the
    CLIENT span, and in the outer finally, after the span has ended, shut
    telemetry down.
  */
  method ClientMain(process: Process, otel: OTelInitializer, env: map<string, string>,
                    inject: Context -> Carrier, fault: TransportFault)
    returns (outcome: Outcome, ghost span: SpanId, ghost order: seq<Entry>)
    requires process.Valid() && otel.Valid()
    modifies process, otel
    ensures process.Valid() && otel.Valid() && otel.initialized
    ensures old(otel.initialized) ==> otel.tracerProvider == old(otel.tracerProvider)
    ensures !old(otel.initialized) ==> otel.tracerProvider == Some(NewProvider(env))
    ensures outcome == if fault == NoFault then Completed else Threw(fault)
    ensures span == old(|process.spans|)
    ensures process.spans == old(process.spans) + [ClientSpanData(old(process.current))]
    ensures process.ended == old(process.ended) + {span}
    ensures process.current == old(process.current)
    ensures Enumerates(order, inject(Active(span, old(process.current))))
    ensures process.events == old(process.events) + InitializeCalls(old(otel.initialized), env)
      + ClientEvents(span, inject(Active(span, old(process.current))), ClientMessage(order), fault,
                     otel.tracerProvider)
  {
    otel.Initialize(env, process);
    ghost var initialized := process.events;
    outcome, span, order := SendInSpan(process, inject, fault);
    ghost var traced := process.events;
    otel.Shutdown(process);
    assert process.events == initialized + (traced[|initialized|..] + ShutdownCalls(otel.tracerProvider));
  }
}
