# netty-otel-correlation in Dafny

This project models the part of netty-otel-correlation that carries an OpenTelemetry trace context over a raw TCP connection:

- **The client's frame encoder.** `NettyClient.main` injects the current context into a fresh `HashMap`. It then writes one `key:value` line per entry, a blank line, and the greeting `Hello from the Client`.
- **The server's frame decoder.** `channelRead0` splits the received text at the first `"\n\n"`. It reads `key:value` lines with Java's `split` and `trim` semantics, and either processes the payload or reports it missing.
- **Span bracketing on both sides.** Each side starts a span, makes it current in a try-with-resources, and ends it in a `finally`. The client shuts telemetry down after its span has ended. The server span's parent is the context extracted from the decoded headers.
- **`OTelInitializer`.**
  - `initialize` works once and is then a no-op.
  - The exporter kind and endpoint come from the environment, with defaults.
  - `shutdown` is guarded: it flushes, then shuts down, waiting at most 10 seconds for each.
  - Nothing is ever reset.

Modules:

- `Wrappers`: `Option`.
- `JavaString`: the `java.lang.String` operations the framing uses. These are:
  - `split(sep, 2)` on a literal separator;
  - `split(sep)` on a one-character separator, including the removal of trailing empty strings;
  - `trim`;
  - `equalsIgnoreCase`.
- `Tracing`: the OpenTelemetry API as the program sees it. Class `Process` holds the spans started, the set of ended spans, the current context and the ordered record of observable events.
- `OTel`: class `OTelInitializer`, with its two static fields as fields.
- `Client`:
  - the `StringBuilder` loop as a method over the carrier;
  - the span and transport bracketing of `main`;
  - event-order lemmas.
- `Server`:
  - the `channelRead0` decoder: a loop of `put`s, proved against the function `Parse`;
  - the SERVER-span handling;
  - parsing and ordering lemmas.
- `RoundTrip`: what the server decodes from what the client sends.

Edge cases of the framing that the model keeps as the code has them:

- **A message without `"\n\n"`** is not taken as payload: the header map stays empty and the payload is reported missing (`Server.Parse`).
- **Every line with a colon is stored**, including `":v"` and `"k:"`, with an empty key or value (`Server.ParseLine`).
- **An empty carrier does not round-trip.** The message `"\n" + Greeting` holds no `"\n\n"`, so the server finds neither headers nor payload (`RoundTrip.ServerReadsClientMessage`).

## Model

| member | source | states |
|---|---|---|
| JavaString.SplitFirst | src/main/java/nettyotel/NettyServer.java:41 | `split(sep, 2)`: one part equal to the input exactly when the separator does not occur; otherwise the part before the first occurrence, the separator, then the rest, with no earlier occurrence |
| JavaString.SplitFirstAt | src/main/java/nettyotel/NettyServer.java:44 | when the first occurrence of the separator is at `i`, `split(sep, 2)` cuts exactly at `i` |
| JavaString.Split | src/main/java/nettyotel/NettyServer.java:43 | `split("\n")` is `[s]` when there is no line feed; otherwise the pieces with every trailing empty piece removed: a prefix of the pieces, only empty pieces dropped, and the last one kept non-empty |
| JavaString.PiecesOfJoin | src/main/java/nettyotel/NettyServer.java:43 | the pieces, trailing empty ones included, of lines joined by line feeds are those lines, when none contains a line feed |
| JavaString.Trim | src/main/java/nettyotel/NettyServer.java:46 | `trim` gives a middle part of the input; neither of its ends is a character up to U+0020, only such characters are cut off, and trimmed input is left unchanged |
| JavaString.EqualsIgnoreCaseHttp | src/main/java/nettyotel/OTelInitializer.java:31 | a string equals `"http"` ignoring case exactly when it is one of the sixteen mixed-case spellings of `http` |
| Tracing.Process.constructor | src/main/java/nettyotel/NettyClient.java:20-24 | a process starts with no spans, none ended, the root context current and no events |
| Tracing.Process.StartSpan | src/main/java/nettyotel/NettyClient.java:29-34 | `startSpan` records the builder's data under the next span number, not ended, without changing the current context |
| Tracing.Process.MakeCurrent | src/main/java/nettyotel/NettyClient.java:35 | `makeCurrent` puts the span on top of the current context and returns a scope that remembers the old one |
| Tracing.Process.CloseScope | src/main/java/nettyotel/NettyServer.java:68-74 | closing the scope restores the context from before `makeCurrent` |
| Tracing.Process.End | src/main/java/nettyotel/NettyServer.java:76 | `end` marks the span ended; only the first call is recorded |
| OTel.SelectExporter | src/main/java/nettyotel/OTelInitializer.java:27-41 | with the three `getOrDefault` lookups inlined: the HTTP exporter exactly when `OTEL_EXPORTER_TYPE` is a spelling of `http`; otherwise gRPC, which is also the choice when the variable is unset; each kind uses its own endpoint variable or its own default |
| OTel.OTelInitializer.constructor | src/main/java/nettyotel/OTelInitializer.java:19-20 | initially not initialized and with no provider |
| OTel.OTelInitializer.Initialize | src/main/java/nettyotel/OTelInitializer.java:21-62 | after the call, initialized with a provider; a repeat call changes nothing and registers nothing; a first call registers the new provider with the W3C trace-context and baggage propagators |
| OTel.OTelInitializer.Shutdown | src/main/java/nettyotel/OTelInitializer.java:64-76 | with a provider, a flush and then a shutdown, each waited for 10 s; without one, no provider call; the fields are not modified |
| OTel.ShutdownThenInitialize | src/main/java/nettyotel/OTelInitializer.java:19-25 | after `shutdown`, `initialize` keeps the same provider and registers nothing again |
| Client.HeaderBlockConcat | src/main/java/nettyotel/NettyClient.java:52-54 | the header block of two runs of entries is the first run's block followed by the second's |
| Client.HeaderBlockAppend | src/main/java/nettyotel/NettyClient.java:53 | each entry contributes exactly `key`, `:`, `value` and a line feed, after the earlier entries' lines and with nothing between them |
| Client.ClientMessageLength | src/main/java/nettyotel/NettyClient.java:51-55 | the message length is the sum over entries of key length plus value length plus 2, plus 22 |
| Client.MessageLayout | src/main/java/nettyotel/NettyClient.java:51-55 | the header block is a prefix of the message, followed by one line feed and the payload unmodified |
| Client.HeaderBlockShape | src/main/java/nettyotel/NettyClient.java:52-54 | with single-line entries, the header block holds no blank line; for a non-empty carrier it also ends with a line feed and does not start with one |
| Client.FirstBlankLineEndsHeaders | src/main/java/nettyotel/NettyClient.java:53-55 | with a non-empty carrier of single-line entries, the first `"\n\n"` ends the last header line and the rest is the payload |
| Client.EmptyCarrierMessage | src/main/java/nettyotel/NettyClient.java:39-55 | an empty carrier gives the line feed and greeting alone, with no `"\n\n"` anywhere |
| Client.BuildMessage | src/main/java/nettyotel/NettyClient.java:51-55 | the loop visits every entry of the carrier once, in some order, and the message is the framing of that order |
| Client.ClientSpanEndedOnce | src/main/java/nettyotel/NettyClient.java:103-108 | the CLIENT span is started once and ended once, whether the transport completes or throws at any step |
| Client.ClientInjectOrder | src/main/java/nettyotel/NettyClient.java:35-51 | the headers are injected after the span was made current, and before the message is built |
| Client.ClientScopeOrder | src/main/java/nettyotel/NettyClient.java:35-105 | the message is built while the scope is open, and the scope is closed before the span ends |
| Client.ClientShutdownOrder | src/main/java/nettyotel/NettyClient.java:103-108 | the span ends before the provider is flushed, and the flush comes before the provider's shutdown |
| Client.Transport | src/main/java/nettyotel/NettyClient.java:58-102 | connect, write and close stop at the step that throws; the event loop group is shut down on every path |
| Client.InjectCurrent | src/main/java/nettyotel/NettyClient.java:39-41 | the carrier is what the propagator writes for the current context into an empty map |
| Client.Prepare | src/main/java/nettyotel/NettyClient.java:39-55 | inject into a fresh carrier, then frame that carrier |
| Client.OpenSpan | src/main/java/nettyotel/NettyClient.java:29-35 | the CLIENT span, with the current context as parent and its three attributes, is started and made current |
| Client.CloseSpan | src/main/java/nettyotel/NettyClient.java:103-105 | the scope is closed, restoring the outer context, and then the span is ended |
| Client.SendInSpan | src/main/java/nettyotel/NettyClient.java:29-106 | one CLIENT span is started and ended; the current context is restored; the message frames exactly what was injected while the span was current; events are recorded in program order on every transport outcome |
| Client.ClientMain | src/main/java/nettyotel/NettyClient.java:20-113 | initialize, send inside the span, then shut telemetry down; the provider that is flushed and shut down is the one `initialize` registered, or the one already present; the whole sequence of observable events, for every transport outcome |
| Server.SplitAtFirstColon | src/main/java/nettyotel/NettyServer.java:44 | when `split(":", 2)` gives two parts, the cut is at the line's first colon: the key part is the text before it and the value part the text after it |
| Server.ParseLine | src/main/java/nettyotel/NettyServer.java:44-47 | a line yields an entry exactly when it contains a colon; the entry is the trimmed text before the first colon and the trimmed text after it, so both sides are trimmed |
| Server.Parse | src/main/java/nettyotel/NettyServer.java:40-49 | the payload is missing exactly when the message holds no `"\n\n"`, and then the header map is empty |
| Server.PutLines | src/main/java/nettyotel/NettyServer.java:43-48 | the `for` loop of `put`s builds the map that the lines define |
| Server.Decode | src/main/java/nettyotel/NettyServer.java:40-49 | the decoding loop computes the headers and payload of `Parse` |
| Server.PayloadAfterFirstDelimiter | src/main/java/nettyotel/NettyServer.java:41-43 | the payload is exactly the text after the first `"\n\n"`, which may itself be empty or contain `"\n\n"`, and the headers come from the text before it |
| Server.ParseLineSplitsAtFirstColon | src/main/java/nettyotel/NettyServer.java:44-46 | a line splits at its first colon only: later colons stay in the value, and empty keys and values are accepted |
| Server.HeaderOrigin | src/main/java/nettyotel/NettyServer.java:43-46 | a key is in the map exactly when some line yields an entry with that key |
| Server.LastLineWins | src/main/java/nettyotel/NettyServer.java:46 | of several lines with the same key, the last one's value is stored |
| Server.HeadersTrimmed | src/main/java/nettyotel/NettyServer.java:46 | every stored key and value is trimmed |
| Server.TrailingEmptyLinesIgnored | src/main/java/nettyotel/NettyServer.java:43 | Java's removal of trailing empty strings does not change the decoded map |
| Server.PayloadNeverParsed | src/main/java/nettyotel/NettyServer.java:41-43 | nothing in the payload becomes a header: two payloads after the same header text give the same map, and each comes back unmodified |
| Server.ServerSpanEndedOnce | src/main/java/nettyotel/NettyServer.java:68-77 | the SERVER span is started once and ended once for every message |
| Server.ServerExtractOrder | src/main/java/nettyotel/NettyServer.java:53-70 | the context is extracted before the span starts, and the payload is handled once the scope is open |
| Server.ServerScopeOrder | src/main/java/nettyotel/NettyServer.java:68-77 | the payload is handled before the scope closes, and the scope closes before the span ends |
| Server.Handle | src/main/java/nettyotel/NettyServer.java:53-77 | the SERVER span's parent is the extracted context, even for an empty map; it is ended, the current context is restored, and the payload or its absence is reported inside the scope |
| Server.ChannelRead | src/main/java/nettyotel/NettyServer.java:38-78 | decoding then handling: the span's parent is extracted from the decoded headers, and the recorded events are those of the decoded message |
| RoundTrip.HeaderBlockIsJoin | src/main/java/nettyotel/NettyClient.java:51-54 | the header block is the header lines joined by line feeds, plus a final line feed |
| RoundTrip.HeaderTextIsJoin | src/main/java/nettyotel/NettyClient.java:51-55 | the text before the blank line is the header lines joined by line feeds |
| RoundTrip.MessageSplitsAtBlankLine | src/main/java/nettyotel/NettyServer.java:41-43 | the server splits the client's message at the client's blank line and gets the payload as sent |
| RoundTrip.HeadersOfJoinedLines | src/main/java/nettyotel/NettyServer.java:43 | splitting the joined header lines yields the client's lines |
| RoundTrip.HeaderLinesOfMessage | src/main/java/nettyotel/NettyServer.java:41-43 | the server reads exactly the client's header lines and the payload |
| RoundTrip.ParsedLines | src/main/java/nettyotel/NettyServer.java:44-46 | each client line with a colon-free key yields its entry, trimmed |
| RoundTrip.DecodeEncoded | src/main/java/nettyotel/NettyServer.java:41-46 | any non-empty list of single-line entries with colon-free keys decodes to the trimmed entries, put in order, and the payload as sent |
| RoundTrip.StoreEnumerationKey | src/main/java/nettyotel/NettyServer.java:46 | each key of the carrier is stored with its own value |
| RoundTrip.StoreEnumeration | src/main/java/nettyotel/NettyServer.java:46 | putting every entry of an enumeration of a carrier rebuilds that carrier |
| RoundTrip.RoundTrip | src/main/java/nettyotel/NettyServer.java:41-46 | a non-empty carrier with colon-free single-line keys, single-line values and no trimmable ends decodes back to itself and the payload as sent, in every iteration order |
| RoundTrip.ServerReadsClientMessage | src/main/java/nettyotel/NettyClient.java:51-55 | the server reads the client's carrier and the greeting when the carrier is non-empty; for an empty carrier, it reads no headers and no payload |

## Left out

- Netty bootstrap, event loop groups, connect, bind, `writeAndFlush`, `sync`, `close` and the `channelReadComplete` flush are left out. They are socket I/O and event-loop concurrency. The client's transport is a sequence of recorded steps with an injected fault.
- Converting between bytes and strings (UTF-8 on the client, `StringDecoder` on the server) is left out. The model works on strings, and each server read is assumed to deliver exactly one whole message.
- `ContextPropagatorHelper` and the W3C Trace Context and W3C Baggage propagators are left out. `inject` and `extract` are function parameters whose results are not interpreted. The check that `GlobalOpenTelemetry` is initialised is not modelled.
- SDK builders, exporters, the batch span processor, the resource and the real 10-second waits are left out. They are foreign code and wall-clock time. They appear as values and recorded events.
- The server's `main` is left out: binding, the accept loop, and its own `initialize`, which is the same method as the client's. Only `channelRead0` is modelled.
- `HashMap` iteration order is unspecified. `Client.BuildMessage` picks any unvisited key at each step, and every lemma holds for every such order.
- All `System.out.println` logging and the debug prints of trace and span ids are left out.
- JavaString.EqualsIgnoreCaseHttp: only ASCII case folding is modelled. A non-ASCII character that Java's per-character case mapping would equate with a letter of `http` is treated as different.
- Client.ClientMain: an exception thrown by `initialize`, by `inject` or while building the message is not modelled. Only transport failures are.
