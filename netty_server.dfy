/**
  NettyServer's read handler: split the received text at the first blank
  line, read `key:value` header lines before it into a map, extract the
  remote context from that map and bracket the handling of the payload in a
  SERVER span whose parent is the extracted context.
*/
module Server {
  import opened Wrappers
  import opened JavaString
  import opened Tracing

  /** The separator between the header block and the payload. */
  const Delimiter := "\n\n"

  /** What the handler reads out of one message: the header map and, if there was a delimiter, the payload. */
  datatype Decoded = Decoded(headers: Carrier, payload: Option<string>)

  /** The first colon of `line` stands at `i`. */
  predicate FirstColonAt(line: string, i: int) {
    0 <= i < |line| && line[i] == ':' && ':' !in line[..i]
  }

  /** With two parts, `split(":", 2)` cut the line at its first colon. */
  lemma SplitAtFirstColon(line: string)
    requires |SplitFirst(line, ":")| == 2
    ensures var kv := SplitFirst(line, ":");
      FirstColonAt(line, |kv[0]|) && line[..|kv[0]|] == kv[0] && line[|kv[0]| + 1..] == kv[1]
  {
    var kv := SplitFirst(line, ":");
    var i := |kv[0]|;
    assert line == kv[0] + ":" + kv[1];
    assert line[..i] == kv[0];
    assert line[i + 1..] == kv[1];
    forall j | 0 <= j < i ensures line[..i][j] != ':' {
      OccursAtChar(line, ':', j);
    }
  }

  /**
    One header line: `line.split(":", 2)`, and with two parts the trimmed
    key and the trimmed value; a line without a colon yields nothing.
  */
  function ParseLine(line: string): (r: Option<Entry>)
    ensures r.None? <==> ':' !in line
    ensures r.Some? ==> exists i :: FirstColonAt(line, i) && r.value == (Trim(line[..i]), Trim(line[i + 1..]))
    ensures r.Some? ==> Trimmed(r.value.0) && Trimmed(r.value.1)
  {
    NoOccurrenceOfChar(line, ':');
    var kv := SplitFirst(line, ":");
    if |kv| == 2 then
      SplitAtFirstColon(line);
      Some((Trim(kv[0]), Trim(kv[1])))
    else None
  }

  /** What each header line yields, line by line. */
  function LineEntries(lines: seq<string>): seq<Option<Entry>> {
    seq(|lines|, i requires 0 <= i < |lines| => ParseLine(lines[i]))
  }

  /** HashMap.put of the entry a line yielded; a line that yielded nothing leaves the map alone. */
  function Put(m: Carrier, r: Option<Entry>): Carrier {
    match r
    case None => m
    case Some(e) => m[e.0 := e.1]
  }

  /** The map that the puts of `es`, in order, build from an empty map. */
  function Store(es: seq<Option<Entry>>): Carrier {
    if es == [] then map[] else Put(Store(es[..|es| - 1]), es[|es| - 1])
  }

  /** The map the `for` loop builds from `lines`. */
  function HeadersFrom(lines: seq<string>): Carrier {
    Store(LineEntries(lines))
  }

  /**
    The decoded message: with a "\n\n", the header lines are those before its
    first occurrence and the payload is everything after it; without one, no
    headers and no payload.
  */
  function Parse(msg: string): (d: Decoded)
    ensures d.payload.None? <==> forall j :: !OccursAt(msg, Delimiter, j)
    ensures d.payload.None? ==> d.headers == map[]
  {
    var parts := SplitFirst(msg, Delimiter);
    if |parts| == 2 then Decoded(HeadersFrom(Split(parts[0], '\n')), Some(parts[1]))
    else Decoded(map[], None)
  }

  /**
    The `for` loop of `channelRead0`: split each header line at its first
    colon and put the trimmed key and value into the map, one line at a time.
  */
  method PutLines(lines: seq<string>) returns (headers: Carrier)
    ensures headers == HeadersFrom(lines)
  {
    headers := map[];
    ghost var es := LineEntries(lines);
    for i := 0 to |lines|
      invariant headers == Store(es[..i])
    {
      assert es[..i + 1][..i] == es[..i];
      var kv := SplitFirst(lines[i], ":");
      if |kv| == 2 {
        headers := headers[Trim(kv[0]) := Trim(kv[1])];
      }
    }
    assert es[..|lines|] == es;
  }

  /**
    The decoding part of `channelRead0`: split at the first delimiter; with
    two parts, read the header lines of the first; the payload is the second
    part when there is one.
  */
  method Decode(msg: string) returns (headers: Carrier, payload: Option<string>)
    ensures Decoded(headers, payload) == Parse(msg)
  {
    headers := map[];
    var parts := SplitFirst(msg, Delimiter);
    if |parts| == 2 {
      headers := PutLines(Split(parts[0], '\n'));
    }
    payload := if |parts| > 1 then Some(parts[1]) else None;
  }

  /**
    When the first "\n\n" stands at `i`, the payload is exactly the text after
    it, and the headers are read from the text before it and nothing else.
  */
  lemma PayloadAfterFirstDelimiter(msg: string, i: nat)
    requires OccursAt(msg, Delimiter, i)
    requires forall j :: 0 <= j < i ==> !OccursAt(msg, Delimiter, j)
    ensures Parse(msg).payload == Some(msg[i + 2..])
    ensures Parse(msg).headers == HeadersFrom(Split(msg[..i], '\n'))
  {
    SplitFirstAt(msg, Delimiter, i);
  }

  /**
    A line splits at its first colon only: with a colon-free key part, later
    colons stay in the value, and both sides are trimmed; empty sides are kept.
  */
  lemma ParseLineSplitsAtFirstColon(k: string, v: string)
    requires ':' !in k
    ensures ParseLine(k + ":" + v) == Some((Trim(k), Trim(v)))
  {
    var line := k + ":" + v;
    assert OccursAt(line, ":", |k|) by {
      assert line[|k|..|k| + 1] == ":";
    }
    forall j | 0 <= j < |k|
      ensures !OccursAt(line, ":", j)
    {
      OccursAtChar(line, ':', j);
      assert line[j] == k[j];
    }
    SplitFirstAt(line, ":", |k|);
    assert line[..|k|] == k;
    assert line[|k| + 1..] == v;
  }

  /** `r` is an entry with key `k`. */
  predicate Defines(r: Option<Entry>, k: string) {
    r.Some? && r.value.0 == k
  }

  /** One more put either stores its entry or, for a line without a colon, nothing. */
  lemma StoreLast(es: seq<Option<Entry>>, k: string)
    requires es != []
    ensures k in Store(es) <==> k in Store(es[..|es| - 1]) || Defines(es[|es| - 1], k)
    ensures Defines(es[|es| - 1], k) ==> Store(es)[k] == es[|es| - 1].value.1
    ensures !Defines(es[|es| - 1], k) && k in Store(es) ==> Store(es)[k] == Store(es[..|es| - 1])[k]
  {
  }

  /** Every stored key was stored by some line. */
  lemma {:induction false} StoredByLine(es: seq<Option<Entry>>, k: string) returns (i: nat)
    requires k in Store(es)
    ensures i < |es| && Defines(es[i], k)
  {
    var n := |es| - 1;
    StoreLast(es, k);
    if Defines(es[n], k) {
      i := n;
    } else {
      i := StoredByLine(es[..n], k);
      assert es[..n][i] == es[i];
    }
  }

  /** A key that some line defines is stored, whatever the later lines hold. */
  lemma {:induction false} LineKeyStored(es: seq<Option<Entry>>, i: nat, k: string)
    requires i < |es| && Defines(es[i], k)
    ensures k in Store(es)
  {
    var n := |es| - 1;
    StoreLast(es, k);
    if i < n {
      assert es[..n][i] == es[i];
      LineKeyStored(es[..n], i, k);
    } else {
      assert i == n;
    }
  }

  /** A key is in the map exactly when some line yields an entry with that key. */
  lemma HeaderOrigin(es: seq<Option<Entry>>, k: string)
    ensures k in Store(es) <==> exists i :: 0 <= i < |es| && Defines(es[i], k)
  {
    if k in Store(es) {
      var i := StoredByLine(es, k);
    }
    forall i | 0 <= i < |es| && Defines(es[i], k)
      ensures k in Store(es)
    {
      LineKeyStored(es, i, k);
    }
  }

  /** Of several lines with the same key, the value of the last one is stored. */
  lemma {:induction false} LastLineWins(es: seq<Option<Entry>>, i: nat, k: string)
    requires i < |es| && Defines(es[i], k)
    requires forall j :: i < j < |es| ==> !Defines(es[j], k)
    ensures k in Store(es) && Store(es)[k] == es[i].value.1
  {
    var n := |es| - 1;
    StoreLast(es, k);
    if i < n {
      forall j | i < j < n ensures !Defines(es[..n][j], k) {
        assert es[..n][j] == es[j];
      }
      assert es[..n][i] == es[i];
      LastLineWins(es[..n], i, k);
    } else {
      assert i == n;
    }
  }

  /** When every line yields trimmed text, every stored key and value is trimmed. */
  lemma {:induction false} StoreTrimmed(es: seq<Option<Entry>>)
    requires forall i :: 0 <= i < |es| && es[i].Some? ==> Trimmed(es[i].value.0) && Trimmed(es[i].value.1)
    ensures forall k :: k in Store(es) ==> Trimmed(k) && Trimmed(Store(es)[k])
  {
    if es != [] {
      var n := |es| - 1;
      forall i | 0 <= i < n && es[..n][i].Some?
        ensures Trimmed(es[..n][i].value.0) && Trimmed(es[..n][i].value.1)
      {
        assert es[..n][i] == es[i];
      }
      StoreTrimmed(es[..n]);
    }
  }

  /** Every key and value the decoder stores is trimmed at both ends. */
  lemma HeadersTrimmed(lines: seq<string>)
    ensures forall k :: k in HeadersFrom(lines) ==> Trimmed(k) && Trimmed(HeadersFrom(lines)[k])
  {
    StoreTrimmed(LineEntries(lines));
  }

  /** Puts of nothing leave the map as it was. */
  lemma {:induction false} StoreNothing(es: seq<Option<Entry>>, nones: seq<Option<Entry>>)
    requires forall j :: 0 <= j < |nones| ==> nones[j].None?
    ensures Store(es + nones) == Store(es)
    decreases |nones|
  {
    if nones == [] {
      assert es + nones == es;
    } else {
      var init := nones[..|nones| - 1];
      assert (es + nones)[..|es + nones| - 1] == es + init;
      StoreNothing(es, init);
    }
  }

  /**
    Java's removal of trailing empty strings from `split("\n")` does not
    change the map: reading every piece gives the same headers.
  */
  lemma TrailingEmptyLinesIgnored(s: string)
    ensures HeadersFrom(Split(s, '\n')) == HeadersFrom(Pieces(s, '\n'))
  {
    var ps, r := Pieces(s, '\n'), Split(s, '\n');
    var empties := ps[|r|..];
    assert ps == r + empties;
    assert LineEntries(ps) == LineEntries(r) + LineEntries(empties);
    forall j | 0 <= j < |empties| ensures LineEntries(empties)[j].None? {
      assert empties[j] == [];
    }
    StoreNothing(LineEntries(r), LineEntries(empties));
  }

  /**
    Nothing in the payload becomes a header: once the header text `h` is
    followed by the first delimiter, any two payloads decode to the same map,
    and each payload comes back unmodified.
  */
  lemma PayloadNeverParsed(h: string, p: string, q: string)
    requires forall j :: 0 <= j < |h| ==> !OccursAt(h + Delimiter + p, Delimiter, j)
    ensures Parse(h + Delimiter + p).headers == Parse(h + Delimiter + q).headers
    ensures Parse(h + Delimiter + p).payload == Some(p)
    ensures Parse(h + Delimiter + q).payload == Some(q)
  {
    var mp, mq := h + Delimiter + p, h + Delimiter + q;
    assert mp[..|h| + 1] == h + "\n" == mq[..|h| + 1];
    forall j | 0 <= j < |h|
      ensures !OccursAt(mq, Delimiter, j)
    {
      assert mp[j..j + 2] == mp[..|h| + 1][j..j + 2];
      assert mq[j..j + 2] == mq[..|h| + 1][j..j + 2];
      assert mp[j..j + 2] == mq[j..j + 2];
      assert !OccursAt(mp, Delimiter, j);
    }
    assert OccursAt(mp, Delimiter, |h|) by {
      assert mp[|h|..|h| + 2] == Delimiter;
    }
    assert OccursAt(mq, Delimiter, |h|) by {
      assert mq[|h|..|h| + 2] == Delimiter;
    }
    PayloadAfterFirstDelimiter(mp, |h|);
    PayloadAfterFirstDelimiter(mq, |h|);
    assert mp[..|h|] == h == mq[..|h|];
    assert mp[|h| + 2..] == p;
    assert mq[|h| + 2..] == q;
  }

  /** The attributes set on the SERVER span. */
  const ServerAttributes := map["service.name" := "server", "deployment.environment" := "nettytest", "version" := "1.0.0"]

  /** The SERVER span as built by the span builder: the extracted context is set as parent. */
  function ServerSpanData(parent: Context): SpanData {
    SpanData("server-receive", Server, parent, ServerAttributes)
  }

  /** The body of the try: report the payload, or that it is missing. */
  function PayloadEvent(payload: Option<string>): Event {
    match payload
    case Some(p) => PayloadProcessed(p)
    case None => PayloadMissing
  }

  /**
    What `channelRead0` does: extract, start the span with the extracted
    parent, make it current, handle the payload, close the scope and end the span.
  */
  function ServerEvents(span: SpanId, d: Decoded, extracted: Context): seq<Event> {
    [ContextExtracted(d.headers, extracted), SpanStarted(span), ScopeOpened(span),
     PayloadEvent(d.payload), ScopeClosed(span), SpanEnded(span)]
  }

  /** The SERVER span is started once and ended once, for every message. */
  lemma ServerSpanEndedOnce(span: SpanId, d: Decoded, extracted: Context)
    ensures Count(ServerEvents(span, d, extracted), SpanStarted(span)) == 1
    ensures Count(ServerEvents(span, d, extracted), SpanEnded(span)) == 1
  {
    var a := [ContextExtracted(d.headers, extracted), SpanStarted(span), ScopeOpened(span)];
    var b, c := [PayloadEvent(d.payload)], [ScopeClosed(span), SpanEnded(span)];
    assert ServerEvents(span, d, extracted) == a + b + c;
    forall e | e == SpanStarted(span) || e == SpanEnded(span)
      ensures Count(ServerEvents(span, d, extracted), e) == Count(a, e) + Count(b, e) + Count(c, e)
    {
      CountAppend(a, b, e);
      CountAppend(a + b, c, e);
    }
    forall e | e == SpanStarted(span) || e == SpanEnded(span)
      ensures Count(a, e) == (if e == SpanStarted(span) then 1 else 0)
      ensures Count(c, e) == (if e == SpanEnded(span) then 1 else 0)
    {
      CountAppend([ContextExtracted(d.headers, extracted)], [SpanStarted(span), ScopeOpened(span)], e);
      CountAppend([SpanStarted(span)], [ScopeOpened(span)], e);
      CountAppend([ScopeClosed(span)], [SpanEnded(span)], e);
    }
  }

  /** The context is extracted before the span is started, and the payload is handled once the scope is open. */
  lemma ServerExtractOrder(span: SpanId, d: Decoded, extracted: Context)
    ensures var es := ServerEvents(span, d, extracted);
      && Precedes(es, ContextExtracted(d.headers, extracted), SpanStarted(span))
      && Precedes(es, ScopeOpened(span), PayloadEvent(d.payload))
  {
    var x, s, o, p := ContextExtracted(d.headers, extracted), SpanStarted(span), ScopeOpened(span), PayloadEvent(d.payload);
    var c, e := ScopeClosed(span), SpanEnded(span);
    var es := ServerEvents(span, d, extracted);
    assert es == [x] + [s, o, p, c, e];
    PrecedesAcross([x], [s, o, p, c, e], x, s);
    assert es == [x, s, o] + [p, c, e];
    PrecedesAcross([x, s, o], [p, c, e], o, p);
  }

  /** The payload is handled before the scope is closed, and the scope is closed before the span ends. */
  lemma ServerScopeOrder(span: SpanId, d: Decoded, extracted: Context)
    ensures var es := ServerEvents(span, d, extracted);
      && Precedes(es, PayloadEvent(d.payload), ScopeClosed(span))
      && Precedes(es, ScopeClosed(span), SpanEnded(span))
  {
    var x, s, o, p := ContextExtracted(d.headers, extracted), SpanStarted(span), ScopeOpened(span), PayloadEvent(d.payload);
    var c, e := ScopeClosed(span), SpanEnded(span);
    var es := ServerEvents(span, d, extracted);
    assert es == [x, s, o, p] + [c, e];
    PrecedesAcross([x, s, o, p], [c, e], p, c);
    assert es == [x, s, o, p, c] + [e];
    PrecedesAcross([x, s, o, p, c], [e], c, e);
  }

  /**
    The traced part of `channelRead0`: extract the remote context from the
    decoded headers (with the current context as the base), start the SERVER
    span with that context as parent, make it current, handle the payload,
    and in the finally end the span.
  */
  method Handle(process: Process, d: Decoded, extract: (Context, Carrier) -> Context)
    returns (ghost span: SpanId)
    requires process.Valid()
    modifies process
    ensures process.Valid()
    ensures span == old(|process.spans|)
    ensures process.spans == old(process.spans) + [ServerSpanData(extract(old(process.current), d.headers))]
    ensures process.ended == old(process.ended) + {span}
    ensures process.current == old(process.current)
    ensures process.events == old(process.events)
      + ServerEvents(span, d, extract(old(process.current), d.headers))
  {
    var context := extract(process.current, d.headers);
    process.events := process.events + [ContextExtracted(d.headers, context)];
    ghost var extracted := process.events;
    var id := process.StartSpan(ServerSpanData(context));
    span := id;
    var scope := process.MakeCurrent(id);
    assert process.events == extracted + [SpanStarted(id), ScopeOpened(id)];
    if d.payload.Some? {
      process.events := process.events + [PayloadProcessed(d.payload.value)];
    } else {
      process.events := process.events + [PayloadMissing];
    }
    ghost var handled := process.events;
    assert handled == extracted + [SpanStarted(id), ScopeOpened(id), PayloadEvent(d.payload)];
    // try-with-resources closes the scope before the finally runs
    process.CloseScope(scope);
    // finally
    process.End(id);
    assert process.events == handled + [ScopeClosed(id), SpanEnded(id)];
  }

  /**
    NettyServer's `channelRead0` for one whole message: decode it, then
    handle it inside the SERVER span, whose parent is the context extracted
    from the decoded headers, even when there are none.
  */
  method ChannelRead(process: Process, msg: string, extract: (Context, Carrier) -> Context)
    returns (ghost span: SpanId)
    requires process.Valid()
    modifies process
    ensures process.Valid()
    ensures span == old(|process.spans|)
    ensures process.spans == old(process.spans)
      + [ServerSpanData(extract(old(process.current), Parse(msg).headers))]
    ensures process.ended == old(process.ended) + {span}
    ensures process.current == old(process.current)
    ensures process.events == old(process.events)
      + ServerEvents(span, Parse(msg), extract(old(process.current), Parse(msg).headers))
  {
    var headers, payload := Decode(msg);
    span := Handle(process, Decoded(headers, payload), extract);
  }
}
