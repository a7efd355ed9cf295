/**
  The client's framing read back by the server's decoder: for a non-empty
  carrier whose keys and values fit in a header line, the server recovers the
  carrier and the payload exactly; for an empty carrier the message holds no
  blank line and the server finds neither headers nor payload.
*/
module RoundTrip {
  import opened Wrappers
  import opened JavaString
  import opened Tracing
  import opened Client
  import opened Server

  /** Each header as the client writes it, without its line feed. */
  function Lines(order: seq<Entry>): (ls: seq<string>)
    ensures |ls| == |order|
    ensures forall i :: 0 <= i < |order| ==> ls[i] + "\n" == Line(order[i])
  {
    seq(|order|, i requires 0 <= i < |order| => order[i].0 + ":" + order[i].1)
  }

  /** What the server makes of each header line: the entry with both sides trimmed. */
  function TrimmedEntries(order: seq<Entry>): (es: seq<Option<Entry>>)
    ensures |es| == |order|
    ensures forall i :: 0 <= i < |order| ==> es[i].Some? && es[i].value.0 == Trim(order[i].0)
  {
    seq(|order|, i requires 0 <= i < |order| => Some((Trim(order[i].0), Trim(order[i].1))))
  }

  /** Keys and values the frame carries unchanged: no colon in a key, no line feed anywhere, nothing for trim to remove. */
  ghost predicate Transmissible(m: Carrier) {
    forall k :: k in m ==> ':' !in k && '\n' !in k && '\n' !in m[k] && Trimmed(k) && Trimmed(m[k])
  }

  /** The header block is the header lines joined by line feeds, with one more line feed at its end. */
  lemma {:induction false} HeaderBlockIsJoin(order: seq<Entry>)
    requires order != []
    ensures HeaderBlock(order) == Join(Lines(order), '\n') + "\n"
  {
    var ls := Lines(order);
    if |order| == 1 {
      assert order[1..] == [];
      assert Join(ls, '\n') == ls[0];
    } else {
      HeaderBlockIsJoin(order[1..]);
      assert Lines(order[1..]) == ls[1..];
      assert Join(ls, '\n') == ls[0] + ['\n'] + Join(ls[1..], '\n');
      assert Line(order[0]) == ls[0] + "\n";
    }
  }

  /** The text before the client's blank line is the header lines joined by line feeds. */
  lemma HeaderTextIsJoin(order: seq<Entry>, payload: string)
    requires order != []
    ensures |HeaderBlock(order)| >= 1
    ensures Encode(order, payload)[..|HeaderBlock(order)| - 1] == Join(Lines(order), '\n')
  {
    var msg := Encode(order, payload);
    var hb := HeaderBlock(order);
    var n := |hb|;
    HeaderBlockIsJoin(order);
    MessageLayout(order, payload);
    assert msg[..n - 1] == msg[..n][..n - 1];
  }

  /** The server cuts the message at the client's blank line: joined header lines before it, the payload after it. */
  lemma MessageSplitsAtBlankLine(order: seq<Entry>, payload: string)
    requires order != [] && SingleLineEntries(order)
    ensures Parse(Encode(order, payload)) == Decoded(HeadersFrom(Split(Join(Lines(order), '\n'), '\n')), Some(payload))
  {
    var msg := Encode(order, payload);
    var n := |HeaderBlock(order)|;
    FirstBlankLineEndsHeaders(order, payload);
    HeaderTextIsJoin(order, payload);
    assert OccursAt(msg, Delimiter, n - 1);
    PayloadAfterFirstDelimiter(msg, n - 1);
    var joined := Join(Lines(order), '\n');
    assert msg[..n - 1] == joined;
    assert Parse(msg).headers == HeadersFrom(Split(joined, '\n'));
    assert Parse(msg).payload == Some(payload);
  }

  /** Splitting the joined header lines gives back the lines, so the same headers are read. */
  lemma HeadersOfJoinedLines(order: seq<Entry>)
    requires order != [] && SingleLineEntries(order)
    ensures HeadersFrom(Split(Join(Lines(order), '\n'), '\n')) == HeadersFrom(Lines(order))
  {
    var ls := Lines(order);
    TrailingEmptyLinesIgnored(Join(ls, '\n'));
    forall i | 0 <= i < |ls| ensures '\n' !in ls[i] {
      assert order[i] in order;
      assert ls[i] == order[i].0 + ":" + order[i].1;
    }
    PiecesOfJoin(ls, '\n');
  }

  /**
    The server reads the message exactly at the client's blank line: the
    payload comes back as sent and the headers are read from the client's own
    header lines, every one of them and nothing else.
  */
  lemma HeaderLinesOfMessage(order: seq<Entry>, payload: string)
    requires order != [] && SingleLineEntries(order)
    ensures Parse(Encode(order, payload)) == Decoded(HeadersFrom(Lines(order)), Some(payload))
  {
    MessageSplitsAtBlankLine(order, payload);
    HeadersOfJoinedLines(order);
  }

  /** Each header line with a colon-free key yields its entry, trimmed on both sides. */
  lemma ParsedLines(order: seq<Entry>)
    requires forall e :: e in order ==> ':' !in e.0
    ensures LineEntries(Lines(order)) == TrimmedEntries(order)
  {
    var ls := Lines(order);
    forall i | 0 <= i < |order|
      ensures LineEntries(ls)[i] == TrimmedEntries(order)[i]
    {
      assert order[i] in order;
      assert ls[i] == order[i].0 + ":" + order[i].1;
      ParseLineSplitsAtFirstColon(order[i].0, order[i].1);
    }
  }

  /**
    Any non-empty list of single-line entries with colon-free keys decodes to
    the trimmed entries, put into the map in the order they were written, and
    the payload as sent.
  */
  lemma DecodeEncoded(order: seq<Entry>, payload: string)
    requires order != []
    requires forall e :: e in order ==> ':' !in e.0 && '\n' !in e.0 && '\n' !in e.1
    ensures Parse(Encode(order, payload)) == Decoded(Store(TrimmedEntries(order)), Some(payload))
  {
    HeaderLinesOfMessage(order, payload);
    ParsedLines(order);
  }

  /** An entry of an enumeration with trimmed keys and values is read back as itself. */
  lemma TrimmedEntriesOfEnumeration(order: seq<Entry>, m: Carrier)
    requires Enumerates(order, m) && Transmissible(m)
    ensures forall i :: 0 <= i < |order| ==> TrimmedEntries(order)[i] == Some(order[i])
  {
    forall i | 0 <= i < |order|
      ensures TrimmedEntries(order)[i] == Some(order[i])
    {
      assert order[i] in order;
    }
  }

  /** A key of `m` is stored with its value: its one line is the last to define it. */
  lemma StoreEnumerationKey(order: seq<Entry>, m: Carrier, k: string)
    requires Enumerates(order, m)
    requires forall i :: 0 <= i < |order| ==> TrimmedEntries(order)[i] == Some(order[i])
    requires k in m
    ensures k in Store(TrimmedEntries(order)) && Store(TrimmedEntries(order))[k] == m[k]
  {
    var es := TrimmedEntries(order);
    assert k in KeySet(order);
    var e :| e in order && e.0 == k;
    var i :| 0 <= i < |order| && order[i] == e;
    forall j | i < j < |es| ensures !Defines(es[j], k) {
      assert order[i].0 != order[j].0;
    }
    LastLineWins(es, i, k);
  }

  /** Putting every entry of an enumeration of `m`, already trimmed, rebuilds `m`. */
  lemma StoreEnumeration(order: seq<Entry>, m: Carrier)
    requires Enumerates(order, m) && Transmissible(m)
    ensures Store(TrimmedEntries(order)) == m
  {
    var es := TrimmedEntries(order);
    TrimmedEntriesOfEnumeration(order, m);
    forall k | k in Store(es) ensures k in m {
      HeaderOrigin(es, k);
      var i :| 0 <= i < |es| && Defines(es[i], k);
      assert order[i] in order;
    }
    forall k | k in m ensures k in Store(es) && Store(es)[k] == m[k] {
      StoreEnumerationKey(order, m, k);
    }
  }

  /**
    For a non-empty carrier that fits in header lines, whatever order the
    client enumerates it in, the server decodes exactly that carrier and the
    payload as sent.
  */
  lemma RoundTrip(order: seq<Entry>, m: Carrier, payload: string)
    requires Enumerates(order, m) && Transmissible(m) && m != map[]
    ensures Parse(Encode(order, payload)) == Decoded(m, Some(payload))
  {
    var k :| k in m;
    assert k in KeySet(order);
    forall e | e in order ensures ':' !in e.0 && '\n' !in e.0 && '\n' !in e.1 {
      assert e.0 in m;
    }
    DecodeEncoded(order, payload);
    StoreEnumeration(order, m);
  }

  /**
    What the server reads from the client's message: the injected carrier and
    the greeting when the carrier is not empty; neither headers nor payload
    when it is, since the message then holds no blank line.
  */
  lemma ServerReadsClientMessage(order: seq<Entry>, m: Carrier)
    requires Enumerates(order, m) && Transmissible(m)
    ensures m != map[] ==> Parse(ClientMessage(order)) == Decoded(m, Some(Greeting))
    ensures m == map[] ==> Parse(ClientMessage(order)) == Decoded(map[], None)
  {
    if m != map[] {
      RoundTrip(order, m, Greeting);
    } else {
      assert KeySet(order) == {};
      assert |order| > 0 ==> order[0] in order && order[0].0 in KeySet(order);
      EmptyCarrierMessage();
    }
  }
}
