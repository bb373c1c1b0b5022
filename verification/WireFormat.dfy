// The requests and replies of the conference as the bytes that message.c makes of them,
// and what the other side reads.
module WireFormat {
  import opened Users
  import opened Sessions
  import opened Conference
  import opened Messages

  // ----- one request and one reply -----

  /** A string that C functions handle whole. */
  predicate Plain(s: string) { '\0' !in s }

  /** Requests that fit the message format. */
  predicate Sendable(q: Request) {
    q.kind < CText.TWO_32 && |q.source| < MAX_NAME && Plain(q.source) && Plain(q.data) &&
    if q.kind == MESSAGE then ':' !in q.source && Chat(q.data + "\n") else |q.data| < MAX_DATA
  }

  /** The bytes that the client sends for a request; chat is a typed line, and is built in
      a struct that is not cleared. */
  function Bytes(q: Request, garbage: string): string
    requires Sendable(q) && |garbage| == MAX_DATA
  {
    if q.kind == MESSAGE then Wire(Said(q.source, q.data + "\n", garbage))
    else Wire(CommandMessage(q.kind, q.source, q.data))
  }

  predicate Legible(bytes: string) { |bytes| <= BUFFER_SIZE && Parsable(InBuffer(bytes)) }

  /** What string_to_message and C's string functions make of received bytes. */
  function Read(bytes: string): Request
    requires Legible(bytes)
  {
    var m := ParseMessage(InBuffer(bytes));
    Request(m.kind, m.source, CText.CStr(m.data))
  }

  /** What arrives of a request: a ':' in its source ends the name there. */
  function AsRead(q: Request): Request { Request(q.kind, SourceRead(q.source), TextRead(q.source, q.data)) }

  /** The bytes of every request, type, size, source and text with colons between them: the
      size of chat counts the newline that is not sent. */
  lemma BytesExactly(q: Request, garbage: string)
    requires Sendable(q) && |garbage| == MAX_DATA
    ensures var size := if q.kind == MESSAGE then |q.data| + 1 else |q.data|;
            Bytes(q, garbage)
            == CText.PrintField(q.kind) + ":" + CText.PrintField(size) + ":" + q.source + ":" + q.data
  {
    hide Wire, Said, CommandMessage, Chat, Shows;
    if q.kind == MESSAGE {
      var line := q.data + "\n";
      assert line[..|line| - 1] == q.data;
      SaidShowsLine(q.source, line, garbage);
      SaidIs(q.source, line, garbage);
      WireOfShown(Said(q.source, line, garbage), q.data);
    } else {
      TangledWire(q.kind, q.source, q.data);
    }
  }

  lemma SaidIs(name: string, line: string, garbage: string)
    requires Chat(line) && |garbage| == MAX_DATA
    ensures var m := Said(name, line, garbage); m.kind == MESSAGE && m.size == |line| && m.source == name
  {
  }

  /** Every request arrives as it was sent, up to a ':' in the source. */
  lemma RequestArrives(q: Request, garbage: string)
    requires Sendable(q) && |garbage| == MAX_DATA
    ensures Legible(Bytes(q, garbage)) && Read(Bytes(q, garbage)) == AsRead(q)
  {
    hide Wire, ParseMessage, Parsable, InBuffer, Said, CommandMessage, Chat;
    if q.kind == MESSAGE {
      ChatEndToEnd(q.source, q.data + "\n", garbage);
      assert (q.data + "\n")[..|q.data|] == q.data;
      WholeSource(q.source);
    } else {
      CommandArrives(q.kind, q.source, q.data);
      WholeSource(q.source);
      assert Plain(TextRead(q.source, q.data));
    }
  }

  lemma WholeSource(source: string)
    ensures ':' !in source ==> SourceRead(source) == source
    ensures |SourceRead(source)| <= |source| && ':' !in SourceRead(source)
    ensures forall c :: c in SourceRead(source) ==> c in source
  {
  }

  /** Replies that fit the message format. */
  predicate Clear(r: Reply) {
    r.kind < CText.TWO_32 && GoodSource(r.source) && Plain(r.data) && |r.data| < MAX_DATA
  }

  /** The bytes that the server sends: chat is the message received, filled again. */
  function ReplyBytes(r: Reply): string
    requires Clear(r)
  {
    if r.kind == MESSAGE then Wire(Message(MESSAGE, |r.data| + 1, r.source, Clean(r.data)))
    else Wire(CommandMessage(r.kind, r.source, r.data))
  }

  lemma ReplyArrives(r: Reply)
    requires Clear(r)
    ensures Legible(ReplyBytes(r)) && Read(ReplyBytes(r)) == Request(r.kind, r.source, r.data)
  {
    hide ParseMessage, Parsable, InBuffer, Wire;
    if r.kind == MESSAGE {
      var m := Message(MESSAGE, |r.data| + 1, r.source, Clean(r.data));
      assert Shows(m.data, m.size, r.data);
      Arrives(m, r.data);
    } else {
      CommandRoundTrip(r.kind, r.source, r.data);
    }
  }
}
