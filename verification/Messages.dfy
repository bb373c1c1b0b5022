// message/message.c: the messages of the conference, and what becomes of a typed line.
module Messages {
  import opened CText
  import opened Buffers
  import opened Users
  import Sessions

  const MAX_DATA := 1000
  const BUFFER_SIZE := 1200

  /** message_t, with every byte of its data buffer. */
  datatype Message = Message(kind: uint32, size: uint32, source: string, data: string)

  // ----- fill_message -----

  /** The loop for chat messages: NUL bytes become spaces and the last byte becomes NUL. */
  function Spaced(data: string): string {
    seq(|data|, i requires 0 <= i < |data| => if data[i] == '\0' then ' ' else data[i])
  }

  /** The data buffer after fill_message with `given`, when it held `was`. */
  function Filled(was: string, kind: uint32, size: uint32, given: string): (r: string)
    requires |was| == MAX_DATA
    requires kind == Sessions.MESSAGE ==> size <= MAX_DATA && size <= |given|
    requires kind != Sessions.MESSAGE && size != 0 ==> |CStr(given)| < MAX_DATA
    ensures |r| == MAX_DATA
  {
    if size == 0 then seq(MAX_DATA, _ => '\0')
    else if kind != Sessions.MESSAGE then CStr(given) + ['\0'] + was[|CStr(given)| + 1..]
    else Spaced(given[..size])[size - 1 := '\0'] + was[size..]
  }

  // ----- message_to_string and string_to_message -----

  function MessageHeader(kind: uint32, size: uint32, source: string): string {
    PrintField(kind) + ":" + PrintField(size) + ":" + source + ":"
  }

  /** The bytes sent: strlen of the buffer, so nothing behind the first NUL. */
  function Wire(m: Message): string
    requires m.size <= |m.data|
  {
    CStr(MessageHeader(m.kind, m.size, m.source) + m.data[..m.size])
  }

  /** The buffers on which string_to_message stays in bounds. */
  predicate Parsable(s: string) {
    HasField(s, CONTENT_SIZE) &&
    var s1 := AfterField(s);
    HasField(s1, CONTENT_SIZE) && ReadField(Field(s1)) <= MAX_DATA &&
    var s2 := AfterField(s1);
    HasField(s2, MAX_NAME) && ReadField(Field(s1)) <= |AfterField(s2)|
  }

  /** The message parsed into a struct cleared with memset. */
  function ParseMessage(s: string): (m: Message)
    requires Parsable(s)
    ensures |m.data| == MAX_DATA
  {
    var s1 := AfterField(s);
    var s2 := AfterField(s1);
    var size := ReadField(Field(s1));
    Message(ReadField(Field(s)), size, CStr(Field(s2)), AfterField(s2)[..size] + seq(MAX_DATA - size, _ => '\0'))
  }

  /** recv into a cleared buffer of 1200 bytes. */
  function InBuffer(bytes: string): string
    requires |bytes| <= BUFFER_SIZE
  {
    bytes + seq(BUFFER_SIZE - |bytes|, _ => '\0')
  }

  lemma HeaderJoined(kind: uint32, size: uint32, source: string, x: string)
    ensures MessageHeader(kind, size, source) + x
         == Join(PrintField(kind), Join(PrintField(size), Join(source, x)))
  {
  }

  predicate GoodSource(source: string) { |source| < MAX_NAME && ':' !in source && '\0' !in source }

  lemma ParseHeader(kind: uint32, size: uint32, source: string, x: string)
    requires GoodSource(source) && size <= MAX_DATA && size <= |x|
    ensures Parsable(MessageHeader(kind, size, source) + x)
    ensures ParseMessage(MessageHeader(kind, size, source) + x)
         == Message(kind, size, source, x[..size] + seq(MAX_DATA - size, _ => '\0'))
  {
    HeaderJoined(kind, size, source, x);
    var s2 := Join(source, x);
    NumberField(kind, Join(PrintField(size), s2));
    NumberField(size, s2);
    FieldOfJoin(source, x);
  }

  lemma HeaderLength(kind: uint32, size: uint32, source: string)
    requires GoodSource(source)
    ensures |MessageHeader(kind, size, source)| <= 41
    ensures '\0' !in MessageHeader(kind, size, source)
  {
    FieldLength(kind);
    FieldLength(size);
  }

  lemma CStrOfSum(a: string, b: string)
    requires '\0' !in a
    ensures CStr(a + b) == a + CStr(b)
  {
    var k := Find(b, '\0', 0);
    forall j | 0 <= j < |a| + k ensures (a + b)[j] != '\0' {
      if j < |a| { assert (a + b)[j] == a[j]; } else { assert (a + b)[j] == b[j - |a|]; }
    }
    assert k < |b| ==> (a + b)[|a| + k] == b[k];
    assert Find(a + b, '\0', 0) == |a| + k;
    assert (a + b)[..|a| + k] == a + b[..k];
  }

  // ----- what arrives -----

  /** `size` bytes of data that a C string function reads as `text`: the text, then NULs. */
  predicate Shows(data: string, size: nat, text: string) {
    |text| <= size <= |data| == MAX_DATA && |text| < MAX_DATA && '\0' !in text
    && data[..|text|] == text && forall i :: |text| <= i < size ==> data[i] == '\0'
  }

  /** A data buffer that was cleared before `text` was put in. */
  function Clean(text: string): (r: string)
    requires |text| < MAX_DATA
    ensures |r| == MAX_DATA
    ensures '\0' !in text ==> CStr(r) == text
  {
    var r := text + ['\0'] + seq(MAX_DATA - |text| - 1, _ => '\0');
    if '\0' !in text then CStrTerminated(text, seq(MAX_DATA - |text| - 1, _ => '\0')); r else r
  }

  lemma WireOfShown(m: Message, text: string)
    requires GoodSource(m.source) && Shows(m.data, m.size, text)
    ensures Wire(m) == MessageHeader(m.kind, m.size, m.source) + text
  {
    hide MessageHeader, GoodSource;
    HeaderLength(m.kind, m.size, m.source);
    var d := m.data[..m.size];
    CStrOfSum(MessageHeader(m.kind, m.size, m.source), d);
    if |text| < m.size {
      assert d == text + ['\0'] + d[|text| + 1..];
      CStrTerminated(text, d[|text| + 1..]);
    } else {
      assert d == text;
    }
  }

  /** Sending only the bytes before the first NUL loses nothing: the receiver's cleared
      buffers put the NULs back, and whatever the sender's buffer held behind its `size`
      bytes stays at home. */
  lemma Arrives(m: Message, text: string)
    requires GoodSource(m.source) && Shows(m.data, m.size, text)
    ensures |Wire(m)| <= BUFFER_SIZE && Parsable(InBuffer(Wire(m)))
    ensures ParseMessage(InBuffer(Wire(m))) == m.(data := Clean(text))
  {
    hide Wire, ParseMessage, Parsable, MessageHeader, GoodSource;
    var h := MessageHeader(m.kind, m.size, m.source);
    HeaderLength(m.kind, m.size, m.source);
    WireOfShown(m, text);
    var x := text + seq(BUFFER_SIZE - |h + text|, _ => '\0');
    assert InBuffer(h + text) == h + x;
    ParseHeader(m.kind, m.size, m.source, x);
    assert x[..m.size] + seq(MAX_DATA - m.size, _ => '\0') == Clean(text);
  }

  // ----- commands -----

  /** fill_and_send_message: the message built from a kind and a text. */
  function CommandMessage(kind: uint32, source: string, text: string): (m: Message)
    requires '\0' !in text && |text| < MAX_DATA
    requires kind != Sessions.MESSAGE
    ensures |m.data| == MAX_DATA
  {
    Message(kind, |text|, source, Filled(seq(MAX_DATA, _ => '\0'), kind, |text|, text + ['\0']))
  }

  /** A command or reply arrives with its kind, source and text. */
  ghost predicate Survives(kind: uint32, source: string, text: string)
    requires kind != Sessions.MESSAGE && '\0' !in text && |text| < MAX_DATA
  {
    var wire := Wire(CommandMessage(kind, source, text));
    |wire| <= BUFFER_SIZE && Parsable(InBuffer(wire))
    && var r := ParseMessage(InBuffer(wire));
       r.kind == kind && r.source == source && CStr(r.data) == text
  }

  lemma CommandRoundTrip(kind: uint32, source: string, text: string)
    requires kind != Sessions.MESSAGE && GoodSource(source) && '\0' !in text && |text| < MAX_DATA
    ensures Survives(kind, source, text)
  {
    CStrTerminated(text, "");
    assert text + ['\0'] == text + ['\0'] + "";
    Arrives(CommandMessage(kind, source, text), text);
  }

  /** Exactly the sources without ':' survive: otherwise the receiver takes a part of it. */
  lemma CommandRoundTripExactly(kind: uint32, source: string, text: string)
    requires kind != Sessions.MESSAGE && '\0' !in text && |text| < MAX_DATA
    requires |source| < MAX_NAME && '\0' !in source
    ensures Survives(kind, source, text) <==> ':' !in source
  {
    if ':' !in source {
      CommandRoundTrip(kind, source, text);
    }
  }

  lemma ColonFound(s: string)
    requires ':' in s
    ensures Find(s, ':', 0) < |s| && s == Join(Field(s), AfterField(s))
    ensures |Field(s)| < |s| && (forall c :: c in Field(s) || c in AfterField(s) ==> c in s)
  {
    var i :| 0 <= i < |s| && s[i] == ':';
    assert Find(s, ':', 0) <= i;
  }

  /** The source and the text that arrive: a name ends at its first ':', and the rest of it
      goes in front of the text, which keeps its length. */
  function SourceRead(source: string): string { Field(source) }

  function TextRead(source: string, text: string): (r: string)
    ensures ':' !in source ==> r == text
    ensures |r| == |text| && forall c :: c in r ==> c in source || c == ':' || c in text
  {
    if ':' !in source then text
    else
      ColonFound(source);
      (AfterField(source) + ":" + text)[..|text|]
  }

  lemma TangledWire(kind: uint32, source: string, text: string)
    requires kind != Sessions.MESSAGE && '\0' !in text && |text| < MAX_DATA
    requires |source| < MAX_NAME && '\0' !in source
    ensures Wire(CommandMessage(kind, source, text)) == MessageHeader(kind, |text|, source) + text
    ensures |MessageHeader(kind, |text|, source)| <= 41
  {
    FieldLength(kind);
    FieldLength(|text|);
    var m := CommandMessage(kind, source, text);
    CStrTerminated(text, "");
    assert text + ['\0'] == text + ['\0'] + "";
    assert m.data[..m.size] == text;
    assert '\0' !in MessageHeader(kind, |text|, source) + text;
  }

  /** What arrives, whatever the source. */
  lemma CommandArrives(kind: uint32, source: string, text: string)
    requires kind != Sessions.MESSAGE && '\0' !in text && |text| < MAX_DATA
    requires |source| < MAX_NAME && '\0' !in source
    ensures var wire := Wire(CommandMessage(kind, source, text));
            |wire| <= BUFFER_SIZE && Parsable(InBuffer(wire))
            && ParseMessage(InBuffer(wire))
               == Message(kind, |text|, SourceRead(source), Clean(TextRead(source, text)))
  {
    if ':' in source {
      TangledArrives(kind, source, text);
    } else {
      CStrTerminated(text, "");
      assert text + ['\0'] == text + ['\0'] + "";
      Arrives(CommandMessage(kind, source, text), text);
    }
  }

  lemma TangledArrives(kind: uint32, source: string, text: string)
    requires kind != Sessions.MESSAGE && '\0' !in text && |text| < MAX_DATA
    requires |source| < MAX_NAME && '\0' !in source && ':' in source
    ensures var wire := Wire(CommandMessage(kind, source, text));
            |wire| <= BUFFER_SIZE && Parsable(InBuffer(wire))
            && ParseMessage(InBuffer(wire))
               == Message(kind, |text|, SourceRead(source), Clean(TextRead(source, text)))
  {
    hide Parsable, ParseMessage, MessageHeader, Field, AfterField, Wire, CommandMessage;
    ColonFound(source);
    var n, rest := Field(source), AfterField(source) + ":" + text;
    TangledWire(kind, source, text);
    HeaderJoined(kind, |text|, source, text);
    HeaderJoined(kind, |text|, n, rest);
    assert Join(source, text) == Join(n, rest);
    var h, pad := MessageHeader(kind, |text|, n), BUFFER_SIZE - |MessageHeader(kind, |text|, source) + text|;
    var x := rest + seq(pad, _ => '\0');
    assert InBuffer(h + rest) == h + x;
    ParseHeader(kind, |text|, n, x);
    assert x[..|text|] + seq(MAX_DATA - |text|, _ => '\0') == Clean(TextRead(source, text));
  }

  // ----- a typed line -----

  predicate Delimiter(c: char) { c == ' ' || c == '\n' }

  /** Where strtok finds the first token of a line, and where the token ends. */
  function TokenStart(line: string): (k: nat)
    ensures k <= |line| && forall j :: 0 <= j < k ==> Delimiter(line[j])
    ensures k < |line| ==> !Delimiter(line[k])
  {
    if line != "" && Delimiter(line[0]) then 1 + TokenStart(line[1..]) else 0
  }

  function TokenEnd(line: string, from: nat): (k: nat)
    requires from <= |line|
    ensures from <= k <= |line| && forall j :: from <= j < k ==> !Delimiter(line[j])
    ensures k < |line| ==> Delimiter(line[k])
    decreases |line| - from
  {
    if from < |line| && !Delimiter(line[from]) then TokenEnd(line, from + 1) else from
  }

  /** The line buffer after the first call of strtok: the delimiter behind the first
      token, if there is a token, is overwritten with NUL. */
  function Cut(line: string): (r: string)
    ensures |r| == |line|
  {
    var start := TokenStart(line);
    if start == |line| then line
    else
      var end := TokenEnd(line, start);
      if end < |line| then line[end := '\0'] else line
  }

  /** The lines that main treats as text: they come from getline, do not start with a
      newline, and their first token, if any, is not a command and fits input[0]. */
  predicate Chat(line: string) {
    2 <= |line| <= MAX_DATA && line[|line| - 1] == '\n' && '\n' !in line[..|line| - 1] && '\0' !in line &&
    var start := TokenStart(line);
    start < |line| ==> line[start] != '/' && TokenEnd(line, start) - start < 50
  }

  /** The message that the client builds from the line buffer, in a struct whose data
      buffer is not initialised. */
  function Said(name: string, line: string, garbage: string): Message
    requires Chat(line) && |garbage| == MAX_DATA
  {
    Message(Sessions.MESSAGE, |line|, name, Filled(garbage, Sessions.MESSAGE, |line|, Cut(line)))
  }

  /** What the server's fill_message makes of a chat message, in its cleared struct. */
  function Refilled(m: Message): Message
    requires |m.data| == MAX_DATA && m.kind == Sessions.MESSAGE && m.size <= MAX_DATA
  {
    m.(data := Filled(seq(MAX_DATA, _ => '\0'), m.kind, m.size, m.data))
  }

  /** The byte that strtok overwrote is put back: the data is the line without its newline. */
  lemma SaidShowsLine(name: string, line: string, garbage: string)
    requires Chat(line) && |garbage| == MAX_DATA
    ensures Shows(Said(name, line, garbage).data, |line|, line[..|line| - 1])
  {
    var n := |line|;
    var text, cut := line[..n - 1], Cut(line);
    var data := Said(name, line, garbage).data;
    forall i | 0 <= i < n - 1 ensures data[i] == line[i] {
      if cut[i] == '\0' {
        assert Delimiter(line[i]) && line[i] == text[i];
        assert line[i] != '\n';
      } else {
        assert cut[i] == line[i];
      }
    }
    assert data[..|text|] == text;
  }

  /** A second fill_message of a chat message changes nothing. */
  lemma RefilledIsSame(m: Message, text: string)
    requires '\0' !in text && |text| < MAX_DATA
    requires m.kind == Sessions.MESSAGE && m.data == Clean(text) && m.size == |text| + 1
    ensures Refilled(m) == m
  {
    var r := Refilled(m);
    forall i | 0 <= i < MAX_DATA ensures r.data[i] == m.data[i] {
      if i < |text| {
        assert m.data[i] == text[i];
      }
    }
    assert r.data == m.data;
  }

  /** A message arrives with its bytes intact. */
  ghost predicate Carries(m: Message, r: Message) {
    m.size <= |m.data| && |Wire(m)| <= BUFFER_SIZE && Parsable(InBuffer(Wire(m)))
    && r == ParseMessage(InBuffer(Wire(m)))
  }

  /** End to end: the server's copy of a typed line and the one that each recipient
      decodes are the line without its newline, from its author. */
  lemma ChatEndToEnd(name: string, line: string, garbage: string)
    requires GoodSource(name) && Chat(line) && |garbage| == MAX_DATA
    ensures var shown := Message(Sessions.MESSAGE, |line|, name, Clean(line[..|line| - 1]));
            Carries(Said(name, line, garbage), shown) && Refilled(shown) == shown
            && Carries(Refilled(shown), shown) && CStr(shown.data) == line[..|line| - 1]
  {
    hide Wire, ParseMessage, Parsable, InBuffer, Refilled;
    var text := line[..|line| - 1];
    var sent := Said(name, line, garbage);
    var shown := Message(Sessions.MESSAGE, |line|, name, Clean(text));
    SaidShowsLine(name, line, garbage);
    Arrives(sent, text);
    RefilledIsSame(shown, text);
    Arrives(shown, text);
  }
}
