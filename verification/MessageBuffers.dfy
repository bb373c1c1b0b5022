// message/message.c as it is written: loops over the bytes of message_t and of the socket
// buffers.
module MessageBuffers {
  import opened CText
  import opened Buffers
  import opened Users
  import opened Messages

  const ACC_BUFFER_SIZE := 1500

  class MessageStruct {
    var kind: uint32
    var size: uint32
    const source: array<char>
    const data: array<char>

    /** A struct cleared with memset. */
    constructor ()
      ensures Valid() && fresh(source) && fresh(data)
      ensures View() == Message(0, 0, "", seq(MAX_DATA, _ => '\0'))
    {
      kind, size := 0, 0;
      source := new char[MAX_NAME](_ => '\0');
      data := new char[MAX_DATA](_ => '\0');
    }

    ghost predicate Valid()
      reads this
    {
      source.Length == MAX_NAME && data.Length == MAX_DATA && source != data
    }

    ghost function View(): (m: Message)
      requires Valid()
      reads this, source, data
      ensures |m.data| == MAX_DATA
    {
      Message(kind, size, CStr(source[..]), data[..])
    }

    /** fill_message. */
    method FillMessage(newKind: uint32, newSize: uint32, from: string, given: array<char>)
      requires Valid() && given != data && given != source
      requires newKind == Sessions.MESSAGE ==> newSize <= MAX_DATA && newSize <= given.Length
      requires newKind != Sessions.MESSAGE && newSize != 0 ==> |CStr(given[..])| < MAX_DATA
      requires |from| < MAX_NAME && '\0' !in from
      modifies this, source, data
      ensures View() == Message(newKind, newSize, from, Filled(old(data[..]), newKind, newSize, given[..]))
    {
      ghost var was, bytes := data[..], given[..];
      size, kind := newSize, newKind;
      if newSize == 0 {
        Clear();
      } else if newKind != Sessions.MESSAGE {
        PutString(data, CStr(given[..]));
        assert data[..] == CStr(given[..]) + ['\0'] + was[|CStr(given[..])| + 1..];
      } else {
        FillText(data, newSize, given);
      }
      ghost var filled := data[..];
      assert filled == Filled(was, newKind, newSize, bytes);
      PutString(source, from);
      StrlenOf(source[..], from);
      assert data[..] == filled && given[..] == bytes;
    }

    /** memset of the data. */
    method Clear()
      requires Valid()
      modifies data
      ensures data[..] == seq(MAX_DATA, _ => '\0')
    {
      var i := 0;
      while i < MAX_DATA
        invariant i <= MAX_DATA && forall j :: 0 <= j < i ==> data[j] == '\0'
      {
        data[i] := '\0';
        i := i + 1;
      }
    }

    /** The sprintf of message_to_string. */
    method WriteHeader(buffer: array<char>) returns (count: nat)
      requires Valid() && GoodSource(View().source)
      requires buffer != data && buffer != source && buffer.Length >= BUFFER_SIZE
      modifies buffer
      ensures count == |MessageHeader(kind, size, View().source)| < buffer.Length
      ensures buffer[..count] == MessageHeader(kind, size, View().source)
    {
      ghost var m := View();
      var header := PrintField(kind) + ":" + PrintField(size) + ":" + CStr(source[..]) + ":";
      assert header == MessageHeader(m.kind, m.size, m.source);
      HeaderLength(m.kind, m.size, m.source);
      PutString(buffer, header);
      StrlenOf(buffer[..], header);
      count := |CStr(buffer[..])|;
    }

    /** message_to_string with the message's own size: the buffer as a C string is what
        goes on the wire. */
    method MessageToString(buffer: array<char>) returns (count: nat)
      requires Valid() && size <= MAX_DATA && GoodSource(View().source)
      requires buffer != data && buffer != source && buffer.Length >= BUFFER_SIZE
      requires |CStr(data[..])| < MAX_DATA
      modifies data, buffer
      ensures size != 0 ==> data[..] == old(data[..])
      ensures count < buffer.Length
      ensures buffer[..count] == MessageHeader(kind, size, old(View()).source) + old(data[..size])
      ensures CStr(buffer[..]) == Wire(old(View()))
    {
      hide MessageHeader, GoodSource;
      ghost var m := View();
      ghost var header := MessageHeader(m.kind, m.size, m.source);
      HeaderLength(m.kind, m.size, m.source);
      var start := WriteHeader(buffer);
      count := start + size;
      if size == 0 {
        Clear();
        assert m.data[..0] == "";
      } else {
        PutStringAt(buffer, start, CStr(data[..]));
        CopyBytes(data, 0, buffer, start, size);
      }
      buffer[count] := '\0';
      assert buffer[..count] == header + m.data[..m.size];
      NameInBuffer(buffer[..], header + m.data[..m.size]);
    }

    /** string_to_message. */
    method StringToMessage(buffer: array<char>)
      requires Valid() && Parsable(buffer[..]) && buffer != data && buffer != source
      modifies this, source, data
      ensures size <= MAX_DATA && Valid()
      ensures var m := ParseMessage(old(buffer[..]));
              View() == m.(data := m.data[..m.size] + old(data[..])[m.size..])
    {
      kind, size := ParseInto(buffer, source, data);
    }
  }

  /** The loop of fill_message for chat, and the NUL at its end. */
  method FillText(data: array<char>, size: nat, given: array<char>)
    requires data != given && 0 < size <= data.Length && size <= given.Length
    modifies data
    ensures data[..] == Spaced(given[..size])[size - 1 := '\0'] + old(data[..])[size..]
  {
    ghost var was := data[..];
    var i := 0;
    while i < size
      invariant i <= size
      invariant forall k :: 0 <= k < i ==> data[k] == if given[k] == '\0' then ' ' else given[k]
      invariant forall k :: i <= k < data.Length ==> data[k] == was[k]
    {
      data[i] := given[i];
      if given[i] == '\0' {
        data[i] := ' ';
      }
      i := i + 1;
    }
    data[size - 1] := '\0';
    assert data[..] == Spaced(given[..size])[size - 1 := '\0'] + was[size..];
  }

  /** The body of string_to_message on the buffers alone. */
  method ParseInto(buffer: array<char>, source: array<char>, data: array<char>)
    returns (kind: uint32, size: uint32)
    requires source.Length == MAX_NAME && data.Length == MAX_DATA && source != data
    requires Parsable(buffer[..]) && buffer != data && buffer != source
    modifies source, data
    ensures size <= MAX_DATA
    ensures var m := ParseMessage(old(buffer[..]));
            Message(kind, size, CStr(source[..]), data[..])
            == m.(data := m.data[..m.size] + old(data[..])[m.size..])
  {
    hide HasField, Field, AfterField, CStr, ReadField, Parsable, ParseMessage;
    ghost var s, was := buffer[..], data[..];
    ghost var s1, s2, rest := Parts(s);
    var start;
    start, kind, size := ReadKindAndSize(buffer, s, s1);
    start := ReadName(buffer, start, source, s2);
    CopyBytes(buffer, start, data, 0, size);
    assert data[..size] == rest[..size];
    assert data[size..] == was[size..];
    assert data[..] == data[..size] + data[size..];
  }

  /** What is left of a message behind each of its fields. */
  lemma Parts(s: string) returns (s1: string, s2: string, rest: string)
    requires Parsable(s)
    ensures HasField(s, CONTENT_SIZE) && s1 == AfterField(s)
    ensures HasField(s1, CONTENT_SIZE) && s2 == AfterField(s1)
    ensures HasField(s2, MAX_NAME) && rest == AfterField(s2)
    ensures var size := ReadField(Field(s1));
            size <= MAX_DATA && size <= |rest|
            && ParseMessage(s) == Message(ReadField(Field(s)), size, CStr(Field(s2)),
                                          rest[..size] + seq(MAX_DATA - size, _ => '\0'))
  {
    hide Field, AfterField, CStr, ReadField, HasInk;
    s1 := AfterField(s);
    s2 := AfterField(s1);
    rest := AfterField(s2);
  }

  /** The first two fields, through one reused content buffer. */
  method ReadKindAndSize(buffer: array<char>, ghost s: string, ghost s1: string)
    returns (start: nat, kind: uint32, size: uint32)
    requires buffer[..] == s && HasField(s, CONTENT_SIZE)
    requires s1 == AfterField(s) && HasField(s1, CONTENT_SIZE)
    ensures kind == ReadField(Field(s)) && size == ReadField(Field(s1))
    ensures start <= buffer.Length && buffer[start..] == AfterField(s1)
  {
    var content := new char[CONTENT_SIZE];
    assert buffer[0..] == s;
    start, kind := CopyNumber(buffer, 0, content, s);
    start, size := CopyNumber(buffer, start, content, s1);
  }

  lemma CommandFilled(kind: uint32, from: string, said: string, given: string)
    requires kind != Sessions.MESSAGE && '\0' !in said && |said| < MAX_DATA && (said != "" ==> CStr(given) == said)
    ensures var m := CommandMessage(kind, from, said);
            m == Message(kind, |said|, from, Filled(seq(MAX_DATA, _ => '\0'), kind, |said|, given))
            && m.data[|said|] == '\0'
  {
    CStrTerminated(said, "");
    assert said + ['\0'] == said + ['\0'] + "";
  }

  /** fill_and_send_message: the bytes handed to send. */
  method FillAndSendMessage(kind: uint32, from: string, text: array?<char>) returns (wire: string)
    requires kind != Sessions.MESSAGE && GoodSource(from)
    requires text != null ==> |CStr(text[..])| < MAX_DATA
    ensures wire == Wire(CommandMessage(kind, from, if text == null then "" else CStr(text[..])))
  {
    hide Wire, MessageHeader, CommandMessage, Filled;
    ghost var said := if text == null then "" else CStr(text[..]);
    var reply := new MessageStruct();
    var buffer := new char[BUFFER_SIZE](_ => '\0');
    if text == null {
      var nothing := new char[0];
      CommandFilled(kind, from, said, nothing[..]);
      reply.FillMessage(kind, 0, from, nothing);
    } else {
      CommandFilled(kind, from, said, text[..]);
      reply.FillMessage(kind, |CStr(text[..])|, from, text);
    }
    Terminated(reply.data[..], |said|);
    var _ := reply.MessageToString(buffer);
    wire := CStr(buffer[..]);
  }

  lemma Terminated(data: string, k: nat)
    requires k < |data| && data[k] == '\0'
    ensures |CStr(data)| <= k
  {
  }

  lemma ParsedIntoCleared(s: string)
    requires Parsable(s)
    ensures var m := ParseMessage(s);
            m.size <= |m.data| && m.(data := m.data[..m.size] + seq(MAX_DATA, _ => '\0')[m.size..]) == m
  {
    var m := ParseMessage(s);
    assert m.data == m.data[..m.size] + m.data[m.size..];
    assert m.data[m.size..] == seq(MAX_DATA, _ => '\0')[m.size..];
  }

  /** The MESSAGE branch of connection_handler up to the sending: the bytes that every
      recipient gets. */
  method Forward(buffer: array<char>) returns (wire: string)
    requires Parsable(buffer[..]) && ParseMessage(buffer[..]).kind == Sessions.MESSAGE
    requires GoodSource(ParseMessage(buffer[..]).source)
    ensures wire == Wire(Refilled(ParseMessage(buffer[..])))
  {
    hide Wire, ParseMessage, Parsable;
    ghost var m := ParseMessage(buffer[..]);
    var received := new MessageStruct();
    received.StringToMessage(buffer);
    ParsedIntoCleared(buffer[..]);
    assert received.View() == m;
    var reply := new MessageStruct();
    reply.FillMessage(Sessions.MESSAGE, received.size, CStr(received.source[..]), received.data);
    assert reply.View() == Refilled(m);
    Terminated(reply.data[..], if m.size == 0 then 0 else m.size - 1);
    var out := new char[ACC_BUFFER_SIZE](_ => '\0');
    var _ := reply.MessageToString(out);
    wire := CStr(out[..]);
  }
}
