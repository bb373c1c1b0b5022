// packets/ack.c: the acknowledgements of the file transfer. The parser ends each
// field with '\n' where packet.c writes NUL, so it leaves stale bytes of earlier
// fields inside the string that atoi reads.
module Acks {
  import opened CText
  import opened Buffers

  /** A (signed) `char` of the C program. */
  type int8 = x: int | -128 <= x < 128

  datatype AckPacket = AckPacket(total: uint32, no: uint32, received: int8)

  const RECEIVED: int8 := 1

  /** Storing an unsigned int into a char. */
  function AsInt8(u: uint32): int8 { (u + 128) % 256 - 128 }

  function EncodeAck(a: AckPacket): string {
    Join(PrintField(a.total), Join(PrintField(a.no), Join(PrintInt(a.received), "")))
  }

  /** A field that fits content[12] and is not blank: atoi stops inside it. */
  predicate HasNumber(s: string) { HasField(s, CONTENT_SIZE) && HasInk(Field(s)) }

  predicate DecodableAck(s: string) {
    HasNumber(s) && HasNumber(AfterField(s)) && HasNumber(AfterField(AfterField(s)))
  }

  function DecodeAck(s: string): AckPacket
    requires DecodableAck(s)
  {
    var s1 := AfterField(s);
    var s2 := AfterField(s1);
    AckPacket(ReadField(Field(s)), ReadField(Field(s1)), AsInt8(ReadField(Field(s2))))
  }

  lemma PrintedNumber(n: int, rest: string)
    requires -TWO_32 <= n < TWO_32
    ensures HasNumber(Join(PrintInt(n), rest))
    ensures ReadField(Field(Join(PrintInt(n), rest))) == AsUnsigned(n)
    ensures AfterField(Join(PrintInt(n), rest)) == rest
  {
    FieldOfJoin(PrintInt(n), rest);
    IntLength(n);
    PrintedHasInk(n);
    AtoiOfPrinted(n, "");
    assert PrintInt(n) + "" == PrintInt(n);
  }

  lemma EncodedAckIsJoined(a: AckPacket, pad: string)
    ensures EncodeAck(a) + pad
         == Join(PrintField(a.total), Join(PrintField(a.no), Join(PrintInt(a.received), pad)))
  {
    assert "" + pad == pad;
  }

  lemma PrintedUnsigned(u: uint32, rest: string)
    ensures HasNumber(Join(PrintField(u), rest))
    ensures ReadField(Field(Join(PrintField(u), rest))) == u
    ensures AfterField(Join(PrintField(u), rest)) == rest
  {
    PrintedNumber(AsSigned(u), rest);
  }

  lemma Int8RoundTrip(n: int8)
    ensures AsInt8(AsUnsigned(n)) == n
  {
  }

  /** Every acknowledgement comes back unchanged, whatever follows it. */
  lemma AckRoundTrip(a: AckPacket, pad: string)
    ensures DecodableAck(EncodeAck(a) + pad)
    ensures DecodeAck(EncodeAck(a) + pad) == a
  {
    EncodedAckIsJoined(a, pad);
    var s := EncodeAck(a) + pad;
    var s2 := Join(PrintInt(a.received), pad);
    var s1 := Join(PrintField(a.no), s2);
    PrintedUnsigned(a.total, s1);
    PrintedUnsigned(a.no, s2);
    PrintedNumber(a.received, pad);
    Int8RoundTrip(a.received);
    assert AfterField(s) == s1 && AfterField(s1) == s2;
  }

  lemma NumberBeforeNewline(content: seq<char>, field: string)
    requires |field| < |content| && content[..|field|] == field && content[|field|] == '\n'
    requires HasInk(field)
    ensures ReadField(content) == ReadField(field)
  {
    var stale := content[|field| + 1..];
    assert content == field + ['\n'] + stale;
    AtoiStopsAt(field, '\n', stale);
  }

  /** One field of buffer_to_ack: copied over whatever `content` held, ended with '\n'. */
  method ReadNumber(data: array<char>, from: nat, content: array<char>, ghost rest: string)
    returns (start: nat, value: uint32)
    requires data != content && from <= data.Length && data[from..] == rest
    requires content.Length == CONTENT_SIZE && HasNumber(rest)
    modifies content
    ensures start <= data.Length && data[start..] == AfterField(rest)
    ensures value == ReadField(Field(rest))
  {
    var end := CopyField(data, from, content, rest);
    content[end - from] := '\n';
    NumberBeforeNewline(content[..], Field(rest));
    value := ReadField(content[..]);
    start := end + 1;
  }

  /** buffer_to_ack, with `content` standing for its uninitialised stack buffer: the
      result is the same for every content. */
  method BufferToAck(data: array<char>, content: array<char>) returns (a: AckPacket)
    requires data != content && content.Length == CONTENT_SIZE
    requires DecodableAck(data[..])
    modifies content
    ensures a == DecodeAck(old(data[..]))
  {
    ghost var s := data[..];
    assert data[0..] == s;
    var start, total, no, received;
    start, total := ReadNumber(data, 0, content, s);
    start, no := ReadNumber(data, start, content, AfterField(s));
    start, received := ReadNumber(data, start, content, AfterField(AfterField(s)));
    a := AckPacket(total, no, AsInt8(received));
  }

  /** ack_to_buffer. */
  method AckToBuffer(a: AckPacket, data: array<char>)
    requires data.Length >= 256
    modifies data
    ensures |EncodeAck(a)| < data.Length && data[..|EncodeAck(a)|] == EncodeAck(a)
    ensures CStr(data[..]) == EncodeAck(a)
  {
    var s := PrintField(a.total) + ":" + PrintField(a.no) + ":" + PrintInt(a.received) + ":";
    assert s == EncodeAck(a);
    IntLength(AsSigned(a.total));
    IntLength(AsSigned(a.no));
    IntLength(a.received);
    PutString(data, s);
    StrlenOf(data[..], s);
  }
}
