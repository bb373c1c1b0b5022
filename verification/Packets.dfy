// packets/packet.c: the datagrams of the file transfer.
module Packets {
  import opened CText
  import opened Buffers

  const FILE_FRAG_SIZE := 1000
  const SENDING_BUFFER_SIZE := 2000
  const NAME_SIZE := 256

  /** The value carried by a struct packet: only the first `size` bytes of its
      filedata belong to it. */
  datatype Packet = Packet(total: uint32, no: uint32, size: uint32, name: string, data: string)

  /** What the buffers of packet.h can hold. */
  predicate Sendable(p: Packet) {
    p.size == |p.data| <= FILE_FRAG_SIZE && |p.name| < NAME_SIZE && '\0' !in p.name
  }

  function Header(p: Packet): string {
    PrintField(p.total) + ":" + PrintField(p.no) + ":" + PrintField(p.size) + ":" + p.name + ":"
  }

  function Encode(p: Packet): string { Header(p) + p.data }

  // ----- reading -----

  /** The buffers on which the parsing loops of buffer_to_packet stay in bounds. */
  predicate Decodable(s: string) {
    HasField(s, CONTENT_SIZE) &&
    var s1 := AfterField(s);
    HasField(s1, CONTENT_SIZE) &&
    var s2 := AfterField(s1);
    HasField(s2, CONTENT_SIZE) && ReadField(Field(s2)) <= FILE_FRAG_SIZE &&
    var s3 := AfterField(s2);
    HasField(s3, NAME_SIZE) && ReadField(Field(s2)) <= |AfterField(s3)|
  }

  function Decode(s: string): (p: Packet)
    requires Decodable(s)
    ensures ':' !in p.name
    ensures p.size == |p.data|
  {
    var s1 := AfterField(s);
    var s2 := AfterField(s1);
    var s3 := AfterField(s2);
    var size := ReadField(Field(s2));
    Packet(ReadField(Field(s)), ReadField(Field(s1)), size, Field(s3), AfterField(s3)[..size])
  }

  /** What buffer_to_packet leaves in the struct: the name ends at its first NUL. */
  function Parsed(p: Packet): Packet { p.(name := CStr(p.name)) }

  /** The length of a datagram: it fits the 2000-byte buffers on both sides. */
  lemma EncodedLength(p: Packet)
    requires Sendable(p)
    ensures |Encode(p)| <= 1292 < SENDING_BUFFER_SIZE
  {
    FieldLength(p.total);
    FieldLength(p.no);
    FieldLength(p.size);
  }

  lemma HeaderIsJoined(p: Packet, x: string)
    ensures Header(p) + x
         == Join(PrintField(p.total), Join(PrintField(p.no), Join(PrintField(p.size), Join(p.name, x))))
  {
  }

  /** Every sendable packet comes back unchanged, whatever bytes follow it in the
      receive buffer, when the file name holds no ':'. */
  lemma PacketRoundTrip(p: Packet, pad: string)
    requires Sendable(p) && ':' !in p.name
    ensures Decodable(Encode(p) + pad)
    ensures Decode(Encode(p) + pad) == p
  {
    hide HasField, Field, AfterField, ReadField, PrintField, Join, Header;
    var x := p.data + pad;
    var s := Encode(p) + pad;
    assert s == Header(p) + x;
    HeaderIsJoined(p, x);
    var s3 := Join(p.name, x);
    var s2 := Join(PrintField(p.size), s3);
    var s1 := Join(PrintField(p.no), s2);
    NumberField(p.total, s1);
    NumberField(p.no, s2);
    NumberField(p.size, s3);
    NameField(p.name, x, NAME_SIZE);
    assert AfterField(s) == s1 && AfterField(s1) == s2 && AfterField(s2) == s3;
  }

  /** A ':' in the file name is the only thing that breaks the round trip. */
  lemma PacketRoundTripExactly(p: Packet, pad: string)
    requires Sendable(p)
    ensures Decodable(Encode(p) + pad) && Decode(Encode(p) + pad) == p <==> ':' !in p.name
  {
    if ':' !in p.name {
      PacketRoundTrip(p, pad);
    }
  }

  /** No datagram that carries a packet reads as the shutdown command. */
  lemma PacketIsNotDone(p: Packet, pad: string)
    ensures CStr(Encode(p) + pad) != "done\n"
  {
    var s := Encode(p) + pad;
    assert s[0] == PrintField(p.total)[0];
    assert PrintField(p.total)[0] in PrintField(p.total);
    assert CStr(s) != "" ==> CStr(s)[0] == s[0];
  }

  // ----- the code that works on buffers in place -----

  /** struct packet; `filename` points to a buffer that the caller owns. */
  class PacketStruct {
    var totalFrag: uint32
    var fragNo: uint32
    var size: uint32
    var filename: array<char>
    const filedata: array<char>

    constructor (name: array<char>)
      ensures filename == name && fresh(filedata) && filedata.Length == FILE_FRAG_SIZE
    {
      totalFrag, fragNo, size := 0, 0, 0;
      filename := name;
      filedata := new char[FILE_FRAG_SIZE](_ => '\0');
    }

    ghost predicate Valid()
      reads this
    {
      filedata.Length == FILE_FRAG_SIZE && size <= FILE_FRAG_SIZE && filedata != filename
    }

    /** The packet held by the struct: name up to its NUL, data up to its size. */
    ghost function View(): (p: Packet)
      requires Valid()
      reads this, filename, filedata
    {
      Packet(totalFrag, fragNo, size, CStr(filename[..]), filedata[..size])
    }

    /** write_packets. */
    method WritePackets(total: uint32, number: uint32, fragSize: uint32,
                        fileName: array<char>, data: array<char>)
      requires filedata.Length == FILE_FRAG_SIZE
      requires fragSize <= FILE_FRAG_SIZE && fragSize <= data.Length
      requires filedata != fileName && filedata != data
      modifies this, filedata
      ensures Valid() && filename == fileName
      ensures View() == Packet(total, number, fragSize, CStr(fileName[..]), data[..fragSize])
    {
      CopyBytes(data, 0, filedata, 0, fragSize);
      totalFrag, fragNo, size, filename := total, number, fragSize, fileName;
    }

    /** convert_to_string: the header with sprintf, then the payload over the NUL. */
    method ConvertToString(data: array<char>, fileName: array<char>) returns (bound: nat)
      requires Valid() && filename == fileName && Sendable(View())
      requires data.Length == SENDING_BUFFER_SIZE
      requires data != filedata && data != fileName
      modifies data
      ensures bound <= data.Length && data[..bound] == Encode(old(View()))
    {
      EncodedLength(View());
      var header := PrintField(totalFrag) + ":" + PrintField(fragNo) + ":" + PrintField(size) + ":"
                  + CStr(fileName[..]) + ":";
      assert header == Header(View());
      PutString(data, header);
      StrlenOf(data[..], header);
      var startPoint := |CStr(data[..])|;
      CopyBytes(filedata, 0, data, startPoint, size);
      bound := startPoint + size;
      assert data[..bound] == data[..startPoint] + data[startPoint..bound];
    }

    /** buffer_to_packet: three numbers through one reused content buffer, the name
        into the caller's buffer, then `size` bytes of data. */
    method BufferToPacket(data: array<char>, name: array<char>)
      requires filedata.Length == FILE_FRAG_SIZE
      requires Decodable(data[..]) && name.Length == NAME_SIZE
      requires data != name && data != filedata && name != filedata
      modifies this, name, filedata
      ensures Valid() && filename == name
      ensures View() == Parsed(Decode(old(data[..])))
    {
      totalFrag, fragNo, size := ParsePacket(data, name, filedata);
      filename := name;
    }
  }

  /** The body of buffer_to_packet on the buffers alone. */
  method ParsePacket(data: array<char>, name: array<char>, filedata: array<char>)
    returns (total: uint32, no: uint32, size: uint32)
    requires filedata.Length == FILE_FRAG_SIZE
    requires Decodable(data[..]) && name.Length == NAME_SIZE
    requires data != name && data != filedata && name != filedata
    modifies name, filedata
    ensures size <= FILE_FRAG_SIZE
    ensures Packet(total, no, size, CStr(name[..]), filedata[..size]) == Parsed(Decode(old(data[..])))
  {
    hide HasInk, CStr, ReadField;
    ghost var s := data[..];
    ghost var s1 := AfterField(s);
    ghost var s2 := AfterField(s1);
    ghost var s3 := AfterField(s2);
    var start;
    start, total, no, size := ReadNumbers(data, s, s1, s2);
    var end := ReadName(data, start, name, s3);
    CopyBytes(data, end, filedata, 0, size);
    assert filedata[..size] == AfterField(s3)[..size];
  }

  /** The three numeric fields, through one reused content buffer. */
  method ReadNumbers(data: array<char>, ghost s: string, ghost s1: string, ghost s2: string)
    returns (start: nat, total: uint32, no: uint32, size: uint32)
    requires data[..] == s && HasField(s, CONTENT_SIZE)
    requires s1 == AfterField(s) && HasField(s1, CONTENT_SIZE)
    requires s2 == AfterField(s1) && HasField(s2, CONTENT_SIZE)
    ensures total == ReadField(Field(s)) && no == ReadField(Field(s1)) && size == ReadField(Field(s2))
    ensures start <= data.Length && data[start..] == AfterField(s2)
  {
    var content := new char[CONTENT_SIZE];
    assert data[0..] == s;
    start, total := CopyNumber(data, 0, content, s);
    start, no := CopyNumber(data, start, content, s1);
    start, size := CopyNumber(data, start, content, s2);
  }
}
