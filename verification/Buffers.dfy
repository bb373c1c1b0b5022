// The byte buffers that the parsers and printers of both programs share: fields copied up
// to their ':' into a small content buffer, and strings and bytes copied into place.
module Buffers {
  import opened CText

  /** content[12] in every parser. */
  const CONTENT_SIZE := 12

  // ----- fields as values -----

  lemma NumberField(u: uint32, rest: string)
    ensures HasField(Join(PrintField(u), rest), CONTENT_SIZE)
    ensures ReadField(Field(Join(PrintField(u), rest))) == u
    ensures AfterField(Join(PrintField(u), rest)) == rest
  {
    FieldOfJoin(PrintField(u), rest);
    FieldRoundTrip(u, "");
    FieldLength(u);
    assert PrintField(u) + "" == PrintField(u);
  }

  lemma NameField(name: string, rest: string, room: nat)
    requires ':' !in name && |name| < room
    ensures HasField(Join(name, rest), room)
    ensures Field(Join(name, rest)) == name
    ensures AfterField(Join(name, rest)) == rest
  {
    FieldOfJoin(name, rest);
  }

  // ----- buffers in place -----

  /** sprintf into a buffer: the bytes of `s`, then NUL. */
  method PutString(data: array<char>, s: string)
    requires |s| < data.Length
    modifies data
    ensures data[..|s|] == s && data[|s|] == '\0'
    ensures data[|s| + 1..] == old(data[|s| + 1..])
  {
    var i := 0;
    while i < |s|
      invariant i <= |s|
      invariant data[..i] == s[..i]
      invariant data[|s| + 1..] == old(data[|s| + 1..])
    {
      data[i] := s[i];
      i := i + 1;
    }
    data[|s|] := '\0';
  }

  lemma StrlenOf(data: seq<char>, s: string)
    requires |s| < |data| && data[..|s|] == s && data[|s|] == '\0' && '\0' !in s
    ensures CStr(data) == s
  {
    CStrTerminated(s, data[|s| + 1..]);
    assert data == s + ['\0'] + data[|s| + 1..];
  }

  /** The loop `while (data[count] != ':')` that copies one field; `rest` names the
      bytes from `from` on. */
  method CopyField(data: array<char>, from: nat, content: array<char>, ghost rest: string)
    returns (end: nat)
    requires data != content && from <= data.Length && data[from..] == rest
    requires HasField(rest, content.Length)
    modifies content
    ensures end == from + |Field(rest)| < data.Length
    ensures data[end + 1..] == AfterField(rest)
    ensures |Field(rest)| < content.Length && content[..|Field(rest)|] == Field(rest)
  {
    ghost var length := |Field(rest)|;
    var index := 0;
    end := from;
    while data[end] != ':'
      invariant 0 <= index <= length && end == from + index
      invariant content[..index] == rest[..index]
      decreases length - index
    {
      assert data[end] == rest[index];
      content[index] := data[end];
      end := end + 1;
      index := index + 1;
    }
    assert data[end] == rest[index];
  }

  lemma NumberInBuffer(content: seq<char>, field: string)
    requires |field| < |content| && content[..|field|] == field && content[|field|] == '\0'
    ensures ReadField(content) == ReadField(field)
  {
    var stale := content[|field| + 1..];
    assert content == field + ['\0'] + stale;
    AtoiStopsAt(field, '\0', stale);
  }

  /** Copy a numeric field, end it with NUL and read it: atoi of the reused buffer,
      stale bytes and all, is atoi of the field. */
  method CopyNumber(data: array<char>, from: nat, content: array<char>, ghost rest: string)
    returns (start: nat, value: uint32)
    requires data != content && from <= data.Length && data[from..] == rest
    requires HasField(rest, content.Length)
    modifies content
    ensures start <= data.Length && data[start..] == AfterField(rest)
    ensures value == ReadField(Field(rest))
  {
    var end := CopyField(data, from, content, rest);
    content[end - from] := '\0';
    NumberInBuffer(content[..], Field(rest));
    value := ReadField(content[..]);
    start := end + 1;
  }

  /** The file name, NUL-terminated in the caller's buffer. */
  method ReadName(data: array<char>, from: nat, name: array<char>, ghost rest: string) returns (start: nat)
    requires data != name && from <= data.Length && data[from..] == rest
    requires HasField(rest, name.Length)
    modifies name
    ensures start <= data.Length && data[start..] == AfterField(rest)
    ensures CStr(name[..]) == CStr(Field(rest))
  {
    var end := CopyField(data, from, name, rest);
    name[end - from] := '\0';
    NameInBuffer(name[..], Field(rest));
    start := end + 1;
  }

  lemma NameInBuffer(buffer: seq<char>, field: string)
    requires |field| < |buffer| && buffer[..|field|] == field && buffer[|field|] == '\0'
    ensures CStr(buffer) == CStr(field)
  {
    var k := Find(field, '\0', 0);
    assert forall j :: 0 <= j < |field| ==> buffer[j] == field[j];
    assert Find(buffer, '\0', 0) == k;
  }

  /** strcat behind the first `start` bytes. */
  method PutStringAt(buffer: array<char>, start: nat, s: string)
    requires start + |s| < buffer.Length
    modifies buffer
    ensures buffer[..start] == old(buffer[..start])
    ensures buffer[start..start + |s|] == s && buffer[start + |s|] == '\0'
  {
    var i := 0;
    while i < |s|
      invariant i <= |s|
      invariant buffer[..start] == old(buffer[..start])
      invariant buffer[start..start + i] == s[..i]
    {
      buffer[start + i] := s[i];
      i := i + 1;
    }
    buffer[start + |s|] := '\0';
  }

  /** The byte loops `to[i] = from[i]`. */
  method CopyBytes(from: array<char>, fromStart: nat, to: array<char>, toStart: nat, count: nat)
    requires from != to
    requires fromStart + count <= from.Length && toStart + count <= to.Length
    modifies to
    ensures to[..toStart] == old(to[..toStart])
    ensures to[toStart..toStart + count] == from[fromStart..fromStart + count]
    ensures to[toStart + count..] == old(to[toStart + count..])
  {
    var i := 0;
    while i < count
      invariant i <= count
      invariant to[..toStart] == old(to[..toStart])
      invariant to[toStart..toStart + i] == from[fromStart..fromStart + i]
      invariant to[toStart + count..] == old(to[toStart + count..])
    {
      to[toStart + i] := from[fromStart + i];
      i := i + 1;
    }
  }
}
