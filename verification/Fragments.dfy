// How deliver.c cuts a file into packets, and why the pieces give the file back.
module Fragments {
  import opened CText
  import opened Packets

  /** ceil(size / file_frag_size). */
  function TotalFrag(size: nat): (n: nat)
    ensures n == 0 <==> size == 0
    ensures size > 0 ==> FILE_FRAG_SIZE * (n - 1) < size <= FILE_FRAG_SIZE * n
  {
    (size + FILE_FRAG_SIZE - 1) / FILE_FRAG_SIZE
  }

  function Min(a: nat, b: nat): nat { if a < b then a else b }

  /** The bytes that the first k reads return. */
  function Prefix(content: string, k: nat): string { content[..Min(FILE_FRAG_SIZE * k, |content|)] }

  /** The bytes of read number i, counted from 0. */
  function Fragment(content: string, i: nat): string
    requires i < TotalFrag(|content|)
  {
    content[FILE_FRAG_SIZE * i..Min(FILE_FRAG_SIZE * (i + 1), |content|)]
  }

  /** Files whose number of fragments is an `int`, with names that fit their buffer. */
  predicate Packable(name: string, content: string) {
    TotalFrag(|content|) < TWO_31 && |name| < NAME_SIZE && '\0' !in name
  }

  /** The packet that carries fragment i. */
  function FragmentPacket(name: string, content: string, i: nat): (p: Packet)
    requires Packable(name, content) && i < TotalFrag(|content|)
    ensures Sendable(p) && p.name == name
  {
    FragmentSize(content, i);
    var f := Fragment(content, i);
    Packet(TotalFrag(|content|), i + 1, |f|, name, f)
  }

  lemma FragmentSize(content: string, i: nat)
    requires i < TotalFrag(|content|)
    ensures 1 <= |Fragment(content, i)| <= FILE_FRAG_SIZE
    ensures i + 1 < TotalFrag(|content|) ==> |Fragment(content, i)| == FILE_FRAG_SIZE
    ensures |Prefix(content, i)| == FILE_FRAG_SIZE * i
    ensures Prefix(content, i) + Fragment(content, i) == Prefix(content, i + 1)
  {
    var n := TotalFrag(|content|);
    assert FILE_FRAG_SIZE * i <= FILE_FRAG_SIZE * (n - 1);
    assert i + 1 < n ==> FILE_FRAG_SIZE * (i + 1) <= FILE_FRAG_SIZE * (n - 1);
  }

  lemma PrefixOfAll(content: string)
    ensures Prefix(content, TotalFrag(|content|)) == content
  {
  }

  /** What a receiver that decodes the first k datagrams in order puts together; each
      arrives at the front of a buffer whose remaining bytes are `pad`. */
  function Reassemble(name: string, content: string, k: nat, pad: string): string
    requires Packable(name, content) && ':' !in name && k <= TotalFrag(|content|)
  {
    if k == 0 then ""
    else
      var p := FragmentPacket(name, content, k - 1);
      PacketRoundTrip(p, pad);
      Reassemble(name, content, k - 1, pad) + Decode(Encode(p) + pad).data
  }

  lemma NoFragment(name: string, content: string, pad: string)
    requires Packable(name, content) && ':' !in name
    ensures Reassemble(name, content, 0, pad) == "" == Prefix(content, 0)
  {
  }

  lemma NextFragment(name: string, content: string, k: nat, pad: string)
    requires Packable(name, content) && ':' !in name && 0 < k <= TotalFrag(|content|)
    ensures Reassemble(name, content, k, pad)
         == Reassemble(name, content, k - 1, pad) + Fragment(content, k - 1)
  {
    hide Decode, Encode, Decodable, Fragment;
    PacketRoundTrip(FragmentPacket(name, content, k - 1), pad);
  }

  lemma {:induction false} ReassembledPrefix(name: string, content: string, k: nat, pad: string)
    requires Packable(name, content) && ':' !in name && k <= TotalFrag(|content|)
    ensures Reassemble(name, content, k, pad) == Prefix(content, k)
  {
    hide Reassemble, Fragment, Prefix;
    if k == 0 {
      NoFragment(name, content, pad);
    } else {
      ReassembledPrefix(name, content, k - 1, pad);
      FragmentSize(content, k - 1);
      NextFragment(name, content, k, pad);
    }
  }

  /** Cutting, encoding, decoding and concatenating gives the file back. */
  lemma FragmentationInverse(name: string, content: string, pad: string)
    requires Packable(name, content) && ':' !in name
    ensures Reassemble(name, content, TotalFrag(|content|), pad) == content
  {
    ReassembledPrefix(name, content, TotalFrag(|content|), pad);
    PrefixOfAll(content);
  }
}
