/** Tagged chunks: four bytes of name, a 32-bit length, and the data (`ChunkWriter`, `ChunkReader`). */
module AtpChunks {
  import opened Bytes
  import Crc32

  type Tag = s: seq<byte> | |s| == 4 witness [32, 32, 32, 32]

  const FORM: Tag := [0x46, 0x4f, 0x52, 0x4d]
  const ATP1: Tag := [0x41, 0x54, 0x50, 0x31]
  const INFO: Tag := [0x49, 0x4e, 0x46, 0x4f]
  const TRAK: Tag := [0x54, 0x52, 0x41, 0x4b]
  const SECT: Tag := [0x53, 0x45, 0x43, 0x54]
  const CRC1: Tag := [0x43, 0x52, 0x43, 0x31]
  const TIM1: Tag := [0x54, 0x49, 0x4d, 0x31]
  const TTI1: Tag := [0x54, 0x54, 0x49, 0x31]

  /** A closed chunk. */
  function Chunk(tag: Tag, data: seq<byte>): (s: seq<byte>)
    ensures |s| == 8 + |data|
  {
    tag + DWord(|data| % 0x1_0000_0000) + data
  }

  /** What `OpenChunk` finds at the start of the rest of a chunk. */
  datatype Opened = Opened(tag: Tag, data: seq<byte>, rest: seq<byte>)

  function OpenChunk(s: seq<byte>): (r: Option<Opened>)
    ensures r.Some? ==> |r.value.rest| + 8 <= |s|
  {
    if |s| < 8 then None
    else
      var len := DWordValue(s[4..]);
      if 8 + len > |s| then None
      else Some(Opened(s[..4], s[8..8 + len], s[8 + len..]))
  }

  /** The loops that skip chunks with other names. */
  function FindChunk(s: seq<byte>, tag: Tag): (r: Option<Opened>)
    ensures r.Some? ==> |r.value.rest| + 8 <= |s| && r.value.tag == tag
    decreases |s|
  {
    match OpenChunk(s)
    case None => None
    case Some(o) => if o.tag == tag then Some(o) else FindChunk(o.rest, tag)
  }

  /** A closed chunk opens again. */
  lemma {:induction false} ChunkOpens(tag: Tag, data: seq<byte>, rest: seq<byte>)
    requires |data| < 0x1_0000_0000
    ensures OpenChunk(Chunk(tag, data) + rest) == Some(Opened(tag, data, rest))
    ensures FindChunk(Chunk(tag, data) + rest, tag) == Some(Opened(tag, data, rest))
  {
    ChunkStarts(tag, data, |data|);
    DWordRoundTrip(|data|, data + rest);
    OpensWith(tag, DWord(|data|), data, rest);
  }

  lemma {:induction false} ChunkStarts(tag: Tag, data: seq<byte>, n: nat)
    requires n == |data| < 0x1_0000_0000
    ensures Chunk(tag, data) == tag + DWord(n) + data
  {
    assert n % 0x1_0000_0000 == n;
  }

  lemma {:induction false} OpensWith(tag: Tag, length: seq<byte>, data: seq<byte>, rest: seq<byte>)
    requires |length| == 4 && DWordValue(length + (data + rest)) == |data|
    ensures var s := tag + length + data + rest;
      OpenChunk(s) == FindChunk(s, tag) == Some(Opened(tag, data, rest))
  {
    ChunkParts(tag, length, data, rest);
    Opens(tag + length + data + rest, tag, data, rest);
  }

  lemma {:induction false} Opens(s: seq<byte>, tag: Tag, data: seq<byte>, rest: seq<byte>)
    requires |s| == 8 + |data| + |rest| && DWordValue(s[4..]) == |data|
    requires s[..4] == tag && s[8..8 + |data|] == data && s[8 + |data|..] == rest
    ensures OpenChunk(s) == FindChunk(s, tag) == Some(Opened(tag, data, rest))
  {
  }

  lemma {:induction false} ChunkParts(tag: Tag, length: seq<byte>, data: seq<byte>, rest: seq<byte>)
    requires |length| == 4
    ensures var s := tag + length + data + rest;
      && s[..4] == tag && s[4..] == length + (data + rest)
      && s[8..8 + |data|] == data && s[8 + |data|..] == rest
  {
  }

  /** Reading a 32-bit word off the front. */
  function ReadDword(s: seq<byte>): (r: Option<(nat, seq<byte>)>)
    ensures r.Some? ==> r.value.0 < 0x1_0000_0000 && |r.value.1| + 4 == |s|
  {
    if |s| < 4 then None else Some((DWordValue(s), s[4..]))
  }

  lemma {:induction false} DwordReads(n: nat, rest: seq<byte>)
    requires n < 0x1_0000_0000
    ensures ReadDword(DWord(n) + rest) == Some((n, rest))
  {
    DWordRoundTrip(n, rest);
  }

  // ------------------------------------------------------------------
  // The format as a whole
  // ------------------------------------------------------------------

  /** How words and chunks are written and read, and what checksum is used. */
  datatype Format = Format(
    dword: nat -> seq<byte>,
    chunk: (Tag, seq<byte>) -> seq<byte>,
    readDword: seq<byte> -> Option<(nat, seq<byte>)>,
    findChunk: (seq<byte>, Tag) -> Option<Opened>,
    sum: seq<byte> -> nat)

  /** Finding a chunk uses up some of what is there. */
  ghost predicate Shrinks(f: Format) {
    forall s, tag :: f.findChunk(s, tag).Some? ==> |f.findChunk(s, tag).value.rest| < |s|
  }

  ghost predicate Sound(f: Format) {
    && Shrinks(f)
    && (forall n: nat, rest {:trigger f.readDword(f.dword(n) + rest)} :: n < 0x1_0000_0000 ==> f.readDword(f.dword(n) + rest) == Some((n, rest)))
    && (forall tag, data, rest {:trigger f.findChunk(f.chunk(tag, data) + rest, tag)} ::
          |data| < 0x1_0000_0000 ==> f.findChunk(f.chunk(tag, data) + rest, tag) == Some(Opened(tag, data, rest)))
    && (forall n: nat {:trigger f.dword(n)} :: |f.dword(n)| == 4)
    && (forall tag, data :: |f.chunk(tag, data)| == 8 + |data|)
    && (forall data :: f.sum(data) < 0x1_0000_0000)
  }

  /** A checksum as a number. */
  function CrcValue(data: seq<byte>): (n: nat)
    ensures n < 0x1_0000_0000
  {
    Crc32.Crc(data) as nat
  }

  const ATP := Format(DWord, Chunk, ReadDword, FindChunk, CrcValue)

  lemma {:induction false} AtpIsSound()
    ensures Sound(ATP)
  {
    forall n: nat, rest | n < 0x1_0000_0000
      ensures ATP.readDword(ATP.dword(n) + rest) == Some((n, rest))
    {
      DwordReads(n, rest);
    }
    forall tag, data, rest | |data| < 0x1_0000_0000
      ensures ATP.findChunk(ATP.chunk(tag, data) + rest, tag) == Some(Opened(tag, data, rest))
    {
      ChunkOpens(tag, data, rest);
    }
  }
}
