/** `ChunkWriter` and `ChunkReader`: chunks in a growing buffer, and chunks in a file. */
module AtpStreams {
  import opened Bytes
  import opened AtpChunks
  import opened FileIO
  import Crc32

  class ChunkWriter {
    var fIsOpen: bool
    var fSize: nat
    var fData: array<byte>

    ghost predicate Valid()
      reads this
    {
      8 <= fSize <= fData.Length
    }

    /** The bytes of the chunk so far; the length field is not yet filled in while it is open. */
    ghost function Bytes(): (s: seq<byte>)
      requires Valid()
      reads this, fData
      ensures |s| == fSize
    {
      fData[..fSize]
    }

    ghost function Name(): Tag
      requires Valid()
      reads this, fData
    {
      fData[..4]
    }

    /** What has been appended. */
    ghost function Payload(): seq<byte>
      requires Valid()
      reads this, fData
    {
      fData[8..fSize]
    }

    /** A closed chunk with this name and data. */
    ghost predicate Is(tag: Tag, data: seq<byte>)
      reads this, fData
    {
      Valid() && !fIsOpen && Bytes() == Chunk(tag, data)
    }

    /** Names are padded with blanks. */
    constructor (chunkName: seq<byte>)
      ensures Valid() && fIsOpen && fresh(fData) && Payload() == []
      ensures |chunkName| == 4 ==> Name() == chunkName
    {
      fIsOpen := true;
      fSize := 8;
      fData := new byte[16];
      new;
      var len := if |chunkName| > 4 then 4 else |chunkName|;
      forall i | 0 <= i < 8 {
        fData[i] := if i < len then chunkName[i] else if i < 4 then 32 else 0;
      }
    }

    /** Makes room; the buffer at least doubles when it has to grow. */
    method PrepareForSize(size: nat)
      requires Valid()
      modifies this`fData
      ensures Valid() && fData.Length >= size && Bytes() == old(Bytes())
      ensures fData == old(fData) || fresh(fData)
    {
      if size > fData.Length {
        var data := new byte[size * 2];
        forall i | 0 <= i < fSize {
          data[i] := fData[i];
        }
        fData := data;
        assert fData[..fSize] == old(fData[..fSize]);
      }
    }

    method AppendBlock(data: seq<byte>) returns (ok: bool)
      requires Valid()
      modifies this, fData
      ensures Valid() && fIsOpen == old(fIsOpen) && ok == fIsOpen && (fData == old(fData) || fresh(fData))
      ensures Bytes() == if ok then old(Bytes()) + data else old(Bytes())
    {
      ok := fIsOpen;
      if ok {
        PrepareForSize(fSize + |data|);
        forall i | 0 <= i < |data| {
          fData[fSize + i] := data[i];
        }
        fSize := fSize + |data|;
      }
    }

    method AppendDword(dword: nat) returns (ok: bool)
      requires Valid()
      modifies this, fData
      ensures Valid() && fIsOpen == old(fIsOpen) && ok == fIsOpen && (fData == old(fData) || fresh(fData))
      ensures Bytes() == if ok then old(Bytes()) + DWord(dword) else old(Bytes())
    {
      ok := AppendBlock(DWord(dword));
    }

    /** Only a closed chunk can be appended. */
    method AppendChunk(chunk: ChunkWriter) returns (ok: bool)
      requires Valid() && chunk.Valid() && chunk != this && chunk.fData != fData
      modifies this, fData
      ensures Valid() && fIsOpen == old(fIsOpen) && ok == (fIsOpen && !chunk.fIsOpen) && (fData == old(fData) || fresh(fData))
      ensures Bytes() == if ok then old(Bytes()) + chunk.Bytes() else old(Bytes())
    {
      ok := fIsOpen && !chunk.fIsOpen;
      if ok {
        ok := AppendBlock(chunk.fData[..chunk.fSize]);
      }
    }

    /** Fills in the length. */
    method CloseChunk() returns (ok: bool)
      requires Valid()
      modifies this, fData
      ensures Valid() && !fIsOpen && ok == old(fIsOpen) && fData == old(fData)
      ensures ok ==> Is(old(Name()), old(Payload()))
      ensures !ok ==> Bytes() == old(Bytes())
    {
      ok := fIsOpen;
      if ok {
        var len := fSize - 8;
        ghost var was := fData[..fSize];
        fData[4], fData[5] := len % 256, len / 256 % 256;
        fData[6], fData[7] := len / 0x1_0000 % 256, len / 0x100_0000 % 256;
        fIsOpen := false;
        LengthBytes(len);
        assert fData[..fSize] == was[..4] + DWord(len % 0x1_0000_0000) + was[8..];
      }
    }

    method CalculateCRC32() returns (crc: bv32)
      requires Valid()
      ensures crc == Crc32.Crc(Payload())
    {
      crc := Crc32.CalcCRC32(0, []);
      Crc32.NothingFed(0);
      crc := Crc32.CalcCRC32(crc, fData[8..fSize]);
    }

    method WriteToFile(f: File) returns (ok: bool)
      requires Valid()
      modifies f`data
      ensures ok == !fIsOpen
      ensures f.data == if ok then old(f.data) + Bytes() else old(f.data)
    {
      ok := !fIsOpen;
      if ok {
        f.WriteBlock(fData[..fSize]);
      }
    }
  }

  class ChunkReader {
    const fFile: File
    const fChunkStart: nat
    const fChunkEnd: nat
    var fCurrentPosition: nat
    const fName: Option<Tag>

    ghost predicate Valid()
      reads this, fFile`data
    {
      fChunkStart + fCurrentPosition <= fChunkEnd <= |fFile.data|
    }

    /** The whole chunk. */
    ghost function Data(): seq<byte>
      requires Valid()
      reads this, fFile`data
    {
      fFile.data[fChunkStart..fChunkEnd]
    }

    /** What has not been read of it yet. */
    ghost function Rest(): seq<byte>
      requires Valid()
      reads this, fFile`data
    {
      fFile.data[fChunkStart + fCurrentPosition..fChunkEnd]
    }

    constructor (file: File, start: nat, end: nat, name: Option<Tag>)
      requires start <= end <= |file.data|
      ensures Valid() && fFile == file && fName == name && Data() == Rest() == file.data[start..end]
    {
      fFile, fChunkStart, fChunkEnd, fCurrentPosition, fName := file, start, end, 0, name;
    }

    /** Reads a block if the chunk still has that much; reading beyond its end fails. */
    method ReadBlock(len: nat) returns (ok: bool, block: seq<byte>)
      requires Valid()
      modifies this`fCurrentPosition, fFile`pos
      ensures Valid() && (ok <==> len <= |old(Rest())|)
      ensures ok ==> block == old(Rest())[..len] && Rest() == old(Rest())[len..]
      ensures !ok ==> Rest() == old(Rest())
    {
      fFile.Seek(fChunkStart + fCurrentPosition);
      ok, block := false, [];
      if fChunkStart + fCurrentPosition + len <= fChunkEnd {
        block := fFile.ReadBlock(len);
        ok := |block| == len;
        if ok {
          fCurrentPosition := fCurrentPosition + len;
        }
      }
    }

    method ReadByte() returns (ok: bool, b: byte)
      requires Valid()
      modifies this`fCurrentPosition, fFile`pos
      ensures Valid() && (ok <==> 1 <= |old(Rest())|)
      ensures ok ==> b == old(Rest())[0] && Rest() == old(Rest())[1..]
      ensures !ok ==> Rest() == old(Rest())
    {
      var block;
      ok, block := ReadBlock(1);
      b := if ok then block[0] else 0;
    }

    method ReadDword() returns (ok: bool, dword: nat)
      requires Valid()
      modifies this`fCurrentPosition, fFile`pos
      ensures Valid()
      ensures match AtpChunks.ReadDword(old(Rest()))
        case None => !ok && Rest() == old(Rest())
        case Some((n, rest)) => ok && dword == n && Rest() == rest
    {
      var block;
      ok, block := ReadBlock(4);
      dword := if ok then DWordValue(block) else 0;
    }

    /** Opens the next chunk inside this one and moves behind it. */
    method OpenChunk() returns (chunk: ChunkReader?)
      requires Valid()
      modifies this`fCurrentPosition, fFile`pos
      ensures Valid()
      ensures match AtpChunks.OpenChunk(old(Rest()))
        case None => chunk == null && Rest() == old(Rest())
        case Some(o) => Holds(chunk, o.tag, o.data) && fresh(chunk) && Rest() == o.rest
    {
      chunk := null;
      if fChunkStart + fCurrentPosition + 8 > fChunkEnd {
        return;
      }
      var name, len := ReadChunkHead();
      var start := fChunkStart + fCurrentPosition + 8;
      OpensAt(fFile.data, fChunkStart + fCurrentPosition, fChunkEnd, len);
      if start + len > fChunkEnd {
        return;
      }
      chunk := new ChunkReader(fFile, start, start + len, Some(name));
      fCurrentPosition := fCurrentPosition + 8 + len;
    }

    static lemma {:induction false} OpensAt(data: seq<byte>, start: nat, end: nat, len: nat)
      requires start + 8 <= end <= |data| && len == DWordValue(data[start..end][4..])
      ensures AtpChunks.OpenChunk(data[start..end])
        == if start + 8 + len > end then None
           else Some(Opened(data[start..end][..4], data[start + 8..start + 8 + len], data[start + 8 + len..end]))
    {
      if start + 8 + len <= end {
        SliceOfSlice(data, start, end, 8, 8 + len);
      }
    }

    method ReadChunkHead() returns (name: Tag, len: nat)
      requires Valid() && |Rest()| >= 8
      modifies fFile`pos
      ensures name == Rest()[..4] && len == DWordValue(Rest()[4..])
    {
      fFile.Seek(fChunkStart + fCurrentPosition);
      var block := fFile.ReadBlock(4);
      name := block;
      var ok;
      ok, len := fFile.ReadDWord();
    }

    /** A chunk of the same file that has just been opened. */
    ghost predicate Holds(chunk: ChunkReader?, tag: Tag, data: seq<byte>)
      reads chunk, fFile`data
    {
      && chunk != null && chunk.fFile == fFile && chunk.Valid() && chunk.fName == Some(tag)
      && chunk.Rest() == data && chunk.Data() == data
    }

    /** The loops that skip chunks with other names. */
    method FindChunk(tag: Tag) returns (chunk: ChunkReader?)
      requires Valid()
      modifies this`fCurrentPosition, fFile`pos
      ensures Valid()
      ensures match AtpChunks.FindChunk(old(Rest()), tag)
        case None => chunk == null
        case Some(o) => Holds(chunk, tag, o.data) && fresh(chunk) && Rest() == o.rest
    {
      ghost var found := AtpChunks.FindChunk(Rest(), tag);
      chunk := OpenChunk();
      while chunk != null && chunk.fName != Some(tag)
        invariant Valid()
        invariant chunk == null ==> found == None
        invariant chunk != null ==> fresh(chunk) && chunk.fName.Some? && chunk.Valid() && Holds(chunk, chunk.fName.value, chunk.Data())
        invariant chunk != null ==>
          found == if chunk.fName == Some(tag) then Some(Opened(tag, chunk.Data(), Rest())) else AtpChunks.FindChunk(Rest(), tag)
        decreases if chunk != null then |Rest()| + 1 else 0
      {
        chunk := OpenChunk();
      }
    }

    /** `CalculateCRC32` over the whole chunk, in pieces of at most 1024 bytes. */
    method CalculateCRC32() returns (crc: bv32)
      requires Valid()
      modifies fFile`pos
      ensures crc == Crc32.Crc(Data())
    {
      crc := CrcOfData(Crc32.Crc);
    }

    method CrcOfData(ghost sum: seq<byte> -> bv32) returns (crc: bv32)
      requires IsCrc(sum) && Valid()
      modifies fFile`pos
      ensures crc == sum(Data())
    {
      crc := CrcOfRange(sum, 0, fChunkEnd - fChunkStart);
    }

    method CrcOfRange(ghost sum: seq<byte> -> bv32, startPos: nat, endPos: nat) returns (crc: bv32)
      requires IsCrc(sum) && Valid() && startPos <= endPos && fChunkStart + endPos <= fChunkEnd
      modifies fFile`pos
      ensures crc == sum(fFile.data[fChunkStart + startPos..fChunkStart + endPos])
    {
      ghost var bytes := fFile.data[fChunkStart + startPos..fChunkStart + endPos];
      crc := NextPiece(sum, 0, None, []);
      var totalLen := endPos - startPos;
      fFile.Seek(fChunkStart + startPos);
      assert fFile.Rest()[..totalLen] == bytes;
      while totalLen > 0
        invariant 0 <= totalLen <= |bytes| && fFile.Valid() && totalLen <= |fFile.Rest()|
        invariant fFile.Rest()[..totalLen] == bytes[|bytes| - totalLen..]
        invariant crc == sum(bytes[..|bytes| - totalLen])
      {
        var len := if totalLen > 1024 then 1024 else totalLen;
        ghost var done := |bytes| - totalLen;
        PieceOf(fFile.Rest(), bytes, done, len);
        var piece := fFile.ReadBlock(len);
        crc := NextPiece(sum, crc, Some(bytes[..done]), piece);
        totalLen := totalLen - len;
      }
      assert bytes[..|bytes|] == bytes;
    }
  }

  /** A function that is the checksum; the loop over the pieces needs no more of it than how it continues. */
  ghost predicate IsCrc(sum: seq<byte> -> bv32) {
    forall s {:trigger Crc32.Crc(s)} :: sum(s) == Crc32.Crc(s)
  }

  /** The checksum so far, continued; without anything so far it begins with 0. */
  method NextPiece(ghost sum: seq<byte> -> bv32, crc: bv32, ghost before: Option<seq<byte>>, piece: seq<byte>) returns (r: bv32)
    requires IsCrc(sum) && if before.Some? then crc == sum(before.value) else crc == 0
    ensures r == sum(if before.Some? then before.value + piece else piece)
  {
    r := Crc32.CalcCRC32(crc, piece);
    if before.Some? {
      assert crc == Crc32.Crc(before.value);
      Crc32.ContinueInTurn(0, before.value, piece);
      assert r == Crc32.Crc(before.value + piece);
    } else {
      assert r == Crc32.Crc(piece);
    }
  }

  lemma {:induction false} PieceOf(rest: seq<byte>, bytes: seq<byte>, done: nat, len: nat)
    requires done + len <= |bytes| && |bytes| - done <= |rest| && rest[..|bytes| - done] == bytes[done..]
    ensures rest[..len] == bytes[done..done + len]
    ensures bytes[..done] + rest[..len] == bytes[..done + len]
    ensures rest[len..][..|bytes| - done - len] == bytes[done + len..]
  {
    assert rest[..len] == rest[..|bytes| - done][..len];
    assert rest[len..][..|bytes| - done - len] == rest[..|bytes| - done][len..];
  }

  /** The four bytes of a length, as shifts and masks give them. */
  lemma {:induction false} LengthBytes(len: nat)
    ensures DWord(len % 0x1_0000_0000) == [len % 256, len / 256 % 256, len / 0x1_0000 % 256, len / 0x100_0000 % 256]
  {
    var n := len % 0x1_0000_0000;
    LowBytes(len);
    assert DWord(n) == Word(n % 0x1_0000) + Word(n / 0x1_0000);
  }

  lemma {:induction false} LowBytes(len: nat)
    ensures var n := len % 0x1_0000_0000;
      && n % 0x1_0000 % 256 == len % 256
      && n % 0x1_0000 / 256 % 256 == len / 256 % 256
      && n / 0x1_0000 % 256 == len / 0x1_0000 % 256
      && n / 0x1_0000 / 256 % 256 == len / 0x100_0000 % 256
  {
    var q1 := len / 256;
    var q2 := q1 / 256;
    var q3 := q2 / 256;
    Digits(len, len % 256, q1 % 256, q2 % 256, q3 % 256, q3 / 256);
  }

  lemma {:induction false} Digits(len: nat, a: nat, b: nat, c: nat, d: nat, e: nat)
    requires a < 256 && b < 256 && c < 256 && d < 256
    requires len == a + 256 * (b + 256 * (c + 256 * (d + 256 * e)))
    ensures len % 256 == a && len / 256 % 256 == b && len / 0x1_0000 % 256 == c && len / 0x100_0000 % 256 == d
    ensures var n := len % 0x1_0000_0000;
      && n % 0x1_0000 % 256 == a && n % 0x1_0000 / 256 % 256 == b
      && n / 0x1_0000 % 256 == c && n / 0x1_0000 / 256 % 256 == d
  {
    Over256(a, b + 256 * (c + 256 * (d + 256 * e)));
    Over256(b, c + 256 * (d + 256 * e));
    Over64K(a + 256 * b, c + 256 * (d + 256 * e));
    Over256(c, d + 256 * e);
    Over16M(a + 256 * b + 0x1_0000 * c, d + 256 * e);
    Over256(d, e);
    LowDigits(a, b, c, d);
    Over4G(a + 256 * b + 0x1_0000 * (c + 256 * d), e);
  }

  lemma {:induction false} LowDigits(a: nat, b: nat, c: nat, d: nat)
    requires a < 256 && b < 256 && c < 256 && d < 256
    ensures var n := a + 256 * b + 0x1_0000 * (c + 256 * d);
      && n % 0x1_0000 % 256 == a && n % 0x1_0000 / 256 % 256 == b
      && n / 0x1_0000 % 256 == c && n / 0x1_0000 / 256 % 256 == d
  {
    Over64K(a + 256 * b, c + 256 * d);
    Over256(a, b);
    Over256(b, 0);
    Over256(c, d);
    Over256(d, 0);
  }
}
