/** `FileIO`: a file as a byte sequence with a read position; writing appends. */
module FileIO {
  import opened Bytes

  class File {
    var data: seq<byte>
    var pos: nat

    ghost predicate Valid()
      reads this
    {
      pos <= |data|
    }

    /** The bytes not read yet. */
    ghost function Rest(): seq<byte>
      requires Valid()
      reads this
    {
      data[pos..]
    }

    /** A file opened for writing. */
    constructor ()
      ensures Valid() && data == [] && pos == 0
    {
      data, pos := [], 0;
    }

    method OpenWrite()
      modifies this
      ensures Valid() && data == []
    {
      data, pos := [], 0;
    }

    method OpenRead()
      modifies this`pos
      ensures Valid() && Rest() == data
    {
      pos := 0;
    }

    method Seek(p: nat)
      requires p <= |data|
      modifies this`pos
      ensures Valid() && pos == p
    {
      pos := p;
    }

    /** Reads up to `len` bytes. */
    method ReadBlock(len: nat) returns (block: seq<byte>)
      requires Valid()
      modifies this`pos
      ensures Valid()
      ensures block == old(Rest())[..if len <= |old(Rest())| then len else |old(Rest())|]
      ensures Rest() == old(Rest())[|block|..]
    {
      var n := if len <= |data| - pos then len else |data| - pos;
      block := data[pos..pos + n];
      pos := pos + n;
    }

    method ReadByte() returns (ok: bool, b: byte)
      requires Valid()
      modifies this`pos
      ensures Valid()
      ensures ok <==> |old(Rest())| > 0
      ensures !ok ==> Rest() == []
      ensures ok ==> b == old(Rest())[0] && Rest() == old(Rest())[1..]
    {
      var block := ReadBlock(1);
      ok := |block| == 1;
      b := if ok then block[0] else 0;
    }

    method ReadWord() returns (ok: bool, w: nat)
      requires Valid()
      modifies this`pos
      ensures Valid()
      ensures ok <==> |old(Rest())| >= 2
      ensures ok ==> w == WordValue(old(Rest())) && Rest() == old(Rest())[2..]
    {
      var block := ReadBlock(2);
      ok := |block| == 2;
      w := if ok then WordValue(block) else 0;
    }

    method ReadBigEndianWord() returns (ok: bool, w: nat)
      requires Valid()
      modifies this`pos
      ensures Valid()
      ensures ok <==> |old(Rest())| >= 2
      ensures ok ==> w == WordValue([old(Rest())[1], old(Rest())[0]]) && Rest() == old(Rest())[2..]
    {
      var block := ReadBlock(2);
      ok := |block| == 2;
      w := if ok then WordValue([block[1], block[0]]) else 0;
    }

    method ReadDWord() returns (ok: bool, w: nat)
      requires Valid()
      modifies this`pos
      ensures Valid()
      ensures ok <==> |old(Rest())| >= 4
      ensures ok ==> w == DWordValue(old(Rest())) && Rest() == old(Rest())[4..]
    {
      var block := ReadBlock(4);
      ok := |block| == 4;
      w := if ok then DWordValue(block) else 0;
    }

    method WriteBlock(block: seq<byte>)
      modifies this`data
      ensures data == old(data) + block
    {
      data := data + block;
    }
  }
}
