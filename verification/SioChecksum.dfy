/** The SIO checksum: a sum of bytes with end-around carry (`calculate_checksum` in the driver). */
module SioChecksum {
  import opened Bytes

  /** One step: a carry out of the byte is added at the low end. */
  function AddByte(sum: byte, b: byte): byte {
    var s := sum + b;
    if s >= 0x100 then s % 0x100 + 1 else s
  }

  function Checksum(data: seq<byte>): byte {
    if data == [] then 0 else AddByte(Checksum(data[..|data| - 1]), data[|data| - 1])
  }

  function Sum(data: seq<byte>): nat {
    if data == [] then 0 else Sum(data[..|data| - 1]) + data[|data| - 1]
  }

  /** The number from 1 to 255 that is `n` modulo 255; 0 for 0. */
  function Mod255(n: nat): nat {
    if n == 0 then 0 else (n - 1) % 255 + 1
  }

  lemma {:induction false} AddByteMod(n: nat, b: byte)
    ensures AddByte(Mod255(n), b) == Mod255(n + b)
  {
    var k, r := (n - 1) / 255, (n - 1) % 255;
    if n > 0 {
      assert n + b - 1 == 255 * k + (r + b);
      if r + b < 255 {
        assert (n + b - 1) % 255 == r + b;
      } else if r + b < 510 {
        assert (n + b - 1) == 255 * (k + 1) + (r + b - 255);
        assert (n + b - 1) % 255 == r + b - 255;
      }
    }
  }

  /** The checksum is the sum modulo 255, with 255 in place of 0 unless all bytes are 0. */
  lemma {:induction false} ChecksumIsSum(data: seq<byte>)
    ensures Checksum(data) == Mod255(Sum(data))
  {
    if data != [] {
      ChecksumIsSum(data[..|data| - 1]);
      AddByteMod(Sum(data[..|data| - 1]), data[|data| - 1]);
    }
  }

  lemma {:induction false} SumZero(data: seq<byte>)
    ensures Sum(data) == 0 <==> AllZero(data)
  {
    if data != [] {
      var init := data[..|data| - 1];
      SumZero(init);
      if AllZero(init) && data[|data| - 1] == 0 {
        forall i | 0 <= i < |data|
          ensures data[i] == 0
        {
          assert i < |init| ==> data[i] == init[i];
        }
      }
    }
  }

  /** Only a block of zeros has the checksum 0. */
  lemma {:induction false} ChecksumZero(data: seq<byte>)
    ensures Checksum(data) == 0 <==> AllZero(data)
  {
    ChecksumIsSum(data);
    SumZero(data);
  }

  lemma {:induction false} SumUpdate(data: seq<byte>, i: nat, x: byte)
    requires i < |data|
    ensures Sum(data[i := x]) == Sum(data) - data[i] + x
  {
    var n := |data| - 1;
    if i < n {
      SumUpdate(data[..n], i, x);
      assert data[i := x][..n] == data[..n][i := x];
    } else {
      assert data[i := x][..n] == data[..n];
    }
  }

  /**
   A change of one byte goes unnoticed only between 0 and 255, and then only
   when some other byte is not 0.
   */
  lemma {:induction false} OneByteChanged(data: seq<byte>, i: nat, x: byte)
    requires i < |data|
    ensures Checksum(data[i := x]) == Checksum(data)
       <==> x == data[i] || ((x - data[i] == 255 || data[i] - x == 255) && Sum(data) > data[i])
  {
    ChecksumIsSum(data);
    ChecksumIsSum(data[i := x]);
    SumUpdate(data, i, x);
    SumBound(data, i);
    SameMod(Sum(data) - data[i], data[i], x);
  }

  lemma {:induction false} SumBound(data: seq<byte>, i: nat)
    requires i < |data|
    ensures data[i] <= Sum(data)
  {
    var n := |data| - 1;
    if i < n {
      SumBound(data[..n], i);
    }
  }

  lemma {:induction false} SameMod(rest: nat, a: byte, b: byte)
    ensures Mod255(rest + a) == Mod255(rest + b) <==> a == b || ((a - b == 255 || b - a == 255) && rest > 0)
  {
    var lo, hi := if a < b then a else b, if a < b then b else a;
    var d: nat := hi - lo;
    if rest + lo > 0 {
      var k, r := (rest + lo - 1) / 255, (rest + lo - 1) % 255;
      assert rest + hi - 1 == 255 * k + (r + d);
      if r + d < 255 {
        assert (rest + hi - 1) % 255 == r + d;
      } else if r + d < 510 {
        assert rest + hi - 1 == 255 * (k + 1) + (r + d - 255);
        assert (rest + hi - 1) % 255 == r + d - 255;
      }
    }
  }
}
