/**
 The FSK line code of the cassette output: every byte as start bit, eight data
 bits and stop bit, run length encoded into durations of alternating level.
 */
module FskCode {
  import opened Bytes

  type bit = b: int | 0 <= b < 2

  const BIT_TIME: nat := 16

  // ------------------------------------------------------------------
  // What the line is to do
  // ------------------------------------------------------------------

  /** The lowest `k` bits of `n`, lowest bit first. */
  function Bits(n: nat, k: nat): (s: seq<bit>)
    ensures |s| == k
  {
    if k == 0 then [] else [n % 2] + Bits(n / 2, k - 1)
  }

  function Value(s: seq<bit>): nat {
    if s == [] then 0 else s[0] + 2 * Value(s[1..])
  }

  /** A byte on the line: start bit 0, data bits with the lowest one first, stop bit 1. */
  function Frame(b: byte): (s: seq<bit>)
    ensures |s| == 10
  {
    [0] + Bits(b, 8) + [1]
  }

  /** The start bit, the bits of the byte, and the stop bit. */
  lemma {:induction false} FrameBits(b: byte)
    ensures Frame(b) == [0, b % 2, b / 2 % 2, b / 4 % 2, b / 8 % 2, b / 16 % 2, b / 32 % 2, b / 64 % 2, b / 128 % 2, 1]
  {
    FourBits(b, 4);
    UpperBits(b);
  }

  lemma {:induction false} UpperBits(b: byte)
    ensures Bits(b / 16, 4) == [b / 16 % 2, b / 32 % 2, b / 64 % 2, b / 128 % 2]
  {
    FourBits(b / 16, 0);
    Sixteenths(b);
  }

  lemma {:induction false} Sixteenths(b: byte)
    ensures b / 16 / 2 == b / 32 && b / 16 / 4 == b / 64 && b / 16 / 8 == b / 128
  {
  }

  lemma {:induction false} FourBits(n: nat, k: nat)
    ensures Bits(n, k + 4) == [n % 2, n / 2 % 2, n / 4 % 2, n / 8 % 2] + Bits(n / 16, k)
  {
    assert n / 2 / 2 == n / 4 && n / 4 / 2 == n / 8 && n / 8 / 2 == n / 16;
    assert Bits(n, k + 4) == [n % 2] + Bits(n / 2, k + 3);
    assert Bits(n / 2, k + 3) == [n / 2 % 2] + Bits(n / 4, k + 2);
    assert Bits(n / 4, k + 2) == [n / 4 % 2] + Bits(n / 8, k + 1);
  }

  /** Every bit is held for `t` ticks. */
  function Wave(bits: seq<bit>, t: nat): (w: seq<bit>)
    decreases |bits|
  {
    if bits == [] then [] else Repeat(bits[0], t) + Wave(bits[1..], t)
  }

  function BlockWave(data: seq<byte>, t: nat): seq<bit>
    decreases |data|
  {
    if data == [] then [] else Wave(Frame(data[0]), t) + BlockWave(data[1..], t)
  }

  /** The line while durations are played: the level alternates with every entry. */
  function Expand(level: bit, durations: seq<nat>): seq<bit>
    decreases |durations|
  {
    if durations == [] then [] else Repeat(level, durations[0]) + Expand(1 - level, durations[1..])
  }

  function Sum(s: seq<nat>): nat
    decreases |s|
  {
    if s == [] then 0 else s[0] + Sum(s[1..])
  }

  // ------------------------------------------------------------------
  // The encoder
  // ------------------------------------------------------------------

  /** Durations are stored in 16 bits. */
  function Cut(delay: nat): nat {
    delay % 0x1_0000
  }

  /** The durations still to come when the line has been at `current` for `delay` ticks. */
  function Runs(current: bit, delay: nat, bits: seq<bit>, t: nat): (r: seq<nat>)
    decreases |bits|
  {
    if bits == [] then [Cut(delay)]
    else if bits[0] == current then Runs(current, delay + t, bits[1..], t)
    else [Cut(delay)] + Runs(bits[0], t, bits[1..], t)
  }

  function ByteFsk(b: byte, t: nat): seq<nat> {
    Runs(0, t, Frame(b)[1..], t)
  }

  function BlockFsk(data: seq<byte>, t: nat): seq<nat>
    decreases |data|
  {
    if data == [] then [] else ByteFsk(data[0], t) + BlockFsk(data[1..], t)
  }

  lemma {:induction false} RunsCons(current: bit, delay: nat, b: bit, rest: seq<bit>, t: nat)
    ensures Runs(current, delay, [b] + rest, t)
      == if b == current then Runs(current, delay + t, rest, t) else [Cut(delay)] + Runs(b, t, rest, t)
  {
    assert ([b] + rest)[1..] == rest;
  }

  /** One turn of the loop over the bits. */
  lemma {:induction false} RunsStep(out: seq<nat>, current: bit, delay: nat, b: bit, rest: seq<bit>, t: nat)
    ensures out + Runs(current, delay, [b] + rest, t)
      == if b == current then out + Runs(current, delay + t, rest, t) else (out + [Cut(delay)]) + Runs(b, t, rest, t)
  {
    RunsCons(current, delay, b, rest, t);
  }

  /** `ByteToFsk`: appends the durations of a byte. */
  method ByteToFsk(b: byte, delays: seq<nat>, bitTime: nat) returns (bitDelays: seq<nat>)
    ensures bitDelays == delays + ByteFsk(b, bitTime)
  {
    StopBit(b, 8);
    bitDelays := EncodeBits(b + 0x100, 9, delays, bitTime);
  }

  /** The loop over the data bits and the stop bit. */
  method EncodeBits(byteAndStop: nat, count: nat, delays: seq<nat>, bitTime: nat) returns (bitDelays: seq<nat>)
    ensures bitDelays == delays + Runs(0, bitTime, Bits(byteAndStop, count), bitTime)
  {
    bitDelays := delays;
    var currentBit: bit := 0;
    var delay: nat := bitTime;
    var mybyte: nat := byteAndStop;
    ghost var rest := Bits(byteAndStop, count);
    var i := 0;
    while i < count
      invariant 0 <= i <= count && rest == Bits(mybyte, count - i)
      invariant delays + Runs(0, bitTime, Bits(byteAndStop, count), bitTime) == bitDelays + Runs(currentBit, delay, rest, bitTime)
    {
      var bit: bit := mybyte % 2;
      BitStep(mybyte, count - i);
      assert rest == [bit] + rest[1..];
      RunsStep(bitDelays, currentBit, delay, bit, rest[1..], bitTime);
      if bit == currentBit {
        delay := delay + bitTime;
      } else {
        bitDelays := bitDelays + [Cut(delay)];
        currentBit := bit;
        delay := bitTime;
      }
      mybyte := mybyte / 2;
      rest := rest[1..];
      i := i + 1;
    }
    bitDelays := bitDelays + [Cut(delay)];
  }

  lemma {:induction false} BitStep(n: nat, k: nat)
    requires k > 0
    ensures Bits(n, k)[0] == n % 2 && Bits(n, k)[1..] == Bits(n / 2, k - 1)
  {
  }

  function Power(k: nat): (p: nat)
    ensures p > 0
  {
    if k == 0 then 1 else 2 * Power(k - 1)
  }

  /** A bit set above the `k` bits of `n` is the last of `k + 1` bits. */
  lemma {:induction false} HighBit(n: nat, k: nat)
    requires n < Power(k)
    ensures Bits(n + Power(k), k + 1) == Bits(n, k) + [1]
    decreases k
  {
    if k > 0 {
      assert (n + Power(k)) / 2 == n / 2 + Power(k - 1) && (n + Power(k)) % 2 == n % 2;
      HighBit(n / 2, k - 1);
    } else {
      assert Bits(n + Power(k), 1) == [1] + Bits(0, 0);
    }
  }

  lemma {:induction false} StopBit(b: byte, k: nat)
    requires k == 8
    ensures Bits(b + 0x100, 9) == Frame(b)[1..]
  {
    assert Power(k) == 256;
    HighBit(b, k);
  }

  /** `DataBlockToFsk`: fails exactly for an empty block. */
  method DataBlockToFsk(data: seq<byte>) returns (ok: bool, fskData: array<nat>)
    ensures fresh(fskData)
    ensures ok <==> data != []
    ensures ok ==> fskData[..] == BlockFsk(data, 16)
  {
    if |data| == 0 {
      fskData := new nat[0];
      return false, fskData;
    }
    var fsk: seq<nat> := [];
    var i := 0;
    assert data[0..] == data;
    while i < |data|
      invariant 0 <= i <= |data|
      invariant fsk + BlockFsk(data[i..], BIT_TIME) == BlockFsk(data, BIT_TIME)
    {
      assert data[i..][1..] == data[i + 1..];
      fsk := ByteToFsk(data[i], fsk, BIT_TIME);
      i := i + 1;
    }
    assert fsk + [] == fsk;
    fskData := new nat[|fsk|];
    i := 0;
    while i < |fsk|
      invariant 0 <= i <= |fsk| && fskData[..i] == fsk[..i]
    {
      fskData[i] := fsk[i];
      i := i + 1;
    }
    ok := true;
  }

  /** The sending loop of the driver: break for the first entry, then alternating. */
  method SendFskData(fskDelays: array<nat>) returns (line: seq<bit>)
    ensures line == Expand(0, fskDelays[..])
  {
    line := [];
    var bit := 0;
    var i := 0;
    ghost var delays := fskDelays[..];
    ghost var goal := Expand(0, delays);
    assert delays[0..] == delays;
    while i < fskDelays.Length
      invariant 0 <= i <= fskDelays.Length == |delays| && (bit == 0 || bit == 1) && delays == fskDelays[..]
      invariant line + Expand(bit, delays[i..]) == goal
    {
      ExpandNext(line, bit, delays, i);
      var level: bit := bit;
      bit := if bit == 1 then 0 else 1;
      line := line + Repeat(level, fskDelays[i]);
      i := i + 1;
    }
    assert line + [] == line;
  }

  // ------------------------------------------------------------------
  // The durations say what the line is to do
  // ------------------------------------------------------------------

  lemma {:induction false} RepeatMore(b: bit, n: nat, t: nat, rest: seq<bit>)
    ensures Repeat(b, n + t) + rest == Repeat(b, n) + (Repeat(b, t) + rest)
  {
  }

  lemma {:induction false} Mul(t: nat, n: nat)
    requires n > 0
    ensures t * n == t + t * (n - 1) && t * (n - 1) >= 0
  {
  }

  lemma {:induction false} ExpandNext(line: seq<bit>, level: bit, delays: seq<nat>, i: nat)
    requires i < |delays|
    ensures line + Expand(level, delays[i..]) == line + Repeat(level, delays[i]) + Expand(1 - level, delays[i + 1..])
  {
    assert delays[i..][1..] == delays[i + 1..];
    Reassociate(line, Repeat(level, delays[i]), Expand(1 - level, delays[i + 1..]));
  }

  lemma {:induction false} ExpandCons(level: bit, d: nat, rest: seq<nat>)
    ensures Expand(level, [d] + rest) == Repeat(level, d) + Expand(1 - level, rest)
  {
    assert ([d] + rest)[1..] == rest;
  }

  /** The bits to come end with a stop bit, and no run of equal bits is too long for 16 bits. */
  predicate Room(current: bit, delay: nat, bits: seq<bit>, t: nat) {
    && (bits == [] ==> current == 1) && (bits != [] ==> bits[|bits| - 1] == 1)
    && t <= delay && delay + t * (|bits| + current - 1) < 0x1_0000
  }

  lemma {:induction false} RoomKept(current: bit, delay: nat, bits: seq<bit>, t: nat)
    requires Room(current, delay, bits, t) && bits != []
    ensures bits[0] == current ==> Room(current, delay + t, bits[1..], t)
    ensures bits[0] != current ==> Room(bits[0], t, bits[1..], t)
    ensures delay < 0x1_0000
  {
    var n := |bits| + current - 1;
    if bits[0] == current {
      Mul(t, n);
    } else if current == 1 {
      Mul(t, n);
      Mul(t, n - 1);
    }
  }

  lemma {:induction false} WaveCons(b: bit, rest: seq<bit>, t: nat)
    ensures Wave([b] + rest, t) == Repeat(b, t) + Wave(rest, t)
  {
    assert ([b] + rest)[1..] == rest;
  }

  lemma {:induction false} RunsEnd(delay: nat, t: nat)
    requires delay < 0x1_0000
    ensures Expand(1, Runs(1, delay, [], t)) == Repeat(1, delay) + Wave([], t)
  {
    ExpandCons(1, delay, []);
    assert [delay] + [] == [delay];
  }

  /** The line starting at `current` plays what is left of a run and then the bits. */
  predicate Plays(current: bit, delay: nat, bits: seq<bit>, t: nat) {
    Expand(current, Runs(current, delay, bits, t)) == Repeat(current, delay) + Wave(bits, t)
  }

  lemma {:induction false} RunGrows(current: bit, delay: nat, rest: seq<bit>, t: nat)
    requires Plays(current, delay + t, rest, t)
    ensures Plays(current, delay, [current] + rest, t)
  {
    WaveCons(current, rest, t);
    RunsCons(current, delay, current, rest, t);
    RepeatMore(current, delay, t, Wave(rest, t));
  }

  lemma {:induction false} NotCut(delay: nat)
    ensures Cut(delay) == delay <==> delay < 0x1_0000
  {
  }

  lemma {:induction false} RunEnds(current: bit, delay: nat, b: bit, rest: seq<bit>, t: nat)
    requires b != current && delay < 0x1_0000 && Plays(b, t, rest, t)
    ensures Plays(current, delay, [b] + rest, t)
  {
    WaveCons(b, rest, t);
    RunsCons(current, delay, b, rest, t);
    NotCut(delay);
    ExpandCons(current, delay, Runs(b, t, rest, t));
    assert 1 - current == b;
  }

  /** The durations expand to the bits. */
  lemma {:induction false} RunsExpand(current: bit, delay: nat, bits: seq<bit>, t: nat)
    requires Room(current, delay, bits, t)
    ensures Plays(current, delay, bits, t)
    decreases |bits|
  {
    if bits == [] {
      RunsEnd(delay, t);
    } else {
      var b, rest := bits[0], bits[1..];
      assert bits == [b] + rest;
      RoomKept(current, delay, bits, t);
      if b == current {
        RunsExpand(current, delay + t, rest, t);
        RunGrows(current, delay, rest, t);
      } else {
        RunsExpand(b, t, rest, t);
        RunEnds(current, delay, b, rest, t);
      }
    }
  }

  /** They end with the level of the stop bit. */
  lemma {:induction false} RunsParity(current: bit, delay: nat, bits: seq<bit>, t: nat)
    requires bits == [] ==> current == 1
    requires bits != [] ==> bits[|bits| - 1] == 1
    ensures |Runs(current, delay, bits, t)| % 2 == current
    decreases |bits|
  {
    if bits != [] {
      var b, rest := bits[0], bits[1..];
      assert bits == [b] + rest;
      RunsCons(current, delay, b, rest, t);
      if b == current {
        RunsParity(current, delay + t, rest, t);
      } else {
        RunsParity(b, t, rest, t);
      }
    }
  }

  /**
   A byte gives an even number of durations, so that the next byte starts at
   level 0 again, and they expand to its frame of ten bit times.
   */
  lemma {:induction false} ByteExpands(b: byte, t: nat)
    requires 9 * t < 0x1_0000
    ensures Expand(0, ByteFsk(b, t)) == Wave(Frame(b), t)
    ensures |ByteFsk(b, t)| % 2 == 0 && Sum(ByteFsk(b, t)) == 10 * t
  {
    RunsExpand(0, t, Frame(b)[1..], t);
    RunsParity(0, t, Frame(b)[1..], t);
    assert Frame(b) == [0] + Frame(b)[1..];
    WaveCons(0, Frame(b)[1..], t);
    ExpandLength(0, ByteFsk(b, t));
    WaveLength(Frame(b), t);
  }

  lemma {:induction false} ExpandLength(level: bit, s: seq<nat>)
    ensures |Expand(level, s)| == Sum(s)
    decreases |s|
  {
    if s != [] {
      ExpandLength(1 - level, s[1..]);
    }
  }

  lemma {:induction false} WaveLength(bits: seq<bit>, t: nat)
    ensures |Wave(bits, t)| == |bits| * t
    decreases |bits|
  {
    if bits != [] {
      Mul(t, |bits|);
      WaveLength(bits[1..], t);
    }
  }

  lemma {:induction false} FirstZero(bits: seq<bit>, rest: seq<bit>)
    requires bits != [] && bits[0] == 0 && bits[1..] == rest
    ensures bits + [1] == [0] + (rest + [1])
  {
    assert bits == [0] + rest;
  }

  lemma {:induction false} ZerosRun(delay: nat, k: nat, t: nat, total: nat)
    requires total == delay + k * t
    ensures Runs(0, delay, Bits(0, k) + [1], t) == [Cut(total), Cut(t)]
    decreases k
  {
    if k > 0 {
      Mul(t, k);
      BitStep(0, k);
      FirstZero(Bits(0, k), Bits(0, k - 1));
      RunsCons(0, delay, 0, Bits(0, k - 1) + [1], t);
      ZerosRun(delay + t, k - 1, t, total);
    } else {
      RunsCons(0, delay, 1, [], t);
      assert Bits(0, k) + [1] == [1] + [];
    }
  }

  /** The code is right for all bytes exactly if nine bit times fit into a duration. */
  lemma {:induction false} AllBytesIff(t: nat)
    ensures (forall b: byte :: Expand(0, ByteFsk(b, t)) == Wave(Frame(b), t)) <==> 9 * t < 0x1_0000
  {
    if 9 * t < 0x1_0000 {
      forall b: byte
        ensures Expand(0, ByteFsk(b, t)) == Wave(Frame(b), t)
      {
        ByteExpands(b, t);
      }
    } else {
      LongRunCut(t, 8);
    }
  }

  /** The start bit and the eight zeros of byte 0 are a run of nine. */
  lemma {:induction false} LongRunCut(t: nat, k: nat)
    requires 9 * t >= 0x1_0000 && k == 8
    ensures Expand(0, ByteFsk(0, t)) != Wave(Frame(0), t)
  {
    assert Frame(0)[1..] == Bits(0, k) + [1];
    ZerosRun(t, k, t, 9 * t);
    ExpandLength(0, ByteFsk(0, t));
    WaveLength(Frame(0), t);
    SumOfTwo(Cut(9 * t), Cut(t));
  }

  lemma {:induction false} SumOfTwo(a: nat, b: nat)
    ensures Sum([a, b]) == a + b
  {
    assert [a, b][1..] == [b] && [b][1..] == [];
    assert Sum([b]) == b + Sum([]);
  }

  /** After an even number of durations the line starts at level 0 again. */
  lemma {:induction false} ExpandAppend(a: seq<nat>, b: seq<nat>)
    requires |a| % 2 == 0
    ensures Expand(0, a + b) == Expand(0, a) + Expand(0, b)
    decreases |a|
  {
    if a == [] {
      assert a + b == b;
    } else {
      var x, y, rest := a[0], a[1], a[2..];
      assert a == [x] + ([y] + rest) && a + b == [x] + ([y] + (rest + b));
      ExpandTwo(x, y, rest);
      ExpandTwo(x, y, rest + b);
      ExpandAppend(rest, b);
    }
  }

  lemma {:induction false} ExpandTwo(x: nat, y: nat, rest: seq<nat>)
    ensures Expand(0, [x] + ([y] + rest)) == (Repeat(0, x) + Repeat(1, y)) + Expand(0, rest)
  {
    ExpandCons(0, x, [y] + rest);
    ExpandCons(1, y, rest);
  }

  /** A block stays in phase from byte to byte. */
  lemma {:induction false} BlockExpands(data: seq<byte>, t: nat)
    requires 9 * t < 0x1_0000
    ensures Expand(0, BlockFsk(data, t)) == BlockWave(data, t)
    decreases |data|
  {
    if data != [] {
      ByteExpands(data[0], t);
      BlockExpands(data[1..], t);
      ExpandAppend(ByteFsk(data[0], t), BlockFsk(data[1..], t));
    }
  }

  // ------------------------------------------------------------------
  // The receiving end
  // ------------------------------------------------------------------

  /** The level in the middle of every bit time. */
  function Sample(wave: seq<bit>, t: nat): seq<bit>
    requires t > 0
    decreases |wave|
  {
    if |wave| < t then [] else [wave[t / 2]] + Sample(wave[t..], t)
  }

  /** Bytes between start and stop bits. */
  function Deframe(bits: seq<bit>): Option<seq<int>>
    decreases |bits|
  {
    if bits == [] then Some([])
    else if |bits| < 10 || bits[0] != 0 || bits[9] != 1 then None
    else
      match Deframe(bits[10..])
      case None => None
      case Some(rest) => Some([Value(bits[1..9])] + rest)
  }

  lemma {:induction false} SampleWave(bits: seq<bit>, t: nat, rest: seq<bit>)
    requires t > 0
    ensures Sample(Wave(bits, t) + rest, t) == bits + Sample(rest, t)
    decreases |bits|
  {
    if bits == [] {
      NothingBefore(rest);
      NothingBefore(Sample(rest, t));
    } else {
      WaveFirst(bits, t, rest);
      SampleWave(bits[1..], t, rest);
      FirstAgain(bits, Sample(rest, t));
    }
  }

  lemma {:induction false} NothingBefore(rest: seq<bit>)
    ensures [] + rest == rest
  {
  }

  lemma {:induction false} FirstAgain(bits: seq<bit>, rest: seq<bit>)
    requires bits != []
    ensures [bits[0]] + (bits[1..] + rest) == bits + rest
  {
    assert bits == [bits[0]] + bits[1..];
  }

  lemma {:induction false} WaveFirst(bits: seq<bit>, t: nat, rest: seq<bit>)
    requires t > 0 && bits != []
    ensures Sample(Wave(bits, t) + rest, t) == [bits[0]] + Sample(Wave(bits[1..], t) + rest, t)
  {
    var first, more := Repeat(bits[0], t), Wave(bits[1..], t) + rest;
    assert Wave(bits, t) + rest == first + more;
    Seam(first, more);
  }

  lemma {:induction false} BitsValue(n: nat, k: nat)
    requires n < Power(k)
    ensures Value(Bits(n, k)) == n
    decreases k
  {
    if k > 0 {
      BitStep(n, k);
      BitsValue(n / 2, k - 1);
    }
  }

  lemma {:induction false} FrameValue(b: byte, k: nat)
    requires k == 8
    ensures Value(Frame(b)[1..9]) == b
  {
    assert Power(k) == 256 && Frame(b)[1..9] == Bits(b, k);
    BitsValue(b, k);
  }

  /** Sampling the line that the durations of a block produce gives the block back. */
  lemma {:induction false} BlockDecodes(data: seq<byte>, t: nat)
    requires 0 < t
    ensures Deframe(Sample(BlockWave(data, t), t)) == Some(data)
    decreases |data|
  {
    if data != [] {
      BlockDecodes(data[1..], t);
      assert data == [data[0]] + data[1..];
      SampleWave(Frame(data[0]), t, BlockWave(data[1..], t));
      FrameValue(data[0], 8);
      FrameFirst(data[0], Sample(BlockWave(data[1..], t), t));
    }
  }

  lemma {:induction false} FrameFirst(b: byte, rest: seq<bit>)
    ensures Deframe(Frame(b) + rest)
      == match Deframe(rest) case None => None case Some(d) => Some([Value(Frame(b)[1..9])] + d)
  {
    var bits := Frame(b) + rest;
    assert bits[10..] == rest && bits[1..9] == Frame(b)[1..9];
  }

  /** What `DataBlockToFsk` makes of a block and the driver sends is the block. */
  method SendBlock(data: seq<byte>) returns (ok: bool, line: seq<bit>)
    ensures ok <==> data != []
    ensures ok ==> line == BlockWave(data, 16) && Deframe(Sample(line, 16)) == Some(data)
  {
    var fsk;
    line := [];
    ok, fsk := DataBlockToFsk(data);
    if ok {
      line := SendFskData(fsk);
      BlockExpands(data, BIT_TIME);
      BlockDecodes(data, BIT_TIME);
    }
  }
}
