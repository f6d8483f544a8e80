/** The checksum of ATP images: table driven, and as the division bit by bit that it abbreviates. */
module Crc32 {
  import opened Bytes

  // ------------------------------------------------------------------
  // Registers in general
  // ------------------------------------------------------------------

  /** A register: how it is added to, how it moves by a bit, and how a bit of the message enters it. */
  datatype Register<!T(!new)> = Register(add: (T, T) -> T, move: T -> T, enter: (T, T) -> T, rest: T -> T)

  /** `n` moves. */
  function Moves<T(!new)>(r: Register<T>, x: T, n: nat): T
    decreases n
  {
    if n == 0 then x else Moves(r, r.move(x), n - 1)
  }

  /** The message bits `b` enter one after the other. */
  function Enter<T(!new)>(r: Register<T>, x: T, b: T, n: nat): T
    decreases n
  {
    if n == 0 then x else Enter(r, r.enter(x, b), r.rest(b), n - 1)
  }

  function Rest<T(!new)>(r: Register<T>, b: T, n: nat): T
    decreases n
  {
    if n == 0 then b else Rest(r, r.rest(b), n - 1)
  }

  ghost predicate Linear<T(!new)>(r: Register<T>) {
    forall x, y :: r.move(r.add(x, y)) == r.add(r.move(x), r.move(y))
  }

  /** A bit may as well be added before the register moves. */
  ghost predicate BitsMayWait<T(!new)>(r: Register<T>) {
    forall x, b :: r.move(r.add(x, b)) == r.add(r.enter(x, b), r.rest(b))
  }

  lemma {:induction false} MovesLinear<T(!new)>(r: Register<T>, x: T, y: T, n: nat)
    requires Linear(r)
    ensures Moves(r, r.add(x, y), n) == r.add(Moves(r, x, n), Moves(r, y, n))
    decreases n
  {
    if n > 0 {
      assert r.move(r.add(x, y)) == r.add(r.move(x), r.move(y));
      MovesLinear(r, r.move(x), r.move(y), n - 1);
    }
  }

  /** All bits may be added at once before the register moves. */
  lemma {:induction false} AllBitsMayWait<T(!new)>(r: Register<T>, x: T, b: T, n: nat)
    requires BitsMayWait(r)
    ensures Moves(r, r.add(x, b), n) == r.add(Enter(r, x, b, n), Rest(r, b, n))
    decreases n
  {
    if n > 0 {
      assert r.move(r.add(x, b)) == r.add(r.enter(x, b), r.rest(b));
      AllBitsMayWait(r, r.enter(x, b), r.rest(b), n - 1);
    }
  }

  // ------------------------------------------------------------------
  // The register of CRC-32
  // ------------------------------------------------------------------

  const POLYNOMIAL: bv32 := 0xedb88320

  const ALL_ONES: bv32 := 0xffff_ffff

  function Xor(a: bv32, b: bv32): bv32 {
    a ^ b
  }

  predicate Odd(a: bv32) {
    a & 1 == 1
  }

  /** The lowest bit falls out; if it was set, the polynomial is subtracted. */
  function Shift(crc: bv32): bv32 {
    if Odd(crc) then (crc >> 1) ^ POLYNOMIAL else crc >> 1
  }

  /** The lowest bit of `b` enters: the polynomial is subtracted if it differs from the one that falls out. */
  function FeedBit(crc: bv32, b: bv32): bv32 {
    if Odd(crc) != Odd(b) then (crc >> 1) ^ POLYNOMIAL else crc >> 1
  }

  function Half(b: bv32): bv32 {
    b >> 1
  }

  const CRC := Register(Xor, Shift, FeedBit, Half)

  /** The eight bits of a byte enter, the lowest first. */
  function FeedByte(crc: bv32, b: byte): bv32 {
    Enter(CRC, crc, b as bv32, 8)
  }

  function Feed(crc: bv32, data: seq<byte>): bv32
    decreases |data|
  {
    if data == [] then crc else FeedByte(Feed(crc, data[..|data| - 1]), data[|data| - 1])
  }

  function Complement(crc: bv32): bv32 {
    crc ^ ALL_ONES
  }

  /** The CRC-32 of section 8 of RFC 1952, continued from that of what came before. */
  function Continue(crc: bv32, data: seq<byte>): bv32 {
    Complement(Feed(Complement(crc), data))
  }

  function Crc(data: seq<byte>): bv32 {
    Continue(0, data)
  }

  lemma {:induction false} FeedNext(crc: bv32, data: seq<byte>, i: nat)
    requires i < |data|
    ensures Feed(crc, data[..i + 1]) == FeedByte(Feed(crc, data[..i]), data[i])
  {
    assert data[..i + 1][..i] == data[..i];
  }

  lemma {:induction false} FeedInTurn(crc: bv32, a: seq<byte>, b: seq<byte>)
    ensures Feed(crc, a + b) == Feed(Feed(crc, a), b)
    decreases |b|
  {
    if b == [] {
      assert a + b == a;
    } else {
      assert (a + b)[..|a + b| - 1] == a + b[..|b| - 1];
      FeedInTurn(crc, a, b[..|b| - 1]);
    }
  }

  lemma {:induction false} ComplementTwice(x: bv32)
    ensures Complement(Complement(x)) == x
  {
  }

  /** The checksum of a block can be taken piece by piece. */
  lemma {:induction false} ContinueInTurn(crc: bv32, a: seq<byte>, b: seq<byte>)
    ensures Continue(crc, a + b) == Continue(Continue(crc, a), b)
  {
    FeedInTurn(Complement(crc), a, b);
    ComplementTwice(Feed(Complement(crc), a));
  }

  /** The checksum of nothing leaves what came before. */
  lemma {:induction false} NothingFed(crc: bv32)
    ensures Continue(crc, []) == crc
  {
    ComplementTwice(crc);
  }

  // ------------------------------------------------------------------
  // One bit
  // ------------------------------------------------------------------

  lemma {:induction false} OddXor(a: bv32, b: bv32)
    ensures Odd(a ^ b) == (Odd(a) != Odd(b))
  {
  }

  lemma {:induction false} HalfXor(a: bv32, b: bv32)
    ensures (a ^ b) >> 1 == (a >> 1) ^ (b >> 1)
    ensures (a ^ b) >> 1 == ((a >> 1) ^ POLYNOMIAL) ^ ((b >> 1) ^ POLYNOMIAL)
    ensures ((a ^ b) >> 1) ^ POLYNOMIAL == ((a >> 1) ^ POLYNOMIAL) ^ (b >> 1)
    ensures ((a ^ b) >> 1) ^ POLYNOMIAL == (a >> 1) ^ ((b >> 1) ^ POLYNOMIAL)
  {
  }

  lemma {:induction false} ShiftOdd(a: bv32)
    requires Odd(a)
    ensures Shift(a) == (a >> 1) ^ POLYNOMIAL
  {
  }

  lemma {:induction false} ShiftEven(a: bv32)
    requires !Odd(a)
    ensures Shift(a) == a >> 1
  {
  }

  lemma {:induction false} ShiftXorBothOdd(a: bv32, b: bv32)
    requires Odd(a) && Odd(b)
    ensures Shift(Xor(a, b)) == Xor(Shift(a), Shift(b))
  {
    OddXor(a, b);
    HalfXor(a, b);
    ShiftOdd(a);
    ShiftOdd(b);
    ShiftEven(a ^ b);
  }

  lemma {:induction false} ShiftXorFirstOdd(a: bv32, b: bv32)
    requires Odd(a) && !Odd(b)
    ensures Shift(Xor(a, b)) == Xor(Shift(a), Shift(b))
  {
    OddXor(a, b);
    HalfXor(a, b);
    ShiftOdd(a);
    ShiftEven(b);
    ShiftOdd(a ^ b);
  }

  lemma {:induction false} ShiftXorSecondOdd(a: bv32, b: bv32)
    requires !Odd(a) && Odd(b)
    ensures Shift(Xor(a, b)) == Xor(Shift(a), Shift(b))
  {
    OddXor(a, b);
    HalfXor(a, b);
    ShiftEven(a);
    ShiftOdd(b);
    ShiftOdd(a ^ b);
  }

  lemma {:induction false} ShiftXorNoneOdd(a: bv32, b: bv32)
    requires !Odd(a) && !Odd(b)
    ensures Shift(Xor(a, b)) == Xor(Shift(a), Shift(b))
  {
    OddXor(a, b);
    HalfXor(a, b);
    ShiftEven(a);
    ShiftEven(b);
    ShiftEven(a ^ b);
  }

  lemma {:induction false} ShiftXor(a: bv32, b: bv32)
    ensures Shift(Xor(a, b)) == Xor(Shift(a), Shift(b))
  {
    if Odd(a) {
      if Odd(b) {
        ShiftXorBothOdd(a, b);
      } else {
        ShiftXorFirstOdd(a, b);
      }
    } else {
      if Odd(b) {
        ShiftXorSecondOdd(a, b);
      } else {
        ShiftXorNoneOdd(a, b);
      }
    }
  }

  lemma {:induction false} EnteringOdd(crc: bv32, b: bv32)
    requires Odd(crc) != Odd(b)
    ensures Shift(Xor(crc, b)) == Xor(FeedBit(crc, b), Half(b))
  {
    OddXor(crc, b);
    ShiftOdd(crc ^ b);
  }

  lemma {:induction false} EnteringEven(crc: bv32, b: bv32)
    requires Odd(crc) == Odd(b)
    ensures Shift(Xor(crc, b)) == Xor(FeedBit(crc, b), Half(b))
  {
    OddXor(crc, b);
    ShiftEven(crc ^ b);
  }

  lemma {:induction false} Entering(crc: bv32, b: bv32)
    ensures Shift(Xor(crc, b)) == Xor(FeedBit(crc, b), Half(b))
  {
    if Odd(crc) == Odd(b) {
      EnteringEven(crc, b);
    } else {
      EnteringOdd(crc, b);
    }
  }

  lemma {:induction false} CrcIsLinear()
    ensures Linear(CRC) && BitsMayWait(CRC)
  {
    forall x, y
      ensures CRC.move(CRC.add(x, y)) == CRC.add(CRC.move(x), CRC.move(y))
    {
      ShiftXor(x, y);
    }
    forall x, b
      ensures CRC.move(CRC.add(x, b)) == CRC.add(CRC.enter(x, b), CRC.rest(b))
    {
      Entering(x, b);
    }
  }

  // ------------------------------------------------------------------
  // By table
  // ------------------------------------------------------------------

  /** An entry of the table. */
  function Entry(x: bv32): bv32 {
    Moves(CRC, x, 8)
  }

  lemma {:induction false} EightHalves(x: bv32)
    ensures Rest(CRC, x, 8) == x >> 8
  {
    assert Rest(CRC, x, 8) == x >> 1 >> 1 >> 1 >> 1 >> 1 >> 1 >> 1 >> 1;
  }

  lemma {:induction false} UpperShifted(x: bv32)
    ensures (x & 0xffff_ff00) >> 8 == x >> 8
    ensures (x & 0xffff_ff00) & 0xff == 0
    ensures Xor(x & 0xffff_ff00, x & 0xff) == x
  {
  }

  lemma {:induction false} MovesApart(h: bv32, l: bv32)
    ensures Moves(CRC, Xor(h, l), 8) == Xor(Moves(CRC, h, 8), Entry(l))
  {
    CrcIsLinear();
    MovesLinear(CRC, h, l, 8);
  }

  predicate LowEmpty(x: bv32, n: nat)
    decreases n
  {
    n == 0 || (!Odd(x) && LowEmpty(Half(x), n - 1))
  }

  lemma {:induction false} LowEmptyStep(x: bv32, half: bv32, n: nat)
    requires !Odd(x) && half == Half(x) && LowEmpty(half, n)
    ensures LowEmpty(x, n + 1)
  {
  }

  lemma {:induction false} LowByteEven(h: bv32)
    requires h & 0xff == 0
    ensures !Odd(h) && !Odd(h >> 1) && !Odd(h >> 2) && !Odd(h >> 3)
    ensures !Odd(h >> 4) && !Odd(h >> 5) && !Odd(h >> 6) && !Odd(h >> 7)
  {
  }

  lemma {:induction false} HalfByHalf(h: bv32)
    ensures (h >> 1) >> 1 == h >> 2 && (h >> 2) >> 1 == h >> 3 && (h >> 3) >> 1 == h >> 4 && (h >> 4) >> 1 == h >> 5
    ensures (h >> 5) >> 1 == h >> 6 && (h >> 6) >> 1 == h >> 7 && (h >> 7) >> 1 == h >> 8
  {
  }

  lemma {:induction false} LowByteEmpty(h: bv32, n: nat)
    requires h & 0xff == 0 && n == 0
    ensures LowEmpty(h, n + 8)
  {
    LowByteEven(h);
    HalfByHalf(h);
    LowEmptyStep(h >> 7, h >> 8, n);
    LowEmptyStep(h >> 6, h >> 7, n + 1);
    LowEmptyStep(h >> 5, h >> 6, n + 2);
    LowEmptyStep(h >> 4, h >> 5, n + 3);
    LowEmptyStep(h >> 3, h >> 4, n + 4);
    LowEmptyStep(h >> 2, h >> 3, n + 5);
    LowEmptyStep(h >> 1, h >> 2, n + 6);
    LowEmptyStep(h, h >> 1, n + 7);
  }

  /** What is above only moves. */
  lemma {:induction false} UpperMoves(x: bv32, n: nat)
    requires LowEmpty(x, n)
    ensures Moves(CRC, x, n) == Rest(CRC, x, n)
    decreases n
  {
    if n > 0 {
      ShiftEven(x);
      assert CRC.move(x) == CRC.rest(x);
      UpperMoves(Half(x), n - 1);
    }
  }

  lemma {:induction false} UpperByteMoves(x: bv32, h: bv32, n: nat)
    requires n == 8 && h == x & 0xffff_ff00
    ensures Moves(CRC, h, n) == Rest(CRC, h, n)
  {
    UpperShifted(x);
    LowByteEmpty(h, 0);
    UpperMoves(h, n);
  }

  lemma {:induction false} RestOfUpper(x: bv32, h: bv32)
    requires h == x & 0xffff_ff00
    ensures Rest(CRC, h, 8) == x >> 8
  {
    EightHalves(h);
    UpperShifted(x);
  }

  lemma {:induction false} Together(x: bv32, h: bv32, l: bv32, m: bv32)
    requires Xor(h, l) == x && Moves(CRC, h, 8) == m
    ensures Moves(CRC, x, 8) == Xor(m, Entry(l))
  {
    MovesApart(h, l);
  }

  /** Eight moves at once, by looking up what falls out. */
  lemma {:induction false} LookUp(x: bv32, h: bv32, l: bv32)
    requires h == x & 0xffff_ff00 && l == x & 0xff
    ensures Moves(CRC, x, 8) == Xor(x >> 8, Entry(l))
  {
    UpperShifted(x);
    RestOfUpper(x, h);
    UpperByteMoves(x, h, 8);
    Together(x, h, l, x >> 8);
  }

  lemma {:induction false} ByteIsSmall(b: byte)
    ensures (b as bv32) >> 8 == 0
  {
  }

  lemma {:induction false} XorNothing(x: bv32)
    ensures Xor(x, 0) == x
  {
  }

  lemma {:induction false} FeedByteMoves(crc: bv32, b: byte)
    ensures Moves(CRC, Xor(crc, b as bv32), 8) == FeedByte(crc, b)
  {
    CrcIsLinear();
    AllBitsMayWait(CRC, crc, b as bv32, 8);
    EightHalves(b as bv32);
    ByteIsSmall(b);
    XorNothing(FeedByte(crc, b));
  }

  lemma {:induction false} UpperUnchanged(crc: bv32, b: bv32)
    requires b >> 8 == 0
    ensures Xor(crc, b) >> 8 == crc >> 8
  {
  }

  /** The table-driven step is the entering of eight bits. */
  lemma {:induction false} TableStep(crc: bv32, b: byte)
    ensures Xor(crc >> 8, Entry(Xor(crc, b as bv32) & 0xff)) == FeedByte(crc, b)
  {
    FeedByteMoves(crc, b);
    var x: bv32 := Xor(crc, b as bv32);
    LookUp(x, x & 0xffff_ff00, x & 0xff);
    ByteIsSmall(b);
    UpperUnchanged(crc, b as bv32);
  }

  /** The inner loop of `GetCRCTable`. */
  method TableEntry(i: bv32) returns (crc: bv32)
    ensures crc == Entry(i)
  {
    crc := i;
    var j := 0;
    while j < 8
      invariant 0 <= j <= 8 && Moves(CRC, crc, 8 - j) == Entry(i)
    {
      if crc & 1 == 1 {
        crc := (crc >> 1) ^ 0xedb88320;
      } else {
        crc := crc >> 1;
      }
      j := j + 1;
    }
  }

  /** The entry for a byte given as a number. */
  function EntryAt(i: nat): bv32
    requires i < 256
  {
    Entry(i as bv32)
  }

  /** The first `n` entries of the table. */
  ghost function Entries(n: nat): (s: seq<bv32>)
    requires n <= 256
    ensures |s| == n
  {
    if n == 0 then [] else Entries(n - 1) + [EntryAt(n - 1)]
  }

  lemma {:induction false} EntryOf(n: nat, i: nat)
    requires i < n <= 256
    ensures Entries(n)[i] == EntryAt(i)
  {
    if i < n - 1 {
      EntryOf(n - 1, i);
    }
  }

  ghost predicate IsTable(table: array<bv32>)
    reads table
  {
    table.Length == 256 && forall i :: 0 <= i < 256 ==> table[i] == EntryAt(i)
  }

  method TableEntryAt(i: nat) returns (crc: bv32)
    requires i < 256
    ensures crc == EntryAt(i)
  {
    crc := TableEntry(i as bv32);
  }

  lemma {:induction false} AllEntries(table: array<bv32>)
    requires table.Length == 256 && table[..table.Length] == Entries(table.Length)
    ensures IsTable(table)
  {
    forall i | 0 <= i < 256
      ensures table[i] == EntryAt(i)
    {
      EntryOf(table.Length, i);
      assert table[..table.Length][i] == table[i];
    }
  }

  /** `GetCRCTable`. */
  method GetCRCTable() returns (table: array<bv32>)
    ensures IsTable(table) && fresh(table)
  {
    table := new bv32[256];
    var i := 0;
    while i < 256
      invariant 0 <= i <= 256 && table[..i] == Entries(i)
    {
      PutEntry(table, i);
      i := i + 1;
    }
    AllEntries(table);
  }

  method PutEntry(table: array<bv32>, i: nat)
    requires i < table.Length == 256 && table[..i] == Entries(i)
    modifies table
    ensures table[..i + 1] == Entries(i + 1)
  {
    table[i] := TableEntryAt(i);
    assert table[..i + 1] == old(table[..i]) + [table[i]];
  }

  lemma {:induction false} MaskedIsByte(x: bv32)
    ensures x & 0xff <= 0xff
  {
  }

  lemma {:induction false} IndexIsByte(y: bv32)
    requires y <= 0xff
    ensures y as int < 256
  {
  }

  lemma {:induction false} IndexBack(y: bv32)
    requires y as int < 256
    ensures EntryAt(y as int) == Entry(y)
  {
  }

  method FromTable(table: array<bv32>, x: bv32) returns (t: bv32)
    requires IsTable(table)
    ensures t == Entry(x & 0xff)
  {
    MaskedIsByte(x);
    IndexIsByte(x & 0xff);
    IndexBack(x & 0xff);
    t := table[(x & 0xff) as int];
  }

  /** One turn of the loop of `CalcCRC32`. */
  method Advance(table: array<bv32>, crc: bv32, b: byte) returns (r: bv32)
    requires IsTable(table)
    ensures r == FeedByte(crc, b)
  {
    var t := FromTable(table, Xor(crc, b as bv32));
    TableStep(crc, b);
    r := Xor(crc >> 8, t);
  }

  /** `CRC32::CalcCRC32`: the table-driven checksum is the one computed bit by bit. */
  method CalcCRC32(oldCRC: bv32, buf: seq<byte>) returns (crc: bv32)
    ensures crc == Continue(oldCRC, buf)
  {
    var table := GetCRCTable();
    crc := Complement(oldCRC);
    crc := FeedAll(table, crc, buf);
    crc := Complement(crc);
  }

  method FeedAll(table: array<bv32>, start: bv32, buf: seq<byte>) returns (crc: bv32)
    requires IsTable(table)
    ensures crc == Feed(start, buf)
  {
    crc := start;
    var i := 0;
    while i < |buf|
      invariant 0 <= i <= |buf| && crc == Feed(start, buf[..i])
    {
      FeedNext(start, buf, i);
      crc := Advance(table, crc, buf[i]);
      i := i + 1;
    }
    assert buf[..|buf|] == buf;
  }

  // ------------------------------------------------------------------
  // The check value
  // ------------------------------------------------------------------

  /** The registers `c` before and after each bit of a byte, of which `h` is what is left each time. */
  predicate AreSteps(c: seq<bv32>, h: seq<bv32>) {
    && |c| == |h| + 1
    && (forall i :: 0 <= i < |h| ==> c[i + 1] == FeedBit(c[i], h[i]))
    && (forall i :: 0 <= i < |h| - 1 ==> h[i + 1] == Half(h[i]))
  }

  lemma {:induction false} BitsFed(c: seq<bv32>, h: seq<bv32>, n: nat)
    requires n == |h| > 0 && AreSteps(c, h)
    ensures Enter(CRC, c[0], h[0], n) == c[n]
    decreases n
  {
    assert c[0 + 1] == FeedBit(c[0], h[0]);
    if n > 1 {
      var d, g := c[1..], h[1..];
      assert h[0 + 1] == Half(h[0]);
      forall i | 0 <= i < |g|
        ensures d[i + 1] == FeedBit(d[i], g[i]) && (i < |g| - 1 ==> g[i + 1] == Half(g[i]))
      {
        assert c[(i + 1) + 1] == FeedBit(c[i + 1], h[i + 1]);
        assert i < |g| - 1 ==> h[(i + 1) + 1] == Half(h[i + 1]);
      }
      BitsFed(d, g, n - 1);
    }
  }

  lemma {:induction false} ByteFed(b: byte, h: seq<bv32>, c: seq<bv32>)
    requires |h| == 8 && |c| == 9 && h[0] == b as bv32
    requires c[1] == FeedBit(c[0], h[0]) && c[2] == FeedBit(c[1], h[1]) && c[3] == FeedBit(c[2], h[2]) && c[4] == FeedBit(c[3], h[3])
    requires c[5] == FeedBit(c[4], h[4]) && c[6] == FeedBit(c[5], h[5]) && c[7] == FeedBit(c[6], h[6]) && c[8] == FeedBit(c[7], h[7])
    requires h[1] == Half(h[0]) && h[2] == Half(h[1]) && h[3] == Half(h[2]) && h[4] == Half(h[3])
    requires h[5] == Half(h[4]) && h[6] == Half(h[5]) && h[7] == Half(h[6])
    ensures FeedByte(c[0], b) == c[8]
  {
    BitsFed(c, h, 8);
  }

  lemma {:induction false} FirstDigit()
    ensures FeedByte(0xffffffff, 0x31) == 0x7c231048
  {
    ByteFed(0x31, [0x31, 0x18, 0x0c, 0x06, 0x03, 0x01, 0x00, 0x00],
      [0xffffffff, 0x7fffffff, 0xd2477cdf, 0x849b3d4f, 0xaff51d87, 0x57fa8ec3, 0x2bfd4761, 0xf8462090, 0x7c231048]);
  }

  lemma {:induction false} SecondDigit()
    ensures FeedByte(0x7c231048, 0x32) == 0xb0acbb32
  {
    ByteFed(0x32, [0x32, 0x19, 0x0c, 0x06, 0x03, 0x01, 0x00, 0x00],
      [0x7c231048, 0x3e118824, 0xf2b04732, 0x79582399, 0xd11492ec, 0x8532ca56, 0xaf21e60b, 0xba287025, 0xb0acbb32]);
  }

  lemma {:induction false} ThirdDigit()
    ensures FeedByte(0xb0acbb32, 0x33) == 0x77b79c2d
  {
    ByteFed(0x33, [0x33, 0x19, 0x0c, 0x06, 0x03, 0x01, 0x00, 0x00],
      [0xb0acbb32, 0xb5eedeb9, 0x5af76f5c, 0x2d7bb7ae, 0x16bddbd7, 0x0b5eedeb, 0x05af76f5, 0xef6f385a, 0x77b79c2d]);
  }

  lemma {:induction false} FourthDigit()
    ensures FeedByte(0x77b79c2d, 0x34) == 0x641c1f5c
  {
    ByteFed(0x34, [0x34, 0x1a, 0x0d, 0x06, 0x03, 0x01, 0x00, 0x00],
      [0x77b79c2d, 0xd6634d36, 0x6b31a69b, 0x3598d34d, 0xf774ea86, 0x9602f663, 0x4b017b31, 0xc8383eb8, 0x641c1f5c]);
  }

  lemma {:induction false} FifthDigit()
    ensures FeedByte(0x641c1f5c, 0x35) == 0x340ac5e3
  {
    ByteFed(0x35, [0x35, 0x1a, 0x0d, 0x06, 0x03, 0x01, 0x00, 0x00],
      [0x641c1f5c, 0xdfb68c8e, 0x6fdb4647, 0x37eda323, 0xf64e52b1, 0x7b272958, 0xd02b178c, 0x68158bc6, 0x340ac5e3]);
  }

  lemma {:induction false} SixthDigit()
    ensures FeedByte(0x340ac5e3, 0x36) == 0xf68d2c9e
  {
    ByteFed(0x36, [0x36, 0x1b, 0x0d, 0x06, 0x03, 0x01, 0x00, 0x00],
      [0x340ac5e3, 0xf7bde1d1, 0x7bdef0e8, 0xd057fb54, 0x682bfdaa, 0xd9ad7df5, 0x6cd6befa, 0x366b5f7d, 0xf68d2c9e]);
  }

  lemma {:induction false} SeventhDigit()
    ensures FeedByte(0xf68d2c9e, 0x37) == 0xaffc9660
  {
    ByteFed(0x37, [0x37, 0x1b, 0x0d, 0x06, 0x03, 0x01, 0x00, 0x00],
      [0xf68d2c9e, 0x96fe156f, 0x4b7f0ab7, 0x25bf855b, 0xff67418d, 0x7fb3a0c6, 0xd2615343, 0x84882a81, 0xaffc9660]);
  }

  lemma {:induction false} EighthDigit()
    ensures FeedByte(0xaffc9660, 0x38) == 0x651f2550
  {
    ByteFed(0x38, [0x38, 0x1c, 0x0e, 0x07, 0x03, 0x01, 0x00, 0x00],
      [0xaffc9660, 0x57fe4b30, 0x2bff2598, 0x15ff92cc, 0xe7474a46, 0x9e1b2603, 0x4f0d9301, 0xca3e4aa0, 0x651f2550]);
  }

  lemma {:induction false} NinthDigit()
    ensures FeedByte(0x651f2550, 0x39) == 0x340bc6d9
  {
    ByteFed(0x39, [0x39, 0x1c, 0x0e, 0x07, 0x03, 0x01, 0x00, 0x00],
      [0x651f2550, 0xdf371188, 0x6f9b88c4, 0x37cdc462, 0xf65e6111, 0x7b2f3088, 0xd02f1b64, 0x68178db2, 0x340bc6d9]);
  }

  lemma {:induction false} FedUpTo(data: seq<byte>, i: nat, before: bv32, after: bv32)
    requires i < |data| && Feed(ALL_ONES, data[..i]) == before && FeedByte(before, data[i]) == after
    ensures Feed(ALL_ONES, data[..i + 1]) == after
  {
    FeedNext(ALL_ONES, data, i);
  }

  predicate AreDigits(data: seq<byte>) {
    |data| == 9 && forall i :: 0 <= i < 9 ==> data[i] == 0x31 + i
  }

  lemma {:induction false} ThreeFed(data: seq<byte>)
    requires AreDigits(data)
    ensures Feed(ALL_ONES, data[..3]) == 0x77b79c2d
  {
    assert data[..0] == [];
    FirstDigit();
    FedUpTo(data, 0, 0xffffffff, 0x7c231048);
    SecondDigit();
    FedUpTo(data, 1, 0x7c231048, 0xb0acbb32);
    ThirdDigit();
    FedUpTo(data, 2, 0xb0acbb32, 0x77b79c2d);
  }

  lemma {:induction false} SixFed(data: seq<byte>)
    requires AreDigits(data)
    ensures Feed(ALL_ONES, data[..6]) == 0xf68d2c9e
  {
    ThreeFed(data);
    FourthDigit();
    FedUpTo(data, 3, 0x77b79c2d, 0x641c1f5c);
    FifthDigit();
    FedUpTo(data, 4, 0x641c1f5c, 0x340ac5e3);
    SixthDigit();
    FedUpTo(data, 5, 0x340ac5e3, 0xf68d2c9e);
  }

  lemma {:induction false} NineFed(data: seq<byte>)
    requires AreDigits(data)
    ensures Feed(ALL_ONES, data[..9]) == 0x340bc6d9
  {
    SixFed(data);
    SeventhDigit();
    FedUpTo(data, 6, 0xf68d2c9e, 0xaffc9660);
    EighthDigit();
    FedUpTo(data, 7, 0xaffc9660, 0x651f2550);
    NinthDigit();
    FedUpTo(data, 8, 0x651f2550, 0x340bc6d9);
  }

  /** The customary check value: the CRC of the nine digits from 1 to 9. */
  lemma {:induction false} CheckValue()
    ensures Crc([0x31, 0x32, 0x33, 0x34, 0x35, 0x36, 0x37, 0x38, 0x39]) == 0xcbf43926
  {
    var data: seq<byte> := [0x31, 0x32, 0x33, 0x34, 0x35, 0x36, 0x37, 0x38, 0x39];
    NineFed(data);
    BothComplements();
    assert data[..9] == data;
  }

  lemma {:induction false} BothComplements()
    ensures Complement(0) == ALL_ONES && Complement(0x340bc6d9) == 0xcbf43926
  {
  }
}
