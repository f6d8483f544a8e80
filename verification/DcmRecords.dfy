/**
 Record level of the DCM codec: what the sub-encoders of `DCMCodec::EncodeRec`
 write for one sector, what the `DecodeRec4x` readers make of it, and exactly
 when the two agree.
 */
module DcmRecords {
  import opened Bytes

  const CHANGE_BEGIN: byte := 0x41
  const DOS_SECTOR: byte := 0x42
  const COMPRESSED: byte := 0x43
  const CHANGE_END: byte := 0x44
  const PASS_END: byte := 0x45
  const SAME_AS_BEFORE: byte := 0x46
  const UNCOMPRESSED: byte := 0x47

  const BUFFER_SIZE := 256

  // ------------------------------------------------------------------
  // Encoders
  // ------------------------------------------------------------------

  /** The last index `<= i` at which the buffers differ, or 0 when they agree up to `i`. */
  function LastDifference(cur: seq<byte>, prev: seq<byte>, i: nat): (p: nat)
    requires i < |cur| == |prev|
    ensures p <= i
    ensures forall j :: p < j <= i ==> cur[j] == prev[j]
    ensures p == 0 || cur[p] != prev[p]
  {
    if i == 0 || cur[i] != prev[i] then i else LastDifference(cur, prev, i - 1)
  }

  /** The first index `>= i` at which the buffers differ, or the last index when they agree from `i`. */
  function FirstDifference(cur: seq<byte>, prev: seq<byte>, i: nat): (p: nat)
    requires i < |cur| == |prev|
    ensures i <= p < |cur|
    ensures forall j :: i <= j < p ==> cur[j] == prev[j]
    ensures p == |cur| - 1 || cur[p] != prev[p]
    decreases |cur| - i
  {
    if i == |cur| - 1 || cur[i] != prev[i] then i else FirstDifference(cur, prev, i + 1)
  }

  function Reverse(s: seq<byte>): (r: seq<byte>)
    ensures |r| == |s|
    ensures forall i :: 0 <= i < |s| ==> r[i] == s[|s| - 1 - i]
  {
    seq(|s|, i requires 0 <= i < |s| => s[|s| - 1 - i])
  }

  /** Type 41: the position of the last change, then the bytes from there down to the front. */
  function Rec41(cur: seq<byte>, prev: seq<byte>): seq<byte>
    requires 0 < |cur| == |prev| <= BUFFER_SIZE
  {
    var p := LastDifference(cur, prev, |cur| - 1);
    [p] + Reverse(cur[..p + 1])
  }

  /** Type 44: the position of the first change, then the bytes from there to the end. */
  function Rec44(cur: seq<byte>, prev: seq<byte>): seq<byte>
    requires 0 < |cur| == |prev| <= BUFFER_SIZE
  {
    var p := FirstDifference(cur, prev, 0);
    [p] + cur[p..]
  }

  /** A run starts where three equal bytes follow each other. */
  predicate RunAt(s: seq<byte>, i: nat) {
    i + 2 < |s| && s[i] == s[i + 1] == s[i + 2]
  }

  function FindRun(s: seq<byte>, i: nat): (r: Option<nat>)
    requires i <= |s|
    ensures r.Some? ==> i <= r.value && RunAt(s, r.value)
    ensures r.Some? ==> forall j: nat :: i <= j < r.value ==> !RunAt(s, j)
    ensures r.None? ==> forall j: nat :: i <= j ==> !RunAt(s, j)
    decreases |s| - i
  {
    if i + 2 >= |s| then None
    else if RunAt(s, i) then Some(i)
    else FindRun(s, i + 1)
  }

  /** The end of the stretch of bytes equal to `s[r]` that continues at `i`. */
  function RunEnd(s: seq<byte>, r: nat, i: nat): (e: nat)
    requires r < i <= |s|
    requires forall j :: r <= j < i ==> s[j] == s[r]
    ensures i <= e <= |s|
    ensures forall j :: r <= j < e ==> s[j] == s[r]
    ensures e == |s| || s[e] != s[r]
    decreases |s| - i
  {
    if i == |s| || s[i] != s[r] then i else RunEnd(s, r, i + 1)
  }

  function RunStop(s: seq<byte>, r: nat): (e: nat)
    requires r < |s|
    ensures r < e <= |s|
    ensures RunAt(s, r) ==> r + 3 <= e
    ensures forall j :: r <= j < e ==> s[j] == s[r]
    ensures e == |s| || s[e] != s[r]
  {
    RunEnd(s, r, r + 1)
  }

  /** The literal stretch from `p` to `r`, then the run that starts at `r`. */
  function Run43(s: seq<byte>, p: nat, r: nat): seq<byte>
    requires p <= r < |s| <= BUFFER_SIZE
  {
    [r] + s[p..r] + [RunStop(s, r) % 256, s[r]]
  }

  /** Type 43 from position `p` on: literal stretch, run, literal stretch, run, ... */
  function Rec43(s: seq<byte>, p: nat): seq<byte>
    requires p <= |s| <= BUFFER_SIZE
    decreases |s| - p
  {
    if p == |s| then []
    else match FindRun(s, p)
      case None => [|s| % 256] + s[p..]
      case Some(r) => Run43(s, p, r) + Rec43(s, RunStop(s, r))
  }

  /** One step of the selection in `EncodeRec`: keep the best record or take type `t`. */
  function Better(best: seq<byte>, t: byte, body: seq<byte>): (r: seq<byte>)
    requires |best| > 0
    ensures r == best || r == [t] + body
    ensures |r| <= |best|
    ensures |body| < 255 ==> |r| <= |body| + 1
    ensures r != best ==> |body| < 255 && |body| + 1 < |best|
  {
    if |body| < 255 && |body| + 1 < |best| then [t] + body else best
  }

  /** The record `EncodeRec` emits; the first sector of a pass may not refer to `prev`. */
  function BestRecord(first: bool, cur: seq<byte>, prev: seq<byte>): (r: seq<byte>)
    requires 0 < |cur| == |prev| <= BUFFER_SIZE
    ensures 0 < |r| <= |cur| + 1
  {
    var best := [UNCOMPRESSED] + cur;
    var best := if first then best else Better(best, CHANGE_BEGIN, Rec41(cur, prev));
    var best := Better(best, COMPRESSED, Rec43(cur, 0));
    if first then best else Better(best, CHANGE_END, Rec44(cur, prev))
  }

  // ------------------------------------------------------------------
  // Decoders
  // ------------------------------------------------------------------

  type Buffer = b: seq<byte> | |b| == BUFFER_SIZE witness Zeros(BUFFER_SIZE)

  /** What a record reader leaves: the 256-byte sector buffer and the unread input. */
  datatype Decoded = Failed | Decoded(buffer: Buffer, rest: seq<byte>)

  /** `ReadOffset`: the byte 0 stands for 256. */
  function Offset(b: byte): (o: nat)
    ensures 0 < o <= BUFFER_SIZE
    ensures o % 256 == b
  {
    if b == 0 then BUFFER_SIZE else b
  }

  function Decode41(input: seq<byte>, buf: Buffer): Decoded {
    if |input| == 0 || |input| < input[0] as nat + 2 then Failed
    else
      var n: nat := input[0] as nat + 1;
      Decoded(Reverse(input[1..n + 1]) + buf[n..], input[n + 1..])
  }

  function Decode42(input: seq<byte>, buf: Buffer): Decoded {
    if |input| < 5 then Failed
    else Decoded(Repeat(input[0], 123) + input[..5] + buf[128..], input[5..])
  }

  /** A reader in the middle of a type 43 record: the sector is restored up to `p`. */
  datatype Cursor = Stuck | At(buffer: Buffer, p: nat, rest: seq<byte>)

  /** A literal stretch; at the very front the offset byte 0 means 0, later it means 256. */
  function ReadLiteral(input: seq<byte>, buf: Buffer, p: nat): (c: Cursor)
    requires p <= BUFFER_SIZE
    ensures c.At? ==> p <= c.p <= BUFFER_SIZE && |c.rest| < |input|
  {
    if |input| == 0 then Stuck
    else
      var e: nat := if p != 0 then Offset(input[0]) else input[0];
      if e < p || |input| < 1 + e - p then Stuck
      else At(buf[..p] + input[1..1 + e - p] + buf[e..], e, input[1 + e - p..])
  }

  function ReadRun(input: seq<byte>, buf: Buffer, p: nat): (c: Cursor)
    requires p <= BUFFER_SIZE
    ensures c.At? ==> p <= c.p <= BUFFER_SIZE && |c.rest| < |input|
  {
    if |input| < 2 || Offset(input[0]) < p then Stuck
    else
      var e := Offset(input[0]);
      At(buf[..p] + Repeat(input[1], e - p) + buf[e..], e, input[2..])
  }

  /** One turn of `DecodeRec43`: a literal stretch and, unless the sector is complete, a run. */
  function Turn43(input: seq<byte>, buf: Buffer, p: nat, size: nat): (c: Cursor)
    requires p <= BUFFER_SIZE
    ensures c.At? ==> p <= c.p <= BUFFER_SIZE && |c.rest| < |input|
  {
    match ReadLiteral(input, buf, p)
    case Stuck => Stuck
    case At(buf1, e, run) => if e >= size then At(buf1, e, run) else ReadRun(run, buf1, e)
  }

  /** `DecodeRec43` from position `p`. */
  function Decode43(input: seq<byte>, buf: Buffer, p: nat, size: nat): (d: Decoded)
    requires p <= BUFFER_SIZE
    ensures d.Decoded? ==> |d.rest| <= |input|
    decreases |input|
  {
    match Turn43(input, buf, p, size)
    case Stuck => Failed
    case At(buf2, e, rest) => if e >= size then Decoded(buf2, rest) else Decode43(rest, buf2, e, size)
  }

  /** An offset past the sector would overrun the buffer; it counts as a failure. */
  function Decode44(input: seq<byte>, buf: Buffer, size: nat): Decoded
    requires size <= BUFFER_SIZE
  {
    if |input| == 0 || Offset(input[0]) > size || |input| < 1 + size - Offset(input[0]) then Failed
    else
      var p := Offset(input[0]);
      Decoded(buf[..p] + input[1..1 + size - p] + buf[size..], input[1 + size - p..])
  }

  function Decode47(input: seq<byte>, buf: Buffer, size: nat): Decoded
    requires size <= BUFFER_SIZE
  {
    if |input| < size then Failed else Decoded(input[..size] + buf[size..], input[size..])
  }

  /** The dispatch on the record type in `DCMCodec::Load`. */
  function DecodeRecord(t: byte, input: seq<byte>, buf: Buffer, size: nat): (d: Decoded)
    requires size <= BUFFER_SIZE
    ensures d.Decoded? ==> |d.rest| <= |input|
  {
    if t == CHANGE_BEGIN then Decode41(input, buf)
    else if t == DOS_SECTOR then Decode42(input, buf)
    else if t == COMPRESSED then Decode43(input, buf, 0, size)
    else if t == CHANGE_END then Decode44(input, buf, size)
    else if t == SAME_AS_BEFORE then Decoded(buf, input)
    else if t == UNCOMPRESSED then Decode47(input, buf, size)
    else Failed
  }

  // ------------------------------------------------------------------
  // Round trips
  // ------------------------------------------------------------------

  lemma {:induction false} Rec41RoundTrip(cur: seq<byte>, prev: seq<byte>, buf: Buffer, tail: seq<byte>)
    requires 0 < |cur| == |prev| <= BUFFER_SIZE
    requires buf[..|cur|] == prev
    ensures Decode41(Rec41(cur, prev) + tail, buf) == Decoded(cur + buf[|cur|..], tail)
  {
    var p := LastDifference(cur, prev, |cur| - 1);
    Decode41Reversed(p, cur[..p + 1], buf, tail);
    SameSuffix(cur, prev, buf, p);
  }

  lemma {:induction false} Decode41Reversed(p: byte, head: seq<byte>, buf: Buffer, tail: seq<byte>)
    requires |head| == p as nat + 1
    ensures Decode41([p] + Reverse(head) + tail, buf) == Decoded(head + buf[p as nat + 1..], tail)
  {
    var input := [p] + Reverse(head) + tail;
    assert input[1..p as nat + 2] == Reverse(head);
    assert input[p as nat + 2..] == tail;
    assert Reverse(Reverse(head)) == head;
  }

  lemma {:induction false} SameSuffix(cur: seq<byte>, prev: seq<byte>, buf: Buffer, p: nat)
    requires p < |cur| == |prev| <= BUFFER_SIZE
    requires buf[..|cur|] == prev
    requires forall j :: p < j < |cur| ==> cur[j] == prev[j]
    ensures cur[..p + 1] + buf[p + 1..] == cur + buf[|cur|..]
  {
    assert forall j :: p < j < |cur| ==> buf[..|cur|][j] == cur[j];
  }

  /**
   Type 44 alone is ambiguous: a change in the very first byte would be written
   as offset 0, which the reader takes for 256.
   */
  lemma {:induction false} Rec44RoundTripIff(cur: seq<byte>, prev: seq<byte>, buf: Buffer, tail: seq<byte>)
    requires 1 < |cur| == |prev| <= BUFFER_SIZE
    requires buf[..|cur|] == prev
    ensures Decode44(Rec44(cur, prev) + tail, buf, |cur|) == Decoded(cur + buf[|cur|..], tail)
       <==> cur[0] == prev[0]
  {
    var p := FirstDifference(cur, prev, 0);
    var input := Rec44(cur, prev) + tail;
    var n := |cur|;
    if cur[0] == prev[0] {
      assert input[1..1 + n - p] == cur[p..];
      assert input[1 + n - p..] == tail;
      assert buf[..p] + cur[p..] + buf[n..] == cur + buf[n..] by {
        assert forall j :: 0 <= j < p ==> buf[j] == prev[j];
      }
    } else {
      assert p == 0;
      var d := Decode44(input, buf, n);
      if d.Decoded? {
        assert d.buffer[0] == buf[0] == prev[0];
        assert (cur + buf[n..])[0] == cur[0];
      }
    }
  }

  lemma {:induction false} Decode47RoundTrip(cur: seq<byte>, buf: Buffer, tail: seq<byte>)
    requires |cur| <= BUFFER_SIZE
    ensures Decode47(cur + tail, buf, |cur|) == Decoded(cur + buf[|cur|..], tail)
  {
    Seam(cur, tail);
  }

  /** At most one byte more than the input, however the runs lie. */
  lemma {:induction false} Rec43Length(s: seq<byte>, p: nat)
    requires p <= |s| <= BUFFER_SIZE
    ensures |Rec43(s, p)| <= |s| - p + 1
    ensures FindRun(s, p).None? && p < |s| ==> |Rec43(s, p)| == |s| - p + 1
    decreases |s| - p
  {
    if p < |s| && FindRun(s, p).Some? {
      var r := FindRun(s, p).value;
      var e := RunStop(s, r);
      Rec43Length(s, e);
    }
  }

  /** Byte `j` is one of three equal bytes in a row. */
  predicate InRun(s: seq<byte>, j: nat) {
    RunAt(s, j) || (j >= 1 && RunAt(s, j - 1)) || (j >= 2 && RunAt(s, j - 2))
  }

  /** No run crosses position `p`. */
  predicate IsBoundary(s: seq<byte>, p: nat) {
    p <= |s| && (p == 0 || p == |s| || s[p - 1] != s[p])
  }

  /** What a byte adds to a type 43 record: the first of a run 3, the others of a run nothing, any other byte itself. */
  function ByteCost(s: seq<byte>, j: nat): nat
    requires j < |s|
  {
    if !InRun(s, j) then 1 else if j == 0 || s[j - 1] != s[j] then 3 else 0
  }

  function CostFrom(s: seq<byte>, p: nat): nat
    requires p <= |s|
    decreases |s| - p
  {
    if p == |s| then 0 else ByteCost(s, p) + CostFrom(s, p + 1)
  }

  /** A stretch of bytes outside of runs. */
  lemma {:induction false} LiteralCost(s: seq<byte>, p: nat, r: nat)
    requires p <= r <= |s| && forall j :: p <= j < r ==> !InRun(s, j)
    ensures CostFrom(s, p) == r - p + CostFrom(s, r)
    decreases r - p
  {
    if p < r {
      LiteralCost(s, p + 1, r);
    }
  }

  /** The rest of a run. */
  lemma {:induction false} RunCost(s: seq<byte>, i: nat, e: nat)
    requires 0 < i <= e <= |s| && forall j :: i <= j < e ==> InRun(s, j) && s[j - 1] == s[j]
    ensures CostFrom(s, i) == CostFrom(s, e)
    decreases e - i
  {
    if i < e {
      RunCost(s, i + 1, e);
    }
  }

  lemma {:induction false} InsideRun(s: seq<byte>, r: nat, e: nat, j: nat)
    requires r + 3 <= e <= |s| && r <= j < e && forall k :: r <= k < e ==> s[k] == s[r]
    ensures InRun(s, j)
  {
    assert if j + 2 < e then RunAt(s, j) else if j + 1 < e then j >= 1 && RunAt(s, j - 1) else j >= 2 && RunAt(s, j - 2);
  }

  /** A whole run. */
  lemma {:induction false} WholeRunCost(s: seq<byte>, r: nat, e: nat)
    requires RunAt(s, r) && (r == 0 || s[r - 1] != s[r]) && e == RunStop(s, r)
    ensures CostFrom(s, r) == 3 + CostFrom(s, e) && InRun(s, e - 1) && IsBoundary(s, e)
  {
    forall j | r <= j < e
      ensures InRun(s, j)
    {
      InsideRun(s, r, e, j);
    }
    RunCost(s, r + 1, e);
  }

  lemma {:induction false} OutsideRuns(s: seq<byte>, p: nat, r: nat, j: nat)
    requires IsBoundary(s, p) && p <= j < r && j < |s| && forall k: nat :: p <= k < r ==> !RunAt(s, k)
    ensures !InRun(s, j)
  {
  }

  /**
   The length of a type 43 record: every byte outside of runs of three or more
   counts once, every run three times, and one more if the last byte is in no run.
   */
  lemma {:induction false} Rec43Size(s: seq<byte>, p: nat)
    requires |s| <= BUFFER_SIZE && IsBoundary(s, p)
    ensures |Rec43(s, p)| == CostFrom(s, p) + if p < |s| && !InRun(s, |s| - 1) then 1 else 0
    decreases |s| - p
  {
    if p < |s| {
      var r := match FindRun(s, p) case None => |s| case Some(r) => r;
      forall j | p <= j < r
        ensures !InRun(s, j)
      {
        OutsideRuns(s, p, r, j);
      }
      LiteralCost(s, p, r);
      if r < |s| {
        if r > p {
          assert !RunAt(s, r - 1);
        }
        WholeRunCost(s, r, RunStop(s, r));
        Rec43Size(s, RunStop(s, r));
      }
    }
  }

  lemma {:induction false} ReadLiteralBack(o: byte, literal: seq<byte>, e: nat, more: seq<byte>, buf: Buffer, p: nat)
    requires p + |literal| == e <= BUFFER_SIZE
    requires e == if p == 0 then o as nat else Offset(o)
    ensures ReadLiteral([o] + literal + more, buf, p) == At(buf[..p] + literal + buf[e..], e, more)
  {
    var input := [o] + literal + more;
    assert input[1..1 + e - p] == literal;
    assert input[1 + e - p..] == more;
  }

  lemma {:induction false} ReadRunBack(c: byte, e: nat, more: seq<byte>, buf: Buffer, p: nat)
    requires p < e <= BUFFER_SIZE
    ensures ReadRun([e % 256, c] + more, buf, p) == At(buf[..p] + Repeat(c, e - p) + buf[e..], e, more)
  {
    var input := [e % 256, c] + more;
    assert input[2..] == more;
    assert Offset(input[0]) == e;
  }

  /**
   Type 43 is read back correctly from any position but one: at the front of a
   256-byte sector without any run, where the length 256 is written as 0.
   */
  lemma {:induction false} Rec43RoundTrip(s: seq<byte>, p: nat, buf: Buffer, tail: seq<byte>)
    requires p < |s| <= BUFFER_SIZE
    requires buf[..p] == s[..p]
    requires p > 0 || |s| < BUFFER_SIZE || FindRun(s, p).Some?
    ensures Decode43(Rec43(s, p) + tail, buf, p, |s|) == Decoded(s + buf[|s|..], tail)
    decreases |s| - p
  {
    match FindRun(s, p)
    case None =>
      ReadLiteralBack(|s| % 256, s[p..], |s|, tail, buf, p);
      assert buf[..p] + s[p..] == s;
    case Some(r) =>
      var e := RunStop(s, r);
      var more := Rec43(s, e) + tail;
      var buf2 := Rec43StepBack(s, p, r, more, buf);
      if e < |s| {
        Rec43RoundTrip(s, e, buf2, tail);
      }
      assert Rec43(s, p) + tail == Run43(s, p, r) + more by { Rec43Unfold(s, p, r, tail); }
  }

  lemma {:induction false} Rec43Unfold(s: seq<byte>, p: nat, r: nat, tail: seq<byte>)
    requires p < |s| <= BUFFER_SIZE && FindRun(s, p) == Some(r)
    ensures Rec43(s, p) + tail == Run43(s, p, r) + (Rec43(s, RunStop(s, r)) + tail)
  {
    Reassociate(Run43(s, p, r), Rec43(s, RunStop(s, r)), tail);
  }

  lemma {:induction false} Rec43StepBack(s: seq<byte>, p: nat, r: nat, more: seq<byte>, buf: Buffer) returns (buf2: Buffer)
    requires p <= r < |s| <= BUFFER_SIZE
    requires buf[..p] == s[..p]
    requires p == 0 || r > 0
    ensures var e := RunStop(s, r);
      && buf2[..e] == s[..e] && buf2[|s|..] == buf[|s|..]
      && Decode43(Run43(s, p, r) + more, buf, p, |s|)
           == if e >= |s| then Decoded(s + buf[|s|..], more) else Decode43(more, buf2, e, |s|)
  {
    var e := RunStop(s, r);
    var run := [e % 256, s[r]] + more;
    Reassociate([r] + s[p..r], [e % 256, s[r]], more);
    ReadLiteralBack(r, s[p..r], r, run, buf, p);
    var buf1: Buffer := buf[..p] + s[p..r] + buf[r..];
    ReadRunBack(s[r], e, more, buf1, r);
    buf2 := buf1[..r] + Repeat(s[r], e - r) + buf1[e..];
    Rec43RunRestores(s, p, r, e, buf, buf1, buf2);
    assert e == |s| ==> buf2 == s + buf[|s|..];
  }

  lemma {:induction false} Rec43RunRestores(s: seq<byte>, p: nat, r: nat, e: nat, buf: Buffer, buf1: Buffer, buf2: Buffer)
    requires p <= r < e <= |s| <= BUFFER_SIZE
    requires buf[..p] == s[..p]
    requires forall j :: r <= j < e ==> s[j] == s[r]
    requires buf1 == buf[..p] + s[p..r] + buf[r..]
    requires buf2 == buf1[..r] + Repeat(s[r], e - r) + buf1[e..]
    ensures buf2[..e] == s[..e] && buf2[|s|..] == buf[|s|..]
  {
    assert buf1[..r] == s[..r];
    assert buf1[e..] == buf[e..];
    assert buf2[e..] == buf[e..];
    assert buf2[|s|..] == buf2[e..][|s| - e..];
  }

  lemma {:induction false} Decode43Prefix(input: seq<byte>, buf: Buffer, p: nat)
    requires p <= BUFFER_SIZE
    ensures var d := Decode43(input, buf, p, BUFFER_SIZE);
      d.Decoded? ==> d.buffer[..p] == buf[..p]
    decreases |input|
  {
    var lit := ReadLiteral(input, buf, p);
    if lit.At? {
      assert lit.buffer[..p] == buf[..p];
      var run := ReadRun(lit.rest, lit.buffer, lit.p);
      if lit.p < BUFFER_SIZE && run.At? {
        assert run.buffer[..p] == buf[..p];
        if run.p < BUFFER_SIZE {
          Decode43Prefix(run.rest, run.buffer, run.p);
          var d := Decode43(run.rest, run.buffer, run.p, BUFFER_SIZE);
          assert d.Decoded? ==> d.buffer[..run.p][..p] == run.buffer[..run.p][..p];
        }
      }
    }
  }

  lemma {:induction false} RunShows(b: Buffer, c: Cursor, input: seq<byte>, buf: Buffer, p: nat)
    requires p <= BUFFER_SIZE && c == ReadRun(input, buf, p) && c.At?
    requires b[..c.p] == c.buffer[..c.p]
    ensures p + 3 <= c.p ==> RunAt(b, p)
  {
    assert forall j :: p <= j < c.p ==> b[..c.p][j] == input[1];
  }

  /** A sector without a run cannot be restored from fewer bytes than it has, plus one. */
  lemma {:induction false} Decode43Cost(input: seq<byte>, buf: Buffer, p: nat)
    requires p < BUFFER_SIZE
    ensures var d := Decode43(input, buf, p, BUFFER_SIZE);
      d.Decoded? && FindRun(d.buffer, 0).None? ==> |input| - |d.rest| > BUFFER_SIZE - p
    decreases |input|
  {
    var d := Decode43(input, buf, p, BUFFER_SIZE);
    var lit := ReadLiteral(input, buf, p);
    if d.Decoded? && FindRun(d.buffer, 0).None? && lit.p < BUFFER_SIZE {
      var run := ReadRun(lit.rest, lit.buffer, lit.p);
      if run.p < BUFFER_SIZE {
        Decode43Prefix(run.rest, run.buffer, run.p);
        Decode43Cost(run.rest, run.buffer, run.p);
      }
      RunShows(d.buffer, run, lit.rest, lit.buffer, lit.p);
    }
  }

  /** Taken alone, `EncodeRec43` is reversible exactly when the sector is short or has a run. */
  lemma {:induction false} Rec43RoundTripIff(s: seq<byte>, buf: Buffer, tail: seq<byte>)
    requires 0 < |s| <= BUFFER_SIZE
    ensures Decode43(Rec43(s, 0) + tail, buf, 0, |s|) == Decoded(s + buf[|s|..], tail)
       <==> |s| < BUFFER_SIZE || FindRun(s, 0).Some?
  {
    if |s| < BUFFER_SIZE || FindRun(s, 0).Some? {
      Rec43RoundTrip(s, 0, buf, tail);
    } else {
      assert Rec43(s, 0) + tail == [0] + (s + tail);
      Rec43Ambiguous(s, buf, tail);
    }
  }

  lemma {:induction false} Rec43Ambiguous(s: seq<byte>, buf: Buffer, tail: seq<byte>)
    requires |s| == BUFFER_SIZE && FindRun(s, 0).None?
    ensures Decode43([0] + (s + tail), buf, 0, BUFFER_SIZE) != Decoded(s + buf[|s|..], tail)
  {
    var input := [0] + (s + tail);
    assert [0] + [] + (s + tail) == input;
    ReadLiteralBack(0, [], 0, s + tail, buf, 0);
    assert buf[..0] + [] + buf[0..] == buf;
    var run := ReadRun(s + tail, buf, 0);
    if Decode43(input, buf, 0, BUFFER_SIZE) == Decoded(s, tail) {
      if run.p < BUFFER_SIZE {
        Decode43Prefix(run.rest, run.buffer, run.p);
        Decode43Cost(run.rest, run.buffer, run.p);
      }
      RunShows(s, run, s + tail, buf, 0);
    }
    assert s + buf[|s|..] == s;
  }

  /**
   The selection never picks an ambiguous encoding, so the record it emits is
   read back as the sector, over any buffer that holds the previous sector; the
   first record of a pass is read back over any buffer at all.
   */
  lemma {:induction false} BestRecordRoundTrip(first: bool, cur: seq<byte>, prev: seq<byte>, buf: Buffer, tail: seq<byte>)
    requires 1 < |cur| == |prev| <= BUFFER_SIZE
    requires first || buf[..|cur|] == prev
    ensures ReadsBack(BestRecord(first, cur, prev), cur, buf, tail)
  {
    var best0 := [UNCOMPRESSED] + cur;
    assert ReadsBack(best0, cur, buf, tail) by {
      assert best0[1..] == cur;
      Decode47RoundTrip(cur, buf, tail);
    }
    var best1 := if first then best0 else Better(best0, CHANGE_BEGIN, Rec41(cur, prev));
    assert ReadsBack(best1, cur, buf, tail) by {
      if !first {
        assert ([CHANGE_BEGIN] + Rec41(cur, prev))[1..] == Rec41(cur, prev);
        Rec41RoundTrip(cur, prev, buf, tail);
      }
    }
    var best2 := Better(best1, COMPRESSED, Rec43(cur, 0));
    assert ReadsBack(best2, cur, buf, tail) by {
      if best2 != best1 {
        assert ([COMPRESSED] + Rec43(cur, 0))[1..] == Rec43(cur, 0);
        Rec43Length(cur, 0);
        Rec43RoundTrip(cur, 0, buf, tail);
      }
    }
    if !first {
      var best3 := Better(best2, CHANGE_END, Rec44(cur, prev));
      if best3 != best2 {
        assert ([CHANGE_END] + Rec44(cur, prev))[1..] == Rec44(cur, prev);
        assert cur[0] == prev[0] by {
          assert FirstDifference(cur, prev, 0) > 0;
        }
        Rec44RoundTripIff(cur, prev, buf, tail);
      }
    }
  }

  /** Record `r`, followed by anything, is read over `buf` as the sector `cur`, and no byte more is consumed. */
  predicate ReadsBack(r: seq<byte>, cur: seq<byte>, buf: Buffer, tail: seq<byte>)
    requires |cur| <= BUFFER_SIZE
  {
    && |r| > 0
    && r[0] in {CHANGE_BEGIN, COMPRESSED, CHANGE_END, UNCOMPRESSED, SAME_AS_BEFORE}
    && DecodeRecord(r[0], r[1..] + tail, buf, |cur|) == Decoded(cur + buf[|cur|..], tail)
  }

  /** A candidate is considered if it has less than 255 bytes; only type 43 does without the previous sector. */
  predicate Considered(first: bool, usesPrev: bool, n: nat) {
    n < 255 && !(first && usesPrev)
  }

  /**
   The record chosen is the shortest of those considered and the sector itself,
   and the first of them in the order 47, 41, 43, 44 if there are several.
   */
  lemma {:induction false} BestRecordShortest(first: bool, cur: seq<byte>, prev: seq<byte>)
    requires 1 < |cur| == |prev| <= BUFFER_SIZE
    ensures var r, n, a, b, c := BestRecord(first, cur, prev), |cur|, |Rec41(cur, prev)|, |Rec43(cur, 0)|, |Rec44(cur, prev)|;
      var useA, useB, useC := Considered(first, true, a), Considered(first, false, b), Considered(first, true, c);
      || (r == [0x47] + cur && (useA ==> n <= a) && (useB ==> n <= b) && (useC ==> n <= c))
      || (r == [0x41] + Rec41(cur, prev) && useA && a < n && (useB ==> a <= b) && (useC ==> a <= c))
      || (r == [0x43] + Rec43(cur, 0) && useB && b < n && (useA ==> b < a) && (useC ==> b <= c))
      || (r == [0x44] + Rec44(cur, prev) && useC && c < n && (useA ==> c < a) && (useB ==> c < b))
  {
  }

  /** The bytes of a "modified begin" record: the last change, and the sector from there down to the front. */
  lemma {:induction false} Rec41Bytes(cur: seq<byte>, prev: seq<byte>)
    requires 0 < |cur| == |prev| <= BUFFER_SIZE
    ensures var r := Rec41(cur, prev); var p: nat := r[0];
      && p < |cur| && |r| == p + 2 && (p > 0 ==> cur[p] != prev[p])
      && (forall j :: 1 <= j < |r| ==> r[j] == cur[p + 1 - j]) && (forall j :: p < j < |cur| ==> cur[j] == prev[j])
  {
    var p := LastDifference(cur, prev, |cur| - 1);
    var head := cur[..p + 1];
    forall j | 1 <= j < p + 2
      ensures Rec41(cur, prev)[j] == cur[p + 1 - j]
    {
      assert Reverse(head)[j - 1] == head[p + 1 - j];
    }
  }

  /** The bytes of a "modified end" record: the first change, and the sector from there on. */
  lemma {:induction false} Rec44Bytes(cur: seq<byte>, prev: seq<byte>)
    requires 0 < |cur| == |prev| <= BUFFER_SIZE
    ensures var r := Rec44(cur, prev); var p: nat := r[0];
      && p < |cur| && r[1..] == cur[p..] && (p < |cur| - 1 ==> cur[p] != prev[p])
      && (forall j :: 0 <= j < p ==> cur[j] == prev[j])
  {
  }
}
