/** Bytes, little-endian words and the few sequence facts every other module uses. */
module Bytes {

  type byte = b: int | 0 <= b < 256

  datatype Option<+T> = None | Some(value: T)

  /** A 16-bit word as written by `FileIO::WriteWord`: low byte first. */
  function Word(w: nat): (s: seq<byte>)
    ensures |s| == 2
  {
    [w % 256, w / 256 % 256]
  }

  function WordValue(s: seq<byte>): (w: nat)
    requires |s| >= 2
    ensures w < 0x1_0000
  {
    var lo: nat, hi: nat := s[0], s[1];
    lo + 256 * hi
  }

  /** A 32-bit word as written by `FileIO::WriteDWord`: low byte first. */
  function DWord(w: nat): (s: seq<byte>)
    ensures |s| == 4
  {
    Word(w % 0x1_0000) + Word(w / 0x1_0000)
  }

  function DWordValue(s: seq<byte>): (w: nat)
    requires |s| >= 4
    ensures w < 0x1_0000_0000
  {
    WordValue(s) + 0x1_0000 * WordValue(s[2..])
  }

  function Repeat<T>(x: T, n: nat): (s: seq<T>)
    ensures |s| == n
    ensures forall i :: 0 <= i < n ==> s[i] == x
  {
    seq(n, _ => x)
  }

  function Zeros(n: nat): (s: seq<byte>)
    ensures |s| == n
    ensures forall i :: 0 <= i < n ==> s[i] == 0
  {
    Repeat(0, n)
  }

  predicate AllZero(s: seq<byte>) {
    forall i :: 0 <= i < |s| ==> s[i] == 0
  }

  lemma {:induction false} WordRoundTrip(w: nat, tail: seq<byte>)
    requires w < 0x1_0000
    ensures WordValue(Word(w) + tail) == w
  {
  }

  lemma {:induction false} DWordRoundTrip(w: nat, tail: seq<byte>)
    requires w < 0x1_0000_0000
    ensures DWordValue(DWord(w) + tail) == w
  {
    var s := DWord(w) + tail;
    assert s[2..] == Word(w / 0x1_0000) + tail;
    assert s == Word(w % 0x1_0000) + (Word(w / 0x1_0000) + tail);
    WordRoundTrip(w % 0x1_0000, Word(w / 0x1_0000) + tail);
    WordRoundTrip(w / 0x1_0000, tail);
  }

  lemma {:induction false} Reassociate<T>(a: seq<T>, b: seq<T>, c: seq<T>)
    ensures a + b + c == a + (b + c)
  {
  }

  /** A slice of a slice. */
  lemma {:induction false} SliceOfSlice<T>(s: seq<T>, a: nat, b: nat, i: nat, j: nat)
    requires a <= b <= |s| && i <= j <= b - a
    ensures s[a..b][i..j] == s[a + i..a + j] && s[a..b][j..] == s[a + j..b]
  {
    var t := s[a..b];
    var x, y := t[i..j], s[a + i..a + j];
    forall k | 0 <= k < j - i
      ensures x[k] == y[k]
    {
      assert x[k] == t[i + k] == s[a + (i + k)];
    }
    var u, w := t[j..], s[a + j..b];
    forall k | 0 <= k < |u|
      ensures u[k] == w[k]
    {
      assert u[k] == t[j + k] == s[a + (j + k)];
    }
    assert x == y && u == w;
  }

  /** Splitting a concatenation at the seam. */
  lemma {:induction false} Seam<T>(a: seq<T>, b: seq<T>)
    ensures (a + b)[..|a|] == a
    ensures (a + b)[|a|..] == b
  {
  }

  // Quotient and remainder of a sum, for the bytes of a number.

  lemma {:induction false} Over256(r: nat, q: nat)
    requires r < 256
    ensures (r + 256 * q) % 256 == r && (r + 256 * q) / 256 == q
  {
  }

  lemma {:induction false} Over64K(r: nat, q: nat)
    requires r < 0x1_0000
    ensures (r + 0x1_0000 * q) % 0x1_0000 == r && (r + 0x1_0000 * q) / 0x1_0000 == q
  {
  }

  lemma {:induction false} Over16M(r: nat, q: nat)
    requires r < 0x100_0000
    ensures (r + 0x100_0000 * q) / 0x100_0000 == q
  {
  }

  lemma {:induction false} Over4G(r: nat, q: nat)
    requires r < 0x1_0000_0000
    ensures (r + 0x1_0000_0000 * q) % 0x1_0000_0000 == r
  {
  }
}
