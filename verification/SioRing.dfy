/** The ring buffers between the interrupt handler and the ioctls of the driver. */
module SioRing {
  import opened Bytes
  import opened SioChecksum

  const IOBUF_LENGTH := 8200

  /** One place is never used, and one is reserved for the checksum. */
  const MAX_SIO_DATA_LENGTH := IOBUF_LENGTH - 2

  const CAPACITY := IOBUF_LENGTH - 1

  type Ring = s: seq<byte> | |s| == IOBUF_LENGTH witness Zeros(IOBUF_LENGTH)

  type Index = i: nat | i < IOBUF_LENGTH

  /** `i % IOBUF_LENGTH` for an index at most once around. */
  function Wrap(i: nat): Index
    requires i < 2 * IOBUF_LENGTH
  {
    if i < IOBUF_LENGTH then i else i - IOBUF_LENGTH
  }

  /** `n` bytes from `tail` on, around the end of the buffer. */
  function Span(b: Ring, tail: Index, n: nat): (s: seq<byte>)
    requires n <= IOBUF_LENGTH
    ensures |s| == n
    ensures forall i :: 0 <= i < n ==> s[i] == b[Wrap(tail + i)]
  {
    seq(n, i requires 0 <= i < n => b[Wrap(tail + i)])
  }

  function Count(head: Index, tail: Index): (n: nat)
    ensures n < IOBUF_LENGTH
    ensures Wrap(tail + n) == head
  {
    if head >= tail then head - tail else head + IOBUF_LENGTH - tail
  }

  /** `(head + IOBUF_LENGTH - tail) % IOBUF_LENGTH` counts the bytes between. */
  lemma {:induction false} CountIsModulo(head: Index, tail: Index)
    ensures Count(head, tail) == (head + IOBUF_LENGTH - tail) % IOBUF_LENGTH
    ensures Wrap(head + 1) == (head + 1) % IOBUF_LENGTH
  {
  }

  lemma {:induction false} WrapIsModulo(i: nat)
    requires i < 2 * IOBUF_LENGTH
    ensures Wrap(i) == i % IOBUF_LENGTH
  {
  }

  /** `n` bytes from `start` on, going around as often as needed. */
  function Around(b: seq<byte>, start: nat, n: nat): (s: seq<byte>)
    requires |b| > 0
    ensures |s| == n
  {
    seq(n, i requires 0 <= i < n => b[(start + i) % |b|])
  }

  /** `calculate_checksum`. */
  method CalculateChecksum(circBuf: array<byte>, start: nat, len: nat, totalLen: nat) returns (chksum: byte)
    requires 0 < totalLen == circBuf.Length
    ensures chksum == Checksum(Around(circBuf[..], start, len))
  {
    ghost var s := Around(circBuf[..], start, len);
    chksum := 0;
    var i := 0;
    while i < len
      invariant 0 <= i <= len && chksum == Checksum(s[..i])
    {
      assert s[..i + 1][..i] == s[..i] && s[..i + 1][i] == circBuf[(start + i) % totalLen];
      chksum := AddByte(chksum, circBuf[(start + i) % totalLen]);
      i := i + 1;
    }
    assert s[..len] == s;
  }

  /** On a ring buffer one way around suffices. */
  lemma {:induction false} SpanIsAround(b: Ring, start: Index, n: nat)
    requires n <= IOBUF_LENGTH
    ensures Around(b, start, n) == Span(b, start, n)
  {
  }

  /** What a full ring does with more bytes: the newest are lost. */
  function Kept(contents: seq<byte>, incoming: seq<byte>): (s: seq<byte>)
    requires |contents| <= CAPACITY
    ensures |s| == if |contents| + |incoming| < 8200 then |contents| + |incoming| else 8199
  {
    var room := CAPACITY - |contents|;
    contents + if |incoming| <= room then incoming else incoming[..room]
  }

  lemma {:induction false} SpanAppend(b: Ring, tail: Index, n: nat, c: byte)
    requires n < CAPACITY
    ensures Span(b[Wrap(tail + n) := c], tail, n + 1) == Span(b, tail, n) + [c]
  {
  }

  lemma {:induction false} SpanDrop(b: Ring, tail: Index, n: nat, k: nat)
    requires k <= n <= CAPACITY
    ensures Span(b, Wrap(tail + k), n - k) == Span(b, tail, n)[k..]
  {
  }

  lemma {:induction false} SpanTake(b: Ring, tail: Index, n: nat, k: nat)
    requires k <= n <= CAPACITY
    ensures Span(b, tail, k) == Span(b, tail, n)[..k]
  {
  }

  /** A block that goes around the end is two runs of bytes. */
  lemma {:induction false} SpanInTwoRuns(b: Ring, tail: Index, n: nat)
    requires n <= CAPACITY
    ensures var len := if IOBUF_LENGTH - tail > n then n else IOBUF_LENGTH - tail;
      Span(b, tail, n) == b[tail..tail + len] + b[..n - len]
  {
  }

  /** `rx_buf` and `tx_buf`. */
  class IoBuffer {
    const buf: array<byte>
    var head: nat
    var tail: nat

    ghost predicate Valid()
      reads this
    {
      buf.Length == IOBUF_LENGTH && head < IOBUF_LENGTH && tail < IOBUF_LENGTH
    }

    /** The bytes in the buffer, oldest first. */
    ghost function Contents(): (s: seq<byte>)
      requires Valid()
      reads this, buf
      ensures |s| <= CAPACITY
    {
      Span(buf[..], tail, Count(head, tail))
    }

    constructor ()
      ensures Valid() && Contents() == [] && fresh(buf)
    {
      buf := new byte[IOBUF_LENGTH](_ => 0);
      head, tail := 0, 0;
    }

    method Used() returns (n: nat)
      requires Valid()
      ensures n == |Contents()|
    {
      CountIsModulo(head, tail);
      n := (head + IOBUF_LENGTH - tail) % IOBUF_LENGTH;
    }

    /** Flushes by moving one end to the other; which end is a matter of who may write it. */
    method Flush(fromHead: bool)
      requires Valid()
      modifies this
      ensures Valid() && Contents() == []
    {
      if fromHead {
        head := tail;
      } else {
        tail := head;
      }
    }

    /** `reset_rx_buf`, `reset_tx_buf`. */
    method Reset()
      requires Valid()
      modifies this
      ensures Valid() && Contents() == []
    {
      head, tail := 0, 0;
    }

    /** The last part of `receive_chars`: a full buffer sinks the character. */
    method Put(c: byte)
      requires Valid()
      modifies this, buf
      ensures Valid() && Contents() == Kept(old(Contents()), [c])
    {
      CountIsModulo(head, tail);
      if (head + 1) % IOBUF_LENGTH != tail {
        ghost var n := Count(head, tail);
        SpanAppend(buf[..], tail, n, c);
        ghost var was := buf[..];
        buf[head] := c;
        assert buf[..] == was[head := c];
        head := (head + 1) % IOBUF_LENGTH;
      }
    }

    /** The sending loop of `send_chars`: at most 16 characters, as many as the FIFO of the UART holds. */
    method SendBurst() returns (sent: seq<byte>, empty: bool)
      requires Valid()
      modifies this`tail
      ensures Valid() && sent + Contents() == old(Contents()) && empty == (Contents() == [])
      ensures |sent| == if |old(Contents())| < 16 then |old(Contents())| else 16
    {
      sent := [];
      var count := 16;
      ghost var was := Contents();
      while count > 0 && head != tail
        invariant 0 <= count <= 16 && Valid() && sent + Contents() == was && |sent| == 16 - count
        decreases count
      {
        var c := TakeOne();
        Reassociate(sent, [c], Contents());
        sent := sent + [c];
        count := count - 1;
      }
      empty := head == tail;
    }

    method TakeOne() returns (c: byte)
      requires Valid() && head != tail
      modifies this`tail
      ensures Valid() && old(Contents()) == [c] + Contents()
    {
      CountIsModulo(tail, tail);
      SpanDrop(buf[..], tail, Count(head, tail), 1);
      c := buf[tail];
      tail := (tail + 1) % IOBUF_LENGTH;
    }

    /** Copies bytes in from `at` on, in two runs if they go around the end. */
    method CopyIn(at: nat, data: seq<byte>)
      requires Valid() && at < IOBUF_LENGTH && |data| < CAPACITY
      modifies buf
      ensures Span(buf[..], at, |data|) == data
    {
      var len := IOBUF_LENGTH - at;
      if len > |data| {
        len := |data|;
      }
      forall i | 0 <= i < len {
        buf[at + i] := data[i];
      }
      var remain := |data| - len;
      assert remain > 0 ==> remain <= at;
      forall i | 0 <= i < remain {
        buf[i] := data[len + i];
      }
      SpanInTwoRuns(buf[..], at, |data|);
      ghost var first, second := buf[at..at + len], buf[..remain];
      assert forall i :: 0 <= i < len ==> first[i] == data[i];
      assert forall i :: 0 <= i < remain ==> second[i] == data[len + i];
      assert first == data[..len] && second == data[len..];
    }

    /** `setup_send_frame`: whatever was still to be sent is dropped. */
    method SetupSendFrame(data: seq<byte>, addChecksum: bool) returns (ok: bool)
      requires Valid()
      modifies this, buf
      ensures Valid() && (ok <==> 0 < |data| < 8198)
      ensures ok ==> Contents() == data + if addChecksum then [Checksum(data)] else []
      ensures !ok ==> Contents() == old(Contents())
    {
      if |data| == 0 || |data| >= MAX_SIO_DATA_LENGTH {
        return false;
      }
      head := tail;
      CopyIn(head, data);
      var dataLength := |data|;
      if addChecksum {
        AppendChecksum(data);
        dataLength := dataLength + 1;
      }
      head := (head + dataLength) % IOBUF_LENGTH;
      assert head == Wrap(tail + dataLength) && Count(head, tail) == dataLength;
      ok := true;
    }

    method AppendChecksum(data: seq<byte>)
      requires Valid() && head == tail && 0 < |data| < MAX_SIO_DATA_LENGTH && Span(buf[..], tail, |data|) == data
      modifies buf
      ensures Span(buf[..], tail, |data| + 1) == data + [Checksum(data)]
    {
      var checksum := SpanChecksum(|data|);
      var at := (head + |data|) % IOBUF_LENGTH;
      WrapIsModulo(head + |data|);
      SpanAppend(buf[..], tail, |data|, checksum);
      ghost var was := buf[..];
      buf[at] := checksum;
      assert buf[..] == was[at := checksum];
    }

    /** The checksum of the first `n` bytes from the tail on. */
    method SpanChecksum(n: nat) returns (checksum: byte)
      requires Valid() && n <= CAPACITY
      ensures checksum == Checksum(Span(buf[..], tail, n))
    {
      checksum := CalculateChecksum(buf, tail, n, IOBUF_LENGTH);
      SpanIsAround(buf[..], tail, n);
    }

    /** `copy_received_data_to_user`. */
    method CopyOut(n: nat) returns (ok: bool, data: seq<byte>)
      requires Valid()
      ensures ok <==> 0 < n < MAX_SIO_DATA_LENGTH
      ensures ok ==> data == Span(buf[..], tail, n)
    {
      if n == 0 || n >= MAX_SIO_DATA_LENGTH {
        return false, [];
      }
      var len := IOBUF_LENGTH - tail;
      if len > n {
        len := n;
      }
      SpanInTwoRuns(buf[..], tail, n);
      data := buf[tail..tail + len] + buf[..n - len];
      ok := true;
    }

    /** The critical section of `receive_block`, once the wait for the bytes is over. */
    method ReceiveBlock(blockLen: nat, handleChecksum: bool) returns (r: Reception)
      requires Valid()
      modifies this`tail
      ensures Valid()
      ensures var was, want := old(Contents()), blockLen + if handleChecksum then 1 else 0;
        && r == Expected(was, blockLen, handleChecksum)
        && Contents() == if blockLen == 0 || |was| < want then was else was[want..]
    {
      if blockLen == 0 {
        return InvalidLength;
      }
      var wantLen := blockLen;
      if handleChecksum {
        wantLen := wantLen + 1;
      }
      var received := Used();
      if received < wantLen {
        return Timeout;
      }
      r := ReadBlock(blockLen, handleChecksum);
      Consume(wantLen);
    }

    /** Moves the tail past bytes that have been read. */
    method Consume(n: nat)
      requires Valid() && n <= |Contents()|
      modifies this`tail
      ensures Valid() && Contents() == old(Contents())[n..]
    {
      SpanDrop(buf[..], tail, Count(head, tail), n);
      WrapIsModulo(tail + n);
      tail := (tail + n) % IOBUF_LENGTH;
    }

    /** Copies the block out and compares the checksum behind it. */
    method ReadBlock(blockLen: nat, handleChecksum: bool) returns (r: Reception)
      requires Valid() && 0 < blockLen + (if handleChecksum then 1 else 0) <= |Contents()| && blockLen > 0
      ensures r == Expected(Contents(), blockLen, handleChecksum)
    {
      SpanTake(buf[..], tail, |Contents()|, blockLen);
      var ok, data := CopyOut(blockLen);
      r := if ok then Block(data) else InvalidLength;
      if handleChecksum {
        var checksum := SpanChecksum(blockLen);
        WrapIsModulo(tail + blockLen);
        var sent := buf[(tail + blockLen) % IOBUF_LENGTH];
        assert sent == Contents()[blockLen];
        if sent != checksum && ok {
          r := ChecksumError(data);
        }
      }
    }
  }

  /** What `receive_block` reports. */
  datatype Reception = Block(data: seq<byte>) | ChecksumError(data: seq<byte>) | InvalidLength | Timeout

  /** What a reader gets from a buffer with these contents. */
  function Expected(contents: seq<byte>, blockLen: nat, handleChecksum: bool): Reception {
    if blockLen == 0 then InvalidLength
    else if |contents| < blockLen + (if handleChecksum then 1 else 0) then Timeout
    else if blockLen >= MAX_SIO_DATA_LENGTH then InvalidLength
    else if handleChecksum && contents[blockLen] != Checksum(contents[..blockLen]) then ChecksumError(contents[..blockLen])
    else Block(contents[..blockLen])
  }

  /** A ring that receives one run of bytes after the other loses only what does not fit, at the end. */
  lemma {:induction false} KeptInTurn(contents: seq<byte>, a: seq<byte>, b: seq<byte>)
    requires |contents| <= CAPACITY
    ensures Kept(Kept(contents, a), b) == Kept(contents, a + b)
  {
  }

  /** The characters of one interrupt, put into the receive buffer one by one. */
  method PutAll(rx: IoBuffer, chars: seq<byte>)
    requires rx.Valid()
    modifies rx, rx.buf
    ensures rx.Valid() && rx.Contents() == Kept(old(rx.Contents()), chars)
  {
    ghost var was := rx.Contents();
    var i := 0;
    while i < |chars|
      invariant 0 <= i <= |chars| && rx.Valid() && rx.Contents() == Kept(was, chars[..i])
    {
      rx.Put(chars[i]);
      KeptInTurn(was, chars[..i], [chars[i]]);
      assert chars[..i] + [chars[i]] == chars[..i + 1];
      i := i + 1;
    }
    assert chars[..i] == chars;
  }

  /** One burst from one side to the other. */
  method TransferBurst(tx: IoBuffer, rx: IoBuffer, ghost frame: seq<byte>) returns (empty: bool)
    requires tx.Valid() && rx.Valid() && tx != rx && tx.buf != rx.buf
    requires rx.Contents() + tx.Contents() == frame && |frame| <= CAPACITY
    modifies tx`tail, rx, rx.buf
    ensures tx.Valid() && rx.Valid() && rx.Contents() + tx.Contents() == frame && empty == (tx.Contents() == [])
    ensures !empty ==> |tx.Contents()| < |old(tx.Contents())|
  {
    ghost var got := rx.Contents();
    var sent;
    sent, empty := tx.SendBurst();
    ghost var left := tx.Contents();
    assert got + (sent + left) == (got + sent) + left;
    PutAll(rx, sent);
  }

  /** Drains the transmit buffer of one side, burst by burst, into the receive buffer of the other. */
  method Transfer(tx: IoBuffer, rx: IoBuffer)
    requires tx.Valid() && rx.Valid() && tx != rx && tx.buf != rx.buf && rx.Contents() == []
    modifies tx`tail, rx, rx.buf
    ensures tx.Valid() && rx.Valid() && tx.Contents() == [] && rx.Contents() == old(tx.Contents())
  {
    ghost var frame := tx.Contents();
    assert rx.Contents() + frame == frame;
    var empty := false;
    while !empty
      invariant tx.Valid() && rx.Valid() && rx.Contents() + tx.Contents() == frame
      invariant empty ==> tx.Contents() == []
      decreases |tx.Contents()|, !empty
    {
      empty := TransferBurst(tx, rx, frame);
    }
  }

  /**
   A frame of 1 to 8197 bytes, queued at whatever position the ring is in and
   received into an empty ring at whatever position that is in, arrives byte for
   byte and with its checksum accepted.
   */
  method FrameArrives(tx: IoBuffer, rx: IoBuffer, data: seq<byte>) returns (r: Reception)
    requires tx.Valid() && rx.Valid() && tx != rx && tx.buf != rx.buf && rx.Contents() == []
    modifies tx, tx.buf, rx, rx.buf
    ensures r == if 0 < |data| < 8198 then Block(data) else InvalidLength
    ensures tx.Valid() && rx.Valid() && rx.Contents() == []
  {
    var ok := tx.SetupSendFrame(data, true);
    if !ok {
      return InvalidLength;
    }
    Transfer(tx, rx);
    assert rx.Contents()[..|data|] == data;
    r := rx.ReceiveBlock(|data|, true);
  }
}
