/** What is true of command frames over every run of the driver. */
module SioSafety {
  import opened Bytes
  import opened SioChecksum
  import opened SioRing
  import opened SioCommand

  datatype Event = Irq(pass: Pass) | Get(now: nat) | Switch(mode: Mode, line: Line)

  function Step(d: Dev, e: Event): (r: Dev)
    requires Sane(d)
    ensures Sane(r)
  {
    match e
    case Irq(p) => Interrupt(d, p)
    case Get(now) => GetCommandFrame(d, now).dev
    case Switch(mode, line) => SetMode(d, mode, line)
  }

  function Chars(chars: seq<Received>): (h: seq<Observation>)
    ensures |h| == |chars| && forall i :: 0 <= i < |h| ==> h[i] == Char(chars[i])
  {
    seq(|chars|, i requires 0 <= i < |chars| => Char(chars[i]))
  }

  function LinesBefore(d: Dev, p: Pass): seq<Observation> {
    if Asserted(d, p.msr) then [Assert] else []
  }

  function LinesAfter(d: Dev, p: Pass): seq<Observation> {
    if Released(d, p.msr) then [Release(p.now)] else []
  }

  function GetSeen(d: Dev, now: nat): seq<Observation>
    requires Sane(d)
  {
    if !d.cmd.isValid then [] else if TooOld(d, now) then [Expire] else [HandOut(d.cmd.buf[..4])]
  }

  /** What happens in a step, told from outside. */
  function Seen(d: Dev, e: Event): seq<Observation>
    requires Sane(d)
  {
    match e
    case Irq(p) => LinesBefore(d, p) + Chars(p.chars) + LinesAfter(d, p)
    case Get(now) => GetSeen(d, now)
    case Switch(_, _) => [Restart]
  }

  // ------------------------------------------------------------------
  // The driver keeps the account
  // ------------------------------------------------------------------

  /** The bytes of the clean characters. */
  function CleanBytes(w: seq<Received>): (s: seq<byte>)
    ensures |s| <= |w|
  {
    if w == [] then []
    else
      var last := w[|w| - 1];
      CleanBytes(w[..|w| - 1]) + if Clean(last) then [last.c] else []
  }

  /** Framing and parity errors are counted one by one. */
  function Errors(w: seq<Received>): nat {
    if w == [] then 0
    else
      var last := w[|w| - 1];
      Errors(w[..|w| - 1]) + (if last.framing then 1 else 0) + (if last.parity then 1 else 0)
  }

  function Breaks(w: seq<Received>): nat {
    if w == [] then 0 else Breaks(w[..|w| - 1]) + if w[|w| - 1].isBreak then 1 else 0
  }

  /** The counters and the five bytes say what they can about the characters. */
  predicate Counts(b: CmdFrameBuf, w: seq<Received>) {
    && |b.buf| == 5
    && b.okChars == |CleanBytes(w)| && b.errorChars == Errors(w) && b.breakChars == Breaks(w)
    && b.pos == (if b.okChars < 5 then b.okChars else 5)
    && b.buf[..b.pos] == CleanBytes(w)[..b.pos]
  }

  predicate Keeps(d: Dev, a: Account) {
    && Sane(d)
    && d.cmd.receiving == a.open.Some? && d.cmd.isValid == a.pending.Some?
    && !(a.open.Some? && a.pending.Some?)
    && (a.open.Some? ==> Counts(d.cmd, a.open.value))
    && (a.pending.Some? ==> d.cmd.buf == a.pending.value.bytes && d.cmd.endTime == a.pending.value.time)
    && d.cmd.serialNumber == a.asserts
    && (a.handed.Some? ==> d.currentSerial == a.handed.value)
    && (d.mode.Mode1050ToPc? ==> a.open.None? && a.pending.None?)
  }

  lemma {:induction false} OneMore(w: seq<Received>, r: Received)
    ensures (w + [r])[..|w + [r]| - 1] == w
    ensures CleanBytes(w + [r]) == CleanBytes(w) + if Clean(r) then [r.c] else []
    ensures Errors(w + [r]) == Errors(w) + (if r.framing then 1 else 0) + (if r.parity then 1 else 0)
    ensures Breaks(w + [r]) == Breaks(w) + if r.isBreak then 1 else 0
  {
    assert (w + [r])[..|w|] == w;
  }

  /** A clean character goes behind the ones before it, as long as there is room. */
  lemma {:induction false} StoredPrefix(buf: seq<byte>, pos: nat, clean: seq<byte>, c: byte)
    requires |buf| == 5 && pos == (if |clean| < 5 then |clean| else 5) && buf[..pos] == clean[..pos]
    ensures pos < 5 ==> buf[pos := c][..pos + 1] == (clean + [c])[..pos + 1]
    ensures pos == 5 ==> buf[..5] == (clean + [c])[..5]
  {
    if pos < 5 {
      assert buf[pos := c][..pos + 1] == buf[..pos] + [c];
      assert (clean + [c])[..pos + 1] == clean[..pos] + [c];
    } else {
      assert (clean + [c])[..5] == clean[..5];
    }
  }

  lemma {:induction false} CharCounts(d: Dev, w: seq<Received>, r: Received)
    requires Sane(d) && d.cmd.receiving && Counts(d.cmd, w)
    ensures Counts(ReceiveChar(d, r).cmd, w + [r])
  {
    OneMore(w, r);
    StoredPrefix(d.cmd.buf, d.cmd.pos, CleanBytes(w), r.c);
  }

  lemma {:induction false} CharKeeps(d: Dev, a: Account, r: Received)
    requires Keeps(d, a)
    ensures Keeps(ReceiveChar(d, r), Observe(a, Char(r)))
  {
    if a.open.Some? {
      CharCounts(d, a.open.value, r);
    }
  }

  lemma {:induction false} CharsKeep(d: Dev, a: Account, chars: seq<Received>)
    requires Keeps(d, a)
    ensures Keeps(ReceiveChars(d, chars), ObserveAll(a, Chars(chars)))
    decreases |chars|
  {
    if chars != [] {
      var init := chars[..|chars| - 1];
      CharsKeep(d, a, init);
      CharKeeps(ReceiveChars(d, init), ObserveAll(a, Chars(init)), chars[|chars| - 1]);
      assert Chars(chars)[..|chars| - 1] == Chars(init);
    }
  }

  /** Without errors and breaks every character is clean, and conversely. */
  lemma {:induction false} AllClean(w: seq<Received>)
    ensures Errors(w) + Breaks(w) == 0 <==> forall i :: 0 <= i < |w| ==> Clean(w[i])
    ensures Errors(w) + Breaks(w) == 0 ==> CleanBytes(w) == BytesOf(w)
    ensures Errors(w) + Breaks(w) == 0 <== |CleanBytes(w)| == |w|
  {
    if w != [] {
      var init, last := w[..|w| - 1], w[|w| - 1];
      AllClean(init);
      assert w == init + [last];
      if Errors(w) + Breaks(w) == 0 {
        assert BytesOf(w) == BytesOf(init) + [last.c];
      }
    }
  }

  /** A frame passes the quality check exactly if it is five clean characters with the right checksum. */
  lemma {:induction false} QualityIsIsFrame(b: CmdFrameBuf, w: seq<Received>)
    requires Counts(b, w) && b.receiving
    ensures QualityOf(b).FrameOk? <==> IsFrame(w)
    ensures IsFrame(w) ==> b.buf == BytesOf(w)
  {
    AllClean(w);
    if Errors(w) + Breaks(w) == 0 && |w| == 5 {
      assert b.buf[..5] == b.buf && CleanBytes(w)[..5] == CleanBytes(w);
    }
  }

  lemma {:induction false} BeforeKeeps(d: Dev, a: Account, p: Pass)
    requires Keeps(d, a)
    ensures Keeps(BeforeReceive(d, p.msr, p.now), ObserveAll(a, LinesBefore(d, p)))
  {
    if Asserted(d, p.msr) {
      assert [Assert][..0] == [];
      assert ObserveAll(a, [Assert]) == Observe(ObserveAll(a, []), Assert);
    }
  }

  lemma {:induction false} AfterKeeps(d: Dev, a: Account, msr: Msr, now: nat)
    requires Keeps(d, a)
    ensures Keeps(AfterReceive(d, msr, now), if Released(d, msr) then Observe(a, Release(now)) else a)
  {
    if Released(d, msr) && a.open.Some? {
      QualityIsIsFrame(d.cmd, a.open.value);
    }
  }

  /** Receiving does not touch the mode or the lines. */
  lemma {:induction false} SameLines(d: Dev, p: Pass)
    requires Sane(d)
    ensures var e := ReceiveChars(BeforeReceive(d, p.msr, p.now), p.chars);
      e.mode == d.mode && e.commandLine == d.commandLine
  {
    CharsSameLines(BeforeReceive(d, p.msr, p.now), p.chars);
  }

  lemma {:induction false} CharsSameLines(d: Dev, chars: seq<Received>)
    requires Sane(d)
    ensures var e := ReceiveChars(d, chars); e.mode == d.mode && e.commandLine == d.commandLine
    decreases |chars|
  {
    if chars != [] {
      CharsSameLines(d, chars[..|chars| - 1]);
    }
  }

  lemma {:induction false} IrqKeeps(d: Dev, a: Account, p: Pass)
    requires Keeps(d, a)
    ensures Keeps(Interrupt(d, p), ObserveAll(a, Seen(d, Irq(p))))
  {
    var b := BeforeReceive(d, p.msr, p.now);
    var ab := ObserveAll(a, LinesBefore(d, p));
    var r := ReceiveChars(b, p.chars);
    var ar := ObserveAll(ab, Chars(p.chars));
    BeforeKeeps(d, a, p);
    CharsKeep(b, ab, p.chars);
    AfterKeeps(r, ar, p.msr, p.now);
    SameLines(d, p);
    ObserveInTurn(a, LinesBefore(d, p), Chars(p.chars));
    ObserveInTurn(a, LinesBefore(d, p) + Chars(p.chars), LinesAfter(d, p));
    LastObserved(ar, d, p);
  }

  lemma {:induction false} LastObserved(a: Account, d: Dev, p: Pass)
    ensures ObserveAll(a, LinesAfter(d, p)) == if Released(d, p.msr) then Observe(a, Release(p.now)) else a
  {
    if Released(d, p.msr) {
      assert ObserveAll(a, [Release(p.now)]) == Observe(ObserveAll(a, [Release(p.now)][..0]), Release(p.now));
    }
  }

  lemma {:induction false} GetKeeps(d: Dev, a: Account, now: nat)
    requires Keeps(d, a)
    ensures Keeps(GetCommandFrame(d, now).dev, ObserveAll(a, Seen(d, Get(now))))
  {
    var s := GetSeen(d, now);
    if s != [] {
      assert ObserveAll(a, s) == Observe(ObserveAll(a, s[..0]), s[0]);
    }
  }

  lemma {:induction false} SwitchKeeps(d: Dev, a: Account, mode: Mode, line: Line)
    requires Keeps(d, a)
    ensures Keeps(SetMode(d, mode, line), ObserveAll(a, [Restart]))
  {
    assert ObserveAll(a, [Restart]) == Observe(ObserveAll(a, [Restart][..0]), Restart);
  }

  /** Every step keeps the account. */
  lemma {:induction false} StepKeeps(d: Dev, a: Account, e: Event)
    requires Keeps(d, a)
    ensures Keeps(Step(d, e), ObserveAll(a, Seen(d, e)))
  {
    match e
    case Irq(p) => IrqKeeps(d, a, p);
    case Get(now) => GetKeeps(d, a, now);
    case Switch(mode, line) => SwitchKeeps(d, a, mode, line);
  }
}
