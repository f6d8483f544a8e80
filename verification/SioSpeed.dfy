/** The rest of the driver's state over whole runs: the speed, the characters received, and the frames missed. */
module SioSpeed {
  import opened Bytes
  import opened SioChecksum
  import opened SioRing
  import opened SioCommand
  import opened SioSafety
  import opened SioRuns

  // ------------------------------------------------------------------
  // The automatic speed
  // ------------------------------------------------------------------

  /** Two breaks, far too many characters, or far too few: most likely another speed. */
  predicate Gross(w: seq<Received>) {
    var clean, errors, breaks := |CleanBytes(w)|, Errors(w), Breaks(w);
    breaks > 1 || clean + errors + breaks >= 7 || clean + errors <= 3
  }

  /** Five characters of which one is damaged, or which only have the wrong checksum. */
  predicate Slight(w: seq<Received>) {
    !Gross(w) && !IsFrame(w) && Breaks(w) == 0 && |CleanBytes(w)| + Errors(w) == 5 && Errors(w) <= 1
  }

  /** The speed to try next. */
  function OtherRate(b: Baud): nat {
    if b.rate == b.default then b.highspeed else b.default
  }

  /** What the end of a command frame does about the speed, given what came over the line since it began. */
  predicate Switches(b: Baud, open: Option<seq<Received>>) {
    && b.auto && OtherRate(b) != 0 && OtherRate(b) != b.rate
    && (open.None? || Gross(open.value) || (!IsFrame(open.value) && !Slight(open.value) && !b.justSwitched))
  }

  lemma {:induction false} QualityMeans(b: CmdFrameBuf, w: seq<Received>)
    requires Counts(b, w) && b.receiving
    ensures match QualityOf(b)
      case FrameOk => IsFrame(w)
      case MinorError => Slight(w)
      case NormalError => !IsFrame(w) && !Slight(w) && !Gross(w)
      case MajorError => Gross(w) && !IsFrame(w)
  {
    QualityIsIsFrame(b, w);
    AllClean(w);
  }

  /** The speed after a release. */
  function Settled(b: Baud, open: Option<seq<Received>>): Baud {
    if Switches(b, open) then b.(rate := OtherRate(b), justSwitched := true) else b.(justSwitched := false)
  }

  lemma {:induction false} ReleaseSettles(d: Dev, a: Account)
    requires Keeps(d, a)
    ensures AfterFrame(d.baud, QualityOf(d.cmd)) == Settled(d.baud, a.open)
  {
    if a.open.Some? {
      QualityMeans(d.cmd, a.open.value);
    }
  }

  lemma {:induction false} CharsKeepSpeed(d: Dev, chars: seq<Received>)
    requires Sane(d)
    ensures ReceiveChars(d, chars).baud == d.baud
    decreases |chars|
  {
    if chars != [] {
      CharsKeepSpeed(d, chars[..|chars| - 1]);
    }
  }

  /** What has come over the line in a pass before the command line is looked at again. */
  function BeforeRelease(d: Dev, h: seq<Observation>, p: Pass): seq<Observation>
    requires Sane(d)
  {
    h + LinesBefore(d, p) + Chars(p.chars)
  }

  lemma {:induction false} PassKeepsUpTo(d: Dev, h: seq<Observation>, p: Pass)
    requires Keeps(d, AccountOf(h))
    ensures Keeps(ReceiveChars(BeforeReceive(d, p.msr, p.now), p.chars), AccountOf(BeforeRelease(d, h, p)))
  {
    var b := BeforeReceive(d, p.msr, p.now);
    BeforeKeeps(d, AccountOf(h), p);
    ObserveInTurn(NOTHING, h, LinesBefore(d, p));
    CharsKeep(b, AccountOf(h + LinesBefore(d, p)), p.chars);
    ObserveInTurn(NOTHING, h + LinesBefore(d, p), Chars(p.chars));
  }

  /** In every run: what a pass of the interrupt handler does about the speed. */
  lemma {:induction false} PassSettles(d: Dev, es: seq<Event>, p: Pass)
    requires Opened(d)
    ensures var r := RunDev(d, es);
      Interrupt(r, p).baud ==
        if Released(r, p.msr) then Settled(r.baud, AccountOf(BeforeRelease(r, History(d, es), p)).open) else r.baud
  {
    var r, h := RunDev(d, es), History(d, es);
    var e := ReceiveChars(BeforeReceive(r, p.msr, p.now), p.chars);
    RunKeeps(d, es);
    PassKeepsUpTo(r, h, p);
    CharsKeepSpeed(BeforeReceive(r, p.msr, p.now), p.chars);
    SameLines(r, p);
    ReleaseSettles(e, AccountOf(BeforeRelease(r, h, p)));
  }

  /** A command frame that came in clean and whole changes nothing about the speed. */
  lemma {:induction false} GoodFrameKeepsSpeed(d: Dev, es: seq<Event>, p: Pass, i: nat)
    requires Opened(d) && Released(RunDev(d, es), p.msr)
    requires var h := BeforeRelease(RunDev(d, es), History(d, es), p); OpenSince(h, i) && IsFrame(CharsIn(h[i + 1..]))
    ensures Interrupt(RunDev(d, es), p).baud == RunDev(d, es).baud.(justSwitched := false)
  {
    PassSettles(d, es, p);
    OpenMeans(BeforeRelease(RunDev(d, es), History(d, es), p), i);
    FramesAreNotGross(CharsIn(BeforeRelease(RunDev(d, es), History(d, es), p)[i + 1..]));
  }

  lemma {:induction false} FramesAreNotGross(w: seq<Received>)
    requires IsFrame(w)
    ensures !Gross(w) && !Slight(w)
  {
    AllClean(w);
  }

  /**
   In every run the speed changes only when the command line goes down behind
   something that is no command frame, under exactly this condition, or when the
   mode is set and the default is another speed.
   */
  lemma {:induction false} SpeedChangesIff(d: Dev, es: seq<Event>, e: Event)
    requires Opened(d)
    ensures var r, s := RunDev(d, es), Step(RunDev(d, es), e);
      s.baud.rate != r.baud.rate <==>
        match e
        case Irq(p) => Released(r, p.msr) && Switches(r.baud, AccountOf(BeforeRelease(r, History(d, es), p)).open)
        case Get(_) => false
        case Switch(_, _) => r.baud.default != 0 && r.baud.default != r.baud.rate
    ensures var r, s := RunDev(d, es), Step(RunDev(d, es), e);
      && s.baud.default == r.baud.default && s.baud.highspeed == r.baud.highspeed
      && (s.baud.auto <==> r.baud.auto && !(e.Switch? && e.mode.Mode1050ToPc?))
      && (s.baud.rate != r.baud.rate ==> s.baud.rate == if e.Irq? then OtherRate(r.baud) else r.baud.default)
  {
    if e.Irq? {
      PassSettles(d, es, e.pass);
    }
  }

  // ------------------------------------------------------------------
  // Characters outside of command frames
  // ------------------------------------------------------------------

  /** The receive buffer after one more thing has happened; what is behind `a` is the account so far. */
  function RxAfter(a: Account, rx: seq<byte>, o: Observation): (s: seq<byte>)
    requires |rx| <= CAPACITY
    ensures |s| <= CAPACITY
  {
    match o
    case Char(r) => if a.open.None? && Clean(r) then Kept(rx, [r.c]) else rx
    case Release(_) => []
    case HandOut(_) => []
    case _ => rx
  }

  /** Clean characters that came while no command frame was open, since the line last went down or a frame was handed out. */
  function RxOf(h: seq<Observation>): (s: seq<byte>)
    ensures |s| <= CAPACITY
    decreases |h|
  {
    if h == [] then [] else RxAfter(AccountOf(h[..|h| - 1]), RxOf(h[..|h| - 1]), h[|h| - 1])
  }

  /** The frames that were waiting when a new one began, since one was last handed out or the mode was set. */
  function MissedIn(h: seq<Observation>): nat
    decreases |h|
  {
    if h == [] then 0
    else
      var init, o := h[..|h| - 1], h[|h| - 1];
      match o
      case Assert => MissedIn(init) + if AccountOf(init).pending.Some? then 1 else 0
      case HandOut(_) => 0
      case Restart => 0
      case _ => MissedIn(init)
  }

  lemma {:induction false} OneMoreThing(h: seq<Observation>, o: Observation)
    ensures AccountOf(h + [o]) == Observe(AccountOf(h), o)
    ensures RxOf(h + [o]) == RxAfter(AccountOf(h), RxOf(h), o)
    ensures MissedIn(h + [o]) == match o
      case Assert => MissedIn(h) + if AccountOf(h).pending.Some? then 1 else 0
      case HandOut(_) => 0
      case Restart => 0
      case _ => MissedIn(h)
  {
    var g := h + [o];
    assert g[..|g| - 1] == h && g[|g| - 1] == o;
  }

  /** The driver's buffer and counter are those of the history. */
  predicate Follows(d: Dev, h: seq<Observation>) {
    Keeps(d, AccountOf(h)) && d.rx == RxOf(h) && d.cmd.missedCount == MissedIn(h)
  }

  lemma {:induction false} BeforeFollows(d: Dev, h: seq<Observation>, p: Pass)
    requires Follows(d, h)
    ensures Follows(BeforeReceive(d, p.msr, p.now), h + LinesBefore(d, p))
  {
    BeforeKeeps(d, AccountOf(h), p);
    ObserveInTurn(NOTHING, h, LinesBefore(d, p));
    if Asserted(d, p.msr) {
      OneMoreThing(h, Assert);
    } else {
      assert h + [] == h;
    }
  }

  lemma {:induction false} CharFollows(d: Dev, h: seq<Observation>, r: Received)
    requires Follows(d, h)
    ensures Follows(ReceiveChar(d, r), h + [Char(r)])
  {
    CharKeeps(d, AccountOf(h), r);
    OneMoreThing(h, Char(r));
  }

  lemma {:induction false} CharsFollow(d: Dev, h: seq<Observation>, chars: seq<Received>)
    requires Follows(d, h)
    ensures Follows(ReceiveChars(d, chars), h + Chars(chars))
    decreases |chars|
  {
    if chars == [] {
      assert h + Chars(chars) == h;
    } else {
      var init, last := chars[..|chars| - 1], chars[|chars| - 1];
      CharsFollow(d, h, init);
      CharFollows(ReceiveChars(d, init), h + Chars(init), last);
      assert h + Chars(chars) == (h + Chars(init)) + [Char(last)];
    }
  }

  lemma {:induction false} AfterFollows(d: Dev, h: seq<Observation>, msr: Msr, now: nat)
    requires Follows(d, h)
    ensures Follows(AfterReceive(d, msr, now), h + if Released(d, msr) then [Release(now)] else [])
  {
    AfterKeeps(d, AccountOf(h), msr, now);
    if Released(d, msr) {
      OneMoreThing(h, Release(now));
    } else {
      assert h + [] == h;
    }
  }

  lemma {:induction false} PassFollows(d: Dev, h: seq<Observation>, p: Pass)
    requires Follows(d, h)
    ensures Follows(Interrupt(d, p), h + Seen(d, Irq(p)))
  {
    var b := BeforeReceive(d, p.msr, p.now);
    var r := ReceiveChars(b, p.chars);
    var hb := h + LinesBefore(d, p);
    var hr := hb + Chars(p.chars);
    BeforeFollows(d, h, p);
    CharsFollow(b, hb, p.chars);
    AfterFollows(r, hr, p.msr, p.now);
    SameLines(d, p);
    assert hr + LinesAfter(d, p) == h + Seen(d, Irq(p));
  }

  lemma {:induction false} StepFollows(d: Dev, h: seq<Observation>, e: Event)
    requires Follows(d, h)
    ensures Follows(Step(d, e), h + Seen(d, e))
  {
    match e
    case Irq(p) => PassFollows(d, h, p);
    case Get(now) =>
      GetKeeps(d, AccountOf(h), now);
      ObserveInTurn(NOTHING, h, GetSeen(d, now));
      if GetSeen(d, now) == [] {
        assert h + [] == h;
      } else {
        OneMoreThing(h, GetSeen(d, now)[0]);
        assert GetSeen(d, now) == [GetSeen(d, now)[0]];
      }
    case Switch(mode, line) =>
      SwitchKeeps(d, AccountOf(h), mode, line);
      OneMoreThing(h, Restart);
  }

  /**
   In every run the receive buffer holds the clean characters that came outside of
   command frames since it was last flushed, as far as there is room, and the
   counter is the number of frames that were superseded unread.
   */
  lemma {:induction false} RunFollows(d: Dev, es: seq<Event>)
    requires Opened(d)
    ensures RunDev(d, es).rx == RxOf(History(d, es)) && RunDev(d, es).cmd.missedCount == MissedIn(History(d, es))
    ensures Follows(RunDev(d, es), History(d, es))
    decreases |es|
  {
    if es != [] {
      var init := es[..|es| - 1];
      RunFollows(d, init);
      StepFollows(RunDev(d, init), History(d, init), es[|es| - 1]);
    }
  }

  /** What is returned with a frame: when it was complete, and how many were missed before it. */
  lemma {:induction false} FrameReturned(d: Dev, es: seq<Event>, now: nat, w: Whole)
    requires Opened(d) && Waiting(History(d, es), w) && now <= w.time + 10000
    ensures GetCommandFrame(RunDev(d, es), now).frame == Some(Frame(w.bytes[..4], w.time, MissedIn(History(d, es))))
    ensures GetCommandFrame(RunDev(d, es), now).dev.rx == []
  {
    RunFollows(d, es);
    WaitingMeans(History(d, es), w);
  }
}
