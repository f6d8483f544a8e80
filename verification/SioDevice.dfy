/** `struct atarisio_dev` and the functions that work on it, against the account of `SioCommand`. */
module SioDevice {
  import opened Bytes
  import opened SioChecksum
  import opened SioRing
  import opened SioCommand

  class AtariSioDev {
    var currentMode: Mode
    var sioserverCommandLine: Line
    var lastMsr: Msr
    var currentCmdframeSerialNumber: nat

    /** The nested structures `cmdframe_buf` and `serial_config`, updated field by field. */
    var cmdframeBuf: CmdFrameBuf
    var serialConfig: Baud

    const rxBuf: IoBuffer
    const txBuf: IoBuffer

    ghost predicate Valid()
      reads this`cmdframeBuf, rxBuf, txBuf
    {
      && |cmdframeBuf.buf| == 5 && cmdframeBuf.pos <= 5
      && rxBuf.Valid() && txBuf.Valid() && rxBuf != txBuf && rxBuf.buf != txBuf.buf
    }

    /** The state of the device as a value. */
    ghost function State(): (d: Dev)
      requires Valid()
      reads this, rxBuf, rxBuf.buf, txBuf, txBuf.buf
      ensures Sane(d)
    {
      Dev(currentMode, sioserverCommandLine, lastMsr, cmdframeBuf, serialConfig, currentCmdframeSerialNumber,
          rxBuf.Contents(), txBuf.Contents())
    }

    /** The device as it is when it has been opened, at some speed. */
    constructor (baud: Baud, msr: Msr)
      ensures Valid() && fresh(rxBuf) && fresh(txBuf) && fresh(rxBuf.buf) && fresh(txBuf.buf)
      ensures State().mode.Mode1050ToPc? && State().cmd == InitBuf(State().cmd) && State().rx == [] && State().tx == []
      ensures State().baud == baud && State().lastMsr == msr
    {
      currentMode, sioserverCommandLine, lastMsr, currentCmdframeSerialNumber := Mode1050ToPc, RI, msr, 0;
      cmdframeBuf := CmdFrameBuf(false, false, [0, 0, 0, 0, 0], 0, 0, 0, 0, 0, 0, 0, 0);
      serialConfig := baud;
      rxBuf := new IoBuffer();
      txBuf := new IoBuffer();
    }

    /** `reset_cmdframe_buf_data`. */
    method ResetCmdframeBufData()
      requires Valid()
      modifies this`cmdframeBuf
      ensures Valid() && cmdframeBuf == ResetData(old(cmdframeBuf))
    {
      cmdframeBuf := cmdframeBuf.(isValid := false, receiving := false, pos := 0);
      cmdframeBuf := cmdframeBuf.(okChars := 0, errorChars := 0, breakChars := 0);
      cmdframeBuf := cmdframeBuf.(startTime := 0, endTime := 0);
    }

    method CheckModemLinesBeforeReceive(newMsr: Msr, irqTimestamp: nat)
      requires Valid()
      modifies this`cmdframeBuf
      ensures Valid() && State() == BeforeReceive(old(State()), newMsr, irqTimestamp)
    {
      if currentMode == SioServer {
        if (sioserverCommandLine in newMsr.up) != (sioserverCommandLine in lastMsr.up) {
          if sioserverCommandLine in newMsr.up {
            if cmdframeBuf.isValid {
              cmdframeBuf := cmdframeBuf.(missedCount := cmdframeBuf.missedCount + 1);
            }
            ResetCmdframeBufData();
            cmdframeBuf := cmdframeBuf.(receiving := true, startTime := irqTimestamp, serialNumber := cmdframeBuf.serialNumber + 1);
          }
        }
      }
    }

    /** The body of the loop of `receive_chars`. */
    method ReceiveOne(r: Received)
      requires Valid()
      modifies this`cmdframeBuf, rxBuf, rxBuf.buf
      ensures Valid() && State() == ReceiveChar(old(State()), r)
    {
      if r.framing || r.parity || r.isBreak {
        CountErrors(r);
      } else if cmdframeBuf.receiving {
        StoreChar(r);
      } else {
        rxBuf.Put(r.c);
      }
    }

    method CountErrors(r: Received)
      requires Valid() && !Clean(r)
      modifies this`cmdframeBuf
      ensures Valid() && State() == ReceiveChar(old(State()), r)
    {
      if r.framing {
        if cmdframeBuf.receiving {
          cmdframeBuf := cmdframeBuf.(errorChars := cmdframeBuf.errorChars + 1);
        }
      }
      if r.parity {
        if cmdframeBuf.receiving {
          cmdframeBuf := cmdframeBuf.(errorChars := cmdframeBuf.errorChars + 1);
        }
      }
      if r.isBreak {
        if cmdframeBuf.receiving {
          cmdframeBuf := cmdframeBuf.(breakChars := cmdframeBuf.breakChars + 1);
        }
      }
    }

    /** Characters of a command frame; from the sixth on they are only counted. */
    method StoreChar(r: Received)
      requires Valid() && cmdframeBuf.receiving && Clean(r)
      modifies this`cmdframeBuf
      ensures Valid() && State() == ReceiveChar(old(State()), r)
    {
      if cmdframeBuf.pos < 5 {
        cmdframeBuf := cmdframeBuf.(buf := cmdframeBuf.buf[cmdframeBuf.pos := r.c]);
        cmdframeBuf := cmdframeBuf.(pos := cmdframeBuf.pos + 1);
      }
      cmdframeBuf := cmdframeBuf.(okChars := cmdframeBuf.okChars + 1);
    }

    method ReceiveCharacters(chars: seq<Received>)
      requires Valid()
      modifies this`cmdframeBuf, rxBuf, rxBuf.buf
      ensures Valid() && State() == ReceiveChars(old(State()), chars)
    {
      ghost var was := State();
      var i := 0;
      while i < |chars|
        invariant 0 <= i <= |chars| && Valid() && State() == ReceiveChars(was, chars[..i])
      {
        assert chars[..i + 1][..i] == chars[..i];
        ReceiveOne(chars[i]);
        i := i + 1;
      }
      assert chars[..i] == chars;
    }

    method CheckCommandFrameQuality() returns (q: Quality)
      requires Valid()
      ensures q == QualityOf(cmdframeBuf)
    {
      var b := cmdframeBuf;
      if !b.receiving {
        return MajorError;
      }
      if b.breakChars > 1 {
        return MajorError;
      }
      if b.okChars + b.errorChars + b.breakChars >= 7 {
        return MajorError;
      }
      if b.okChars + b.errorChars <= 3 {
        return MajorError;
      }
      if b.breakChars > 0 {
        return NormalError;
      }
      if b.okChars == 5 && b.errorChars == 0 {
        var frame := new byte[5](i requires 0 <= i < 5 => b.buf[i]);
        var checksum := CalculateChecksum(frame, 0, 4, 5);
        assert Around(frame[..], 0, 4) == b.buf[..4];
        return if b.buf[4] == checksum then FrameOk else MinorError;
      }
      if b.okChars == 4 && b.errorChars == 1 {
        return MinorError;
      }
      q := NormalError;
    }

    /** `try_switchbaud`, for speeds the UART can be set to. */
    method TrySwitchbaud()
      requires Valid()
      modifies this`serialConfig
      ensures Valid() && serialConfig == SwitchBaud(old(serialConfig))
    {
      var baud := serialConfig.rate;
      if serialConfig.auto {
        if baud == serialConfig.default {
          baud := serialConfig.highspeed;
        } else {
          baud := serialConfig.default;
        }
      }
      SetBaudrate(baud);
    }

    method SetBaudrate(baud: nat)
      requires Valid()
      modifies this`serialConfig
      ensures Valid()
      ensures serialConfig == var b := old(serialConfig); if baud == 0 || baud == b.rate then b else b.(rate := baud, justSwitched := true)
    {
      if baud != 0 && serialConfig.rate != baud {
        serialConfig := serialConfig.(rate := baud);
        serialConfig := serialConfig.(justSwitched := true);
      }
    }

    method ValidateCommandFrame() returns (ok: bool)
      requires Valid()
      modifies this`serialConfig
      ensures Valid() && ok == QualityOf(cmdframeBuf).FrameOk?
      ensures serialConfig == AfterFrame(old(serialConfig), QualityOf(cmdframeBuf))
    {
      var lastSwitchbaud := serialConfig.justSwitched;
      serialConfig := serialConfig.(justSwitched := false);
      var quality := CheckCommandFrameQuality();
      if quality == FrameOk {
        return true;
      }
      if quality == MinorError {
        return false;
      }
      if quality == NormalError && lastSwitchbaud {
        return false;
      }
      TrySwitchbaud();
      ok := false;
    }

    method CheckModemLinesAfterReceive(newMsr: Msr, irqTimestamp: nat)
      requires Valid()
      modifies this`cmdframeBuf, this`serialConfig, rxBuf, txBuf
      ensures Valid() && State() == AfterReceive(old(State()), newMsr, irqTimestamp)
    {
      if currentMode == SioServer && sioserverCommandLine in newMsr.changed && sioserverCommandLine !in newMsr.up {
        rxBuf.Flush(true);
        txBuf.Flush(false);
        var ok := ValidateCommandFrame();
        if ok {
          cmdframeBuf := cmdframeBuf.(isValid := true, endTime := irqTimestamp);
        } else {
          cmdframeBuf := cmdframeBuf.(isValid := false);
        }
        cmdframeBuf := cmdframeBuf.(receiving := false);
      }
    }

    method SendCharacters(transmitterReady: bool) returns (sent: seq<byte>)
      requires Valid()
      modifies txBuf`tail
      ensures Valid() && sent == Sent(old(State()), transmitterReady) && State() == SendChars(old(State()), transmitterReady)
    {
      sent := [];
      if transmitterReady {
        ghost var was := txBuf.Contents();
        var empty;
        sent, empty := txBuf.SendBurst();
        assert was[..|sent|] == sent && was[|sent|..] == txBuf.Contents();
      }
    }

    /** One pass of the loop of `atarisio_interrupt`. */
    method HandleInterrupt(p: Pass) returns (sent: seq<byte>)
      requires Valid()
      modifies this, rxBuf, rxBuf.buf, txBuf
      ensures Valid() && State() == Interrupt(old(State()), p) && sent == SentIn(old(State()), p)
    {
      CheckModemLinesBeforeReceive(p.msr, p.now);
      ReceiveCharacters(p.chars);
      CheckModemLinesAfterReceive(p.msr, p.now);
      sent := SendCharacters(p.transmitterReady);
      lastMsr := p.msr;
    }

    /** `check_command_frame_time`. */
    method CheckCommandFrameTime(now: nat) returns (tooOld: bool)
      requires Valid()
      ensures tooOld == TooOld(State(), now)
    {
      if currentMode != SioServer {
        return false;
      }
      tooOld := now > cmdframeBuf.endTime + 10000;
    }

    /** The critical section of `get_command_frame`. */
    method TakeCommandFrame(now: nat) returns (frame: Option<Frame>)
      requires Valid()
      modifies this, rxBuf, txBuf
      ensures Valid() && Got(State(), frame) == GetCommandFrame(old(State()), now)
    {
      if !cmdframeBuf.isValid {
        return None;
      }
      var tooOld := CheckCommandFrameTime(now);
      if tooOld {
        cmdframeBuf := cmdframeBuf.(isValid := false);
        return None;
      }
      frame := Some(Frame(cmdframeBuf.buf[..4], cmdframeBuf.endTime, cmdframeBuf.missedCount));
      HandOver();
    }

    /** The frame is taken: nothing of it, and nothing sent or received before, is left. */
    method HandOver()
      requires Valid()
      modifies this`cmdframeBuf, this`currentCmdframeSerialNumber, rxBuf, txBuf
      ensures Valid()
      ensures State() == old(State()).(currentSerial := old(cmdframeBuf.serialNumber),
        cmd := old(cmdframeBuf).(missedCount := 0, isValid := false), tx := [], rx := [])
    {
      cmdframeBuf := cmdframeBuf.(missedCount := 0);
      currentCmdframeSerialNumber := cmdframeBuf.serialNumber;
      cmdframeBuf := cmdframeBuf.(isValid := false);
      txBuf.Reset();
      rxBuf.Reset();
    }

    /** `set_1050_2_pc_mode` and `set_sioserver_mode`. */
    method SetDeviceMode(mode: Mode, commandLine: Line)
      requires Valid()
      modifies this
      ensures Valid() && State() == SetMode(old(State()), mode, commandLine)
    {
      currentMode := mode;
      if mode == SioServer {
        sioserverCommandLine := commandLine;
      } else {
        serialConfig := serialConfig.(auto := false);
      }
      SetBaudrate(serialConfig.default);
      ResetCmdframeBufData();
      cmdframeBuf := cmdframeBuf.(serialNumber := 0, missedCount := 0);
    }

    /** `check_new_command_frame`. */
    method CheckNewCommandFrame() returns (current: bool)
      requires Valid()
      ensures current == StillCurrent(State())
    {
      if currentMode != SioServer {
        return true;
      }
      current := cmdframeBuf.serialNumber == currentCmdframeSerialNumber;
    }
  }

  // ------------------------------------------------------------------
  // A frame from one device to another
  // ------------------------------------------------------------------

  /** Nothing happens on the modem lines. */
  function StillLines(d: Dev): Msr {
    d.lastMsr.(changed := {})
  }

  function CleanChars(s: seq<byte>): (r: seq<Received>)
    ensures |r| == |s|
  {
    seq(|s|, i requires 0 <= i < |s| => Received(s[i], false, false, false))
  }

  /** While no command frame is being received, clean characters go to the receive buffer. */
  lemma {:induction false} CleanCharsKept(d: Dev, s: seq<byte>)
    requires Sane(d) && !d.cmd.receiving
    ensures ReceiveChars(d, CleanChars(s)) == d.(rx := Kept(d.rx, s))
    decreases |s|
  {
    var chars := CleanChars(s);
    if s == [] {
      assert Kept(d.rx, s) == d.rx;
    } else {
      var init := s[..|s| - 1];
      assert chars[..|chars| - 1] == CleanChars(init);
      CleanCharsKept(d, init);
      KeptInTurn(d.rx, init, [s[|s| - 1]]);
      assert init + [s[|s| - 1]] == s;
    }
  }

  /** A pass without anything on the modem lines. */
  lemma {:induction false} StillPass(d: Dev, s: seq<byte>, ready: bool, now: nat)
    requires Sane(d) && !d.cmd.receiving
    ensures var p := Pass(StillLines(d), CleanChars(s), ready, now); var e := Interrupt(d, p);
      && SentIn(d, p) == Sent(d, ready) && e.rx == Kept(d.rx, s) && e.tx == d.tx[|Sent(d, ready)|..] && !e.cmd.receiving
  {
    CleanCharsKept(d, s);
  }

  /** Two devices that share nothing. */
  ghost predicate Apart(a: AtariSioDev, b: AtariSioDev)
    reads a.rxBuf, a.txBuf, b.rxBuf, b.txBuf
  {
    && a != b && {a.rxBuf, a.txBuf} !! {b.rxBuf, b.txBuf}
    && {a.rxBuf.buf, a.txBuf.buf} !! {b.rxBuf.buf, b.txBuf.buf}
  }

  method SendSide(a: AtariSioDev) returns (sent: seq<byte>)
    requires a.Valid() && !a.cmdframeBuf.receiving
    modifies a, a.rxBuf, a.rxBuf.buf, a.txBuf
    ensures a.Valid() && !a.cmdframeBuf.receiving && sent + a.txBuf.Contents() == old(a.txBuf.Contents())
    ensures old(a.txBuf.Contents()) != [] ==> sent != []
  {
    ghost var d := a.State();
    assert CleanChars([]) == [];
    StillPass(d, [], true, 0);
    sent := a.HandleInterrupt(Pass(a.lastMsr.(changed := {}), [], true, 0));
    assert a.txBuf.Contents() == a.State().tx;
  }

  method ReceiveSide(b: AtariSioDev, s: seq<byte>)
    requires b.Valid() && !b.cmdframeBuf.receiving
    modifies b, b.rxBuf, b.rxBuf.buf, b.txBuf
    ensures b.Valid() && !b.cmdframeBuf.receiving && b.rxBuf.Contents() == Kept(old(b.rxBuf.Contents()), s)
  {
    ghost var d := b.State();
    StillPass(d, s, false, 0);
    var none := b.HandleInterrupt(Pass(b.lastMsr.(changed := {}), CleanChars(s), false, 0));
    assert b.rxBuf.Contents() == b.State().rx;
  }

  /** One interrupt on either side: what the one sends, the other receives. */
  method Exchange(a: AtariSioDev, b: AtariSioDev, ghost frame: seq<byte>)
    requires a.Valid() && b.Valid() && Apart(a, b) && !a.cmdframeBuf.receiving && !b.cmdframeBuf.receiving
    requires b.rxBuf.Contents() + a.txBuf.Contents() == frame && |frame| <= CAPACITY
    modifies a, a.rxBuf, a.rxBuf.buf, a.txBuf, b, b.rxBuf, b.rxBuf.buf, b.txBuf
    ensures a.Valid() && b.Valid() && Apart(a, b) && !a.cmdframeBuf.receiving && !b.cmdframeBuf.receiving
    ensures b.rxBuf.Contents() + a.txBuf.Contents() == frame
    ensures old(a.txBuf.Contents()) != [] ==> |a.txBuf.Contents()| < |old(a.txBuf.Contents())|
  {
    ghost var got := b.rxBuf.Contents();
    var sent := SendSide(a);
    ghost var left := a.txBuf.Contents();
    assert got + (sent + left) == (got + sent) + left;
    ReceiveSide(b, sent);
  }

  /**
   A frame queued in one device, and drained by its interrupt handler into the
   interrupt handler of another whose receive buffer is empty, arrives byte for
   byte and with its checksum accepted.
   */
  method FrameCrosses(a: AtariSioDev, b: AtariSioDev, data: seq<byte>) returns (r: Reception)
    requires a.Valid() && b.Valid() && Apart(a, b) && !a.cmdframeBuf.receiving && !b.cmdframeBuf.receiving
    requires b.rxBuf.Contents() == []
    modifies a, a.rxBuf, a.rxBuf.buf, a.txBuf, a.txBuf.buf, b, b.rxBuf, b.rxBuf.buf, b.txBuf
    ensures r == if 0 < |data| < 8198 then Block(data) else InvalidLength
    ensures a.Valid() && b.Valid() && b.rxBuf.Contents() == []
  {
    var ok := a.txBuf.SetupSendFrame(data, true);
    if !ok {
      return InvalidLength;
    }
    ghost var frame := data + [Checksum(data)];
    assert [] + frame == frame;
    Drain(a, b, frame);
    r := Collect(b, data, |data|);
  }

  /** The receiver finds the data with its checksum. */
  method Collect(b: AtariSioDev, ghost data: seq<byte>, len: nat) returns (r: Reception)
    requires b.Valid() && 0 < len == |data| < MAX_SIO_DATA_LENGTH && b.rxBuf.Contents() == data + [Checksum(data)]
    modifies b.rxBuf`tail
    ensures r == Block(data) && b.Valid() && b.rxBuf.Contents() == []
  {
    Seam(data, [Checksum(data)]);
    r := b.rxBuf.ReceiveBlock(len, true);
  }

  /** Interrupts on both sides until everything is sent. */
  method Drain(a: AtariSioDev, b: AtariSioDev, ghost frame: seq<byte>)
    requires a.Valid() && b.Valid() && Apart(a, b) && !a.cmdframeBuf.receiving && !b.cmdframeBuf.receiving
    requires b.rxBuf.Contents() == [] && a.txBuf.Contents() == frame && |frame| <= CAPACITY
    modifies a, a.rxBuf, a.rxBuf.buf, a.txBuf, b, b.rxBuf, b.rxBuf.buf, b.txBuf
    ensures a.Valid() && b.Valid() && b.rxBuf.Contents() == frame
  {
    assert [] + frame == frame;
    var left := a.txBuf.Used();
    while left > 0
      invariant a.Valid() && b.Valid() && Apart(a, b) && !a.cmdframeBuf.receiving && !b.cmdframeBuf.receiving
      invariant b.rxBuf.Contents() + a.txBuf.Contents() == frame && left == |a.txBuf.Contents()|
    {
      Exchange(a, b, frame);
      left := a.txBuf.Used();
    }
  }
}
