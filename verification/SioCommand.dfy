/**
 The SIO server side of the driver: characters and modem lines come in through
 the interrupt handler, complete command frames go out through an ioctl.  One
 pass of the interrupt handler and one ioctl are atomic steps, since both run
 under the device lock.
 */
module SioCommand {
  import opened Bytes
  import opened SioChecksum
  import opened SioRing

  // ------------------------------------------------------------------
  // State
  // ------------------------------------------------------------------

  datatype Mode = Mode1050ToPc | SioServer

  datatype Line = RI | DSR | CTS

  /** The modem status register: lines that are up, and lines reported as changed. */
  datatype Msr = Msr(up: set<Line>, changed: set<Line>)

  /** A character with the error bits of the line status register. */
  datatype Received = Received(c: byte, framing: bool, parity: bool, isBreak: bool)

  predicate Clean(r: Received) {
    !r.framing && !r.parity && !r.isBreak
  }

  /** `cmdframe_buf`. */
  datatype CmdFrameBuf = CmdFrameBuf(
    isValid: bool, receiving: bool, buf: seq<byte>, pos: nat,
    okChars: nat, errorChars: nat, breakChars: nat,
    startTime: nat, endTime: nat, serialNumber: nat, missedCount: nat)

  /** The part of `serial_config` that automatic speed detection works on. */
  datatype Baud = Baud(rate: nat, default: nat, highspeed: nat, auto: bool, justSwitched: bool)

  datatype Dev = Dev(
    mode: Mode, commandLine: Line, lastMsr: Msr, cmd: CmdFrameBuf, baud: Baud,
    currentSerial: nat, rx: seq<byte>, tx: seq<byte>)

  predicate Sane(d: Dev) {
    |d.cmd.buf| == 5 && d.cmd.pos <= 5 && |d.rx| <= CAPACITY && |d.tx| <= CAPACITY
  }

  /** `reset_cmdframe_buf_data`. */
  function ResetData(b: CmdFrameBuf): CmdFrameBuf {
    b.(isValid := false, receiving := false, pos := 0, okChars := 0, errorChars := 0, breakChars := 0, startTime := 0, endTime := 0)
  }

  /** `init_cmdframe_buf`. */
  function InitBuf(b: CmdFrameBuf): CmdFrameBuf {
    ResetData(b).(serialNumber := 0, missedCount := 0)
  }

  // ------------------------------------------------------------------
  // The interrupt handler
  // ------------------------------------------------------------------

  /** The command line has come up since the last interrupt. */
  predicate Asserted(d: Dev, msr: Msr) {
    d.mode.SioServer? && d.commandLine in msr.up && d.commandLine !in d.lastMsr.up
  }

  /** The UART reports a change of the command line, and it is down. */
  predicate Released(d: Dev, msr: Msr) {
    d.mode.SioServer? && d.commandLine in msr.changed && d.commandLine !in msr.up
  }

  /** `check_modem_lines_before_receive`. */
  function BeforeReceive(d: Dev, msr: Msr, now: nat): Dev {
    if !Asserted(d, msr) then d
    else
      var b := if d.cmd.isValid then d.cmd.(missedCount := d.cmd.missedCount + 1) else d.cmd;
      d.(cmd := ResetData(b).(receiving := true, startTime := now, serialNumber := b.serialNumber + 1))
  }

  /** One turn of `receive_chars`. */
  function ReceiveChar(d: Dev, r: Received): (e: Dev)
    requires Sane(d)
    ensures Sane(e)
  {
    if !Clean(r) then
      if !d.cmd.receiving then d
      else d.(cmd := d.cmd.(
        errorChars := d.cmd.errorChars + (if r.framing then 1 else 0) + (if r.parity then 1 else 0),
        breakChars := d.cmd.breakChars + (if r.isBreak then 1 else 0)))
    else if d.cmd.receiving then
      var b := d.cmd.(okChars := d.cmd.okChars + 1);
      d.(cmd := if b.pos < 5 then b.(buf := b.buf[b.pos := r.c], pos := b.pos + 1) else b)
    else d.(rx := Kept(d.rx, [r.c]))
  }

  function ReceiveChars(d: Dev, chars: seq<Received>): (e: Dev)
    requires Sane(d)
    ensures Sane(e)
    decreases |chars|
  {
    if chars == [] then d else ReceiveChar(ReceiveChars(d, chars[..|chars| - 1]), chars[|chars| - 1])
  }

  datatype Quality = FrameOk | MinorError | NormalError | MajorError

  /** `check_command_frame_quality`. */
  function QualityOf(b: CmdFrameBuf): Quality
    requires |b.buf| == 5
  {
    if !b.receiving then MajorError
    else if b.breakChars > 1 then MajorError
    else if b.okChars + b.errorChars + b.breakChars >= 7 then MajorError
    else if b.okChars + b.errorChars <= 3 then MajorError
    else if b.breakChars > 0 then NormalError
    else if b.okChars == 5 && b.errorChars == 0 then
      if b.buf[4] == Checksum(b.buf[..4]) then FrameOk else MinorError
    else if b.okChars == 4 && b.errorChars == 1 then MinorError
    else NormalError
  }

  /** `try_switchbaud`. */
  function SwitchBaud(b: Baud): Baud {
    var rate := if !b.auto then b.rate else if b.rate == b.default then b.highspeed else b.default;
    if rate == 0 || rate == b.rate then b else b.(rate := rate, justSwitched := true)
  }

  /** What `validate_command_frame` does about the speed. */
  function AfterFrame(b: Baud, q: Quality): Baud {
    var c := b.(justSwitched := false);
    match q
    case FrameOk => c
    case MinorError => c
    case NormalError => if b.justSwitched then c else SwitchBaud(c)
    case MajorError => SwitchBaud(c)
  }

  /** `check_modem_lines_after_receive`. */
  function AfterReceive(d: Dev, msr: Msr, now: nat): (e: Dev)
    requires Sane(d)
    ensures Sane(e)
  {
    if !Released(d, msr) then d
    else
      var q := QualityOf(d.cmd);
      var b := d.cmd.(receiving := false, isValid := q.FrameOk?);
      d.(rx := [], tx := [], baud := AfterFrame(d.baud, q), cmd := if q.FrameOk? then b.(endTime := now) else b)
  }

  /** `send_chars`: with the transmitter ready, up to 16 characters go out. */
  function Sent(d: Dev, ready: bool): seq<byte> {
    if !ready then [] else if |d.tx| < 16 then d.tx else d.tx[..16]
  }

  function SendChars(d: Dev, ready: bool): (e: Dev)
    requires Sane(d)
    ensures Sane(e)
  {
    d.(tx := d.tx[|Sent(d, ready)|..])
  }

  /** What the interrupt handler finds in the UART in one pass. */
  datatype Pass = Pass(msr: Msr, chars: seq<Received>, transmitterReady: bool, now: nat)

  /** A pass up to where the transmitter is served. */
  function ReceiverServed(d: Dev, p: Pass): (e: Dev)
    requires Sane(d)
    ensures Sane(e)
  {
    AfterReceive(ReceiveChars(BeforeReceive(d, p.msr, p.now), p.chars), p.msr, p.now)
  }

  /** One pass of `atarisio_interrupt`. */
  function Interrupt(d: Dev, p: Pass): (e: Dev)
    requires Sane(d)
    ensures Sane(e)
  {
    SendChars(ReceiverServed(d, p), p.transmitterReady).(lastMsr := p.msr)
  }

  /** The bytes the pass hands to the transmitter. */
  function SentIn(d: Dev, p: Pass): seq<byte>
    requires Sane(d)
  {
    Sent(ReceiverServed(d, p), p.transmitterReady)
  }

  // ------------------------------------------------------------------
  // The ioctls
  // ------------------------------------------------------------------

  /** A command frame as the ioctl returns it: device, command and two parameters. */
  datatype Frame = Frame(bytes: seq<byte>, timestamp: nat, missedCount: nat)

  const MAX_FRAME_AGE := 10000

  /** `check_command_frame_time`. */
  predicate TooOld(d: Dev, now: nat) {
    d.mode.SioServer? && now > d.cmd.endTime + MAX_FRAME_AGE
  }

  datatype Got = Got(dev: Dev, frame: Option<Frame>)

  /** The critical section of `get_command_frame`. */
  function GetCommandFrame(d: Dev, now: nat): (g: Got)
    requires Sane(d)
    ensures Sane(g.dev)
  {
    if !d.cmd.isValid then Got(d, None)
    else if TooOld(d, now) then Got(d.(cmd := d.cmd.(isValid := false)), None)
    else
      Got(d.(currentSerial := d.cmd.serialNumber, cmd := d.cmd.(missedCount := 0, isValid := false), tx := [], rx := []),
          Some(Frame(d.cmd.buf[..4], d.cmd.endTime, d.cmd.missedCount)))
  }

  /** `set_1050_2_pc_mode` and `set_sioserver_mode`: the default speed again, and an empty frame buffer. */
  function SetMode(d: Dev, mode: Mode, line: Line): (e: Dev)
    requires Sane(d)
    ensures Sane(e)
  {
    var b := if mode.Mode1050ToPc? then d.baud.(auto := false) else d.baud;
    var c := if b.default == 0 || b.default == b.rate then b else b.(rate := b.default, justSwitched := true);
    d.(mode := mode, commandLine := if mode.SioServer? then line else d.commandLine, baud := c, cmd := InitBuf(d.cmd))
  }

  /** `check_new_command_frame`: whether the frame last handed out is still the latest. */
  predicate StillCurrent(d: Dev) {
    !d.mode.SioServer? || d.cmd.serialNumber == d.currentSerial
  }

  // ------------------------------------------------------------------
  // A simple account of what goes on
  // ------------------------------------------------------------------

  datatype Observation =
    | Assert
    | Char(r: Received)
    | Release(now: nat)
    | Restart
    | HandOut(frame: seq<byte>)
    | Expire

  /**
   All characters since the command line came up, as long as it is up; the frame
   that waits to be handed out; how often the line came up; and how often it had
   come up when a frame was last handed out.
   */
  datatype Account = Account(open: Option<seq<Received>>, pending: Option<Whole>, asserts: nat, handed: Option<nat>)

  /** A frame with its checksum, and when it was complete. */
  datatype Whole = Whole(bytes: seq<byte>, time: nat)

  function BytesOf(chars: seq<Received>): (s: seq<byte>)
    ensures |s| == |chars| && forall i :: 0 <= i < |s| ==> s[i] == chars[i].c
  {
    seq(|chars|, i requires 0 <= i < |chars| => chars[i].c)
  }

  /** Five clean characters, the last of them the checksum of the others. */
  predicate IsFrame(chars: seq<Received>) {
    && |chars| == 5 && (forall i :: 0 <= i < 5 ==> Clean(chars[i]))
    && chars[4].c == Checksum(BytesOf(chars)[..4])
  }

  function Observe(a: Account, o: Observation): Account {
    match o
    case Assert => Account(Some([]), None, a.asserts + 1, a.handed)
    case Char(r) => if a.open.Some? then a.(open := Some(a.open.value + [r])) else a
    case Release(now) =>
      a.(open := None,
         pending := if a.open.Some? && IsFrame(a.open.value) then Some(Whole(BytesOf(a.open.value), now)) else None)
    case Restart => Account(None, None, 0, None)
    case HandOut(_) => a.(pending := None, handed := Some(a.asserts))
    case Expire => a.(pending := None)
  }

  function ObserveAll(a: Account, h: seq<Observation>): Account
    decreases |h|
  {
    if h == [] then a else Observe(ObserveAll(a, h[..|h| - 1]), h[|h| - 1])
  }

  lemma {:induction false} ObserveInTurn(a: Account, g: seq<Observation>, h: seq<Observation>)
    ensures ObserveAll(a, g + h) == ObserveAll(ObserveAll(a, g), h)
    decreases |h|
  {
    if h == [] {
      assert g + h == g;
    } else {
      var init, last := h[..|h| - 1], h[|h| - 1];
      assert (g + h)[..|g + h| - 1] == g + init;
      ObserveInTurn(a, g, init);
    }
  }
}
