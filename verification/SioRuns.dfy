/** Command frames over whole runs of the driver: which are handed out, and which are not. */
module SioRuns {
  import opened Bytes
  import opened SioChecksum
  import opened SioRing
  import opened SioCommand
  import opened SioSafety

  // ------------------------------------------------------------------
  // Runs
  // ------------------------------------------------------------------

  /** The state after the device has been opened; the rest of the configuration is arbitrary. */
  predicate Opened(d: Dev) {
    d.mode.Mode1050ToPc? && |d.cmd.buf| == 5 && d.cmd == InitBuf(d.cmd) && d.rx == [] && d.tx == []
  }

  function RunDev(d: Dev, es: seq<Event>): (r: Dev)
    requires Sane(d)
    ensures Sane(r)
    decreases |es|
  {
    if es == [] then d else Step(RunDev(d, es[..|es| - 1]), es[|es| - 1])
  }

  /** Everything that happens in a run. */
  function History(d: Dev, es: seq<Event>): seq<Observation>
    requires Sane(d)
    decreases |es|
  {
    if es == [] then []
    else History(d, es[..|es| - 1]) + Seen(RunDev(d, es[..|es| - 1]), es[|es| - 1])
  }

  const NOTHING := Account(None, None, 0, None)

  function AccountOf(h: seq<Observation>): Account {
    ObserveAll(NOTHING, h)
  }

  lemma {:induction false} RunKeeps(d: Dev, es: seq<Event>)
    requires Opened(d)
    ensures Keeps(RunDev(d, es), AccountOf(History(d, es)))
    decreases |es|
  {
    if es != [] {
      var init := es[..|es| - 1];
      RunKeeps(d, init);
      StepKeeps(RunDev(d, init), AccountOf(History(d, init)), es[|es| - 1]);
      ObserveInTurn(NOTHING, History(d, init), Seen(RunDev(d, init), es[|es| - 1]));
    }
  }

  // ------------------------------------------------------------------
  // What the account says about the history
  // ------------------------------------------------------------------

  /** The characters among what happened. */
  function CharsIn(h: seq<Observation>): seq<Received> {
    if h == [] then []
    else
      var init, o := h[..|h| - 1], h[|h| - 1];
      if o.Char? then CharsIn(init) + [o.r] else CharsIn(init)
  }

  predicate IsEdge(o: Observation) {
    o.Assert? || o.Release? || o.Restart?
  }

  /** The command line stays as it is from `a` up to `b`. */
  predicate Undisturbed(h: seq<Observation>, a: nat, b: nat)
    requires a <= b <= |h|
  {
    forall k :: a <= k < b ==> !IsEdge(h[k])
  }

  /** Nothing but characters from `a` up to `b`. */
  predicate Quiet(h: seq<Observation>, a: nat, b: nat)
    requires a <= b <= |h|
  {
    forall k :: a <= k < b ==> h[k].Char?
  }

  /** The command line came up at `i` and has not changed since. */
  predicate OpenSince(h: seq<Observation>, i: nat) {
    i < |h| && h[i].Assert? && Undisturbed(h, i + 1, |h|)
  }

  /**
   Between the command line coming up at `i` and going down at `j` came the five
   clean characters of a frame, and nothing else.
   */
  predicate Captured(h: seq<Observation>, i: nat, j: nat, w: Whole) {
    && i < j < |h| && h[i].Assert? && h[j] == Release(w.time) && Undisturbed(h, i + 1, j)
    && IsFrame(CharsIn(h[i + 1..j])) && w.bytes == BytesOf(CharsIn(h[i + 1..j]))
  }

  ghost predicate Waiting(h: seq<Observation>, w: Whole) {
    exists i: nat, j: nat :: Captured(h, i, j, w) && Quiet(h, j + 1, |h|)
  }

  lemma {:induction false} OpenStep(h: seq<Observation>, o: Observation, i: nat)
    ensures OpenSince(h + [o], i) <==> (i == |h| && o.Assert?) || (i < |h| && OpenSince(h, i) && !IsEdge(o))
  {
    var g := h + [o];
    if i < |h| && OpenSince(g, i) {
      assert !IsEdge(g[|h|]);
      forall k | i + 1 <= k < |h|
        ensures !IsEdge(h[k])
      {
        assert g[k] == h[k];
      }
    }
  }

  /** What has been received since the command line came up. */
  lemma {:induction false} OpenMeans(h: seq<Observation>, i: nat)
    requires OpenSince(h, i)
    ensures AccountOf(h).open == Some(CharsIn(h[i + 1..]))
    decreases |h|
  {
    var init, o := h[..|h| - 1], h[|h| - 1];
    assert h == init + [o];
    OpenStep(init, o, i);
    assert AccountOf(h) == Observe(AccountOf(init), o);
    var t := h[i + 1..];
    if i < |init| {
      OpenMeans(init, i);
      assert t[..|t| - 1] == init[i + 1..] && t[|t| - 1] == o;
    } else {
      assert t == [];
    }
  }

  lemma {:induction false} OpenHasStart(h: seq<Observation>) returns (i: nat)
    requires AccountOf(h).open.Some?
    ensures OpenSince(h, i)
    decreases |h|
  {
    var init, o := h[..|h| - 1], h[|h| - 1];
    assert h == init + [o];
    if o.Assert? {
      i := |init|;
    } else {
      i := OpenHasStart(init);
    }
    OpenStep(init, o, i);
  }

  lemma {:induction false} CapturedStep(h: seq<Observation>, o: Observation, i: nat, j: nat, w: Whole)
    requires j < |h|
    ensures Captured(h + [o], i, j, w) <==> Captured(h, i, j, w)
  {
    var g := h + [o];
    if i < j {
      assert g[i + 1..j] == h[i + 1..j];
      assert forall k :: i + 1 <= k < j ==> g[k] == h[k];
    }
  }

  /** A release after five good characters. */
  lemma {:induction false} CapturedNow(h: seq<Observation>, now: nat, i: nat, w: Whole)
    requires OpenSince(h, i) && IsFrame(CharsIn(h[i + 1..])) && w == Whole(BytesOf(CharsIn(h[i + 1..])), now)
    ensures Captured(h + [Release(now)], i, |h|, w)
  {
    var g := h + [Release(now)];
    assert g[i + 1..|h|] == h[i + 1..];
    assert forall k :: i + 1 <= k < |h| ==> g[k] == h[k];
  }

  lemma {:induction false} PendingIsWaiting(h: seq<Observation>)
    requires AccountOf(h).pending.Some?
    ensures Waiting(h, AccountOf(h).pending.value)
    decreases |h|
  {
    var init, o := h[..|h| - 1], h[|h| - 1];
    var w := AccountOf(h).pending.value;
    assert h == init + [o];
    if o.Release? {
      var i := OpenHasStart(init);
      OpenMeans(init, i);
      CapturedNow(init, o.now, i, w);
      assert Quiet(h, |init| + 1, |h|);
    } else {
      PendingIsWaiting(init);
      var i: nat, j: nat :| Captured(init, i, j, w) && Quiet(init, j + 1, |init|);
      CapturedStep(init, o, i, j, w);
      assert Quiet(h, j + 1, |h|);
    }
  }

  lemma {:induction false} WaitingIsPending(h: seq<Observation>, i: nat, j: nat, w: Whole)
    requires Captured(h, i, j, w) && Quiet(h, j + 1, |h|)
    ensures AccountOf(h).pending == Some(w)
    decreases |h|
  {
    var init, o := h[..|h| - 1], h[|h| - 1];
    assert h == init + [o];
    if j == |init| {
      assert init[i + 1..] == h[i + 1..j];
      assert OpenSince(init, i) by {
        assert forall k :: i + 1 <= k < j ==> h[k] == init[k];
      }
      OpenMeans(init, i);
    } else {
      CapturedStep(init, o, i, j, w);
      assert o.Char?;
      assert Quiet(init, j + 1, |init|) by {
        assert forall k :: j + 1 <= k < |init| ==> h[k] == init[k];
      }
      WaitingIsPending(init, i, j, w);
    }
  }

  // ------------------------------------------------------------------
  // Safety and liveness
  // ------------------------------------------------------------------

  /** What was handed out at `k` was captured before, and nothing but characters has come since. */
  ghost predicate Justified(h: seq<Observation>, k: nat) {
    && k < |h| && h[k].HandOut?
    && exists i: nat, j: nat, w :: Captured(h, i, j, w) && j < k && Quiet(h, j + 1, k) && h[k].frame == w.bytes[..4]
  }

  /** More history does not unsay what was. */
  lemma {:induction false} CapturedLater(h: seq<Observation>, g: seq<Observation>, i: nat, j: nat, w: Whole)
    requires j < |h|
    ensures Captured(h + g, i, j, w) <==> Captured(h, i, j, w)
    decreases |g|
  {
    if g == [] {
      assert h + g == h;
    } else {
      var init := g[..|g| - 1];
      CapturedLater(h, init, i, j, w);
      CapturedStep(h + init, g[|g| - 1], i, j, w);
      assert (h + init) + [g[|g| - 1]] == h + g;
    }
  }

  lemma {:induction false} JustifiedLater(h: seq<Observation>, g: seq<Observation>, k: nat)
    requires Justified(h, k)
    ensures Justified(h + g, k)
  {
    var i: nat, j: nat, w :| Captured(h, i, j, w) && j < k && Quiet(h, j + 1, k) && h[k].frame == w.bytes[..4];
    CapturedLater(h, g, i, j, w);
    assert Quiet(h + g, j + 1, k) by {
      assert forall m :: j + 1 <= m < k ==> (h + g)[m] == h[m];
    }
  }

  lemma {:induction false} HandOutNow(d: Dev, h: seq<Observation>, now: nat)
    requires Keeps(d, AccountOf(h)) && d.cmd.isValid && !TooOld(d, now)
    ensures Justified(h + [HandOut(d.cmd.buf[..4])], |h|)
  {
    var o := HandOut(d.cmd.buf[..4]);
    PendingIsWaiting(h);
    var w := AccountOf(h).pending.value;
    var i: nat, j: nat :| Captured(h, i, j, w) && Quiet(h, j + 1, |h|);
    CapturedStep(h, o, i, j, w);
    assert Quiet(h + [o], j + 1, |h|) by {
      assert forall m :: j + 1 <= m < |h| ==> (h + [o])[m] == h[m];
    }
  }

  /** Only the ioctl hands frames out. */
  lemma {:induction false} WhereHandOuts(d: Dev, e: Event, m: nat)
    requires Sane(d) && m < |Seen(d, e)| && Seen(d, e)[m].HandOut?
    ensures e.Get? && Seen(d, e) == [HandOut(d.cmd.buf[..4])] && d.cmd.isValid && !TooOld(d, e.now)
  {
  }

  /**
   Over every run: a frame that is handed out is exactly the five clean characters,
   in order, that came between the command line coming up and going down, with a
   correct checksum; and since then the line has not changed and no frame was
   handed out.
   */
  lemma {:induction false} HandOutsAreJustified(d: Dev, es: seq<Event>, k: nat)
    requires Opened(d) && k < |History(d, es)| && History(d, es)[k].HandOut?
    ensures Justified(History(d, es), k)
    decreases |es|
  {
    var init, e := es[..|es| - 1], es[|es| - 1];
    var r, h := RunDev(d, init), History(d, init);
    if k < |h| {
      HandOutsAreJustified(d, init, k);
      JustifiedLater(h, Seen(r, e), k);
    } else {
      RunKeeps(d, init);
      NewestIsJustified(r, h, e, k - |h|);
    }
  }

  lemma {:induction false} NewestIsJustified(r: Dev, h: seq<Observation>, e: Event, i: nat)
    requires Sane(r) && Keeps(r, AccountOf(h)) && i < |Seen(r, e)| && Seen(r, e)[i].HandOut?
    ensures Justified(h + Seen(r, e), |h| + i)
  {
    WhereHandOuts(r, e, i);
    HandOutNow(r, h, e.now);
  }

  lemma {:induction false} OpenAt(h: seq<Observation>, k: nat, i: nat, j: nat, w: Whole)
    requires i < k < j && Captured(h, i, j, w)
    ensures OpenSince(h[..k], i)
  {
    assert h[..k][i] == h[i];
    assert forall m :: i + 1 <= m < k ==> h[..k][m] == h[m];
  }

  /** A capture that ended after `k` began after `k`, if the command line was down at `k`. */
  lemma {:induction false} BeginsLater(h: seq<Observation>, k: nat, i: nat, j: nat, w: Whole)
    requires k < j && Captured(h, i, j, w) && h[k].HandOut?
    requires forall m: nat :: !OpenSince(h[..k], m)
    ensures k < i
  {
    if i < k {
      OpenAt(h, k, i, j, w);
    }
  }

  /** No frame is handed out twice: the second one's line came up and went down after the first was handed out. */
  lemma {:induction false} HandedOutOnce(d: Dev, es: seq<Event>, k: nat, l: nat) returns (i: nat, j: nat, w: Whole)
    requires Opened(d) && k < l < |History(d, es)|
    requires History(d, es)[k].HandOut? && History(d, es)[l].HandOut?
    ensures k < i && j < l && Captured(History(d, es), i, j, w) && History(d, es)[l].frame == w.bytes[..4]
  {
    var h := History(d, es);
    HandOutsAreJustified(d, es, l);
    i, j, w :| Captured(h, i, j, w) && j < l && Quiet(h, j + 1, l) && h[l].frame == w.bytes[..4];
    ClosedAtHandOut(d, es, k);
    AfterQuiet(h, j, l, k);
    BeginsLater(h, k, i, j, w);
  }

  lemma {:induction false} AfterQuiet(h: seq<Observation>, j: nat, l: nat, k: nat)
    requires j < l <= |h| && k < l && Quiet(h, j + 1, l) && h[k].HandOut? && h[j].Release?
    ensures k < j
  {
  }

  /** While the command line is up there is nothing to hand out. */
  lemma {:induction false} ClosedAtHandOut(d: Dev, es: seq<Event>, k: nat)
    requires Opened(d) && k < |History(d, es)| && History(d, es)[k].HandOut?
    ensures forall i: nat :: !OpenSince(History(d, es)[..k], i)
    decreases |es|
  {
    var init, e := es[..|es| - 1], es[|es| - 1];
    var r, h := RunDev(d, init), History(d, init);
    if k < |h| {
      ClosedAtHandOut(d, init, k);
      assert History(d, es)[..k] == h[..k];
    } else {
      RunKeeps(d, init);
      assert History(d, es)[k] == Seen(r, e)[k - |h|];
      WhereHandOuts(r, e, k - |h|);
      assert History(d, es)[..k] == h;
      NotOpen(h);
    }
  }

  lemma {:induction false} NotOpen(h: seq<Observation>)
    requires AccountOf(h).open.None?
    ensures forall i: nat :: !OpenSince(h, i)
  {
    forall i: nat | OpenSince(h, i)
      ensures false
    {
      OpenMeans(h, i);
    }
  }

  /** At most one frame waits, and the account knows it. */
  lemma {:induction false} WaitingMeans(h: seq<Observation>, w: Whole)
    ensures Waiting(h, w) <==> AccountOf(h).pending == Some(w)
  {
    if Waiting(h, w) {
      var i: nat, j: nat :| Captured(h, i, j, w) && Quiet(h, j + 1, |h|);
      WaitingIsPending(h, i, j, w);
    }
    if AccountOf(h).pending.Some? {
      PendingIsWaiting(h);
    }
  }

  /** Some frame waits, and it is young enough. */
  ghost predicate ReadyAt(h: seq<Observation>, now: nat) {
    exists w :: Waiting(h, w) && now <= w.time + 10000
  }

  lemma {:induction false} GetMeans(r: Dev, h: seq<Observation>, now: nat)
    requires Keeps(r, AccountOf(h))
    ensures var p, g := AccountOf(h).pending, GetCommandFrame(r, now);
      && (g.frame.Some? <==> p.Some? && now <= p.value.time + MAX_FRAME_AGE)
      && (g.frame.Some? ==> g.frame.value.bytes == p.value.bytes[..4] && g.frame.value.timestamp == p.value.time)
  {
  }

  /**
   Asking for a frame succeeds exactly when one was captured, nothing but
   characters has come since, and it is at most ten milliseconds old; and then
   it is that frame that is returned.
   */
  lemma {:induction false} GetSucceedsIff(d: Dev, es: seq<Event>, now: nat)
    requires Opened(d)
    ensures var h, g := History(d, es), GetCommandFrame(RunDev(d, es), now);
      && (g.frame.Some? <==> ReadyAt(h, now))
      && (g.frame.Some? ==> exists w :: Waiting(h, w) && g.frame.value.bytes == w.bytes[..4] && g.frame.value.timestamp == w.time)
  {
    var r, h := RunDev(d, es), History(d, es);
    RunKeeps(d, es);
    GetMeans(r, h, now);
    if AccountOf(h).pending.Some? {
      WaitingMeans(h, AccountOf(h).pending.value);
    }
    forall w | Waiting(h, w)
      ensures AccountOf(h).pending == Some(w)
    {
      WaitingMeans(h, w);
    }
  }

  // ------------------------------------------------------------------
  // Answers to frames that are no longer current
  // ------------------------------------------------------------------

  /** The last frame was handed out at `k`. */
  predicate LastHandOut(h: seq<Observation>, k: nat) {
    k < |h| && h[k].HandOut? && forall m :: k < m < |h| ==> !h[m].HandOut?
  }

  /** The command line has come up between `a` and `b`. */
  predicate AssertedIn(h: seq<Observation>, a: nat, b: nat)
    requires a <= b <= |h|
  {
    exists m :: a <= m < b && h[m].Assert?
  }

  /** How often the command line came up, counted anew whenever the mode is set. */
  function NumberAt(h: seq<Observation>): nat {
    AccountOf(h).asserts
  }

  lemma {:induction false} NumberStep(h: seq<Observation>, o: Observation)
    ensures NumberAt(h + [o]) == if o.Assert? then NumberAt(h) + 1 else if o.Restart? then 0 else NumberAt(h)
  {
    assert (h + [o])[..|h + [o]| - 1] == h;
  }

  lemma {:induction false} OneEventMore(d: Dev, es: seq<Event>, e: Event)
    requires Sane(d)
    ensures RunDev(d, es + [e]) == Step(RunDev(d, es), e)
    ensures History(d, es + [e]) == History(d, es) + Seen(RunDev(d, es), e)
  {
    var all := es + [e];
    assert all[..|all| - 1] == es;
  }

  // ------------------------------------------------------------------
  // The number of the frame handed out
  // ------------------------------------------------------------------

  lemma {:induction false} CharsSameSerial(d: Dev, chars: seq<Received>)
    requires Sane(d)
    ensures ReceiveChars(d, chars).currentSerial == d.currentSerial
    decreases |chars|
  {
    if chars != [] {
      CharsSameSerial(d, chars[..|chars| - 1]);
    }
  }

  /** Only handing out a frame changes the number that answers are compared with. */
  lemma {:induction false} SameSerial(d: Dev, e: Event)
    requires Sane(d) && forall m :: 0 <= m < |Seen(d, e)| ==> !Seen(d, e)[m].HandOut?
    ensures Step(d, e).currentSerial == d.currentSerial
  {
    match e
    case Irq(p) => CharsSameSerial(BeforeReceive(d, p.msr, p.now), p.chars);
    case Get(_) =>
      if Seen(d, e) != [] {
        assert !Seen(d, e)[0].HandOut?;
      }
    case Switch(_, _) =>
  }

  lemma {:induction false} WaitingIsNumbered(h: seq<Observation>)
    ensures AccountOf(h).open.Some? || AccountOf(h).pending.Some? ==> NumberAt(h) > 0
  {
    if h != [] {
      WaitingIsNumbered(h[..|h| - 1]);
    }
  }

  /** The number answers are compared with is that of the frame handed out last, which is not 0. */
  lemma {:induction false} SerialOfHandOut(d: Dev, es: seq<Event>, k: nat)
    requires Opened(d) && LastHandOut(History(d, es), k)
    ensures RunDev(d, es).currentSerial == NumberAt(History(d, es)[..k]) > 0
    decreases |es|
  {
    var init, e := es[..|es| - 1], es[|es| - 1];
    var r, h := RunDev(d, init), History(d, init);
    if k < |h| {
      LastBefore(h, Seen(r, e), k);
      SameSerial(r, e);
      SerialOfHandOut(d, init, k);
    } else {
      TakenNow(d, init, e, k);
    }
  }

  lemma {:induction false} TakenNow(d: Dev, es: seq<Event>, e: Event, k: nat)
    requires Opened(d)
    requires var h := History(d, es); var g := h + Seen(RunDev(d, es), e); |h| <= k < |g| && g[k].HandOut?
    ensures var h := History(d, es); var g := h + Seen(RunDev(d, es), e);
      Step(RunDev(d, es), e).currentSerial == NumberAt(h) > 0 && g[..k] == h
  {
    var r, h := RunDev(d, es), History(d, es);
    assert Seen(r, e)[k - |h|].HandOut?;
    WhereHandOuts(r, e, k - |h|);
    RunKeeps(d, es);
    WaitingIsNumbered(h);
    assert (h + Seen(r, e))[..k] == h;
  }

  lemma {:induction false} LastBefore(h: seq<Observation>, g: seq<Observation>, k: nat)
    requires LastHandOut(h + g, k) && k < |h|
    ensures LastHandOut(h, k) && (h + g)[..k] == h[..k]
    ensures forall m :: 0 <= m < |g| ==> !g[m].HandOut?
  {
    assert (h + g)[k] == h[k];
    forall m | 0 <= m < |g|
      ensures !g[m].HandOut?
    {
      assert g[m] == (h + g)[|h| + m];
    }
    forall m | k < m < |h|
      ensures !h[m].HandOut?
    {
      assert (h + g)[m] == h[m];
    }
  }

  /**
   In every run, `check_new_command_frame` lets an answer through exactly when the
   command line has come up as often since the mode was last set as it had when
   the frame was handed out.
   */
  lemma {:induction false} LetThroughIff(d: Dev, es: seq<Event>, k: nat)
    requires Opened(d) && LastHandOut(History(d, es), k) && RunDev(d, es).mode.SioServer?
    ensures StillCurrent(RunDev(d, es)) <==> NumberAt(History(d, es)) == NumberAt(History(d, es)[..k])
  {
    RunKeeps(d, es);
    SerialOfHandOut(d, es, k);
  }

  // ------------------------------------------------------------------
  // What the numbers say
  // ------------------------------------------------------------------

  predicate NoRestart(h: seq<Observation>, a: nat) {
    forall m :: a <= m < |h| ==> !h[m].Restart?
  }

  /** As long as the mode is not set, the number grows exactly when the line comes up. */
  lemma {:induction false} NumberGrows(h: seq<Observation>, a: nat)
    requires a <= |h| && NoRestart(h, a)
    ensures NumberAt(h) >= NumberAt(h[..a]) && (NumberAt(h) == NumberAt(h[..a]) <==> !AssertedIn(h, a, |h|))
    decreases |h|
  {
    if a == |h| {
      assert h[..a] == h;
    } else {
      var init, o := h[..|h| - 1], h[|h| - 1];
      assert h == init + [o] && init[..a] == h[..a];
      assert forall m :: a <= m < |init| ==> init[m] == h[m];
      NumberGrows(init, a);
      NumberStep(init, o);
      AssertedStep(init, o, a);
    }
  }

  lemma {:induction false} AssertedStep(h: seq<Observation>, o: Observation, a: nat)
    requires a <= |h|
    ensures AssertedIn(h + [o], a, |h| + 1) <==> AssertedIn(h, a, |h|) || o.Assert?
  {
    var g := h + [o];
    if AssertedIn(g, a, |g|) {
      var m :| a <= m < |g| && g[m].Assert?;
      if m < |h| {
        assert h[m].Assert?;
      }
    }
    if AssertedIn(h, a, |h|) {
      var m :| a <= m < |h| && h[m].Assert?;
      assert g[m].Assert?;
    }
    assert g[|h|] == o;
  }

  /** The frame handed out at `k` is still the latest one. */
  predicate StillLatest(h: seq<Observation>, k: nat)
    requires k < |h|
  {
    !AssertedIn(h, k + 1, |h|)
  }

  lemma {:induction false} NumberAfterHandOut(h: seq<Observation>, k: nat)
    requires k < |h| && h[k].HandOut?
    ensures NumberAt(h[..k + 1]) == NumberAt(h[..k])
  {
    assert h[..k + 1] == h[..k] + [h[k]];
    NumberStep(h[..k], h[k]);
  }

  /** While the mode is not set, answers to the latest frame are let through, and no others. */
  lemma {:induction false} AnswersAreCurrent(d: Dev, es: seq<Event>, k: nat)
    requires Opened(d) && LastHandOut(History(d, es), k) && RunDev(d, es).mode.SioServer?
    requires NoRestart(History(d, es), k)
    ensures StillCurrent(RunDev(d, es)) <==> StillLatest(History(d, es), k)
  {
    LetThroughIff(d, es, k);
    NumberAfterHandOut(History(d, es), k);
    NumberGrows(History(d, es), k + 1);
  }

  /** The mode was set for the last time at `r`. */
  predicate LastRestart(h: seq<Observation>, r: nat) {
    r < |h| && h[r].Restart? && NoRestart(h, r + 1)
  }

  lemma {:induction false} NumberAfterRestart(h: seq<Observation>, r: nat)
    requires LastRestart(h, r)
    ensures NumberAt(h) == 0 <==> !AssertedIn(h, r + 1, |h|)
  {
    assert h[..r + 1] == h[..r] + [h[r]];
    NumberStep(h[..r], h[r]);
    NumberGrows(h, r + 1);
  }

  lemma {:induction false} AssertedSplit(h: seq<Observation>, a: nat, b: nat)
    requires a <= b < |h| && !h[b].Assert?
    ensures AssertedIn(h, a, |h|) <==> AssertedIn(h, a, b) || AssertedIn(h, b + 1, |h|)
  {
  }

  /**
   When the mode has been set since the frame was handed out, the answer is judged
   rightly exactly if the command line has come up since then, but not as often as
   before the frame; or if it has not, but had between handing out and setting.
   */
  lemma {:induction false} JudgedRightlyIff(d: Dev, es: seq<Event>, k: nat, r: nat)
    requires Opened(d) && LastHandOut(History(d, es), k) && RunDev(d, es).mode.SioServer?
    requires k < r && LastRestart(History(d, es), r)
    ensures var h := History(d, es);
      (StillCurrent(RunDev(d, es)) <==> StillLatest(h, k))
      <==> NumberAt(h) != NumberAt(h[..k]) && (NumberAt(h) != 0 || AssertedIn(h, k + 1, r))
  {
    var h := History(d, es);
    LetThroughIff(d, es, k);
    SerialOfHandOut(d, es, k);
    NumberAfterRestart(h, r);
    AssertedSplit(h, k + 1, r);
  }

  // ------------------------------------------------------------------
  // A run in which the wrong answer passes
  // ------------------------------------------------------------------

  function LineUp(line: Line, chars: seq<Received>): Event {
    Irq(Pass(Msr({line}, {line}), chars, false, 0))
  }

  function LineDown(line: Line): Event {
    Irq(Pass(Msr({}, {line}), [], false, 0))
  }

  lemma {:induction false} CharsObserved(a: Account, chars: seq<Received>)
    requires a.open.Some?
    ensures ObserveAll(a, Chars(chars)) == a.(open := Some(a.open.value + chars))
    decreases |chars|
  {
    if chars == [] {
      assert Chars(chars) == [] && a.open.value + chars == a.open.value;
    } else {
      var init := chars[..|chars| - 1];
      CharsObserved(a, init);
      assert Chars(chars)[..|chars| - 1] == Chars(init);
      assert a.open.value + chars == (a.open.value + init) + [chars[|chars| - 1]];
    }
  }

  lemma {:induction false} LinesAfterPass(d: Dev, p: Pass)
    requires Sane(d)
    ensures var e := Interrupt(d, p); e.mode == d.mode && e.commandLine == d.commandLine && e.lastMsr == p.msr
  {
    SameLines(d, p);
  }

  /** Waiting for a frame in server mode, with the command line down. */
  predicate Listening(d: Dev, line: Line) {
    Sane(d) && d.mode.SioServer? && d.commandLine == line && line !in d.lastMsr.up
  }

  /** The mode is set, and the characters of a frame come over the line. */
  function Request(line: Line, chars: seq<Received>): seq<Event> {
    [Switch(SioServer, line)] + [LineUp(line, chars)] + [LineDown(line)]
  }

  function RequestHistory(chars: seq<Received>): seq<Observation> {
    [Restart] + ([Assert] + Chars(chars)) + [Release(0)]
  }

  lemma {:induction false} LineUpSeen(d: Dev, line: Line, chars: seq<Received>)
    requires Listening(d, line)
    ensures Seen(d, LineUp(line, chars)) == [Assert] + Chars(chars)
    ensures var e := Step(d, LineUp(line, chars)); e.mode.SioServer? && e.commandLine == line && e.lastMsr.up == {line}
  {
    LinesAfterPass(d, LineUp(line, chars).pass);
    assert [Assert] + Chars(chars) + [] == [Assert] + Chars(chars);
  }

  lemma {:induction false} LineDownSeen(d: Dev, line: Line)
    requires Sane(d) && d.mode.SioServer? && d.commandLine == line
    ensures Seen(d, LineDown(line)) == [Release(0)] && Listening(Step(d, LineDown(line)), line)
  {
    LinesAfterPass(d, LineDown(line).pass);
    assert Chars([]) == [] && [] + [] + [Release(0)] == [Release(0)];
  }

  lemma {:induction false} RequestSeen(d: Dev, line: Line, chars: seq<Received>)
    requires Opened(d) && line !in d.lastMsr.up
    ensures History(d, Request(line, chars)) == RequestHistory(chars) && Listening(RunDev(d, Request(line, chars)), line)
  {
    var es0, es1 := [Switch(SioServer, line)], [Switch(SioServer, line)] + [LineUp(line, chars)];
    OneEventMore(d, [], Switch(SioServer, line));
    assert [] + es0 == es0 && [] + [Restart] == [Restart];
    OneEventMore(d, es0, LineUp(line, chars));
    LineUpSeen(RunDev(d, es0), line, chars);
    OneEventMore(d, es1, LineDown(line));
    LineDownSeen(RunDev(d, es1), line);
  }

  lemma {:induction false} RequestWaits(chars: seq<Received>)
    requires IsFrame(chars)
    ensures AccountOf(RequestHistory(chars)) == Account(None, Some(Whole(BytesOf(chars), 0)), 1, None)
  {
    var begun := Account(Some([]), None, 1, None);
    CharsObserved(begun, chars);
    assert [] + chars == chars;
    ObserveInTurn(NOTHING, [Restart], [Assert] + Chars(chars));
    ObserveInTurn(NOTHING, [Restart] + ([Assert] + Chars(chars)), [Release(0)]);
    ObserveInTurn(Observe(NOTHING, Restart), [Assert], Chars(chars));
    OneObserved(NOTHING, Restart);
    OneObserved(Observe(NOTHING, Restart), Assert);
    OneObserved(begun.(open := Some(chars)), Release(0));
  }

  lemma {:induction false} OneObserved(a: Account, o: Observation)
    ensures ObserveAll(a, [o]) == Observe(a, o)
  {
    assert [o][..0] == [];
    assert ObserveAll(a, []) == a;
  }

  /** The request is handed out, with number 1. */
  lemma {:induction false} RequestTaken(d: Dev, line: Line, chars: seq<Received>)
    requires Opened(d) && line !in d.lastMsr.up && IsFrame(chars)
    ensures var es := Request(line, chars) + [Get(0)]; var r := RunDev(d, es);
      && History(d, es) == RequestHistory(chars) + [HandOut(BytesOf(chars)[..4])]
      && Listening(r, line) && r.currentSerial == 1
  {
    RequestSeen(d, line, chars);
    RequestWaits(chars);
    RunKeeps(d, Request(line, chars));
    OneEventMore(d, Request(line, chars), Get(0));
  }

  /** Setting the mode and asserting the line again gives number 1 to the next frame. */
  lemma {:induction false} AssertPasses(r: Dev, line: Line)
    requires Listening(r, line) && r.currentSerial == 1
    ensures var s := SetMode(r, SioServer, line);
      && Seen(s, LineUp(line, [])) == [Assert]
      && Step(s, LineUp(line, [])).mode.SioServer? && StillCurrent(Step(s, LineUp(line, [])))
  {
    assert Chars([]) == [];
  }

  lemma {:induction false} AnotherRequest(d: Dev, es: seq<Event>, line: Line)
    requires Sane(d) && Listening(RunDev(d, es), line) && RunDev(d, es).currentSerial == 1
    ensures var es2 := es + [Switch(SioServer, line)] + [LineUp(line, [])];
      && History(d, es2) == History(d, es) + [Restart] + [Assert]
      && RunDev(d, es2).mode.SioServer? && StillCurrent(RunDev(d, es2))
  {
    OneEventMore(d, es, Switch(SioServer, line));
    OneEventMore(d, es + [Switch(SioServer, line)], LineUp(line, []));
    AssertPasses(RunDev(d, es), line);
  }

  lemma {:induction false} NoLongerLatest(h: seq<Observation>, frame: seq<byte>)
    requires forall m :: 0 <= m < |h| ==> !h[m].HandOut?
    ensures var g := h + [HandOut(frame)] + [Restart] + [Assert]; LastHandOut(g, |h|) && !StillLatest(g, |h|)
  {
    var g := h + [HandOut(frame)] + [Restart] + [Assert];
    assert g[|h| + 2].Assert?;
  }

  /**
   From any opened device whose command line is down: a frame comes in and is
   handed out, the mode is set again and a new frame begins; the answer to the
   frame handed out is let through although that is no longer the latest.
   */
  lemma {:induction false} StaleAnswerPasses(d: Dev, line: Line, chars: seq<Received>)
    requires Opened(d) && line !in d.lastMsr.up && IsFrame(chars)
    ensures var es := Request(line, chars) + [Get(0)] + [Switch(SioServer, line)] + [LineUp(line, [])];
      var h, k := History(d, es), |RequestHistory(chars)|;
      && h == RequestHistory(chars) + [HandOut(BytesOf(chars)[..4])] + [Restart] + [Assert]
      && LastHandOut(h, k) && !StillLatest(h, k)
      && RunDev(d, es).mode.SioServer? && StillCurrent(RunDev(d, es))
  {
    RequestTaken(d, line, chars);
    AnotherRequest(d, Request(line, chars) + [Get(0)], line);
    NoLongerLatest(RequestHistory(chars), BytesOf(chars)[..4]);
  }

  function CleanChar(c: byte): Received {
    Received(c, false, false, false)
  }

  lemma {:induction false} ChecksumStep(s: seq<byte>, c: byte)
    ensures Checksum(s + [c]) == AddByte(Checksum(s), c)
  {
    assert (s + [c])[..|s|] == s;
  }

  /** There are such frames: a status request for drive 1. */
  lemma {:induction false} StatusRequestIsFrame()
    ensures IsFrame([CleanChar(0x31), CleanChar(0x53), CleanChar(0), CleanChar(0), CleanChar(0x84)])
  {
    var chars := [CleanChar(0x31), CleanChar(0x53), CleanChar(0), CleanChar(0), CleanChar(0x84)];
    ChecksumStep([], 0x31);
    ChecksumStep([] + [0x31], 0x53);
    ChecksumStep([] + [0x31] + [0x53], 0);
    ChecksumStep([] + [0x31] + [0x53] + [0], 0);
    assert BytesOf(chars)[..4] == [] + [0x31] + [0x53] + [0] + [0];
  }
}
