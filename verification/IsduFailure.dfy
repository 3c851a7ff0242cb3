/** Transfers that fail: when they do, and what the device and the application layer
    are told (section 7.3.6 of the IO-Link Interface Specification v1.1.3). */
module IsduFailure {
  import opened Bytes
  import opened DlTypes
  import Isdu
  import opened IsduHandler
  import S = IsduSafety
  import T = IsduTransfer

  /** A service as the device sees it: its control byte. */
  function OnWire(o: Out): byte
    requires o.Od? && o.req.addr < 32
  {
    ControlByte(o.req.write, o.req.channel, o.req.addr)
  }

  /** The first bytes a response may have: no service and busy, and the negative and
      positive responses of the direction, with the length in the lower digit. */
  predicate LegalHeader(b: byte, read: bool) {
    || b == 0x00 || b == 0x01
    || if read then 0xC1 <= b <= 0xCF || 0xD1 <= b <= 0xDF else 0x41 <= b <= 0x4F || 0x51 <= b <= 0x5F
  }

  lemma LegalHeaders(b: byte, read: bool)
    ensures Isdu.ValidHeader(b, read) <==> LegalHeader(b, read)
  {
  }

  predicate Transferring(h: Handler) {
    h.state == Requesting || h.state == Waiting || h.state == Responding
  }

  /** The time for a response is up. */
  predicate TimeUp(h: Handler, e: Env) {
    h.timerOn && e.late
  }

  /** An abort, lost communication, or no response in time. */
  predicate Interrupted(h: Handler, e: Env) {
    h.rwcmd == RwIsduAbort || e.comlost || (h.state == Waiting && TimeUp(h, e))
  }

  /** The reply that is awaited says that there is no service, or begins no response. */
  predicate Refused(h: Handler, e: Env)
    requires e.rx != []
  {
    h.state == Waiting && e.trigger == DeviceMessage && (e.rx[0] == 0x00 || !LegalHeader(e.rx[0], h.dirRead))
  }

  /** The device is read with ABORT, and the transfer is confirmed without data. The
      reasons count in this order: the time, the connection, an abort, the header. */
  predicate Reported(outs: seq<Out>, late: bool, lost: bool, aborted: bool, header: byte, read: bool) {
    && |outs| == 2 && outs[0].Od? && outs[0].req == OdReq(false, IsduChannel, 0x1F, []) && OnWire(outs[0]) == 0xFF
    && outs[1].IsduCnf? && outs[1].data == []
    && (outs[1].status == IsduTimeout <==> late)
    && (outs[1].status == NoComm <==> !late && lost)
    && (outs[1].status == IsduAborted <==> !late && !lost && aborted)
    && (outs[1].status == IllegalServicePrimitive <==> !late && !lost && !aborted && !LegalHeader(header, read))
    && (outs[1].status == Invalid <==> !late && !lost && !aborted && LegalHeader(header, read))
    && outs[1].qualifier == if outs[1].status == IllegalServicePrimitive then header / 16 else 0
  }

  /** The handler is idle, its command done with. */
  predicate Over(h: Handler) {
    h.state == Idle && h.active && h.rwcmd == RwNone && h.totalSeg == 0
  }

  /** An abort in the wait for a response turns the timer off before it is looked at. */
  predicate LateFor(h: Handler, e: Env) {
    TimeUp(h, e) && !(h.state == Waiting && h.rwcmd == RwIsduAbort)
  }

  /** The failure is due: it has been noted before, or the master's message is next. */
  predicate FailsNow(h: Handler, e: Env) {
    h.active && (h.state == Failing || (Transferring(h) && Interrupted(h, e) && e.trigger == MasterMessage))
  }

  /** A failure that is due is reported at once. */
  lemma FailureReported(h: Handler, e: Env)
    requires Fits(h, e) && FailsNow(h, e)
    ensures
      var (g, outs) := HandlerStep(h, e);
      Over(g) && Reported(outs, LateFor(h, e), e.comlost, h.rwcmd == RwIsduAbort, h.buf[0], h.dirRead)
  {
    LegalHeaders(h.buf[0], h.dirRead);
  }

  /** A failing handler, that is to report with the next message. */
  predicate Defers(h: Handler, e: Env, g: Handler)
    requires e.rx != [] && |h.buf| == |g.buf| == BufferSize
  {
    && g.state == Failing && g.active && g.rwcmd == h.rwcmd && g.dirRead == h.dirRead
    && g.buf[0] == (if Refused(h, e) && !Interrupted(h, e) then e.rx[0] else h.buf[0])
    && g.timerOn == (h.timerOn && !(h.state == Waiting && (h.rwcmd == RwIsduAbort || (Refused(h, e) && !Interrupted(h, e)))))
  }

  /** Without the master's message a failure is only noted. */
  lemma FailureNoted(h: Handler, e: Env)
    requires Fits(h, e) && h.active && Transferring(h) && Inv(h, e.odLen, e.trigger)
    requires (Interrupted(h, e) || Refused(h, e)) && e.trigger != MasterMessage
    ensures
      var (g, outs) := HandlerStep(h, e);
      outs == [] && |g.buf| == BufferSize && Defers(h, e, g)
  {
    if Refused(h, e) {
      LegalHeaders(e.rx[0], h.dirRead);
    }
  }

  predicate Aborts(outs: seq<Out>) {
    exists o <- outs :: o.Od? && o.req == OdReq(false, IsduChannel, 0x1F, [])
  }

  /** The transfer fails for these reasons and for no others. */
  lemma FailsExactly(h: Handler, e: Env)
    requires Fits(h, e) && h.active && Transferring(h) && Inv(h, e.odLen, e.trigger)
    ensures
      var (g, outs) := HandlerStep(h, e);
      && (g.state == Failing <==> e.trigger != MasterMessage && (Interrupted(h, e) || Refused(h, e)))
      && (Aborts(outs) <==> e.trigger == MasterMessage && Interrupted(h, e))
  {
    var (g, outs) := HandlerStep(h, e);
    if Interrupted(h, e) && e.trigger == MasterMessage {
      FailureReported(h, e);
      assert outs[0] in outs;
    } else if Interrupted(h, e) || Refused(h, e) {
      FailureNoted(h, e);
    } else {
      GoesOn(h, e);
    }
  }

  lemma GoesOn(h: Handler, e: Env)
    requires Fits(h, e) && Transferring(h) && Inv(h, e.odLen, e.trigger) && !Interrupted(h, e) && !Refused(h, e)
    ensures var (g, outs) := HandlerStep(h, e); g.state != Failing && !Aborts(outs)
  {
    if e.trigger == DeviceMessage {
      LegalHeaders(e.rx[0], h.dirRead);
    }
  }

  /** A transfer that fails is over with this message or the next: the device is told
      once to abort, and the application layer is told once why. */
  lemma FailsWithinTwo(h: Handler, e: Env, f: Env)
    requires Fits(h, e) && h.active && Transferring(h) && Inv(h, e.odLen, e.trigger)
    requires Interrupted(h, e) || Refused(h, e)
    requires f.odLen == e.odLen && |f.rx| == f.odLen && f.dataAddr < 32
    ensures
      var (g, first) := HandlerStep(h, e);
      if e.trigger == MasterMessage then
        Over(g) && Reported(first, LateFor(h, e), e.comlost, h.rwcmd == RwIsduAbort, h.buf[0], h.dirRead)
      else
        && first == [] && Fits(g, f) && Defers(h, e, g)
        && var (k, second) := HandlerStep(g, f);
        Over(k) && Reported(second, TimeUp(g, f), f.comlost, h.rwcmd == RwIsduAbort, g.buf[0], h.dirRead)
  {
    if e.trigger == MasterMessage {
      FailureReported(h, e);
    } else {
      FailureNoted(h, e);
      FailureReported(HandlerStep(h, e).0, f);
    }
  }

  /** A handler that has been shut down meanwhile does not tell the device, and tells the
      application layer unless the failure had been noted already. */
  lemma ShutDownFails(h: Handler, e: Env)
    requires Fits(h, e) && !h.active && (h.state == Failing || (Transferring(h) && Interrupted(h, e)))
    ensures
      var (g, outs) := HandlerStep(h, e);
      && g.state == Inactive
      && if h.state == Failing then outs == [] else outs == [IsduCnf([], 0, NoComm)]
  {
  }

  // --- A device that never responds --------------------------------------------------------

  /** The request `r`, made of the idle handler `h`, has been sent, and the device has
      answered that it is busy, `c.b` times or never. */
  ghost predicate Unanswered(c: T.Course, h: Handler, r: Isdu.Request) {
    && Inv(h, c.odLen, MasterMessage) && h.state == Idle && h.active && Isdu.Encodable(r)
    && T.Trace(c.hs, c.outs, c.odLen, c.rxs) && c.hs[0] == Accept(h, true, r, c.odLen).0
    && var n := SegmentCount(|Isdu.Encode(r)|, c.odLen);
    n + c.b == |c.rxs| && forall k :: n <= k < n + c.b ==> T.Busy(c.rxs[k])
  }

  lemma AwaitsResponse(c: T.Course, h: Handler, r: Isdu.Request)
    requires Unanswered(c, h, r)
    ensures var n := SegmentCount(|Isdu.Encode(r)|, c.odLen);
            T.Awaiting(c.hs[n], c.odLen, r.read) && c.hs[n].timerOn
  {
    var n := SegmentCount(|Isdu.Encode(r)|, c.odLen);
    T.RequestRoundTrip(h, r, c.hs, c.outs, c.odLen, c.rxs);
    CountFits(|Isdu.Encode(r)|, c.odLen);
    assert T.RoundAt(c.hs, c.outs, c.odLen, c.rxs, n - 1);
    assert T.IsRound((c.hs[n], c.outs[n - 1]), c.hs[n - 1], c.odLen, c.rxs[n - 1]);
  }

  lemma {:induction false} TimerStays(c: T.Course, h: Handler, r: Isdu.Request, n: nat, b: nat)
    requires Unanswered(c, h, r) && n == SegmentCount(|Isdu.Encode(r)|, c.odLen) && b <= c.b
    requires T.Awaiting(c.hs[n], c.odLen, r.read) && c.hs[n].timerOn
    ensures T.Awaiting(c.hs[n + b], c.odLen, r.read) && c.hs[n + b].timerOn
    decreases b
  {
    if b > 0 {
      var k := n + b - 1;
      TimerStays(c, h, r, n, b - 1);
      assert T.RoundAt(c.hs, c.outs, c.odLen, c.rxs, k);
      assert T.IsRound((c.hs[k + 1], c.outs[k]), c.hs[k], c.odLen, c.rxs[k]);
      T.BusyRound(c.hs[k], c.odLen, c.rxs[k], r.read);
    }
  }

  /** Until then nothing has been confirmed. */
  lemma NothingConfirmed(c: T.Course, h: Handler, r: Isdu.Request)
    requires Unanswered(c, h, r)
    ensures T.Awaiting(c.hs[|c.rxs|], c.odLen, r.read) && c.hs[|c.rxs|].timerOn
    ensures forall k :: 0 <= k < |c.outs| ==> Confirmations(c.outs[k]) == 0
  {
    var n := SegmentCount(|Isdu.Encode(r)|, c.odLen);
    AwaitsResponse(c, h, r);
    TimerStays(c, h, r, n, c.b);
    T.RequestRoundTrip(h, r, c.hs, c.outs, c.odLen, c.rxs);
    T.BusyRounds(c.hs, c.outs, c.odLen, c.rxs, n, c.b, r.read);
    forall k | 0 <= k < |c.outs| ensures Confirmations(c.outs[k]) == 0 {
      if k < n {
        T.SegmentsConfirmNothing(c.outs[..n], k);
        assert c.outs[..n][k] == c.outs[k];
      } else {
        CountShort(c.outs[k]);
      }
    }
  }

  /** A step with messages of the same length. */
  predicate Follows(e: Env, c: T.Course) {
    e.odLen == c.odLen && |e.rx| == c.odLen && e.dataAddr < 32
  }

  /** When the time for a response is up, the device is told to abort and the timeout is
      confirmed: with this message if it is the master's, else with the next. */
  lemma SilentDeviceTimesOut(c: T.Course, h: Handler, r: Isdu.Request, e: Env, f: Env)
    requires Unanswered(c, h, r) && Follows(e, c) && Follows(f, c) && e.late && f.late
    ensures
      var w := c.hs[|c.rxs|];
      && Fits(w, e)
      && if e.trigger == MasterMessage then TimesOut(w, e)
         else HandlerStep(w, e).1 == [] && Fits(HandlerStep(w, e).0, f) && TimesOut(HandlerStep(w, e).0, f)
  {
    var w := c.hs[|c.rxs|];
    NothingConfirmed(c, h, r);
    InvFits(w, e, if e.trigger == NoTrigger then MasterMessage else e.trigger);
    FailsWithinTwo(w, e, f);
  }

  predicate TimesOut(h: Handler, e: Env)
    requires Fits(h, e)
  {
    && FailsNow(h, e) && TimeUp(h, e) && LateFor(h, e)
    && var (g, outs) := HandlerStep(h, e);
    && Over(g) && |outs| == 2 && outs[0].Od? && outs[0].req.addr < 32 && OnWire(outs[0]) == 0xFF
    && outs[1] == IsduCnf([], 0, IsduTimeout)
  }

  // --- The timer ------------------------------------------------------------------------

  /** The timer runs while a response is awaited, and no longer. */
  predicate Timed(h: Handler) {
    (h.state == Waiting ==> h.timerOn) && (h.state == Responding ==> !h.timerOn)
  }

  lemma FailureKeepsTimed(h: Handler, e: Env)
    requires |h.buf| == BufferSize
    ensures Timed(EnterError(h, e).0) && Timed(ErrorStep(h, e).0)
  {
  }

  lemma StepKeepsTimed(h: Handler, e: Env)
    requires Fits(h, e) && Timed(h)
    ensures Timed(HandlerStep(h, e).0)
  {
    FailureKeepsTimed(h, e);
    if h.state == Waiting {
      FailureKeepsTimed(h.(timerOn := false), e);
      if e.trigger == DeviceMessage {
        FailureKeepsTimed(h.(buf := Store(h.buf, e.odLen, h.seg, e.rx), timerOn := false), e);
      }
    }
  }

  lemma InputKeepsTimed(s: S.System, i: S.Input, odLen: nat)
    requires S.Good(s, odLen) && S.Possible(s, i, odLen) && Timed(s.h)
    ensures Timed(S.Advance(s, i, odLen).h)
  {
    match i
    case Message(e) =>
      StepKeepsInv(s.h, e, s.next);
      StepKeepsTimed(s.h, e);
    case Configure(on, e) =>
      StepKeepsInv(s.h.(active := on), e, s.next);
      StepKeepsTimed(s.h.(active := on), e);
    case Command(_) =>
    case Transport(_, _) =>
  }

  /** So it is in every run. */
  lemma {:induction false} AlwaysTimed(s: S.System, inputs: seq<S.Input>, odLen: nat)
    requires S.Good(s, odLen) && S.Feasible(s, inputs, odLen) && Timed(s.h)
    ensures Timed(S.Play(s, inputs, odLen).h)
    decreases |inputs|
  {
    if inputs != [] {
      InputKeepsTimed(s, inputs[0], odLen);
      AlwaysTimed(S.Advance(s, inputs[0], odLen), inputs[1..], odLen);
    }
  }

  /** When an interruption is reported at once as a timeout. In the wait for a response:
      exactly if the time is up and nobody has aborted. While a response is received:
      never. While a request is sent, when nothing is awaited yet: exactly if the timer
      of an earlier transfer has been left on. */
  lemma TimeoutExactly(h: Handler, e: Env)
    requires Fits(h, e) && h.active && Transferring(h) && Interrupted(h, e) && e.trigger == MasterMessage && Timed(h)
    ensures
      var outs := HandlerStep(h, e).1;
      |outs| == 2 && outs[1].IsduCnf? &&
      (outs[1].status == IsduTimeout <==>
       e.late && match h.state
                 case Waiting => h.rwcmd != RwIsduAbort
                 case Responding => false
                 case _ => h.timerOn)
  {
    FailureReported(h, e);
  }

  /** A timeout leaves the timer on, and nothing but a response, a refusal or an abort in
      the wait for one turns it off: when the next request is interrupted while it is sent,
      by an abort or a lost connection, it is reported as a timeout. */
  lemma StaleTimer(h: Handler, e: Env, r: Isdu.Request, f: Env, rx: seq<byte>)
    requires Fits(h, e) && h.active && h.state == Waiting && TimeUp(h, e) && h.rwcmd != RwIsduAbort && e.trigger == MasterMessage
    requires Isdu.Encodable(r) && Inv(h, e.odLen, MasterMessage)
    requires f.odLen == e.odLen && |f.rx| == f.odLen && f.dataAddr < 32 && f.trigger == MasterMessage && !f.comlost
    ensures
      var (g, told) := HandlerStep(h, e);
      && |told| == 2 && told[1] == IsduCnf([], 0, IsduTimeout)
      && var (a, taken) := Accept(g, true, r, e.odLen);
      && taken == [] && Fits(a, f)
      && var (b, sent) := HandlerStep(a, f);
      && b.state == Requesting
      && var lost := f.(comlost := true, late := true);
      && Fits(b, lost) && var again := HandlerStep(b, lost).1;
      |again| == 2 && again[1] == IsduCnf([], 0, IsduTimeout)
  {
    FailureReported(h, e);
    var g := HandlerStep(h, e).0;
    CountFits(Isdu.EncodedLength(r), e.odLen);
    var a := Accept(g, true, r, e.odLen).0;
    OffsetGrows(2, 2, e.odLen);
    var b := HandlerStep(a, f).0;
    FailureReported(b, f.(comlost := true, late := true));
  }

  // --- The messages of a transfer and of a handler without one -------------------------------

  /** `data` are the `n` bytes of `buf` from `from` on. */
  predicate IsPart(data: seq<byte>, buf: seq<byte>, from: int, n: nat) {
    0 <= from && from + n <= |buf| && data == buf[from..from + n]
  }

  /** What the device sees of a transfer: a request goes on with a count from 1 on, its
      response is asked for with START and then with a count. */
  lemma TransferOnWire(h: Handler, e: Env)
    requires Fits(h, e) && Transferring(h) && !Interrupted(h, e) && e.trigger == MasterMessage
    ensures
      var outs := HandlerStep(h, e).1;
      && |outs| == 1 && outs[0].Od? && outs[0].req.addr < 32
      && OnWire(outs[0]) == (if h.state == Requesting then 0x60 + h.seg % 16 else if h.state == Waiting then 0xF0
                             else 0xE0 + h.seg % 16)
      && (h.state == Requesting ==> IsPart(outs[0].req.data, h.buf, h.seg * e.odLen, e.odLen))
  {
    OffsetIsProduct(h.seg, e.odLen);
    OffsetIsProduct(h.seg + 1, e.odLen);
  }

  /** An idle handler begins a request with START, gets or sets a direct parameter, or
      reads the ISDU channel with IDLE. */
  lemma IdleOnWire(h: Handler, e: Env)
    requires Fits(h, e) && h.active && h.state == Idle && e.trigger == MasterMessage
    ensures
      var outs := HandlerStep(h, e).1;
      && |outs| == 1 && outs[0].Od? && outs[0].req.addr < 32
      && OnWire(outs[0]) == (if h.rwcmd == RwIsduTransport then 0x70 else if h.rwcmd == RwReadParam then 0xA0 + e.dataAddr
                             else if h.rwcmd == RwWriteParam then 0x20 + e.dataAddr else 0xF1)
      && (h.rwcmd == RwIsduTransport ==> IsPart(outs[0].req.data, h.buf, 0, e.odLen))
      && (h.rwcmd == RwWriteParam ==> outs[0].req.data == [e.dataValue] + Zeros(e.odLen - 1))
  {
    assert Offset(1, e.odLen) == e.odLen;
    assert [e.dataValue][..1] == [e.dataValue] + Zeros(0);
  }

  /** With the device's reply a direct parameter access is confirmed, a read with the
      byte received, and the command is done with. */
  lemma DirectAccess(h: Handler, e: Env)
    requires Fits(h, e) && h.active && h.state == Idle && e.trigger == DeviceMessage
    ensures
      var (g, outs) := HandlerStep(h, e);
      && outs == (if h.rwcmd == RwReadParam then [ReadParamCnf(e.rx[0], NoError)]
                  else if h.rwcmd == RwWriteParam then [WriteParamCnf(NoError)] else [])
      && (h.rwcmd == RwReadParam || h.rwcmd == RwWriteParam ==> g.rwcmd == RwNone)
  {
  }

  /** A request that is not taken, and what is said of it. */
  lemma NotTaken(h: Handler, connected: bool, r: Isdu.Request, odLen: nat)
    requires OdLength(odLen) && |h.buf| == BufferSize && r.index < 0x1_0000 && Isdu.EncodedLength(r) <= Isdu.IsduMaxSize
    ensures
      var (g, outs) := Accept(h, connected, r, odLen);
      && (outs == [] <==> connected && r.index >= 2 && h.state == Idle)
      && (outs != [] ==> g == h && |outs| == 1 && outs[0].IsduCnf? && outs[0].data == [] && outs[0].qualifier == 0)
      && (outs != [] ==> (outs[0].status == NoComm <==> !connected))
      && (outs != [] ==> (outs[0].status == ValueOutOfRange <==> connected && r.index < 2))
      && (outs != [] ==> (outs[0].status == StateConflict <==> connected && r.index >= 2))
  {
  }
}
