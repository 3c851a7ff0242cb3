/** The state machine of the master ISDU handler as a step function on values
    (section 7.3.6 of the IO-Link Interface Specification v1.1.3). */
module IsduHandler {
  import opened Bytes
  import opened DlTypes
  import opened Isdu

  datatype State = Inactive | Idle | Requesting | Waiting | Failing | Responding

  /** Bytes of the ISDU buffer together with the memory after it that a last,
      partly used segment reaches. */
  const BufferSize: nat := 257

  datatype Handler = Handler(
    state: State,
    active: bool,
    rwcmd: RwCmd,
    totalLen: byte,
    seg: byte,
    totalSeg: byte,
    timerOn: bool,
    dirRead: bool,
    buf: seq<byte>)

  /** What a step sees besides the handler: the trigger, lost communication,
      whether the response time has run out, the on-request length, the bytes
      received, and the pending direct parameter access. */
  datatype Env = Env(
    trigger: Trigger,
    comlost: bool,
    late: bool,
    odLen: nat,
    rx: seq<byte>,
    dataAddr: byte,
    dataValue: byte)

  type Step = (Handler, seq<Out>)

  predicate OdLength(n: nat) {
    n == 1 || n == 2 || n == 8 || n == 32
  }

  /** Where segment `k` starts: `k * odLen`, added up. */
  function Offset(k: nat, odLen: nat): (n: nat)
    ensures k > 0 ==> odLen <= n
  {
    if k == 0 then 0 else Offset(k - 1, odLen) + odLen
  }

  /** Segment `k` of the buffer. */
  function Segment(buf: seq<byte>, odLen: nat, k: nat): seq<byte>
    requires Offset(k + 1, odLen) <= |buf|
  {
    buf[Offset(k, odLen)..Offset(k + 1, odLen)]
  }

  function Store(buf: seq<byte>, odLen: nat, k: nat, rx: seq<byte>): (b: seq<byte>)
    requires |rx| == odLen && Offset(k + 1, odLen) <= |buf|
    ensures |b| == |buf|
  {
    buf[..Offset(k, odLen)] + rx + buf[Offset(k + 1, odLen)..]
  }

  /** The step stays inside the buffer and the 16 bytes behind it. */
  predicate Fits(h: Handler, e: Env) {
    && OdLength(e.odLen) && |e.rx| == e.odLen && e.dataAddr < 32 && |h.buf| == BufferSize
    && (h.state == Requesting && e.trigger == MasterMessage ==> Offset(h.seg + 1, e.odLen) < BufferSize)
    && ((h.state == Waiting || h.state == Responding) && e.trigger == DeviceMessage ==> Offset(h.seg + 1, e.odLen) < BufferSize)
  }

  /** What holds whenever the handler next sees the trigger `next`. */
  predicate Inv(h: Handler, odLen: nat, next: Trigger) {
    && OdLength(odLen) && |h.buf| == BufferSize && Offset(h.totalSeg, odLen) < BufferSize
    && (h.state == Requesting && next == MasterMessage ==> h.seg < h.totalSeg)
    && (h.state == Waiting ==> h.seg == 0)
    && (h.state == Responding ==> h.seg < h.totalSeg && ValidHeader(h.buf[0], h.dirRead) && h.buf[0] / 16 != NoService)
    && (h.state == Responding ==> h.seg > 0)
  }

  function Elapsed(h: Handler, e: Env): bool {
    h.timerOn && e.late
  }

  function Quiet(status: Status): Out {
    IsduCnf([], NoService, status)
  }

  /** Acceptance of DL_ISDUTransport for a port whose mode handler has
      communication (`connected`). */
  function Accept(h: Handler, connected: bool, r: Isdu.Request, odLen: nat): Step
    requires OdLength(odLen) && |h.buf| == BufferSize
    requires r.index < 0x1_0000 && EncodedLength(r) <= IsduMaxSize
  {
    if !connected then (h, [Quiet(NoComm)])
    else if r.index < 2 then (h, [Quiet(ValueOutOfRange)])
    else if h.state != Idle then (h, [Quiet(StateConflict)])
    else
      var s := Encode(r);
      (h.(dirRead := r.read, buf := Pad(s, IsduMaxSize) + h.buf[IsduMaxSize..], totalLen := |s|,
          totalSeg := SegmentCount(|s|, odLen), seg := 0, rwcmd := RwIsduTransport), [])
  }

  /** State ISDUERROR_4: abort the transfer and report why. */
  function ErrorStep(h: Handler, e: Env): Step
    requires |h.buf| == BufferSize
  {
    if !h.active then (h.(state := Inactive), [])
    else
      var cnf :=
        if Elapsed(h, e) then Quiet(IsduTimeout)
        else if e.comlost then Quiet(NoComm)
        else if h.rwcmd == RwIsduAbort then Quiet(IsduAborted)
        else if !ValidHeader(h.buf[0], h.dirRead) then IsduCnf([], h.buf[0] / 16, IllegalServicePrimitive)
        else Quiet(Invalid);
      (h.(state := Idle, totalSeg := 0, rwcmd := RwNone), [Od(OdReq(false, IsduChannel, FlowAbort, [])), cnf])
  }

  function EnterError(h: Handler, e: Env): Step
    requires |h.buf| == BufferSize
  {
    if !h.active then (h.(state := Inactive, totalSeg := 0), [Quiet(NoComm)])
    else if e.trigger == MasterMessage then ErrorStep(h, e)
    else (h.(state := Failing), [])
  }

  /** The confirmation of a completely received response. The data length is a
      byte, so a total of 2 in extended form wraps to 255. */
  function Received(h: Handler): Out
    requires |h.buf| == BufferSize
  {
    var total := TotalLen(h.buf[0], h.buf[1]);
    var at := if h.buf[0] % 16 == 1 then 2 else 1;
    if total.None? then IsduCnf([], h.buf[0] / 16, Invalid)
    else IsduCnf(
           h.buf[at..at + (total.value - at - 1) % 256],
           h.buf[0] / 16,
           if Checksum(h.buf[..h.totalLen]) == 0 then NoError else ChecksumError)
  }

  function ReceptionComplete(h: Handler): Step
    requires |h.buf| == BufferSize
  {
    (h.(state := Idle, seg := 0, totalSeg := 0, rwcmd := RwNone), [Received(h)])
  }

  /** The handler with the length it reads off its buffer. */
  function Measured(h: Handler, odLen: nat): Handler
    requires |h.buf| == BufferSize && OdLength(odLen)
  {
    var total := TotalLen(h.buf[0], h.buf[1]);
    var n := if total.Some? then total.value else 0;
    h.(totalLen := n, totalSeg := SegmentCount(n, odLen))
  }

  function InactiveStep(h: Handler): Step {
    if h.active then (h.(state := Idle, totalSeg := 0, seg := 0), []) else (h, [])
  }

  function IdleStep(h: Handler, e: Env): Step
    requires Fits(h, e)
  {
    if !h.active then
      if h.totalSeg != 0 then (h.(state := Inactive, totalSeg := 0), [Quiet(NoComm)])
      else (h.(state := Inactive), [])
    else if e.trigger == MasterMessage then
      match h.rwcmd
      case RwIsduTransport =>
        (h.(state := Requesting, seg := 1), [Od(OdReq(true, IsduChannel, FlowStart, Segment(h.buf, e.odLen, 0)))])
      case RwReadParam => (h, [Od(OdReq(false, Page, e.dataAddr, []))])
      case RwWriteParam => (h, [Od(OdReq(true, Page, e.dataAddr, Pad([e.dataValue], e.odLen)))])
      case _ => (h, [Od(OdReq(false, IsduChannel, FlowIdle1, []))])
    else if e.trigger == DeviceMessage then
      match h.rwcmd
      case RwReadParam => (h.(rwcmd := RwNone), [ReadParamCnf(e.rx[0], NoError)])
      case RwWriteParam => (h.(rwcmd := RwNone), [WriteParamCnf(NoError)])
      case _ => (h, [])
    else (h, [])
  }

  function RequestStep(h: Handler, e: Env): Step
    requires h.state == Requesting && Fits(h, e)
  {
    if h.rwcmd == RwIsduAbort || e.comlost then EnterError(h, e)
    else if e.trigger == MasterMessage then
      (h.(seg := (h.seg + 1) % 256),
       [Od(OdReq(true, IsduChannel, h.seg % 16, Segment(h.buf, e.odLen, h.seg)))])
    else if e.trigger == DeviceMessage && h.seg >= h.totalSeg then
      (h.(state := Waiting, timerOn := true, seg := 0), [])
    else (h, [])
  }

  /** The reply to the first read is in the buffer: busy, refused, or the start
      of a response. */
  function FirstSegment(g: Handler, e: Env): Step
    requires |g.buf| == BufferSize && OdLength(e.odLen)
  {
    if g.buf[0] == 16 * NoService + 1 then (g, [])
    else if g.buf[0] == 0 || !ValidHeader(g.buf[0], g.dirRead) then EnterError(g.(timerOn := false), e)
    else
      var m := Measured(g, e.odLen).(seg := 1, timerOn := false);
      if m.seg >= m.totalSeg then ReceptionComplete(m) else (m.(state := Responding), [])
  }

  function WaitStep(h: Handler, e: Env): Step
    requires h.state == Waiting && Fits(h, e)
  {
    if h.rwcmd == RwIsduAbort then EnterError(h.(timerOn := false), e)
    else if Elapsed(h, e) || e.comlost then EnterError(h, e)
    else if e.trigger == MasterMessage then (h, [Od(OdReq(false, IsduChannel, FlowStart, []))])
    else if e.trigger == DeviceMessage then
      FirstSegment(h.(buf := Store(h.buf, e.odLen, h.seg, e.rx)), e)
    else (h, [])
  }

  function ResponseStep(h: Handler, e: Env): Step
    requires h.state == Responding && Fits(h, e)
  {
    if h.rwcmd == RwIsduAbort || e.comlost then EnterError(h, e)
    else if e.trigger == MasterMessage then (h, [Od(OdReq(false, IsduChannel, h.seg % 16, []))])
    else if e.trigger == DeviceMessage then
      var m := Measured(h, e.odLen);
      var g := m.(buf := Store(h.buf, e.odLen, h.seg, e.rx), seg := (h.seg + 1) % 256);
      if g.seg >= g.totalSeg then ReceptionComplete(g) else (g, [])
    else (h, [])
  }

  function HandlerStep(h: Handler, e: Env): Step
    requires Fits(h, e)
  {
    match h.state
    case Inactive => InactiveStep(h)
    case Idle => IdleStep(h, e)
    case Requesting => RequestStep(h, e)
    case Waiting => WaitStep(h, e)
    case Failing => ErrorStep(h, e)
    case Responding => ResponseStep(h, e)
  }

  lemma OffsetIsProduct(k: nat, odLen: nat)
    ensures Offset(k, odLen) == k * odLen
  {
  }

  lemma OffsetGrows(k: nat, n: nat, odLen: nat)
    requires k <= n
    ensures Offset(k, odLen) <= Offset(n, odLen)
  {
  }

  lemma CountFits(total: byte, odLen: nat)
    requires OdLength(odLen)
    ensures total <= Offset(SegmentCount(total, odLen), odLen) < BufferSize && SegmentCount(total, odLen) < 256
  {
    OffsetIsProduct(SegmentCount(total, odLen), odLen);
  }

  /** The trigger after `t`, messages of master and device alternating. */
  function After(next: Trigger, t: Trigger): Trigger {
    if t == NoTrigger then next else if t == MasterMessage then DeviceMessage else MasterMessage
  }

  lemma InvFits(h: Handler, e: Env, next: Trigger)
    requires Inv(h, e.odLen, next) && (e.trigger == next || e.trigger == NoTrigger)
    requires |e.rx| == e.odLen && e.dataAddr < 32
    ensures Fits(h, e)
  {
    if h.seg < h.totalSeg {
      OffsetGrows(h.seg + 1, h.totalSeg, e.odLen);
    }
  }

  lemma StoreKeepsFront(buf: seq<byte>, odLen: nat, k: nat, rx: seq<byte>)
    requires |rx| == odLen > 0 && k > 0 && Offset(k + 1, odLen) <= |buf|
    ensures Store(buf, odLen, k, rx)[..Offset(k, odLen)] == buf[..Offset(k, odLen)]
    ensures Store(buf, odLen, k, rx)[0] == buf[0]
  {
  }

  lemma StoreKeepsTail(buf: seq<byte>, odLen: nat, k: nat, rx: seq<byte>, from: nat)
    requires |rx| == odLen && Offset(k + 1, odLen) <= |buf| && from <= |buf|
    ensures Offset(k + 1, odLen) <= from ==> Store(buf, odLen, k, rx)[from..] == buf[from..]
  {
  }

  lemma EnterErrorKeepsInv(h: Handler, e: Env, next: Trigger)
    requires |h.buf| == BufferSize && OdLength(e.odLen) && Offset(h.totalSeg, e.odLen) < BufferSize
    ensures Inv(EnterError(h, e).0, e.odLen, next) && Inv(ErrorStep(h, e).0, e.odLen, next)
  {
  }

  lemma FirstSegmentKeepsInv(g: Handler, e: Env, next: Trigger)
    requires g.state == Waiting && |g.buf| == BufferSize && OdLength(e.odLen)
    requires g.seg == 0 && Offset(g.totalSeg, e.odLen) < BufferSize
    ensures Inv(FirstSegment(g, e).0, e.odLen, next)
  {
    EnterErrorKeepsInv(g.(timerOn := false), e, next);
    CountFits(Measured(g, e.odLen).totalLen, e.odLen);
  }

  lemma WaitKeepsInv(h: Handler, e: Env, next: Trigger)
    requires h.state == Waiting && Inv(h, e.odLen, e.trigger) && Fits(h, e)
    ensures Inv(WaitStep(h, e).0, e.odLen, next)
  {
    if e.trigger == DeviceMessage {
      FirstSegmentKeepsInv(h.(buf := Store(h.buf, e.odLen, h.seg, e.rx)), e, next);
    }
    EnterErrorKeepsInv(h, e, next);
    EnterErrorKeepsInv(h.(timerOn := false), e, next);
  }

  lemma ResponseKeepsInv(h: Handler, e: Env, next: Trigger)
    requires h.state == Responding && Inv(h, e.odLen, e.trigger) && Fits(h, e)
    ensures Inv(ResponseStep(h, e).0, e.odLen, next)
  {
    if e.trigger == DeviceMessage {
      StoreKeepsFront(h.buf, e.odLen, h.seg, e.rx);
      CountFits(Measured(h, e.odLen).totalLen, e.odLen);
    }
    EnterErrorKeepsInv(h, e, next);
  }

  lemma RequestKeepsInv(h: Handler, e: Env, next: Trigger)
    requires h.state == Requesting && Inv(h, e.odLen, next) && Fits(h, e)
    requires e.trigger == next || e.trigger == NoTrigger
    ensures Inv(RequestStep(h, e).0, e.odLen, After(next, e.trigger))
  {
    EnterErrorKeepsInv(h, e, After(next, e.trigger));
  }

  /** Every step of alternating messages keeps the handler inside its buffer and the
      16 bytes behind it; `IsduBounds` says when it stays inside the buffer. */
  lemma StepKeepsInv(h: Handler, e: Env, next: Trigger)
    requires Inv(h, e.odLen, next) && next != NoTrigger && (e.trigger == next || e.trigger == NoTrigger)
    requires |e.rx| == e.odLen && e.dataAddr < 32
    ensures Fits(h, e) && Inv(HandlerStep(h, e).0, e.odLen, After(next, e.trigger))
  {
    InvFits(h, e, next);
    match h.state
    case Inactive =>
    case Idle =>
    case Requesting => RequestKeepsInv(h, e, next);
    case Waiting => WaitKeepsInv(h, e, After(next, e.trigger));
    case Failing => EnterErrorKeepsInv(h, e, After(next, e.trigger));
    case Responding => ResponseKeepsInv(h, e, After(next, e.trigger));
  }
}
