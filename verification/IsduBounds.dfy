/** Which bytes of memory the ISDU handler touches. Its buffer has 241 bytes; the
    last segment of a transfer is sent or stored whole, and may reach beyond. */
module IsduBounds {
  import opened Bytes
  import opened DlTypes
  import opened Isdu
  import opened IsduHandler
  import opened IsduTransfer

  /** The end of the segment that a step sends or stores, or 0. */
  function SegmentEnd(h: Handler, e: Env): nat {
    var broken := h.rwcmd == RwIsduAbort || e.comlost;
    match h.state
    case Idle => if h.active && e.trigger == MasterMessage && h.rwcmd == RwIsduTransport then Offset(1, e.odLen) else 0
    case Requesting => if !broken && e.trigger == MasterMessage then Offset(h.seg + 1, e.odLen) else 0
    case Waiting => if !broken && !Elapsed(h, e) && e.trigger == DeviceMessage then Offset(h.seg + 1, e.odLen) else 0
    case Responding => if !broken && e.trigger == DeviceMessage then Offset(h.seg + 1, e.odLen) else 0
    case _ => 0
  }

  /** The end of the payload that the confirmation `o` was taken from `buf` with. */
  function PayloadEnd(buf: seq<byte>, outs: seq<Out>): nat {
    if outs != [] && buf != [] && outs[|outs| - 1].IsduCnf? && outs[|outs| - 1].data != [] then
      (if buf[0] % 16 == 1 then 2 else 1) + |outs[|outs| - 1].data|
    else 0
  }

  /** The buffer in `buf`, and the memory behind it in `b`. */
  function WithTail(buf: seq<byte>, b: seq<byte>): seq<byte> {
    if |buf| == |b| == BufferSize then buf[..IsduMaxSize] + b[IsduMaxSize..] else b
  }

  /** With other memory `b` behind the buffer, the step does the same, and leaves
      that memory as it was. */
  predicate Unmoved(h: Handler, e: Env, b: seq<byte>)
    requires Fits(h, e) && |b| == BufferSize
  {
    var (g, outs) := HandlerStep(h, e);
    HandlerStep(h.(buf := b), e) == (g.(buf := WithTail(g.buf, b)), outs)
  }

  /** The step neither depends on memory behind the 241 bytes nor changes it. */
  ghost predicate Within(h: Handler, e: Env)
    requires Fits(h, e)
  {
    forall b: seq<byte> :: |b| == BufferSize && b[..IsduMaxSize] == h.buf[..IsduMaxSize] ==> Unmoved(h, e, b)
  }

  /** `b` has the buffer's bytes, and perhaps other memory behind it. */
  predicate Alike(buf: seq<byte>, b: seq<byte>) {
    |buf| == |b| == BufferSize && b[..IsduMaxSize] == buf[..IsduMaxSize]
  }

  lemma AlikeSlice(buf: seq<byte>, b: seq<byte>, i: nat, j: nat)
    requires Alike(buf, b) && i <= j <= IsduMaxSize
    ensures b[i..j] == buf[i..j]
  {
    forall k | i <= k < j ensures b[k] == buf[k] {
      assert b[k] == b[..IsduMaxSize][k] == buf[..IsduMaxSize][k];
    }
  }

  lemma AlikeStore(buf: seq<byte>, b: seq<byte>, odLen: nat, k: nat, rx: seq<byte>)
    requires Alike(buf, b) && |rx| == odLen && Offset(k + 1, odLen) <= IsduMaxSize
    ensures Alike(Store(buf, odLen, k, rx), Store(b, odLen, k, rx))
    ensures Store(b, odLen, k, rx) == Store(buf, odLen, k, rx)[..IsduMaxSize] + b[IsduMaxSize..]
  {
    AlikeSlice(buf, b, 0, Offset(k, odLen));
    AlikeSlice(buf, b, Offset(k + 1, odLen), IsduMaxSize);
    var s := Store(b, odLen, k, rx);
    assert s[..IsduMaxSize] == b[..Offset(k, odLen)] + rx + b[Offset(k + 1, odLen)..IsduMaxSize];
    assert Store(buf, odLen, k, rx)[..IsduMaxSize] == buf[..Offset(k, odLen)] + rx + buf[Offset(k + 1, odLen)..IsduMaxSize];
  }

  lemma AlikeReceived(h: Handler, b: seq<byte>)
    requires Alike(h.buf, b) && h.totalLen <= IsduMaxSize && PayloadEnd(h.buf, [Received(h)]) <= IsduMaxSize
    ensures Received(h.(buf := b)) == Received(h)
  {
    AlikeSlice(h.buf, b, 0, 2);
    assert b[0] == b[..2][0] == h.buf[..2][0] && b[1] == b[..2][1] == h.buf[..2][1];
    AlikeSlice(h.buf, b, 0, h.totalLen);
    var at := if h.buf[0] % 16 == 1 then 2 else 1;
    AlikeSlice(h.buf, b, at, at + |Received(h).data|);
  }

  lemma AlikeMeasured(h: Handler, b: seq<byte>, odLen: nat)
    requires Alike(h.buf, b) && OdLength(odLen)
    ensures Measured(h.(buf := b), odLen) == Measured(h, odLen).(buf := b)
    ensures b[0] == h.buf[0] && b[1] == h.buf[1]
  {
    AlikeSlice(h.buf, b, 0, 2);
    assert b[0] == b[..2][0] == h.buf[..2][0] && b[1] == b[..2][1] == h.buf[..2][1];
  }

  /** A response is complete only when all it counts has been stored. */
  lemma TotalStored(g: Handler, odLen: nat)
    requires OdLength(odLen) && |g.buf| == BufferSize
    ensures var m := Measured(g, odLen); m.totalLen <= Offset(m.totalSeg, odLen)
  {
    CountFits(Measured(g, odLen).totalLen, odLen);
  }

  lemma ErrorUnmoved(h: Handler, e: Env, b: seq<byte>)
    requires Alike(h.buf, b)
    ensures EnterError(h.(buf := b), e) == (EnterError(h, e).0.(buf := b), EnterError(h, e).1)
    ensures ErrorStep(h.(buf := b), e) == (ErrorStep(h, e).0.(buf := b), ErrorStep(h, e).1)
  {
    AlikeSlice(h.buf, b, 0, 2);
    assert b[0] == b[..2][0] == h.buf[..2][0];
  }

  lemma CompleteUnmoved(m: Handler, b: seq<byte>)
    requires Alike(m.buf, b) && m.totalLen <= IsduMaxSize && PayloadEnd(m.buf, [Received(m)]) <= IsduMaxSize
    ensures ReceptionComplete(m.(buf := b)) == (ReceptionComplete(m).0.(buf := b), ReceptionComplete(m).1)
  {
    AlikeReceived(m, b);
  }

  /** The first segment of a response. */
  lemma FirstUnmoved(g: Handler, odLen: nat, b: seq<byte>)
    requires OdLength(odLen) && Alike(g.buf, b)
    requires
      var m := FirstTaken(g, odLen);
      m.seg >= m.totalSeg ==> PayloadEnd(m.buf, [Received(m)]) <= IsduMaxSize
    ensures
      var m := FirstTaken(g, odLen);
      var n := FirstTaken(g.(buf := b), odLen);
      n == m.(buf := b) &&
      (m.seg >= m.totalSeg ==> ReceptionComplete(n) == (ReceptionComplete(m).0.(buf := b), ReceptionComplete(m).1))
  {
    AlikeMeasured(g, b, odLen);
    TotalStored(g, odLen);
    var m := FirstTaken(g, odLen);
    if m.seg >= m.totalSeg {
      OffsetGrows(m.totalSeg, 1, odLen);
      CompleteUnmoved(m, b);
    }
  }

  lemma FirstSegmentUnmoved(g: Handler, e: Env, b: seq<byte>)
    requires OdLength(e.odLen) && g.state == Waiting && Alike(g.buf, b)
    requires PayloadEnd(FirstSegment(g, e).0.buf, FirstSegment(g, e).1) <= IsduMaxSize
    ensures FirstSegment(g.(buf := b), e) == (FirstSegment(g, e).0.(buf := b), FirstSegment(g, e).1)
  {
    AlikeMeasured(g, b, e.odLen);
    if g.buf[0] == 1 {
    } else if g.buf[0] == 0 || !ValidHeader(g.buf[0], g.dirRead) {
      ErrorUnmoved(g.(timerOn := false), e, b);
    } else {
      FirstUnmoved(g, e.odLen, b);
    }
  }

  lemma Rejoined(buf: seq<byte>, b: seq<byte>)
    requires Alike(buf, b)
    ensures buf[..IsduMaxSize] + b[IsduMaxSize..] == b
  {
  }

  lemma WaitUnmoved(h: Handler, e: Env, b: seq<byte>)
    requires Fits(h, e) && h.state == Waiting && h.seg == 0 && Alike(h.buf, b)
    requires PayloadEnd(HandlerStep(h, e).0.buf, HandlerStep(h, e).1) <= IsduMaxSize
    ensures Unmoved(h, e, b)
  {
    Rejoined(h.buf, b);
    if SegmentEnd(h, e) > 0 {
      AlikeStore(h.buf, b, e.odLen, 0, e.rx);
      var g := h.(buf := Store(h.buf, e.odLen, 0, e.rx));
      FirstSegmentUnmoved(g, e, Store(b, e.odLen, 0, e.rx));
      FirstSegmentBuffer(g, e);
    } else {
      StillWaitingUnmoved(h, e, b);
    }
  }

  lemma StillWaitingUnmoved(h: Handler, e: Env, b: seq<byte>)
    requires Fits(h, e) && h.state == Waiting && Alike(h.buf, b) && SegmentEnd(h, e) == 0
    ensures Unmoved(h, e, b)
  {
    Rejoined(h.buf, b);
    ErrorUnmoved(h, e, b);
    ErrorUnmoved(h.(timerOn := false), e, b);
    EnterErrorBuffer(h, e);
    EnterErrorBuffer(h.(timerOn := false), e);
  }

  lemma EnterErrorBuffer(h: Handler, e: Env)
    requires |h.buf| == BufferSize
    ensures EnterError(h, e).0.buf == h.buf && ErrorStep(h, e).0.buf == h.buf
  {
  }

  lemma FirstSegmentBuffer(g: Handler, e: Env)
    requires |g.buf| == BufferSize && OdLength(e.odLen)
    ensures FirstSegment(g, e).0.buf == g.buf
  {
    EnterErrorBuffer(g.(timerOn := false), e);
  }

  /** The handler with one more segment of the response. */
  function Lengthened(h: Handler, e: Env): Handler
    requires |e.rx| == e.odLen && |h.buf| == BufferSize && OdLength(e.odLen) && Offset(h.seg + 1, e.odLen) <= BufferSize
  {
    Measured(h, e.odLen).(buf := Store(h.buf, e.odLen, h.seg, e.rx), seg := (h.seg + 1) % 256)
  }

  lemma LengthenedUnmoved(h: Handler, e: Env, b: seq<byte>)
    requires |e.rx| == e.odLen && OdLength(e.odLen) && Alike(h.buf, b) && Offset(h.seg + 1, e.odLen) <= IsduMaxSize
    requires
      var g := Lengthened(h, e);
      g.seg >= g.totalSeg ==> PayloadEnd(g.buf, [Received(g)]) <= IsduMaxSize
    ensures
      var g, k, c := Lengthened(h, e), Lengthened(h.(buf := b), e), Store(b, e.odLen, h.seg, e.rx);
      && k == g.(buf := c) && c == g.buf[..IsduMaxSize] + b[IsduMaxSize..]
      && (g.seg >= g.totalSeg ==> ReceptionComplete(k) == (ReceptionComplete(g).0.(buf := c), ReceptionComplete(g).1))
  {
    AlikeMeasured(h, b, e.odLen);
    AlikeStore(h.buf, b, e.odLen, h.seg, e.rx);
    TotalStored(h, e.odLen);
    var g := Lengthened(h, e);
    if g.seg >= g.totalSeg {
      OffsetGrows(g.totalSeg, h.seg + 1, e.odLen);
      CompleteUnmoved(g, Store(b, e.odLen, h.seg, e.rx));
    }
  }

  lemma ResponseUnmoved(h: Handler, e: Env, b: seq<byte>)
    requires Fits(h, e) && h.state == Responding && Alike(h.buf, b) && SegmentEnd(h, e) <= IsduMaxSize
    requires PayloadEnd(HandlerStep(h, e).0.buf, HandlerStep(h, e).1) <= IsduMaxSize
    ensures Unmoved(h, e, b)
  {
    Rejoined(h.buf, b);
    if SegmentEnd(h, e) > 0 {
      LengthenedUnmoved(h, e, b);
    } else {
      ErrorUnmoved(h, e, b);
      EnterErrorBuffer(h, e);
    }
  }

  lemma OthersUnmoved(h: Handler, e: Env, b: seq<byte>)
    requires Fits(h, e) && h.state != Waiting && h.state != Responding
    requires Alike(h.buf, b) && SegmentEnd(h, e) <= IsduMaxSize
    ensures Unmoved(h, e, b)
  {
    AlikeMeasured(h, b, e.odLen);
    assert h.buf[..IsduMaxSize] + b[IsduMaxSize..] == b;
    if h.state == Idle && SegmentEnd(h, e) > 0 {
      AlikeSlice(h.buf, b, Offset(0, e.odLen), Offset(1, e.odLen));
    } else if h.state == Requesting && SegmentEnd(h, e) > 0 {
      AlikeSlice(h.buf, b, Offset(h.seg, e.odLen), Offset(h.seg + 1, e.odLen));
    }
  }

  lemma StaysWithin(h: Handler, e: Env)
    requires Fits(h, e) && (h.state == Waiting ==> h.seg == 0) && SegmentEnd(h, e) <= IsduMaxSize
    requires PayloadEnd(HandlerStep(h, e).0.buf, HandlerStep(h, e).1) <= IsduMaxSize
    ensures Within(h, e)
  {
    forall b: seq<byte> | |b| == BufferSize && b[..IsduMaxSize] == h.buf[..IsduMaxSize] ensures Unmoved(h, e, b) {
      if h.state == Waiting {
        WaitUnmoved(h, e, b);
      } else if h.state == Responding {
        ResponseUnmoved(h, e, b);
      } else {
        OthersUnmoved(h, e, b);
      }
    }
  }

  /** Other memory behind the buffer, different from `v` at `i`. */
  function Disturbed(buf: seq<byte>, i: nat, v: byte): (b: seq<byte>)
    requires |buf| == BufferSize && IsduMaxSize <= i < BufferSize
    ensures Alike(buf, b) && b[i] != v && forall j :: 0 <= j < BufferSize && j != i ==> b[j] == buf[j]
  {
    buf[i := if v == 0 then 1 else 0]
  }

  lemma SentSegmentMatters(h: Handler, e: Env)
    requires Fits(h, e) && h.state == Requesting && SegmentEnd(h, e) > IsduMaxSize
    ensures !Within(h, e)
  {
    var from := Offset(h.seg, e.odLen);
    var i := if from < IsduMaxSize then IsduMaxSize else from;
    var b := Disturbed(h.buf, i, h.buf[i]);
    assert Segment(h.buf, e.odLen, h.seg)[i - from] == h.buf[i];
    assert Segment(b, e.odLen, h.seg)[i - from] == b[i];
    assert !Unmoved(h, e, b);
  }

  lemma ResponseBuffer(h: Handler, e: Env)
    requires Fits(h, e) && h.state == Responding && SegmentEnd(h, e) > 0
    ensures HandlerStep(h, e).0.buf == Store(h.buf, e.odLen, h.seg, e.rx)
    ensures
      var g := Lengthened(h, e);
      HandlerStep(h, e) == if g.seg >= g.totalSeg then ReceptionComplete(g) else (g, [])
  {
  }

  lemma StoredSegmentMatters(h: Handler, e: Env)
    requires Fits(h, e) && h.state == Responding && SegmentEnd(h, e) > IsduMaxSize
    ensures !Within(h, e)
  {
    var from := Offset(h.seg, e.odLen);
    var i := if from < IsduMaxSize then IsduMaxSize else from;
    var b := Disturbed(h.buf, i, e.rx[i - from]);
    assert Store(b, e.odLen, h.seg, e.rx)[i] == e.rx[i - from];
    OverwrittenMatters(h, e, b, i);
  }

  /** The step overwrites what is at `i`, so it does not leave memory as it was. */
  lemma OverwrittenMatters(h: Handler, e: Env, b: seq<byte>, i: nat)
    requires Fits(h, e) && h.state == Responding && SegmentEnd(h, e) > 0 && Alike(h.buf, b)
    requires IsduMaxSize <= i < BufferSize && Store(b, e.odLen, h.seg, e.rx)[i] != b[i]
    ensures !Within(h, e)
  {
    ResponseBuffer(h.(buf := b), e);
    ResponseBuffer(h, e);
    assert WithTail(Store(h.buf, e.odLen, h.seg, e.rx), b)[i] == b[i];
    assert !Unmoved(h, e, b);
  }

  /** The payload of a response taken from other memory. */
  lemma OtherPayload(g: Handler, c: seq<byte>, p: nat)
    requires |g.buf| == BufferSize && |c| == BufferSize && c[0] == g.buf[0] && c[1] == g.buf[1]
    requires p == PayloadEnd(g.buf, [Received(g)]) > 0 && c[p - 1] != g.buf[p - 1]
    ensures Received(g.(buf := c)) != Received(g)
  {
    var n := |Received(g).data|;
    assert Received(g).data[n - 1] == g.buf[p - 1];
    assert Received(g.(buf := c)).data[n - 1] == c[p - 1];
  }

  lemma WaitDisturbed(h: Handler, e: Env, b: seq<byte>)
    requires Fits(h, e) && h.state == Waiting && h.seg == 0 && SegmentEnd(h, e) > 0 && Alike(h.buf, b)
    requires
      var g := h.(buf := Store(h.buf, e.odLen, 0, e.rx));
      && FirstTaken(g, e.odLen).seg >= FirstTaken(g, e.odLen).totalSeg
      && g.buf[0] != 1 && g.buf[0] != 0 && ValidHeader(g.buf[0], g.dirRead)
    ensures
      var g, c := h.(buf := Store(h.buf, e.odLen, 0, e.rx)), Store(b, e.odLen, 0, e.rx);
      HandlerStep(h.(buf := b), e).1 == [Received(FirstTaken(g, e.odLen).(buf := c))]
  {
    var g, c := h.(buf := Store(h.buf, e.odLen, 0, e.rx)), Store(b, e.odLen, 0, e.rx);
    AlikeStore(h.buf, b, e.odLen, 0, e.rx);
    AlikeMeasured(g, c, e.odLen);
    FirstConfirms(h.(buf := b), e, FirstTaken(g.(buf := c), e.odLen));
  }

  lemma WaitPayloadMatters(h: Handler, e: Env)
    requires Fits(h, e) && h.state == Waiting && h.seg == 0
    requires PayloadEnd(HandlerStep(h, e).0.buf, HandlerStep(h, e).1) > IsduMaxSize
    ensures !Within(h, e)
  {
    FirstCompletes(h, e);
    var m := FirstTaken(h.(buf := Store(h.buf, e.odLen, 0, e.rx)), e.odLen);
    var p := PayloadEnd(m.buf, [Received(m)]);
    var b := Disturbed(h.buf, p - 1, h.buf[p - 1]);
    StoredFront(h.buf, b, e.odLen, 0, e.rx, p - 1);
    WaitDisturbed(h, e, b);
    DifferentPayload(h, e, b, m, Store(b, e.odLen, 0, e.rx), p);
  }

  function FirstTaken(g: Handler, odLen: nat): Handler
    requires |g.buf| == BufferSize && OdLength(odLen)
  {
    Measured(g, odLen).(seg := 1, timerOn := false)
  }

  lemma FirstConfirms(h: Handler, e: Env, m: Handler)
    requires Fits(h, e) && h.state == Waiting && h.seg == 0 && SegmentEnd(h, e) > 0
    requires
      var g := h.(buf := Store(h.buf, e.odLen, 0, e.rx));
      && m == FirstTaken(g, e.odLen) && m.seg >= m.totalSeg
      && g.buf[0] != 1 && g.buf[0] != 0 && ValidHeader(g.buf[0], g.dirRead)
    ensures HandlerStep(h, e).1 == [Received(m)]
  {
  }

  /** Confirmations taken from `m` and, with other memory, from `c`, differ. */
  lemma DifferentPayload(h: Handler, e: Env, b: seq<byte>, m: Handler, c: seq<byte>, p: nat)
    requires Fits(h, e) && |b| == BufferSize && Alike(h.buf, b)
    requires |m.buf| == BufferSize && |c| == BufferSize && c[0] == m.buf[0] && c[1] == m.buf[1]
    requires p == PayloadEnd(m.buf, [Received(m)]) > 0 && c[p - 1] != m.buf[p - 1]
    requires HandlerStep(h, e).1 == [Received(m)] && HandlerStep(h.(buf := b), e).1 == [Received(m.(buf := c))]
    ensures !Within(h, e)
  {
    OtherPayload(m, c, p);
    assert !Unmoved(h, e, b);
  }

  /** A payload comes only with a complete first segment. */
  lemma FirstCompletes(h: Handler, e: Env)
    requires Fits(h, e) && h.state == Waiting && h.seg == 0
    requires PayloadEnd(HandlerStep(h, e).0.buf, HandlerStep(h, e).1) > 0
    ensures
      var g := h.(buf := Store(h.buf, e.odLen, 0, e.rx));
      var m := FirstTaken(g, e.odLen);
      && SegmentEnd(h, e) > 0 && m.seg >= m.totalSeg && HandlerStep(h, e).1 == [Received(m)]
      && PayloadEnd(HandlerStep(h, e).0.buf, HandlerStep(h, e).1) == PayloadEnd(m.buf, [Received(m)])
      && g.buf[0] != 1 && g.buf[0] != 0 && ValidHeader(g.buf[0], g.dirRead)
  {
    NoPayload(h, e);
    NoPayload(h.(timerOn := false), e);
    NoPayload(h.(timerOn := false, buf := Store(h.buf, e.odLen, 0, e.rx)), e);
  }

  lemma NoPayload(h: Handler, e: Env)
    requires |h.buf| == BufferSize
    ensures PayloadEnd(EnterError(h, e).0.buf, EnterError(h, e).1) == 0
    ensures PayloadEnd(ErrorStep(h, e).0.buf, ErrorStep(h, e).1) == 0
  {
  }

  lemma StoredFront(buf: seq<byte>, b: seq<byte>, odLen: nat, k: nat, rx: seq<byte>, i: nat)
    requires Alike(buf, b) && |rx| == odLen && Offset(k + 1, odLen) <= IsduMaxSize <= i < BufferSize
    ensures
      var s, c := Store(buf, odLen, k, rx), Store(b, odLen, k, rx);
      c[0] == s[0] && c[1] == s[1] && c[i] == b[i] && s[i] == buf[i]
  {
    AlikeStore(buf, b, odLen, k, rx);
    AlikeStore(buf, buf, odLen, k, rx);
    AlikeSlice(Store(buf, odLen, k, rx), Store(b, odLen, k, rx), 0, 2);
    var s, c := Store(buf, odLen, k, rx), Store(b, odLen, k, rx);
    assert c[0] == c[0..2][0] == s[0..2][0] && c[1] == c[0..2][1] == s[0..2][1];
  }

  lemma ResponseCompletes(h: Handler, e: Env)
    requires Fits(h, e) && h.state == Responding
    requires PayloadEnd(HandlerStep(h, e).0.buf, HandlerStep(h, e).1) > 0
    ensures SegmentEnd(h, e) > 0
    ensures
      var g := Lengthened(h, e);
      && g.seg >= g.totalSeg && HandlerStep(h, e).1 == [Received(g)]
      && PayloadEnd(HandlerStep(h, e).0.buf, HandlerStep(h, e).1) == PayloadEnd(g.buf, [Received(g)])
  {
    NoPayload(h, e);
    if SegmentEnd(h, e) > 0 {
      ResponseBuffer(h, e);
    }
  }

  lemma ResponseDisturbed(h: Handler, e: Env, b: seq<byte>)
    requires Fits(h, e) && h.state == Responding && 0 < SegmentEnd(h, e) <= IsduMaxSize && Alike(h.buf, b)
    requires Lengthened(h, e).seg >= Lengthened(h, e).totalSeg
    ensures
      var g, c := Lengthened(h, e), Store(b, e.odLen, h.seg, e.rx);
      HandlerStep(h.(buf := b), e).1 == [Received(g.(buf := c))]
  {
    AlikeMeasured(h, b, e.odLen);
    ResponseBuffer(h.(buf := b), e);
    assert Lengthened(h.(buf := b), e) == Lengthened(h, e).(buf := Store(b, e.odLen, h.seg, e.rx));
  }

  lemma ResponsePayloadMatters(h: Handler, e: Env)
    requires Fits(h, e) && h.state == Responding && SegmentEnd(h, e) <= IsduMaxSize
    requires PayloadEnd(HandlerStep(h, e).0.buf, HandlerStep(h, e).1) > IsduMaxSize
    ensures !Within(h, e)
  {
    ResponseCompletes(h, e);
    var g := Lengthened(h, e);
    var p := PayloadEnd(g.buf, [Received(g)]);
    var b := Disturbed(h.buf, p - 1, h.buf[p - 1]);
    StoredFront(h.buf, b, e.odLen, h.seg, e.rx, p - 1);
    ResponseDisturbed(h, e, b);
    DifferentPayload(h, e, b, g, Store(b, e.odLen, h.seg, e.rx), p);
  }

  lemma OthersHaveNoPayload(h: Handler, e: Env)
    requires Fits(h, e) && h.state != Waiting && h.state != Responding
    ensures PayloadEnd(HandlerStep(h, e).0.buf, HandlerStep(h, e).1) == 0
  {
    NoPayload(h, e);
  }

  /** A step stays within the 241 bytes of the buffer if and only if the segment it
      sends or stores ends there, and the payload it confirms does. */
  lemma WithinExactly(h: Handler, e: Env)
    requires Fits(h, e) && (h.state == Waiting ==> h.seg == 0)
    ensures Within(h, e) <==>
            && SegmentEnd(h, e) <= IsduMaxSize
            && PayloadEnd(HandlerStep(h, e).0.buf, HandlerStep(h, e).1) <= IsduMaxSize
  {
    var over := PayloadEnd(HandlerStep(h, e).0.buf, HandlerStep(h, e).1) > IsduMaxSize;
    if SegmentEnd(h, e) > IsduMaxSize {
      if h.state == Requesting {
        SentSegmentMatters(h, e);
      } else {
        StoredSegmentMatters(h, e);
      }
    } else if over {
      if h.state == Waiting {
        WaitPayloadMatters(h, e);
      } else if h.state == Responding {
        ResponsePayloadMatters(h, e);
      } else {
        OthersHaveNoPayload(h, e);
      }
    } else {
      StaysWithin(h, e);
    }
  }

  // --- Whole transfers ---------------------------------------------------------------

  /** Both steps of a round stay within the buffer. */
  ghost predicate RoundWithin(h: Handler, odLen: nat, rx: seq<byte>) {
    && Inv(h, odLen, MasterMessage) && |rx| == odLen
    && (StepKeepsInv(h, Calm(MasterMessage, odLen, rx), MasterMessage);
        var g := HandlerStep(h, Calm(MasterMessage, odLen, rx)).0;
        StepKeepsInv(g, Calm(DeviceMessage, odLen, rx), DeviceMessage);
        Within(h, Calm(MasterMessage, odLen, rx)) && Within(g, Calm(DeviceMessage, odLen, rx)))
  }

  /** The round that sends segment `k`. */
  lemma SendWithin(h: Handler, odLen: nat, k: nat, rx: seq<byte>)
    requires Loaded(h, odLen) && k < h.totalSeg && |rx| == odLen && Offset(k + 1, odLen) < BufferSize
    ensures RoundWithin(if k == 0 then h else Sent(h, k), odLen, rx) <==> Offset(k + 1, odLen) <= IsduMaxSize
  {
    var s, g := if k == 0 then h else Sent(h, k), h.(state := Requesting, seg := k + 1);
    var master, device := Calm(MasterMessage, odLen, rx), Calm(DeviceMessage, odLen, rx);
    if k == 0 {
      assert IdleStep(s, master) == (g, [Frame(h.buf, odLen, 0)]);
    } else {
      SendNext(h, odLen, k, rx);
      assert RequestStep(s, master) == (g, [Frame(h.buf, odLen, k)]);
    }
    WithinExactly(s, master);
    assert RequestStep(g, device).1 == [];
    WithinExactly(g, device);
  }

  /** A round in which the handler reads, by what the whole round emits. */
  lemma ReadWithin(h: Handler, odLen: nat, k: nat, rx: seq<byte>)
    requires Inv(h, odLen, MasterMessage) && |rx| == odLen && h.active && h.rwcmd == RwIsduTransport
    requires h.seg == k && (h.state == Waiting || h.state == Responding)
    requires PayloadEnd(Round(h, odLen, rx).0.buf, Round(h, odLen, rx).1) <= Offset(k + 1, odLen)
    ensures RoundWithin(h, odLen, rx) <==> Offset(k + 1, odLen) <= IsduMaxSize
  {
    var master, device := Calm(MasterMessage, odLen, rx), Calm(DeviceMessage, odLen, rx);
    assert HandlerStep(h, master) == (h, [ReadFrame(k)]);
    WithinExactly(h, master);
    StepKeepsInv(h, device, DeviceMessage);
    ReadPayload(h, odLen, k, rx);
    WithinExactly(h, device);
  }

  lemma ReadPayload(h: Handler, odLen: nat, k: nat, rx: seq<byte>)
    requires Inv(h, odLen, MasterMessage) && |rx| == odLen && h.active && h.rwcmd == RwIsduTransport
    requires HandlerStep.requires(h, Calm(MasterMessage, odLen, rx)) && HandlerStep.requires(h, Calm(DeviceMessage, odLen, rx))
    requires HandlerStep(h, Calm(MasterMessage, odLen, rx)) == (h, [ReadFrame(k)])
    ensures
      var (g, outs) := HandlerStep(h, Calm(DeviceMessage, odLen, rx));
      PayloadEnd(g.buf, outs) == PayloadEnd(Round(h, odLen, rx).0.buf, Round(h, odLen, rx).1)
  {
    var (g, outs) := HandlerStep(h, Calm(DeviceMessage, odLen, rx));
    assert Round(h, odLen, rx) == (g, [ReadFrame(k)] + outs);
  }

  /** Round `k` of a transaction stays within the buffer. */
  ghost predicate Stays(c: Course, k: nat)
    requires k < |c.rxs| && |c.hs| == |c.rxs| + 1
  {
    RoundWithin(c.hs[k], c.odLen, c.rxs[k])
  }

  lemma RequestRoundStays(c: Course, h: Handler, r: Request, k: nat)
    requires Inv(h, c.odLen, MasterMessage) && h.state == Idle && h.active && Encodable(r)
    requires Trace(c.hs, c.outs, c.odLen, c.rxs) && c.hs[0] == Accept(h, true, r, c.odLen).0
    requires k < SegmentCount(|Encode(r)|, c.odLen) && k < |c.rxs|
    ensures Stays(c, k) <==> Offset(k + 1, c.odLen) <= IsduMaxSize
  {
    CountFits(|Encode(r)|, c.odLen);
    SegmentCountCovers(|Encode(r)|, c.odLen);
    SendSegments(c.hs, c.outs, c.odLen, c.rxs, k);
    SendStep(c.hs, c.outs, c.odLen, c.rxs, k);
    SendWithin(c.hs[0], c.odLen, k, c.rxs[k]);
  }

  lemma BusyRoundStays(c: Course, k: nat, dirRead: bool)
    requires Trace(c.hs, c.outs, c.odLen, c.rxs) && k < |c.rxs| && Busy(c.rxs[k])
    requires Awaiting(c.hs[k], c.odLen, dirRead)
    ensures Stays(c, k)
  {
    BusyRound(c.hs[k], c.odLen, c.rxs[k], dirRead);
    ReadWithin(c.hs[k], c.odLen, 0, c.rxs[k]);
    OffsetIsProduct(1, c.odLen);
  }

  /** A round of the response, by what it emits. */
  lemma ResponseRoundStays(c: Course, k: nat, j: nat, resp: seq<byte>, dirRead: bool)
    requires Trace(c.hs, c.outs, c.odLen, c.rxs) && k < |c.rxs| && OdLength(c.odLen)
    requires WellFormedResponse(resp, dirRead) && j < SegmentCount(|resp|, c.odLen)
    requires
      var h := c.hs[k];
      h.active && h.rwcmd == RwIsduTransport && h.seg == j && (h.state == Waiting || h.state == Responding)
    requires c.outs[k] == if j + 1 < SegmentCount(|resp|, c.odLen) then [ReadFrame(j)] else [ReadFrame(j), Expected(resp, dirRead)]
    ensures Stays(c, k) <==> Offset(j + 1, c.odLen) <= IsduMaxSize
  {
    assert RoundAt(c.hs, c.outs, c.odLen, c.rxs, k);
    assert IsRound((c.hs[k + 1], c.outs[k]), c.hs[k], c.odLen, c.rxs[k]);
    CountFits(|resp|, c.odLen);
    ReadWithin(c.hs[k], c.odLen, j, c.rxs[k]);
  }

  /** The handler before round `j` of a response, and what that round emits. */
  lemma ResponseRound(c: Course, m: nat, resp: seq<byte>, stream: seq<byte>, dirRead: bool, j: nat)
    requires OdLength(c.odLen) && Trace(c.hs, c.outs, c.odLen, c.rxs) && m < |c.rxs| && Awaiting(c.hs[m], c.odLen, dirRead)
    requires WellFormedResponse(resp, dirRead) && Carries(stream, resp, c.odLen) && !Misread(resp, c.odLen, c.hs[m].buf[1])
    requires Streams(c.rxs, m, stream, SegmentCount(|resp|, c.odLen), c.odLen) && j < SegmentCount(|resp|, c.odLen)
    ensures
      var h := c.hs[m + j];
      h.active && h.rwcmd == RwIsduTransport && h.seg == j && (h.state == Waiting || h.state == Responding)
    ensures c.outs[m + j] ==
            if j + 1 < SegmentCount(|resp|, c.odLen) then [ReadFrame(j)] else [ReadFrame(j), Expected(resp, dirRead)]
  {
    if j > 0 {
      ReceiveSegments(c.hs, c.outs, c.odLen, c.rxs, m, resp, stream, dirRead, j);
    }
    if j + 1 < SegmentCount(|resp|, c.odLen) {
      TakeStep(c.hs, c.outs, c.odLen, c.rxs, m, resp, stream, dirRead, j);
    } else {
      LastRound(c, m, resp, stream, dirRead, j + 1, c.hs[m].buf[1]);
    }
  }

  /** How far round `k` of a transaction reaches into the buffer, with `n` rounds of
      request and `b` busy replies. */
  function Reach(n: nat, b: nat, odLen: nat, k: nat): nat {
    if k < n then Offset(k + 1, odLen) else if k < n + b then 0 else Offset(k - n - b + 1, odLen)
  }

  lemma WaitingRoundStays(c: Course, h: Handler, r: Request, resp: seq<byte>, stream: seq<byte>, k: nat)
    requires Transaction(c, h, r, resp, stream)
    requires SegmentCount(|Encode(r)|, c.odLen) <= k < SegmentCount(|Encode(r)|, c.odLen) + c.b
    ensures Stays(c, k)
  {
    var n := SegmentCount(|Encode(r)|, c.odLen);
    RequestRoundTrip(h, r, c.hs, c.outs, c.odLen, c.rxs);
    WaitingAfterRequest(c, h, r);
    BusyRounds(c.hs, c.outs, c.odLen, c.rxs, n, k - n, r.read);
    BusyRoundStays(c, k, r.read);
  }

  lemma ResponseSegmentStays(c: Course, m: nat, resp: seq<byte>, stream: seq<byte>, dirRead: bool, j: nat)
    requires OdLength(c.odLen) && Trace(c.hs, c.outs, c.odLen, c.rxs) && m < |c.rxs| && Awaiting(c.hs[m], c.odLen, dirRead)
    requires WellFormedResponse(resp, dirRead) && Carries(stream, resp, c.odLen) && !Misread(resp, c.odLen, c.hs[m].buf[1])
    requires Streams(c.rxs, m, stream, SegmentCount(|resp|, c.odLen), c.odLen) && j < SegmentCount(|resp|, c.odLen)
    ensures Stays(c, m + j) <==> Offset(j + 1, c.odLen) <= IsduMaxSize
  {
    ResponseRound(c, m, resp, stream, dirRead, j);
    ResponseRoundStays(c, m + j, j, resp, dirRead);
  }

  /** The handler awaits the response from round `m` on. */
  lemma ResponseBegins(c: Course, h: Handler, r: Request, resp: seq<byte>, stream: seq<byte>, m: nat)
    requires Transaction(c, h, r, resp, stream) && !Misread(resp, c.odLen, Encode(r)[1])
    requires m == SegmentCount(|Encode(r)|, c.odLen) + c.b
    ensures m < |c.rxs| && Awaiting(c.hs[m], c.odLen, r.read) && !Misread(resp, c.odLen, c.hs[m].buf[1])
  {
    WaitsForResponse(c, h, r, resp, stream);
  }

  lemma ReceivingRoundStays(c: Course, h: Handler, r: Request, resp: seq<byte>, stream: seq<byte>, m: nat, j: nat)
    requires Transaction(c, h, r, resp, stream) && !Misread(resp, c.odLen, Encode(r)[1])
    requires m == SegmentCount(|Encode(r)|, c.odLen) + c.b && j < SegmentCount(|resp|, c.odLen)
    ensures Stays(c, m + j) <==> Offset(j + 1, c.odLen) <= IsduMaxSize
  {
    ResponseBegins(c, h, r, resp, stream, m);
    ResponseSegmentStays(c, m, resp, stream, r.read, j);
  }

  lemma RoundStays(c: Course, h: Handler, r: Request, resp: seq<byte>, stream: seq<byte>, n: nat, k: nat)
    requires Transaction(c, h, r, resp, stream) && !Misread(resp, c.odLen, Encode(r)[1]) && k < |c.rxs|
    requires n == SegmentCount(|Encode(r)|, c.odLen)
    ensures Stays(c, k) <==> Reach(n, c.b, c.odLen, k) <= IsduMaxSize
  {
    if k < n {
      RequestRoundStays(c, h, r, k);
    } else if k < n + c.b {
      WaitingRoundStays(c, h, r, resp, stream, k);
    } else {
      ReceivingRoundStays(c, h, r, resp, stream, n + c.b, k - n - c.b);
    }
  }

  /** `total` bytes, rounded up to whole segments, fit the buffer. */
  predicate RoundsWithin(total: nat, odLen: nat)
    requires odLen > 0
  {
    Offset(SegmentCount(total, odLen), odLen) <= IsduMaxSize
  }

  /** No round reaches further than the last of the request or of the response. */
  lemma ReachBounded(n: nat, b: nat, last: nat, odLen: nat, k: nat)
    requires k < n + b + last && Offset(n, odLen) <= IsduMaxSize && Offset(last, odLen) <= IsduMaxSize
    ensures Reach(n, b, odLen, k) <= IsduMaxSize
  {
    if k < n {
      OffsetGrows(k + 1, n, odLen);
    } else if k >= n + b {
      OffsetGrows(k - n - b + 1, last, odLen);
    }
  }

  /** The rounds that stay are those that do not reach too far. */
  ghost predicate StayByReach(c: Course, n: nat)
    requires |c.hs| == |c.rxs| + 1
  {
    forall k :: 0 <= k < |c.rxs| ==> (Stays(c, k) <==> Reach(n, c.b, c.odLen, k) <= IsduMaxSize)
  }

  lemma AllStay(c: Course, n: nat, last: nat)
    requires |c.hs| == |c.rxs| + 1 && |c.rxs| == n + c.b + last && StayByReach(c, n)
    requires Offset(n, c.odLen) <= IsduMaxSize && Offset(last, c.odLen) <= IsduMaxSize
    ensures forall k :: 0 <= k < |c.rxs| ==> Stays(c, k)
  {
    forall k | 0 <= k < |c.rxs| ensures Stays(c, k) {
      ReachBounded(n, c.b, last, c.odLen, k);
    }
  }

  lemma OneLeaves(c: Course, n: nat, last: nat)
    requires n > 0 && last > 0 && |c.hs| == |c.rxs| + 1 && |c.rxs| == n + c.b + last && StayByReach(c, n)
    requires Offset(n, c.odLen) > IsduMaxSize || Offset(last, c.odLen) > IsduMaxSize
    ensures exists k :: 0 <= k < |c.rxs| && !Stays(c, k)
  {
    var k := if Offset(n, c.odLen) > IsduMaxSize then n - 1 else n + c.b + last - 1;
    assert Reach(n, c.b, c.odLen, k) > IsduMaxSize;
    assert !Stays(c, k);
  }

  lemma AllByReach(c: Course, h: Handler, r: Request, resp: seq<byte>, stream: seq<byte>, n: nat)
    requires Transaction(c, h, r, resp, stream) && !Misread(resp, c.odLen, Encode(r)[1])
    requires n == SegmentCount(|Encode(r)|, c.odLen)
    ensures StayByReach(c, n)
  {
    forall k | 0 <= k < |c.rxs| ensures Stays(c, k) <==> Reach(n, c.b, c.odLen, k) <= IsduMaxSize {
      RoundStays(c, h, r, resp, stream, n, k);
    }
  }

  /** A transfer whose length is read right stays within the 241 bytes of the buffer if
      and only if request and response, each rounded up to whole segments, do. */
  lemma ReadRightWithinExactly(c: Course, h: Handler, r: Request, resp: seq<byte>, stream: seq<byte>)
    requires Transaction(c, h, r, resp, stream) && !Misread(resp, c.odLen, Encode(r)[1])
    ensures (forall k :: 0 <= k < |c.rxs| ==> Stays(c, k)) <==>
            RoundsWithin(|Encode(r)|, c.odLen) && RoundsWithin(|resp|, c.odLen)
  {
    var n, last := SegmentCount(|Encode(r)|, c.odLen), SegmentCount(|resp|, c.odLen);
    SegmentCountCovers(|Encode(r)|, c.odLen);
    SegmentCountCovers(|resp|, c.odLen);
    AllByReach(c, h, r, resp, stream, n);
    if Offset(n, c.odLen) <= IsduMaxSize && Offset(last, c.odLen) <= IsduMaxSize {
      AllStay(c, n, last);
    } else {
      OneLeaves(c, n, last);
    }
  }

  // --- Transfers whose length is misread ------------------------------------------------

  /** A handler that has nothing to do. */
  predicate Resting(h: Handler) {
    h.state == Idle && h.active && h.rwcmd == RwNone
  }

  lemma RestingStays(h: Handler, odLen: nat, rx: seq<byte>)
    requires Inv(h, odLen, MasterMessage) && |rx| == odLen && Resting(h)
    ensures RoundWithin(h, odLen, rx) && Round(h, odLen, rx).0 == h
  {
    assert IdleStep(h, Calm(MasterMessage, odLen, rx)) == (h, [Od(OdReq(false, IsduChannel, FlowIdle1, []))]);
    assert IdleStep(h, Calm(DeviceMessage, odLen, rx)) == (h, []);
    WithinExactly(h, Calm(MasterMessage, odLen, rx));
    WithinExactly(h, Calm(DeviceMessage, odLen, rx));
  }

  lemma {:induction false} RestStays(c: Course, m: nat, k: nat)
    requires Trace(c.hs, c.outs, c.odLen, c.rxs) && m <= k < |c.rxs| && Resting(c.hs[m])
    ensures Stays(c, k) && c.hs[k + 1] == c.hs[m]
    decreases k - m
  {
    if k > m {
      RestStays(c, m, k - 1);
    }
    assert RoundAt(c.hs, c.outs, c.odLen, c.rxs, k);
    assert IsRound((c.hs[k + 1], c.outs[k]), c.hs[k], c.odLen, c.rxs[k]);
    RestingStays(c.hs[k], c.odLen, c.rxs[k]);
  }

  /** The first byte, with a request byte behind it that is no length. */
  lemma StaleFirstStays(h: Handler, r: seq<byte>, dirRead: bool, rx: seq<byte>)
    requires Awaiting(h, 1, dirRead) && WellFormedResponse(r, dirRead) && Extended(r)
    requires |rx| == 1 && rx[0] == r[0] && TotalLen(r[0], h.buf[1]).None?
    ensures RoundWithin(h, 1, rx) && Resting(Round(h, 1, rx).0)
  {
    FirstOfResponse(h, r, 1, dirRead, rx);
    TakeFirstStale(h, r, dirRead, rx);
    OffsetIsProduct(1, 1);
    ReadWithin(h, 1, 0, rx);
  }

  /** The second byte, while the handler believes in a total of two: it reads off the
      announced length all the same. */
  lemma StaleSecondStays(h: Handler, r: seq<byte>, stream: seq<byte>, dirRead: bool, rx: seq<byte>)
    requires Taken(h, r, stream, 1, dirRead, 1, 2) && Extended(r) && rx == Segment(stream, 1, 1)
    ensures RoundWithin(h, 1, rx) <==> |r| <= IsduMaxSize + 1
    ensures Resting(Round(h, 1, rx).0)
  {
    RespondingRound(h, 1, rx);
    TakenMeasures(h, r, stream, 1, dirRead, 1, 2);
    StoreExtends(h.buf, stream, 1, 1, rx);
    OffsetIsProduct(2, 1);
    var g := Continued(h, 1, rx);
    assert g.buf[0] == g.buf[..2][0] == stream[..2][0] == r[0];
    assert g.buf[1] == g.buf[..2][1] == stream[..2][1] == r[1];
    LateLength(g, r, dirRead);
    SecondByteStays(h, rx, g);
  }

  lemma LateLength(g: Handler, r: seq<byte>, dirRead: bool)
    requires WellFormedResponse(r, dirRead) && Extended(r) && |g.buf| == BufferSize && g.buf[0] == r[0] && g.buf[1] == r[1]
    ensures PayloadEnd(g.buf, [Received(g)]) == |r| - 1
  {
    assert |Received(g).data| == |r| - 3;
  }

  lemma SecondByteStays(h: Handler, rx: seq<byte>, g: Handler)
    requires Inv(h, 1, MasterMessage) && |rx| == 1 && h.state == Responding && h.active && h.rwcmd == RwIsduTransport && h.seg == 1
    requires |g.buf| == BufferSize && Round(h, 1, rx).1 == [ReadFrame(1)] + [Received(g)] && Round(h, 1, rx).0.buf == g.buf
    ensures RoundWithin(h, 1, rx) <==> PayloadEnd(g.buf, [Received(g)]) <= IsduMaxSize
  {
    var master, device := Calm(MasterMessage, 1, rx), Calm(DeviceMessage, 1, rx);
    assert HandlerStep(h, master) == (h, [ReadFrame(1)]);
    WithinExactly(h, master);
    StepKeepsInv(h, device, DeviceMessage);
    ReadPayload(h, 1, 1, rx);
    OffsetIsProduct(2, 1);
    WithinExactly(h, device);
  }

  /** The rounds from `m` on of a response whose length is misread. */
  lemma MisreadRoundsStay(c: Course, m: nat, resp: seq<byte>, stream: seq<byte>, dirRead: bool)
    requires Trace(c.hs, c.outs, 1, c.rxs) && c.odLen == 1 && m + 17 <= |c.rxs| && Awaiting(c.hs[m], 1, dirRead)
    requires WellFormedResponse(resp, dirRead) && Carries(stream, resp, 1) && Misread(resp, 1, c.hs[m].buf[1])
    requires Streams(c.rxs, m, stream, |resp|, 1)
    ensures (forall k :: m <= k < |c.rxs| ==> Stays(c, k)) <==> c.hs[m].buf[1] != 2 || |resp| <= IsduMaxSize + 1
  {
    if c.hs[m].buf[1] != 2 {
      NoLengthStays(c, m, resp, stream, dirRead);
    } else {
      TwoBytesStay(c, m, resp, stream, dirRead);
    }
  }

  lemma NoLengthStays(c: Course, m: nat, resp: seq<byte>, stream: seq<byte>, dirRead: bool)
    requires Trace(c.hs, c.outs, 1, c.rxs) && c.odLen == 1 && m + 17 <= |c.rxs| && Awaiting(c.hs[m], 1, dirRead)
    requires WellFormedResponse(resp, dirRead) && Carries(stream, resp, 1) && Misread(resp, 1, c.hs[m].buf[1])
    requires Streams(c.rxs, m, stream, |resp|, 1) && c.hs[m].buf[1] != 2
    ensures forall k :: m <= k < |c.rxs| ==> Stays(c, k)
  {
    assert RoundAt(c.hs, c.outs, 1, c.rxs, m);
    assert IsRound((c.hs[m + 1], c.outs[m]), c.hs[m], 1, c.rxs[m]);
    StaleFirstStays(c.hs[m], resp, dirRead, c.rxs[m]);
    forall k | m < k < |c.rxs| ensures Stays(c, k) {
      RestStays(c, m + 1, k);
    }
  }

  lemma FirstOfTwoStays(c: Course, m: nat, resp: seq<byte>, stream: seq<byte>, dirRead: bool)
    requires Trace(c.hs, c.outs, 1, c.rxs) && c.odLen == 1 && m + 17 <= |c.rxs| && Awaiting(c.hs[m], 1, dirRead)
    requires WellFormedResponse(resp, dirRead) && Carries(stream, resp, 1) && Misread(resp, 1, c.hs[m].buf[1])
    requires Streams(c.rxs, m, stream, |resp|, 1) && c.hs[m].buf[1] == 2
    ensures Stays(c, m) && Taken(c.hs[m + 1], resp, stream, 1, dirRead, 1, 2)
  {
    assert RoundAt(c.hs, c.outs, 1, c.rxs, m);
    assert IsRound((c.hs[m + 1], c.outs[m]), c.hs[m], 1, c.rxs[m]);
    OffsetIsProduct(1, 1);
    OffsetIsProduct(SegmentCount(|resp|, 1), 1);
    TakeFirst(c.hs[m], resp, stream, 1, dirRead, c.rxs[m]);
    ReadWithin(c.hs[m], 1, 0, c.rxs[m]);
  }

  lemma SecondOfTwoStays(c: Course, m: nat, resp: seq<byte>, stream: seq<byte>, dirRead: bool)
    requires Trace(c.hs, c.outs, 1, c.rxs) && c.odLen == 1 && m + 17 <= |c.rxs| && Extended(resp)
    requires Taken(c.hs[m + 1], resp, stream, 1, dirRead, 1, 2) && Streams(c.rxs, m, stream, |resp|, 1)
    ensures Stays(c, m + 1) <==> |resp| <= IsduMaxSize + 1
    ensures Resting(c.hs[m + 2])
  {
    assert RoundAt(c.hs, c.outs, 1, c.rxs, m + 1);
    assert IsRound((c.hs[m + 2], c.outs[m + 1]), c.hs[m + 1], 1, c.rxs[m + 1]);
    StaleSecondStays(c.hs[m + 1], resp, stream, dirRead, c.rxs[m + 1]);
  }

  lemma TwoBytesStay(c: Course, m: nat, resp: seq<byte>, stream: seq<byte>, dirRead: bool)
    requires Trace(c.hs, c.outs, 1, c.rxs) && c.odLen == 1 && m + 17 <= |c.rxs| && Awaiting(c.hs[m], 1, dirRead)
    requires WellFormedResponse(resp, dirRead) && Carries(stream, resp, 1) && Misread(resp, 1, c.hs[m].buf[1])
    requires Streams(c.rxs, m, stream, |resp|, 1) && c.hs[m].buf[1] == 2
    ensures (forall k :: m <= k < |c.rxs| ==> Stays(c, k)) <==> |resp| <= IsduMaxSize + 1
  {
    FirstOfTwoStays(c, m, resp, stream, dirRead);
    SecondOfTwoStays(c, m, resp, stream, dirRead);
    forall k | m + 1 < k < |c.rxs| ensures Stays(c, k) {
      RestStays(c, m + 2, k);
    }
    OnlySecondMatters(c, m);
  }

  lemma OnlySecondMatters(c: Course, m: nat)
    requires |c.hs| == |c.rxs| + 1 && m + 1 < |c.rxs|
    requires Stays(c, m) && forall k :: m + 1 < k < |c.rxs| ==> Stays(c, k)
    ensures (forall k :: m <= k < |c.rxs| ==> Stays(c, k)) <==> Stays(c, m + 1)
  {
    if Stays(c, m + 1) {
      forall k | m <= k < |c.rxs| ensures Stays(c, k) {
      }
    }
  }

  /** With one-byte messages a request never leaves the buffer. */
  lemma ShortMessagesStay(c: Course, h: Handler, r: Request, resp: seq<byte>, stream: seq<byte>, k: nat)
    requires Transaction(c, h, r, resp, stream) && c.odLen == 1 && k < SegmentCount(|Encode(r)|, 1) + c.b
    ensures Stays(c, k)
  {
    if k < SegmentCount(|Encode(r)|, 1) {
      RequestRoundStays(c, h, r, k);
      OffsetIsProduct(k + 1, 1);
    } else {
      WaitingRoundStays(c, h, r, resp, stream, k);
    }
  }

  lemma MisreadWithinExactly(c: Course, h: Handler, r: Request, resp: seq<byte>, stream: seq<byte>)
    requires Transaction(c, h, r, resp, stream) && Misread(resp, c.odLen, Encode(r)[1])
    ensures (forall k :: 0 <= k < |c.rxs| ==> Stays(c, k)) <==> Encode(r)[1] != 2 || |resp| <= IsduMaxSize + 1
  {
    var m := SegmentCount(|Encode(r)|, 1) + c.b;
    WaitsForResponse(c, h, r, resp, stream);
    OffsetIsProduct(SegmentCount(|resp|, 1), 1);
    MisreadRoundsStay(c, m, resp, stream, r.read);
    forall k | 0 <= k < m ensures Stays(c, k) {
      ShortMessagesStay(c, h, r, resp, stream, k);
    }
  }

  /** When a transfer stays within the buffer: request and response, each rounded up to
      whole segments, fit it; or the response's length is misread, and the transfer over
      before its payload, read off two bytes, reaches beyond. */
  predicate TransferFits(r: Request, resp: seq<byte>, odLen: nat)
    requires Encodable(r) && odLen > 0
  {
    if Misread(resp, odLen, Encode(r)[1]) then Encode(r)[1] != 2 || |resp| <= IsduMaxSize + 1
    else RoundsWithin(|Encode(r)|, odLen) && RoundsWithin(|resp|, odLen)
  }

  /** A transfer stays within the 241 bytes of the buffer exactly if it fits. */
  lemma TransferWithinExactly(c: Course, h: Handler, r: Request, resp: seq<byte>, stream: seq<byte>)
    requires Transaction(c, h, r, resp, stream)
    ensures (forall k :: 0 <= k < |c.rxs| ==> Stays(c, k)) <==> TransferFits(r, resp, c.odLen)
  {
    if Misread(resp, c.odLen, Encode(r)[1]) {
      MisreadWithinExactly(c, h, r, resp, stream);
    } else {
      ReadRightWithinExactly(c, h, r, resp, stream);
    }
  }

  /** What that means for each length of the on-request data. */
  lemma RoundsWithinLengths(total: nat, odLen: nat)
    requires OdLength(odLen) && total > 0
    ensures RoundsWithin(total, odLen) <==> total <= if odLen == 1 then 241 else if odLen == 32 then 224 else 240
  {
    OffsetIsProduct(SegmentCount(total, odLen), odLen);
  }

  /** So a response of 225 bytes in messages of 32 bytes leaves the buffer. */
  lemma LongResponseLeavesBuffer(c: Course, h: Handler, r: Request, resp: seq<byte>, stream: seq<byte>)
    requires Transaction(c, h, r, resp, stream) && c.odLen == 32 && |resp| == 225
    ensures exists k :: 0 <= k < |c.rxs| && !Stays(c, k)
  {
    RoundsWithinLengths(225, 32);
    TransferWithinExactly(c, h, r, resp, stream);
  }

  /** The step that does: the eighth segment of the response that has announced 225. */
  lemma EighthSegmentLeavesBuffer(h: Handler, rx: seq<byte>)
    requires Inv(h, 32, DeviceMessage) && h.state == Responding && h.active && h.rwcmd == RwIsduTransport && h.seg == 7
    requires h.buf[0] % 16 == 1 && h.buf[1] == 225 && |rx| == 32
    ensures Fits(h, Calm(DeviceMessage, 32, rx)) && !Within(h, Calm(DeviceMessage, 32, rx))
  {
    StepKeepsInv(h, Calm(DeviceMessage, 32, rx), DeviceMessage);
    OffsetIsProduct(8, 32);
    WithinExactly(h, Calm(DeviceMessage, 32, rx));
  }
}
