/** Whole transfers: a request arrives at the device as it was made, and the
    response of the device arrives at the client as it was sent. */
module IsduTransfer {
  import opened Bytes
  import opened DlTypes
  import opened Isdu
  import opened IsduHandler

  function Calm(t: Trigger, odLen: nat, rx: seq<byte>): Env {
    Env(t, false, false, odLen, rx, 0, 0)
  }

  /** One message of the master and the reply `rx` of the device, without abort,
      timeout or loss of communication. */
  function Round(h: Handler, odLen: nat, rx: seq<byte>): (r: Step)
    requires Inv(h, odLen, MasterMessage) && |rx| == odLen
    ensures Inv(r.0, odLen, MasterMessage)
  {
    StepKeepsInv(h, Calm(MasterMessage, odLen, rx), MasterMessage);
    var (g, sent) := HandlerStep(h, Calm(MasterMessage, odLen, rx));
    StepKeepsInv(g, Calm(DeviceMessage, odLen, rx), DeviceMessage);
    var (k, got) := HandlerStep(g, Calm(DeviceMessage, odLen, rx));
    (k, sent + got)
  }

  predicate Replies(rxs: seq<seq<byte>>, odLen: nat) {
    forall k :: 0 <= k < |rxs| ==> |rxs[k]| == odLen
  }

  /** A run without disturbance: `hs[k]` is the handler before round `k`, in which
      the device replies `rxs[k]` and the handler emits `outs[k]`. */
  ghost predicate Trace(hs: seq<Handler>, outs: seq<seq<Out>>, odLen: nat, rxs: seq<seq<byte>>) {
    && Replies(rxs, odLen) && |hs| == |rxs| + 1 && |outs| == |rxs|
    && forall k :: 0 <= k < |rxs| ==> RoundAt(hs, outs, odLen, rxs, k)
  }

  ghost predicate RoundAt(hs: seq<Handler>, outs: seq<seq<Out>>, odLen: nat, rxs: seq<seq<byte>>, k: nat)
    requires k < |rxs| && |hs| == |rxs| + 1 && |outs| == |rxs|
  {
    Linked(hs[k], hs[k + 1], outs[k], odLen, rxs[k])
  }

  predicate IsRound(s: Step, h: Handler, odLen: nat, rx: seq<byte>) {
    Inv(h, odLen, MasterMessage) && |rx| == odLen && s == Round(h, odLen, rx)
  }

  /** The round leads from `h` to `g`; unfolded only where `IsRound` is mentioned. */
  ghost predicate Linked(h: Handler, g: Handler, outs: seq<Out>, odLen: nat, rx: seq<byte>) {
    forall s: Step :: s == (g, outs) ==> IsRound(s, h, odLen, rx)
  }

  // ---------------------------------------------------------------- requests

  /** FlowCTRL of segment `k`: START, then COUNT 1..15, 0, 1, and so on. */
  function Flow(k: nat): nat {
    if k == 0 then FlowStart else k % 16
  }

  function Frame(buf: seq<byte>, odLen: nat, k: nat): Out
    requires Offset(k + 1, odLen) <= |buf|
  {
    Od(OdReq(true, IsduChannel, Flow(k), Segment(buf, odLen, k)))
  }

  /** The round writes segment `k` and emits nothing else. */
  predicate IsSegment(outs: seq<Out>, k: nat) {
    && |outs| == 1 && outs[0].Od?
    && outs[0].req.write && outs[0].req.channel == IsduChannel && outs[0].req.addr == Flow(k)
  }

  /** A reference receiver: takes one written segment a round, in FlowCTRL order,
      and joins their data. */
  function Reassemble(outs: seq<seq<Out>>): Option<seq<byte>> {
    if outs == [] then Some([])
    else
      var k := |outs| - 1;
      var front := Reassemble(outs[..k]);
      if front.Some? && IsSegment(outs[k], k) then Some(front.value + outs[k][0].req.data) else None
  }

  /** A handler that has accepted a request and not started on it. */
  predicate Loaded(h: Handler, odLen: nat) {
    && h.state == Idle && h.active && h.rwcmd == RwIsduTransport && h.totalSeg > 0
    && Inv(h, odLen, MasterMessage)
  }

  /** The handler after `k` of its segments are sent. */
  function Sent(h: Handler, k: nat): Handler
    requires 0 < k <= h.totalSeg
  {
    if k < h.totalSeg then h.(state := Requesting, seg := k)
    else h.(state := Waiting, seg := 0, timerOn := true)
  }

  lemma SendFirst(h: Handler, odLen: nat, rx: seq<byte>)
    requires Loaded(h, odLen) && |rx| == odLen
    ensures Round(h, odLen, rx) == (Sent(h, 1), [Frame(h.buf, odLen, 0)])
  {
    var g := h.(state := Requesting, seg := 1);
    assert IdleStep(h, Calm(MasterMessage, odLen, rx)) == (g, [Frame(h.buf, odLen, 0)]);
    assert RequestStep(g, Calm(DeviceMessage, odLen, rx)) == (Sent(h, 1), []);
    assert [Frame(h.buf, odLen, 0)] + [] == [Frame(h.buf, odLen, 0)];
  }

  lemma SendNext(h: Handler, odLen: nat, k: nat, rx: seq<byte>)
    requires Loaded(h, odLen) && 0 < k < h.totalSeg && |rx| == odLen && Offset(k + 1, odLen) < BufferSize
    ensures Inv(Sent(h, k), odLen, MasterMessage)
    ensures Round(Sent(h, k), odLen, rx) == (Sent(h, k + 1), [Frame(h.buf, odLen, k)])
  {
    var g := h.(state := Requesting, seg := k + 1);
    assert RequestStep(Sent(h, k), Calm(MasterMessage, odLen, rx)) == (g, [Frame(h.buf, odLen, k)]);
    assert RequestStep(g, Calm(DeviceMessage, odLen, rx)) == (Sent(h, k + 1), []);
    assert [Frame(h.buf, odLen, k)] + [] == [Frame(h.buf, odLen, k)];
  }

  lemma ReassembleNext(front: seq<seq<Out>>, got: seq<byte>, data: seq<byte>)
    requires Reassemble(front) == Some(got)
    ensures Reassemble(front + [[Od(OdReq(true, IsduChannel, Flow(|front|), data))]]) == Some(got + data)
  {
    assert (front + [[Od(OdReq(true, IsduChannel, Flow(|front|), data))]])[..|front|] == front;
  }

  lemma SendStep(hs: seq<Handler>, outs: seq<seq<Out>>, odLen: nat, rxs: seq<seq<byte>>, k: nat)
    requires Trace(hs, outs, odLen, rxs) && Loaded(hs[0], odLen) && k < hs[0].totalSeg && k < |rxs|
    requires hs[k] == if k == 0 then hs[0] else Sent(hs[0], k)
    ensures Offset(k + 1, odLen) < BufferSize
    ensures hs[k + 1] == Sent(hs[0], k + 1) && outs[k] == [Frame(hs[0].buf, odLen, k)]
  {
    OffsetGrows(k + 1, hs[0].totalSeg, odLen);
    assert RoundAt(hs, outs, odLen, rxs, k);
    assert IsRound((hs[k + 1], outs[k]), hs[k], odLen, rxs[k]);
    if k == 0 {
      SendFirst(hs[0], odLen, rxs[k]);
    } else {
      SendNext(hs[0], odLen, k, rxs[k]);
    }
  }

  lemma {:induction false} SendSegments(hs: seq<Handler>, outs: seq<seq<Out>>, odLen: nat, rxs: seq<seq<byte>>, k: nat)
    requires Trace(hs, outs, odLen, rxs) && Loaded(hs[0], odLen) && k <= hs[0].totalSeg && k <= |rxs|
    ensures Offset(k, odLen) < BufferSize
    ensures hs[k] == if k == 0 then hs[0] else Sent(hs[0], k)
    ensures Reassemble(outs[..k]) == Some(hs[0].buf[..Offset(k, odLen)])
  {
    if k == 0 {
      assert outs[..0] == [] && hs[0].buf[..0] == [];
    } else {
      SendSegments(hs, outs, odLen, rxs, k - 1);
      SendStep(hs, outs, odLen, rxs, k - 1);
      SentJoins(hs[0].buf, odLen, k - 1, outs[..k - 1]);
      assert outs[..k] == outs[..k - 1] + [outs[k - 1]];
    }
  }

  lemma SentJoins(buf: seq<byte>, odLen: nat, k: nat, front: seq<seq<Out>>)
    requires Offset(k + 1, odLen) <= |buf| && |front| == k && Reassemble(front) == Some(buf[..Offset(k, odLen)])
    ensures Reassemble(front + [[Frame(buf, odLen, k)]]) == Some(buf[..Offset(k + 1, odLen)])
  {
    ReassembleNext(front, buf[..Offset(k, odLen)], Segment(buf, odLen, k));
    assert buf[..Offset(k + 1, odLen)] == buf[..Offset(k, odLen)] + Segment(buf, odLen, k);
  }

  /** Request round trip: whatever the device replies meanwhile, after exactly as
      many rounds as the ISDU has segments the handler waits for the response, and
      a receiver that joins the segments and reads the result gets the request
      that was made, then zero padding. */
  lemma RequestRoundTrip(h: Handler, r: Request, hs: seq<Handler>, outs: seq<seq<Out>>, odLen: nat, rxs: seq<seq<byte>>)
    requires Inv(h, odLen, MasterMessage) && h.state == Idle && h.active && Encodable(r)
    requires Trace(hs, outs, odLen, rxs) && hs[0] == Accept(h, true, r, odLen).0
    requires |rxs| >= SegmentCount(|Encode(r)|, odLen)
    ensures var n := SegmentCount(|Encode(r)|, odLen);
            var got := Reassemble(outs[..n]);
            && hs[n] == Sent(hs[0], n) && hs[n].state == Waiting
            && got.Some? && ParseRequest(got.value) == Some(r)
            && forall i :: |Encode(r)| <= i < |got.value| && i < IsduMaxSize ==> got.value[i] == 0
  {
    var l, n := hs[0], SegmentCount(|Encode(r)|, odLen);
    CountFits(|Encode(r)|, odLen);
    SegmentCountCovers(|Encode(r)|, odLen);
    SendSegments(hs, outs, odLen, rxs, n);
    ReadsBack(r, l.buf, Offset(n, odLen));
  }

  lemma ReadsBack(r: Request, buf: seq<byte>, n: nat)
    requires Encodable(r) && |buf| == BufferSize && |Encode(r)| <= n <= BufferSize
    requires buf[..IsduMaxSize] == Pad(Encode(r), IsduMaxSize)
    ensures ParseRequest(buf[..n]) == Some(r)
    ensures forall i :: |Encode(r)| <= i < n && i < IsduMaxSize ==> buf[..n][i] == 0
  {
    var s := Encode(r);
    assert forall i :: 0 <= i < IsduMaxSize ==> buf[i] == buf[..IsduMaxSize][i];
    assert buf[..|s|] == s;
    assert buf[..n] == s + buf[|s|..n];
    ParseEncode(r, buf[|s|..n]);
  }

  // --------------------------------------------------------------- responses

  /** The confirmation a client should get for the response `r`. */
  function Expected(r: seq<byte>, dirRead: bool): Out
    requires WellFormedResponse(r, dirRead)
  {
    IsduCnf(Payload(r, dirRead), r[0] / 16, if Checksum(r) == 0 then NoError else ChecksumError)
  }

  function ReadFrame(k: nat): Out {
    Od(OdReq(false, IsduChannel, Flow(k), []))
  }

  predicate Awaiting(h: Handler, odLen: nat, dirRead: bool) {
    && h.state == Waiting && h.active && h.rwcmd == RwIsduTransport && h.dirRead == dirRead
    && Inv(h, odLen, MasterMessage)
  }

  /** With one byte a message, the extended length is looked at before it has
      arrived: what is read is byte 1 of the request. These values of it make the
      handler stop early. */
  predicate Misread(r: seq<byte>, odLen: nat, stale: byte) {
    odLen == 1 && Extended(r) && (stale <= 2 || stale == 16)
  }

  /** The number of segments the handler believes in after `k` of them. */
  function Believed(r: seq<byte>, odLen: nat, k: nat, stale: byte): nat
    requires OdLength(odLen)
  {
    if odLen == 1 && Extended(r) && k <= 2 then stale else SegmentCount(|r|, odLen)
  }

  /** `h` has taken `k` segments of `stream`, which starts with the response `r`. */
  ghost predicate Taken(h: Handler, r: seq<byte>, stream: seq<byte>, odLen: nat, dirRead: bool, k: nat, stale: byte) {
    && WellFormedResponse(r, dirRead) && OdLength(odLen) && r <= stream
    && 0 < k < SegmentCount(|r|, odLen) && Offset(SegmentCount(|r|, odLen), odLen) == |stream|
    && h.state == Responding && h.active && h.rwcmd == RwIsduTransport && h.dirRead == dirRead && h.seg == k
    && Inv(h, odLen, MasterMessage) && Offset(k, odLen) <= |stream| && Offset(k, odLen) <= |h.buf|
    && h.buf[..Offset(k, odLen)] == stream[..Offset(k, odLen)]
    && h.totalSeg == Believed(r, odLen, k, stale)
    && (odLen == 1 && Extended(r) && k == 1 ==> h.buf[1] == stale)
  }

  lemma ResponseLengthParses(r: seq<byte>, dirRead: bool)
    requires WellFormedResponse(r, dirRead)
    ensures TotalLen(r[0], r[1]) == Some(|r|) && ValidHeader(r[0], dirRead) && r[0] / 16 != NoService
  {
  }

  /** The handler measures a response right once its length bytes are there. */
  lemma MeasuresRight(h: Handler, r: seq<byte>, odLen: nat, dirRead: bool)
    requires WellFormedResponse(r, dirRead) && OdLength(odLen) && |h.buf| == BufferSize
    requires h.buf[0] == r[0] && (Extended(r) ==> h.buf[1] == r[1])
    ensures Measured(h, odLen) == h.(totalLen := |r|, totalSeg := SegmentCount(|r|, odLen))
    ensures TotalLen(h.buf[0], h.buf[1]) == Some(|r|)
  {
  }

  lemma ReceivesRight(h: Handler, r: seq<byte>, dirRead: bool)
    requires WellFormedResponse(r, dirRead) && |h.buf| == BufferSize && h.totalLen == |r|
    requires r <= h.buf
    ensures Received(h) == Expected(r, dirRead)
  {
    assert h.buf[0] == r[0] && h.buf[1] == r[1];
    assert h.buf[..|r|] == r;
    var at := if Extended(r) then 2 else 1;
    assert h.buf[at..|r| - 1] == r[at..|r| - 1];
  }

  /** The handler right after a first segment that starts a response. */
  lemma FirstOfResponse(h: Handler, r: seq<byte>, odLen: nat, dirRead: bool, rx: seq<byte>)
    requires Awaiting(h, odLen, dirRead) && WellFormedResponse(r, dirRead) && |rx| == odLen && rx[0] == r[0]
    ensures var g := h.(buf := Store(h.buf, odLen, 0, rx));
            var m := Measured(g, odLen).(seg := 1, timerOn := false);
            Round(h, odLen, rx) ==
            if 1 >= m.totalSeg then (ReceptionComplete(m).0, [ReadFrame(0), Received(m)])
            else (m.(state := Responding), [ReadFrame(0)])
  {
    var g := h.(buf := Store(h.buf, odLen, 0, rx));
    var m := Measured(g, odLen).(seg := 1, timerOn := false);
    ResponseLengthParses(r, dirRead);
    assert g.buf[0] == r[0];
    assert WaitStep(h, Calm(MasterMessage, odLen, rx)) == (h, [ReadFrame(0)]);
    var outs := if 1 >= m.totalSeg then [Received(m)] else [];
    assert WaitStep(h, Calm(DeviceMessage, odLen, rx)).1 == outs;
    assert [ReadFrame(0)] + [] == [ReadFrame(0)];
    assert [ReadFrame(0)] + [Received(m)] == [ReadFrame(0), Received(m)];
  }

  /** A stream that starts with `r` and fills its last segment. */
  predicate Carries(stream: seq<byte>, r: seq<byte>, odLen: nat)
    requires OdLength(odLen)
  {
    r <= stream && |stream| == Offset(SegmentCount(|r|, odLen), odLen)
  }

  /** What the client and the handler have after the last segment. */
  predicate Delivered(step: Step, r: seq<byte>, dirRead: bool, frame: Out)
    requires WellFormedResponse(r, dirRead)
  {
    && step.1 == [frame, Expected(r, dirRead)]
    && step.0.state == Idle && step.0.active && step.0.rwcmd == RwNone && step.0.totalSeg == 0
  }

  /** A response that fits one segment. */
  lemma TakeOnly(h: Handler, r: seq<byte>, odLen: nat, dirRead: bool, rx: seq<byte>)
    requires Awaiting(h, odLen, dirRead) && WellFormedResponse(r, dirRead)
    requires |rx| == odLen && r <= rx
    ensures Delivered(Round(h, odLen, rx), r, dirRead, ReadFrame(0))
  {
    FirstOfResponse(h, r, odLen, dirRead, rx);
    OnlyReceived(h.(buf := Store(h.buf, odLen, 0, rx)), h.buf, r, odLen, dirRead, rx);
  }

  lemma OnlyReceived(g: Handler, buf: seq<byte>, r: seq<byte>, odLen: nat, dirRead: bool, rx: seq<byte>)
    requires WellFormedResponse(r, dirRead) && OdLength(odLen) && |rx| == odLen && r <= rx
    requires |buf| == BufferSize && g.buf == Store(buf, odLen, 0, rx)
    ensures
      var m := Measured(g, odLen).(seg := 1, timerOn := false);
      m.totalSeg == 1 && Received(m) == Expected(r, dirRead)
  {
    StoredFirst(buf, odLen, rx);
    assert r == g.buf[..odLen][..|r|] == g.buf[..|r|];
    assert g.buf[0] == r[0] && g.buf[1] == r[1];
    MeasuresRight(g, r, odLen, dirRead);
    assert SegmentCount(|r|, odLen) == 1;
    ReceivesRight(Measured(g, odLen).(seg := 1, timerOn := false), r, dirRead);
  }

  lemma StoredFirst(buf: seq<byte>, odLen: nat, rx: seq<byte>)
    requires |rx| == odLen > 0 && odLen <= |buf|
    ensures Offset(1, odLen) == odLen && Store(buf, odLen, 0, rx) == rx + buf[odLen..]
    ensures Store(buf, odLen, 0, rx)[..odLen] == rx
  {
    assert Offset(0, odLen) == 0 && buf[..0] == [];
    assert [] + rx == rx;
  }

  /** What the handler makes of a response of which it has the first segment. */
  lemma FirstMeasured(g: Handler, r: seq<byte>, odLen: nat, dirRead: bool)
    requires WellFormedResponse(r, dirRead) && OdLength(odLen) && |g.buf| == BufferSize && g.buf[0] == r[0]
    requires SegmentCount(|r|, odLen) > 1
    requires Extended(r) ==> if odLen == 1 then TotalLen(r[0], g.buf[1]).Some? else g.buf[1] == r[1]
    ensures 1 < Measured(g, odLen).totalSeg == Believed(r, odLen, 1, g.buf[1])
    ensures Offset(Measured(g, odLen).totalSeg, odLen) < BufferSize
  {
    CountFits(Measured(g, odLen).totalLen, odLen);
    if odLen == 1 && Extended(r) {
      var m := Measured(g, 1);
      assert m.totalLen == g.buf[1] > 1;
      assert m.totalSeg == SegmentCount(m.totalLen, 1) == m.totalLen;
    } else {
      MeasuresRight(g, r, odLen, dirRead);
    }
  }

  /** The first of several segments. */
  lemma TakeFirst(h: Handler, r: seq<byte>, stream: seq<byte>, odLen: nat, dirRead: bool, rx: seq<byte>)
    requires Awaiting(h, odLen, dirRead) && WellFormedResponse(r, dirRead) && Carries(stream, r, odLen)
    requires SegmentCount(|r|, odLen) > 1 && odLen <= |stream| && rx == stream[..odLen]
    requires odLen == 1 && Extended(r) ==> TotalLen(r[0], h.buf[1]).Some?
    ensures Taken(Round(h, odLen, rx).0, r, stream, odLen, dirRead, 1, h.buf[1])
    ensures Round(h, odLen, rx).1 == [ReadFrame(0)]
  {
    FirstOfResponse(h, r, odLen, dirRead, rx);
    ResponseLengthParses(r, dirRead);
    var g := h.(buf := Store(h.buf, odLen, 0, rx));
    StoredFirst(h.buf, odLen, rx);
    assert g.buf[0] == rx[0] == r[0];
    if odLen > 1 {
      assert g.buf[1] == rx[1] == r[1];
    } else {
      assert g.buf[1] == h.buf[1..][0] == h.buf[1];
    }
    FirstMeasured(g, r, odLen, dirRead);
  }

  /** The first byte of an extended response, with a request byte behind it that
      is no length. */
  lemma TakeFirstStale(h: Handler, r: seq<byte>, dirRead: bool, rx: seq<byte>)
    requires Awaiting(h, 1, dirRead) && WellFormedResponse(r, dirRead) && Extended(r)
    requires |rx| == 1 && rx[0] == r[0] && TotalLen(r[0], h.buf[1]).None?
    ensures Round(h, 1, rx).0.state == Idle
    ensures Round(h, 1, rx).1 == [ReadFrame(0), IsduCnf([], r[0] / 16, Invalid)]
  {
    FirstOfResponse(h, r, 1, dirRead, rx);
  }

  /** The handler right after another segment of a response. */
  function Continued(h: Handler, odLen: nat, rx: seq<byte>): Handler
    requires OdLength(odLen) && |rx| == odLen && |h.buf| == BufferSize
    requires Offset(h.seg + 1, odLen) < BufferSize && h.seg < 255
  {
    Measured(h, odLen).(buf := Store(h.buf, odLen, h.seg, rx), seg := h.seg + 1)
  }

  lemma RespondingDevice(h: Handler, odLen: nat, rx: seq<byte>)
    requires h.state == Responding && h.active && h.rwcmd == RwIsduTransport && h.seg < 255
    requires Fits(h, Calm(DeviceMessage, odLen, rx))
    ensures var g := Continued(h, odLen, rx);
            HandlerStep(h, Calm(DeviceMessage, odLen, rx)) ==
            if g.seg >= g.totalSeg then ReceptionComplete(g) else (g, [])
  {
  }

  lemma RespondingRound(h: Handler, odLen: nat, rx: seq<byte>)
    requires h.state == Responding && h.active && h.rwcmd == RwIsduTransport
    requires Inv(h, odLen, MasterMessage) && |rx| == odLen
    ensures Offset(h.seg + 1, odLen) < BufferSize
    ensures var g := Continued(h, odLen, rx);
            var last := g.seg >= g.totalSeg;
            && Round(h, odLen, rx).0 == (if last then ReceptionComplete(g).0 else g)
            && Round(h, odLen, rx).1 == [ReadFrame(h.seg)] + (if last then [Received(g)] else [])
  {
    OffsetGrows(h.seg + 1, h.totalSeg, odLen);
    assert HandlerStep(h, Calm(MasterMessage, odLen, rx)) == (h, [ReadFrame(h.seg)]);
    RespondingDevice(h, odLen, rx);
  }

  /** Storing the next segment extends what agrees with the stream. */
  lemma StoreExtends(buf: seq<byte>, stream: seq<byte>, odLen: nat, k: nat, rx: seq<byte>)
    requires odLen > 0 && Offset(k + 1, odLen) <= |stream| && Offset(k + 1, odLen) <= |buf|
    requires buf[..Offset(k, odLen)] == stream[..Offset(k, odLen)] && rx == Segment(stream, odLen, k)
    ensures Store(buf, odLen, k, rx)[..Offset(k + 1, odLen)] == stream[..Offset(k + 1, odLen)]
  {
    assert stream[..Offset(k + 1, odLen)] == stream[..Offset(k, odLen)] + rx;
  }

  /** Whether the length bytes of the response have arrived after `k` segments. */
  predicate LengthKnown(r: seq<byte>, odLen: nat, k: nat) {
    odLen > 1 || k > 1 || !Extended(r)
  }

  lemma TakenMeasures(h: Handler, r: seq<byte>, stream: seq<byte>, odLen: nat, dirRead: bool, k: nat, stale: byte)
    requires Taken(h, r, stream, odLen, dirRead, k, stale)
    ensures LengthKnown(r, odLen, k) ==>
              Measured(h, odLen) == h.(totalLen := |r|, totalSeg := SegmentCount(|r|, odLen))
    ensures !LengthKnown(r, odLen, k) && TotalLen(r[0], stale).Some? ==>
              Measured(h, odLen) == h.(totalLen := stale, totalSeg := stale)
  {
    var seen := h.buf[..Offset(k, odLen)];
    assert h.buf[0] == seen[0] == stream[..Offset(k, odLen)][0] == r[0];
    if LengthKnown(r, odLen, k) {
      if Extended(r) {
        OffsetGrows(if odLen > 1 then 1 else 2, k, odLen);
        assert h.buf[1] == seen[1] == stream[..Offset(k, odLen)][1] == r[1];
      }
      MeasuresRight(h, r, odLen, dirRead);
    }
  }

  lemma TakeNext(h: Handler, r: seq<byte>, stream: seq<byte>, odLen: nat, dirRead: bool, k: nat, stale: byte, rx: seq<byte>)
    requires Taken(h, r, stream, odLen, dirRead, k, stale) && !Misread(r, odLen, stale)
    requires k + 1 < SegmentCount(|r|, odLen)
    requires Offset(k + 1, odLen) <= |stream| && rx == Segment(stream, odLen, k)
    ensures Taken(Round(h, odLen, rx).0, r, stream, odLen, dirRead, k + 1, stale)
    ensures Round(h, odLen, rx).1 == [ReadFrame(k)]
  {
    ContinuesRound(h, r, stream, odLen, dirRead, k, stale, rx);
    StoreExtends(h.buf, stream, odLen, k, rx);
  }

  /** A segment that is not the last leaves the handler responding. */
  lemma ContinuesRound(h: Handler, r: seq<byte>, stream: seq<byte>, odLen: nat, dirRead: bool, k: nat, stale: byte,
                       rx: seq<byte>)
    requires Taken(h, r, stream, odLen, dirRead, k, stale) && !Misread(r, odLen, stale)
    requires k + 1 < SegmentCount(|r|, odLen) && |rx| == odLen
    ensures Offset(k + 1, odLen) < BufferSize
    ensures Round(h, odLen, rx) == (Continued(h, odLen, rx), [ReadFrame(k)])
    ensures Continued(h, odLen, rx).totalSeg == Believed(r, odLen, k + 1, stale)
  {
    RespondingRound(h, odLen, rx);
    TakenMeasures(h, r, stream, odLen, dirRead, k, stale);
    assert [ReadFrame(k)] + [] == [ReadFrame(k)];
  }

  /** With the last segment the whole response is in the buffer. */
  lemma LastCompletes(h: Handler, r: seq<byte>, stream: seq<byte>, odLen: nat, dirRead: bool, k: nat, stale: byte, rx: seq<byte>)
    requires Taken(h, r, stream, odLen, dirRead, k, stale)
    requires k + 1 == SegmentCount(|r|, odLen) && rx == Segment(stream, odLen, k)
    requires Offset(k + 1, odLen) < BufferSize
    ensures r <= Store(h.buf, odLen, k, rx)
  {
    StoreExtends(h.buf, stream, odLen, k, rx);
    SegmentCountCovers(|r|, odLen);
    OffsetIsProduct(k + 1, odLen);
    var b := Store(h.buf, odLen, k, rx);
    assert r == stream[..|r|] == b[..Offset(k + 1, odLen)][..|r|] == b[..|r|];
  }

  lemma TakeLast(h: Handler, r: seq<byte>, stream: seq<byte>, odLen: nat, dirRead: bool, k: nat, stale: byte, rx: seq<byte>)
    requires Taken(h, r, stream, odLen, dirRead, k, stale)
    requires k + 1 == SegmentCount(|r|, odLen) && rx == Segment(stream, odLen, k)
    ensures Delivered(Round(h, odLen, rx), r, dirRead, ReadFrame(k))
  {
    RespondingRound(h, odLen, rx);
    TakenMeasures(h, r, stream, odLen, dirRead, k, stale);
    LastCompletes(h, r, stream, odLen, dirRead, k, stale, rx);
    ReceivesRight(Continued(h, odLen, rx), r, dirRead);
  }

  /** The second byte of an extended response, while the handler believes in a
      total of two. */
  lemma TakeSecondStale(h: Handler, r: seq<byte>, stream: seq<byte>, dirRead: bool, rx: seq<byte>)
    requires Taken(h, r, stream, 1, dirRead, 1, 2) && Extended(r) && |rx| == 1
    ensures Round(h, 1, rx).0.state == Idle
    ensures Confirmations(Round(h, 1, rx).1) == 1
  {
    RespondingRound(h, 1, rx);
    TakenMeasures(h, r, stream, 1, dirRead, 1, 2);
    CountShort(Round(h, 1, rx).1);
  }

  // ------------------------------------------------------ whole transactions

  predicate Busy(rx: seq<byte>) {
    rx != [] && rx[0] == 1
  }

  lemma BusyRound(h: Handler, odLen: nat, rx: seq<byte>, dirRead: bool)
    requires Awaiting(h, odLen, dirRead) && |rx| == odLen && Busy(rx)
    ensures Round(h, odLen, rx).0 == h.(buf := Store(h.buf, odLen, 0, rx))
    ensures Round(h, odLen, rx).1 == [ReadFrame(0)]
    ensures odLen == 1 ==> Store(h.buf, odLen, 0, rx)[1] == h.buf[1]
  {
    assert HandlerStep(h, Calm(MasterMessage, odLen, rx)) == (h, [ReadFrame(0)]);
    assert WaitStep(h, Calm(DeviceMessage, odLen, rx)) == (h.(buf := Store(h.buf, odLen, 0, rx)), []);
    assert [ReadFrame(0)] + [] == [ReadFrame(0)];
  }

  /** The handler that waits in round `n` still waits `b` busy replies later. */
  lemma {:induction false} BusyRounds(hs: seq<Handler>, outs: seq<seq<Out>>, odLen: nat, rxs: seq<seq<byte>>,
                                      n: nat, b: nat, dirRead: bool)
    requires Trace(hs, outs, odLen, rxs) && n + b <= |rxs| && Awaiting(hs[n], odLen, dirRead)
    requires forall k :: n <= k < n + b ==> Busy(rxs[k])
    ensures Awaiting(hs[n + b], odLen, dirRead)
    ensures odLen == 1 ==> hs[n + b].buf[1] == hs[n].buf[1]
    ensures forall k :: n <= k < n + b ==> outs[k] == [ReadFrame(0)]
  {
    if b > 0 {
      var k := n + b - 1;
      BusyRounds(hs, outs, odLen, rxs, n, b - 1, dirRead);
      assert RoundAt(hs, outs, odLen, rxs, k);
      assert IsRound((hs[k + 1], outs[k]), hs[k], odLen, rxs[k]);
      BusyRound(hs[k], odLen, rxs[k], dirRead);
    }
  }

  /** The replies from round `m` on are `stream`, cut into `n` segments. */
  ghost predicate Streams(rxs: seq<seq<byte>>, m: nat, stream: seq<byte>, n: nat, odLen: nat) {
    && m + n == |rxs| && Offset(n, odLen) == |stream|
    && forall j :: m <= j < m + n ==>
         Offset(j - m + 1, odLen) <= |stream| && rxs[j] == Segment(stream, odLen, j - m)
  }

  /** One linked round of the response. */
  lemma LinkedTakes(h: Handler, g: Handler, outs: seq<Out>, odLen: nat, rx: seq<byte>, r: seq<byte>, stream: seq<byte>,
                    dirRead: bool, k: nat, stale: byte)
    requires OdLength(odLen) && Linked(h, g, outs, odLen, rx) && !Misread(r, odLen, stale)
    requires WellFormedResponse(r, dirRead) && Carries(stream, r, odLen) && k + 1 < SegmentCount(|r|, odLen)
    requires Offset(k + 1, odLen) <= |stream| && rx == Segment(stream, odLen, k)
    requires if k == 0 then Awaiting(h, odLen, dirRead) && h.buf[1] == stale
             else Taken(h, r, stream, odLen, dirRead, k, stale)
    ensures Taken(g, r, stream, odLen, dirRead, k + 1, stale) && outs == [ReadFrame(k)]
  {
    assert IsRound((g, outs), h, odLen, rx);
    if k == 0 {
      TakeFirst(h, r, stream, odLen, dirRead, rx);
    } else {
      TakeNext(h, r, stream, odLen, dirRead, k, stale, rx);
    }
  }

  /** One more round of the response, `k` rounds after round `m`. */
  lemma TakeStep(hs: seq<Handler>, outs: seq<seq<Out>>, odLen: nat, rxs: seq<seq<byte>>, m: nat, r: seq<byte>,
                 stream: seq<byte>, dirRead: bool, k: nat)
    requires Trace(hs, outs, odLen, rxs) && m + k < |rxs| && Awaiting(hs[m], odLen, dirRead)
    requires WellFormedResponse(r, dirRead) && Carries(stream, r, odLen) && !Misread(r, odLen, hs[m].buf[1])
    requires Streams(rxs, m, stream, SegmentCount(|r|, odLen), odLen) && k + 1 < SegmentCount(|r|, odLen)
    requires k > 0 ==> Taken(hs[m + k], r, stream, odLen, dirRead, k, hs[m].buf[1])
    ensures Taken(hs[m + k + 1], r, stream, odLen, dirRead, k + 1, hs[m].buf[1])
    ensures outs[m + k] == [ReadFrame(k)]
  {
    assert RoundAt(hs, outs, odLen, rxs, m + k);
    StreamedAt(rxs, m, stream, SegmentCount(|r|, odLen), odLen, k);
    LinkedTakes(hs[m + k], hs[m + k + 1], outs[m + k], odLen, rxs[m + k], r, stream, dirRead, k, hs[m].buf[1]);
  }

  lemma StreamedAt(rxs: seq<seq<byte>>, m: nat, stream: seq<byte>, n: nat, odLen: nat, k: nat)
    requires Streams(rxs, m, stream, n, odLen) && k < n
    ensures m + k < |rxs| && Offset(k + 1, odLen) <= |stream| && rxs[m + k] == Segment(stream, odLen, k)
  {
    var j := m + k;
    var rx := rxs[j];
    assert Offset(j - m + 1, odLen) <= |stream| && rx == Segment(stream, odLen, j - m);
  }

  /** The last linked round of the response. */
  lemma LinkedDelivers(h: Handler, g: Handler, outs: seq<Out>, odLen: nat, rx: seq<byte>, r: seq<byte>, stream: seq<byte>,
                       dirRead: bool, k: nat, stale: byte)
    requires OdLength(odLen) && Linked(h, g, outs, odLen, rx)
    requires WellFormedResponse(r, dirRead) && Carries(stream, r, odLen) && k + 1 == SegmentCount(|r|, odLen)
    requires Offset(k + 1, odLen) <= |stream| && rx == Segment(stream, odLen, k)
    requires if k == 0 then Awaiting(h, odLen, dirRead) else Taken(h, r, stream, odLen, dirRead, k, stale)
    ensures Delivered((g, outs), r, dirRead, ReadFrame(k))
  {
    assert IsRound((g, outs), h, odLen, rx);
    if k == 0 {
      SegmentCountCovers(|r|, odLen);
      TakeOnly(h, r, odLen, dirRead, rx);
    } else {
      TakeLast(h, r, stream, odLen, dirRead, k, stale, rx);
    }
  }

  /** A handler that waits in round `m` has taken `k` segments in round `m + k`. */
  lemma {:induction false} ReceiveSegments(hs: seq<Handler>, outs: seq<seq<Out>>, odLen: nat, rxs: seq<seq<byte>>,
                                           m: nat, r: seq<byte>, stream: seq<byte>, dirRead: bool, k: nat)
    requires Trace(hs, outs, odLen, rxs) && m < |rxs| && Awaiting(hs[m], odLen, dirRead)
    requires WellFormedResponse(r, dirRead) && Carries(stream, r, odLen) && !Misread(r, odLen, hs[m].buf[1])
    requires Streams(rxs, m, stream, SegmentCount(|r|, odLen), odLen) && 0 < k < SegmentCount(|r|, odLen)
    ensures Taken(hs[m + k], r, stream, odLen, dirRead, k, hs[m].buf[1])
    ensures forall j :: m <= j < m + k ==> outs[j] == [ReadFrame(j - m)]
  {
    if k > 1 {
      ReceiveSegments(hs, outs, odLen, rxs, m, r, stream, dirRead, k - 1);
    }
    TakeStep(hs, outs, odLen, rxs, m, r, stream, dirRead, k - 1);
  }

  // The course of a transaction: `n` rounds of request, `b` busy replies, then the response.
  datatype Course = Course(hs: seq<Handler>, outs: seq<seq<Out>>, rxs: seq<seq<byte>>, odLen: nat, b: nat)

  /** `c` is the course of the request `r`, made of the idle handler `h`, to a
      device that is busy for a while and then sends `resp`. */
  ghost predicate Transaction(c: Course, h: Handler, r: Request, resp: seq<byte>, stream: seq<byte>) {
    && Inv(h, c.odLen, MasterMessage) && h.state == Idle && h.active && Encodable(r)
    && WellFormedResponse(resp, r.read) && Carries(stream, resp, c.odLen)
    && Trace(c.hs, c.outs, c.odLen, c.rxs) && c.hs[0] == Accept(h, true, r, c.odLen).0
    && var n := SegmentCount(|Encode(r)|, c.odLen);
    && n + c.b < |c.rxs|
    && (forall k :: n <= k < n + c.b ==> Busy(c.rxs[k]))
    && Streams(c.rxs, n + c.b, stream, SegmentCount(|resp|, c.odLen), c.odLen)
  }

  /** The client is answered in the last round and not before, with what the
      device sent, and the handler is idle again. */
  ghost predicate Answered(c: Course, r: Request, resp: seq<byte>)
    requires WellFormedResponse(resp, r.read) && OdLength(c.odLen)
    requires |c.hs| == |c.rxs| + 1 && |c.outs| == |c.rxs| > 0
  {
    var last := |c.outs| - 1;
    && (forall k :: 0 <= k < last ==> Confirmations(c.outs[k]) == 0)
    && c.outs[last] == [ReadFrame(SegmentCount(|resp|, c.odLen) - 1), Expected(resp, r.read)]
    && c.hs[last + 1].state == Idle && c.hs[last + 1].active
    && c.hs[last + 1].rwcmd == RwNone && c.hs[last + 1].totalSeg == 0
  }

  lemma {:induction false} SegmentsConfirmNothing(outs: seq<seq<Out>>, k: nat)
    requires Reassemble(outs).Some? && k < |outs|
    ensures Confirmations(outs[k]) == 0
    decreases |outs|
  {
    if k == |outs| - 1 {
      CountShort(outs[k]);
    } else {
      SegmentsConfirmNothing(outs[..|outs| - 1], k);
    }
  }

  /** The rounds before the response: the handler waits and has confirmed nothing. */
  lemma WaitsForResponse(c: Course, h: Handler, r: Request, resp: seq<byte>, stream: seq<byte>)
    requires Transaction(c, h, r, resp, stream)
    ensures var m := SegmentCount(|Encode(r)|, c.odLen) + c.b;
            && Awaiting(c.hs[m], c.odLen, r.read)
            && (c.odLen == 1 ==> c.hs[m].buf[1] == Encode(r)[1])
            && forall k :: 0 <= k < m ==> Confirmations(c.outs[k]) == 0
  {
    var n := SegmentCount(|Encode(r)|, c.odLen);
    RequestRoundTrip(h, r, c.hs, c.outs, c.odLen, c.rxs);
    WaitingAfterRequest(c, h, r);
    BusyRounds(c.hs, c.outs, c.odLen, c.rxs, n, c.b, r.read);
    forall k | 0 <= k < n + c.b ensures Confirmations(c.outs[k]) == 0 {
      if k < n {
        SegmentsConfirmNothing(c.outs[..n], k);
        assert c.outs[..n][k] == c.outs[k];
      } else {
        CountShort(c.outs[k]);
      }
    }
  }

  lemma WaitingAfterRequest(c: Course, h: Handler, r: Request)
    requires Inv(h, c.odLen, MasterMessage) && h.state == Idle && h.active && Encodable(r)
    requires Trace(c.hs, c.outs, c.odLen, c.rxs) && c.hs[0] == Accept(h, true, r, c.odLen).0
    requires SegmentCount(|Encode(r)|, c.odLen) < |c.rxs|
    requires c.hs[SegmentCount(|Encode(r)|, c.odLen)] == Sent(c.hs[0], SegmentCount(|Encode(r)|, c.odLen))
    ensures Awaiting(c.hs[SegmentCount(|Encode(r)|, c.odLen)], c.odLen, r.read)
    ensures c.hs[SegmentCount(|Encode(r)|, c.odLen)].buf[1] == Encode(r)[1]
  {
    var n := SegmentCount(|Encode(r)|, c.odLen);
    assert RoundAt(c.hs, c.outs, c.odLen, c.rxs, n);
    assert IsRound((c.hs[n + 1], c.outs[n]), c.hs[n], c.odLen, c.rxs[n]);
  }

  lemma ReadsConfirmNothing(outs: seq<seq<Out>>, m: nat, k: nat)
    requires k <= |outs| && forall j :: m <= j < k ==> outs[j] == [ReadFrame(j - m)]
    ensures forall j :: m <= j < k ==> Confirmations(outs[j]) == 0
  {
    forall j | m <= j < k ensures Confirmations(outs[j]) == 0 {
      CountShort(outs[j]);
    }
  }

  lemma LastRound(c: Course, m: nat, resp: seq<byte>, stream: seq<byte>, dirRead: bool, n: nat, stale: byte)
    requires OdLength(c.odLen) && Trace(c.hs, c.outs, c.odLen, c.rxs) && WellFormedResponse(resp, dirRead)
    requires Carries(stream, resp, c.odLen) && n == SegmentCount(|resp|, c.odLen) > 0 && Streams(c.rxs, m, stream, n, c.odLen)
    requires m + n == |c.rxs|
    requires if n == 1 then Awaiting(c.hs[m], c.odLen, dirRead)
             else Taken(c.hs[m + n - 1], resp, stream, c.odLen, dirRead, n - 1, stale)
    ensures Delivered((c.hs[m + n], c.outs[m + n - 1]), resp, dirRead, ReadFrame(n - 1))
  {
    var k := m + n - 1;
    assert RoundAt(c.hs, c.outs, c.odLen, c.rxs, k);
    LinkedDelivers(c.hs[k], c.hs[k + 1], c.outs[k], c.odLen, c.rxs[k], resp, stream, dirRead, n - 1, stale);
  }

  lemma AnsweredInTime(c: Course, m: nat, resp: seq<byte>, stream: seq<byte>, dirRead: bool, n: nat)
    requires OdLength(c.odLen) && Trace(c.hs, c.outs, c.odLen, c.rxs) && m < |c.rxs| && Awaiting(c.hs[m], c.odLen, dirRead)
    requires WellFormedResponse(resp, dirRead) && Carries(stream, resp, c.odLen) && !Misread(resp, c.odLen, c.hs[m].buf[1])
    requires n == SegmentCount(|resp|, c.odLen) > 0 && Streams(c.rxs, m, stream, n, c.odLen)
    ensures forall j :: m <= j < |c.outs| - 1 ==> Confirmations(c.outs[j]) == 0
    ensures Delivered((c.hs[|c.outs|], c.outs[|c.outs| - 1]), resp, dirRead, ReadFrame(n - 1))
  {
    if n > 1 {
      ReceiveSegments(c.hs, c.outs, c.odLen, c.rxs, m, resp, stream, dirRead, n - 1);
    }
    LastRound(c, m, resp, stream, dirRead, n, c.hs[m].buf[1]);
    ReadsConfirmNothing(c.outs, m, m + n - 1);
  }

  /** Response round trip. The client gets one confirmation, in the last round,
      with exactly the payload and service code of the response and a status that
      tells whether its XOR is zero. This holds for every request and every
      well-formed response, however long the device was busy, unless an extended
      response comes in one-byte messages after a request whose second byte is 0,
      1, 2 or 16; and then it never holds. */
  lemma ResponseRoundTrip(c: Course, h: Handler, r: Request, resp: seq<byte>, stream: seq<byte>)
    requires Transaction(c, h, r, resp, stream)
    ensures Answered(c, r, resp) <==> !Misread(resp, c.odLen, Encode(r)[1])
  {
    WaitsForResponse(c, h, r, resp, stream);
    var m := SegmentCount(|Encode(r)|, c.odLen) + c.b;
    if Misread(resp, c.odLen, Encode(r)[1]) {
      OffsetIsProduct(SegmentCount(|resp|, 1), 1);
      AnsweredTooEarly(c, m, resp, stream, r.read);
      assert !Answered(c, r, resp);
    } else {
      ReadRightAnswered(c, h, r, resp, stream);
    }
  }

  lemma ReadRightAnswered(c: Course, h: Handler, r: Request, resp: seq<byte>, stream: seq<byte>)
    requires Transaction(c, h, r, resp, stream) && !Misread(resp, c.odLen, Encode(r)[1])
    ensures Answered(c, r, resp)
  {
    WaitsForResponse(c, h, r, resp, stream);
    var m := SegmentCount(|Encode(r)|, c.odLen) + c.b;
    SegmentCountCovers(|resp|, c.odLen);
    AnsweredInTime(c, m, resp, stream, r.read, SegmentCount(|resp|, c.odLen));
  }

  lemma AnsweredTooEarly(c: Course, m: nat, resp: seq<byte>, stream: seq<byte>, dirRead: bool)
    requires Trace(c.hs, c.outs, 1, c.rxs) && m + 17 <= |c.rxs| && Awaiting(c.hs[m], 1, dirRead)
    requires WellFormedResponse(resp, dirRead) && Carries(stream, resp, 1) && Misread(resp, 1, c.hs[m].buf[1])
    requires Streams(c.rxs, m, stream, |resp|, 1)
    ensures Confirmations(c.outs[m]) == 1 || Confirmations(c.outs[m + 1]) == 1
  {
    var h, stale := c.hs[m], c.hs[m].buf[1];
    assert RoundAt(c.hs, c.outs, 1, c.rxs, m);
    assert IsRound((c.hs[m + 1], c.outs[m]), h, 1, c.rxs[m]);
    if stale != 2 {
      TakeFirstStale(h, resp, dirRead, c.rxs[m]);
      CountShort(c.outs[m]);
    } else {
      TakeFirst(h, resp, stream, 1, dirRead, c.rxs[m]);
      assert RoundAt(c.hs, c.outs, 1, c.rxs, m + 1);
      assert IsRound((c.hs[m + 2], c.outs[m + 1]), c.hs[m + 1], 1, c.rxs[m + 1]);
      TakeSecondStale(c.hs[m + 1], resp, stream, dirRead, c.rxs[m + 1]);
    }
  }
}
