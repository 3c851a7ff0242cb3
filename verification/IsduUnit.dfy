/** The master ISDU handler as it stands in memory: its fields and its buffer are
    updated in place, and every method does what the step function says. */
module IsduUnit {
  import opened Bytes
  import opened DlTypes
  import opened Isdu
  import opened IsduHandler
  import opened T = Transmitter

  class IsduUnit {
    const data: array<byte>
    var state: State
    var active: bool
    var rwcmd: RwCmd
    var totalLen: byte
    var seg: byte
    var totalSeg: byte
    var timerOn: bool
    var dirRead: bool

    predicate Valid()
      reads this
    {
      data.Length == IsduHandler.BufferSize
    }

    function View(): Handler
      reads this, data
    {
      Handler(state, active, rwcmd, totalLen, seg, totalSeg, timerOn, dirRead, data[..])
    }

    constructor ()
      ensures Valid() && fresh(data)
      ensures View() == Handler(Inactive, false, RwNone, 0, 0, 0, false, false, Zeros(IsduHandler.BufferSize))
    {
      data := new byte[IsduHandler.BufferSize](_ => 0);
      state, active, rwcmd, timerOn, dirRead := Inactive, false, RwNone, false, false;
      totalLen, seg, totalSeg := 0, 0, 0;
    }

    /** The XOR of the first `length` bytes, as the source folds it. */
    method CalcChkPdu(length: nat) returns (c: byte)
      requires length <= data.Length
      ensures c == Checksum(data[..length])
    {
      c := 0;
      if length > 0 {
        c := data[0];
        assert data[..1][..0] == [] && Checksum(data[..1]) == Xor(0, data[0]);
        XorZero(data[0]);
        var i := 1;
        while i < length
          invariant 1 <= i <= length && c == Checksum(data[..i])
        {
          assert data[..i + 1][..i] == data[..i];
          c := Xor(c, data[i]);
          i := i + 1;
        }
      }
    }

    lemma XorZero(b: byte)
      ensures Xor(0, b) == b
    {
    }

    method Put(at: nat, bytes: seq<byte>)
      requires at + |bytes| <= data.Length
      modifies data
      ensures data[..at + |bytes|] == old(data[..at]) + bytes
      ensures data[at + |bytes|..] == old(data[at + |bytes|..])
    {
      var i := 0;
      while i < |bytes|
        invariant i <= |bytes|
        invariant forall k :: 0 <= k < i ==> data[at + k] == bytes[k]
        invariant forall k :: 0 <= k < at || at + |bytes| <= k < data.Length ==> data[k] == old(data[k])
      {
        data[at + i] := bytes[i];
        i := i + 1;
      }
    }

    /** Service, length and address of a request, as far as the buffer is written. */
    method BuildFront(r: Request) returns (at: nat)
      requires Valid() && Encodable(r)
      modifies data
      ensures at + |r.data| + 1 == EncodedLength(r) && data[..at] == Head(r) + Address(r.index, r.subindex)
      ensures data[at..] == old(data[at..])
    {
      var overhead := Overhead(r.index, r.subindex);
      var iserv := IService(r);
      if |r.data| <= 15 - overhead {
        Put(0, [16 * iserv + |r.data| + overhead]);
        at := 1;
      } else {
        Put(0, [16 * iserv + 1, |r.data| + overhead + 1]);
        at := 2;
      }
      assert old(data[..0]) == [] && [] + Head(r) == Head(r);
      ghost var front, mid := at, data[..];
      assert mid[front..] == old(data[front..]);
      if r.index > 255 {
        Put(at, [r.index / 256, r.index % 256, r.subindex]);
        at := at + 3;
      } else if r.subindex > 0 {
        Put(at, [r.index, r.subindex]);
        at := at + 2;
      } else {
        Put(at, [r.index]);
        at := at + 1;
      }
      assert data[at..] == mid[at..] == mid[front..][at - front..];
      assert old(data[at..]) == old(data[front..])[at - front..];
    }

    /** All of a request but its checksum. */
    method BuildBody(r: Request) returns (at: nat)
      requires Valid() && Encodable(r)
      modifies data
      ensures at + 1 == EncodedLength(r) && data[..at] == EncodeBody(r) && data[at..] == old(data[at..])
    {
      var front := BuildFront(r);
      ghost var mid := data[..];
      at := front + |r.data|;
      Put(front, r.data);
      assert data[at..] == mid[at..] == mid[front..][at - front..];
      assert old(data[at..]) == old(data[front..])[at - front..];
    }

    /** Writes an encoded request into the buffer, zeros behind it. */
    method Build(r: Request)
      requires Valid() && Encodable(r)
      modifies data
      ensures data[..IsduMaxSize] == Pad(Encode(r), IsduMaxSize)
      ensures data[IsduMaxSize..] == old(data[IsduMaxSize..])
    {
      var at := BuildBody(r);
      assert data[IsduMaxSize..] == data[at..][IsduMaxSize - at..];
      var c := CalcChkPdu(at);
      Put(at, [c]);
      at := at + 1;
      assert data[IsduMaxSize..] == data[at..][IsduMaxSize - at..];
      Put(at, Zeros(IsduMaxSize - at));
    }

    /** DL_ISDUTransport_req. */
    method TransportReq(connected: bool, r: Request, odLen: nat) returns (outs: seq<Out>)
      requires Valid() && OdLength(odLen) && r.index < 0x1_0000 && EncodedLength(r) <= IsduMaxSize
      modifies this, data
      ensures Valid() && (View(), outs) == Accept(old(View()), connected, r, odLen)
    {
      if !connected {
        return [Quiet(NoComm)];
      } else if r.index < 2 {
        return [Quiet(ValueOutOfRange)];
      } else if state != Idle {
        return [Quiet(StateConflict)];
      }
      Build(r);
      assert data[..] == data[..IsduMaxSize] + data[IsduMaxSize..];
      dirRead := r.read;
      CountFits(EncodedLength(r), odLen);
      totalLen, totalSeg, seg := EncodedLength(r), SegmentCount(EncodedLength(r), odLen), 0;
      rwcmd := RwIsduTransport;
      outs := [];
    }

    /** The buffer shows every on-request service among `outs`. */
    ghost predicate Shown(tx: Transmitter, outs: seq<Out>)
      requires tx.Valid()
      reads tx, tx.buffer
    {
      forall o <- outs :: o.Od? ==> tx.Shows(o.req)
    }

    /** Memory is laid out as the source has it, and the step stays inside. */
    ghost predicate Ready(e: Env, tx: Transmitter)
      reads this, data, tx
    {
      Valid() && tx.Valid() && data != tx.buffer && e.odLen == tx.odLen && Fits(View(), e)
    }

    method ErrorState(e: Env, tx: Transmitter) returns (outs: seq<Out>)
      requires Ready(e, tx)
      modifies this, tx`odTxLen, tx`odRxLen, tx.buffer
      ensures Valid() && (View(), outs) == ErrorStep(old(View()), e)
      ensures tx.Valid() && Shown(tx, outs)
    {
      if !active {
        state := Inactive;
        return [];
      }
      totalSeg := 0;
      var ok := tx.Request(false, IsduChannel, FlowAbort, []);
      var cnf := Quiet(Invalid);
      if timerOn && e.late {
        cnf := Quiet(IsduTimeout);
      } else if e.comlost {
        cnf := Quiet(NoComm);
      } else if rwcmd == RwIsduAbort {
        cnf := Quiet(IsduAborted);
      } else if !ValidHeader(data[0], dirRead) {
        cnf := IsduCnf([], data[0] / 16, IllegalServicePrimitive);
      }
      rwcmd := RwNone;
      state := Idle;
      outs := [Od(OdReq(false, IsduChannel, FlowAbort, [])), cnf];
    }

    method EnterErrorState(e: Env, tx: Transmitter) returns (outs: seq<Out>)
      requires Ready(e, tx)
      modifies this, tx`odTxLen, tx`odRxLen, tx.buffer
      ensures Valid() && (View(), outs) == EnterError(old(View()), e)
      ensures tx.Valid() && Shown(tx, outs)
    {
      if !active {
        totalSeg := 0;
        state := Inactive;
        return [Quiet(NoComm)];
      }
      if e.trigger == MasterMessage {
        outs := ErrorState(e, tx);
      } else {
        state := Failing;
        outs := [];
      }
    }

    /** What the buffer holds: the payload, service code and verdict to confirm. */
    method ReceivedCnf() returns (cnf: Out)
      requires Valid()
      ensures cnf == Received(View())
    {
      var at := if data[0] % 16 == 1 then 2 else 1;
      var total := TotalLen(data[0], data[1]);
      if total.None? {
        return IsduCnf([], data[0] / 16, Invalid);
      }
      var checksum := CalcChkPdu(totalLen);
      assert data[..][..totalLen] == data[..totalLen];
      var length: int := (total.value as int - at - 1) % 256;
      assert data[..][at..at + length] == data[at..at + length];
      cnf := IsduCnf(data[at..at + length], data[0] / 16, if checksum == 0 then NoError else ChecksumError);
    }

    method Complete() returns (cnf: Out)
      requires Valid()
      modifies this
      ensures Valid() && (View(), [cnf]) == ReceptionComplete(old(View()))
    {
      cnf := ReceivedCnf();
      seg, totalSeg, rwcmd, state := 0, 0, RwNone, Idle;
    }

    /** Sends segment `k` of the buffer. */
    method SendSegmentAt(k: byte, flow: nat, tx: Transmitter) returns (out: Out)
      requires Valid() && tx.Valid() && data != tx.buffer && OdLength(tx.odLen) && flow < 32
      requires Offset(k + 1, tx.odLen) <= data.Length
      modifies tx`odTxLen, tx`odRxLen, tx.buffer
      ensures out == Od(OdReq(true, IsduChannel, flow, Segment(data[..], tx.odLen, k)))
      ensures tx.Valid() && Shown(tx, [out])
    {
      OffsetIsProduct(k, tx.odLen);
      OffsetIsProduct(k + 1, tx.odLen);
      var segment := data[tx.odLen * k..tx.odLen * k + tx.odLen];
      assert segment == Segment(data[..], tx.odLen, k);
      var ok := tx.Request(true, IsduChannel, flow, segment);
      out := Od(OdReq(true, IsduChannel, flow, segment));
    }

    /** Copies the received on-request data to where segment `seg` belongs. */
    method StoreSegment(e: Env)
      requires Valid() && OdLength(e.odLen) && |e.rx| == e.odLen && Offset(seg + 1, e.odLen) <= data.Length
      modifies data
      ensures data[..] == Store(old(data[..]), e.odLen, seg, e.rx)
      ensures Offset(seg + 1, e.odLen) <= IsduMaxSize ==> data[IsduMaxSize..] == old(data[IsduMaxSize..])
    {
      OffsetIsProduct(seg, e.odLen);
      OffsetIsProduct(seg + 1, e.odLen);
      Put(seg * e.odLen, e.rx);
      assert data[..] == data[..seg * e.odLen + e.odLen] + data[seg * e.odLen + e.odLen..];
      StoreKeepsTail(old(data[..]), e.odLen, seg, e.rx, IsduMaxSize);
    }

    /** What the master's message carries while no transfer is under way. */
    method IdleMessage(e: Env, tx: Transmitter) returns (out: Out)
      requires Ready(e, tx) && state == Idle && active && e.trigger == MasterMessage
      modifies this`seg, this`state, tx`odTxLen, tx`odRxLen, tx.buffer
      ensures Valid() && (View(), [out]) == IdleStep(old(View()), e)
      ensures tx.Valid() && Shown(tx, [out])
    {
      match rwcmd
      case RwIsduTransport =>
        out := SendSegmentAt(0, FlowStart, tx);
        seg, state := 1, Requesting;
      case RwReadParam =>
        out := Ask(Page, e.dataAddr, tx);
      case RwWriteParam =>
        var ok := tx.Request(true, Page, e.dataAddr, [e.dataValue]);
        out := Od(OdReq(true, Page, e.dataAddr, Pad([e.dataValue], e.odLen)));
      case _ =>
        out := Ask(IsduChannel, FlowIdle1, tx);
    }

    method Ask(c: Channel, addr: nat, tx: Transmitter) returns (out: Out)
      requires tx.Valid() && addr < 32 && c != Process
      modifies tx`odTxLen, tx`odRxLen, tx.buffer
      ensures out == Od(OdReq(false, c, addr, [])) && tx.Valid() && Shown(tx, [out])
    {
      var ok := tx.Request(false, c, addr, []);
      out := Od(OdReq(false, c, addr, []));
    }

    method IdleState(e: Env, tx: Transmitter) returns (outs: seq<Out>)
      requires Ready(e, tx) && state == Idle
      modifies this, tx`odTxLen, tx`odRxLen, tx.buffer
      ensures Valid() && (View(), outs) == IdleStep(old(View()), e)
      ensures tx.Valid() && Shown(tx, outs)
    {
      outs := [];
      if !active {
        if totalSeg != 0 {
          outs := [Quiet(NoComm)];
          totalSeg := 0;
        }
        state := Inactive;
      } else if e.trigger == MasterMessage {
        var out := IdleMessage(e, tx);
        outs := [out];
      } else if e.trigger == DeviceMessage {
        if rwcmd == RwReadParam {
          outs, rwcmd := [ReadParamCnf(e.rx[0], NoError)], RwNone;
        } else if rwcmd == RwWriteParam {
          outs, rwcmd := [WriteParamCnf(NoError)], RwNone;
        }
      }
    }

    method RequestState(e: Env, tx: Transmitter) returns (outs: seq<Out>)
      requires Ready(e, tx) && state == Requesting
      modifies this, tx`odTxLen, tx`odRxLen, tx.buffer
      ensures Valid() && (View(), outs) == RequestStep(old(View()), e)
      ensures tx.Valid() && Shown(tx, outs)
    {
      outs := [];
      if rwcmd == RwIsduAbort || e.comlost {
        outs := EnterErrorState(e, tx);
      } else if e.trigger == MasterMessage {
        var out := SendSegmentAt(seg, seg % 16, tx);
        outs := [out];
        seg := (seg + 1) % 256;
      } else if e.trigger == DeviceMessage && seg >= totalSeg {
        timerOn, seg, state := true, 0, Waiting;
      }
    }

    /** Length and segment count as the buffer announces them. */
    method Measure(odLen: nat)
      requires Valid() && OdLength(odLen)
      modifies this`totalLen, this`totalSeg
      ensures View() == Measured(old(View()), odLen)
    {
      var total := TotalLen(data[0], data[1]);
      totalLen := if total.Some? then total.value else 0;
      totalSeg := SegmentCount(totalLen, odLen);
    }

    method FirstSegmentState(e: Env, tx: Transmitter) returns (outs: seq<Out>)
      requires Ready(e, tx) && state == Waiting && e.trigger == DeviceMessage
      modifies this, tx`odTxLen, tx`odRxLen, tx.buffer
      ensures Valid() && (View(), outs) == FirstSegment(old(View()), e)
      ensures tx.Valid() && Shown(tx, outs)
    {
      outs := [];
      if data[0] == 16 * NoService + 1 {
        return;
      }
      if data[0] == 0 || !ValidHeader(data[0], dirRead) {
        timerOn := false;
        outs := EnterErrorState(e, tx);
        return;
      }
      Measure(e.odLen);
      seg, timerOn := 1, false;
      if seg >= totalSeg {
        var cnf := Complete();
        outs := [cnf];
      } else {
        state := Responding;
      }
    }

    method WaitState(e: Env, tx: Transmitter) returns (outs: seq<Out>)
      requires Ready(e, tx) && state == Waiting
      modifies this, data, tx`odTxLen, tx`odRxLen, tx.buffer
      ensures Valid() && (View(), outs) == WaitStep(old(View()), e)
      ensures tx.Valid() && Shown(tx, outs)
    {
      outs := [];
      if rwcmd == RwIsduAbort {
        timerOn := false;
        outs := EnterErrorState(e, tx);
      } else if (timerOn && e.late) || e.comlost {
        outs := EnterErrorState(e, tx);
      } else if e.trigger == MasterMessage {
        var ok := tx.Request(false, IsduChannel, FlowStart, []);
        outs := [Od(OdReq(false, IsduChannel, FlowStart, []))];
      } else if e.trigger == DeviceMessage {
        StoreSegment(e);
        outs := FirstSegmentState(e, tx);
      }
    }

    /** Measures the response and stores another segment of it. */
    method StoreNext(e: Env)
      requires Valid() && OdLength(e.odLen) && |e.rx| == e.odLen && Offset(seg + 1, e.odLen) <= data.Length
      modifies this`totalLen, this`totalSeg, this`seg, data
      ensures Valid()
      ensures View() == old(Measured(View(), e.odLen)).(buf := Store(old(data[..]), e.odLen, old(seg), e.rx),
                                                       seg := (old(seg) + 1) % 256)
    {
      Measure(e.odLen);
      StoreSegment(e);
      seg := (seg + 1) % 256;
    }

    static lemma ReceivedNext(h: Handler, e: Env, g: Handler)
      requires Fits(h, e) && h.state == Responding && h.rwcmd != RwIsduAbort && !e.comlost && e.trigger == DeviceMessage
      requires g == Measured(h, e.odLen).(buf := Store(h.buf, e.odLen, h.seg, e.rx), seg := (h.seg + 1) % 256)
      ensures ResponseStep(h, e) == if g.seg >= g.totalSeg then ReceptionComplete(g) else (g, [])
    {
    }

    /** Another segment of a response. */
    method ReceiveSegment(e: Env) returns (outs: seq<Out>)
      requires Valid() && Fits(View(), e) && state == Responding && rwcmd != RwIsduAbort && !e.comlost
      requires e.trigger == DeviceMessage
      modifies this, data
      ensures Valid() && (View(), outs) == ResponseStep(old(View()), e)
      ensures forall o <- outs :: !o.Od?
    {
      outs := [];
      ghost var h := View();
      StoreNext(e);
      ReceivedNext(h, e, View());
      if seg >= totalSeg {
        var cnf := Complete();
        outs := [cnf];
      }
    }

    method ResponseState(e: Env, tx: Transmitter) returns (outs: seq<Out>)
      requires Ready(e, tx) && state == Responding
      modifies this, data, tx`odTxLen, tx`odRxLen, tx.buffer
      ensures Valid() && (View(), outs) == ResponseStep(old(View()), e)
      ensures tx.Valid() && Shown(tx, outs)
    {
      outs := [];
      if rwcmd == RwIsduAbort || e.comlost {
        outs := EnterErrorState(e, tx);
      } else if e.trigger == MasterMessage {
        var ok := tx.Request(false, IsduChannel, seg % 16, []);
        outs := [Od(OdReq(false, IsduChannel, seg % 16, []))];
      } else if e.trigger == DeviceMessage {
        outs := ReceiveSegment(e);
      }
    }

    /** One step of the handler. */
    method Step(e: Env, tx: Transmitter) returns (outs: seq<Out>)
      requires Ready(e, tx)
      modifies this, data, tx`odTxLen, tx`odRxLen, tx.buffer
      ensures Valid() && (View(), outs) == HandlerStep(old(View()), e)
      ensures tx.Valid() && Shown(tx, outs)
    {
      outs := [];
      match state
      case Inactive =>
        if active {
          totalSeg, seg, state := 0, 0, Idle;
        }
      case Idle => outs := IdleState(e, tx);
      case Requesting => outs := RequestState(e, tx);
      case Waiting => outs := WaitState(e, tx);
      case Failing => outs := ErrorState(e, tx);
      case Responding => outs := ResponseState(e, tx);
    }
  }
}
