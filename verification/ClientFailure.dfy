/** Services of the application layer that fail, and accesses to direct parameters:
    what the client is called back with (section 8.3.2 of the IO-Link Interface
    Specification v1.1.3, error types of its annex C). */
module ClientFailure {
  import opened Bytes
  import opened DlTypes
  import Isdu
  import I = IsduHandler
  import F = IsduFailure
  import T = IsduTransfer
  import A = ApplicationLayer
  import C = ClientService

  /** The error type of the client `c` for a transfer that fails. A reader is told no
      more than that the application failed, unless the header is that of a positive
      response without a length; a writer is told the reason. For a writer the header of a
      negative response without a length is taken for a device error, and what an earlier
      service has left, `stale`, for its code. */
  function Told(c: A.Client, late: bool, lost: bool, aborted: bool, header: byte, stale: nat): nat {
    var illegal := !late && !lost && !aborted && !F.LegalHeader(header, c.read);
    if c.read then if illegal && header == 0xD0 then 0x5700 else 0x8000
    else if illegal && header / 16 == 0x4 then if |c.data| != 2 then 0x8000 else if stale == 0 then 0x5700 else stale
    else if illegal then 0x5700
    else if late then 0x1100
    else if lost || aborted then 0x8000
    else 0x1000
  }

  /** The two bytes an earlier service has left, the high one first. */
  function Leftover(s: A.Service): nat
    requires |s.dataRead| >= 2
  {
    var high: int, low: int := s.dataRead[0], s.dataRead[1];
    256 * high + low
  }

  lemma DeliverReport(b: A.OnReq, outs: seq<Out>)
    requires A.Inv(b) && b.state == A.AwaitIsdu && |outs| == 2 && outs[0].Od? && outs[1].IsduCnf? && |outs[1].data| < 256
    ensures C.Deliver(b, outs) == A.IsduDone(b, outs[1].data, outs[1].qualifier, outs[1].status)
  {
    CountShort(outs[..1]);
    C.NothingToDeliver(b, outs[..1]);
    assert outs[..|outs| - 1] == outs[..1];
    var last := A.IsduDone(b, outs[1].data, outs[1].qualifier, outs[1].status);
    assert [] + last.1 == last.1;
  }

  lemma ReportTold(b: A.OnReq, c: A.Client, outs: seq<Out>, late: bool, lost: bool, aborted: bool, header: byte)
    requires C.Serving(b, c) && b.service.dataLen == (if c.read then 0 else |c.data|)
    requires F.Reported(outs, late, lost, aborted, header, c.read)
    ensures
      var (d, calls) := A.IsduDone(b, outs[1].data, outs[1].qualifier, outs[1].status);
      && d.state == A.OnReqIdle
      && calls == [A.Callback(c.id, [], Told(c, late, lost, aborted, header, Leftover(b.service)))]
  {
    assert b.service.dataRead[..0] == [];
  }

  lemma ReportDelivered(a: A.OnReq, c: A.Client, outs: seq<Out>, late: bool, lost: bool, aborted: bool, header: byte)
    requires A.Inv(a) && a.state == A.OnReqIdle && C.Asking(c) && c.index >= 2
    requires F.Reported(outs, late, lost, aborted, header, c.read)
    ensures
      var (d, calls) := C.Deliver(A.Serve(a, c).0, outs);
      && d.state == A.OnReqIdle
      && calls == [A.Callback(c.id, [], Told(c, late, lost, aborted, header, Leftover(a.service)))]
  {
    var b := A.Serve(a, c).0;
    C.ServesWithTransfer(a, c);
    DeliverReport(b, outs);
    ReportTold(b, c, outs, late, lost, aborted, header);
  }

  /** A client whose transfer fails is called back once, without data, with an error type
      that the reason determines. */
  lemma FailedClientTold(a: A.OnReq, c: A.Client, h: I.Handler, e: I.Env)
    requires A.Inv(a) && a.state == A.OnReqIdle && C.Asking(c) && c.index >= 2
    requires I.Fits(h, e) && F.FailsNow(h, e) && h.dirRead == c.read
    ensures
      var (d, calls) := C.Deliver(A.Serve(a, c).0, I.HandlerStep(h, e).1);
      && d.state == A.OnReqIdle
      && calls == [A.Callback(c.id, [],
                     Told(c, F.LateFor(h, e), e.comlost, h.rwcmd == RwIsduAbort, h.buf[0],
                          Leftover(a.service)))]
  {
    F.FailureReported(h, e);
    ReportDelivered(a, c, I.HandlerStep(h, e).1, F.LateFor(h, e), e.comlost, h.rwcmd == RwIsduAbort, h.buf[0]);
  }

  /** The client's callback after a timeout: a writer learns of it, a reader does not. */
  function TimeoutCall(c: A.Client): A.Out {
    A.Callback(c.id, [], if c.read then 0x8000 else 0x1100)
  }

  /** The whole way to a timeout. The request is sent and the device answers, however often,
      that it is busy. Nobody but later clients is called back, and each of them at once
      and with nothing; when the time is up, with this message or the next, the client is. */
  lemma SilentDeviceTold(a: A.OnReq, c: A.Client, asked: seq<seq<A.Client>>, t: T.Course, h: I.Handler, e: I.Env, f: I.Env)
    requires A.Inv(a) && a.state == A.OnReqIdle && C.Asking(c) && c.index >= 2
    requires F.Unanswered(t, h, C.RequestOf(c)) && F.Follows(e, t) && F.Follows(f, t) && e.late && f.late
    requires |asked| == |t.outs| && forall k :: 0 <= k < |asked| ==> C.AllAsking(asked[k])
    ensures
      var w := t.hs[|t.rxs|];
      && C.Rounds(A.Serve(a, c).0, asked, t.outs) == (A.Serve(a, c).0, C.AllTurnedAway(asked))
      && I.Fits(w, e)
      && if e.trigger == MasterMessage then Calls(a, c, I.HandlerStep(w, e).1)
         else
           && I.HandlerStep(w, e).1 == [] && I.Fits(I.HandlerStep(w, e).0, f)
           && Calls(a, c, I.HandlerStep(I.HandlerStep(w, e).0, f).1)
  {
    var w := t.hs[|t.rxs|];
    F.NothingConfirmed(t, h, C.RequestOf(c));
    C.Waits(A.Serve(a, c).0, asked, t.outs);
    F.SilentDeviceTimesOut(t, h, C.RequestOf(c), e, f);
    if e.trigger == MasterMessage {
      TimeoutTold(a, c, w, e);
    } else {
      F.FailureNoted(w, e);
      TimeoutTold(a, c, I.HandlerStep(w, e).0, f);
    }
  }

  /** With these outputs the client served since `a` is called back for a timeout. */
  predicate Calls(a: A.OnReq, c: A.Client, outs: seq<Out>)
    requires A.Inv(a) && C.Asking(c)
  {
    var (d, calls) := C.Deliver(A.Serve(a, c).0, outs);
    d.state == A.OnReqIdle && calls == [TimeoutCall(c)]
  }

  lemma TimeoutTold(a: A.OnReq, c: A.Client, h: I.Handler, e: I.Env)
    requires A.Inv(a) && a.state == A.OnReqIdle && C.Asking(c) && c.index >= 2
    requires I.Fits(h, e) && F.FailsNow(h, e) && F.LateFor(h, e) && h.dirRead == c.read
    ensures Calls(a, c, I.HandlerStep(h, e).1)
  {
    FailedClientTold(a, c, h, e);
  }

  /** A timeout reaches a client as such exactly if the client writes. */
  lemma TimeoutReachesClientExactly(a: A.OnReq, c: A.Client, h: I.Handler, e: I.Env)
    requires A.Inv(a) && a.state == A.OnReqIdle && C.Asking(c) && c.index >= 2
    requires I.Fits(h, e) && F.FailsNow(h, e) && F.LateFor(h, e) && h.dirRead == c.read
    ensures
      var calls := C.Deliver(A.Serve(a, c).0, I.HandlerStep(h, e).1).1;
      |calls| == 1 && calls[0].Callback? && (calls[0].errortype == 0x1100 <==> !c.read)
  {
    TimeoutTold(a, c, h, e);
  }

  // --- Direct parameters -------------------------------------------------------------------

  /** The error type of a service of the data link layer. */
  lemma ErrorTypes(s: Status)
    ensures
      A.StatusError(s) ==
      if s == NoError then 0x0000 else if s == IllegalServicePrimitive then 0x5700 else if s == Invalid then 0x1000
      else if s == ChecksumError then 0x5600 else if s == IsduTimeout then 0x1100 else 0x8000
  {
  }

  /** A confirmation of the data link layer, as the application layer takes it. */
  function Confirmed(a: A.OnReq, o: Out): (r: A.Step)
    requires A.Inv(a)
    ensures A.Inv(r.0)
  {
    if o.ReadParamCnf? && A.Possible(a, A.ReadParamCnf(o.value, o.status)) then A.Apply(a, A.ReadParamCnf(o.value, o.status))
    else if o.WriteParamCnf? && A.Possible(a, A.WriteParamCnf(o.status)) then A.Apply(a, A.WriteParamCnf(o.status))
    else (a, [])
  }

  /** The messages of a direct parameter access: the master's and the device's. */
  predicate PageRound(h: I.Handler, cmd: RwCmd, addr: nat, value: byte, m: I.Env, d: I.Env) {
    && h.state == I.Idle && h.active && h.rwcmd == cmd && |h.buf| == I.BufferSize
    && m.trigger == MasterMessage && d.trigger == DeviceMessage && I.OdLength(m.odLen) && d.odLen == m.odLen
    && |m.rx| == m.odLen && |d.rx| == d.odLen && m.dataAddr == addr < 32 && d.dataAddr < 32 && m.dataValue == value
  }

  /** A client that reads index 0 or 1 is served with a read of the direct parameter page
      of that address, and is called back with the byte the device replies. */
  lemma PageReadServed(a: A.OnReq, c: A.Client, h: I.Handler, m: I.Env, d: I.Env)
    requires A.Inv(a) && a.state == A.OnReqIdle && C.Asking(c) && c.read && c.index <= 1
    requires PageRound(h, RwReadParam, c.index, 0, m, d)
    ensures
      var (b, first) := A.Serve(a, c);
      && first == [A.ReadParam(c.index)]
      && var (g, sent) := I.HandlerStep(h, m);
      && |sent| == 1 && sent[0].Od? && sent[0].req.addr < 32 && F.OnWire(sent[0]) == 0xA0 + c.index
      && I.Fits(g, d) && var (k, got) := I.HandlerStep(g, d);
      && k.rwcmd == RwNone && |got| == 1
      && Confirmed(b, got[0]).0.state == A.OnReqIdle && Confirmed(b, got[0]).1 == [A.Callback(c.id, [d.rx[0]], 0x0000)]
  {
    F.IdleOnWire(h, m);
    F.DirectAccess(I.HandlerStep(h, m).0, d);
    var b := A.Serve(a, c).0;
    assert b.service.dataRead[0 := d.rx[0]][..1] == [d.rx[0]];
  }

  /** One that writes index 1 is served with a write of its first byte to address 1. */
  lemma PageWriteServed(a: A.OnReq, c: A.Client, h: I.Handler, m: I.Env, d: I.Env)
    requires A.Inv(a) && a.state == A.OnReqIdle && C.Asking(c) && !c.read && c.index == 1
    requires PageRound(h, RwWriteParam, 1, c.data[0], m, d)
    ensures
      var (b, first) := A.Serve(a, c);
      && first == [A.WriteParam(1, c.data[0])]
      && var (g, sent) := I.HandlerStep(h, m);
      && |sent| == 1 && sent[0].Od? && sent[0].req.addr < 32 && F.OnWire(sent[0]) == 0x21
      && sent[0].req.data == [c.data[0]] + Zeros(m.odLen - 1)
      && I.Fits(g, d) && var (k, got) := I.HandlerStep(g, d);
      && k.rwcmd == RwNone && |got| == 1
      && Confirmed(b, got[0]).0.state == A.OnReqIdle && Confirmed(b, got[0]).1 == [A.Callback(c.id, [], 0x0000)]
  {
    F.IdleOnWire(h, m);
    F.DirectAccess(I.HandlerStep(h, m).0, d);
  }

  /** Which service a client is given; a write of index 0 is the one that is refused. */
  lemma ServiceChosen(a: A.OnReq, c: A.Client)
    requires A.Inv(a) && a.state == A.OnReqIdle && C.Asking(c)
    ensures
      var outs := A.Serve(a, c).1;
      && |outs| == 1
      && (outs[0].ReadParam? <==> c.read && c.index <= 1) && (outs[0].WriteParam? <==> !c.read && c.index == 1)
      && (outs[0].Transport? <==> c.index >= 2)
      && (outs[0].Callback? <==> !c.read && c.index == 0)
      && (outs[0].Callback? ==> outs[0] == A.Callback(c.id, [], 0x8000) && A.Serve(a, c).0.state == A.OnReqIdle)
  {
  }

  /** A confirmation with an error reaches the client of a direct parameter as its type. */
  lemma PageErrorTold(a: A.OnReq, c: A.Client, value: byte, s: Status)
    requires A.Inv(a) && a.state == A.OnReqIdle && C.Asking(c) && (c.index == 1 || (c.read && c.index == 0))
    ensures
      var b := A.Serve(a, c).0;
      var (d, calls) := Confirmed(b, if c.read then ReadParamCnf(value, s) else WriteParamCnf(s));
      && d.state == A.OnReqIdle
      && calls == [A.Callback(c.id, if c.read then [value] else [], A.StatusError(s))]
  {
    var b := A.Serve(a, c).0;
    assert b.service.dataRead[0 := value][..1] == [value];
  }

  /** A client is told that the service is unavailable for the time being exactly if another
      is being served. */
  lemma BusyTold(a: A.OnReq, c: A.Client)
    requires A.Inv(a) && C.Asking(c)
    ensures A.Serve(a, c).1 == [A.Callback(c.id, [], 0x4036)] <==> a.state != A.OnReqIdle
  {
  }
}
