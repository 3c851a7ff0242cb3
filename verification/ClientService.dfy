/** The application layer on top of the data link layer: from the request of a client
    over the segments of the transfer to the client's callback. */
module ClientService {
  import opened Bytes
  import opened DlTypes
  import Isdu
  import I = IsduHandler
  import T = IsduTransfer
  import M = OnRequest
  import V = Interleaving
  import A = ApplicationLayer

  /** Requests as clients may make them. */
  predicate Asking(c: A.Client) {
    c.index < 0x1_0000 && |c.data| < 256 && (!c.read && c.index == 1 ==> c.data != [])
  }

  predicate AllAsking(cs: seq<A.Client>) {
    forall i :: 0 <= i < |cs| ==> Asking(cs[i])
  }

  /** Clients that ask, one after the other. */
  function Ask(a: A.OnReq, cs: seq<A.Client>): (r: A.Step)
    requires A.Inv(a) && AllAsking(cs)
    ensures A.Inv(r.0)
  {
    if cs == [] then (a, [])
    else
      var front, c := Ask(a, cs[..|cs| - 1]), cs[|cs| - 1];
      var last := A.Apply(front.0, A.Request(c));
      (last.0, front.1 + last.1)
  }

  /** What the data link layer emits; of that, the confirmation of a transfer is
      the application layer's. */
  function Deliver(a: A.OnReq, outs: seq<Out>): (r: A.Step)
    requires A.Inv(a)
    ensures A.Inv(r.0)
  {
    if outs == [] then (a, [])
    else
      var front, o := Deliver(a, outs[..|outs| - 1]), outs[|outs| - 1];
      if o.IsduCnf? && A.Possible(front.0, A.IsduCnf(o.data, o.qualifier, o.status)) then
        var last := A.Apply(front.0, A.IsduCnf(o.data, o.qualifier, o.status));
        (last.0, front.1 + last.1)
      else front
  }

  /** Rounds of the data link layer, in each of which other clients ask first. */
  function Rounds(a: A.OnReq, asked: seq<seq<A.Client>>, outs: seq<seq<Out>>): (r: A.Step)
    requires A.Inv(a) && |asked| == |outs| && forall k :: 0 <= k < |asked| ==> AllAsking(asked[k])
    ensures A.Inv(r.0)
    decreases |outs|
  {
    if outs == [] then (a, [])
    else
      var n := |outs| - 1;
      var front := Rounds(a, asked[..n], outs[..n]);
      var others := Ask(front.0, asked[n]);
      var last := Deliver(others.0, outs[n]);
      (last.0, front.1 + others.1 + last.1)
  }

  /** Every one of `cs` is called back at once, with nothing. */
  function TurnedAway(cs: seq<A.Client>): seq<A.Out> {
    seq(|cs|, i requires 0 <= i < |cs| => A.Callback(cs[i].id, [], A.TempUnavailable))
  }

  function AllTurnedAway(asked: seq<seq<A.Client>>): seq<A.Out> {
    if asked == [] then [] else AllTurnedAway(asked[..|asked| - 1]) + TurnedAway(asked[|asked| - 1])
  }

  /** What the response `resp` means to the client `c`: the payload if it is right
      and fits, and the device's error code if it is a negative one of two bytes. */
  function Answer(c: A.Client, resp: seq<byte>): A.Out
    requires Isdu.WellFormedResponse(resp, c.read)
  {
    var right, payload := Checksum(resp) == 0, Isdu.Payload(resp, c.read);
    var positive := resp[0] / 16 == Isdu.ReadPos || resp[0] / 16 == Isdu.WritePos;
    A.Callback(
      c.id,
      if c.read && right && |payload| <= Isdu.IsduMaxSize then payload else [],
      if !right then A.IsduChecksum
      else if positive then A.Success
      else if |payload| == 2 then BigEndian16(payload[0], payload[1])
      else A.AppDev)
  }

  lemma {:induction false} BusyTurnsAllAway(a: A.OnReq, cs: seq<A.Client>)
    requires A.Inv(a) && a.state != A.OnReqIdle && AllAsking(cs)
    ensures Ask(a, cs) == (a, TurnedAway(cs))
    decreases |cs|
  {
    if cs != [] {
      var front, c := cs[..|cs| - 1], cs[|cs| - 1];
      BusyTurnsAllAway(a, front);
      A.BusyTurnsAway(a, c);
      assert TurnedAway(cs) == TurnedAway(front) + [A.Callback(c.id, [], A.TempUnavailable)];
    }
  }

  lemma {:induction false} NothingToDeliver(a: A.OnReq, outs: seq<Out>)
    requires A.Inv(a) && Confirmations(outs) == 0
    ensures Deliver(a, outs) == (a, [])
    decreases |outs|
  {
    if outs != [] {
      NothingToDeliver(a, outs[..|outs| - 1]);
    }
  }

  /** While nothing is confirmed, the client waits and all others are turned away. */
  lemma {:induction false} Waits(a: A.OnReq, asked: seq<seq<A.Client>>, outs: seq<seq<Out>>)
    requires A.Inv(a) && a.state != A.OnReqIdle && |asked| == |outs| && forall k :: 0 <= k < |asked| ==> AllAsking(asked[k])
    requires forall k :: 0 <= k < |outs| ==> Confirmations(outs[k]) == 0
    ensures Rounds(a, asked, outs) == (a, AllTurnedAway(asked))
    decreases |outs|
  {
    if outs == [] {
      assert asked == [];
    } else {
      var n := |outs| - 1;
      Waits(a, asked[..n], outs[..n]);
      BusyTurnsAllAway(a, asked[n]);
      NothingToDeliver(a, outs[n]);
      assert AllTurnedAway(asked[..n]) + TurnedAway(asked[n]) + [] == AllTurnedAway(asked);
    }
  }

  function RequestOf(c: A.Client): Isdu.Request {
    Isdu.Request(c.read, c.index, c.subindex, if c.read then [] else c.data)
  }

  /** `a` serves `c` with a transfer. */
  predicate Serving(a: A.OnReq, c: A.Client) {
    A.Inv(a) && a.state == A.AwaitIsdu && a.service.client == c
  }

  /** The confirmation of a response, and the callback it leads to. */
  lemma ConfirmationCalls(a: A.OnReq, c: A.Client, resp: seq<byte>)
    requires Serving(a, c) && Isdu.WellFormedResponse(resp, c.read)
    requires |Isdu.Payload(resp, c.read)| <= Isdu.IsduMaxSize || c.read
    ensures
      var o := T.Expected(resp, c.read);
      A.Possible(a, A.IsduCnf(o.data, o.qualifier, o.status)) &&
      A.IsduDone(a, o.data, o.qualifier, o.status).1 == [Answer(c, resp)]
  {
    var o := T.Expected(resp, c.read);
    var (b, outs) := A.IsduDone(a, o.data, o.qualifier, o.status);
    if o.status == NoError && |o.data| <= Isdu.IsduMaxSize && (c.read || o.qualifier == Isdu.WriteNeg) {
      assert A.Copied(a.service, o.data).dataRead[..|o.data|] == o.data;
    }
  }

  /** Rounds of which only the last confirms, with the response `resp`. */
  ghost predicate AnsweredLast(outs: seq<seq<Out>>, resp: seq<byte>, dirRead: bool)
    requires Isdu.WellFormedResponse(resp, dirRead)
  {
    var last := |outs| - 1;
    && outs != [] && (forall k :: 0 <= k < last ==> Confirmations(outs[k]) == 0)
    && |outs[last]| == 2 && outs[last][0].Od? && outs[last][1] == T.Expected(resp, dirRead)
  }

  lemma DeliverLast(a: A.OnReq, c: A.Client, outs: seq<Out>, resp: seq<byte>)
    requires Serving(a, c) && Isdu.WellFormedResponse(resp, c.read)
    requires |Isdu.Payload(resp, c.read)| <= Isdu.IsduMaxSize || c.read
    requires |outs| == 2 && outs[0].Od? && outs[1] == T.Expected(resp, c.read)
    ensures Deliver(a, outs).0.state == A.OnReqIdle && Deliver(a, outs).1 == [Answer(c, resp)]
  {
    ConfirmationCalls(a, c, resp);
    CountShort(outs[..1]);
    NothingToDeliver(a, outs[..1]);
    assert [] + [Answer(c, resp)] == [Answer(c, resp)];
  }

  /** The client is called back in the last of these rounds. */
  lemma CalledInLastRound(a: A.OnReq, c: A.Client, asked: seq<seq<A.Client>>, outs: seq<seq<Out>>, resp: seq<byte>)
    requires Serving(a, c) && Isdu.WellFormedResponse(resp, c.read)
    requires |Isdu.Payload(resp, c.read)| <= Isdu.IsduMaxSize || c.read
    requires |asked| == |outs| && forall k :: 0 <= k < |asked| ==> AllAsking(asked[k])
    requires AnsweredLast(outs, resp, c.read)
    ensures forall k :: 0 <= k < |outs| ==> Rounds(a, asked[..k], outs[..k]) == (a, AllTurnedAway(asked[..k]))
    ensures Rounds(a, asked, outs).0.state == A.OnReqIdle
    ensures Rounds(a, asked, outs).1 == AllTurnedAway(asked) + [Answer(c, resp)]
  {
    forall k | 0 <= k < |outs| ensures Rounds(a, asked[..k], outs[..k]) == (a, AllTurnedAway(asked[..k])) {
      Waits(a, asked[..k], outs[..k]);
    }
    var n := |outs| - 1;
    Waits(a, asked[..n], outs[..n]);
    LastRoundCalls(a, c, asked, outs, resp);
  }

  lemma LastRoundCalls(a: A.OnReq, c: A.Client, asked: seq<seq<A.Client>>, outs: seq<seq<Out>>, resp: seq<byte>)
    requires Serving(a, c) && Isdu.WellFormedResponse(resp, c.read)
    requires |Isdu.Payload(resp, c.read)| <= Isdu.IsduMaxSize || c.read
    requires |asked| == |outs| > 0 && forall k :: 0 <= k < |asked| ==> AllAsking(asked[k])
    requires
      var n := |outs| - 1;
      && Rounds(a, asked[..n], outs[..n]) == (a, AllTurnedAway(asked[..n]))
      && |outs[n]| == 2 && outs[n][0].Od? && outs[n][1] == T.Expected(resp, c.read)
    ensures Rounds(a, asked, outs).0.state == A.OnReqIdle
    ensures Rounds(a, asked, outs).1 == AllTurnedAway(asked) + [Answer(c, resp)]
  {
    var n := |outs| - 1;
    BusyTurnsAllAway(a, asked[n]);
    DeliverLast(a, c, outs[n], resp);
  }

  /** The whole way. A client reads or writes a parameter from index 2 on. Until the
      last segment of the device's response nobody but later clients is called back,
      each of them at once and with nothing. With the last segment the client is
      called back, once, with what the response means for it. */
  lemma ClientServed(a: A.OnReq, c: A.Client, asked: seq<seq<A.Client>>, t: T.Course, h: I.Handler,
                     resp: seq<byte>, stream: seq<byte>)
    requires A.Inv(a) && a.state == A.OnReqIdle && Asking(c) && c.index >= 2
    requires T.Transaction(t, h, RequestOf(c), resp, stream)
    requires !T.Misread(resp, t.odLen, Isdu.Encode(RequestOf(c))[1])
    requires |Isdu.Payload(resp, c.read)| <= Isdu.IsduMaxSize || c.read
    requires |asked| == |t.outs| && forall k :: 0 <= k < |asked| ==> AllAsking(asked[k])
    ensures
      var (b, first) := A.Serve(a, c);
      && first == [A.Transport(RequestOf(c))] && Serving(b, c)
      && (forall k :: 0 <= k < |t.outs| ==> Rounds(b, asked[..k], t.outs[..k]) == (b, AllTurnedAway(asked[..k])))
      && Rounds(b, asked, t.outs).0.state == A.OnReqIdle
      && Rounds(b, asked, t.outs).1 == AllTurnedAway(asked) + [Answer(c, resp)]
  {
    T.ResponseRoundTrip(t, h, RequestOf(c), resp, stream);
    ServesWithTransfer(a, c);
    CalledInLastRound(A.Serve(a, c).0, c, asked, t.outs, resp);
  }

  /** And so it is with events and master commands between the messages. */
  lemma ClientServedBesideOthers(a: A.OnReq, c: A.Client, asked: seq<seq<A.Client>>, m: M.Mux, rounds: seq<M.Round>,
                                 s: V.System, h: I.Handler, resp: seq<byte>, stream: seq<byte>, busy: nat, odLen: nat)
    requires A.Inv(a) && a.state == A.OnReqIdle && Asking(c) && c.index >= 2
    requires V.Exchanged(s, h, RequestOf(c), resp, stream, busy, odLen)
    requires
      var accepted := I.Accept(h, true, RequestOf(c), odLen).0;
      && M.Inv(m) && I.Inv(accepted, odLen, MasterMessage) && V.Orderly(m, accepted, rounds, odLen)
      && s == V.Run(m, accepted, rounds, odLen)
    requires !T.Misread(resp, odLen, Isdu.Encode(RequestOf(c))[1])
    requires |Isdu.Payload(resp, c.read)| <= Isdu.IsduMaxSize || c.read
    requires |asked| == |s.outs| && forall k :: 0 <= k < |asked| ==> AllAsking(asked[k])
    ensures
      var b := A.Serve(a, c).0;
      && (forall k :: 0 <= k < |s.outs| ==> Rounds(b, asked[..k], s.outs[..k]) == (b, AllTurnedAway(asked[..k])))
      && Rounds(b, asked, s.outs).0.state == A.OnReqIdle
      && Rounds(b, asked, s.outs).1 == AllTurnedAway(asked) + [Answer(c, resp)]
  {
    AnsweredBesideOthers(c, m, rounds, s, h, resp, stream, busy, odLen);
    ServesWithTransfer(a, c);
    CalledInLastRound(A.Serve(a, c).0, c, asked, s.outs, resp);
  }

  /** A request for a parameter from index 2 on is served with a transfer. */
  lemma ServesWithTransfer(a: A.OnReq, c: A.Client)
    requires A.Inv(a) && a.state == A.OnReqIdle && Asking(c) && c.index >= 2
    ensures A.Serve(a, c).1 == [A.Transport(RequestOf(c))] && Serving(A.Serve(a, c).0, c)
  {
  }

  lemma AnsweredBesideOthers(c: A.Client, m: M.Mux, rounds: seq<M.Round>, s: V.System, h: I.Handler, resp: seq<byte>,
                             stream: seq<byte>, busy: nat, odLen: nat)
    requires V.Exchanged(s, h, RequestOf(c), resp, stream, busy, odLen)
    requires
      var accepted := I.Accept(h, true, RequestOf(c), odLen).0;
      && M.Inv(m) && I.Inv(accepted, odLen, MasterMessage) && V.Orderly(m, accepted, rounds, odLen)
      && s == V.Run(m, accepted, rounds, odLen)
    requires !T.Misread(resp, odLen, Isdu.Encode(RequestOf(c))[1])
    ensures Isdu.WellFormedResponse(resp, c.read) && AnsweredLast(s.outs, resp, c.read)
  {
    var accepted := I.Accept(h, true, RequestOf(c), odLen).0;
    var t := V.ResponseSurvives(m, h, RequestOf(c), resp, stream, busy, rounds, odLen, accepted, s);
  }

  /** What the callback says: success exactly if the checksum is right and the
      response is positive, or negative with code 0x0000. */
  lemma AnswerIsSuccessExactly(c: A.Client, resp: seq<byte>)
    requires Isdu.WellFormedResponse(resp, c.read)
    ensures
      var payload := Isdu.Payload(resp, c.read);
      Answer(c, resp).errortype == A.Success <==>
        && Checksum(resp) == 0
        && (resp[0] / 16 == Isdu.ReadPos || resp[0] / 16 == Isdu.WritePos || payload == [0, 0])
  {
    var payload := Isdu.Payload(resp, c.read);
    assert |payload| == 2 ==> payload == [payload[0], payload[1]];
  }

  /** A request that the data link layer does not take is called back at once, and
      never as a success. */
  lemma RefusedClientIsTold(a: A.OnReq, c: A.Client, h: I.Handler, connected: bool, odLen: nat)
    requires A.Inv(a) && a.state == A.OnReqIdle && Asking(c) && c.index >= 2
    requires I.OdLength(odLen) && |h.buf| == I.BufferSize && Isdu.EncodedLength(RequestOf(c)) <= Isdu.IsduMaxSize
    ensures
      var (g, outs) := I.Accept(h, connected, RequestOf(c), odLen);
      var (b, calls) := Deliver(A.Serve(a, c).0, outs);
      if connected && h.state == I.Idle then calls == [] && Serving(b, c)
      else
        && g == h && b.state == A.OnReqIdle
        && |calls| == 1 && calls[0].Callback? && calls[0].id == c.id && calls[0].errortype != A.Success
  {
    var outs := I.Accept(h, connected, RequestOf(c), odLen).1;
    var b := A.Serve(a, c).0;
    assert Deliver(b, []) == (b, []);
    if outs != [] {
      assert outs[..|outs| - 1] == [];
      A.FailureIsNeverSuccess(b, outs[0].data, outs[0].qualifier, outs[0].status);
    }
  }

  // --- Disturbed transfers -------------------------------------------------------------

  /** One of `outs` confirms a transfer without error. */
  predicate ConfirmsRight(outs: seq<Out>) {
    exists o <- outs :: o.IsduCnf? && o.status == NoError
  }

  /** Success is called back only for a confirmation without error. */
  lemma {:induction false} SuccessIsConfirmed(a: A.OnReq, outs: seq<Out>)
    requires A.Inv(a) && exists o <- Deliver(a, outs).1 :: o.Callback? && o.errortype == A.Success
    ensures ConfirmsRight(outs)
    decreases |outs|
  {
    var n := |outs| - 1;
    var front, o := Deliver(a, outs[..n]), outs[n];
    if exists x <- front.1 :: x.Callback? && x.errortype == A.Success {
      SuccessIsConfirmed(a, outs[..n]);
    } else {
      if o.status != NoError {
        A.FailureIsNeverSuccess(front.0, o.data, o.qualifier, o.status);
      }
      assert outs[n] in outs;
    }
  }

  /** The step of `h` has taken the device's reply, and `g` then holds a response whose
      bytes XOR to 0 and whose service code answers the request. */
  predicate HasRightResponse(h: I.Handler, e: I.Env, g: I.Handler) {
    && (h.state == I.Waiting || h.state == I.Responding)
    && e.trigger == DeviceMessage && !e.comlost && h.rwcmd != RwIsduAbort
    && (h.state == I.Waiting ==> !I.Elapsed(h, e))
    && g.buf != [] && g.totalLen <= |g.buf| && Checksum(g.buf[..g.totalLen]) == 0
    && Isdu.AnswersDirection(g.buf[0] / 16, h.dirRead)
  }

  lemma RightWhileWaiting(h: I.Handler, e: I.Env)
    requires I.Fits(h, e) && h.state == I.Waiting && ConfirmsRight(I.HandlerStep(h, e).1)
    ensures HasRightResponse(h, e, I.HandlerStep(h, e).0)
  {
  }

  lemma RightWhileResponding(h: I.Handler, e: I.Env, next: Trigger)
    requires I.Inv(h, e.odLen, next) && I.Fits(h, e) && h.state == I.Responding && ConfirmsRight(I.HandlerStep(h, e).1)
    ensures HasRightResponse(h, e, I.HandlerStep(h, e).0)
  {
    if e.trigger == DeviceMessage {
      I.StoreKeepsFront(h.buf, e.odLen, h.seg, e.rx);
    }
  }

  lemma OthersConfirmNothingRight(h: I.Handler, e: I.Env)
    requires I.Fits(h, e) && h.state != I.Waiting && h.state != I.Responding
    ensures !ConfirmsRight(I.HandlerStep(h, e).1)
  {
  }

  /** A step confirms without error only what it has received, with an XOR of 0. */
  lemma RightIsReceived(h: I.Handler, e: I.Env, next: Trigger)
    requires I.Inv(h, e.odLen, next) && I.Fits(h, e) && ConfirmsRight(I.HandlerStep(h, e).1)
    ensures HasRightResponse(h, e, I.HandlerStep(h, e).0)
  {
    if h.state == I.Waiting {
      RightWhileWaiting(h, e);
    } else if h.state == I.Responding {
      RightWhileResponding(h, e, next);
    } else {
      OthersConfirmNothingRight(h, e);
    }
  }

  /** Whatever happens to a transfer, a client sees success only if the device's
      reply has just completed a response whose bytes XOR to 0 and whose service code
      answers the request: never after a timeout, an abort, a lost connection, an
      illegal header or a wrong checksum. */
  lemma SuccessNeedsRightResponse(h: I.Handler, e: I.Env, next: Trigger, a: A.OnReq)
    requires I.Inv(h, e.odLen, next) && I.Fits(h, e) && A.Inv(a)
    requires exists o <- Deliver(a, I.HandlerStep(h, e).1).1 :: o.Callback? && o.errortype == A.Success
    ensures HasRightResponse(h, e, I.HandlerStep(h, e).0)
  {
    SuccessIsConfirmed(a, I.HandlerStep(h, e).1);
    RightIsReceived(h, e, next);
  }
}
