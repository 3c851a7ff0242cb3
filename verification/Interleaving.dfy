/** The ISDU handler behind the on-request data handler: whatever events and master
    commands come between its messages, it runs as if it had the channel alone. */
module Interleaving {
  import opened Bytes
  import opened DlTypes
  import Isdu
  import I = IsduHandler
  import T = IsduTransfer
  import M = OnRequest

  /** The on-request handler, the ISDU handler, and the rounds the latter took part
      in: what it emitted and what the device replied. */
  datatype System = System(mux: M.Mux, isdu: I.Handler, outs: seq<seq<Out>>, rxs: seq<seq<byte>>)

  /** The ISDU handler takes the triggers among `grants`. */
  function Dispatch(h: I.Handler, odLen: nat, rx: seq<byte>, grants: seq<M.Grant>): I.Step
    decreases |grants|
  {
    if grants == [] then (h, [])
    else if grants[0].ToIsdu? && I.Fits(h, T.Calm(grants[0].t, odLen, rx)) then
      var first := I.HandlerStep(h, T.Calm(grants[0].t, odLen, rx));
      var rest := Dispatch(first.0, odLen, rx, grants[1..]);
      (rest.0, first.1 + rest.1)
    else Dispatch(h, odLen, rx, grants[1..])
  }

  predicate Involved(grants: seq<M.Grant>) {
    exists g <- grants :: g.ToIsdu?
  }

  function Advance(s: System, r: M.Round, odLen: nat): System {
    var step := M.RoundStep(s.mux, r);
    var isdu := Dispatch(s.isdu, odLen, r.rx, step.1);
    if Involved(step.1) then System(step.0, isdu.0, s.outs + [isdu.1], s.rxs + [r.rx])
    else s.(mux := step.0, isdu := isdu.0)
  }

  function Run(m: M.Mux, h: I.Handler, rounds: seq<M.Round>, odLen: nat): System {
    if rounds == [] then System(m, h, [], [])
    else Advance(Run(m, h, rounds[..|rounds| - 1], odLen), rounds[|rounds| - 1], odLen)
  }

  /** Commands are requested one at a time, none while another is being written. */
  predicate Orderly(m: M.Mux, h: I.Handler, rounds: seq<M.Round>, odLen: nat) {
    rounds != [] ==>
      var front, r := rounds[..|rounds| - 1], rounds[|rounds| - 1];
      && Orderly(m, h, front, odLen) && |r.rx| == odLen
      && var mux := Run(m, h, front, odLen).mux;
      M.OneAtATime(mux, r) && (M.Commands(mux, r) ==> r.between.None?)
  }

  /** An orderly run can always go on: with any reply and any event flag. */
  lemma GoesOn(m: M.Mux, h: I.Handler, rounds: seq<M.Round>, odLen: nat, flag: bool, rx: seq<byte>)
    requires Orderly(m, h, rounds, odLen) && |rx| == odLen
    ensures Orderly(m, h, rounds + [M.Round(None, None, flag, rx)], odLen)
  {
    assert (rounds + [M.Round(None, None, flag, rx)])[..|rounds|] == rounds;
  }

  lemma DispatchedRound(h: I.Handler, odLen: nat, rx: seq<byte>)
    requires I.Inv(h, odLen, MasterMessage) && |rx| == odLen
    ensures Dispatch(h, odLen, rx, [M.ToIsdu(MasterMessage), M.ToIsdu(DeviceMessage)]) == T.Round(h, odLen, rx)
  {
    var both := [M.ToIsdu(MasterMessage), M.ToIsdu(DeviceMessage)];
    assert both[1..] == [M.ToIsdu(DeviceMessage)] && both[1..][1..] == [];
    I.StepKeepsInv(h, T.Calm(MasterMessage, odLen, rx), MasterMessage);
    var (g, sent) := I.HandlerStep(h, T.Calm(MasterMessage, odLen, rx));
    I.StepKeepsInv(g, T.Calm(DeviceMessage, odLen, rx), DeviceMessage);
    var (k, got) := I.HandlerStep(g, T.Calm(DeviceMessage, odLen, rx));
    DispatchOne(g, odLen, rx, DeviceMessage);
    assert Dispatch(h, odLen, rx, both) == (k, sent + got);
  }

  lemma DispatchOne(h: I.Handler, odLen: nat, rx: seq<byte>, t: Trigger)
    requires I.Fits(h, T.Calm(t, odLen, rx))
    ensures Dispatch(h, odLen, rx, [M.ToIsdu(t)]) == I.HandlerStep(h, T.Calm(t, odLen, rx))
  {
    var step := I.HandlerStep(h, T.Calm(t, odLen, rx));
    assert [M.ToIsdu(t)][1..] == [];
    assert step.1 + [] == step.1;
  }

  lemma {:induction false} NotDispatched(h: I.Handler, odLen: nat, rx: seq<byte>, grants: seq<M.Grant>)
    requires !Involved(grants)
    ensures Dispatch(h, odLen, rx, grants) == (h, [])
    decreases |grants|
  {
    if grants != [] {
      assert grants[0] in grants;
      assert forall g <- grants[1..] :: g in grants;
      NotDispatched(h, odLen, rx, grants[1..]);
    }
  }

  /** `s` is reached by a run whose ISDU rounds are a trace of the handler alone. */
  ghost predicate Traced(s: System, h: I.Handler, odLen: nat, hs: seq<I.Handler>) {
    && M.Inv(s.mux) && I.Inv(s.isdu, odLen, MasterMessage)
    && T.Trace(hs, s.outs, odLen, s.rxs) && hs[0] == h && hs[|hs| - 1] == s.isdu
  }

  lemma TraceExtends(hs: seq<I.Handler>, outs: seq<seq<Out>>, odLen: nat, rxs: seq<seq<byte>>,
                     g: I.Handler, o: seq<Out>, rx: seq<byte>)
    requires T.Trace(hs, outs, odLen, rxs) && |rx| == odLen && T.Linked(hs[|rxs|], g, o, odLen, rx)
    ensures T.Trace(hs + [g], outs + [o], odLen, rxs + [rx])
  {
    var hs', outs', rxs' := hs + [g], outs + [o], rxs + [rx];
    forall k | 0 <= k < |rxs'| ensures T.RoundAt(hs', outs', odLen, rxs', k) {
      if k < |rxs| {
        assert T.RoundAt(hs, outs, odLen, rxs, k);
      }
      assert T.Linked(hs'[k], hs'[k + 1], outs'[k], odLen, rxs'[k]);
    }
  }

  lemma AdvanceTraced(s: System, h: I.Handler, odLen: nat, hs: seq<I.Handler>, r: M.Round)
    requires Traced(s, h, odLen, hs) && |r.rx| == odLen
    requires M.OneAtATime(s.mux, r) && (M.Commands(s.mux, r) ==> r.between.None?)
    ensures var t := Advance(s, r, odLen);
            if M.ServesIsdu(s.mux, r) then Traced(t, h, odLen, hs + [t.isdu]) && t.rxs == s.rxs + [r.rx]
            else Traced(t, h, odLen, hs) && t.rxs == s.rxs && t.isdu == s.isdu
  {
    M.RoundServesOne(s.mux, r);
    var grants := M.RoundStep(s.mux, r).1;
    if M.ServesIsdu(s.mux, r) {
      assert grants[0].ToIsdu?;
      DispatchedRound(s.isdu, odLen, r.rx);
      var (g, o) := T.Round(s.isdu, odLen, r.rx);
      TraceExtends(hs, s.outs, odLen, s.rxs, g, o, r.rx);
    } else {
      NotDispatched(s.isdu, odLen, r.rx, grants);
    }
  }

  /** Transparency: the ISDU rounds of any orderly run are a trace of the ISDU
      handler alone, against the replies of just those rounds. */
  lemma {:induction false} Transparent(m: M.Mux, h: I.Handler, rounds: seq<M.Round>, odLen: nat)
    returns (hs: seq<I.Handler>)
    requires M.Inv(m) && I.Inv(h, odLen, MasterMessage) && Orderly(m, h, rounds, odLen)
    ensures Traced(Run(m, h, rounds, odLen), h, odLen, hs)
    decreases |rounds|
  {
    if rounds == [] {
      hs := [h];
    } else {
      var front, r := rounds[..|rounds| - 1], rounds[|rounds| - 1];
      hs := Transparent(m, h, front, odLen);
      var s := Run(m, h, front, odLen);
      AdvanceTraced(s, h, odLen, hs, r);
      if M.ServesIsdu(s.mux, r) {
        hs := hs + [Advance(s, r, odLen).isdu];
      }
    }
  }

  /** So a request arrives at the device as it was made, in the data of the ISDU
      segments, whatever was sent between them. */
  lemma RequestSurvives(m: M.Mux, h: I.Handler, r: Isdu.Request, rounds: seq<M.Round>, odLen: nat)
    requires M.Inv(m) && I.Inv(h, odLen, MasterMessage) && h.state == I.Idle && h.active && Isdu.Encodable(r)
    requires
      var accepted := I.Accept(h, true, r, odLen).0;
      && I.Inv(accepted, odLen, MasterMessage) && Orderly(m, accepted, rounds, odLen)
      && |Run(m, accepted, rounds, odLen).rxs| >= SegmentCount(|Isdu.Encode(r)|, odLen)
    ensures
      var s := Run(m, I.Accept(h, true, r, odLen).0, rounds, odLen);
      var n := SegmentCount(|Isdu.Encode(r)|, odLen);
      && n <= |s.outs|
      && T.Reassemble(s.outs[..n]).Some? && Isdu.ParseRequest(T.Reassemble(s.outs[..n]).value) == Some(r)
  {
    var accepted := I.Accept(h, true, r, odLen).0;
    var s := Run(m, accepted, rounds, odLen);
    var hs := Transparent(m, accepted, rounds, odLen);
    T.RequestRoundTrip(h, r, hs, s.outs, odLen, s.rxs);
  }

  /** The rounds of the run that the ISDU handler takes part in first carry the
      request, then `busy` times a busy reply, then the response. */
  ghost predicate Exchanged(s: System, h: I.Handler, r: Isdu.Request, resp: seq<byte>, stream: seq<byte>, busy: nat, odLen: nat) {
    && I.Inv(h, odLen, MasterMessage) && h.state == I.Idle && h.active && Isdu.Encodable(r)
    && Isdu.WellFormedResponse(resp, r.read) && T.Carries(stream, resp, odLen)
    && var n := SegmentCount(|Isdu.Encode(r)|, odLen);
    && n + busy < |s.rxs| && (forall k :: n <= k < n + busy ==> T.Busy(s.rxs[k]))
    && T.Streams(s.rxs, n + busy, stream, SegmentCount(|resp|, odLen), odLen)
  }

  /** And a response arrives at the client as the device sent it, whatever was sent
      between its segments, exactly when it would have without. */
  lemma ResponseSurvives(m: M.Mux, h: I.Handler, r: Isdu.Request, resp: seq<byte>, stream: seq<byte>, busy: nat,
                         rounds: seq<M.Round>, odLen: nat, accepted: I.Handler, s: System)
    returns (c: T.Course)
    requires Exchanged(s, h, r, resp, stream, busy, odLen) && accepted == I.Accept(h, true, r, odLen).0
    requires M.Inv(m) && I.Inv(accepted, odLen, MasterMessage) && Orderly(m, accepted, rounds, odLen)
    requires s == Run(m, accepted, rounds, odLen)
    ensures c == T.Course(c.hs, s.outs, s.rxs, odLen, busy)
    ensures |c.hs| == |c.rxs| + 1 && |c.outs| == |c.rxs| > 0 && c.hs[|c.rxs|] == s.isdu
    ensures T.Answered(c, r, resp) <==> !T.Misread(resp, odLen, Isdu.Encode(r)[1])
  {
    var hs := Transparent(m, accepted, rounds, odLen);
    c := Played(s, hs, h, r, resp, stream, busy, odLen, accepted);
  }

  lemma Played(s: System, hs: seq<I.Handler>, h: I.Handler, r: Isdu.Request, resp: seq<byte>, stream: seq<byte>,
               busy: nat, odLen: nat, accepted: I.Handler)
    returns (c: T.Course)
    requires Exchanged(s, h, r, resp, stream, busy, odLen) && accepted == I.Accept(h, true, r, odLen).0
    requires Traced(s, accepted, odLen, hs)
    ensures c == T.Course(hs, s.outs, s.rxs, odLen, busy)
    ensures |c.hs| == |c.rxs| + 1 && |c.outs| == |c.rxs| > 0
    ensures T.Answered(c, r, resp) <==> !T.Misread(resp, odLen, Isdu.Encode(r)[1])
  {
    c := T.Course(hs, s.outs, s.rxs, odLen, busy);
    T.ResponseRoundTrip(c, h, r, resp, stream);
  }
}
