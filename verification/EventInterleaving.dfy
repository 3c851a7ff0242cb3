/** The Event handler behind the on-request data handler: a readout of event memory
    goes on undisturbed by the master commands that are written between its messages. */
module EventInterleaving {
  import opened Bytes
  import opened DlTypes
  import E = EventHandler
  import M = OnRequest
  import V = AlEvents

  /** The device's answer to what the master's message of the round has asked for. */
  function Reply(sent: seq<Out>, m: E.Memory): byte {
    if |sent| > 0 && sent[0].Od? && sent[0].req.addr < 19 then m[sent[0].req.addr] else 0
  }

  /** The Event handler takes its triggers among `grants`; `sent` is what it has
      emitted so far in this round. */
  function Dispatch(h: E.Handler, sent: seq<Out>, grants: seq<M.Grant>, m: E.Memory, odLen: nat): (r: E.Step)
    requires E.Inv(h)
    ensures E.Inv(r.0)
    decreases |grants|
  {
    if grants == [] then (h, sent)
    else if grants[0].ToEvent? then
      var step := E.HandlerStep(h, grants[0].t, false, odLen, if grants[0].t == DeviceMessage then Reply(sent, m) else 0);
      Dispatch(step.0, sent + step.1, grants[1..], m, odLen)
    else Dispatch(h, sent, grants[1..], m, odLen)
  }

  /** The on-request handler, the Event handler, what it has emitted, and how many
      rounds were its own. */
  datatype System = System(mux: M.Mux, events: E.Handler, outs: seq<Out>, served: nat)

  function Advance(s: System, r: M.Round, m: E.Memory, odLen: nat): (t: System)
    requires E.Inv(s.events)
    ensures E.Inv(t.events)
  {
    var (mux, grants) := M.RoundStep(s.mux, r);
    var (events, sent) := Dispatch(s.events, [], grants, m, odLen);
    System(mux, events, s.outs + sent, s.served + if exists g <- grants :: g.ToEvent? then 1 else 0)
  }

  function Run(s: System, rounds: seq<M.Round>, m: E.Memory, odLen: nat): (t: System)
    requires E.Inv(s.events)
    ensures E.Inv(t.events)
  {
    if rounds == [] then s
    else Advance(Run(s, rounds[..|rounds| - 1], m, odLen), rounds[|rounds| - 1], m, odLen)
  }

  /** Commands are requested one at a time, none while another is being written, and
      the device keeps its event flag up until the readout is confirmed. */
  predicate Orderly(s: System, rounds: seq<M.Round>, m: E.Memory, odLen: nat)
    requires E.Inv(s.events)
  {
    rounds != [] ==>
      var front, r := rounds[..|rounds| - 1], rounds[|rounds| - 1];
      && Orderly(s, front, m, odLen) && r.flag
      && var mux := Run(s, front, m, odLen).mux;
      M.OneAtATime(mux, r) && (M.Commands(mux, r) ==> r.between.None?)
  }

  lemma RoundDispatched(h: E.Handler, m: E.Memory, odLen: nat)
    requires E.Inv(h)
    ensures Dispatch(h, [], [M.ToEvent(MasterMessage), M.ToEvent(DeviceMessage)], m, odLen) == E.Round(h, m, odLen)
  {
    var both := [M.ToEvent(MasterMessage), M.ToEvent(DeviceMessage)];
    assert both[1..] == [M.ToEvent(DeviceMessage)] && both[1..][1..] == [];
    var a := E.HandlerStep(h, MasterMessage, false, odLen, 0);
    assert [] + a.1 == a.1;
    var b := E.HandlerStep(a.0, DeviceMessage, false, odLen, Reply(a.1, m));
    assert Dispatch(b.0, a.1 + b.1, [], m, odLen) == (b.0, a.1 + b.1);
    assert Dispatch(a.0, a.1, [M.ToEvent(DeviceMessage)], m, odLen) == (b.0, a.1 + b.1);
  }

  lemma {:induction false} NotDispatched(h: E.Handler, grants: seq<M.Grant>, m: E.Memory, odLen: nat)
    requires E.Inv(h) && forall g <- grants :: !g.ToEvent?
    ensures Dispatch(h, [], grants, m, odLen) == (h, [])
    decreases |grants|
  {
    if grants != [] {
      assert grants[0] in grants;
      NotDispatched(h, grants[1..], m, odLen);
    }
  }

  /** A round writes a command and leaves the Event handler alone, or is a whole round
      of the Event handler. */
  lemma AdvanceServes(s: System, r: M.Round, m: E.Memory, odLen: nat)
    requires E.Inv(s.events) && M.Inv(s.mux) && s.mux.flag && r.flag
    requires M.OneAtATime(s.mux, r) && (M.Commands(s.mux, r) ==> r.between.None?)
    ensures
      var t := Advance(s, r, m, odLen);
      && M.Inv(t.mux) && t.mux.flag
      && if M.Commands(s.mux, r) then t.events == s.events && t.outs == s.outs && t.served == s.served
         else
           && (t.events, t.outs) == (E.Round(s.events, m, odLen).0, s.outs + E.Round(s.events, m, odLen).1)
           && t.served == s.served + 1
  {
    M.RoundServesOne(s.mux, r);
    var grants := M.RoundStep(s.mux, r).1;
    if M.Commands(s.mux, r) {
      NotDispatched(s.events, grants, m, odLen);
      assert s.outs + [] == s.outs;
    } else {
      assert grants == [M.ToEvent(MasterMessage), M.ToEvent(DeviceMessage)];
      assert grants[0] in grants;
      RoundDispatched(s.events, m, odLen);
    }
  }

  /** The round with a device whose event memory is `m`, for every handler. */
  function RoundWith(m: E.Memory, odLen: nat): E.Handler -> (E.Handler, seq<Out>) {
    h => if E.Inv(h) then E.Round(h, m, odLen) else (h, [])
  }

  lemma RoundServes(m: E.Memory, odLen: nat)
    ensures E.Serves(RoundWith(m, odLen), m, odLen)
  {
    forall h: E.Handler ensures E.ServesAt(RoundWith(m, odLen), h, m, odLen) {
    }
  }

  /** Rounds one after the other, and one more. */
  lemma {:induction false} OneMoreRound(f: E.Handler -> (E.Handler, seq<Out>), h: E.Handler, n: nat)
    ensures
      var (g, outs) := E.Rounds(f, h, n);
      E.Rounds(f, h, n + 1) == (f(g).0, outs + f(g).1)
    decreases n
  {
    if n == 0 {
      assert E.Rounds(f, f(h).0, 0) == (f(h).0, []);
      assert f(h).1 + [] == f(h).1 == [] + f(h).1;
    } else {
      OneMoreRound(f, f(h).0, n - 1);
      var (g, outs) := E.Rounds(f, f(h).0, n - 1);
      assert f(h).1 + (outs + f(g).1) == f(h).1 + outs + f(g).1;
    }
  }

  /** The Event handler is where its own rounds alone lead it, and has emitted what
      those do. */
  predicate Alone(s: System, h: E.Handler, m: E.Memory, odLen: nat) {
    (s.events, s.outs) == E.Rounds(RoundWith(m, odLen), h, s.served)
  }

  lemma AdvanceAlone(s: System, h: E.Handler, r: M.Round, m: E.Memory, odLen: nat)
    requires E.Inv(s.events) && M.Inv(s.mux) && s.mux.flag && r.flag && Alone(s, h, m, odLen)
    requires M.OneAtATime(s.mux, r) && (M.Commands(s.mux, r) ==> r.between.None?)
    ensures var t := Advance(s, r, m, odLen); M.Inv(t.mux) && t.mux.flag && Alone(t, h, m, odLen)
  {
    AdvanceServes(s, r, m, odLen);
    OneMoreRound(RoundWith(m, odLen), h, s.served);
    assert RoundWith(m, odLen)(s.events) == E.Round(s.events, m, odLen);
  }

  /** Transparency: so it is in any orderly run. */
  lemma {:induction false} Transparent(s: System, rounds: seq<M.Round>, m: E.Memory, odLen: nat)
    requires E.Inv(s.events) && M.Inv(s.mux) && s.mux.flag && s.outs == [] && s.served == 0
    requires Orderly(s, rounds, m, odLen)
    ensures var t := Run(s, rounds, m, odLen); M.Inv(t.mux) && t.mux.flag && Alone(t, s.events, m, odLen)
    decreases |rounds|
  {
    if rounds != [] {
      var front := rounds[..|rounds| - 1];
      Transparent(s, front, m, odLen);
      AdvanceAlone(Run(s, front, m, odLen), s.events, rounds[|rounds| - 1], m, odLen);
    }
  }

  /** `outs` are those of a readout of `slots`, which is indicated once and right. */
  ghost predicate ReadOut(outs: seq<Out>, m: E.Memory, slots: seq<E.Slot>, c: V.Collector)
    requires V.Inv(c) && c.state == V.EventIdle
  {
    var n := 1 + |E.Reads(slots)|;
    && n <= |outs| && outs[..n] == [E.Read(0)] + E.Reads(slots)
    && V.Counted(outs[n..]) && |outs[n..]| == |slots| <= E.MaxEvents
    && exists entries: seq<V.DiagEntry> ::
         && V.Collect(c, outs[n..]).1 == [V.Indication.Indication(|slots|, entries)]
         && |entries| == E.MaxEvents && entries[..|slots|] == V.Decoded(E.Records(m, slots))
  }

  /** The readout of an Event handler that has every message to itself. */
  lemma ReadOutAlone(h: E.Handler, m: E.Memory, odLen: nat, slots: seq<E.Slot>, c: V.Collector)
    requires E.Inv(h) && h.state == E.Idle && h.active && !h.confirmation
    requires HasBit(m[0], 7) && E.Announced(m[0], slots) && slots != []
    requires V.Inv(c) && c.state == V.EventIdle
    ensures ReadOut(E.Rounds(RoundWith(m, odLen), h, 1 + 3 * |slots|).1, m, slots, c)
  {
    var f := RoundWith(m, odLen);
    RoundServes(m, odLen);
    WalkComesFirst(f, h, m, odLen, slots);
    V.EventMemoryReachesDiagnosisUnit(f, h, m, odLen, slots, c);
  }

  lemma WalkComesFirst(f: E.Handler -> (E.Handler, seq<Out>), h: E.Handler, m: E.Memory, odLen: nat, slots: seq<E.Slot>)
    requires E.Inv(h) && E.Serves(f, m, odLen) && h.state == E.Idle && h.active && !h.confirmation
    requires HasBit(m[0], 7) && E.Announced(m[0], slots) && slots != []
    ensures
      var outs, n := E.Rounds(f, h, 1 + 3 * |slots|).1, 1 + |E.Reads(slots)|;
      n <= |outs| && outs[..n] == [E.Read(0)] + E.Reads(slots)
  {
    E.ReadoutWithDetails(f, h, m, odLen, slots);
    Front(E.Reads(slots), E.Batch(E.Records(m, slots)));
  }

  lemma Front(walk: seq<Out>, batch: seq<Out>)
    ensures ([E.Read(0)] + (walk + batch))[..1 + |walk|] == [E.Read(0)] + walk
  {
  }

  /** So a readout of event memory is indicated to the diagnosis unit once, with
      exactly the flagged slots, whatever commands are written meanwhile. */
  lemma ReadoutSurvives(s: System, rounds: seq<M.Round>, m: E.Memory, odLen: nat, slots: seq<E.Slot>, c: V.Collector)
    requires E.Inv(s.events) && M.Inv(s.mux) && s.mux.flag && s.outs == [] && s.served == 0
    requires s.events.state == E.Idle && s.events.active && !s.events.confirmation
    requires Orderly(s, rounds, m, odLen) && Run(s, rounds, m, odLen).served == 1 + 3 * |slots|
    requires HasBit(m[0], 7) && E.Announced(m[0], slots) && slots != []
    requires V.Inv(c) && c.state == V.EventIdle
    ensures ReadOut(Run(s, rounds, m, odLen).outs, m, slots, c)
  {
    Transparent(s, rounds, m, odLen);
    ReadOutAlone(s.events, m, odLen, slots, c);
  }

  /** Replies passed on one after the other, with no message of the master between
      them, and the event flag up. */
  function Replies(mux: M.Mux, h: E.Handler, n: nat, m: E.Memory, odLen: nat): (M.Mux, E.Handler, seq<Out>)
    requires E.Inv(h)
    decreases n
  {
    if n == 0 then (mux, h, [])
    else
      var step := M.DeviceStep(mux, true);
      var (g, sent) := Dispatch(h, [], step.1, m, odLen);
      var rest := Replies(step.0, g, n - 1, m, odLen);
      (rest.0, rest.1, sent + rest.2)
  }

  lemma IdleIgnoresReply(h: E.Handler, m: E.Memory, odLen: nat)
    requires E.Inv(h) && h.state == E.Idle && h.active
    ensures Dispatch(h, [], [M.ToEvent(DeviceMessage)], m, odLen) == (h, [])
  {
    var grants, none: seq<Out> := [M.ToEvent(DeviceMessage)], [];
    assert E.HandlerStep(h, DeviceMessage, false, odLen, Reply(none, m)) == (h, none);
    assert none + none == none && grants[1..] == [];
  }

  /** An idle Event handler then reads nothing, however long this goes on. */
  lemma {:induction false} RepliesReadNothing(mux: M.Mux, h: E.Handler, n: nat, m: E.Memory, odLen: nat)
    requires M.Inv(mux) && E.Inv(h) && h.state == E.Idle && h.active
    ensures Replies(mux, h, n, m, odLen).1 == h && Replies(mux, h, n, m, odLen).2 == []
    decreases n
  {
    if n > 0 {
      var step := M.DeviceStep(mux, true);
      if mux.flag {
        assert step.1 == [M.ToEvent(DeviceMessage)];
        IdleIgnoresReply(h, m, odLen);
      } else {
        assert step.1 == [M.ToIsdu(DeviceMessage)];
        NotDispatched(h, step.1, m, odLen);
      }
      RepliesReadNothing(step.0, h, n - 1, m, odLen);
    }
  }
}
