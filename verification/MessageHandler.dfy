/** The master message handler in STARTUP and PREOPERATE: sending a message, waiting
    for the reply, and sending it again (section 7.3.3 of the IO-Link Interface
    Specification v1.1.3). */
module MessageHandler {
  import opened Bytes
  import opened DlTypes

  const MaxRetry: nat := 2

  datatype State =
    | Inactive
    | Startup | Response3 | AwReply4 | Error5
    | Preoperate | GetOd7 | Response8 | AwReply9 | Error10
    | Operate

  /** `rx` is the byte received last, `sent` counts the transmissions of the current
      message, and `flag` is the event flag
      of the last reply in OPERATE: the status of later replies is not kept. */
  datatype Mh = Mh(
    state: State, rwcmd: RwCmd, retry: nat, dataReady: bool, rxTimeout: bool, rxError: bool, rx: byte, sent: nat, flag: bool)

  /** Why the handler is called: a request, a reply (its first byte), a reply missing
      or broken, or the timer. */
  datatype Event = Wake | Reply(value: byte) | Timeout | Broken | Timer

  /** What a call in PREOPERATE finds: something to do, the ISDU handler idle once it
      has had its turn, and OPERATE requested. */
  datatype Env = Env(work: bool, isduIdle: bool, operate: bool)

  const Still := Env(false, true, false)

  datatype Out =
    | Transmit | Resend | ComLost
    | OdTurn(t: Trigger)
    | ReadCnf(value: byte, status: Status)
    | WriteCnf(status: Status)
    | ReadParamCnf(status: Status)
    | WriteParamCnf(status: Status)

  type Step = (Mh, seq<Out>)

  /** The flags an event sets. */
  function Marked(m: Mh, e: Event): Mh {
    match e
    case Reply(v) => m.(dataReady := true, rx := v)
    case Timeout => m.(rxTimeout := true)
    case Broken => m.(rxError := true)
    case _ => m
  }

  /** DL_Read_req and DL_Write_req; `ok`: the address is valid. */
  function Request(m: Mh, write: bool, ok: bool): Step {
    var refused := if m.state != Startup then StateConflict else ValueOutOfRange;
    if m.state != Startup || !ok then (m, [if write then WriteCnf(refused) else ReadCnf(0, refused)])
    else (m.(rwcmd := if write then RwWrite else RwRead), [])
  }

  function StartupStep(m: Mh): Step {
    if m.rwcmd == RwRead || m.rwcmd == RwWrite then
      (m.(state := Response3, retry := 0, dataReady := false, sent := 1), [Transmit])
    else (m, [])
  }

  /** The confirmation of the pending read or write. */
  function Confirmation(m: Mh, value: byte, status: Status): seq<Out> {
    if m.rwcmd == RwRead then [ReadCnf(value, status)]
    else if m.rwcmd == RwWrite then [WriteCnf(status)]
    else []
  }

  function Released(m: Mh): Mh {
    if m.rwcmd == RwRead || m.rwcmd == RwWrite then m.(rwcmd := RwNone) else m
  }

  function Await4(m: Mh): Step {
    if m.dataReady then (Released(m).(state := Startup), Confirmation(m, m.rx, NoError))
    else if m.rxTimeout || m.rxError then (m.(state := Error5), [])
    else (m.(state := AwReply4), [])
  }

  function ErrorStep5(m: Mh, e: Event): Step {
    if m.retry >= MaxRetry then (Released(m).(state := Inactive), [ComLost] + Confirmation(m, 0, NoComm))
    else if e == Timer then (m.(state := AwReply4, retry := m.retry + 1, sent := m.sent + 1), [Resend])
    else (m, [])
  }

  /** A reply is passed on to the on-request handler whenever the handler is called
      while it is there. With the ISDU handler idle and the event flag up, the handler
      stays where it is. */
  function Await9(m: Mh, v: Env): Step {
    if m.dataReady then
      var next := if !v.isduIdle then GetOd7 else if v.operate then Operate else if !m.flag then Preoperate else m.state;
      (m.(state := next), [OdTurn(DeviceMessage)])
    else if m.rxTimeout || m.rxError then (m.(state := Error10, rxTimeout := false, rxError := false), [])
    else (m, [])
  }

  function LossConfirmation(cmd: RwCmd): seq<Out> {
    match cmd
    case RwRead => [ReadCnf(0, NoComm)]
    case RwWrite => [WriteCnf(NoComm)]
    case RwReadParam => [Out.ReadParamCnf(NoComm)]
    case RwWriteParam => [Out.WriteParamCnf(NoComm)]
    case _ => []
  }

  function ErrorStep10(m: Mh, e: Event): Step {
    if m.retry >= MaxRetry then
      (m.(state := Inactive, rwcmd := RwNone),
       LossConfirmation(m.rwcmd) + [ComLost])
    else if e == Timer then (m.(state := AwReply9, retry := m.retry + 1, sent := m.sent + 1), [Resend])
    else (m, [])
  }

  function HandlerStep(m: Mh, e: Event, v: Env): Step {
    var f := Marked(m, e);
    match m.state
    case Inactive => (f, [])
    case Startup => StartupStep(f)
    case Response3 => Await4(f)
    case AwReply4 => Await4(f)
    case Error5 => ErrorStep5(f, e)
    case Preoperate => if v.work then (f.(state := GetOd7, retry := 0), []) else (f, [])
    case GetOd7 =>
      (f.(state := Response8, retry := 0, dataReady := false, sent := 1), [OdTurn(MasterMessage), Transmit])
    case Response8 => Await9(f, v)
    case AwReply9 => Await9(f, v)
    case Error10 => ErrorStep10(f, e)
    case Operate => (f, [])
  }

  predicate InStartup(s: State) {
    s.Inactive? || s.Startup? || s.Response3? || s.AwReply4? || s.Error5?
  }

  /** A message is on its way, or its reply is missing. */
  predicate Sending(s: State) {
    s.Response3? || s.AwReply4? || s.Error5? || s.Response8? || s.AwReply9? || s.Error10?
  }

  /** A message has been sent once, and once more for every retry. */
  predicate Inv(m: Mh) {
    && (Sending(m.state) ==> m.sent == m.retry + 1 && m.retry <= MaxRetry)
    && (m.state.Response3? || m.state.AwReply4? || m.state.Error5? ==> m.rwcmd == RwRead || m.rwcmd == RwWrite)
    && m.sent <= MaxRetry + 1
  }

  lemma StartupKeepsInv(m: Mh, e: Event, v: Env)
    requires Inv(m) && InStartup(m.state)
    ensures Inv(HandlerStep(m, e, v).0)
  {
    if m.state == Error5 {
      StartupErrorKeepsInv(m, e, v);
    }
  }

  lemma StartupErrorKeepsInv(m: Mh, e: Event, v: Env)
    requires Inv(m) && m.state == Error5
    ensures Inv(HandlerStep(m, e, v).0)
  {
  }

  lemma PreoperateKeepsInv(m: Mh, e: Event, v: Env)
    requires Inv(m) && !InStartup(m.state)
    ensures Inv(HandlerStep(m, e, v).0)
  {
    if m.state == Error10 {
      ErrorKeepsInv(m, e, v);
    }
  }

  lemma ErrorKeepsInv(m: Mh, e: Event, v: Env)
    requires Inv(m) && m.state == Error10
    ensures Inv(HandlerStep(m, e, v).0)
    ensures HandlerStep(m, e, v).0.state == if m.retry >= MaxRetry then Inactive else if e == Timer then AwReply9 else Error10
  {
  }

  lemma OthersKeepTrying(m: Mh, e: Event, v: Env)
    requires m.state != Error5 && m.state != Error10
    ensures ComLost !in HandlerStep(m, e, v).1
  {
  }

  /** No message is sent more than three times, and communication is given up by the
      next call exactly if it has been sent three times and is taken for failed. */
  lemma GivenUpExactly(m: Mh, e: Event, v: Env)
    requires Inv(m)
    ensures Inv(HandlerStep(m, e, v).0) && m.sent <= 3
    ensures ComLost in HandlerStep(m, e, v).1 <==> (m.state == Error5 || m.state == Error10) && m.sent == 3
    ensures ComLost in HandlerStep(m, e, v).1 ==> HandlerStep(m, e, v).0.state == Inactive
  {
    if InStartup(m.state) {
      StartupKeepsInv(m, e, v);
    } else {
      PreoperateKeepsInv(m, e, v);
    }
    if m.state == Error5 {
      StartupGivesUp(m, e, v);
    } else if m.state == Error10 {
      PreoperateGivesUp(m, e, v);
    } else {
      OthersKeepTrying(m, e, v);
    }
  }

  lemma StartupGivesUp(m: Mh, e: Event, v: Env)
    requires Inv(m) && m.state == Error5
    ensures ComLost in HandlerStep(m, e, v).1 <==> m.sent == 3
    ensures m.sent == 3 ==> HandlerStep(m, e, v).0.state == Inactive
  {
    if m.sent == 3 {
      assert HandlerStep(m, e, v).1[0] == ComLost;
    }
  }

  lemma PreoperateGivesUp(m: Mh, e: Event, v: Env)
    requires Inv(m) && m.state == Error10
    ensures ComLost in HandlerStep(m, e, v).1 <==> m.sent == 3
    ensures m.sent == 3 ==> HandlerStep(m, e, v).0.state == Inactive
  {
    if m.sent == 3 {
      var outs := HandlerStep(m, e, v).1;
      assert outs[|outs| - 1] == ComLost;
    }
  }

  // --- What counts as a failure -------------------------------------------------------

  /** The message handler, how many transmissions of its message a missing or broken
      reply has ended, and whether no such reply was on record whenever the message
      was sent or repeated. */
  datatype Watched = Watched(m: Mh, failures: nat, clean: bool)

  predicate Awaiting(s: State) {
    s.Response3? || s.AwReply4? || s.Response8? || s.AwReply9?
  }

  predicate Failed(s: State) {
    s.Error5? || s.Error10?
  }

  predicate FailureNoted(m: Mh) {
    m.rxTimeout || m.rxError
  }

  predicate Failure(e: Event) {
    e == Timeout || e == Broken
  }

  /** The next call sends a message. */
  predicate Sends(m: Mh) {
    (m.state == Startup && (m.rwcmd == RwRead || m.rwcmd == RwWrite)) || m.state == GetOd7
  }

  /** The next call repeats the message. */
  predicate Repeats(m: Mh, e: Event) {
    Failed(m.state) && m.retry < MaxRetry && e == Timer
  }

  lemma SendsAndRepeats(m: Mh, e: Event, v: Env)
    ensures Transmit in HandlerStep(m, e, v).1 <==> Sends(m)
    ensures Resend in HandlerStep(m, e, v).1 <==> Repeats(m, e)
  {
    var outs := HandlerStep(m, e, v).1;
    if m.state == Error10 {
      ErrorRepeats(m, e, v);
    } else if Sends(m) {
      assert outs[|outs| - 1] == Transmit;
    } else if Repeats(m, e) {
      assert outs[0] == Resend;
    } else {
      assert forall o <- outs :: o != Transmit && o != Resend;
    }
  }

  lemma ErrorRepeats(m: Mh, e: Event, v: Env)
    requires m.state == Error10
    ensures Transmit !in HandlerStep(m, e, v).1
    ensures Resend in HandlerStep(m, e, v).1 <==> Repeats(m, e)
  {
    if Repeats(m, e) {
      assert HandlerStep(m, e, v).1[0] == Resend;
    }
  }

  function Observe(w: Watched, e: Event, v: Env): Watched {
    var n := HandlerStep(w.m, e, v).0;
    if Sends(w.m) then Watched(n, 0, !FailureNoted(n))
    else if Repeats(w.m, e) then Watched(n, w.failures, w.clean && !FailureNoted(n))
    else if Awaiting(w.m.state) && Failed(n.state) && Failure(e) then Watched(n, w.failures + 1, w.clean)
    else Watched(n, w.failures, w.clean)
  }

  /** The failures are the transmissions before the last, and the last if it is taken
      for failed. */
  predicate Tallied(w: Watched) {
    && Inv(w.m)
    && (w.clean && Sending(w.m.state) ==>
          && w.failures == w.m.retry + (if Failed(w.m.state) then 1 else 0)
          && (Awaiting(w.m.state) && !w.m.dataReady ==> !FailureNoted(w.m)))
  }

  lemma StartupTallied(w: Watched, e: Event, v: Env)
    requires Tallied(w) && InStartup(w.m.state)
    ensures Tallied(Observe(w, e, v))
  {
    StartupKeepsInv(w.m, e, v);
    if Awaiting(w.m.state) {
      StartupAwaitingTallied(w, e, v);
    }
  }

  lemma StartupAwaitingTallied(w: Watched, e: Event, v: Env)
    requires Tallied(w) && (w.m.state == Response3 || w.m.state == AwReply4)
    ensures Tallied(Observe(w, e, v))
  {
    StartupKeepsInv(w.m, e, v);
  }

  lemma AwaitingTallied(w: Watched, e: Event, v: Env)
    requires Tallied(w) && (w.m.state == Response8 || w.m.state == AwReply9)
    ensures Tallied(Observe(w, e, v))
  {
    PreoperateKeepsInv(w.m, e, v);
  }

  lemma ErrorTallied(w: Watched, e: Event, v: Env)
    requires Tallied(w) && w.m.state == Error10
    ensures Tallied(Observe(w, e, v))
  {
    ErrorKeepsInv(w.m, e, v);
  }

  lemma PreoperateTallied(w: Watched, e: Event, v: Env)
    requires Tallied(w) && !InStartup(w.m.state)
    ensures Tallied(Observe(w, e, v))
  {
    PreoperateKeepsInv(w.m, e, v);
    if w.m.state == Response8 || w.m.state == AwReply9 {
      AwaitingTallied(w, e, v);
    } else if w.m.state == Error10 {
      ErrorTallied(w, e, v);
    }
  }

  /** If no failure was on record when the message was sent and repeated,
      communication is given up exactly when three replies to it were missing or
      broken. */
  lemma LostAfterThreeFailures(w: Watched, e: Event, v: Env)
    requires Tallied(w) && w.clean
    ensures Tallied(Observe(w, e, v))
    ensures ComLost in HandlerStep(w.m, e, v).1 <==> Failed(w.m.state) && w.failures == 3
  {
    if InStartup(w.m.state) {
      StartupTallied(w, e, v);
    } else {
      PreoperateTallied(w, e, v);
    }
    GivenUpExactly(w.m, e, v);
  }

  /** `Observe` counts anew exactly when the handler transmits, and checks the record
      again exactly when it repeats. */
  lemma ObservedByEmission(w: Watched, e: Event, v: Env)
    ensures
      var (n, outs) := HandlerStep(w.m, e, v);
      Observe(w, e, v) ==
        if Transmit in outs then Watched(n, 0, !FailureNoted(n))
        else if Resend in outs then Watched(n, w.failures, w.clean && !FailureNoted(n))
        else Watched(n, w.failures + (if Awaiting(w.m.state) && Failed(n.state) && Failure(e) then 1 else 0), w.clean)
  {
    SendsAndRepeats(w.m, e, v);
  }

  datatype Happening = Happening(e: Event, v: Env)

  function Watch(w: Watched, hs: seq<Happening>): Watched
    decreases |hs|
  {
    if hs == [] then w else Watch(Observe(w, hs[0].e, hs[0].v), hs[1..])
  }

  /** So it is in every run. */
  lemma {:induction false} EveryRunIsTallied(w: Watched, hs: seq<Happening>)
    requires Tallied(w)
    ensures Tallied(Watch(w, hs))
    decreases |hs|
  {
    if hs != [] {
      if InStartup(w.m.state) {
        StartupTallied(w, hs[0].e, hs[0].v);
      } else {
        PreoperateTallied(w, hs[0].e, hs[0].v);
      }
      EveryRunIsTallied(Observe(w, hs[0].e, hs[0].v), hs[1..]);
    }
  }

  /** STARTUP never clears a failure: a message that is taken for failed has one on
      record, and is repeated with it. */
  predicate OnRecord(m: Mh) {
    InStartup(m.state) && (m.state == Error5 || (Awaiting(m.state) && m.retry > 0) ==> FailureNoted(m))
  }

  lemma StartupKeepsRecord(m: Mh, e: Event)
    requires OnRecord(m)
    ensures OnRecord(HandlerStep(m, e, Still).0)
    ensures FailureNoted(m) ==> FailureNoted(HandlerStep(m, e, Still).0)
    ensures Resend in HandlerStep(m, e, Still).1 ==> FailureNoted(HandlerStep(m, e, Still).0)
  {
  }

  /** A call in startup that ends a transmission without a reply: with a failure on
      record any call that brings none, and else one that reports a failure. */
  predicate Ends(m: Mh, e: Event) {
    Awaiting(m.state) && !m.dataReady && !e.Reply? && (FailureNoted(m) || Failure(e))
  }

  lemma RecordFails(m: Mh, e: Event)
    requires InStartup(m.state) && Awaiting(m.state)
    ensures HandlerStep(m, e, Still).0.state == Error5 <==> Ends(m, e)
  {
  }

  /** The handler in startup, how many calls have ended a transmission of its message,
      and whether a failure was on record when the message was sent. */
  datatype Followed = Followed(m: Mh, ended: nat, recorded: bool)

  function Follow(w: Followed, e: Event): Followed {
    var n := HandlerStep(w.m, e, Still).0;
    if Sends(w.m) then Followed(n, 0, FailureNoted(n))
    else Followed(n, w.ended + (if Ends(w.m, e) then 1 else 0), w.recorded)
  }

  predicate Counted(w: Followed) {
    && Inv(w.m) && InStartup(w.m.state)
    && (Sending(w.m.state) ==>
          && w.ended == w.m.retry + (if Failed(w.m.state) then 1 else 0)
          && (w.recorded ==> FailureNoted(w.m)))
  }

  lemma FollowKeepsCount(w: Followed, e: Event)
    requires Counted(w)
    ensures Counted(Follow(w, e))
  {
    StartupKeepsInv(w.m, e, Still);
    if Awaiting(w.m.state) {
      RecordFails(w.m, e);
    }
  }

  /** In startup, communication is given up exactly after three calls that have ended a
      transmission. If a failure was on record when the message was sent, those are the
      calls that brought no reply. */
  lemma LostInStartupExactly(w: Followed, e: Event)
    requires Counted(w)
    ensures Counted(Follow(w, e))
    ensures ComLost in HandlerStep(w.m, e, Still).1 <==> Failed(w.m.state) && w.ended == 3
    ensures w.recorded && Sending(w.m.state) ==>
              (Ends(w.m, e) <==> Awaiting(w.m.state) && !w.m.dataReady && !e.Reply?)
  {
    FollowKeepsCount(w, e);
    GivenUpExactly(w.m, e, Still);
  }

  function FollowAll(w: Followed, es: seq<Event>): Followed
    decreases |es|
  {
    if es == [] then w else FollowAll(Follow(w, es[0]), es[1..])
  }

  lemma {:induction false} StartupRunIsCounted(w: Followed, es: seq<Event>)
    requires Counted(w)
    ensures Counted(FollowAll(w, es))
    decreases |es|
  {
    if es != [] {
      FollowKeepsCount(w, es[0]);
      StartupRunIsCounted(Follow(w, es[0]), es[1..]);
    }
  }

  function PlayEvents(m: Mh, es: seq<Event>): seq<Out>
    decreases |es|
  {
    if es == [] then [] else HandlerStep(m, es[0], Still).1 + PlayEvents(HandlerStep(m, es[0], Still).0, es[1..])
  }

  /** So communication is given up though no reply to the message was missing or
      broken: an earlier one was, and the handler is called without cause. */
  lemma LostWithoutFailure()
    ensures
      var m := Mh(Startup, RwRead, 0, false, true, false, 0, 0, false);
      && OnRecord(m)
      && PlayEvents(m, [Wake, Wake, Timer, Wake, Timer, Wake, Wake]) ==
         [Transmit, Resend, Resend, ComLost, ReadCnf(0, NoComm)]
  {
    var m0 := Mh(Startup, RwRead, 0, false, true, false, 0, 0, false);
    var m1 := m0.(state := Response3, sent := 1);
    var m2 := m1.(state := Error5);
    var m3 := m1.(state := AwReply4, retry := 1, sent := 2);
    PlayFirst(m0, Wake, [Wake, Timer, Wake, Timer, Wake, Wake], m1, [Transmit]);
    PlayFirst(m1, Wake, [Timer, Wake, Timer, Wake, Wake], m2, []);
    PlayFirst(m2, Timer, [Wake, Timer, Wake, Wake], m3, [Resend]);
    LostFromSecond();
  }

  lemma LostFromSecond()
    ensures PlayEvents(Mh(AwReply4, RwRead, 1, false, true, false, 0, 2, false), [Wake, Timer, Wake, Wake]) ==
            [Resend, ComLost, ReadCnf(0, NoComm)]
  {
    var m3 := Mh(AwReply4, RwRead, 1, false, true, false, 0, 2, false);
    var m4 := m3.(state := Error5);
    var m5 := m3.(retry := 2, sent := 3);
    var m6 := m5.(state := Error5);
    var m7 := m6.(state := Inactive, rwcmd := RwNone);
    PlayFirst(m3, Wake, [Timer, Wake, Wake], m4, []);
    PlayFirst(m4, Timer, [Wake, Wake], m5, [Resend]);
    PlayFirst(m5, Wake, [Wake], m6, []);
    assert [ComLost] + [ReadCnf(0, NoComm)] == [ComLost, ReadCnf(0, NoComm)];
    PlayFirst(m6, Wake, [], m7, [ComLost, ReadCnf(0, NoComm)]);
    assert PlayEvents(m7, []) == [];
  }

  lemma PlayFirst(m: Mh, e: Event, es: seq<Event>, n: Mh, outs: seq<Out>)
    requires HandlerStep(m, e, Still) == (n, outs)
    ensures PlayEvents(m, [e] + es) == outs + PlayEvents(n, es)
  {
    assert ([e] + es)[1..] == es;
  }

  // --- Turns in PREOPERATE --------------------------------------------------------------

  /** The message handler in PREOPERATE, and the last turn it has given the on-request
      handler: the device's, before the first message. */
  datatype Turning = Turning(m: Mh, last: Trigger)

  /** The turn a step gives, if any; no step gives two. */
  function TurnOf(outs: seq<Out>): Trigger {
    if outs != [] && outs[0].OdTurn? then outs[0].t else NoTrigger
  }

  lemma OneTurnAStep(m: Mh, e: Event, v: Env)
    ensures
      var outs := HandlerStep(m, e, v).1;
      && (forall i :: 0 < i < |outs| ==> !outs[i].OdTurn?)
      && TurnOf(outs) == if m.state == GetOd7 then MasterMessage
                         else if (m.state == Response8 || m.state == AwReply9) && (m.dataReady || e.Reply?) then DeviceMessage
                         else NoTrigger
  {
  }

  function Turn(w: Turning, h: Happening): Turning {
    var (n, outs) := HandlerStep(w.m, h.e, h.v);
    Turning(n, if TurnOf(outs) == NoTrigger then w.last else TurnOf(outs))
  }

  /** The handler waits for a reply that it has already passed on. */
  predicate Stalled(w: Turning) {
    (w.m.state == Response8 || w.m.state == AwReply9) && w.m.dataReady && w.last == DeviceMessage
  }

  /** The last turn fits the state. */
  predicate InTurn(w: Turning) {
    match w.m.state
    case Preoperate => w.last == DeviceMessage
    case GetOd7 => w.last == DeviceMessage
    case Response8 => w.last == MasterMessage || Stalled(w)
    case AwReply9 => w.last == MasterMessage || Stalled(w)
    case Error10 => w.last == MasterMessage
    case _ => true
  }

  /** The call gives no turn, or the one that follows the last. */
  predicate Alternates(w: Turning, h: Happening) {
    var t := TurnOf(HandlerStep(w.m, h.e, h.v).1);
    t == NoTrigger || t != w.last
  }

  /** The reply is passed on while the event flag is up, with the ISDU handler idle then
      and OPERATE not requested. */
  predicate Stalls(w: Turning, h: Happening) {
    && (w.m.state == Response8 || w.m.state == AwReply9) && (w.m.dataReady || h.e.Reply?)
    && w.m.flag && h.v.isduIdle && !h.v.operate
  }

  /** A turn is out of turn exactly if the handler is stalled, and it is stalled exactly
      after such a reply. */
  lemma TurnsAlternateExactly(w: Turning, h: Happening)
    requires InTurn(w)
    ensures InTurn(Turn(w, h)) && Turn(w, h).m.flag == w.m.flag
    ensures Alternates(w, h) <==> !Stalled(w)
    ensures Stalled(Turn(w, h)) <==> Stalls(w, h)
  {
    OneTurnAStep(w.m, h.e, h.v);
    if w.m.state == Error10 {
      ErrorNeverTurns(w, h);
    }
  }

  lemma ErrorNeverTurns(w: Turning, h: Happening)
    requires InTurn(w) && w.m.state == Error10
    ensures InTurn(Turn(w, h)) && !Stalled(Turn(w, h)) && Turn(w, h).m.flag == w.m.flag
  {
    OneTurnAStep(w.m, h.e, h.v);
  }

  function TurnAll(w: Turning, hs: seq<Happening>): Turning {
    if hs == [] then w else Turn(TurnAll(w, hs[..|hs| - 1]), hs[|hs| - 1])
  }

  /** All turns of the run alternate. */
  predicate AllAlternate(w: Turning, hs: seq<Happening>) {
    hs != [] ==>
      AllAlternate(w, hs[..|hs| - 1]) && Alternates(TurnAll(w, hs[..|hs| - 1]), hs[|hs| - 1])
  }

  /** No reply of the run but the last stalls the handler. */
  predicate NoneStalls(w: Turning, hs: seq<Happening>) {
    hs != [] ==> NoneStalls(w, hs[..|hs| - 1]) && !Stalls(TurnAll(w, hs[..|hs| - 1]), hs[|hs| - 1])
  }

  lemma {:induction false} RunInTurn(w: Turning, hs: seq<Happening>)
    requires InTurn(w)
    ensures InTurn(TurnAll(w, hs)) && TurnAll(w, hs).m.flag == w.m.flag
    decreases |hs|
  {
    if hs != [] {
      RunInTurn(w, hs[..|hs| - 1]);
      TurnsAlternateExactly(TurnAll(w, hs[..|hs| - 1]), hs[|hs| - 1]);
    }
  }

  /** In every run of PREOPERATE the turns of master and device alternate exactly if no
      reply before the last call stalls the handler. */
  lemma {:induction false} RunAlternatesExactly(w: Turning, hs: seq<Happening>)
    requires InTurn(w) && !Stalled(w) && hs != []
    ensures AllAlternate(w, hs) <==> NoneStalls(w, hs[..|hs| - 1])
    decreases |hs|
  {
    var front, last := hs[..|hs| - 1], hs[|hs| - 1];
    RunInTurn(w, front);
    TurnsAlternateExactly(TurnAll(w, front), last);
    if front != [] {
      RunAlternatesExactly(w, front);
      var before := front[..|front| - 1];
      RunInTurn(w, before);
      TurnsAlternateExactly(TurnAll(w, before), front[|front| - 1]);
    }
  }

  lemma {:induction false} FlagDownStallsNone(w: Turning, hs: seq<Happening>)
    requires InTurn(w) && !w.m.flag
    ensures NoneStalls(w, hs)
    decreases |hs|
  {
    if hs != [] {
      FlagDownStallsNone(w, hs[..|hs| - 1]);
      RunInTurn(w, hs[..|hs| - 1]);
    }
  }

  /** With the event flag of the last reply in OPERATE down, as it is before OPERATE was
      ever reached, turns alternate in every run, whatever the replies say. */
  lemma FlagDownAlternates(w: Turning, hs: seq<Happening>)
    requires InTurn(w) && !Stalled(w) && !w.m.flag
    ensures AllAlternate(w, hs)
  {
    if hs != [] {
      FlagDownStallsNone(w, hs[..|hs| - 1]);
      RunAlternatesExactly(w, hs);
    }
  }

  /** The call finds the ISDU handler still idle and OPERATE still not requested. */
  predicate Unchanged(h: Happening) {
    h.v.isduIdle && !h.v.operate
  }

  /** A stalled handler stays so until one of these changes: every call, with a reply or
      without, gives the device's turn again, and nothing is ever transmitted. */
  lemma {:induction false} StalledForGood(w: Turning, hs: seq<Happening>)
    requires InTurn(w) && Stalled(w) && w.m.flag && forall k :: 0 <= k < |hs| ==> Unchanged(hs[k])
    ensures Stalled(TurnAll(w, hs)) && InTurn(TurnAll(w, hs)) && TurnAll(w, hs).m.flag
    ensures hs != [] ==>
              HandlerStep(TurnAll(w, hs[..|hs| - 1]).m, hs[|hs| - 1].e, hs[|hs| - 1].v).1 == [OdTurn(DeviceMessage)]
    decreases |hs|
  {
    if hs != [] {
      var front, last := hs[..|hs| - 1], hs[|hs| - 1];
      assert Unchanged(last);
      StalledForGood(w, front);
      TurnsAlternateExactly(TurnAll(w, front), last);
    }
  }

  // --- Every run of startup ---------------------------------------------------------

  datatype Input = Call(e: Event) | Ask(write: bool, ok: bool)

  /** DL_Read_cnf and DL_Write_cnf among `outs`. */
  function Confirmed(outs: seq<Out>): nat {
    if outs == [] then 0 else (if outs[0].ReadCnf? || outs[0].WriteCnf? then 1 else 0) + Confirmed(outs[1..])
  }

  function Pending(m: Mh): nat {
    if m.rwcmd == RwRead || m.rwcmd == RwWrite then 1 else 0
  }

  /** Startup services are requested one at a time. */
  predicate Good(m: Mh) {
    Inv(m) && InStartup(m.state) && (m.state == Inactive ==> Pending(m) == 0)
  }

  predicate Possible(m: Mh, i: Input) {
    i.Ask? ==> Pending(m) == 0
  }

  function Apply(m: Mh, i: Input): Step {
    match i
    case Call(e) => HandlerStep(m, e, Still)
    case Ask(write, ok) => Request(m, write, ok)
  }

  lemma ConfirmedShort(outs: seq<Out>)
    requires |outs| <= 2
    ensures Confirmed(outs) ==
            (if |outs| > 0 && (outs[0].ReadCnf? || outs[0].WriteCnf?) then 1 else 0) +
            (if |outs| > 1 && (outs[1].ReadCnf? || outs[1].WriteCnf?) then 1 else 0)
  {
    if |outs| == 2 {
      assert outs[1..][1..] == [];
    }
  }

  lemma StepConfirmsOnce(m: Mh, i: Input)
    requires Good(m) && Possible(m, i)
    ensures
      var (n, outs) := Apply(m, i);
      Good(n) && Pending(m) + (if i.Ask? then 1 else 0) == Confirmed(outs) + Pending(n)
  {
    if i.Call? {
      CallConfirmsOnce(m, i.e);
    } else {
      ConfirmedShort(Apply(m, i).1);
    }
  }

  lemma CallConfirmsOnce(m: Mh, e: Event)
    requires Good(m)
    ensures
      var (n, outs) := HandlerStep(m, e, Still);
      Good(n) && Pending(m) == Confirmed(outs) + Pending(n)
  {
    if m.state == Error5 {
      ErrorConfirmsOnce(m, e);
    } else {
      OthersConfirmOnce(m, e);
    }
  }

  lemma OthersConfirmOnce(m: Mh, e: Event)
    requires Good(m) && m.state != Error5
    ensures
      var (n, outs) := HandlerStep(m, e, Still);
      Good(n) && Pending(m) == Confirmed(outs) + Pending(n)
  {
    StartupKeepsInv(m, e, Still);
    ConfirmedShort(HandlerStep(m, e, Still).1);
  }

  lemma ErrorConfirmsOnce(m: Mh, e: Event)
    requires Good(m) && m.state == Error5
    ensures
      var (n, outs) := HandlerStep(m, e, Still);
      Good(n) && Pending(m) == Confirmed(outs) + Pending(n)
  {
    StartupKeepsInv(m, e, Still);
    ConfirmedShort(HandlerStep(m, e, Still).1);
  }

  predicate AllPossible(m: Mh, inputs: seq<Input>)
    decreases |inputs|
  {
    inputs != [] ==> Possible(m, inputs[0]) && AllPossible(Apply(m, inputs[0]).0, inputs[1..])
  }

  function Play(m: Mh, inputs: seq<Input>): Step
    requires AllPossible(m, inputs)
    decreases |inputs|
  {
    if inputs == [] then (m, [])
    else
      var rest := Play(Apply(m, inputs[0]).0, inputs[1..]);
      (rest.0, Apply(m, inputs[0]).1 + rest.1)
  }

  function Asks(inputs: seq<Input>): nat {
    if inputs == [] then 0 else (if inputs[0].Ask? then 1 else 0) + Asks(inputs[1..])
  }

  lemma {:induction false} ConfirmedJoined(a: seq<Out>, b: seq<Out>)
    ensures Confirmed(a + b) == Confirmed(a) + Confirmed(b)
    decreases |a|
  {
    if a == [] {
      assert a + b == b;
    } else {
      assert (a + b)[1..] == a[1..] + b;
      ConfirmedJoined(a[1..], b);
    }
  }

  /** In any run of startup, with any replies, losses and timers, every read and
      write is confirmed exactly once: by data, as lost, or as refused. */
  lemma {:induction false} EveryRequestConfirmedOnce(m: Mh, inputs: seq<Input>)
    requires Good(m) && AllPossible(m, inputs)
    ensures Good(Play(m, inputs).0)
    ensures Pending(m) + Asks(inputs) == Confirmed(Play(m, inputs).1) + Pending(Play(m, inputs).0)
    decreases |inputs|
  {
    if inputs != [] {
      StepConfirmsOnce(m, inputs[0]);
      EveryRequestConfirmedOnce(Apply(m, inputs[0]).0, inputs[1..]);
      ConfirmedJoined(Apply(m, inputs[0]).1, Play(Apply(m, inputs[0]).0, inputs[1..]).1);
    }
  }

  // --- What is confirmed -------------------------------------------------------------

  /** Requests are refused in another state than startup, and for an invalid address. */
  lemma RefusedExactly(m: Mh, write: bool, ok: bool)
    ensures
      var refused := if m.state != Startup then StateConflict else ValueOutOfRange;
      if m.state == Startup && ok then Request(m, write, ok) == (m.(rwcmd := if write then RwWrite else RwRead), [])
      else Request(m, write, ok) == (m, [if write then WriteCnf(refused) else ReadCnf(0, refused)])
  {
  }

  /** The reply to a message is there, or the call brings it. */
  predicate HasReply(m: Mh, e: Event) {
    (m.state == Response3 || m.state == AwReply4) && (m.dataReady || e.Reply?)
  }

  /** The byte received last once `e` has happened. */
  function LastByte(last: byte, e: Event): byte {
    if e.Reply? then e.value else last
  }

  /** A pending read is confirmed with exactly the byte received last, a write with no
      error; and nothing else is confirmed without error. */
  lemma ConfirmedWithReply(m: Mh, e: Event)
    requires Good(m)
    ensures HasReply(m, e) ==>
              HandlerStep(m, e, Still).1 == if m.rwcmd == RwRead then [ReadCnf(LastByte(m.rx, e), NoError)] else [WriteCnf(NoError)]
    ensures !HasReply(m, e) ==> forall o <- HandlerStep(m, e, Still).1 :: o != WriteCnf(NoError) && !(o.ReadCnf? && o.status == NoError)
    ensures HandlerStep(m, e, Still).0.rx == LastByte(m.rx, e)
  {
    if m.state == Error5 {
      assert HandlerStep(m, e, Still).1 != [] ==> HandlerStep(m, e, Still).1[0] == ComLost || HandlerStep(m, e, Still).1 == [Resend];
    }
  }

  /** The values of the reads among `outs` that are confirmed without error. */
  function ValuesRead(outs: seq<Out>): seq<byte> {
    if outs == [] then []
    else if outs[0].ReadCnf? && outs[0].status == NoError then [outs[0].value] + ValuesRead(outs[1..])
    else ValuesRead(outs[1..])
  }

  /** The bytes of the replies that end the reads of a run: what was received last when
      the handler is called with the reply to a read there. */
  function Received(m: Mh, inputs: seq<Input>, last: byte): seq<byte>
    requires AllPossible(m, inputs)
    decreases |inputs|
  {
    if inputs == [] then []
    else
      var i := inputs[0];
      var next := if i.Call? then LastByte(last, i.e) else last;
      var rest := Received(Apply(m, i).0, inputs[1..], next);
      if i.Call? && HasReply(m, i.e) && m.rwcmd == RwRead then [next] + rest else rest
  }

  lemma {:induction false} ValuesJoined(a: seq<Out>, b: seq<Out>)
    ensures ValuesRead(a + b) == ValuesRead(a) + ValuesRead(b)
    decreases |a|
  {
    if a == [] {
      assert a + b == b;
    } else {
      assert (a + b)[1..] == a[1..] + b;
      ValuesJoined(a[1..], b);
    }
  }

  lemma {:induction false} NoValues(outs: seq<Out>)
    requires forall o <- outs :: !(o.ReadCnf? && o.status == NoError)
    ensures ValuesRead(outs) == []
    decreases |outs|
  {
    if outs != [] {
      assert outs[0] in outs;
      NoValues(outs[1..]);
    }
  }

  lemma StepValues(m: Mh, i: Input)
    requires Good(m) && Possible(m, i)
    ensures
      var next := if i.Call? then LastByte(m.rx, i.e) else m.rx;
      && Apply(m, i).0.rx == next
      && ValuesRead(Apply(m, i).1) == if i.Call? && HasReply(m, i.e) && m.rwcmd == RwRead then [next] else []
  {
    if i.Call? && HasReply(m, i.e) {
      ConfirmedWithReply(m, i.e);
      assert Apply(m, i).1[1..] == [];
    } else if i.Call? {
      ConfirmedWithReply(m, i.e);
      NoValues(Apply(m, i).1);
    } else {
      RefusedExactly(m, i.write, i.ok);
      NoValues(Apply(m, i).1);
    }
  }

  /** In every run of startup the values read are those of the replies that ended the
      reads, in order. */
  lemma {:induction false} ValuesAreReceived(m: Mh, inputs: seq<Input>)
    requires Good(m) && AllPossible(m, inputs)
    ensures ValuesRead(Play(m, inputs).1) == Received(m, inputs, m.rx)
    decreases |inputs|
  {
    if inputs != [] {
      var (n, outs) := Apply(m, inputs[0]);
      StepConfirmsOnce(m, inputs[0]);
      StepValues(m, inputs[0]);
      ValuesAreReceived(n, inputs[1..]);
      ValuesJoined(outs, Play(n, inputs[1..]).1);
    }
  }

  /** The handler as it stands in memory. */
  class MessageUnit {
    var state: State
    var rwcmd: RwCmd
    var retry: nat
    var dataReady: bool
    var rxTimeout: bool
    var rxError: bool
    var rx: byte
    var flag: bool
    ghost var sent: nat

    ghost function View(): Mh
      reads this
    {
      Mh(state, rwcmd, retry, dataReady, rxTimeout, rxError, rx, sent, flag)
    }

    constructor ()
      ensures View() == Mh(Startup, RwNone, 0, false, false, false, 0, 0, false) && Good(View())
    {
      state, rwcmd, retry, dataReady, rxTimeout, rxError, rx, sent, flag := Startup, RwNone, 0, false, false, false, 0, 0, false;
    }

    /** Confirms the pending read or write, if any. */
    method ConfirmPending(value: byte, status: Status) returns (outs: seq<Out>)
      modifies this`rwcmd
      ensures outs == Confirmation(old(View()), value, status) && View() == Released(old(View()))
    {
      outs := [];
      if rwcmd == RwRead {
        rwcmd, outs := RwNone, [ReadCnf(value, status)];
      } else if rwcmd == RwWrite {
        rwcmd, outs := RwNone, [WriteCnf(status)];
      }
    }

    method AwaitReply4() returns (outs: seq<Out>)
      modifies this`state, this`rwcmd
      ensures (View(), outs) == Await4(old(View()))
    {
      outs := [];
      state := AwReply4;
      if dataReady {
        state := Startup;
        outs := ConfirmPending(rx, NoError);
      } else if rxTimeout || rxError {
        state := Error5;
      }
    }

    method ErrorHandling5(timer: bool) returns (outs: seq<Out>)
      modifies this`state, this`rwcmd, this`retry, this`sent
      ensures (View(), outs) == ErrorStep5(old(View()), if timer then Timer else Wake)
    {
      outs := [];
      if retry >= MaxRetry {
        state := Inactive;
        var cnf := ConfirmPending(0, NoComm);
        outs := [ComLost] + cnf;
      } else if timer {
        retry, state, sent := retry + 1, AwReply4, sent + 1;
        outs := [Resend];
      }
    }

    /** The flags an event sets. */
    method Note(e: Event)
      modifies this`dataReady, this`rx, this`rxTimeout, this`rxError
      ensures View() == Marked(old(View()), e)
    {
      if e.Reply? {
        dataReady, rx := true, e.value;
      } else if e == Timeout {
        rxTimeout := true;
      } else if e == Broken {
        rxError := true;
      }
    }

    /** DL_Read_req and DL_Write_req. The request is confirmed or pending. */
    method ReadWriteReq(write: bool, ok: bool) returns (outs: seq<Out>)
      requires Good(View()) && Pending(View()) == 0
      modifies this`rwcmd
      ensures Good(View()) && Confirmed(outs) + Pending(View()) == 1
      ensures (View(), outs) == Request(old(View()), write, ok)
    {
      StepConfirmsOnce(View(), Ask(write, ok));
      outs := [];
      if state != Startup {
        outs := [if write then WriteCnf(StateConflict) else ReadCnf(0, StateConflict)];
      } else if !ok {
        outs := [if write then WriteCnf(ValueOutOfRange) else ReadCnf(0, ValueOutOfRange)];
      } else {
        rwcmd := if write then RwWrite else RwRead;
      }
    }

    /** The reply to a message in PREOPERATE, if it is there. */
    method AwaitReply9(v: Env) returns (outs: seq<Out>)
      requires state == Response8 || state == AwReply9
      modifies this`state, this`rxTimeout, this`rxError
      ensures (View(), outs) == Await9(old(View()), v)
    {
      outs := [];
      if dataReady {
        outs := [OdTurn(DeviceMessage)];
        if v.isduIdle {
          if v.operate {
            state := Operate;
          } else if !flag {
            state := Preoperate;
          }
        } else {
          state := GetOd7;
        }
      } else if rxTimeout || rxError {
        rxTimeout, rxError, state := false, false, Error10;
      }
    }

    method ErrorHandling10(e: Event) returns (outs: seq<Out>)
      requires state == Error10
      modifies this`state, this`rwcmd, this`retry, this`sent
      ensures (View(), outs) == ErrorStep10(old(View()), e)
    {
      outs := [];
      if retry >= MaxRetry {
        outs := LossConfirmation(rwcmd) + [ComLost];
        state, rwcmd := Inactive, RwNone;
      } else if e == Timer {
        retry, state, sent := retry + 1, AwReply9, sent + 1;
        outs := [Resend];
      }
    }

    method HandleStartup(e: Event) returns (outs: seq<Out>)
      requires InStartup(state)
      modifies this
      ensures (View(), outs) == HandlerStep(old(View()), e, Still)
    {
      outs := [];
      Note(e);
      if state == Startup {
        if rwcmd == RwRead || rwcmd == RwWrite {
          retry, dataReady, state, sent := 0, false, Response3, 1;
          outs := [Transmit];
        }
      } else if state == Response3 || state == AwReply4 {
        outs := AwaitReply4();
      } else if state == Error5 {
        outs := ErrorHandling5(e == Timer);
      }
    }

    method HandlePreoperate(e: Event, v: Env) returns (outs: seq<Out>)
      requires !InStartup(state)
      modifies this
      ensures (View(), outs) == HandlerStep(old(View()), e, v)
    {
      outs := [];
      Note(e);
      if state == Preoperate {
        if v.work {
          retry, state := 0, GetOd7;
        }
      } else if state == GetOd7 {
        outs := [OdTurn(MasterMessage), Transmit];
        retry, dataReady, state, sent := 0, false, Response8, 1;
      } else if state == Response8 || state == AwReply9 {
        outs := AwaitReply9(v);
      } else if state == Error10 {
        outs := ErrorHandling10(e);
      }
    }

    /** One call of the handler in PREOPERATE: it gives the on-request handler at most
        one turn, the master's with a new message and the device's with a reply, and no
        message is sent more than three times. */
    method StepPreoperate(e: Event, v: Env) returns (outs: seq<Out>)
      requires Inv(View()) && !InStartup(state)
      modifies this
      ensures Inv(View()) && sent <= 3 && (ComLost in outs <==> old(state) == Error10 && old(sent) == 3)
      ensures forall i :: 0 < i < |outs| ==> !outs[i].OdTurn?
      ensures TurnOf(outs) == MasterMessage <==> Transmit in outs
      ensures TurnOf(outs) == DeviceMessage <==>
                (old(state) == Response8 || old(state) == AwReply9) && (old(dataReady) || e.Reply?)
      ensures (View(), outs) == HandlerStep(old(View()), e, v)
    {
      GivenUpExactly(View(), e, v);
      GivenUpExactly(HandlerStep(View(), e, v).0, Wake, v);
      OneTurnAStep(View(), e, v);
      SendsAndRepeats(View(), e, v);
      outs := HandlePreoperate(e, v);
    }

    /** One call of the handler in STARTUP: it confirms the pending read or write, or
        keeps it, and no message is sent more than three times. */
    method Step(e: Event) returns (outs: seq<Out>)
      requires Good(View())
      modifies this
      ensures Good(View()) && Pending(old(View())) == Confirmed(outs) + Pending(View())
      ensures sent <= 3 && (ComLost in outs <==> old(state) == Error5 && old(sent) == 3)
      ensures old(HasReply(View(), e)) ==>
                outs == if old(rwcmd) == RwRead then [ReadCnf(if e.Reply? then e.value else old(rx), NoError)] else [WriteCnf(NoError)]
      ensures (View(), outs) == HandlerStep(old(View()), e, Still)
    {
      StepConfirmsOnce(View(), Call(e));
      GivenUpExactly(View(), e, Still);
      GivenUpExactly(HandlerStep(View(), e, Still).0, Wake, Still);
      ConfirmedWithReply(View(), e);
      outs := HandleStartup(e);
    }
  }
}
