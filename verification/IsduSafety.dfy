/** Every run of the ISDU handler: which requests are confirmed, and how often. */
module IsduSafety {
  import opened Bytes
  import opened DlTypes
  import Isdu
  import opened IsduHandler

  /** One thing that can happen to the handler: a message trigger, a configuration
      call, a new message-handler command, or a service request. */
  datatype Input =
    | Message(env: Env)
    | Configure(on: bool, env: Env)
    | Command(cmd: RwCmd)
    | Transport(connected: bool, request: Isdu.Request)

  /** The handler, the trigger it sees next, and how many requests were made,
      confirmed and dropped so far. */
  datatype System = System(h: Handler, next: Trigger, requests: nat, confirmed: nat, dropped: nat)

  predicate Plain(e: Env, odLen: nat) {
    e.odLen == odLen && |e.rx| == odLen && e.dataAddr < 32
  }

  /** Triggers alternate, configuration finds no trigger pending, and requests
      have a 16-bit index and fit the buffer. */
  predicate Possible(s: System, i: Input, odLen: nat) {
    match i
    case Message(e) => Plain(e, odLen) && (e.trigger == s.next || e.trigger == NoTrigger)
    case Configure(_, e) => Plain(e, odLen) && e.trigger == NoTrigger
    case Command(c) => c != RwIsduTransport
    case Transport(_, r) => r.index < 0x1_0000 && Isdu.EncodedLength(r) <= Isdu.IsduMaxSize
  }

  /** The message handler has let go of the last request before it activates the
      handler again. */
  predicate Released(s: System, i: Input) {
    i.Configure? && i.on && s.h.state == Inactive ==> s.h.rwcmd != RwIsduTransport
  }

  /** Requests accepted and not yet confirmed. */
  function Pending(h: Handler): nat {
    match h.state
    case Inactive => 0
    case Idle => if h.totalSeg > 0 then 1 else 0
    case _ => 1
  }

  /** A handler that is shut down while its error report is due goes inactive
      without giving the report. */
  function Abandons(h: Handler): nat {
    if h.state == Failing && !h.active then 1 else 0
  }

  /** The two ways a request goes without confirmation: it is abandoned, or
      replaced before it was started. */
  function Drops(h: Handler, i: Input): nat {
    match i
    case Message(_) => Abandons(h)
    case Configure(on, _) => Abandons(h.(active := on))
    case Command(_) => 0
    case Transport(connected, r) =>
      if connected && r.index >= 2 && h.state == Idle && h.totalSeg > 0 then 1 else 0
  }

  ghost predicate Good(s: System, odLen: nat) {
    Inv(s.h, odLen, s.next) && s.next != NoTrigger
  }

  function Apply(s: System, i: Input, odLen: nat): (r: Step)
    requires Good(s, odLen) && Possible(s, i, odLen)
    ensures Inv(r.0, odLen, NextTrigger(s, i))
  {
    match i
    case Message(e) => StepKeepsInv(s.h, e, s.next); HandlerStep(s.h, e)
    case Configure(on, e) => StepKeepsInv(s.h.(active := on), e, s.next); HandlerStep(s.h.(active := on), e)
    case Command(c) => (s.h.(rwcmd := c), [])
    case Transport(connected, r) => CountFits(Isdu.EncodedLength(r), odLen); Accept(s.h, connected, r, odLen)
  }

  function NextTrigger(s: System, i: Input): Trigger {
    if i.Message? then After(s.next, i.env.trigger) else s.next
  }

  function Advance(s: System, i: Input, odLen: nat): (r: System)
    requires Good(s, odLen) && Possible(s, i, odLen)
    ensures Good(r, odLen)
  {
    var (h, outs) := Apply(s, i, odLen);
    System(h,
           NextTrigger(s, i),
           s.requests + (if i.Transport? then 1 else 0),
           s.confirmed + Confirmations(outs),
           s.dropped + Drops(s.h, i))
  }

  /** An idle handler told to start a transfer has one to start; an inactive one
      was deactivated. */
  predicate Consistent(h: Handler) {
    && (h.state == Idle && h.rwcmd == RwIsduTransport ==> h.totalSeg > 0)
    && (h.state == Inactive ==> !h.active)
  }

  /** `g` and `outs` account for the request that `h` held. */
  predicate Accounts(h: Handler, step: Step) {
    && Pending(h) == Confirmations(step.1) + Pending(step.0) + Abandons(h)
    && Consistent(step.0)
  }

  lemma ErrorAccounts(h: Handler, e: Env)
    requires |h.buf| == BufferSize && h.state != Idle && h.state != Inactive
    ensures h.state != Failing ==> Accounts(h, EnterError(h, e))
    ensures h.active || h.state == Failing ==> Accounts(h, ErrorStep(h, e))
  {
    CountShort(EnterError(h, e).1);
    CountShort(ErrorStep(h, e).1);
  }

  lemma IdleAccounts(h: Handler, e: Env)
    requires h.state == Idle && Fits(h, e) && (h.rwcmd == RwIsduTransport ==> h.totalSeg > 0)
    ensures Accounts(h, IdleStep(h, e))
  {
    CountShort(IdleStep(h, e).1);
  }

  lemma RequestAccounts(h: Handler, e: Env)
    requires h.state == Requesting && Fits(h, e)
    ensures Accounts(h, RequestStep(h, e))
  {
    ErrorAccounts(h, e);
    CountShort(RequestStep(h, e).1);
  }

  lemma FirstSegmentAccounts(g: Handler, e: Env)
    requires g.state == Waiting && |g.buf| == BufferSize && OdLength(e.odLen)
    ensures Accounts(g, FirstSegment(g, e))
  {
    ErrorAccounts(g.(timerOn := false), e);
    CountShort(FirstSegment(g, e).1);
  }

  lemma WaitAccounts(h: Handler, e: Env)
    requires h.state == Waiting && Fits(h, e)
    ensures Accounts(h, WaitStep(h, e))
  {
    ErrorAccounts(h, e);
    ErrorAccounts(h.(timerOn := false), e);
    if e.trigger == DeviceMessage {
      FirstSegmentAccounts(h.(buf := Store(h.buf, e.odLen, h.seg, e.rx)), e);
    }
    CountShort([Od(OdReq(false, IsduChannel, FlowStart, []))]);
  }

  lemma ResponseAccounts(h: Handler, e: Env)
    requires h.state == Responding && Fits(h, e)
    ensures Accounts(h, ResponseStep(h, e))
  {
    ErrorAccounts(h, e);
    CountShort(ResponseStep(h, e).1);
  }

  /** What one step of the handler does to the request it holds. */
  lemma StepAccounts(h: Handler, e: Env)
    requires Fits(h, e)
    requires h.state == Idle && h.rwcmd == RwIsduTransport ==> h.totalSeg > 0
    requires h.state == Inactive && h.active ==> h.rwcmd != RwIsduTransport
    ensures Accounts(h, HandlerStep(h, e))
  {
    match h.state
    case Inactive =>
    case Idle => IdleAccounts(h, e);
    case Requesting => RequestAccounts(h, e);
    case Waiting => WaitAccounts(h, e);
    case Failing => ErrorAccounts(h, e);
    case Responding => ResponseAccounts(h, e);
  }

  /** Every request is confirmed, dropped or still pending, and only once. */
  predicate Balanced(s: System) {
    s.requests == s.confirmed + s.dropped + Pending(s.h) && Consistent(s.h)
  }

  /** An input keeps the books balanced exactly if the handler was released. */
  lemma AdvanceBalances(s: System, i: Input, odLen: nat)
    requires Good(s, odLen) && Possible(s, i, odLen) && Balanced(s)
    ensures Balanced(Advance(s, i, odLen)) <==> Released(s, i)
  {
    match i
    case Message(e) =>
      StepKeepsInv(s.h, e, s.next);
      StepAccounts(s.h, e);
    case Configure(on, e) =>
      StepKeepsInv(s.h.(active := on), e, s.next);
      if Released(s, i) {
        StepAccounts(s.h.(active := on), e);
      }
    case Command(c) =>
    case Transport(connected, r) =>
      CountShort(Accept(s.h, connected, r, odLen).1);
  }

  /** The inputs can happen to `s`, one after the other. */
  predicate Feasible(s: System, inputs: seq<Input>, odLen: nat)
    requires Good(s, odLen)
    decreases |inputs|
  {
    inputs == [] ||
    (Possible(s, inputs[0], odLen) && Feasible(Advance(s, inputs[0], odLen), inputs[1..], odLen))
  }

  function Play(s: System, inputs: seq<Input>, odLen: nat): System
    requires Good(s, odLen) && Feasible(s, inputs, odLen)
    decreases |inputs|
  {
    if inputs == [] then s else Play(Advance(s, inputs[0], odLen), inputs[1..], odLen)
  }

  /** The handler is released before every activation of the run. */
  predicate AlwaysReleased(s: System, inputs: seq<Input>, odLen: nat)
    requires Good(s, odLen) && Feasible(s, inputs, odLen)
    decreases |inputs|
  {
    inputs == [] ||
    (Released(s, inputs[0]) && AlwaysReleased(Advance(s, inputs[0], odLen), inputs[1..], odLen))
  }

  /** Over every run, requests are confirmed exactly once, unless dropped or
      still pending: none twice, none out of nothing. */
  lemma {:induction false} ConfirmedOnce(s: System, inputs: seq<Input>, odLen: nat)
    requires Good(s, odLen) && Feasible(s, inputs, odLen) && AlwaysReleased(s, inputs, odLen) && Balanced(s)
    ensures Balanced(Play(s, inputs, odLen))
    decreases |inputs|
  {
    if inputs != [] {
      AdvanceBalances(s, inputs[0], odLen);
      ConfirmedOnce(Advance(s, inputs[0], odLen), inputs[1..], odLen);
    }
  }

  /** Whenever a transfer ends in the idle state, the step that ends it gives
      exactly one confirmation and clears the command and the segment count. */
  lemma TransferEndsConfirmed(h: Handler, e: Env)
    requires Fits(h, e) && h.state != Inactive && h.state != Idle
    requires h.state == Failing ==> h.active
    requires HandlerStep(h, e).0.state == Idle
    ensures Confirmations(HandlerStep(h, e).1) == 1
    ensures HandlerStep(h, e).0.rwcmd == RwNone && HandlerStep(h, e).0.totalSeg == 0
  {
    EndsCleared(h, e);
    StepAccounts(h, e);
  }

  predicate Cleared(h: Handler) {
    h.state == Idle ==> h.rwcmd == RwNone && h.totalSeg == 0
  }

  lemma ErrorClears(h: Handler, e: Env)
    requires |h.buf| == BufferSize && h.state != Idle
    ensures Cleared(EnterError(h, e).0) && Cleared(ErrorStep(h, e).0)
  {
  }

  lemma FirstSegmentClears(g: Handler, e: Env)
    requires g.state == Waiting && |g.buf| == BufferSize && OdLength(e.odLen)
    ensures Cleared(FirstSegment(g, e).0)
  {
    ErrorClears(g.(timerOn := false), e);
  }

  lemma EndsCleared(h: Handler, e: Env)
    requires Fits(h, e) && h.state != Inactive && h.state != Idle
    ensures Cleared(HandlerStep(h, e).0)
  {
    ErrorClears(h, e);
    if h.state == Waiting {
      ErrorClears(h.(timerOn := false), e);
      if e.trigger == DeviceMessage {
        FirstSegmentClears(h.(buf := Store(h.buf, e.odLen, h.seg, e.rx)), e);
      }
    }
  }

  /** A confirmation that carries received data carries a service code that
      answers the direction of the request. */
  lemma ReceivedAnswersRequest(h: Handler, e: Env, next: Trigger, k: nat)
    requires Inv(h, e.odLen, next) && Fits(h, e) && k < |HandlerStep(h, e).1|
    requires HandlerStep(h, e).1[k].IsduCnf?
    requires HandlerStep(h, e).1[k].status == NoError || HandlerStep(h, e).1[k].status == ChecksumError
    ensures Isdu.AnswersDirection(HandlerStep(h, e).1[k].qualifier, h.dirRead)
  {
    if h.state == Responding && e.trigger == DeviceMessage {
      StoreKeepsFront(h.buf, e.odLen, h.seg, e.rx);
    }
  }

  function Calm(t: Trigger, comlost: bool, odLen: nat): Env {
    Env(t, comlost, false, odLen, Zeros(odLen), 0, 0)
  }

  /** A request that is shut down before it was started and confirmed for that,
      with its command left standing. */
  predicate Stale(s: System) {
    s.h.state == Idle && s.h.active && s.h.rwcmd == RwIsduTransport && s.h.totalSeg == 0 && Pending(s.h) == 0
  }

  lemma ShutDownBeforeStart(s: System, r: Isdu.Request, odLen: nat)
    requires Good(s, odLen) && Isdu.Encodable(r) && s.h.state == Idle && s.h.active
    ensures var i0, i1 := Transport(true, r), Configure(false, Calm(NoTrigger, false, odLen));
            var i2 := Configure(true, Calm(NoTrigger, false, odLen));
            && Possible(s, i0, odLen) && var s1 := Advance(s, i0, odLen);
            && Possible(s1, i1, odLen) && var s2 := Advance(s1, i1, odLen);
            && Possible(s2, i2, odLen) && var s3 := Advance(s2, i2, odLen);
            && s3.requests == s.requests + 1 && s3.confirmed == s.confirmed + 1
            && s3.next == s.next && Stale(s3) && !Released(s2, i2)
  {
    CountShort([]);
    CountShort([Quiet(NoComm)]);
  }

  /** Every activation without release leads there. */
  lemma UnreleasedIsStale(s: System, i: Input, odLen: nat)
    requires Good(s, odLen) && Possible(s, i, odLen) && !Released(s, i)
    ensures Stale(Advance(s, i, odLen)) && Advance(s, i, odLen).next == s.next
  {
  }

  /** Why the release matters: the request so left is started again and, for
      instance when communication is lost, confirmed again. */
  lemma StaleCommandConfirmsAgain(s: System, odLen: nat)
    requires Good(s, odLen) && Stale(s) && s.next == MasterMessage
    ensures var i0, i1 := Message(Calm(MasterMessage, false, odLen)), Message(Calm(DeviceMessage, true, odLen));
            var i2 := Message(Calm(MasterMessage, true, odLen));
            && Possible(s, i0, odLen) && var s1 := Advance(s, i0, odLen);
            && Possible(s1, i1, odLen) && var s2 := Advance(s1, i1, odLen);
            && Possible(s2, i2, odLen) && var s3 := Advance(s2, i2, odLen);
            && s3.requests == s.requests && s3.confirmed == s.confirmed + 1
  {
    var s1 := Advance(s, Message(Calm(MasterMessage, false, odLen)), odLen);
    var s2 := Advance(s1, Message(Calm(DeviceMessage, true, odLen)), odLen);
    CountShort([]);
    CountShort(HandlerStep(s.h, Calm(MasterMessage, false, odLen)).1);
    CountShort(ErrorStep(s2.h, Calm(MasterMessage, true, odLen)).1);
  }
}
