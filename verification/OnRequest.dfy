/** The on-request data handler and the command handler: which of the ISDU
    handler, the Event handler and a pending master command a message serves
    (sections 7.3.5 and 7.3.7 of the IO-Link Interface Specification v1.1.3). */
module OnRequest {
  import opened Bytes
  import opened DlTypes

  datatype State = Inactive | IsduTurn | CommandTurn | EventTurn

  datatype CmdState = CmdInactive | CmdIdle | CmdReady

  datatype Code = NoCode | Valid | Invalid | PdOutValid | PdOutInvalid | Devicemode

  // Master commands.
  const NoCommand: byte := 0x00
  const Fallback: byte := 0x5A
  const DeviceStartup: byte := 0x97
  const DevicePdOutOperate: byte := 0x98
  const DeviceOperate: byte := 0x99
  const DevicePreoperate: byte := 0x9A

  datatype Mux = Mux(
    state: State,
    active: bool,
    trigger: Trigger,
    flag: bool,
    cmdState: CmdState,
    cmdActive: bool,
    code: Code,
    master: byte)

  /** Whom a trigger is passed on to, and what the command handler emits. */
  datatype Grant = ToIsdu(t: Trigger) | ToEvent(t: Trigger) | WriteCommand(master: byte) | CommandDone(master: byte)

  type Step = (Mux, seq<Grant>)

  function CmdStep(m: Mux): Step {
    match m.cmdState
    case CmdInactive => (if m.cmdActive then m.(cmdState := CmdIdle) else m, [])
    case CmdIdle =>
      if !m.cmdActive then (m.(cmdState := CmdInactive), [])
      else if m.code == PdOutValid then (m.(master := DevicePdOutOperate, cmdState := CmdReady), [])
      else if m.code == PdOutInvalid then (m.(master := DeviceOperate, cmdState := CmdReady), [])
      else if m.code == Devicemode then (m.(cmdState := CmdReady), [])
      else (m, [])
    case CmdReady => (m.(code := NoCode, cmdState := CmdIdle), [WriteCommand(m.master)])
  }

  /** A request for a master command: DL_Control with any of its codes, or
      DL_Write_Devicemode with the command it stands for. */
  datatype Post = Control(code: Code) | Mode(master: byte)

  /** A mode as DL_Write_Devicemode is given it. */
  datatype DlMode = ModeInactive | ModeStartup | ModePreoperate | ModeOperate | ModeUnknown

  /** The master command that leads a device to the mode. */
  function CommandFor(mode: DlMode): byte
    requires mode != ModeUnknown
  {
    match mode
    case ModeInactive => Fallback
    case ModeStartup => DeviceStartup
    case ModePreoperate => DevicePreoperate
    case ModeOperate => DeviceOperate
  }

  predicate Legal(p: Post) {
    p.Control? ==> p.code == PdOutValid || p.code == PdOutInvalid
  }

  function PostStep(m: Mux, p: Post): Step {
    match p
    case Control(code) =>
      // Other codes are answered with an error.
      if code == NoCode || code == Devicemode then (m, []) else CmdStep(m.(code := code))
    case Mode(master) => CmdStep(m.(master := master, code := Devicemode))
  }

  /** The master command a request stands for. */
  function CommandOf(p: Post): byte
    requires Legal(p)
  {
    match p
    case Control(code) => if code == PdOutValid then DevicePdOutOperate else DeviceOperate
    case Mode(master) => master
  }

  /** The command is over; mode changes are confirmed. */
  function CommandCnf(m: Mux): Step {
    (m.(master := 0),
     if m.master == DeviceOperate || m.master == DevicePreoperate || m.master == Fallback then [CommandDone(m.master)] else [])
  }

  function OdStep(m: Mux): Step {
    match m.state
    case Inactive => (if m.active then m.(state := IsduTurn) else m, [])
    case IsduTurn =>
      if !m.active then (m.(state := Inactive), [])
      else if m.code != NoCode && m.trigger == MasterMessage then
        (CmdStep(m).0.(state := CommandTurn), CmdStep(m).1)
      else if m.flag then (m.(state := EventTurn), [ToIsdu(m.trigger)])
      else if m.trigger != NoTrigger then (m.(trigger := NoTrigger), [ToIsdu(m.trigger)])
      else (m, [])
    case CommandTurn =>
      if !m.active then (m.(cmdState := CmdInactive), [])
      else if m.trigger != NoTrigger then
        var n := m.(trigger := NoTrigger);
        if m.code == NoCode then
          (CommandCnf(n).0.(state := if m.flag then EventTurn else IsduTurn), CommandCnf(n).1)
        else (n, [])
      else (m, [])
    case EventTurn =>
      if !m.active then (m.(state := Inactive), [])
      else if m.code != NoCode && m.trigger == MasterMessage then
        (CmdStep(m).0.(state := CommandTurn), CmdStep(m).1)
      else if !m.flag then (m.(state := IsduTurn), [])
      else if m.trigger != NoTrigger then (m.(trigger := NoTrigger), [ToEvent(m.trigger)])
      else (m, [])
  }

  function MasterStep(m: Mux): Step {
    OdStep(m.(trigger := MasterMessage))
  }

  /** The reply of the device, whose status carries the event flag. */
  function DeviceStep(m: Mux, flag: bool): Step {
    OdStep(m.(flag := flag, trigger := DeviceMessage))
  }

  // --- Rounds ----------------------------------------------------------------

  /** Between two rounds, with at most one command pending: event turns are those
      that begin with the event flag set. */
  predicate Inv(m: Mux) {
    && m.active && m.cmdActive && m.state == (if m.flag then EventTurn else IsduTurn)
    && (m.code == NoCode || m.code == PdOutValid || m.code == PdOutInvalid || m.code == Devicemode)
    && m.cmdState == (if m.code == NoCode then CmdIdle else CmdReady)
  }

  /** A round: perhaps a request for a command, the master's message, perhaps a
      request for a command, the device's reply. */
  datatype Round = Round(before: Option<Post>, between: Option<Post>, flag: bool, rx: seq<byte>)

  function Posted(m: Mux, p: Option<Post>): Step {
    if p.None? then (m, []) else PostStep(m, p.value)
  }

  function RoundStep(m: Mux, r: Round): Step {
    var a := Posted(m, r.before);
    var b := MasterStep(a.0);
    var c := Posted(b.0, r.between);
    var d := DeviceStep(c.0, r.flag);
    (d.0, a.1 + b.1 + c.1 + d.1)
  }

  /** Requests are legal, and made while no other command is pending. */
  predicate OneAtATime(m: Mux, r: Round) {
    && (r.before.Some? ==> Legal(r.before.value) && m.code == NoCode)
    && (r.between.Some? ==> Legal(r.between.value))
  }

  /** Whether the round writes a command. */
  predicate Commands(m: Mux, r: Round) {
    m.code != NoCode || r.before.Some?
  }

  /** Whether the round is the ISDU handler's. */
  predicate ServesIsdu(m: Mux, r: Round) {
    !Commands(m, r) && !m.flag
  }

  /** The command a round writes. */
  function Pending(m: Mux, before: Option<Post>): byte
    requires before.Some? ==> Legal(before.value)
  {
    if before.Some? then CommandOf(before.value) else m.master
  }

  lemma MasterServes(m: Mux, before: Option<Post>)
    requires Inv(m) && (before.Some? ==> Legal(before.value) && m.code == NoCode)
    ensures
      var (a, early) := Posted(m, before);
      var (b, grants) := MasterStep(a);
      && early == []
      && if m.code != NoCode || before.Some? then
           && b == m.(state := CommandTurn, trigger := MasterMessage, code := NoCode, cmdState := CmdIdle,
                      master := Pending(m, before))
           && grants == [WriteCommand(Pending(m, before))]
         else
           && b == m.(trigger := NoTrigger)
           && grants == if m.flag then [ToEvent(MasterMessage)] else [ToIsdu(MasterMessage)]
  {
  }

  function Confirmed(command: byte): seq<Grant> {
    if command == DeviceOperate || command == DevicePreoperate || command == Fallback then [CommandDone(command)] else []
  }

  /** A request while none is pending is noted. */
  lemma Noted(m: Mux, p: Post)
    requires m.cmdState == CmdIdle && m.cmdActive && Legal(p)
    ensures PostStep(m, p).1 == [] && PostStep(m, p).0.code != NoCode
    ensures PostStep(m, p).0 == m.(code := PostStep(m, p).0.code, cmdState := CmdReady, master := CommandOf(p))
    ensures PostStep(m, p).0.code in {PdOutValid, PdOutInvalid, Devicemode}
  {
  }

  /** Every round serves exactly one: the pending command, else the Event handler
      if the event flag was set when it began, else the ISDU handler, which then
      gets both messages. The Event handler gets the reply only while the flag stays. */
  lemma RoundServesOne(m: Mux, r: Round)
    requires Inv(m) && OneAtATime(m, r) && (Commands(m, r) ==> r.between.None?)
    ensures Inv(RoundStep(m, r).0) && RoundStep(m, r).0.flag == r.flag
    ensures RoundStep(m, r).1 ==
            if Commands(m, r) then [WriteCommand(Pending(m, r.before))] + Confirmed(Pending(m, r.before))
            else if m.flag then [ToEvent(MasterMessage)] + (if r.flag then [ToEvent(DeviceMessage)] else [])
            else [ToIsdu(MasterMessage), ToIsdu(DeviceMessage)]
    ensures RoundStep(m, r).0.code != NoCode <==> r.between.Some?
    ensures r.between.Some? ==> RoundStep(m, r).0.master == CommandOf(r.between.value)
  {
    MasterServes(m, r.before);
    var a := Posted(m, r.before);
    var b := MasterStep(a.0);
    if r.between.Some? {
      Noted(b.0, r.between.value);
    }
    var c := Posted(b.0, r.between);
    var d := DeviceStep(c.0, r.flag);
    assert a.1 + b.1 + c.1 + d.1 == b.1 + d.1;
  }

  /** A command was requested after another was written and before it was over. */
  predicate Starved(m: Mux) {
    m.active && m.state == CommandTurn && m.code != NoCode
  }

  /** A starved handler as the requests below leave it. */
  predicate Stuck(m: Mux) {
    && Starved(m) && m.cmdActive
    && (m.cmdState == CmdReady || (m.cmdState == CmdIdle && (m.code == Valid || m.code == Code.Invalid)))
  }

  /** The on-request data handler then serves nobody in a round without requests. */
  lemma StarvedServesNobody(m: Mux, flag: bool)
    requires Starved(m)
    ensures MasterStep(m).1 == [] && DeviceStep(MasterStep(m).0, flag).1 == []
    ensures Starved(DeviceStep(MasterStep(m).0, flag).0)
  {
  }

  /** With legal requests, one at a time, that is exactly what goes wrong: a round
      leaves the handler starved if and only if a command is requested between the
      two messages of a round that writes one. */
  lemma StarvedExactly(m: Mux, r: Round)
    requires Inv(m) && OneAtATime(m, r)
    ensures Starved(RoundStep(m, r).0) <==> Commands(m, r) && r.between.Some?
    ensures Starved(RoundStep(m, r).0) ==> Stuck(RoundStep(m, r).0)
    ensures Inv(RoundStep(m, r).0) <==> !(Commands(m, r) && r.between.Some?)
  {
    if Commands(m, r) && r.between.Some? {
      MasterServes(m, r.before);
      Noted(MasterStep(Posted(m, r.before).0).0, r.between.value);
    } else {
      RoundServesOne(m, r);
    }
  }

  /** The codes VALID and INVALID are accepted too, but no round with one of them
      ends in anything but starvation. */
  lemma ValidCodesStarve(m: Mux, r: Round)
    requires Inv(m) && m.code == NoCode && r.between.None?
    requires r.before == Some(Control(Valid)) || r.before == Some(Control(Code.Invalid))
    ensures Stuck(RoundStep(m, r).0) && RoundStep(m, r).0.cmdState == CmdIdle
  {
  }

  /** DL_Control refuses the other codes. */
  predicate Accepted(p: Post) {
    p.Control? ==> p.code != NoCode && p.code != Devicemode
  }

  predicate AllAccepted(r: Round) {
    (r.before.Some? ==> Accepted(r.before.value)) && (r.between.Some? ==> Accepted(r.between.value))
  }

  /** Whether the requests of a round free a handler that is stuck. Any request does,
      but after a code VALID or INVALID, which leaves the command handler idle, it
      takes one that leads to a command and then another. */
  predicate Frees(m: Mux, r: Round) {
    if m.cmdState == CmdReady then r.before.Some? || r.between.Some?
    else r.before.Some? && Legal(r.before.value) && r.between.Some?
  }

  lemma FreedExactly(m: Mux, r: Round)
    requires Stuck(m) && AllAccepted(r)
    ensures Stuck(RoundStep(m, r).0) <==> !Frees(m, r)
    ensures Frees(m, r) && (r.between.Some? ==> Legal(r.between.value)) ==> Inv(RoundStep(m, r).0)
  {
    if m.cmdState == CmdIdle {
      IdleFreedExactly(m, r);
    } else if r.before.Some? {
      FreedBefore(m, r);
    } else {
      FreedBetween(m, r);
    }
  }

  lemma IdleFreedExactly(m: Mux, r: Round)
    requires Stuck(m) && AllAccepted(r) && m.cmdState == CmdIdle
    ensures Stuck(RoundStep(m, r).0) <==> !Frees(m, r)
    ensures Frees(m, r) && (r.between.Some? ==> Legal(r.between.value)) ==> Inv(RoundStep(m, r).0)
  {
    var a := Posted(m, r.before).0;
    assert a.state == CommandTurn && a.code != NoCode && MasterStep(a).0 == a.(trigger := NoTrigger);
  }

  lemma FreedBefore(m: Mux, r: Round)
    requires Stuck(m) && AllAccepted(r) && m.cmdState == CmdReady && r.before.Some?
    ensures !Stuck(RoundStep(m, r).0)
    ensures (r.between.Some? ==> Legal(r.between.value)) ==> Inv(RoundStep(m, r).0)
  {
    var a := Posted(m, r.before).0;
    assert a.state == CommandTurn && a.code == NoCode && a.cmdState == CmdIdle;
    var b := MasterStep(a).0;
    assert b.state == (if m.flag then EventTurn else IsduTurn) && b.code == NoCode;
  }

  lemma FreedBetween(m: Mux, r: Round)
    requires Stuck(m) && AllAccepted(r) && m.cmdState == CmdReady && r.before.None?
    ensures Stuck(RoundStep(m, r).0) <==> r.between.None?
    ensures r.between.Some? ==> Inv(RoundStep(m, r).0)
  {
    assert MasterStep(m).0 == m.(trigger := NoTrigger);
  }

  /** Through any rounds, a handler stays stuck exactly as long as none frees it. */
  function Stay(m: Mux, rounds: seq<Round>): Mux {
    if rounds == [] then m else RoundStep(Stay(m, rounds[..|rounds| - 1]), rounds[|rounds| - 1]).0
  }

  predicate NoneFrees(m: Mux, rounds: seq<Round>) {
    rounds != [] ==>
      && NoneFrees(m, rounds[..|rounds| - 1])
      && !Frees(Stay(m, rounds[..|rounds| - 1]), rounds[|rounds| - 1])
  }

  lemma {:induction false} StuckWhileNoneFrees(m: Mux, rounds: seq<Round>)
    requires Stuck(m) && NoneFrees(m, rounds) && forall k :: 0 <= k < |rounds| ==> AllAccepted(rounds[k])
    ensures Stuck(Stay(m, rounds))
    decreases |rounds|
  {
    if rounds != [] {
      StuckWhileNoneFrees(m, rounds[..|rounds| - 1]);
      FreedExactly(Stay(m, rounds[..|rounds| - 1]), rounds[|rounds| - 1]);
    }
  }

  /** Were the event flag set on activation, the ISDU handler would get the
      master's message of the first round and the Event handler the reply. */
  lemma FlagOnActivation(m: Mux, r: Round)
    requires m.active && m.cmdActive && m.code == NoCode && m.cmdState == CmdIdle && m.state == IsduTurn && m.flag
    requires r.before.None? && r.between.None? && r.flag
    ensures RoundStep(m, r).1 == [ToIsdu(MasterMessage), ToEvent(DeviceMessage)]
  {
  }
}
