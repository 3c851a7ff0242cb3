/** The on-request data handler of a port in memory, in front of its ISDU handler,
    its Event handler and its command handler. */
module DataLink {
  import opened Bytes
  import opened DlTypes
  import opened OnRequest
  import opened IU = IsduUnit
  import opened EU = EventUnit
  import opened T = Transmitter
  import I = IsduHandler
  import E = EventHandler

  /** What DL_Write_Devicemode looks at: the state of the mode handler. */
  datatype ModeState = InStartup | InPreoperate | InOtherMode

  datatype ModeResult = Taken | StateInvalid | IncorrectData

  class DataLink {
    const isdu: IsduUnit
    const events: EventUnit
    const tx: Transmitter
    const rx: array<byte>
    var state: State
    var active: bool
    var trigger: Trigger
    var flag: bool
    var cmdState: CmdState
    var cmdActive: bool
    var code: Code
    var master: byte
    var comlost: bool
    var dataAddr: byte
    var dataValue: byte

    constructor (odLength: nat, pdLength: nat, mseq: byte)
      requires I.OdLength(odLength) && pdLength <= 32 && 2 + pdLength + odLength <= T.BufferSize
      ensures Valid() && View() == Mux(Inactive, false, NoTrigger, false, CmdInactive, false, NoCode, 0)
      ensures tx.odLen == odLength && isdu.View().state == I.Inactive && events.View().state == E.Inactive
    {
      isdu := new IsduUnit();
      events := new EventUnit();
      tx := new Transmitter(odLength, pdLength, mseq);
      rx := new byte[T.BufferSize](_ => 0);
      state, active, trigger, flag := Inactive, false, NoTrigger, false;
      cmdState, cmdActive, code, master := CmdInactive, false, NoCode, 0;
      comlost, dataAddr, dataValue := false, 0, 0;
    }

    ghost predicate Valid()
      reads this, isdu, isdu.data, events, events.events, tx, tx.buffer
    {
      && isdu.Valid() && events.Valid() && tx.Valid() && I.OdLength(tx.odLen) && rx.Length == T.BufferSize
      && isdu.data != tx.buffer && rx != tx.buffer && rx != isdu.data && dataAddr < 32
    }

    function View(): Mux
      reads this
    {
      Mux(state, active, trigger, flag, cmdState, cmdActive, code, master)
    }

    /** What the ISDU handler sees on trigger `t`. */
    function Env(t: Trigger, late: bool): I.Env
      requires tx.odLen <= rx.Length
      reads this, tx, rx
    {
      I.Env(t, comlost, late, tx.odLen, rx[..tx.odLen], dataAddr, dataValue)
    }

    /** The ISDU handler and the Event handler are as before. */
    twostate predicate Untouched()
      reads isdu, isdu.data, events, events.events
    {
      isdu.View() == old(isdu.View()) && events.View() == old(events.View())
    }

    /** The transmit buffer shows every on-request service among `outs`. */
    ghost predicate Shown(outs: seq<Out>)
      requires tx.Valid()
      reads tx, tx.buffer
    {
      forall o <- outs :: o.Od? ==> tx.Shows(o.req)
    }

    method CommandHandler() returns (outs: seq<Out>)
      requires Valid()
      modifies this`cmdState, this`code, this`master, tx`odTxLen, tx`odRxLen, tx.buffer
      ensures Valid() && View() == CmdStep(old(View())).0 && Untouched() && Shown(outs)
      ensures outs ==
              if old(cmdState) == CmdReady then [Od(OdReq(true, Page, 0, Pad([old(master)], tx.odLen)))] else []
    {
      outs := [];
      match cmdState
      case CmdInactive =>
        if cmdActive {
          cmdState := CmdIdle;
        }
      case CmdIdle =>
        if !cmdActive {
          cmdState := CmdInactive;
        } else if code == PdOutValid || code == PdOutInvalid {
          master := if code == PdOutValid then DevicePdOutOperate else DeviceOperate;
          cmdState := CmdReady;
        } else if code == Devicemode {
          cmdState := CmdReady;
        }
      case CmdReady =>
        var ok := tx.Request(true, Page, 0, [master]);
        outs := [Od(OdReq(true, Page, 0, Pad([master], tx.odLen)))];
        code, cmdState := NoCode, CmdIdle;
    }

    /** The write of the command `command`, if one is waiting to be sent. */
    function CommandWrite(waiting: bool, command: byte): seq<Out>
      reads this, tx
    {
      if waiting then [Od(OdReq(true, Page, 0, Pad([command], tx.odLen)))] else []
    }

    /** DL_Control_req; other codes are refused. A command that still waits is sent at
        once, and only then. */
    method ControlReq(c: Code) returns (ok: bool, outs: seq<Out>)
      requires Valid()
      modifies this`cmdState, this`code, this`master, tx`odTxLen, tx`odRxLen, tx.buffer
      ensures Valid() && Untouched() && Shown(outs)
      ensures ok == (c != NoCode && c != Devicemode)
      ensures outs == CommandWrite(ok && old(cmdState) == CmdReady, old(master))
      ensures View() == PostStep(old(View()), Control(c)).0
    {
      if c == NoCode || c == Devicemode {
        return false, [];
      }
      code := c;
      ok := true;
      outs := CommandHandler();
    }

    /** DL_Write_Devicemode_req: refused during startup and for an unknown mode, else
        the command for the mode is pending. A command that still waits is sent at once,
        with the new value; in preoperate, going inactive is confirmed at once, and for the other modes the
        message handler is woken. */
    method DevicemodeReq(mode: DlMode, handler: ModeState) returns (result: ModeResult, outs: seq<Out>, wake: bool)
      requires Valid()
      modifies this`cmdState, this`code, this`master, tx`odTxLen, tx`odRxLen, tx.buffer
      ensures Valid() && Untouched() && Shown(outs)
      ensures result == if handler == InStartup then StateInvalid else if mode == ModeUnknown then IncorrectData else Taken
      ensures wake == (result == Taken && handler == InPreoperate && mode != ModeInactive)
      ensures result != Taken ==> View() == old(View()) && outs == if handler == InStartup then [DevicemodeCnf(NoCommand, StateConflict)] else []
      ensures result == Taken ==>
                && View() == PostStep(old(View()), Mode(CommandFor(mode))).0
                && outs == CommandWrite(old(cmdState) == CmdReady, CommandFor(mode)) +
                           (if handler == InPreoperate && mode == ModeInactive then [DevicemodeCnf(Fallback, NoError)] else [])
    {
      if handler == InStartup {
        return StateInvalid, [DevicemodeCnf(NoCommand, StateConflict)], false;
      }
      if mode == ModeUnknown {
        return IncorrectData, [], false;
      }
      master, code := CommandFor(mode), Devicemode;
      outs := CommandHandler();
      result, wake := Taken, handler == InPreoperate && mode != ModeInactive;
      if handler == InPreoperate && mode == ModeInactive {
        outs := outs + [DevicemodeCnf(Fallback, NoError)];
      }
    }

    /** The command is over. */
    method WriteMasterCommand() returns (outs: seq<Out>)
      modifies this`master
      ensures View() == CommandCnf(old(View())).0
      ensures outs == if CommandCnf(old(View())).1 == [] then [] else [DevicemodeCnf(old(master), NoError)]
    {
      var command := master;
      master := 0;
      outs := if command == DeviceOperate || command == DevicePreoperate || command == Fallback
              then [DevicemodeCnf(command, NoError)] else [];
    }

    /** The services `outs` are those of whoever was granted the message. */
    twostate predicate Served(outs: seq<Out>, grants: seq<Grant>, e: I.Env)
      requires old(I.Fits(isdu.View(), e)) && old(events.Valid()) && |e.rx| > 0
      reads isdu, isdu.data, events, events.events
    {
      if grants == [] then outs == [] && Untouched()
      else match grants[0]
        case ToIsdu(t) =>
          && t == e.trigger && events.View() == old(events.View())
          && (isdu.View(), outs) == I.HandlerStep(old(isdu.View()), e)
        case ToEvent(t) =>
          && t == e.trigger && isdu.View() == old(isdu.View())
          && (events.View(), outs) == E.HandlerStep(old(events.View()), t, e.comlost, e.odLen, e.rx[0])
        case WriteCommand(m) => outs == [Od(OdReq(true, Page, 0, Pad([m], e.odLen)))] && Untouched()
        case CommandDone(m) => outs == [DevicemodeCnf(m, NoError)] && Untouched()
    }

    method RunIsdu(e: I.Env) returns (outs: seq<Out>)
      requires Valid() && I.Fits(isdu.View(), e) && e.odLen == tx.odLen
      modifies isdu, isdu.data, tx`odTxLen, tx`odRxLen, tx.buffer
      ensures Valid() && events.View() == old(events.View()) && Shown(outs)
      ensures (isdu.View(), outs) == I.HandlerStep(old(isdu.View()), e)
    {
      outs := isdu.Step(e, tx);
    }

    method RunEvents(e: I.Env) returns (outs: seq<Out>)
      requires Valid() && |e.rx| > 0 && e.odLen == tx.odLen
      modifies events, events.events, tx`odTxLen, tx`odRxLen, tx.buffer
      ensures Valid() && isdu.View() == old(isdu.View()) && Shown(outs)
      ensures (events.View(), outs) == E.HandlerStep(old(events.View()), e.trigger, e.comlost, e.odLen, e.rx[0])
    {
      outs := events.Step(e.trigger, e.comlost, e.rx[0], tx);
    }

    /** A pending command takes the master's message. */
    method StartCommand(ghost e: I.Env) returns (outs: seq<Out>)
      requires Valid() && active && code != NoCode && trigger == MasterMessage && (state == IsduTurn || state == EventTurn)
      requires I.Fits(isdu.View(), e) && e.odLen == tx.odLen
      modifies this`state, this`cmdState, this`code, this`master, tx`odTxLen, tx`odRxLen, tx.buffer
      ensures Valid() && View() == OdStep(old(View())).0 && Shown(outs)
      ensures Served(outs, OdStep(old(View())).1, e)
    {
      outs := CommandHandler();
      state := CommandTurn;
    }

    method IsduTurnStep(e: I.Env) returns (outs: seq<Out>)
      requires Valid() && state == IsduTurn && I.Fits(isdu.View(), e) && e.odLen == tx.odLen && e.trigger == trigger
      modifies this`state, this`trigger, this`cmdState, this`code, this`master,
               isdu, isdu.data, tx`odTxLen, tx`odRxLen, tx.buffer
      ensures Valid() && View() == OdStep(old(View())).0 && Shown(outs)
      ensures Served(outs, OdStep(old(View())).1, e)
    {
      outs := [];
      if !active {
        state := Inactive;
      } else if code != NoCode && trigger == MasterMessage {
        outs := StartCommand(e);
      } else if flag {
        outs := RunIsdu(e);
        state := EventTurn;
      } else if trigger != NoTrigger {
        outs := RunIsdu(e);
        trigger := NoTrigger;
      }
    }

    method CommandTurnStep(ghost e: I.Env) returns (outs: seq<Out>)
      requires Valid() && state == CommandTurn && I.Fits(isdu.View(), e)
      modifies this`state, this`trigger, this`cmdState, this`master
      ensures Valid() && View() == OdStep(old(View())).0 && Shown(outs)
      ensures Served(outs, OdStep(old(View())).1, e)
    {
      outs := [];
      if !active {
        cmdState := CmdInactive;
      } else if trigger != NoTrigger {
        trigger := NoTrigger;
        if code == NoCode {
          outs := WriteMasterCommand();
          state := if flag then EventTurn else IsduTurn;
        }
      }
    }

    method EventTurnStep(e: I.Env) returns (outs: seq<Out>)
      requires Valid() && state == EventTurn && I.Fits(isdu.View(), e) && e.odLen == tx.odLen && e.trigger == trigger
      modifies this`state, this`trigger, this`cmdState, this`code, this`master,
               events, events.events, tx`odTxLen, tx`odRxLen, tx.buffer
      ensures Valid() && View() == OdStep(old(View())).0 && Shown(outs)
      ensures Served(outs, OdStep(old(View())).1, e)
    {
      outs := [];
      if !active {
        state := Inactive;
      } else if code != NoCode && trigger == MasterMessage {
        outs := StartCommand(e);
      } else if !flag {
        state := IsduTurn;
      } else if trigger != NoTrigger {
        outs := RunEvents(e);
        trigger := NoTrigger;
      }
    }

    /** One step of the on-request data handler; `late`: the response time is up. */
    method Step(late: bool) returns (outs: seq<Out>)
      requires Valid() && I.Fits(isdu.View(), Env(trigger, late))
      modifies this`state, this`trigger, this`cmdState, this`code, this`master,
               isdu, isdu.data, events, events.events, tx`odTxLen, tx`odRxLen, tx.buffer
      ensures Valid() && View() == OdStep(old(View())).0 && Shown(outs)
      ensures Served(outs, OdStep(old(View())).1, old(Env(trigger, late)))
    {
      outs := [];
      match state
      case Inactive =>
        if active {
          state := IsduTurn;
        }
      case IsduTurn => outs := IsduTurnStep(Env(trigger, late));
      case CommandTurn => outs := CommandTurnStep(Env(trigger, late));
      case EventTurn => outs := EventTurnStep(Env(trigger, late));
    }
  }
}
