/** System Management as it stands in memory: parameters are noted one by one as
    they are read, and every confirmation leads to the next request. */
module SystemManagementUnit {
  import opened Bytes
  import opened SystemManagement
  import X = SystemManagementExchange

  class SystemManagementUnit {
    var state: State
    var config: Config
    var com1: bool
    var retry: nat
    var addr: byte
    var error: Fault
    var minCycle: byte
    var mseqCap: byte
    var revision: byte
    var pdIn: byte
    var pdOut: byte
    var cycle: byte
    var vendor: nat
    var device: nat
    var functionId: nat

    function View(): Sm
      reads this
    {
      Sm(state, config, com1, retry, addr, error,
         Real(minCycle, mseqCap, revision, pdIn, pdOut, cycle, vendor, device, functionId))
    }

    constructor (c: Config)
      ensures state == PortInactive && config == c && addr == DummyWurq && error == NoFault && retry == 0
    {
      state, config, com1, retry, addr, error := PortInactive, c, false, 0, DummyWurq, NoFault;
      minCycle, mseqCap, revision, pdIn, pdOut, cycle := 0, 0, 0, 0, 0, 0;
      vendor, device, functionId := 0, 0, 0;
    }

    method ReadReq(a: byte) returns (outs: seq<Out>)
      modifies this`addr
      ensures (View(), outs) == Read(old(View()), a)
    {
      addr := a;
      outs := [DlRead(a)];
    }

    method WriteReq(a: byte, value: byte) returns (outs: seq<Out>)
      modifies this`addr
      ensures (View(), outs) == Write(old(View()), a, value)
    {
      addr := a;
      outs := [DlWrite(a, value)];
    }

    /** Stores the value just read. */
    method Note(v: byte)
      modifies this`minCycle, this`cycle, this`mseqCap, this`revision, this`pdIn, this`pdOut, this`vendor, this`device,
               this`functionId
      ensures View() == Noted(old(View()), v)
    {
      match addr
      case 0x02 =>
        var floor: byte := if com1 then 92 else 79;
        cycle := if v < floor then floor else v;
        minCycle := v;
      case 0x03 => mseqCap := v;
      case 0x04 => revision := v;
      case 0x05 => pdIn := v;
      case 0x06 => pdOut := v;
      case 0x07 => vendor := 0x100 * v;
      case 0x08 => vendor := vendor + v;
      case 0x09 => device := 0x1_0000 * v;
      case 0x0A => device := device + 0x100 * v;
      case 0x0B => device := device + v;
      case 0x0C => functionId := 0x100 * v;
      case 0x0D => functionId := functionId + v;
      case _ =>
    }

    method Report(f: Fault) returns (outs: seq<Out>)
      modifies this`state, this`error, this`addr
      ensures (View(), outs) == Inspect(old(View()), f)
    {
      error, state := f, InspectionFault;
      outs := WriteReq(MasterCmd, DevicePreoperate);
    }

    method RestartDevice() returns (outs: seq<Out>)
      modifies this`state, this`retry, this`addr
      ensures (View(), outs) == Restart(old(View()))
    {
      state, retry := Restarting, retry + 1;
      outs := WriteReq(RevisionId, config.revision);
    }

    method DoCheckCompV10() returns (outs: seq<Out>)
      modifies this`state, this`error, this`addr
      ensures (View(), outs) == CheckV10(old(View()))
    {
      if config.cycle != 0 && config.cycle < cycle {
        state, error := InspectionFault, CycleV10;
        outs := [PortFault(CycleV10), SetMode(DlInactive)];
      } else if config.inspection == NoCheck || (config.vendor == vendor && config.device == device) {
        state := WaitOperate;
        outs := WriteReq(MasterCycle, cycle);
      } else {
        state, error := InspectionFault, CompV10;
        outs := [PortFault(CompV10), SetMode(DlOperate)];
      }
    }

    method DoCheckComp() returns (outs: seq<Out>)
      modifies this`state, this`error, this`addr, this`retry
      ensures (View(), outs) == Check(old(View()))
    {
      if config.cycle != 0 && config.cycle < cycle {
        outs := Report(Cycle);
      } else if config.inspection == NoCheck {
        state := WaitPreoperate;
        outs := WriteReq(MasterCmd, DevicePreoperate);
      } else if config.vendor != vendor {
        outs := Report(Comp);
      } else if config.device == device {
        state := WaitPreoperate;
        outs := WriteReq(MasterCmd, DevicePreoperate);
      } else if retry == 0 {
        outs := RestartDevice();
      } else {
        outs := Report(Comp);
      }
    }

    /** sm_DL_Read_cnf_cb without error. */
    method ReadConfirmed(v: byte) returns (outs: seq<Out>)
      requires Reads(View())
      modifies this
      ensures (View(), outs) == ReadCnf(old(View()), v)
    {
      var a := addr;
      Note(v);
      if state == ReadCom {
        if a != PdOut {
          outs := ReadReq(a + 1);
        } else if revision == RevisionV10 {
          state := CheckCompV10;
          outs := ReadReq(Vendor1);
        } else {
          state := CheckVxy;
          outs := WriteReq(MasterCmd, MasterIdent);
        }
      } else if state == Restarting {
        state := ReadCom;
        outs := ReadReq(MinCycle);
      } else if a != Function2 {
        outs := ReadReq(a + 1);
      } else if state == CheckCompV10 {
        outs := DoCheckCompV10();
      } else {
        outs := DoCheckComp();
      }
    }

    method RestartConfirmed() returns (outs: seq<Out>)
      modifies this`addr
      ensures (View(), outs) == RestartCnf(old(View()))
    {
      outs := [];
      match addr
      case 0x04 =>
        if config.mode == CfgCom {
          outs := WriteReq(Device1, config.device / 0x1_0000 % 0x100);
        } else {
          outs := WriteReq(MasterCmd, DeviceIdent);
        }
      case 0x09 => outs := WriteReq(Device2, config.device / 0x100 % 0x100);
      case 0x0A => outs := WriteReq(Device3, config.device % 0x100);
      case 0x0B => outs := WriteReq(MasterCmd, DeviceIdent);
      case 0x00 => outs := ReadReq(MinCycle);
      case _ =>
    }

    /** sm_DL_Write_cnf_cb without error. */
    method WriteConfirmed() returns (outs: seq<Out>)
      requires Writes(View())
      modifies this
      ensures (View(), outs) == WriteCnf(old(View()))
    {
      outs := [];
      match state
      case WaitPreoperate => outs := [SetMode(DlPreoperate)];
      case InspectionFault =>
        if error == Revision || error == Comp || error == Cycle {
          outs := [PortFault(error), SetMode(DlPreoperate)];
        }
      case CheckVxy =>
        if config.revision == 0 || config.revision == revision {
          state := CheckComp;
          outs := ReadReq(Vendor1);
        } else if retry == 0 {
          outs := RestartDevice();
        } else {
          outs := Report(Revision);
        }
      case Restarting => outs := RestartConfirmed();
      case WaitOperate =>
        if addr == MasterCycle {
          outs := WriteReq(MasterCmd, DeviceOperate);
        } else if addr == MasterCmd {
          outs := [SetMode(DlOperate)];
        }
    }

    /** A confirmation with an error. */
    method Failed() returns (outs: seq<Out>)
      modifies this`state
      ensures (View(), outs) == ErrorCnf(old(View()))
    {
      outs := [];
      if state != PortInactive && state != InspectionFault {
        if state != Restarting {
          state := PortInactive;
        }
        outs := [SetMode(DlInactive), ComLost];
      }
    }

    /** DL_Mode STARTUP. */
    method Startup() returns (outs: seq<Out>)
      modifies this`state, this`retry, this`addr
      ensures (View(), outs) == Begin(old(View()))
    {
      state, retry := ReadCom, 0;
      outs := ReadReq(MinCycle);
    }

    /** One confirmation of the pending request by a device with the page `p`. */
    method Confirmed(pending: Out, ghost p1: Page, ghost p2: Page, p: Page) returns (next: Out)
      requires Faithful(System(View(), pending), p1, p2) && !Settled(View()) && p == Shown(System(View(), pending), p1, p2)
      modifies this
      ensures Faithful(System(View(), next), p1, p2)
      ensures Measure(System(View(), next)) < old(Measure(System(View(), pending)))
      ensures config == old(config) && com1 == old(com1)
    {
      ghost var y := System(View(), pending);
      Progress(y, p);
      NextFaithful(y, p1, p2);
      var outs;
      if pending.DlRead? {
        outs := ReadConfirmed(p[addr]);
      } else {
        outs := WriteConfirmed();
      }
      next := if outs == [] then pending else outs[0];
      assert System(View(), next) == Next(y, p);
    }

    /** A whole startup with a device that shows the page `p1`, and `p2` after a
        restart: `n` confirmations until it has settled. */
    method RunStartup(p1: Page, p2: Page) returns (n: nat)
      modifies this
      ensures n <= 32 && retry <= 1 && Settled(View())
      ensures retry == 1 <==> Judge(config, com1, p1, true) == Again
      ensures Judged(View(), if retry == 1 then p2 else p1, retry == 0)
      ensures config == old(config) && com1 == old(com1)
    {
      var outs := Startup();
      var pending := outs[0];
      n := 0;
      while !Settled(View())
        invariant Faithful(System(View(), pending), p1, p2)
        invariant n + Measure(System(View(), pending)) <= 32
        invariant config == old(config) && com1 == old(com1)
        decreases Measure(System(View(), pending))
      {
        pending := Confirmed(pending, p1, p2, if retry == 0 then p1 else p2);
        n := n + 1;
      }
    }

    /** What is still to be said after `before`, in at most `n` confirmations. */
    ghost predicate Continues(expected: seq<Out>, before: seq<Out>, outs: seq<Out>, p1: Page, p2: Page, n: nat)
      reads this
    {
      expected == before + X.Talk((View(), outs), p1, p2, n).1
    }

    /** One confirmation. */
    method TalkOnce(outs: seq<Out>, p1: Page, p2: Page, ghost n: nat, ghost before: seq<Out>, ghost expected: seq<Out>)
      returns (next: seq<Out>)
      requires n > 0 && X.Asks(outs) && Continues(expected, before, outs, p1, p2, n)
      modifies this
      ensures Continues(expected, before + outs, next, p1, p2, n - 1)
    {
      X.TalkNext((View(), outs), p1, p2, n, before);
      next := Answered(outs[0], if retry == 0 then p1 else p2);
    }

    /** The request that begins a startup, and what is to follow it. */
    method StartExchange(ghost p1: Page, ghost p2: Page) returns (outs: seq<Out>, ghost expected: seq<Out>)
      modifies this
      ensures expected == X.Exchange(old(config), old(com1), p1, p2)
      ensures Continues(expected, [], outs, p1, p2, 34)
    {
      expected := X.Exchange(config, com1, p1, p2);
      X.BeginsExchange(View(), p1, p2);
      outs := Startup();
    }

    /** The end, when nothing more is asked. */
    ghost method EndExchange(outs: seq<Out>, p1: Page, p2: Page, n: nat, before: seq<Out>, expected: seq<Out>)
      requires Continues(expected, before, outs, p1, p2, n) && (n == 0 || !X.Asks(outs))
      ensures before + outs == expected
    {
      X.TalkOver((View(), outs), p1, p2, n);
    }

    /** The same startup with all that is emitted: every read and write, the fault, and
        the mode that is requested at the end. */
    method RunExchange(p1: Page, p2: Page) returns (all: seq<Out>)
      modifies this
      ensures all == X.Exchange(old(config), old(com1), p1, p2)
    {
      var outs, expected := StartExchange(p1, p2);
      var n: nat := 34;
      all := [];
      while n > 0 && X.Asks(outs)
        invariant Continues(expected, all, outs, p1, p2, n)
      {
        var sent := outs;
        outs := TalkOnce(sent, p1, p2, n, all, expected);
        all, n := all + sent, n - 1;
      }
      EndExchange(outs, p1, p2, n, all, expected);
      all := all + outs;
    }

    /** A request is answered without error, a read with the byte of the page. */
    method Answered(request: Out, p: Page) returns (outs: seq<Out>)
      modifies this
      ensures (View(), outs) == X.Answer(old(View()), request, p)
    {
      outs := [];
      if request.DlRead? && Reads(View()) {
        outs := ReadConfirmed(p[addr]);
      } else if request.DlWrite? && Writes(View()) {
        outs := WriteConfirmed();
      }
    }
  }
}
