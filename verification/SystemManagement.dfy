/** Port startup in System Management: reading the communication parameters of a
    device, checking revision and identity, one restart, and the verdict
    (section 9.2.3 of the IO-Link Interface Specification v1.1.3). */
module SystemManagement {
  import opened Bytes

  datatype State =
    | PortInactive | ReadCom | CheckCompV10 | CheckVxy | CheckComp | Restarting
    | WaitPreoperate | WaitOperate | InspectionFault

  datatype Fault = NoFault | CompV10 | Revision | Comp | Cycle | CycleV10

  datatype Mode = CfgCom | AutoCom

  datatype Inspection = NoCheck | TypeComp | Identical

  /** What a port is configured for; 0 leaves revision and cycle time open. */
  datatype Config = Config(mode: Mode, revision: byte, vendor: nat, device: nat, cycle: byte, inspection: Inspection)

  /** What has been read off the device. */
  datatype Real = Real(
    minCycle: byte, mseqCap: byte, revision: byte, pdIn: byte, pdOut: byte, cycle: byte,
    vendor: nat, device: nat, functionId: nat)

  datatype Sm = Sm(state: State, config: Config, com1: bool, retry: nat, addr: byte, error: Fault, found: Real)

  datatype DlMode = DlInactive | DlPreoperate | DlOperate

  datatype Out = DlRead(addr: byte) | DlWrite(addr: byte, value: byte) | SetMode(mode: DlMode) | PortFault(fault: Fault) | ComLost

  type Step = (Sm, seq<Out>)

  // Addresses of the direct parameter page.
  const MasterCmd: byte := 0x00
  const MasterCycle: byte := 0x01
  const MinCycle: byte := 0x02
  const MSeqCap: byte := 0x03
  const RevisionId: byte := 0x04
  const PdIn: byte := 0x05
  const PdOut: byte := 0x06
  const Vendor1: byte := 0x07
  const Vendor2: byte := 0x08
  const Device1: byte := 0x09
  const Device2: byte := 0x0A
  const Device3: byte := 0x0B
  const Function1: byte := 0x0C
  const Function2: byte := 0x0D
  const DummyWurq: byte := 0xFF

  // Master commands.
  const MasterIdent: byte := 0x95
  const DeviceIdent: byte := 0x96
  const DeviceOperate: byte := 0x99
  const DevicePreoperate: byte := 0x9A

  const RevisionV10: byte := 0x10

  /** Shortest cycle time for the transmission rate. */
  function Floor(com1: bool): byte {
    if com1 then 92 else 79
  }

  function CycleTime(value: byte, com1: bool): byte {
    if value < Floor(com1) then Floor(com1) else value
  }

  function Read(s: Sm, addr: byte): Step {
    (s.(addr := addr), [DlRead(addr)])
  }

  function Write(s: Sm, addr: byte, value: byte): Step {
    (s.(addr := addr), [DlWrite(addr, value)])
  }

  /** The value read from `s.addr`. The high byte of an identifier is read first
      and clears the rest. */
  function Noted(s: Sm, v: byte): Sm {
    var r := s.found;
    match s.addr
    case 0x02 => s.(found := r.(minCycle := v, cycle := CycleTime(v, s.com1)))
    case 0x03 => s.(found := r.(mseqCap := v))
    case 0x04 => s.(found := r.(revision := v))
    case 0x05 => s.(found := r.(pdIn := v))
    case 0x06 => s.(found := r.(pdOut := v))
    case 0x07 => s.(found := r.(vendor := 0x100 * v))
    case 0x08 => s.(found := r.(vendor := r.vendor + v))
    case 0x09 => s.(found := r.(device := 0x1_0000 * v))
    case 0x0A => s.(found := r.(device := r.device + 0x100 * v))
    case 0x0B => s.(found := r.(device := r.device + v))
    case 0x0C => s.(found := r.(functionId := 0x100 * v))
    case 0x0D => s.(found := r.(functionId := r.functionId + v))
    case _ => s
  }

  /** A fault that is reported once the device has been sent to preoperate. */
  function Inspect(s: Sm, f: Fault): Step {
    Write(s.(state := InspectionFault, error := f), MasterCmd, DevicePreoperate)
  }

  function Restart(s: Sm): Step {
    Write(s.(state := Restarting, retry := s.retry + 1), RevisionId, s.config.revision)
  }

  predicate TooFast(s: Sm) {
    s.config.cycle != 0 && s.config.cycle < s.found.cycle
  }

  function CheckV10(s: Sm): Step {
    if TooFast(s) then (s.(state := InspectionFault, error := CycleV10), [PortFault(CycleV10), SetMode(DlInactive)])
    else if s.config.inspection == NoCheck || (s.config.vendor == s.found.vendor && s.config.device == s.found.device) then
      Write(s.(state := WaitOperate), MasterCycle, s.found.cycle)
    else (s.(state := InspectionFault, error := CompV10), [PortFault(CompV10), SetMode(DlOperate)])
  }

  function Check(s: Sm): Step {
    if TooFast(s) then Inspect(s, Cycle)
    else if s.config.inspection == NoCheck then Write(s.(state := WaitPreoperate), MasterCmd, DevicePreoperate)
    else if s.config.vendor != s.found.vendor then Inspect(s, Comp)
    else if s.config.device == s.found.device then Write(s.(state := WaitPreoperate), MasterCmd, DevicePreoperate)
    else if s.retry == 0 then Restart(s)
    else Inspect(s, Comp)
  }

  function CheckRevision(s: Sm): Step {
    if s.config.revision == 0 || s.config.revision == s.found.revision then Read(s.(state := CheckComp), Vendor1)
    else if s.retry == 0 then Restart(s)
    else Inspect(s, Revision)
  }

  /** States in which a read may be confirmed. */
  predicate Reads(s: Sm) {
    s.state in {ReadCom, CheckCompV10, CheckComp, Restarting} && MinCycle <= s.addr <= Function2
  }

  /** DL_Read_cnf without error. */
  function ReadCnf(s: Sm, v: byte): Step
    requires Reads(s)
  {
    var t := Noted(s, v);
    match s.state
    case ReadCom =>
      if s.addr != PdOut then Read(t, s.addr + 1)
      else if t.found.revision == RevisionV10 then Read(t.(state := CheckCompV10), Vendor1)
      else Write(t.(state := CheckVxy), MasterCmd, MasterIdent)
    case Restarting => Read(t.(state := ReadCom), MinCycle)
    case _ =>
      if s.addr != Function2 then Read(t, s.addr + 1)
      else if s.state == CheckCompV10 then CheckV10(t)
      else Check(t)
  }

  function RestartCnf(s: Sm): Step {
    match s.addr
    case 0x04 =>
      if s.config.mode == CfgCom then Write(s, Device1, s.config.device / 0x1_0000 % 0x100)
      else Write(s, MasterCmd, DeviceIdent)
    case 0x09 => Write(s, Device2, s.config.device / 0x100 % 0x100)
    case 0x0A => Write(s, Device3, s.config.device % 0x100)
    case 0x0B => Write(s, MasterCmd, DeviceIdent)
    case 0x00 => Read(s, MinCycle)
    case _ => (s, [])
  }

  /** States in which a write may be confirmed. */
  predicate Writes(s: Sm) {
    s.state in {WaitPreoperate, InspectionFault, CheckVxy, Restarting, WaitOperate}
  }

  /** DL_Write_cnf without error. */
  function WriteCnf(s: Sm): Step
    requires Writes(s)
  {
    match s.state
    case WaitPreoperate => (s, [SetMode(DlPreoperate)])
    case InspectionFault =>
      if s.error == Revision || s.error == Comp || s.error == Cycle then (s, [PortFault(s.error), SetMode(DlPreoperate)])
      else (s, [])
    case CheckVxy => CheckRevision(s)
    case Restarting => RestartCnf(s)
    case WaitOperate =>
      if s.addr == MasterCycle then Write(s, MasterCmd, DeviceOperate)
      else if s.addr == MasterCmd then (s, [SetMode(DlOperate)])
      else (s, [])
  }

  /** A confirmation with an error. */
  function ErrorCnf(s: Sm): Step {
    match s.state
    case PortInactive => (s, [])
    case InspectionFault => (s, [])
    case Restarting => (s, [SetMode(DlInactive), ComLost])
    case _ => (s.(state := PortInactive), [SetMode(DlInactive), ComLost])
  }

  /** DL_Mode STARTUP. */
  function Begin(s: Sm): Step {
    Read(s.(state := ReadCom, retry := 0), MinCycle)
  }

  /** An error during startup leads back to an inactive port, but for one: a device
      that is being restarted keeps the port in restart, though communication is
      reported lost and the data link layer is stopped. */
  lemma ErrorsEndStartup(s: Sm)
    requires s.state in {ReadCom, CheckCompV10, CheckVxy, CheckComp, Restarting, WaitPreoperate, WaitOperate}
    ensures ErrorCnf(s).1 == [SetMode(DlInactive), ComLost]
    ensures ErrorCnf(s).0.state == PortInactive <==> s.state != Restarting
    ensures s.state == Restarting ==> ErrorCnf(s).0 == s
  {
  }

  // --- Whole startups ------------------------------------------------------------

  /** The direct parameter page of a device. */
  type Page = p: seq<byte> | |p| == 16 witness Zeros(16)

  datatype System = System(s: Sm, pending: Out)

  predicate Settled(s: Sm) {
    s.state in {WaitPreoperate, WaitOperate, InspectionFault}
  }

  /** What the pending request is, in each state of startup. */
  predicate Consistent(y: System) {
    match y.s.state
    case ReadCom => y.pending == DlRead(y.s.addr) && MinCycle <= y.s.addr <= PdOut
    case CheckCompV10 => y.pending == DlRead(y.s.addr) && Vendor1 <= y.s.addr <= Function2
    case CheckComp => y.pending == DlRead(y.s.addr) && Vendor1 <= y.s.addr <= Function2
    case CheckVxy => y.pending == DlWrite(MasterCmd, MasterIdent)
    case Restarting =>
      && (y.pending.DlRead? || y.pending.DlWrite?) && y.pending.addr == y.s.addr
      && if y.pending.DlRead? then y.s.addr == MinCycle
         else y.s.addr in {RevisionId, MasterCmd} || (y.s.addr in {Device1, Device2, Device3} && y.s.config.mode == CfgCom)
    case PortInactive => false
    case _ => true
  }

  /** Confirmations without error that startup takes at most from here. */
  function Measure(y: System): nat {
    var again := if y.s.retry == 0 then 19 else 0;
    match y.s.state
    case ReadCom => if y.s.addr <= PdOut then 15 - y.s.addr + again else 0
    case CheckVxy => 8 + again
    case CheckComp => if y.s.addr <= Function2 then 14 - y.s.addr + again else 0
    case CheckCompV10 => if y.s.addr <= Function2 then 14 - y.s.addr else 0
    case Restarting =>
      13 + (if y.pending.DlRead? then 1
            else match y.s.addr
              case 0x00 => 2
              case 0x0B => 3
              case 0x0A => 4
              case 0x09 => 5
              case _ => 6)
    case _ => 0
  }

  /** The device answers the pending request: reads from `page`. */
  function Confirm(y: System, page: Page): Step
    requires Consistent(y) && !Settled(y.s)
  {
    if y.pending.DlRead? then ReadCnf(y.s, page[y.s.addr]) else WriteCnf(y.s)
  }

  function Next(y: System, page: Page): System
    requires Consistent(y) && !Settled(y.s)
  {
    var (s, outs) := Confirm(y, page);
    System(s, if outs == [] then y.pending else outs[0])
  }

  predicate Underway(y: System) {
    && Consistent(y) && y.s.retry <= 1 && (y.s.state == Restarting ==> y.s.retry == 1)
  }

  lemma ReadProgress(y: System, page: Page)
    requires Underway(y) && !Settled(y.s) && y.pending.DlRead? && y.s.addr != Function2
    ensures Underway(Next(y, page)) && Measure(Next(y, page)) < Measure(y)
    ensures Next(y, page).s.config == y.s.config && Next(y, page).s.com1 == y.s.com1
  {
  }

  lemma LastReadProgress(y: System, page: Page)
    requires Underway(y) && !Settled(y.s) && y.pending.DlRead? && y.s.addr == Function2
    ensures Underway(Next(y, page)) && Measure(Next(y, page)) < Measure(y)
    ensures Next(y, page).s.config == y.s.config && Next(y, page).s.com1 == y.s.com1
  {
  }

  lemma WriteProgress(y: System, page: Page)
    requires Underway(y) && !Settled(y.s) && !y.pending.DlRead?
    ensures Underway(Next(y, page)) && Measure(Next(y, page)) < Measure(y)
    ensures Next(y, page).s.config == y.s.config && Next(y, page).s.com1 == y.s.com1
  {
  }

  /** Every confirmation brings startup nearer its end, whatever was read. */
  lemma Progress(y: System, page: Page)
    requires Underway(y) && !Settled(y.s)
    ensures Underway(Next(y, page)) && Measure(Next(y, page)) < Measure(y)
    ensures Next(y, page).s.config == y.s.config && Next(y, page).s.com1 == y.s.com1
  {
    if y.pending.DlRead? && y.s.addr == Function2 {
      LastReadProgress(y, page);
    } else if y.pending.DlRead? {
      ReadProgress(y, page);
    } else {
      WriteProgress(y, page);
    }
  }

  /** The page the device shows: it may show another one after a restart. */
  function Shown(y: System, p1: Page, p2: Page): Page {
    if y.s.retry == 0 then p1 else p2
  }

  /** Confirmations until startup has settled, and how many. */
  function Play(y: System, p1: Page, p2: Page): (System, nat)
    requires Underway(y)
    decreases Measure(y)
  {
    if Settled(y.s) then (y, 0)
    else
      Progress(y, Shown(y, p1, p2));
      var rest := Play(Next(y, Shown(y, p1, p2)), p1, p2);
      (rest.0, rest.1 + 1)
  }

  function VendorOf(p: Page): nat {
    BigEndian16(p[Vendor1], p[Vendor2])
  }

  function DeviceOf(p: Page): nat {
    0x100 * BigEndian16(p[Device1], p[Device2]) + p[Device3]
  }

  /** How a device is judged, by its page alone; `first`: it was not restarted. */
  datatype Verdict = Again | Ends(state: State, fault: Fault)

  function Judge(c: Config, com1: bool, p: Page, first: bool): Verdict {
    var fast := c.cycle != 0 && c.cycle < CycleTime(p[MinCycle], com1);
    var same := c.vendor == VendorOf(p) && c.device == DeviceOf(p);
    if p[RevisionId] == RevisionV10 then
      if fast then Ends(InspectionFault, CycleV10)
      else if c.inspection == NoCheck || same then Ends(WaitOperate, NoFault)
      else Ends(InspectionFault, CompV10)
    else if c.revision != 0 && c.revision != p[RevisionId] then
      if first then Again else Ends(InspectionFault, Revision)
    else if fast then Ends(InspectionFault, Cycle)
    else if c.inspection == NoCheck || same then Ends(WaitPreoperate, NoFault)
    else if c.vendor == VendorOf(p) && first then Again
    else Ends(InspectionFault, Comp)
  }

  /** The page has been read up to the address that is asked for. */
  predicate Tracks(s: Sm, p: Page) {
    var a, r := s.addr, s.found;
    match s.state
    case ReadCom =>
      && (a > MinCycle ==> r.minCycle == p[MinCycle] && r.cycle == CycleTime(p[MinCycle], s.com1))
      && (a > MSeqCap ==> r.mseqCap == p[MSeqCap])
      && (a > RevisionId ==> r.revision == p[RevisionId])
      && (a > PdIn ==> r.pdIn == p[PdIn])
    case CheckVxy => ComRead(s, p) && r.revision != RevisionV10
    case CheckComp => ComRead(s, p) && IdRead(s, p) && r.revision != RevisionV10 && (s.config.revision == 0 || s.config.revision == r.revision)
    case CheckCompV10 => ComRead(s, p) && IdRead(s, p) && r.revision == RevisionV10
    case _ => true
  }

  predicate ComRead(s: Sm, p: Page) {
    var r := s.found;
    && r.minCycle == p[MinCycle] && r.cycle == CycleTime(p[MinCycle], s.com1) && r.mseqCap == p[MSeqCap]
    && r.revision == p[RevisionId] && r.pdIn == p[PdIn] && r.pdOut == p[PdOut]
  }

  /** The identifiers as far as they have been read. */
  predicate IdRead(s: Sm, p: Page) {
    var a, r := s.addr, s.found;
    && (a == Vendor2 ==> r.vendor == BigEndian16(p[Vendor1], 0))
    && (a > Vendor2 ==> r.vendor == VendorOf(p))
    && (a == Device2 ==> r.device == 0x100 * BigEndian16(p[Device1], 0))
    && (a == Device3 ==> r.device == 0x100 * BigEndian16(p[Device1], p[Device2]))
    && (a > Device3 ==> r.device == DeviceOf(p))
    && (a == Function2 ==> r.functionId == BigEndian16(p[Function1], 0))
  }

  /** The state agrees with the verdict, and the identity compared is the device's. */
  predicate Judged(s: Sm, p: Page, first: bool) {
    var v := Judge(s.config, s.com1, p, first);
    && v.Ends? && s.state == v.state && (s.state == InspectionFault ==> s.error == v.fault) && ComRead(s, p)
    && (v.fault != Revision ==>
          && s.found.vendor == VendorOf(p) && s.found.device == DeviceOf(p)
          && s.found.functionId == BigEndian16(p[Function1], p[Function2]))
  }

  predicate Faithful(y: System, p1: Page, p2: Page) {
    && Underway(y)
    && (y.s.retry > 0 ==> Judge(y.s.config, y.s.com1, p1, true) == Again)
    && if Settled(y.s) then Judged(y.s, Shown(y, p1, p2), y.s.retry == 0) else Tracks(y.s, Shown(y, p1, p2))
  }

  lemma ReadComFaithful(y: System, p1: Page, p2: Page)
    requires Faithful(y, p1, p2) && y.s.state == ReadCom
    ensures Faithful(Next(y, Shown(y, p1, p2)), p1, p2)
  {
    Progress(y, Shown(y, p1, p2));
  }

  lemma IdFaithful(y: System, p1: Page, p2: Page)
    requires Faithful(y, p1, p2) && (y.s.state == CheckComp || y.s.state == CheckCompV10) && y.s.addr != Function2
    ensures Faithful(Next(y, Shown(y, p1, p2)), p1, p2)
  {
    Progress(y, Shown(y, p1, p2));
  }

  lemma VerdictFaithful(y: System, p1: Page, p2: Page)
    requires Faithful(y, p1, p2) && (y.s.state == CheckComp || y.s.state == CheckCompV10) && y.s.addr == Function2
    ensures Faithful(Next(y, Shown(y, p1, p2)), p1, p2)
  {
    Progress(y, Shown(y, p1, p2));
  }

  lemma OtherFaithful(y: System, p1: Page, p2: Page)
    requires Faithful(y, p1, p2) && (y.s.state == CheckVxy || y.s.state == Restarting)
    ensures Faithful(Next(y, Shown(y, p1, p2)), p1, p2)
  {
    Progress(y, Shown(y, p1, p2));
  }

  /** Every confirmation keeps what is known of the device true to its page. */
  lemma NextFaithful(y: System, p1: Page, p2: Page)
    requires Faithful(y, p1, p2) && !Settled(y.s)
    ensures Faithful(Next(y, Shown(y, p1, p2)), p1, p2)
  {
    if y.s.state == ReadCom {
      ReadComFaithful(y, p1, p2);
    } else if y.s.state == CheckComp || y.s.state == CheckCompV10 {
      if y.s.addr == Function2 {
        VerdictFaithful(y, p1, p2);
      } else {
        IdFaithful(y, p1, p2);
      }
    } else {
      OtherFaithful(y, p1, p2);
    }
  }

  lemma {:induction false} PlayFaithful(y: System, p1: Page, p2: Page)
    requires Faithful(y, p1, p2)
    ensures
      var (z, n) := Play(y, p1, p2);
      && Settled(z.s) && n <= Measure(y) && Faithful(z, p1, p2)
      && z.s.config == y.s.config && z.s.com1 == y.s.com1
    decreases Measure(y)
  {
    if !Settled(y.s) {
      Progress(y, Shown(y, p1, p2));
      NextFaithful(y, p1, p2);
      PlayFaithful(Next(y, Shown(y, p1, p2)), p1, p2);
    }
  }

  /** Startup. With error-free confirmations it settles within 32 of them, after at
      most one restart, in the state and with the fault that the device's page
      calls for; a device is restarted exactly if its first page calls for that. */
  lemma StartupSettles(s: Sm, p1: Page, p2: Page)
    ensures
      var y := System(Begin(s).0, Begin(s).1[0]);
      && Underway(y)
      && var (z, n) := Play(y, p1, p2);
      && n <= 32 && z.s.retry <= 1
      && (z.s.retry == 1 <==> Judge(s.config, s.com1, p1, true) == Again)
      && Judged(z.s, if z.s.retry == 1 then p2 else p1, z.s.retry == 0)
      && z.s.config == s.config && z.s.com1 == s.com1
  {
    var y := System(Begin(s).0, Begin(s).1[0]);
    PlayFaithful(y, p1, p2);
  }
}
