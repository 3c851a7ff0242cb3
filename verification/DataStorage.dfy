/** Data Storage of the master: the transition table, its actions and the reaction
    to AL confirmations, on values (section 11.4.4 of the IO-Link Interface
    Specification v1.1.3). */
module DataStorage {
  import opened Bytes

  datatype State =
    | CheckActivationState | Waiting | Off
    | CheckIdentity | CheckMemSize | CheckUpload | CheckValidity | CheckChecksum | Ready | Faulty
    | DecomposeList | ReadParameter | StoreDataSet | UploadFault
    | DecomposeSet | WriteParameter | DownloadDone | DownloadFault

  datatype Event =
    | NoEvent | Enable | Startup | Done | Upload | FaultDone | FaultId | FaultSize | FaultUl | FaultDl | FaultLock
    | ClrDisa | Delete | Passed | DoUpload | NoUpload | Download | MoreData | ReadDone | StoreData | UlDone
    | DevErr | ComErr | WrDone | DlDone | Init

  datatype Action =
    | WaitActivity | TurnOff | Reset | Reinit | ChkId | ChkMemSize | ChkUpload | ChkValidity | ChkChecksum
    | SignalReady | SignalFault | UploadNext | ReadParam | AwaitChecksum | UlFault
    | InitDl | Decompose | WriteParam | DlDoneAction | DlFault

  datatype Fault = NoFault | IdFault | SizeFault | UpFault | DownFault | LockFault

  /** What Data Storage asks of AL, and what it reports. A command is a write to
      the command subindex of the Data Storage parameter. */
  datatype Out =
    | ReadReq(index: Index, subindex: byte)
    | WriteReq(index: Index, subindex: byte, data: seq<byte>)
    | Command(command: byte)
    | DsReady
    | DsFault(fault: Fault)

  // The Data Storage parameter of a device.
  const DsIndex: Index := 3
  const SubCmd: byte := 1
  const SubState: byte := 2
  const SubSize: byte := 3
  const SubChecksum: byte := 4
  const SubIndexList: byte := 5

  // Data Storage commands.
  const UlStart: byte := 1
  const UlEnd: byte := 2
  const DlStart: byte := 3
  const DlEnd: byte := 4
  const Break: byte := 5

  const StoreSize: nat := 2048
  const MaxEntries: nat := 70

  /** The store together with the memory after it that replaying a set whose last
      record does not end with the set could reach. */
  const Memory: nat := StoreSize + 258

  type Index = n: nat | n < 0x1_0000

  datatype Entry = Entry(index: Index, subindex: byte)

  datatype Identity = Identity(vendor: nat, device: nat)

  datatype Store = Store(id: Identity, cs: nat, valid: bool, size: nat, pos: nat, data: seq<byte>)

  datatype IndexList = IndexList(count: nat, pos: nat, entries: seq<Entry>)

  datatype Device = Device(cs: nat, sizeMax: nat, property: byte)

  /** `port` is the identity of the connected device, `pending` the configured one. */
  datatype Ds = Ds(
    state: State,
    fault: Fault,
    enable: bool,
    upload: bool,
    download: bool,
    device: Device,
    store: Store,
    list: IndexList,
    current: Entry,
    pending: Identity,
    port: Identity)

  predicate Valid(d: Ds) {
    && |d.store.data| == Memory && d.store.size <= StoreSize
    && |d.list.entries| == MaxEntries && d.list.count <= MaxEntries
  }

  /** The transition table. */
  function Next(s: State, e: Event): Option<(State, Action)> {
    match s
    case CheckActivationState => (
      match e
      case Enable => Some((Waiting, WaitActivity))
      case ClrDisa => Some((Off, TurnOff))
      case Delete => Some((CheckActivationState, Reset))
      case Init => Some((CheckActivationState, Reinit))
      case _ => None)
    case Waiting => (
      match e
      case Startup => Some((CheckIdentity, ChkId))
      case Upload => Some((CheckIdentity, ChkId))
      case Delete => Some((Waiting, Reset))
      case Init => Some((CheckActivationState, Reinit))
      case _ => None)
    case Off => (
      match e
      case Delete => Some((Off, Reset))
      case Upload => Some((Off, TurnOff))
      case Startup => Some((Off, TurnOff))
      case Init => Some((CheckActivationState, Reinit))
      case _ => None)
    case CheckIdentity => (
      match e
      case Passed => Some((CheckMemSize, ChkMemSize))
      case FaultId => Some((Faulty, SignalFault))
      case Init => Some((CheckActivationState, Reinit))
      case _ => None)
    case CheckMemSize => (
      match e
      case Passed => Some((CheckUpload, ChkUpload))
      case FaultSize => Some((Faulty, SignalFault))
      case Init => Some((CheckActivationState, Reinit))
      case _ => None)
    case CheckUpload => (
      match e
      case DoUpload => Some((DecomposeList, UploadNext))
      case NoUpload => Some((CheckValidity, ChkValidity))
      case FaultLock => Some((Faulty, SignalFault))
      case _ => None)
    case CheckValidity => (
      match e
      case DoUpload => Some((DecomposeList, UploadNext))
      case Passed => Some((CheckChecksum, ChkChecksum))
      case _ => None)
    case CheckChecksum => (
      match e
      case Download => Some((DecomposeSet, InitDl))
      case Done => Some((Ready, SignalReady))
      case _ => None)
    case Ready => if e == Done then Some((Waiting, WaitActivity)) else None
    case Faulty => if e == FaultDone || e == ComErr then Some((Waiting, WaitActivity)) else None
    case DecomposeList => (
      match e
      case MoreData => Some((ReadParameter, ReadParam))
      case StoreData => Some((StoreDataSet, AwaitChecksum))
      case ComErr => Some((UploadFault, UlFault))
      case _ => None)
    case ReadParameter => (
      match e
      case ReadDone => Some((DecomposeList, UploadNext))
      case DevErr => Some((UploadFault, UlFault))
      case ComErr => Some((UploadFault, UlFault))
      case _ => None)
    case StoreDataSet => (
      match e
      case UlDone => Some((Ready, SignalReady))
      case ComErr => Some((UploadFault, UlFault))
      case _ => None)
    case UploadFault => if e == FaultUl then Some((Faulty, SignalFault)) else None
    case DecomposeSet => (
      match e
      case MoreData => Some((WriteParameter, WriteParam))
      case Download => Some((DecomposeSet, Decompose))
      case DlDone => Some((DownloadDone, DlDoneAction))
      case _ => None)
    case WriteParameter => (
      match e
      case WrDone => Some((DecomposeSet, Decompose))
      case DevErr => Some((DownloadFault, DlFault))
      case ComErr => Some((DownloadFault, DlFault))
      case _ => None)
    case DownloadDone => (
      match e
      case Done => Some((Ready, SignalReady))
      case ComErr => Some((DownloadFault, DlFault))
      case _ => None)
    case DownloadFault => if e == FaultDl then Some((Faulty, SignalFault)) else None
  }

  /** Bound on the transitions that event `e` still leads to in state `s`. */
  function Rank(s: State, e: Event): nat {
    match e
    case Init => 5
    case Startup => 5
    case Upload => 5
    case NoUpload => 5
    case ComErr => 4
    case DevErr => 4
    case Passed => 4
    case FaultUl => 3
    case FaultDl => 3
    case FaultId => 3
    case FaultSize => 3
    case FaultLock => 3
    case DoUpload => 3
    case ReadDone => 3
    case UlDone => 3
    case WrDone => 3
    case Download => 3
    case Done => if s == Ready then 1 else 2
    case NoEvent => 0
    case _ => 1
  }

  // --- What an event comes to ---------------------------------------------------

  type Step = (Ds, seq<Out>)

  function Fail(d: Ds, f: Fault): (r: Step)
    requires Valid(d)
    ensures Valid(r.0)
  {
    (d.(state := Waiting), [DsFault(f)])
  }

  function Finish(d: Ds): (r: Step)
    requires Valid(d)
    ensures Valid(r.0)
  {
    (d.(state := Waiting), [DsReady])
  }

  /** A transfer fails: the device is told. */
  function Abort(d: Ds, f: Fault): (r: Step)
    requires Valid(d)
    ensures Valid(r.0)
  {
    (d.(state := Faulty, fault := f, current := Entry(DsIndex, SubCmd)), [Command(Break)])
  }

  function Ask(d: Ds, s: State, index: Index, subindex: byte): (r: Step)
    requires Valid(d)
    ensures Valid(r.0)
  {
    (d.(state := s, current := Entry(index, subindex)), [ReadReq(index, subindex)])
  }

  function Tell(d: Ds, s: State, command: byte): (r: Step)
    requires Valid(d)
    ensures Valid(r.0)
  {
    (d.(state := s, current := Entry(DsIndex, SubCmd)), [Command(command)])
  }

  predicate Locked(property: byte) {
    property / 2 % 4 == 3
  }

  function Forget(d: Ds): (r: Step)
    requires Valid(d)
    ensures Valid(r.0)
  {
    (d.(store := d.store.(id := Identity(0, 0), cs := 0, valid := false, pos := 0)), [])
  }

  function Start(d: Ds): (r: Step)
    requires Valid(d)
    ensures Valid(r.0)
  {
    if d.store.id.vendor == 0 || d.store.id == d.port then Ask(d, CheckIdentity, DsIndex, SubSize) else Fail(d, IdFault)
  }

  function AfterIdentity(d: Ds): (r: Step)
    requires Valid(d)
    ensures Valid(r.0)
  {
    if d.device.sizeMax <= StoreSize then Ask(d, CheckMemSize, DsIndex, SubState) else Fail(d, SizeFault)
  }

  function AfterMemSize(d: Ds): (r: Step)
    requires Valid(d)
    ensures Valid(r.0)
  {
    if Locked(d.device.property) then Fail(d.(enable := false), LockFault)
    else if d.device.property >= 0x80 && d.upload then Tell(d, CheckUpload, UlStart)
    else Ask(d, CheckUpload, DsIndex, SubChecksum)
  }

  function CompareSets(d: Ds): (r: Step)
    requires Valid(d)
    ensures Valid(r.0)
  {
    if d.download && d.store.cs != d.device.cs then Tell(d, DecomposeSet, DlStart) else Finish(d)
  }

  /** Nothing to upload: upload all the same if there is no valid set. */
  function AfterNoUpload(d: Ds): (r: Step)
    requires Valid(d)
    ensures Valid(r.0)
  {
    if d.store.valid then CompareSets(d) else Tell(d, CheckValidity, UlStart)
  }

  function BeginUpload(d: Ds): (r: Step)
    requires Valid(d)
    ensures Valid(r.0)
  {
    Ask(d.(store := d.store.(pos := 0), list := d.list.(pos := 0)), ReadParameter, DsIndex, SubIndexList)
  }

  function NextParameter(d: Ds): (r: Step)
    requires Valid(d) && d.store.pos <= StoreSize
    ensures Valid(r.0)
  {
    if d.list.pos < d.list.count then
      var e := d.list.entries[d.list.pos];
      Ask(d.(list := d.list.(pos := d.list.pos + 1)), ReadParameter, e.index, e.subindex)
    else Ask(d.(store := d.store.(size := d.store.pos)), StoreDataSet, DsIndex, SubChecksum)
  }

  /** Writes the record at `pos`: index, subindex, length, data. */
  function WriteNext(d: Ds): (r: Step)
    requires Valid(d) && d.store.pos < StoreSize
    ensures Valid(r.0)
  {
    var m, p := d.store.data, d.store.pos;
    var len := m[p + 3];
    (d.(state := WriteParameter, store := d.store.(pos := p + 4 + len), current := Entry(DsIndex, m[p + 2])),
     [WriteReq(BigEndian16(m[p], m[p + 1]), m[p + 2], m[p + 4..p + 4 + len])])
  }

  /** Replays the set from `pos`. */
  function Replay(d: Ds, pos: nat): (r: Step)
    requires Valid(d)
    ensures Valid(r.0)
  {
    var g := d.(store := d.store.(pos := pos));
    if pos < d.store.size then WriteNext(g) else Tell(g, DownloadDone, DlEnd)
  }

  function Reinitialise(d: Ds): (r: Step)
    requires Valid(d)
    ensures Valid(r.0)
  {
    (d.(state := if d.enable then Waiting else Off), [])
  }

  /** What an event comes to, all the events it raises included. */
  function React(d: Ds, e: Event): (r: Step)
    requires Valid(d) && Raisable(d, e)
    ensures Valid(r.0)
  {
    match d.state
    case CheckActivationState => (
      match e
      case Enable => (d.(state := Waiting), [])
      case ClrDisa => (d.(state := Off), [])
      case Delete => Forget(d)
      case Init => Reinitialise(d)
      case _ => (d, []))
    case Waiting => (
      match e
      case Startup => Start(d)
      case Upload => Start(d)
      case Delete => Forget(d)
      case Init => Reinitialise(d)
      case _ => (d, []))
    case Off => (
      match e
      case Delete => Forget(d)
      case Startup => (d, [DsReady])
      case Init => Reinitialise(d)
      case _ => (d, []))
    case CheckIdentity => (
      match e
      case Passed => AfterIdentity(d)
      case FaultId => Fail(d, IdFault)
      case Init => Reinitialise(d)
      case _ => (d, []))
    case CheckMemSize => (
      match e
      case Passed => AfterMemSize(d)
      case FaultSize => Fail(d, SizeFault)
      case Init => Reinitialise(d)
      case _ => (d, []))
    case CheckUpload => (
      match e
      case DoUpload => BeginUpload(d)
      case NoUpload => AfterNoUpload(d)
      case FaultLock => Fail(d.(enable := false), LockFault)
      case _ => (d, []))
    case CheckValidity => (
      match e
      case DoUpload => BeginUpload(d)
      case Passed => CompareSets(d)
      case _ => (d, []))
    case CheckChecksum => (
      match e
      case Download => Tell(d, DecomposeSet, DlStart)
      case Done => Finish(d)
      case _ => (d, []))
    case Ready => (if e == Done then d.(state := Waiting) else d, [])
    case Faulty => (if e == FaultDone || e == ComErr then d.(state := Waiting) else d, [])
    case DecomposeList => (
      match e
      case MoreData => Ask(d, ReadParameter, d.current.index, d.current.subindex)
      case StoreData => (d.(state := StoreDataSet), [])
      case ComErr => Abort(d, UpFault)
      case _ => (d, []))
    case ReadParameter => (
      match e
      case ReadDone => NextParameter(d)
      case DevErr => Abort(d, UpFault)
      case ComErr => Abort(d, UpFault)
      case _ => (d, []))
    case StoreDataSet => (
      match e
      case UlDone => Finish(d)
      case ComErr => Abort(d, UpFault)
      case _ => (d, []))
    case UploadFault => if e == FaultUl then Abort(d, UpFault) else (d, [])
    case DecomposeSet => (
      match e
      case MoreData => WriteNext(d)
      case Download => Replay(d, 0)
      case DlDone => Tell(d, DownloadDone, DlEnd)
      case _ => (d, []))
    case WriteParameter => (
      match e
      case WrDone => Replay(d, d.store.pos)
      case DevErr => Abort(d, DownFault)
      case ComErr => Abort(d, DownFault)
      case _ => (d, []))
    case DownloadDone => (
      match e
      case Done => Finish(d)
      case ComErr => Abort(d, DownFault)
      case _ => (d, []))
    case DownloadFault => if e == FaultDl then Abort(d, DownFault) else (d, [])
  }

  /** What an event needs where it is raised: a set being written has a record
      left, a set being read is within the store. */
  predicate Raisable(d: Ds, e: Event) {
    && (d.state == DecomposeSet && e == MoreData ==> d.store.pos < d.store.size)
    && (d.state == ReadParameter && e == ReadDone ==> d.store.pos <= StoreSize)
  }

  // --- The table does what an event comes to ------------------------------------

  /** An action: the new state, what it emits, and the event it raises. */
  type Effect = (Ds, seq<Out>, Event)

  function DoSignalFault(d: Ds, e: Event): Effect {
    match e
    case FaultId => (d, [DsFault(IdFault)], FaultDone)
    case FaultSize => (d, [DsFault(SizeFault)], FaultDone)
    case FaultLock => (d.(enable := false), [DsFault(LockFault)], FaultDone)
    case FaultUl => (d.(fault := UpFault, current := Entry(DsIndex, SubCmd)), [Command(Break)], NoEvent)
    case FaultDl => (d.(fault := DownFault, current := Entry(DsIndex, SubCmd)), [Command(Break)], NoEvent)
    case _ => (d, [], NoEvent)
  }

  function DoRead(d: Ds, index: Index, subindex: byte): Effect {
    (d.(current := Entry(index, subindex)), [ReadReq(index, subindex)], NoEvent)
  }

  function DoTell(d: Ds, command: byte): Effect {
    (d.(current := Entry(DsIndex, SubCmd)), [Command(command)], NoEvent)
  }

  function DoChkUpload(d: Ds): Effect {
    if Locked(d.device.property) then (d, [], FaultLock)
    else if d.device.property >= 0x80 && d.upload then DoTell(d, UlStart)
    else DoRead(d, DsIndex, SubChecksum)
  }

  function DoUploadNext(d: Ds, e: Event): Effect
    requires Valid(d)
  {
    if e == DoUpload then
      (d.(store := d.store.(pos := 0), list := d.list.(pos := 0), current := Entry(DsIndex, SubIndexList)), [], MoreData)
    else if d.list.pos < d.list.count then
      (d.(current := d.list.entries[d.list.pos], list := d.list.(pos := d.list.pos + 1)), [], MoreData)
    else
      (d.(store := d.store.(size := d.store.pos), current := Entry(DsIndex, SubChecksum)),
       [ReadReq(DsIndex, SubChecksum)], StoreData)
  }

  function DoWriteParam(d: Ds): Effect
    requires Valid(d) && d.store.pos < StoreSize
  {
    var m, p := d.store.data, d.store.pos;
    var len := m[p + 3];
    (d.(store := d.store.(pos := p + 4 + len), current := Entry(DsIndex, m[p + 2])),
     [WriteReq(BigEndian16(m[p], m[p + 1]), m[p + 2], m[p + 4..p + 4 + len])], NoEvent)
  }

  function DoDecompose(d: Ds, e: Event): Effect {
    var pos := if e == Download then 0 else d.store.pos;
    (d.(store := d.store.(pos := pos)), [], if pos >= d.store.size then DlDone else MoreData)
  }

  function Act(a: Action, d: Ds, e: Event): Effect
    requires Valid(d) && (a == WriteParam ==> d.store.pos < StoreSize)
  {
    match a
    case WaitActivity => (d, [], NoEvent)
    case TurnOff => (d, if e == Startup then [DsReady] else [], NoEvent)
    case Reset => (Forget(d).0, [], NoEvent)
    case Reinit => (d, [], if d.enable then Enable else ClrDisa)
    case ChkId =>
      if d.store.id.vendor == 0 || d.store.id == d.port then DoRead(d, DsIndex, SubSize) else (d, [], FaultId)
    case ChkMemSize => if StoreSize < d.device.sizeMax then (d, [], FaultSize) else DoRead(d, DsIndex, SubState)
    case ChkUpload => DoChkUpload(d)
    case ChkValidity => if d.store.valid then (d, [], Passed) else DoTell(d, UlStart)
    case ChkChecksum => (d, [], if d.download && d.store.cs != d.device.cs then Download else Done)
    case SignalReady => (d, [DsReady], Done)
    case SignalFault => DoSignalFault(d, e)
    case UploadNext => DoUploadNext(d, e)
    case ReadParam => DoRead(d, d.current.index, d.current.subindex)
    case AwaitChecksum => (d, [], NoEvent)
    case UlFault => (d, [], FaultUl)
    case InitDl => DoTell(d, DlStart)
    case Decompose => DoDecompose(d, e)
    case WriteParam => DoWriteParam(d)
    case DlDoneAction => DoTell(d, DlEnd)
    case DlFault => (d, [], FaultDl)
  }

  /** `outs + more`, with empty parts left out. */
  function Then(outs: seq<Out>, more: seq<Out>): (all: seq<Out>)
    ensures all == outs + more
  {
    if outs == [] then more else if more == [] then outs else outs + more
  }

  /** What event `e` comes to is what its row of the table does, and then what the
      event raised by the row comes to, of which less is left. */
  predicate Follows(d: Ds, e: Event)
    requires Valid(d) && Raisable(d, e)
  {
    var t := Next(d.state, e);
    if t.None? then React(d, e) == (d, [])
    else if t.value.1 == WriteParam && d.store.pos >= StoreSize then false
    else
      var (g, outs, f) := Act(t.value.1, d.(state := t.value.0), e);
      && Valid(g) && Raisable(g, f) && Rank(g.state, f) < Rank(d.state, e)
      && React(d, e) == if f == NoEvent then (g, outs) else (React(g, f).0, Then(outs, React(g, f).1))
  }

  lemma ActivationFollows(d: Ds, e: Event)
    requires Valid(d) && Raisable(d, e) && d.state == CheckActivationState
    ensures Follows(d, e)
  {
  }

  lemma OffFollows(d: Ds, e: Event)
    requires Valid(d) && Raisable(d, e) && d.state == Off
    ensures Follows(d, e)
  {
  }

  lemma StartFollows(d: Ds, e: Event)
    requires Valid(d) && Raisable(d, e) && d.state == Waiting && (e == Startup || e == Upload)
    ensures Follows(d, e)
  {
  }

  lemma WaitingFollows(d: Ds, e: Event)
    requires Valid(d) && Raisable(d, e) && d.state == Waiting && e != Startup && e != Upload
    ensures Follows(d, e)
  {
  }

  lemma IdentityFollows(d: Ds, e: Event)
    requires Valid(d) && Raisable(d, e) && d.state == CheckIdentity && e == Passed
    ensures Follows(d, e)
  {
  }

  lemma IdentityFaultFollows(d: Ds, e: Event)
    requires Valid(d) && Raisable(d, e) && d.state == CheckIdentity && e != Passed
    ensures Follows(d, e)
  {
  }

  lemma MemSizeFollows(d: Ds, e: Event)
    requires Valid(d) && Raisable(d, e) && d.state == CheckMemSize && e == Passed
    ensures Follows(d, e)
  {
  }

  lemma MemSizeFaultFollows(d: Ds, e: Event)
    requires Valid(d) && Raisable(d, e) && d.state == CheckMemSize && e != Passed
    ensures Follows(d, e)
  {
  }

  lemma DoUploadFollows(d: Ds, e: Event)
    requires Valid(d) && Raisable(d, e) && (d.state == CheckUpload || d.state == CheckValidity) && e == DoUpload
    ensures Follows(d, e)
  {
  }

  lemma NoUploadFollows(d: Ds, e: Event)
    requires Valid(d) && Raisable(d, e) && d.state == CheckUpload && e != DoUpload
    ensures Follows(d, e)
  {
  }

  lemma ValidityFollows(d: Ds, e: Event)
    requires Valid(d) && Raisable(d, e) && d.state == CheckValidity && e != DoUpload
    ensures Follows(d, e)
  {
  }

  lemma ChecksumFollows(d: Ds, e: Event)
    requires Valid(d) && Raisable(d, e) && d.state == CheckChecksum
    ensures Follows(d, e)
  {
  }

  lemma FinalFollows(d: Ds, e: Event)
    requires Valid(d) && Raisable(d, e) && (d.state == Ready || d.state == Faulty)
    ensures Follows(d, e)
  {
  }

  lemma BrokenFollows(d: Ds, e: Event)
    requires Valid(d) && Raisable(d, e) && (d.state == UploadFault || d.state == DownloadFault)
    ensures Follows(d, e)
  {
  }

  lemma ListFollows(d: Ds, e: Event)
    requires Valid(d) && Raisable(d, e) && d.state == DecomposeList
    ensures Follows(d, e)
  {
  }

  lemma ParameterFollows(d: Ds, e: Event)
    requires Valid(d) && Raisable(d, e) && d.state == ReadParameter && e == ReadDone
    ensures Follows(d, e)
  {
    if d.list.pos < d.list.count {
      NextFollows(d);
    } else {
      LastFollows(d);
    }
  }

  lemma NextFollows(d: Ds)
    requires Valid(d) && d.state == ReadParameter && d.store.pos <= StoreSize && d.list.pos < d.list.count
    ensures Follows(d, ReadDone)
  {
    var g := d.(state := DecomposeList, current := d.list.entries[d.list.pos], list := d.list.(pos := d.list.pos + 1));
    assert Act(UploadNext, d.(state := DecomposeList), ReadDone) == (g, [], MoreData);
    assert React(g, MoreData) == Ask(g, ReadParameter, g.current.index, g.current.subindex);
  }

  lemma LastFollows(d: Ds)
    requires Valid(d) && d.state == ReadParameter && d.store.pos <= StoreSize && d.list.pos >= d.list.count
    ensures Follows(d, ReadDone)
  {
    var g := d.(state := DecomposeList, store := d.store.(size := d.store.pos), current := Entry(DsIndex, SubChecksum));
    assert Act(UploadNext, d.(state := DecomposeList), ReadDone) == (g, [ReadReq(DsIndex, SubChecksum)], StoreData);
    assert React(g, StoreData) == (g.(state := StoreDataSet), []);
  }

  lemma ParameterErrorFollows(d: Ds, e: Event)
    requires Valid(d) && Raisable(d, e) && d.state == ReadParameter && e != ReadDone
    ensures Follows(d, e)
  {
  }

  lemma StoreFollows(d: Ds, e: Event)
    requires Valid(d) && Raisable(d, e) && d.state == StoreDataSet
    ensures Follows(d, e)
  {
  }

  lemma DownloadDoneFollows(d: Ds, e: Event)
    requires Valid(d) && Raisable(d, e) && d.state == DownloadDone
    ensures Follows(d, e)
  {
  }

  lemma MoreFollows(d: Ds, e: Event)
    requires Valid(d) && Raisable(d, e) && d.state == DecomposeSet && e != Download
    ensures Follows(d, e)
  {
  }

  lemma DownloadFollows(d: Ds, e: Event)
    requires Valid(d) && Raisable(d, e) && d.state == DecomposeSet && e == Download
    ensures Follows(d, e)
  {
    var g := d.(store := d.store.(pos := 0));
    assert Act(Decompose, d, Download) == (g, [], if 0 >= d.store.size then DlDone else MoreData);
  }

  lemma WriteMoreFollows(d: Ds, e: Event)
    requires Valid(d) && Raisable(d, e) && d.state == WriteParameter && e == WrDone && d.store.pos < d.store.size
    ensures Follows(d, e)
  {
    WritesFromAnyState(d, d.(state := DecomposeSet));
  }

  lemma WritesFromAnyState(d: Ds, g: Ds)
    requires Valid(d) && d.store.pos < StoreSize && g == d.(state := g.state)
    ensures WriteNext(d) == WriteNext(g)
  {
  }

  lemma WriteDoneFollows(d: Ds, e: Event)
    requires Valid(d) && Raisable(d, e) && d.state == WriteParameter && e == WrDone && d.store.pos >= d.store.size
    ensures Follows(d, e)
  {
  }

  lemma WriteErrorFollows(d: Ds, e: Event)
    requires Valid(d) && Raisable(d, e) && d.state == WriteParameter && e != WrDone
    ensures Follows(d, e)
  {
  }

  /** The whole table. */
  lemma TableFollows(d: Ds, e: Event)
    requires Valid(d) && Raisable(d, e)
    ensures Follows(d, e)
  {
    match d.state
    case CheckActivationState => ActivationFollows(d, e);
    case Waiting => if e == Startup || e == Upload { StartFollows(d, e); } else { WaitingFollows(d, e); }
    case Off => OffFollows(d, e);
    case CheckIdentity => if e == Passed { IdentityFollows(d, e); } else { IdentityFaultFollows(d, e); }
    case CheckMemSize => if e == Passed { MemSizeFollows(d, e); } else { MemSizeFaultFollows(d, e); }
    case CheckUpload => if e == DoUpload { DoUploadFollows(d, e); } else { NoUploadFollows(d, e); }
    case CheckValidity => if e == DoUpload { DoUploadFollows(d, e); } else { ValidityFollows(d, e); }
    case CheckChecksum => ChecksumFollows(d, e);
    case Ready => FinalFollows(d, e);
    case Faulty => FinalFollows(d, e);
    case DecomposeList => ListFollows(d, e);
    case ReadParameter => if e == ReadDone { ParameterFollows(d, e); } else { ParameterErrorFollows(d, e); }
    case StoreDataSet => StoreFollows(d, e);
    case UploadFault => BrokenFollows(d, e);
    case DecomposeSet => if e == Download { DownloadFollows(d, e); } else { MoreFollows(d, e); }
    case WriteParameter =>
      if e != WrDone {
        WriteErrorFollows(d, e);
      } else if d.store.pos < d.store.size {
        WriteMoreFollows(d, e);
      } else {
        WriteDoneFollows(d, e);
      }
    case DownloadDone => DownloadDoneFollows(d, e);
    case DownloadFault => BrokenFollows(d, e);
  }

  /** `f` is still to come to something, after `outs`; all in all to `goal`. */
  predicate Remains(goal: Step, d: Ds, f: Event, outs: seq<Out>)
    requires Valid(d) && Raisable(d, f)
  {
    goal == if f == NoEvent then (d, outs) else (React(d, f).0, Then(outs, React(d, f).1))
  }

  lemma RowNeeds(s: State, e: Event)
    ensures
      var t := Next(s, e);
      t.Some? ==>
        && (t.value.1 == WriteParam ==> s == DecomposeSet && e == MoreData)
        && (t.value.1 == UploadNext ==> e == DoUpload || e == ReadDone)
  {
  }

  /** A row taken brings the dispatcher nearer its goal. */
  lemma RowTaken(goal: Step, d: Ds, f: Event, outs: seq<Out>)
    requires Valid(d) && Raisable(d, f) && f != NoEvent && Remains(goal, d, f, outs)
    ensures
      var t := Next(d.state, f);
      if t.None? then goal == (d, outs)
      else
        && (t.value.1 == WriteParam ==> d.store.pos < StoreSize)
        && (t.value.1 == UploadNext ==> f == DoUpload || f == ReadDone)
        && var (g, more, h) := Act(t.value.1, d.(state := t.value.0), f);
        && Valid(g) && Raisable(g, h) && Rank(g.state, h) < Rank(d.state, f)
        && Remains(goal, g, h, outs + more)
  {
    RowNeeds(d.state, f);
    TableFollows(d, f);
    var t := Next(d.state, f);
    if t.Some? {
      var (g, more, h) := Act(t.value.1, d.(state := t.value.0), f);
      ThenJoined(outs, more, React(g, h).1);
    }
  }

  lemma ThenJoined(outs: seq<Out>, more: seq<Out>, rest: seq<Out>)
    ensures Then(outs, Then(more, rest)) == Then(outs + more, rest)
    ensures Then(outs, more) == outs + more
  {
    assert outs + (more + rest) == outs + more + rest;
  }

  // --- AL confirmations --------------------------------------------------------

  datatype Error = NoError | ComError | OtherError

  /** The buffer a reply is read from; only its first bytes belong to the reply. */
  type Buffer = b: seq<byte> | |b| == 256 witness Zeros(256)

  /** A confirmed AL_Read. */
  datatype Reply = Reply(error: Error, len: byte, raw: Buffer) {
    function Payload(): seq<byte> {
      raw[..len]
    }
  }

  function BigEndian32(b: seq<byte>): nat
    requires |b| >= 4
  {
    0x1_0000 * BigEndian16(b[0], b[1]) + BigEndian16(b[2], b[3])
  }

  lemma ReadsDigits(b: seq<byte>, n: nat)
    requires Digits(b, n)
    ensures BigEndian32(b) == n
  {
  }

  /** The entries from `i` on, up to index 0; the count stays if there is none. */
  function ParseList(list: IndexList, raw: Buffer, i: nat): (l: IndexList)
    requires |list.entries| == MaxEntries && list.count <= MaxEntries && i <= MaxEntries
    ensures |l.entries| == MaxEntries && l.count <= MaxEntries && l.pos == list.pos
    decreases MaxEntries - i
  {
    if i == MaxEntries then list
    else
      var index := BigEndian16(raw[3 * i], raw[3 * i + 1]);
      if index == 0 then list.(count := i)
      else ParseList(list.(entries := list.entries[i := Entry(index, raw[3 * i + 2])]), raw, i + 1)
  }

  /** A parameter as it is stored. */
  function Record(e: Entry, data: seq<byte>): seq<byte>
    requires |data| < 256
  {
    [e.index / 256, e.index % 256, e.subindex, |data|] + data
  }

  predicate HasRoom(pos: nat, data: seq<byte>) {
    pos + 3 + |data| < StoreSize
  }

  /** Appends the parameter just read, unless there is no room for it. */
  function StoreRecord(s: Store, e: Entry, data: seq<byte>): (t: Store)
    requires |s.data| == Memory && s.pos <= StoreSize && |data| < 256
    ensures |t.data| == Memory && t.pos <= StoreSize && t.size == s.size
  {
    if HasRoom(s.pos, data) then
      var r := Record(e, data);
      s.(pos := s.pos + |r|, data := s.data[..s.pos] + r + s.data[s.pos + |r|..])
    else s
  }

  /** The state machine stands where it waits. */
  predicate Sound(d: Ds) {
    && Valid(d) && (d.state == ReadParameter ==> d.store.pos <= StoreSize)
    && d.state !in {CheckChecksum, Ready, DecomposeList, UploadFault, DownloadFault}
  }

  /** A reply to a checksum request: one that is too short counts as lost
      communication too, and is then used all the same. */
  function TakeChecksum(d: Ds, r: Reply): (s: Step)
    requires Valid(d)
    ensures Valid(s.0)
  {
    var (g, outs) := if r.len < 4 then React(d, ComErr) else (d, []);
    (g.(device := g.device.(cs := BigEndian32(r.raw))), outs)
  }

  function TakeParameter(d: Ds, r: Reply): (g: Ds)
    requires Valid(d) && d.store.pos <= StoreSize
    ensures Valid(g) && g.store.pos <= StoreSize && g.state == d.state
  {
    if d.current == Entry(DsIndex, SubIndexList) then d.(list := ParseList(d.list, r.raw, 0))
    else d.(store := StoreRecord(d.store, d.current, r.Payload()))
  }

  function ReadCnf(d: Ds, r: Reply): (s: Step)
    requires Sound(d)
    ensures Valid(s.0)
  {
    if r.error == ComError then React(d, ComErr)
    else match d.state
      case CheckIdentity =>
        if r.error != NoError || r.len < 4 then React(d, FaultId)
        else React(d.(device := d.device.(sizeMax := BigEndian32(r.raw))), Passed)
      case CheckMemSize =>
        if r.error != NoError || r.len != 1 then React(d, FaultSize)
        else React(d.(device := d.device.(property := r.raw[0])), Passed)
      case ReadParameter =>
        if r.error != NoError then React(d, DevErr) else React(TakeParameter(d, r), ReadDone)
      case CheckUpload =>
        var (g, outs) := TakeChecksum(d, r);
        var (k, more) := React(g, NoUpload);
        (k, outs + more)
      case StoreDataSet =>
        var (g, outs) := TakeChecksum(d, r);
        (Tell(g, g.state, UlEnd).0, outs + [Command(UlEnd)])
      case DownloadDone =>
        var (g, outs) := TakeChecksum(d, r);
        var (k, more) := React(g, Done);
        (k, outs + more)
      case _ => (d, [])
  }

  function WriteCnf(d: Ds, ok: bool): (s: Step)
    requires Sound(d)
    ensures Valid(s.0)
  {
    if !ok then React(d, ComErr)
    else match d.state
      case CheckUpload => React(d, DoUpload)
      case CheckValidity => React(d, DoUpload)
      case WriteParameter => React(d, WrDone)
      case StoreDataSet =>
        React(d.(store := d.store.(id := d.pending, cs := d.device.cs, valid := true)), UlDone)
      case DecomposeSet => React(d, Download)
      case DownloadDone => Ask(d, DownloadDone, DsIndex, SubChecksum)
      case Faulty =>
        var r := React(d, FaultDone);
        (r.0, [DsFault(d.fault)] + r.1)
      case _ => (d, [])
  }

  /** A new configuration of the port: what validation and backup it asks for. */
  datatype Config = Config(upload: bool, download: bool, enable: bool, pending: Identity)

  /** Once enabled, Data Storage is not disabled by a configuration. */
  function Configured(d: Ds, c: Config): Ds {
    d.(upload := c.upload, download := c.download, enable := d.enable || c.enable, fault := NoFault, pending := c.pending)
  }
}
