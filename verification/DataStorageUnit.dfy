/** Data Storage as it stands in memory: the dispatcher loop, the actions of the
    table, and the store and the index list that are filled in place. */
module DataStorageUnit {
  import opened Bytes
  import opened DataStorage

  class DataStorageUnit {
    const data: array<byte>
    const entries: array<Entry>
    var state: State
    var fault: Fault
    var enable: bool
    var upload: bool
    var download: bool
    var device: Device
    var id: Identity
    var cs: nat
    var valid: bool
    var size: nat
    var pos: nat
    var listCount: nat
    var listPos: nat
    var current: Entry
    var pending: Identity
    var port: Identity

    function View(): Ds
      reads this, data, entries
    {
      Ds(state, fault, enable, upload, download, device, Store(id, cs, valid, size, pos, data[..]),
         IndexList(listCount, listPos, entries[..]), current, pending, port)
    }

    constructor ()
      ensures Valid(View()) && state == CheckActivationState && !valid && size == 0 && fresh(data) && fresh(entries)
    {
      data := new byte[Memory](_ => 0);
      entries := new Entry[MaxEntries](_ => Entry(0, 0));
      state, fault, enable, upload, download := CheckActivationState, NoFault, false, false, false;
      device, id, cs, valid, size, pos := Device(0, 0, 0), Identity(0, 0), 0, false, 0, 0;
      listCount, listPos, current := 0, 0, Entry(0, 0);
      pending, port := Identity(0, 0), Identity(0, 0);
    }

    method Read(index: Index, subindex: byte) returns (outs: seq<Out>)
      modifies this`current
      ensures (View(), outs, NoEvent) == DoRead(old(View()), index, subindex)
    {
      current := Entry(index, subindex);
      outs := [ReadReq(index, subindex)];
    }

    method Tell(command: byte) returns (outs: seq<Out>)
      modifies this`current
      ensures (View(), outs, NoEvent) == DoTell(old(View()), command)
    {
      current := Entry(DsIndex, SubCmd);
      outs := [Command(command)];
    }

    method FaultAction(e: Event) returns (outs: seq<Out>, f: Event)
      modifies this`fault, this`enable, this`current
      ensures (View(), outs, f) == DoSignalFault(old(View()), e)
    {
      outs, f := [], NoEvent;
      match e
      case FaultId => outs, f := [DsFault(IdFault)], FaultDone;
      case FaultSize => outs, f := [DsFault(SizeFault)], FaultDone;
      case FaultUl =>
        fault := UpFault;
        outs := Tell(Break);
      case FaultDl =>
        fault := DownFault;
        outs := Tell(Break);
      case FaultLock =>
        enable := false;
        outs, f := [DsFault(LockFault)], FaultDone;
      case _ =>
    }

    method ChkUploadAction() returns (outs: seq<Out>, f: Event)
      modifies this`current
      ensures (View(), outs, f) == DoChkUpload(old(View()))
    {
      outs, f := [], NoEvent;
      if Locked(device.property) {
        f := FaultLock;
      } else if device.property >= 0x80 {
        if upload {
          outs := Tell(UlStart);
        } else {
          outs := Read(DsIndex, SubChecksum);
        }
      } else {
        outs := Read(DsIndex, SubChecksum);
      }
    }

    method UploadAction(e: Event) returns (outs: seq<Out>, f: Event)
      requires Valid(View()) && (e == DoUpload || e == ReadDone)
      modifies this`pos, this`size, this`listPos, this`current
      ensures (View(), outs, f) == DoUploadNext(old(View()), e)
    {
      outs, f := [], MoreData;
      if e == DoUpload {
        pos, listPos, current := 0, 0, Entry(DsIndex, SubIndexList);
      } else if listPos < listCount {
        current, listPos := entries[listPos], listPos + 1;
      } else {
        size := pos;
        outs := Read(DsIndex, SubChecksum);
        f := StoreData;
      }
    }

    /** Takes the next record off the store, byte by byte. */
    method WriteParamAction() returns (outs: seq<Out>)
      requires Valid(View()) && pos < StoreSize
      modifies this`pos, this`current
      ensures (View(), outs, NoEvent) == DoWriteParam(old(View()))
    {
      ghost var p := pos;
      var high := data[pos];
      pos := pos + 1;
      var index := BigEndian16(high, data[pos]);
      pos := pos + 1;
      var subindex := data[pos];
      pos := pos + 1;
      var len := data[pos];
      pos := pos + 1;
      var value := data[pos..pos + len];
      pos := pos + len;
      current := Entry(DsIndex, subindex);
      outs := [WriteReq(index, subindex, value)];
      assert value == data[..][p + 4..p + 4 + len];
    }

    method DecomposeAction(e: Event) returns (f: Event)
      modifies this`pos
      ensures (View(), [], f) == DoDecompose(old(View()), e)
    {
      if e == Download {
        pos := 0;
      }
      f := if pos >= size then DlDone else MoreData;
    }

    /** The actions that check what a transfer needs. */
    method Check(a: Action) returns (outs: seq<Out>, f: Event)
      requires Valid(View()) && a in {ChkId, ChkMemSize, ChkUpload, ChkValidity, ChkChecksum}
      modifies this`current
      ensures (View(), outs, f) == Act(a, old(View()), NoEvent)
    {
      outs, f := [], NoEvent;
      match a
      case ChkId =>
        if id.vendor == 0 || id == port {
          outs := Read(DsIndex, SubSize);
        } else {
          f := FaultId;
        }
      case ChkMemSize =>
        if StoreSize < device.sizeMax {
          f := FaultSize;
        } else {
          outs := Read(DsIndex, SubState);
        }
      case ChkUpload => outs, f := ChkUploadAction();
      case ChkValidity =>
        if valid {
          f := Passed;
        } else {
          outs := Tell(UlStart);
        }
      case ChkChecksum => f := if download && cs != device.cs then Download else Done;
    }

    /** The action of a row. */
    method Do(a: Action, e: Event) returns (outs: seq<Out>, f: Event)
      requires Valid(View()) && (a == WriteParam ==> pos < StoreSize) && (a == UploadNext ==> e == DoUpload || e == ReadDone)
      modifies this
      ensures (View(), outs, f) == Act(a, old(View()), e)
    {
      outs, f := [], NoEvent;
      match a
      case WaitActivity =>
      case TurnOff => outs := if e == Startup then [DsReady] else [];
      case Reset => id, cs, valid, pos := Identity(0, 0), 0, false, 0;
      case Reinit => f := if enable then Enable else ClrDisa;
      case SignalReady => outs, f := [DsReady], Done;
      case SignalFault => outs, f := FaultAction(e);
      case UploadNext => outs, f := UploadAction(e);
      case ReadParam => outs := Read(current.index, current.subindex);
      case AwaitChecksum =>
      case UlFault => f := FaultUl;
      case InitDl => outs := Tell(DlStart);
      case Decompose => f := DecomposeAction(e);
      case WriteParam => outs := WriteParamAction();
      case DlDoneAction => outs := Tell(DlEnd);
      case DlFault => f := FaultDl;
      case _ => outs, f := Check(a);
    }

    /** iolink_ds_event: takes rows of the table until none raises an event. */
    method Raise(e: Event) returns (outs: seq<Out>)
      requires Valid(View()) && Raisable(View(), e) && e != NoEvent
      modifies this
      ensures Valid(View()) && (View(), outs) == React(old(View()), e)
      ensures data[..] == old(data[..]) && entries[..] == old(entries[..])
    {
      ghost var goal := React(View(), e);
      outs := [];
      var f := e;
      while f != NoEvent
        invariant Valid(View()) && Raisable(View(), f) && Remains(goal, View(), f, outs)
        decreases Rank(state, f)
      {
        RowTaken(goal, View(), f, outs);
        var row := Next(state, f);
        if row.None? {
          break;
        }
        state := row.value.0;
        var more, g := Do(row.value.1, f);
        outs, f := outs + more, g;
      }
    }

    /** Reads the index list off the reply, up to index 0. */
    method ParseIndexList(raw: Buffer)
      requires Valid(View())
      modifies this`listCount, entries
      ensures View() == old(View()).(list := ParseList(old(View()).list, raw, 0))
    {
      ghost var before := IndexList(listCount, listPos, entries[..]);
      var i, at := 0, 0;
      while i < MaxEntries
        modifies this`listCount, entries
        invariant i <= MaxEntries && at == 3 * i && listCount <= MaxEntries
        invariant ParseList(IndexList(listCount, listPos, entries[..]), raw, i) == ParseList(before, raw, 0)
      {
        var index := BigEndian16(raw[at], raw[at + 1]);
        if index == 0 {
          listCount := i;
          break;
        }
        entries[i] := Entry(index, raw[at + 2]);
        at := at + 3;
        i := i + 1;
      }
      assert IndexList(listCount, listPos, entries[..]) == ParseList(before, raw, 0);
    }

    /** Writes `bytes` at the position and moves on. */
    method Push(bytes: seq<byte>)
      requires pos + |bytes| <= data.Length
      modifies this`pos, data
      ensures pos == old(pos) + |bytes|
      ensures data[..] == old(data[..pos]) + bytes + old(data[pos + |bytes|..])
    {
      var i := 0;
      while i < |bytes|
        modifies data
        invariant i <= |bytes|
        invariant forall k :: 0 <= k < i ==> data[pos + k] == bytes[k]
        invariant forall k :: 0 <= k < pos || pos + |bytes| <= k < data.Length ==> data[k] == old(data[k])
      {
        data[pos + i] := bytes[i];
        i := i + 1;
      }
      pos := pos + |bytes|;
    }

    /** Appends the parameter just read to the store, if there is room. */
    method Append(value: seq<byte>)
      requires Valid(View()) && pos <= StoreSize && |value| < 256
      modifies this`pos, data
      ensures View() == old(View()).(store := StoreRecord(old(View()).store, current, value))
    {
      if pos + 2 + 1 + |value| < StoreSize {
        ghost var p, before := pos, data[..];
        var head := [current.index / 256, current.index % 256, current.subindex, |value|];
        Push(head);
        assert data[..pos] == before[..p] + head && data[pos + |value|..] == before[pos + |value|..];
        Push(value);
        assert before[..p] + head + value == before[..p] + (head + value);
      }
    }

    /** A checksum that is too short is reported, and used all the same. */
    method ChecksumReply(r: Reply) returns (outs: seq<Out>)
      requires Valid(View())
      modifies this
      ensures Valid(View()) && (View(), outs) == TakeChecksum(old(View()), r)
    {
      outs := [];
      if r.len < 4 {
        outs := Raise(ComErr);
      }
      device := device.(cs := BigEndian32(r.raw));
    }

    method ParameterReply(r: Reply) returns (outs: seq<Out>)
      requires Sound(View()) && state == ReadParameter && r.error == NoError
      modifies this, data, entries
      ensures Valid(View()) && (View(), outs) == ReadCnf(old(View()), r)
    {
      if current.index == DsIndex && current.subindex == SubIndexList {
        ParseIndexList(r.raw);
      } else {
        Append(r.Payload());
      }
      outs := Raise(ReadDone);
    }

    /** ds_read_cnf_cb. */
    method ReadConfirmed(r: Reply) returns (outs: seq<Out>)
      requires Sound(View())
      modifies this, data, entries
      ensures Valid(View()) && (View(), outs) == ReadCnf(old(View()), r)
    {
      outs := [];
      if r.error == ComError {
        outs := Raise(ComErr);
        return;
      }
      var more;
      match state
      case CheckIdentity =>
        if r.error != NoError || r.len < 4 {
          outs := Raise(FaultId);
        } else {
          device := device.(sizeMax := BigEndian32(r.raw));
          outs := Raise(Passed);
        }
      case CheckMemSize =>
        if r.error != NoError || r.len != 1 {
          outs := Raise(FaultSize);
        } else {
          device := device.(property := r.raw[0]);
          outs := Raise(Passed);
        }
      case ReadParameter =>
        if r.error != NoError {
          outs := Raise(DevErr);
        } else {
          outs := ParameterReply(r);
        }
      case CheckUpload =>
        outs := ChecksumReply(r);
        more := Raise(NoUpload);
        outs := outs + more;
      case StoreDataSet =>
        outs := ChecksumReply(r);
        more := Tell(UlEnd);
        outs := outs + more;
      case DownloadDone =>
        outs := ChecksumReply(r);
        more := Raise(Done);
        outs := outs + more;
      case _ =>
    }

    /** ds_write_cnf_cb. */
    method WriteConfirmed(ok: bool) returns (outs: seq<Out>)
      requires Sound(View())
      modifies this
      ensures Valid(View()) && (View(), outs) == WriteCnf(old(View()), ok)
    {
      outs := [];
      if !ok {
        outs := Raise(ComErr);
        return;
      }
      match state
      case CheckUpload => outs := Raise(DoUpload);
      case CheckValidity => outs := Raise(DoUpload);
      case WriteParameter => outs := Raise(WrDone);
      case StoreDataSet =>
        id, cs, valid := pending, device.cs, true;
        outs := Raise(UlDone);
      case DecomposeSet => outs := Raise(Download);
      case DownloadDone => outs := Read(DsIndex, SubChecksum);
      case Faulty =>
        var reported := fault;
        var more := Raise(FaultDone);
        outs := [DsFault(reported)] + more;
      case _ =>
    }

    /** ds_init_cb. */
    method Configure(c: Config) returns (outs: seq<Out>)
      requires Sound(View())
      modifies this
      ensures Valid(View()) && (View(), outs) == React(Configured(old(View()), c), Init)
    {
      upload, download, fault := c.upload, c.download, NoFault;
      if c.enable {
        enable := true;
      }
      pending := c.pending;
      assert View() == Configured(old(View()), c);
      outs := Raise(Init);
    }
  }
}
