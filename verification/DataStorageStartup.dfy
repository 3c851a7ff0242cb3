/** What a startup of Data Storage decides, from the replies of the device: fault,
    upload, download, or nothing to do (section 11.4.4 of the IO-Link Interface
    Specification v1.1.3). The parameter of Data Storage has index 3; its subindices
    are command 1, state property 2, size 3 and checksum 4, its commands upload start 1
    and end 2, download start 3 and end 4, and break 5. */
module DataStorageStartup {
  import opened Bytes
  import opened DataStorage
  import opened T = DataStorageTransfer

  /** In the state property, bits 1 and 2 set mean locked, bit 7 asks for an upload. */
  predicate IsLocked(property: byte) {
    HasBit(property, 1) && HasBit(property, 2)
  }

  lemma LockedExactly(property: byte)
    ensures Locked(property) <==> IsLocked(property)
    ensures property >= 0x80 <==> HasBit(property, 7)
  {
    Weights();
  }

  datatype Decision = NoSize | TooLarge | NoProperty | LockedUp | UploadAsked | UploadNeeded | Restore | UpToDate

  /** The replies to the three questions a startup asks. */
  datatype Replies = Replies(size: Reply, bytes: nat, property: Reply, checksum: Reply, n: nat)

  /** None of them reports lost communication, and `bytes` and `n` are what they say. */
  predicate Answers(r: Replies) {
    && r.size.error != ComError && r.property.error != ComError
    && Digits(r.size.raw, r.bytes) && Says(r.checksum, r.n)
  }

  /** What a startup decides for a device that is recognised. */
  function Decide(r: Replies, upload: bool, download: bool, valid: bool, cs: nat): Decision {
    if r.size.error != NoError || r.size.len < 4 then NoSize
    else if r.bytes > 2048 then TooLarge
    else if r.property.error != NoError || r.property.len != 1 then NoProperty
    else if IsLocked(r.property.raw[0]) then LockedUp
    else if HasBit(r.property.raw[0], 7) && upload then UploadAsked
    else if !valid then UploadNeeded
    else if download && cs != r.n then Restore
    else UpToDate
  }

  /** What has been asked and reported when the decision is made. */
  function Outcome(d: Decision): seq<Out> {
    match d
    case NoSize => [DsFault(IdFault)]
    case TooLarge => [DsFault(SizeFault)]
    case NoProperty => [ReadReq(3, 2), DsFault(SizeFault)]
    case LockedUp => [ReadReq(3, 2), DsFault(LockFault)]
    case UploadAsked => [ReadReq(3, 2), Command(1)]
    case UploadNeeded => [ReadReq(3, 2), ReadReq(3, 4), Command(1)]
    case Restore => [ReadReq(3, 2), ReadReq(3, 4), Command(3)]
    case UpToDate => [ReadReq(3, 2), ReadReq(3, 4), DsReady]
  }

  /** The replies that are asked for before the decision is made. */
  function Asked(r: Replies, d: Decision): seq<Cnf> {
    match d
    case NoSize => [Reads(r.size)]
    case TooLarge => [Reads(r.size)]
    case NoProperty => [Reads(r.size), Reads(r.property)]
    case LockedUp => [Reads(r.size), Reads(r.property)]
    case UploadAsked => [Reads(r.size), Reads(r.property)]
    case _ => [Reads(r.size), Reads(r.property), Reads(r.checksum)]
  }

  lemma SizeDecides(d: Ds, r: Replies)
    requires Sound(d) && d.state == CheckIdentity && Answers(r)
    ensures
      var (g, outs) := ReadCnf(d, r.size);
      && Sound(g) && g.store == d.store && g.upload == d.upload && g.download == d.download
      && if r.size.error != NoError || r.size.len < 4 then g.state == Waiting && outs == [DsFault(IdFault)]
         else if r.bytes > 2048 then g.state == Waiting && outs == [DsFault(SizeFault)]
         else g.state == CheckMemSize && outs == [ReadReq(3, 2)]
  {
    if r.size.error == NoError && r.size.len >= 4 {
      SizeChecked(d, r.size, r.bytes);
    }
  }

  lemma PropertyDecides(d: Ds, property: Reply)
    requires Sound(d) && d.state == CheckMemSize && property.error != ComError
    ensures
      var (g, outs) := ReadCnf(d, property);
      && Sound(g) && g.store == d.store && g.upload == d.upload && g.download == d.download
      && if property.error != NoError || property.len != 1 then g.state == Waiting && outs == [DsFault(SizeFault)]
         else if IsLocked(property.raw[0]) then g.state == Waiting && !g.enable && outs == [DsFault(LockFault)]
         else g.state == CheckUpload && outs == [if HasBit(property.raw[0], 7) && d.upload then Command(1) else ReadReq(3, 4)]
  {
    LockedExactly(property.raw[0]);
  }

  lemma ChecksumDecides(d: Ds, checksum: Reply, n: nat)
    requires Sound(d) && d.state == CheckUpload && Says(checksum, n)
    ensures
      var (g, outs) := ReadCnf(d, checksum);
      && Sound(g) && g.store == d.store
      && if !d.store.valid then g.state == CheckValidity && outs == [Command(1)]
         else if d.download && d.store.cs != n then g.state == DecomposeSet && outs == [Command(3)]
         else g.state == Waiting && outs == [DsReady]
  {
    if d.store.valid {
      SetsCompared(d, checksum, n);
    } else {
      assert [] + [Command(1)] == [Command(1)];
    }
  }

  /** The state and the requests a decision comes to, `s` being the state before it. */
  predicate Came(s: Ds, d: Decision, x: Step) {
    && Sound(x.0) && x.0.store == s.store && x.1 == Outcome(d)
    && (x.0.state == Waiting <==> d !in {UploadAsked, UploadNeeded, Restore})
  }

  predicate IsPlay(s: Ds, cs: seq<Cnf>, x: Step) {
    x == T.Play(s, cs)
  }

  /** The answers lead there; unfolded only where `IsPlay` is mentioned. */
  ghost predicate Comes(s: Ds, cs: seq<Cnf>, d: Decision) {
    forall x: Step :: IsPlay(s, cs, x) ==> Came(s, d, x)
  }

  /** The whole decision: a startup asks for the size, then for the state property,
      then for the checksum, as far as it needs them, and comes to what they call for. */
  lemma StartupDecides(d: Ds, r: Replies)
    requires Sound(d) && d.state == Waiting && Recognised(d) && Answers(r)
    ensures
      var decision := Decide(r, d.upload, d.download, d.store.valid, d.store.cs);
      var (s, first) := React(d, Startup);
      var (g, outs) := T.Play(s, Asked(r, decision));
      && first == [ReadReq(3, 3)] && Sound(g) && g.store == d.store && outs == Outcome(decision)
      && (g.state == Waiting <==> decision !in {UploadAsked, UploadNeeded, Restore})
  {
    var decision := Decide(r, d.upload, d.download, d.store.valid, d.store.cs);
    var s := React(d, Startup).0;
    SizeDecides(s, r);
    if decision == NoSize || decision == TooLarge {
      var (a, x) := ReadCnf(s, r.size);
      PlayOne(s, Reads(r.size), a, x);
    } else if decision in {UploadNeeded, Restore, UpToDate} {
      PlayToChecksum(s, r, decision);
    } else {
      PlayToProperty(s, r, decision);
    }
    assert IsPlay(s, Asked(r, decision), T.Play(s, Asked(r, decision)));
  }

  /** The state property decides. */
  lemma PlayToProperty(s: Ds, r: Replies, decision: Decision)
    requires Sound(s) && s.state == CheckIdentity && Answers(r)
    requires decision == Decide(r, s.upload, s.download, s.store.valid, s.store.cs)
    requires decision in {NoProperty, LockedUp, UploadAsked}
    ensures Comes(s, Asked(r, decision), decision)
  {
    SizeDecides(s, r);
    var a := ReadCnf(s, r.size).0;
    PropertyDecides(a, r.property);
    PlayTwo(s, Reads(r.size), Reads(r.property), []);
    assert [Reads(r.size), Reads(r.property)] + [] == [Reads(r.size), Reads(r.property)];
    var b := ReadCnf(a, r.property).0;
    assert T.Play(b, []) == (b, []);
  }

  /** The checksum decides. */
  lemma PlayToChecksum(s: Ds, r: Replies, decision: Decision)
    requires Sound(s) && s.state == CheckIdentity && Answers(r)
    requires decision == Decide(r, s.upload, s.download, s.store.valid, s.store.cs)
    requires decision in {UploadNeeded, Restore, UpToDate}
    ensures Comes(s, Asked(r, decision), decision)
  {
    SizeDecides(s, r);
    var a := ReadCnf(s, r.size).0;
    PropertyDecides(a, r.property);
    var b := ReadCnf(a, r.property).0;
    ChecksumDecides(b, r.checksum, r.n);
    var (c, z) := ReadCnf(b, r.checksum);
    PlayTwo(s, Reads(r.size), Reads(r.property), [Reads(r.checksum)]);
    PlayOne(b, Reads(r.checksum), c, z);
    assert [Reads(r.size), Reads(r.property)] + [Reads(r.checksum)] == [Reads(r.size), Reads(r.property), Reads(r.checksum)];
  }

  /** A device of another identity than the set's is a fault at once. */
  lemma StrangerRefused(d: Ds)
    requires Sound(d) && d.state == Waiting && !Recognised(d)
    ensures React(d, Startup) == (d, [DsFault(IdFault)])
  {
  }

  /** A set that has been deleted is not restored: the next startup with any device
      leads to a fault or to an upload, and to a download in no case. */
  lemma DeletedIsNotRestored(d: Ds, e: Ds, r: Replies)
    requires Sound(d) && d.state == Waiting
    requires Sound(e) && e.state == Waiting && e.store == React(d, Delete).0.store && Answers(r)
    ensures Recognised(e) && !e.store.valid
    ensures Decide(r, e.upload, e.download, e.store.valid, e.store.cs) !in {Restore, UpToDate}
    ensures
      var decision := Decide(r, e.upload, e.download, e.store.valid, e.store.cs);
      Command(3) !in T.Play(React(e, Startup).0, Asked(r, decision)).1
  {
    StartupDecides(e, r);
  }

  /** An error during an upload or a download breaks it off, and is reported as a fault
      of that kind once the device has taken the break. */
  lemma BrokenTransferFaults(d: Ds)
    requires Sound(d) && d.state in {ReadParameter, StoreDataSet, WriteParameter, DownloadDone}
    ensures
      var (g, outs) := React(d, ComErr);
      var fault := if d.state == ReadParameter || d.state == StoreDataSet then UpFault else DownFault;
      && outs == [Command(5)] && Sound(g)
      && WriteCnf(g, true).0.state == Waiting && WriteCnf(g, true).1 == [DsFault(fault)]
  {
    var g := React(d, ComErr).0;
    assert [DsFault(g.fault)] + [] == [DsFault(g.fault)];
  }
}
