/** The Event state machine of the application layer, and events from the device's
    event memory to the diagnosis unit (section 8.3.3 of the IO-Link Interface
    Specification v1.1.3). */
module AlEvents {
  import opened Bytes
  import opened DlTypes
  import E = EventHandler

  datatype State = EventIdle | ReadEventSet | EventHandling

  datatype DiagEntry = DiagEntry(qualifier: byte, code: nat)

  /** `entries` is never cleared: beyond `count` it holds events of earlier sets. */
  datatype Collector = Collector(state: State, count: nat, entries: seq<DiagEntry>)

  /** What AL_Event_ind is given. */
  datatype Indication = Indication(count: nat, entries: seq<DiagEntry>)

  type Step = (Collector, seq<Indication>)

  predicate Inv(c: Collector) {
    && |c.entries| == E.MaxEvents && c.count <= E.MaxEvents
    && (c.state == EventIdle ==> c.count == 0)
  }

  function Entry(o: Out): DiagEntry
    requires o.EventInd?
  {
    DiagEntry(o.eventQualifier, o.code)
  }

  /** One DL_Event_ind; the seventh of a set is an assertion failure in the source. */
  function EventInd(c: Collector, o: Out): (r: Step)
    requires Inv(c) && o.EventInd? && c.count < E.MaxEvents
    ensures Inv(r.0) && r.0.count == c.count + 1
  {
    var d := c.(entries := c.entries[c.count := Entry(o)], count := c.count + 1);
    if c.state == EventHandling then (d, [])
    else if o.eventsLeft > 0 then (d.(state := ReadEventSet), [])
    else (d.(state := EventHandling), [Indication(d.count, d.entries)])
  }

  /** AL_Event_rsp. */
  function Respond(c: Collector): (d: Collector)
    requires Inv(c)
    ensures Inv(d)
  {
    if c.state == EventHandling then c.(state := EventIdle, count := 0) else c
  }

  /** `outs` announce, each, how many of them are still to come. */
  predicate Counted(outs: seq<Out>) {
    forall i :: 0 <= i < |outs| ==> outs[i].EventInd? && outs[i].eventsLeft == |outs| - 1 - i
  }

  function Collect(c: Collector, outs: seq<Out>): (r: Step)
    requires Inv(c) && c.count + |outs| <= E.MaxEvents && forall o <- outs :: o.EventInd?
    ensures Inv(r.0)
    decreases |outs|
  {
    if outs == [] then (c, [])
    else
      var first := EventInd(c, outs[0]);
      var rest := Collect(first.0, outs[1..]);
      (rest.0, first.1 + rest.1)
  }

  function Entries(outs: seq<Out>): (d: seq<DiagEntry>)
    requires forall o <- outs :: o.EventInd?
    ensures |d| == |outs|
  {
    seq(|outs|, i requires 0 <= i < |outs| => Entry(outs[i]))
  }

  /** The events of a set are stored one behind the other, after those that are there. */
  lemma {:induction false} SetCollected(c: Collector, outs: seq<Out>)
    requires Inv(c) && Counted(outs) && c.count + |outs| <= E.MaxEvents
    ensures
      var d := Collect(c, outs).0;
      && d.count == c.count + |outs|
      && d.entries == c.entries[..c.count] + Entries(outs) + c.entries[c.count + |outs|..]
    decreases |outs|
  {
    if outs == [] {
      assert c.entries[..c.count] + [] + c.entries[c.count..] == c.entries;
    } else {
      var first, rest := EventInd(c, outs[0]).0, outs[1..];
      FirstStored(c, outs);
      SetCollected(first, rest);
    }
  }

  /** The first event of a set, stored, and the others behind it. */
  lemma FirstStored(c: Collector, outs: seq<Out>)
    requires Inv(c) && outs != [] && Counted(outs) && c.count + |outs| <= E.MaxEvents
    ensures
      var d := EventInd(c, outs[0]).0;
      && Counted(outs[1..]) && d.count == c.count + 1
      && d.entries[..d.count] + Entries(outs[1..]) + d.entries[d.count + |outs[1..]|..] ==
         c.entries[..c.count] + Entries(outs) + c.entries[c.count + |outs|..]
  {
    assert Entries(outs) == [Entry(outs[0])] + Entries(outs[1..]);
    Spliced(c.entries, c.count, Entry(outs[0]), Entries(outs[1..]));
  }

  /** The last of them, and no other, leads to the indication. */
  lemma {:induction false} LastIndicates(c: Collector, outs: seq<Out>)
    requires Inv(c) && outs != [] && Counted(outs) && c.count + |outs| <= E.MaxEvents
    ensures
      var (d, inds) := Collect(c, outs);
      d.state == EventHandling && inds == if c.state == EventHandling then [] else [Indication(d.count, d.entries)]
    decreases |outs|
  {
    var first, rest := EventInd(c, outs[0]), outs[1..];
    if rest == [] {
      assert Collect(first.0, rest) == (first.0, []);
      assert first.1 + [] == first.1;
    } else {
      LastIndicates(first.0, rest);
      assert first.1 == [] && [] + Collect(first.0, rest).1 == Collect(first.0, rest).1;
    }
  }

  /** A set that begins while nothing is pending is indicated once, when its last
      event arrives, with exactly its events; one that begins while the previous
      set is still being handled is not indicated at all. */
  lemma SetIndicatedOnce(c: Collector, outs: seq<Out>)
    requires Inv(c) && outs != [] && Counted(outs) && c.count + |outs| <= E.MaxEvents
    ensures
      var (d, inds) := Collect(c, outs);
      && d.state == EventHandling && d.count == c.count + |outs|
      && d.entries == c.entries[..c.count] + Entries(outs) + c.entries[c.count + |outs|..]
      && inds == if c.state == EventHandling then [] else [Indication(d.count, d.entries)]
  {
    SetCollected(c, outs);
    LastIndicates(c, outs);
  }

  lemma Spliced<T>(s: seq<T>, k: nat, x: T, more: seq<T>)
    requires k + 1 + |more| <= |s|
    ensures
      var t := s[k := x];
      t[..k + 1] + more + t[k + 1 + |more|..] == s[..k] + ([x] + more) + s[k + 1 + |more|..]
    ensures s[k := x] == s[..k] + [x] + s[k + 1..]
  {
  }

  /** The entries of a list of event-memory records. */
  function Decoded(records: seq<E.Record>): seq<DiagEntry> {
    seq(|records|, i requires 0 <= i < |records| =>
      DiagEntry(records[i].qualifier, BigEndian16(records[i].msb, records[i].lsb)))
  }

  /** End to end: a readout of event memory with details for the slots `slots` is
      indicated to the diagnosis unit once, as the list of exactly those slots. */
  lemma EventMemoryReachesDiagnosisUnit(f: E.Handler -> (E.Handler, seq<Out>), h: E.Handler, m: E.Memory, odLen: nat,
                                        slots: seq<E.Slot>, c: Collector)
    requires E.Inv(h) && E.Serves(f, m, odLen) && h.state == E.Idle && h.active && !h.confirmation
    requires HasBit(m[0], 7) && E.Announced(m[0], slots) && slots != []
    requires Inv(c) && c.state == EventIdle
    ensures
      var outs := E.Rounds(f, h, 1 + 3 * |slots|).1;
      var n := 1 + |E.Reads(slots)|;
      && n <= |outs| && Counted(outs[n..]) && |outs[n..]| == |slots|
      && exists entries: seq<DiagEntry> ::
           && Collect(c, outs[n..]).1 == [Indication(|slots|, entries)]
           && |entries| == E.MaxEvents && entries[..|slots|] == Decoded(E.Records(m, slots))
  {
    E.ReadoutWithDetails(f, h, m, odLen, slots);
    var walk, batch := E.Reads(slots), E.Batch(E.Records(m, slots));
    var outs := [E.Read(0)] + (walk + batch);
    assert outs[1 + |walk|..] == batch;
    SetIndicatedOnce(c, batch);
    var entries := Collect(c, batch).0.entries;
    assert Entries(batch) == Decoded(E.Records(m, slots));
    assert entries[..|slots|] == Decoded(E.Records(m, slots));
  }

  // --- What the diagnosis unit makes of an indication -------------------------

  const UploadRequest: nat := 0xFF91

  /** The default AL_Event_ind reports the set, unless one of the six entries asks
      for an upload to Data Storage. */
  datatype Reaction = Upload | Report(events: seq<DiagEntry>)

  function React(i: Indication): Reaction
    requires i.count <= |i.entries|
  {
    if exists e <- i.entries :: e.code == UploadRequest then Upload else Report(i.entries[..i.count])
  }

  /** A set is reported exactly if neither it nor what earlier sets left behind its
      end asks for an upload. */
  lemma ReportedUnlessUploadRequested(c: Collector, outs: seq<Out>)
    requires Inv(c) && c.state == EventIdle && 1 <= |outs| <= E.MaxEvents && Counted(outs)
    ensures
      var inds := Collect(c, outs).1;
      && |inds| == 1 && inds[0].count <= |inds[0].entries|
      && (React(inds[0]) == Report(Entries(outs)) <==>
          (forall e <- Entries(outs) :: e.code != UploadRequest) &&
          (forall e <- c.entries[|outs|..] :: e.code != UploadRequest))
  {
    SetIndicatedOnce(c, outs);
    var entries := Collect(c, outs).0.entries;
    assert c.entries[..0] == [];
    assert entries == Entries(outs) + c.entries[|outs|..];
    assert entries[..|outs|] == Entries(outs);
  }

  /** So an upload request is acted on again by a later, shorter set that does not
      contain it: the second set is a single event without details. */
  lemma StaleUploadRequest()
    ensures
      var none := DiagEntry(0, 0);
      var c := Collector(EventIdle, 0, [none, none, none, none, none, none]);
      var first := [Out.EventInd(0x1000, 0, 1), Out.EventInd(UploadRequest, 0, 0)];
      var second := [Out.EventInd(0x6320, 0x74, 0)];
      var later := Respond(Collect(c, first).0);
      && Inv(c) && Inv(later) && later.state == EventIdle && Counted(first) && Counted(second)
      && React(Collect(later, second).1[0]) == Upload
  {
    var none := DiagEntry(0, 0);
    var c := Collector(EventIdle, 0, [none, none, none, none, none, none]);
    var first := [Out.EventInd(0x1000, 0, 1), Out.EventInd(UploadRequest, 0, 0)];
    var second := [Out.EventInd(0x6320, 0x74, 0)];
    SetIndicatedOnce(c, first);
    var later := Respond(Collect(c, first).0);
    SetIndicatedOnce(later, second);
    var entries := Collect(later, second).0.entries;
    assert later.entries[1] == Entries(first)[1];
    assert entries[1] == later.entries[1];
    assert entries[1].code == UploadRequest;
  }
}
