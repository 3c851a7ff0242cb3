/** The state machine of the master Event handler as a step function on values,
    and what a readout of the event memory delivers (section 7.3.8 of the IO-Link
    Interface Specification v1.1.3). */
module EventHandler {
  import opened Bytes
  import opened DlTypes

  const MaxEvents: nat := 6

  type Slot = k: nat | k < MaxEvents

  datatype State = Inactive | Idle | Reading

  /** One slot of the event memory as read so far. */
  datatype Record = Record(qualifier: byte, msb: byte, lsb: byte)

  const NoRecord := Record(0, 0, 0)

  datatype Handler = Handler(
    state: State,
    active: bool,
    confirmation: bool,
    addr: byte,
    flags: Flags,
    entries: nat,
    slot: nat,
    current: nat,
    events: seq<Record>)

  type Step = (Handler, seq<Out>)

  /** While event memory is read, the handler is at one of the three bytes of a
      flagged slot, and the slots read plus those still flagged are all entries. */
  predicate Inv(h: Handler) {
    && |h.events| == MaxEvents && h.entries <= MaxEvents
    && (h.state == Reading ==> if h.addr == 0 then h.entries == 0 && h.current == 0 else AtMemory(h))
  }

  predicate AtMemory(h: Handler) {
    && h.flags[7] && h.slot < MaxEvents && h.flags[h.slot]
    && 3 * h.slot < h.addr <= 3 * h.slot + 3
    && h.entries == |Slots(h.flags, 0)| && h.current + |Slots(h.flags, h.slot)| == h.entries
  }

  /** Flagged slots from `k` up, in ascending order. */
  function Slots(flags: Flags, k: nat): (s: seq<Slot>)
    ensures |s| <= if k < MaxEvents then MaxEvents - k else 0
    ensures forall i :: 0 <= i < |s| ==> k <= s[i]
    decreases MaxEvents - k
  {
    if k >= MaxEvents then []
    else if flags[k] then [k] + Slots(flags, k + 1)
    else Slots(flags, k + 1)
  }

  /** `Slots` leaves out no flagged slot and adds none. */
  lemma {:induction false} SlotsAreTheFlagged(flags: Flags, k: nat, j: nat)
    requires k <= j < MaxEvents
    ensures flags[j] <==> j in Slots(flags, k)
    decreases MaxEvents - k
  {
    var rest := Slots(flags, k + 1);
    if k < j {
      SlotsAreTheFlagged(flags, k + 1, j);
      assert flags[k] ==> Slots(flags, k) == [k] + rest;
    } else if flags[k] {
      assert Slots(flags, k)[0] == k;
    } else {
      assert Slots(flags, k) == rest;
    }
  }

  predicate Ascending(s: seq<nat>) {
    forall i, j :: 0 <= i < j < |s| ==> s[i] < s[j]
  }

  lemma {:induction false} SlotsAscend(flags: Flags, k: nat)
    ensures Ascending(Slots(flags, k))
    decreases MaxEvents - k
  {
    if k < MaxEvents {
      SlotsAscend(flags, k + 1);
      PrependAscends(k, Slots(flags, k + 1));
      assert [] + Slots(flags, k + 1) == Slots(flags, k + 1);
    }
  }

  lemma PrependAscends(k: nat, s: seq<nat>)
    requires Ascending(s) && forall i :: 0 <= i < |s| ==> k < s[i]
    ensures Ascending([k] + s)
  {
  }

  /** `slots` are the slots whose bits are set in the status code, in ascending order. */
  ghost predicate Announced(status: byte, slots: seq<Slot>) {
    |slots| <= MaxEvents && Ascending(slots) && forall k: Slot :: k in slots <==> HasBit(status, k)
  }

  lemma SlotsAreAnnounced(status: byte)
    ensures Announced(status, Slots(Bits(status), 0))
  {
    SlotsAscend(Bits(status), 0);
    forall k: Slot ensures k in Slots(Bits(status), 0) <==> HasBit(status, k) {
      SlotsAreTheFlagged(Bits(status), 0, k);
      FlagIsBit(status, k);
    }
  }

  /** Two ascending lists of the same slots are the same list. */
  lemma {:induction false} AscendingOnce(a: seq<Slot>, b: seq<Slot>)
    requires Ascending(a) && Ascending(b) && forall k: Slot :: k in a <==> k in b
    ensures a == b
    decreases |a|
  {
    FirstIn(a, b);
    FirstIn(b, a);
    if a != [] && b != [] {
      SameFirst(a, b);
      forall k: Slot ensures k in a[1..] <==> k in b[1..] {
        assert k in a[1..] <==> k in a && k != a[0] by { RestHas(a, k); }
        assert k in b[1..] <==> k in b && k != b[0] by { RestHas(b, k); }
      }
      AscendingOnce(a[1..], b[1..]);
    }
  }

  lemma FirstIn(a: seq<Slot>, b: seq<Slot>)
    requires forall k: Slot :: k in a <==> k in b
    ensures b != [] ==> b[0] in a
  {
    if b != [] {
      assert b[0] in b;
    }
  }

  lemma RestHas(a: seq<Slot>, k: Slot)
    requires Ascending(a) && a != []
    ensures k in a[1..] <==> k in a && k != a[0]
  {
    if k in a[1..] {
      var i :| 0 <= i < |a[1..]| && a[1..][i] == k;
      assert a[0] < a[i + 1];
    }
  }

  lemma SameFirst(a: seq<Slot>, b: seq<Slot>)
    requires Ascending(a) && Ascending(b) && a != [] && b != [] && forall k: Slot :: k in a <==> k in b
    ensures a[0] == b[0]
  {
    assert a[0] in b && b[0] in a;
    var i :| 0 <= i < |b| && b[i] == a[0];
    var j :| 0 <= j < |a| && a[j] == b[0];
  }

  lemma AnnouncedAreSlots(status: byte, slots: seq<Slot>)
    requires Announced(status, slots)
    ensures slots == Slots(Bits(status), 0)
  {
    SlotsAreAnnounced(status);
    AscendingOnce(slots, Slots(Bits(status), 0));
  }

  /** The first flagged slot from `k` up, or 6. */
  function NextSlot(flags: Flags, k: nat): (s: nat)
    requires k <= MaxEvents
    ensures k <= s <= MaxEvents && (s < MaxEvents ==> flags[s])
    ensures Slots(flags, s) == Slots(flags, k)
    decreases MaxEvents - k
  {
    if k == MaxEvents || flags[k] then k else NextSlot(flags, k + 1)
  }

  function Read(addr: nat): Out {
    Od(OdReq(false, Diagnosis, addr, []))
  }

  /** The indications of a batch: each carries how many follow it. */
  function Batch(events: seq<Record>): seq<Out> {
    seq(|events|, i requires 0 <= i < |events| =>
      EventInd(BigEndian16(events[i].msb, events[i].lsb), events[i].qualifier, |events| - 1 - i))
  }

  // Events without details: code and qualifier (application, device, single shot).
  const PlainEvents: seq<(nat, byte)> :=
    [(0xFF80, 0x54), (0xFF80, 0x64), (0x6320, 0x74), (0xFF80, 0x74), (0xFF10, 0x74)]

  /** The indications of a status code without details, from flag `k` up. */
  function PlainBatch(flags: Flags, k: nat): (outs: seq<Out>)
    ensures |outs| == PlainCount(flags, k)
    ensures forall i :: 0 <= i < |outs| ==> outs[i].EventInd? && outs[i].eventsLeft == |outs| - 1 - i
    decreases 5 - k
  {
    if k >= 5 then []
    else if flags[k] then
      [EventInd(PlainEvents[k].0, PlainEvents[k].1, PlainCount(flags, k + 1))] + PlainBatch(flags, k + 1)
    else PlainBatch(flags, k + 1)
  }

  /** Flags among the five of a status code without details. */
  function PlainCount(flags: Flags, k: nat): (n: nat)
    ensures n <= if k < 5 then 5 - k else 0
    decreases 5 - k
  {
    if k >= 5 then 0 else (if flags[k] then 1 else 0) + PlainCount(flags, k + 1)
  }

  /** All events are read: indicate them and have the readout confirmed. */
  function Signal(h: Handler): (r: Step)
    requires |h.events| == MaxEvents && h.entries <= MaxEvents
    ensures Inv(r.0)
  {
    if h.flags[7] then
      (h.(state := Idle, confirmation := true, current := h.entries), Batch(h.events[..h.entries]))
    else
      (h.(state := Idle, confirmation := true, entries := 0), PlainBatch(h.flags, 0))
  }

  function StatusCode(h: Handler, flags: Flags): (r: Step)
    requires Inv(h) && h.state == Reading && h.addr == 0
    ensures Inv(r.0)
  {
    if flags[7] then
      var first := NextSlot(flags, 0);
      (h.(flags := flags, entries := |Slots(flags, 0)|,
          addr := if first < MaxEvents then 1 + 3 * first else 0,
          slot := if first < MaxEvents then first else 0), [])
    else Signal(h.(flags := flags, entries := PlainCount(flags, 0)))
  }

  /** The third byte of a slot completes it and leads to the next one. */
  function LastByte(h: Handler, b: byte): (r: Step)
    requires Inv(h) && h.state == Reading && h.addr == 3 * h.slot + 3
    ensures Inv(r.0)
  {
    assert Slots(h.flags, h.slot) == [h.slot] + Slots(h.flags, h.slot + 1);
    var next := NextSlot(h.flags, h.slot + 1);
    assert next < MaxEvents ==> |Slots(h.flags, next)| > 0;
    // Flag 6 has no slot, yet the scan for the next slot looks at it.
    var addr := if next < MaxEvents || h.flags[6] then 1 + 3 * next else h.addr;
    var events := h.events[h.current := h.events[h.current].(lsb := b)];
    var g := h.(events := events, slot := next, addr := addr, current := h.current + 1);
    if next < MaxEvents then (g, []) else Signal(g)
  }

  function MemoryByte(h: Handler, b: byte): (r: Step)
    requires Inv(h) && h.state == Reading && h.addr != 0
    ensures Inv(r.0)
  {
    var i, e := h.current, h.events[h.current];
    match h.addr - 3 * h.slot
    case 1 => (h.(events := h.events[i := e.(qualifier := b)], addr := h.addr + 1), [])
    case 2 => (h.(events := h.events[i := e.(msb := b)], addr := h.addr + 1), [])
    case 3 => LastByte(h, b)
  }

  function IdleStep(h: Handler, t: Trigger, comlost: bool, odLen: nat): (r: Step)
    requires Inv(h) && h.state == Idle
    ensures Inv(r.0)
  {
    if !h.active then (h.(state := Inactive), [])
    else if t != MasterMessage then (h, [])
    else if h.confirmation then
      if comlost then (h.(state := Inactive), [])
      else (h.(confirmation := false), [Od(OdReq(true, Diagnosis, 0, Pad([ControlByte(true, Diagnosis, 0)], odLen)))])
    else
      (h.(state := Reading, addr := 0, entries := 0, current := 0, events := seq(MaxEvents, _ => NoRecord)), [Read(0)])
  }

  /** One step; `rx0` is the first on-request byte of the last device message. */
  function HandlerStep(h: Handler, t: Trigger, comlost: bool, odLen: nat, rx0: byte): (r: Step)
    requires Inv(h)
    ensures Inv(r.0)
  {
    match h.state
    case Inactive => (if h.active then h.(state := Idle) else h, [])
    case Idle => IdleStep(h, t, comlost, odLen)
    case Reading =>
      if comlost then (h.(state := Inactive), [])
      else if t == MasterMessage then (h, [Read(h.addr)])
      else if t != DeviceMessage then (h, [])
      else if h.addr == 0 then StatusCode(h, Bits(rx0)) else MemoryByte(h, rx0)
  }

  /** Whenever the last byte of the last slot arrives, the number of slots read is
      the number of entries the status code announced. */
  lemma ReadsWhatItCounted(h: Handler)
    requires Inv(h) && h.state == Reading && h.addr != 0
    requires h.addr == 3 * h.slot + 3 && NextSlot(h.flags, h.slot + 1) == MaxEvents
    ensures h.current + 1 == h.entries
  {
    assert Slots(h.flags, h.slot) == [h.slot] + Slots(h.flags, h.slot + 1);
  }

  // --- A whole readout -------------------------------------------------------

  /** The event memory of a device: status code and six slots of three bytes. */
  type Memory = m: seq<byte> | |m| == 19 witness Zeros(19)

  /** A master message and the device's answer to it, from event memory `m`. */
  function Round(h: Handler, m: Memory, odLen: nat): (r: Step)
    requires Inv(h)
    ensures Inv(r.0)
  {
    var a := HandlerStep(h, MasterMessage, false, odLen, 0);
    var answer := if |a.1| > 0 && a.1[0].Od? && a.1[0].req.addr < 19 then m[a.1[0].req.addr] else 0;
    var b := HandlerStep(a.0, DeviceMessage, false, odLen, answer);
    (b.0, a.1 + b.1)
  }

  /** `n` rounds, each as `f` has it. */
  function Rounds(f: Handler -> (Handler, seq<Out>), h: Handler, n: nat): (Handler, seq<Out>)
    decreases n
  {
    if n == 0 then (h, []) else (Rounds(f, f(h).0, n - 1).0, f(h).1 + Rounds(f, f(h).0, n - 1).1)
  }

  /** `f` is a round with a device whose event memory is `m`. */
  ghost predicate Serves(f: Handler -> (Handler, seq<Out>), m: Memory, odLen: nat) {
    forall h: Handler :: ServesAt(f, h, m, odLen)
  }

  predicate ServesAt(f: Handler -> (Handler, seq<Out>), h: Handler, m: Memory, odLen: nat) {
    Inv(h) ==> f(h) == Round(h, m, odLen)
  }

  /** Where a slot of event memory begins. */
  function Address(k: Slot): nat {
    3 * (k as nat) + 1
  }

  /** The addresses of the flagged slots, three a slot. */
  function Reads(slots: seq<Slot>): seq<Out> {
    if slots == [] then []
    else [Read(Address(slots[0])), Read(Address(slots[0]) + 1), Read(Address(slots[0]) + 2)] + Reads(slots[1..])
  }

  /** What event memory holds at `slots`. */
  function Records(m: Memory, slots: seq<Slot>): (r: seq<Record>)
    ensures |r| == |slots|
  {
    if slots == [] then []
    else [Record(m[Address(slots[0])], m[Address(slots[0]) + 1], m[Address(slots[0]) + 2])] + Records(m, slots[1..])
  }

  lemma RoundAtByte(f: Handler -> (Handler, seq<Out>), h: Handler, m: Memory, odLen: nat)
    requires Inv(h) && Serves(f, m, odLen) && h.state == Reading && h.addr != 0
    ensures f(h) == (MemoryByte(h, m[h.addr]).0, [Read(h.addr)] + MemoryByte(h, m[h.addr]).1)
  {
    assert ServesAt(f, h, m, odLen);
  }

  /** `h` after the first two bytes of a slot. */
  function HalfRead(h: Handler, r: Record): Handler
    requires Inv(h) && h.state == Reading && h.addr == 3 * h.slot + 1
  {
    h.(events := h.events[h.current := r.(lsb := h.events[h.current].lsb)], addr := h.addr + 2)
  }

  lemma ReadTwoBytes(h: Handler, r: Record)
    requires Inv(h) && h.state == Reading && h.addr == 3 * h.slot + 1
    ensures MemoryByte(h, r.qualifier).1 == [] && MemoryByte(h, r.qualifier).0.addr == h.addr + 1
    ensures MemoryByte(h, r.qualifier).0.state == Reading
    ensures MemoryByte(MemoryByte(h, r.qualifier).0, r.msb) == (HalfRead(h, r), [])
  {
    var g := MemoryByte(h, r.qualifier).0;
    assert g.events[h.current := g.events[h.current].(msb := r.msb)] == HalfRead(h, r).events;
  }

  /** Three rounds read one slot. */
  lemma ReadSlot(f: Handler -> (Handler, seq<Out>), h: Handler, m: Memory, odLen: nat, n: nat, r: Record)
    requires Inv(h) && Serves(f, m, odLen) && h.state == Reading && h.addr == 3 * h.slot + 1 && n >= 3
    requires r == Record(m[h.addr], m[h.addr + 1], m[h.addr + 2])
    ensures
      var s := LastByte(HalfRead(h, r), r.lsb);
      Rounds(f, h, n) == (Rounds(f, s.0, n - 3).0,
      [Read(h.addr), Read(h.addr + 1), Read(h.addr + 2)] + s.1 + Rounds(f, s.0, n - 3).1)
  {
    ReadTwoBytes(h, r);
    var g1, g2 := MemoryByte(h, r.qualifier).0, HalfRead(h, r);
    RoundAtByte(f, h, m, odLen);
    RoundAtByte(f, g1, m, odLen);
    RoundAtByte(f, g2, m, odLen);
    var s := LastByte(g2, r.lsb);
    ThreeRounds(f, h, g1, g2, s.0, Read(h.addr), Read(h.addr + 1), Read(h.addr + 2), s.1, n);
  }

  lemma ThreeRounds(f: Handler -> (Handler, seq<Out>), h: Handler, g1: Handler, g2: Handler, g3: Handler,
                    a: Out, b: Out, c: Out, d: seq<Out>, n: nat)
    requires n >= 3 && f(h) == (g1, [a] + []) && f(g1) == (g2, [b] + []) && f(g2) == (g3, [c] + d)
    ensures Rounds(f, h, n) == (Rounds(f, g3, n - 3).0, [a, b, c] + d + Rounds(f, g3, n - 3).1)
  {
    assert Rounds(f, h, n) == (Rounds(f, g1, n - 1).0, [a] + [] + Rounds(f, g1, n - 1).1);
    assert Rounds(f, g1, n - 1) == (Rounds(f, g2, n - 2).0, [b] + [] + Rounds(f, g2, n - 2).1);
    var rest := Rounds(f, g3, n - 3).1;
    assert [a] + [] + ([b] + [] + ([c] + d + rest)) == [a, b, c] + d + rest;
  }

  /** After a slot, the handler is at the next flagged one, or has indicated all. */
  lemma AfterSlot(h: Handler, r: Record)
    requires Inv(h) && h.state == Reading && h.addr == 3 * h.slot + 1
    ensures
      var (g, outs) := LastByte(HalfRead(h, r), r.lsb);
      var next := NextSlot(h.flags, h.slot + 1);
      var sofar := h.events[..h.current] + [r];
      if next == MaxEvents then outs == Batch(sofar) && g.state == Idle && g.confirmation && h.entries == |sofar|
      else
        && outs == [] && g.state == Reading && g.slot == next && g.addr == 3 * next + 1
        && g.flags == h.flags && g.current == |sofar| && g.events[..g.current] == sofar
  {
    var half := HalfRead(h, r);
    assert half.events[half.current].(lsb := r.lsb) == r;
    var events := half.events[half.current := r];
    assert events[..h.current + 1] == h.events[..h.current] + [r];
    assert Slots(h.flags, h.slot) == [h.slot] + Slots(h.flags, h.slot + 1);
  }

  /** Three rounds and where they lead. */
  lemma SlotRounds(f: Handler -> (Handler, seq<Out>), h: Handler, m: Memory, odLen: nat, n: nat, r: Record)
    returns (g: Handler, outs: seq<Out>)
    requires Inv(h) && Serves(f, m, odLen) && h.state == Reading && h.addr == 3 * h.slot + 1 && n >= 3
    requires r == Record(m[h.addr], m[h.addr + 1], m[h.addr + 2])
    ensures Rounds(f, h, n) == (Rounds(f, g, n - 3).0,
                                [Read(h.addr), Read(h.addr + 1), Read(h.addr + 2)] + outs + Rounds(f, g, n - 3).1)
    ensures Inv(g)
    ensures
      var next := NextSlot(h.flags, h.slot + 1);
      var sofar := h.events[..h.current] + [r];
      if next == MaxEvents then outs == Batch(sofar) && g.state == Idle && g.confirmation
      else
        && outs == [] && g.state == Reading && g.slot == next && g.addr == 3 * next + 1
        && g.flags == h.flags && g.current == |sofar| && g.events[..g.current] == sofar
  {
    ReadSlot(f, h, m, odLen, n, r);
    AfterSlot(h, r);
    var s := LastByte(HalfRead(h, r), r.lsb);
    g, outs := s.0, s.1;
  }

  /** What is left of a readout at the first byte of a flagged slot. */
  function Remaining(slots: seq<Slot>, before: seq<Record>, m: Memory): seq<Out>
  {
    Reads(slots) + Batch(before + Records(m, slots))
  }

  lemma RemainingSplit(slots: seq<Slot>, before: seq<Record>, m: Memory, addr: nat, r: Record)
    requires slots != [] && addr == Address(slots[0])
    requires r == Record(m[addr], m[addr + 1], m[addr + 2])
    ensures |slots| > 1 ==>
              Remaining(slots, before, m) ==
              [Read(addr), Read(addr + 1), Read(addr + 2)] + [] + Remaining(slots[1..], before + [r], m)
    ensures |slots| == 1 ==>
              Remaining(slots, before, m) ==
              [Read(addr), Read(addr + 1), Read(addr + 2)] + Batch(before + [r]) + []
  {
    var head := [Read(addr), Read(addr + 1), Read(addr + 2)];
    Joined(before, [r], Records(m, slots[1..]));
    Joined(head, Reads(slots[1..]), Batch(before + Records(m, slots)));
    assert head + [] == head;
    assert before + [r] + [] == before + [r];
  }

  /** `h` is at the first of the flagged slots `slots` and has read `before`. */
  predicate AtSlot(h: Handler, slots: seq<Slot>, before: seq<Record>) {
    && slots != [] && Inv(h) && h.state == Reading && h.addr == 3 * h.slot + 1
    && slots == Slots(h.flags, h.slot) && before == h.events[..h.current]
  }

  /** The same, unfolded only where `AtSlot` is mentioned. */
  ghost predicate At(h: Handler, slots: seq<Slot>, before: seq<Record>) {
    forall g :: g == h ==> AtSlot(g, slots, before)
  }

  /** At the first of several flagged slots. */
  lemma NextSlotReached(f: Handler -> (Handler, seq<Out>), h: Handler, m: Memory, odLen: nat,
                        slots: seq<Slot>, before: seq<Record>, n: nat)
    returns (g: Handler, r: Record)
    requires Serves(f, m, odLen) && AtSlot(h, slots, before) && |slots| > 1 && n >= 3
    ensures At(g, slots[1..], before + [r])
    ensures h.addr == Address(slots[0]) && r == Record(m[h.addr], m[h.addr + 1], m[h.addr + 2])
    ensures Rounds(f, h, n) == (Rounds(f, g, n - 3).0,
                                [Read(h.addr), Read(h.addr + 1), Read(h.addr + 2)] + [] + Rounds(f, g, n - 3).1)
  {
    r := Record(m[h.addr], m[h.addr + 1], m[h.addr + 2]);
    SlotsFrom(h.flags, h.slot);
    var outs;
    g, outs := SlotRounds(f, h, m, odLen, n, r);
    assert AtSlot(g, slots[1..], before + [r]);
  }

  lemma NextSlotRounds(f: Handler -> (Handler, seq<Out>), h: Handler, m: Memory, odLen: nat,
                       slots: seq<Slot>, before: seq<Record>, n: nat)
    returns (g: Handler, r: Record)
    requires Serves(f, m, odLen) && At(h, slots, before) && |slots| > 1 && n >= 3
    ensures At(g, slots[1..], before + [r])
    ensures Rounds(f, h, n).0 == Rounds(f, g, n - 3).0
    ensures Rounds(f, g, n - 3).1 == Remaining(slots[1..], before + [r], m) ==>
              Rounds(f, h, n).1 == Remaining(slots, before, m)
  {
    assert AtSlot(h, slots, before);
    g, r := NextSlotReached(f, h, m, odLen, slots, before, n);
    RemainingSplit(slots, before, m, h.addr, r);
  }

  lemma LastSlotRounds(f: Handler -> (Handler, seq<Out>), h: Handler, m: Memory, odLen: nat,
                       slots: seq<Slot>, before: seq<Record>)
    returns (g: Handler)
    requires Serves(f, m, odLen) && At(h, slots, before) && |slots| == 1
    ensures Rounds(f, h, 3) == (g, Remaining(slots, before, m)) && g.state == Idle && g.confirmation
  {
    assert AtSlot(h, slots, before);
    var r := Record(m[h.addr], m[h.addr + 1], m[h.addr + 2]);
    SlotsFrom(h.flags, h.slot);
    RemainingSplit(slots, before, m, h.addr, r);
    var outs;
    g, outs := SlotRounds(f, h, m, odLen, 3, r);
  }

  lemma {:induction false} ReadoutFrom(f: Handler -> (Handler, seq<Out>), h: Handler, m: Memory, odLen: nat,
                                       slots: seq<Slot>, before: seq<Record>, n: nat)
    returns (last: Handler)
    requires Serves(f, m, odLen) && At(h, slots, before) && slots != [] && n == 3 * |slots|
    ensures Rounds(f, h, n) == (last, Remaining(slots, before, m)) && last.state == Idle && last.confirmation
    decreases |slots|
  {
    if |slots| == 1 {
      last := LastSlotRounds(f, h, m, odLen, slots, before);
    } else {
      var g, r := NextSlotRounds(f, h, m, odLen, slots, before, n);
      last := ReadoutFrom(f, g, m, odLen, slots[1..], before + [r], n - 3);
    }
  }

  lemma SlotsFrom(flags: Flags, k: nat)
    requires k < MaxEvents && flags[k]
    ensures Slots(flags, k) != [] && Slots(flags, k)[0] == k
    ensures
      var next := NextSlot(flags, k + 1);
      && Slots(flags, k)[1..] == Slots(flags, next)
      && (|Slots(flags, k)| == 1 <==> next == MaxEvents)
  {
    assert Slots(flags, k) == [k] + Slots(flags, k + 1);
  }

  lemma Joined<T>(a: seq<T>, b: seq<T>, c: seq<T>)
    ensures a + b + c == a + (b + c)
  {
  }

  lemma StatusRound(f: Handler -> (Handler, seq<Out>), h: Handler, m: Memory, odLen: nat, slots: seq<Slot>)
    returns (g: Handler)
    requires Inv(h) && Serves(f, m, odLen) && h.state == Idle && h.active && !h.confirmation
    requires Bits(m[0])[7] && slots == Slots(Bits(m[0]), 0) != []
    ensures f(h) == (g, [Read(0)]) && At(g, slots, [])
  {
    assert ServesAt(f, h, m, odLen);
    assert f(h).1 == [Read(0)];
    g := f(h).0;
    assert AtSlot(g, slots, []);
  }

  /** With details: from idle, one round for the status code and three for every
      flagged slot read exactly those addresses, in ascending order, and then
      indicate exactly what event memory holds there. */
  lemma ReadoutWithDetails(f: Handler -> (Handler, seq<Out>), h: Handler, m: Memory, odLen: nat, slots: seq<Slot>)
    requires Inv(h) && Serves(f, m, odLen) && h.state == Idle && h.active && !h.confirmation
    requires HasBit(m[0], 7) && Announced(m[0], slots) && slots != []
    ensures
      var (last, outs) := Rounds(f, h, 1 + 3 * |slots|);
      && outs == [Read(0)] + (Reads(slots) + Batch(Records(m, slots)))
      && last.state == Idle && last.confirmation
  {
    AnnouncedAreSlots(m[0], slots);
    FlagIsBit(m[0], 7);
    var g := StatusRound(f, h, m, odLen, slots);
    var last := ReadoutFrom(f, g, m, odLen, slots, [], 3 * |slots|);
    assert [] + Records(m, slots) == Records(m, slots);
  }

  // --- Events without details --------------------------------------------------------

  /** The event that bit `k` of a status code without details stands for: a
      notification, a warning or an error of the device's application. */
  function PlainCode(k: nat): nat {
    if k == 2 then 0x6320 else if k == 4 then 0xFF10 else 0xFF80
  }

  function PlainType(k: nat): nat {
    if k == 0 then 1 else if k == 1 then 2 else 3
  }

  /** One of five bits, and how many bits are set above it. */
  function PlainInd(k: nat, left: nat): Out
    requires k < 5
  {
    EventInd(PlainCode(k), 0x44 + 0x10 * PlainType(k), left)
  }

  /** `bits` are the bits from `from` to 4 that are set, in ascending order. */
  ghost predicate PlainBits(status: byte, from: nat, bits: seq<nat>) {
    && Ascending(bits)
    && forall k: nat :: k in bits <==> from <= k < 5 && HasBit(status, k)
  }

  /** The events of the bits in `bits`, each with the number of those after it. */
  function PlainInds(bits: seq<nat>): (outs: seq<Out>)
    ensures |outs| == |bits|
  {
    if bits == [] then []
    else [if bits[0] < 5 then PlainInd(bits[0], |bits| - 1) else EventInd(0, 0, 0)] + PlainInds(bits[1..])
  }

  lemma PlainEventMeans(k: nat, left: nat)
    requires k < 5
    ensures EventInd(PlainEvents[k].0, PlainEvents[k].1, left) == PlainInd(k, left)
  {
  }

  lemma PlainBitsExtend(status: byte, from: nat, rest: seq<nat>)
    requires from < 5 && PlainBits(status, from + 1, rest)
    ensures HasBit(status, from) ==> PlainBits(status, from, [from] + rest)
    ensures !HasBit(status, from) ==> PlainBits(status, from, rest)
  {
    if HasBit(status, from) {
      forall i | 0 <= i < |rest| ensures from < rest[i] {
        assert rest[i] in rest;
      }
      PrependAscends(from, rest);
    }
  }

  /** Without details, a status code stands for the events of its lower five bits. */
  lemma {:induction false} PlainBatchMeans(status: byte, from: nat) returns (bits: seq<nat>)
    requires from <= 5
    ensures PlainBits(status, from, bits) && PlainBatch(Bits(status), from) == PlainInds(bits)
    decreases 5 - from
  {
    if from == 5 {
      bits := [];
    } else {
      var rest := PlainBatchMeans(status, from + 1);
      FlagIsBit(status, from);
      PlainBitsExtend(status, from, rest);
      bits := if HasBit(status, from) then [from] + rest else rest;
      PlainEventMeans(from, |rest|);
      assert ([from] + rest)[1..] == rest;
    }
  }

  /** Without details: the status code alone says which events there are. */
  lemma ReadoutWithoutDetails(f: Handler -> (Handler, seq<Out>), h: Handler, m: Memory, odLen: nat)
    requires Inv(h) && Serves(f, m, odLen) && h.state == Idle && h.active && !h.confirmation && !HasBit(m[0], 7)
    ensures
      var r := Rounds(f, h, 1);
      && r.0.state == Idle && r.0.confirmation
      && exists bits: seq<nat> :: PlainBits(m[0], 0, bits) && r.1 == [Read(0)] + PlainInds(bits)
  {
    FlagIsBit(m[0], 7);
    var bits := PlainBatchMeans(m[0], 0);
    assert ServesAt(f, h, m, odLen);
    assert f(h).1 == [Read(0)] + PlainBatch(Bits(m[0]), 0);
    assert Rounds(f, h, 1) == (f(h).0, f(h).1 + []);
    assert f(h).1 + [] == f(h).1;
  }

  lemma FirstAnnounced(status: byte, slots: seq<Slot>)
    requires Announced(status, slots)
    ensures slots != [] ==> HasBit(status, slots[0])
  {
    if slots != [] {
      assert slots[0] in slots;
    }
  }

  lemma NoSlots(status: byte)
    requires forall k: Slot :: !HasBit(status, k)
    ensures Slots(Bits(status), 0) == []
  {
    SlotsAreAnnounced(status);
    FirstAnnounced(status, Slots(Bits(status), 0));
  }

  /** Details announced for no slot: the status code is read again and again, and
      nothing is indicated however long this goes on. */
  lemma {:induction false} NoSlotFlagged(f: Handler -> (Handler, seq<Out>), h: Handler, m: Memory, odLen: nat, n: nat)
    requires Inv(h) && Serves(f, m, odLen) && HasBit(m[0], 7) && forall k: Slot :: !HasBit(m[0], k)
    requires h.state == Reading && h.addr == 0
    ensures Rounds(f, h, n).1 == seq(n, _ => Read(0)) && Rounds(f, h, n).0.state == Reading
    decreases n
  {
    if n > 0 {
      NoSlots(m[0]);
      FlagIsBit(m[0], 7);
      assert ServesAt(f, h, m, odLen);
      assert f(h).1 == [Read(0)];
      NoSlotFlagged(f, f(h).0, m, odLen, n - 1);
      assert [Read(0)] + seq(n - 1, _ => Read(0)) == seq(n, _ => Read(0));
    }
  }

  /** The next message of the master after a readout confirms it: a write to address 0
      of the diagnosis channel. */
  lemma ReadoutConfirmed(h: Handler, odLen: nat)
    requires Inv(h) && h.state == Idle && h.active && h.confirmation
    ensures
      var (g, outs) := HandlerStep(h, MasterMessage, false, odLen, 0);
      && g == h.(confirmation := false)
      && |outs| == 1 && outs[0].Od? && outs[0].req.write && outs[0].req.channel == Diagnosis && outs[0].req.addr == 0
      && ControlByte(true, Diagnosis, 0) == 0x40
  {
  }
}
