/** The master Event handler as it stands in memory: the walk over the flagged
    slots with its counters, as loops. */
module EventUnit {
  import opened Bytes
  import opened DlTypes
  import opened EventHandler
  import opened T = Transmitter

  class EventUnit {
    const events: array<Record>
    var state: State
    var active: bool
    var confirmation: bool
    var addr: byte
    var status: byte
    var entries: nat
    var slot: nat
    var current: nat

    predicate Valid()
      reads this, events
    {
      events.Length == MaxEvents && Inv(View())
    }

    function View(): Handler
      reads this, events
    {
      Handler(state, active, confirmation, addr, Bits(status), entries, slot, current, events[..])
    }

    constructor ()
      ensures Valid() && fresh(events) && state == Inactive && !active && !confirmation
    {
      events := new Record[MaxEvents](_ => NoRecord);
      state, active, confirmation := Inactive, false, false;
      addr, status, entries, slot, current := 0, 0, 0, 0, 0;
    }

    /** Signals the set read from event memory: one indication a slot. */
    method SignalDetails() returns (outs: seq<Out>)
      requires events.Length == MaxEvents && entries <= MaxEvents
      modifies this`current
      ensures current == entries && outs == Batch(events[..entries])
    {
      ghost var batch := Batch(events[..entries]);
      outs := [];
      current := 0;
      while current < entries
        invariant current <= entries && outs == batch[..current]
      {
        assert batch[..current + 1] == batch[..current] + [batch[current]];
        outs := outs + [EventInd(BigEndian16(events[current].msb, events[current].lsb),
                                 events[current].qualifier, entries - current - 1)];
        current := current + 1;
      }
    }

    /** Signals the events a status code without details stands for. */
    method SignalPlain(flags: Flags) returns (outs: seq<Out>)
      requires entries == PlainCount(flags, 0)
      modifies this`entries
      ensures entries == 0 && outs == PlainBatch(flags, 0)
    {
      outs := [];
      var i := 0;
      while i < MaxEvents - 1
        invariant i <= MaxEvents - 1 && entries == PlainCount(flags, i)
        invariant outs + PlainBatch(flags, i) == PlainBatch(flags, 0)
      {
        if flags[i] {
          entries := entries - 1;
          var out := EventInd(PlainEvents[i].0, PlainEvents[i].1, entries);
          Joined(outs, [out], PlainBatch(flags, i + 1));
          outs := outs + [out];
        }
        i := i + 1;
      }
    }

    method SignalEvents() returns (outs: seq<Out>)
      requires events.Length == MaxEvents && entries <= MaxEvents
      requires Bits(status)[7] || entries == PlainCount(Bits(status), 0)
      modifies this
      ensures Valid() && (View(), outs) == Signal(old(View()))
    {
      if Bits(status)[7] {
        outs := SignalDetails();
        assert events[..entries] == events[..][..entries];
      } else {
        outs := SignalPlain(Bits(status));
      }
      confirmation := true;
      state := Idle;
    }

    /** A status code with details: counts the flagged slots and finds the first. */
    method CountSlots(flags: Flags)
      requires entries == 0 && addr == 0
      modifies this`entries, this`addr, this`slot
      ensures entries == |Slots(flags, 0)|
      ensures
        var first := NextSlot(flags, 0);
        addr == (if first < MaxEvents then 1 + 3 * first else 0) && slot == (if first < MaxEvents then first else 0)
    {
      slot := 0;
      while slot < MaxEvents
        invariant slot <= MaxEvents && entries + |Slots(flags, slot)| == |Slots(flags, 0)|
        invariant if addr == 0 then NextSlot(flags, 0) == NextSlot(flags, slot)
                  else NextSlot(flags, 0) < MaxEvents && addr == 1 + 3 * NextSlot(flags, 0)
      {
        if flags[slot] {
          entries := entries + 1;
          if addr == 0 {
            addr := 1 + 3 * slot;
          }
        }
        slot := slot + 1;
      }
      // Division of -1 truncates to 0 in the source.
      slot := if addr == 0 then 0 else (addr as int - 1) / 3;
    }

    /** A status code without details: counts its events. */
    method CountPlain(flags: Flags)
      requires entries == 0
      modifies this`entries
      ensures entries == PlainCount(flags, 0)
    {
      var i := 0;
      while i < MaxEvents - 1
        invariant i <= MaxEvents - 1 && entries + PlainCount(flags, i) == PlainCount(flags, 0)
      {
        if flags[i] {
          entries := entries + 1;
        }
        i := i + 1;
      }
    }

    /** A status code without details says it all. */
    method ReadPlain() returns (outs: seq<Out>)
      requires Valid() && state == Reading && entries == 0 && !Bits(status)[7]
      modifies this
      ensures Valid() && (View(), outs) == Signal(old(View()).(entries := PlainCount(Bits(old(status)), 0)))
    {
      CountPlain(Bits(status));
      outs := SignalEvents();
    }

    method ReadStatus(b: byte) returns (outs: seq<Out>)
      requires Valid() && state == Reading && addr == 0
      modifies this
      ensures Valid() && (View(), outs) == StatusCode(old(View()), Bits(b))
    {
      outs := [];
      status := b;
      if Bits(status)[7] {
        CountSlots(Bits(status));
      } else {
        outs := ReadPlain();
      }
    }

    /** Advances to the next flagged slot; the scan also looks at flag 6. */
    method Advance(flags: Flags)
      requires slot < MaxEvents
      modifies this`slot, this`addr
      ensures slot == NextSlot(flags, old(slot) + 1)
      ensures addr == if slot < MaxEvents || flags[6] then 1 + 3 * slot else old(addr)
    {
      ghost var from := slot + 1;
      while slot < MaxEvents
        invariant from - 1 <= slot <= MaxEvents && addr == old(addr)
        invariant NextSlot(flags, from) == if slot == MaxEvents then MaxEvents else NextSlot(flags, slot + 1)
        invariant slot == MaxEvents ==> !flags[6]
      {
        slot := slot + 1;
        if flags[slot] {
          addr := 1 + 3 * slot;
          break;
        }
      }
    }

    lemma ReadsUp()
      requires Valid() && state == Reading && addr != 0
      ensures current < entries && current < MaxEvents
    {
    }

    /** The third byte of a slot. */
    method ReadLast(b: byte) returns (outs: seq<Out>)
      requires Valid() && state == Reading && addr == 3 * slot + 3
      modifies this, events
      ensures Valid() && (View(), outs) == LastByte(old(View()), b)
    {
      outs := [];
      ReadsUp();
      ghost var next := LastByte(View(), b);
      events[current] := events[current].(lsb := b);
      Advance(Bits(status));
      current := current + 1;
      if slot >= MaxEvents {
        outs := SignalEvents();
      } else {
        assert View() == next.0;
      }
    }

    /** The first two bytes of a slot. */
    method ReadFront(b: byte)
      requires Valid() && state == Reading && (addr == 3 * slot + 1 || addr == 3 * slot + 2)
      modifies this`addr, events
      ensures Valid() && (View(), []) == MemoryByte(old(View()), b)
    {
      ReadsUp();
      ghost var next := MemoryByte(View(), b);
      var e := events[current];
      events[current] := if addr as int - 3 * slot == 1 then e.(qualifier := b) else e.(msb := b);
      addr := addr + 1;
      assert View() == next.0;
    }

    method ReadMemory(b: byte) returns (outs: seq<Out>)
      requires Valid() && state == Reading && addr != 0
      modifies this, events
      ensures Valid() && (View(), outs) == MemoryByte(old(View()), b)
    {
      outs := [];
      if addr as int - 3 * slot == 3 {
        outs := ReadLast(b);
      } else {
        ReadFront(b);
      }
    }

    /** Has a readout confirmed. The data of the confirmation is the first byte of
        the transmit buffer, by then the control byte of this very message. */
    method Confirm(tx: Transmitter) returns (out: Out)
      requires tx.Valid() && tx.odLen > 0
      modifies this`confirmation, tx`odTxLen, tx`odRxLen, tx.buffer
      ensures tx.Valid() && !confirmation
      ensures out == Od(OdReq(true, DlTypes.Diagnosis, 0, Pad([ControlByte(true, DlTypes.Diagnosis, 0)], tx.odLen)))
      ensures tx.Shows(out.req)
    {
      tx.WriteHeader(true, DlTypes.Diagnosis, 0);
      var control := tx.buffer[0];
      assert control == tx.Header()[0];
      tx.WriteData([control]);
      assert tx.Header() == tx.buffer[..2 + tx.pdTxLen][..2];
      confirmation := false;
      out := Od(OdReq(true, DlTypes.Diagnosis, 0, Pad([control], tx.odLen)));
    }

    /** Starts a readout, or has the last one confirmed. */
    method IdleMessage(comlost: bool, tx: Transmitter) returns (outs: seq<Out>)
      requires Valid() && state == Idle && active && tx.Valid() && tx.odLen > 0
      modifies this, events, tx`odTxLen, tx`odRxLen, tx.buffer
      ensures Valid() && (View(), outs) == IdleStep(old(View()), MasterMessage, comlost, tx.odLen)
      ensures tx.Valid() && forall o <- outs :: o.Od? ==> tx.Shows(o.req)
    {
      outs := [];
      if !confirmation {
        addr, entries, current := 0, 0, 0;
        forall i | 0 <= i < events.Length {
          events[i] := NoRecord;
        }
        assert events[..] == seq(MaxEvents, _ => NoRecord);
        var ok := tx.Request(false, DlTypes.Diagnosis, 0, []);
        state := Reading;
        outs := [Read(0)];
      } else if comlost {
        state := Inactive;
      } else {
        var out := Confirm(tx);
        outs := [out];
      }
    }

    /** One step of the handler. */
    method Step(t: Trigger, comlost: bool, rx0: byte, tx: Transmitter) returns (outs: seq<Out>)
      requires Valid() && tx.Valid() && tx.odLen > 0
      modifies this, events, tx`odTxLen, tx`odRxLen, tx.buffer
      ensures Valid() && (View(), outs) == HandlerStep(old(View()), t, comlost, tx.odLen, rx0)
      ensures tx.Valid() && forall o <- outs :: o.Od? ==> tx.Shows(o.req)
    {
      outs := [];
      match state
      case Inactive =>
        if active {
          state := Idle;
        }
      case Idle =>
        if !active {
          state := Inactive;
        } else if t == MasterMessage {
          outs := IdleMessage(comlost, tx);
        }
      case Reading =>
        if comlost {
          state := Inactive;
        } else if t == MasterMessage {
          var ok := tx.Request(false, DlTypes.Diagnosis, addr, []);
          outs := [Read(addr)];
        } else if t == DeviceMessage {
          if addr == 0 {
            outs := ReadStatus(rx0);
          } else {
            outs := ReadMemory(rx0);
          }
        }
    }
  }
}
