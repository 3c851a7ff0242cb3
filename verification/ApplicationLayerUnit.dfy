/** The application layer of a port as it stands in memory: the service record with
    its read buffer, and the events collected so far. */
module ApplicationLayerUnit {
  import opened Bytes
  import opened DlTypes
  import opened ApplicationLayer
  import Isdu
  import V = AlEvents
  import E = EventHandler

  class ApplicationLayerUnit {
    const dataRead: array<byte>
    const events: array<V.DiagEntry>
    var state: State
    var client: Client
    var dataLen: nat
    var status: Status
    var qualifier: nat
    var eventState: V.State
    var eventCount: nat

    function View(): OnReq
      reads this, dataRead
    {
      OnReq(state, Service(client, dataRead[..], dataLen, status, qualifier))
    }

    function Collected(): V.Collector
      reads this, events
    {
      V.Collector(eventState, eventCount, events[..])
    }

    constructor ()
      ensures Inv(View()) && state == OnReqIdle && fresh(dataRead)
      ensures V.Inv(Collected()) && eventState == V.EventIdle && fresh(events)
    {
      dataRead := new byte[Isdu.IsduMaxSize](_ => 0);
      events := new V.DiagEntry[E.MaxEvents](_ => V.DiagEntry.DiagEntry(0, 0));
      state, client, dataLen, status, qualifier := OnReqIdle, Client(0, true, 0, 0, []), 0, NoError, 0;
      eventState, eventCount := V.EventIdle, 0;
    }

    method ErrorOf(isdu: bool) returns (e: nat)
      requires Valid(View())
      ensures e == ErrorType(View().service, isdu)
    {
      e := Success;
      if isdu {
        if status == ChecksumError {
          e := IsduChecksum;
        } else if client.read {
          if qualifier == Isdu.ReadNeg {
            e := if dataLen == 2 then BigEndian16(dataRead[0], dataRead[1]) else AppDev;
          } else if qualifier != Isdu.ReadPos {
            e := AppDev;
          }
        } else if qualifier == Isdu.WriteNeg {
          e := if dataLen == 2 then BigEndian16(dataRead[0], dataRead[1]) else AppDev;
        } else if qualifier == Isdu.NoService && status == NoError {
          e := ComErr;
        }
      }
      if e == Success {
        e := StatusError(status);
      }
    }

    method SendCnf(isdu: bool) returns (outs: seq<ApplicationLayer.Out>)
      requires Valid(View())
      modifies this`state
      ensures (View(), outs) == Confirm(old(View()), isdu)
    {
      var e := ErrorOf(isdu);
      var data := if client.read && dataLen <= dataRead.Length then dataRead[..dataLen] else [];
      state := OnReqIdle;
      outs := [Callback(client.id, data, e)];
    }

    /** al_read_write_cb: a client's request is served, or turned away. Either it is
        the client being served from now on, or it has been called back. */
    method Request(c: Client) returns (outs: seq<ApplicationLayer.Out>)
      requires Inv(View()) && c.index < 0x1_0000 && |c.data| < 256 && (!c.read && c.index == 1 ==> c.data != [])
      modifies this`state, this`client, this`dataLen, this`status
      ensures Inv(View()) && Served(old(View())) + multiset{c.id} == Called(outs) + Served(View())
      ensures old(state) != OnReqIdle ==> View() == old(View()) && outs == [Callback(c.id, [], TempUnavailable)]
      ensures (View(), outs) == Serve(old(View()), c)
    {
      OneStepCalls(View(), ApplicationLayer.Input.Request(c));
      if state != OnReqIdle {
        return [Callback(c.id, [], TempUnavailable)];
      }
      client, dataLen := c, if c.read then 0 else |c.data|;
      if c.read && c.index <= 1 {
        state := AwaitParam;
        outs := [ReadParam(c.index)];
      } else if !c.read && c.index == 1 {
        state := AwaitParam;
        outs := [WriteParam(1, c.data[0])];
      } else if c.index >= 2 {
        state := AwaitIsdu;
        outs := [Transport(Isdu.Request(c.read, c.index, c.subindex, if c.read then [] else c.data))];
      } else {
        status := ParameterConflict;
        outs := [Callback(c.id, [], AppDev)];
      }
    }

    /** The client being served is called back, with the byte read. */
    method ReadParamConfirmed(value: byte, s: Status) returns (outs: seq<ApplicationLayer.Out>)
      requires Inv(View()) && state == AwaitParam && client.read
      modifies this`state, this`dataLen, this`status, dataRead
      ensures Inv(View()) && state == OnReqIdle && Called(outs) == multiset{client.id} && client == old(client)
      ensures |outs| == 1 && outs[0].Callback? && outs[0].data == [value] && (outs[0].errortype == Success <==> s == NoError)
      ensures (View(), outs) == ReadParamDone(old(View()), value, s)
    {
      OneStepCalls(View(), ApplicationLayer.Input.ReadParamCnf(value, s));
      dataRead[dataLen] := value;
      dataLen := dataLen + 1;
      status := s;
      outs := SendCnf(false);
    }

    /** The client being served is called back, and sees success exactly if the data
        link layer did. */
    method WriteParamConfirmed(s: Status) returns (outs: seq<ApplicationLayer.Out>)
      requires Inv(View()) && state == AwaitParam && !client.read
      modifies this`state, this`status
      ensures Inv(View()) && state == OnReqIdle && Called(outs) == multiset{client.id} && client == old(client)
      ensures |outs| == 1 && outs[0].Callback? && (outs[0].errortype == Success <==> s == NoError)
      ensures (View(), outs) == WriteParamDone(old(View()), s)
    {
      OneStepCalls(View(), ApplicationLayer.Input.WriteParamCnf(s));
      status := s;
      outs := SendCnf(false);
    }

    /** Copies response data into the record, unless there is too much. */
    method Copy(data: seq<byte>)
      requires Valid(View()) && |data| < 256
      modifies this`dataLen, dataRead
      ensures View() == old(View()).(service := Copied(old(View()).service, data))
    {
      if |data| <= dataRead.Length {
        var i := 0;
        while i < |data|
          modifies dataRead
          invariant i <= |data|
          invariant forall k :: 0 <= k < i ==> dataRead[k] == data[k]
          invariant forall k :: |data| <= k < dataRead.Length ==> dataRead[k] == old(dataRead[k])
        {
          dataRead[i] := data[i];
          i := i + 1;
        }
        dataLen := |data|;
        assert dataRead[..] == data + old(dataRead[..])[|data|..];
      }
    }

    /** The client being served is called back, and sees success only if the transfer
        was confirmed without error. */
    method IsduConfirmed(data: seq<byte>, q: nat, s: Status) returns (outs: seq<ApplicationLayer.Out>)
      requires Inv(View()) && state == AwaitIsdu && |data| < 256
      modifies this`state, this`dataLen, this`status, this`qualifier, dataRead
      ensures Inv(View()) && state == OnReqIdle && Called(outs) == multiset{client.id} && client == old(client)
      ensures |outs| == 1 && outs[0].Callback? && (outs[0].errortype == Success ==> s == NoError)
      ensures (View(), outs) == IsduDone(old(View()), data, q, s)
    {
      OneStepCalls(View(), ApplicationLayer.Input.IsduCnf(data, q, s));
      if client.read {
        if s == NoError {
          Copy(data);
        }
      } else if q == Isdu.WriteNeg && HasData(s) {
        Copy(data);
      }
      status, qualifier := s, q;
      outs := SendCnf(true);
    }

    /** al_dl_event_ind_cb: one event of a set. */
    method EventIndicated(o: DlTypes.Out) returns (inds: seq<V.Indication>)
      requires V.Inv(Collected()) && o.EventInd? && eventCount < E.MaxEvents
      modifies this`eventState, this`eventCount, events
      ensures V.Inv(Collected()) && (Collected(), inds) == V.EventInd(old(Collected()), o)
    {
      inds := [];
      events[eventCount] := V.Entry(o);
      eventCount := eventCount + 1;
      if eventState != V.EventHandling {
        if o.eventsLeft > 0 {
          eventState := V.ReadEventSet;
        } else {
          eventState := V.EventHandling;
          inds := [V.Indication.Indication(eventCount, events[..])];
        }
      }
    }

    /** AL_Event_rsp. */
    method EventResponded()
      requires V.Inv(Collected())
      modifies this`eventState, this`eventCount
      ensures V.Inv(Collected()) && Collected() == V.Respond(old(Collected()))
    {
      if eventState == V.EventHandling {
        eventState, eventCount := V.EventIdle, 0;
      }
    }
  }
}
