/** Types the handlers of the data link layer share. */
module DlTypes {
  import opened Bytes

  /** What the message handler has been asked to transport. */
  datatype RwCmd =
    | RwNone | RwWrite | RwRead | RwWriteParam | RwReadParam | RwIsduTransport | RwIsduAbort

  datatype Trigger = NoTrigger | DeviceMessage | MasterMessage

  datatype Channel = Process | Page | Diagnosis | IsduChannel

  datatype Status =
    | NoError | NoComm | StateConflict | Invalid | ParameterConflict | IsduTimeout
    | ValueOutOfRange | ChecksumError | IllegalServicePrimitive | IsduAborted

  // FlowCTRL values of the ISDU channel.
  const FlowStart: nat := 0x10
  const FlowIdle1: nat := 0x11
  const FlowAbort: nat := 0x1F

  /** One on-request data service as the device sees it: for a write, `data` is
      the on-request part of the message, already padded. */
  datatype OdReq = OdReq(write: bool, channel: Channel, addr: nat, data: seq<byte>)

  /** What the on-request handlers hand to the other layers. */
  datatype Out =
    | Od(req: OdReq)
    | IsduCnf(data: seq<byte>, qualifier: nat, status: Status)
    | ReadParamCnf(value: byte, status: Status)
    | WriteParamCnf(status: Status)
    | EventInd(code: nat, eventQualifier: byte, eventsLeft: nat)
    | DevicemodeCnf(command: byte, status: Status)

  function ChannelBits(c: Channel): nat {
    match c
    case Process => 0x00
    case Page => 0x20
    case Diagnosis => 0x40
    case IsduChannel => 0x60
  }

  /** First byte of a message: direction, channel and address. */
  function ControlByte(write: bool, c: Channel, addr: nat): byte
    requires addr < 32
  {
    (if write then 0 else 0x80) + ChannelBits(c) + addr
  }

  /** `data` cut or zero-padded to `n` bytes. */
  function Pad(data: seq<byte>, n: nat): (p: seq<byte>)
    ensures |p| == n
  {
    if |data| >= n then data[..n] else data + Zeros(n - |data|)
  }

  /** How many ISDU confirmations are among `outs`. */
  function Confirmations(outs: seq<Out>): nat {
    if outs == [] then 0
    else Confirmations(outs[..|outs| - 1]) + if outs[|outs| - 1].IsduCnf? then 1 else 0
  }

  lemma CountShort(outs: seq<Out>)
    requires |outs| <= 2
    ensures Confirmations(outs) ==
            (if |outs| > 0 && outs[0].IsduCnf? then 1 else 0) + (if |outs| > 1 && outs[1].IsduCnf? then 1 else 0)
  {
    if |outs| == 2 {
      assert Confirmations(outs[..1]) == Confirmations(outs[..1][..0]) + if outs[0].IsduCnf? then 1 else 0;
    }
  }
}
