/** The transmit buffer of a port: process data and on-request data share it with
    the two bytes every message starts with. */
module Transmitter {
  import opened Bytes
  import opened DlTypes
  import MSequence

  const BufferSize: nat := 64

  /** Direction, channel and address in a control byte. */
  function Decode(b: byte): (bool, Channel, nat) {
    (b < 0x80, [Process, Page, Diagnosis, IsduChannel][b / 32 % 4], b % 32)
  }

  /** A device reads from the control byte what the master asked for. */
  lemma ControlByteDecodes(write: bool, c: Channel, addr: nat)
    requires addr < 32
    ensures Decode(ControlByte(write, c, addr)) == (write, c, addr)
  {
    var b := ControlByte(write, c, addr);
    match c
    case Process => assert b / 32 % 4 == 0;
    case Page => assert b / 32 % 4 == 1;
    case Diagnosis => assert b / 32 % 4 == 2;
    case IsduChannel => assert b / 32 % 4 == 3;
  }

  /** And every byte is the control byte of exactly one request. */
  lemma EveryByteIsControl(b: byte)
    ensures var (write, c, addr) := Decode(b); addr < 32 && ControlByte(write, c, addr) == b
  {
    assert b == 128 * (b / 128) + 32 * (b / 32 % 4) + b % 32;
  }

  /** The message-type byte: the M-sequence type in the two upper bits. */
  function TypeByte(mseq: byte): byte {
    mseq / 16 * 64 % 256
  }

  /** So a device sees M-sequence type 0, 1 or 2 in the upper bits, of whatever variant. */
  lemma MessageTypes(t: MSequence.Type)
    ensures
      TypeByte(MSequence.Number(t)) ==
      if t.TNone? || t.T0? then 0x00 else if t.T11? || t.T12? || t.T1V? then 0x40 else 0x80
  {
  }

  class Transmitter {
    const buffer: array<byte>
    var mseq: byte
    var odLen: nat
    var pdTxLen: nat
    var odTxLen: nat
    var odRxLen: nat

    /** The message fits the buffer. */
    predicate Valid()
      reads this
    {
      buffer.Length == BufferSize && 2 + pdTxLen + odLen <= BufferSize && pdTxLen <= 32 && odLen <= 32
      && odTxLen <= odLen && odRxLen <= odLen
    }

    function Header(): seq<byte>
      requires Valid()
      reads this, buffer
    {
      buffer[..2]
    }

    function ProcessData(): seq<byte>
      requires Valid()
      reads this, buffer
    {
      buffer[2..2 + pdTxLen]
    }

    function OnRequestData(): seq<byte>
      requires Valid()
      reads this, buffer
    {
      buffer[2 + pdTxLen..2 + pdTxLen + odLen]
    }

    /** The bytes the physical layer is told to send. */
    function Sent(): seq<byte>
      requires Valid()
      reads this, buffer
    {
      buffer[..2 + pdTxLen + odTxLen]
    }

    /** The buffer holds the request `r`; for a write, with its data. */
    predicate Shows(r: OdReq)
      requires Valid()
      reads this, buffer
    {
      && r.addr < 32 && Header() == [ControlByte(r.write, r.channel, r.addr), TypeByte(mseq)]
      && odTxLen == (if r.write then odLen else 0) && odRxLen == (if r.write then 0 else odLen)
      && (r.write ==> OnRequestData() == r.data)
    }

    constructor (odLength: nat, pdLength: nat, mseqType: byte)
      requires odLength <= 32 && pdLength <= 32 && 2 + pdLength + odLength <= BufferSize
      ensures Valid() && fresh(buffer)
      ensures odLen == odLength && pdTxLen == pdLength && mseq == mseqType
    {
      buffer := new byte[BufferSize](_ => 0);
      odLen, pdTxLen, mseq, odTxLen, odRxLen := odLength, pdLength, mseqType, 0, 0;
    }

    method WriteHeader(write: bool, c: Channel, addr: nat)
      requires Valid() && addr < 32
      modifies buffer
      ensures Valid() && Header() == [ControlByte(write, c, addr), TypeByte(mseq)]
      ensures buffer[2..] == old(buffer[2..])
    {
      buffer[0], buffer[1] := ControlByte(write, c, addr), TypeByte(mseq);
    }

    /** Copies `data` behind the process data and pads with zeros. */
    method WriteData(data: seq<byte>)
      requires Valid() && |data| <= odLen
      modifies this`odTxLen, this`odRxLen, buffer
      ensures Valid() && OnRequestData() == Pad(data, odLen) && odTxLen == odLen && odRxLen == 0
      ensures buffer[..2 + pdTxLen] == old(buffer[..2 + pdTxLen])
      ensures buffer[2 + pdTxLen + odLen..] == old(buffer[2 + pdTxLen + odLen..])
    {
      odTxLen, odRxLen := odLen, 0;
      var at, padded := 2 + pdTxLen, Pad(data, odLen);
      var i := 0;
      while i < odLen
        modifies buffer
        invariant i <= odLen
        invariant forall k :: 0 <= k < i ==> buffer[at + k] == padded[k]
        invariant forall k :: 0 <= k < at || at + odLen <= k < BufferSize ==> buffer[k] == old(buffer[k])
      {
        buffer[at + i] := padded[i];
        i := i + 1;
      }
    }

    /** OD_req: refused for a length or an address out of range. */
    method Request(write: bool, c: Channel, addr: nat, data: seq<byte>) returns (ok: bool)
      requires Valid() && (write ==> |data| <= odLen) && c != Process
      modifies this`odTxLen, this`odRxLen, buffer
      ensures Valid() && ok == (|data| <= 32 && addr < 32)
      ensures ok ==> Shows(OdReq(write, c, addr, if write then Pad(data, odLen) else []))
      ensures ProcessData() == old(ProcessData())
      ensures !ok ==> buffer[..] == old(buffer[..]) && odTxLen == old(odTxLen) && odRxLen == old(odRxLen)
    {
      if |data| > 32 || addr > 31 {
        return false;
      }
      WriteHeader(write, c, addr);
      assert buffer[2..][..pdTxLen] == ProcessData();
      if write {
        label L:
        WriteData(data);
        assert Header() == buffer[..2 + pdTxLen][..2];
        assert ProcessData() == buffer[..2 + pdTxLen][2..];
      } else {
        odTxLen, odRxLen := 0, odLen;
      }
      ok := true;
    }

    /** PD_req with the current process output. */
    method UpdateProcessData(pdout: seq<byte>)
      requires Valid() && |pdout| == pdTxLen
      modifies buffer
      ensures Valid() && ProcessData() == pdout
      ensures Header() == old(Header()) && OnRequestData() == old(OnRequestData())
    {
      var i := 0;
      while i < pdTxLen
        invariant i <= pdTxLen && Valid()
        invariant forall k :: 0 <= k < i ==> buffer[2 + k] == pdout[k]
        invariant buffer[..2] == old(buffer[..2]) && buffer[2 + pdTxLen..] == old(buffer[2 + pdTxLen..])
      {
        buffer[2 + i] := pdout[i];
        i := i + 1;
      }
      assert OnRequestData() == buffer[2 + pdTxLen..][..odLen];
    }

    /** A message as the cycle prepares it, process data first: what is sent is the
        control byte, the message type, the process data and, for a write, the
        on-request data padded to its length; neither part overwrites the other. */
    method Prepare(pdout: seq<byte>, write: bool, c: Channel, addr: nat, data: seq<byte>)
      requires Valid() && |pdout| == pdTxLen && addr < 32 && |data| <= odLen && c != Process
      modifies this`odTxLen, this`odRxLen, buffer
      ensures Valid()
      ensures Sent() == [ControlByte(write, c, addr), TypeByte(mseq)] + pdout + (if write then Pad(data, odLen) else [])
    {
      UpdateProcessData(pdout);
      var ok := Request(write, c, addr, data);
      SentParts();
    }

    lemma SentParts()
      requires Valid() && (odTxLen == 0 || odTxLen == odLen)
      ensures Sent() == Header() + ProcessData() + (if odTxLen == 0 then [] else OnRequestData())
    {
    }
  }
}
