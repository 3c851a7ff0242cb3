/** How System Management chooses the M-sequence of a device: type, length of the
    on-request data, and lengths of the process data (sections A.2.6 and B.1 of the
    IO-Link Interface Specification v1.1.3). */
module MSequence {
  import opened Bytes

  datatype Type = TNone | T0 | T11 | T12 | T1V | T21 | T22 | T23 | T24 | T25 | T2V

  datatype ValueList = ValueList(odLen: nat, pdIn: nat, pdOut: nat, time: byte, kind: Type)

  /** The number of a type: M-sequence type and variant, one digit each. */
  function Number(t: Type): byte {
    match t
    case TNone => 0x00
    case T0 => 0x01
    case T11 => 0x11
    case T12 => 0x12
    case T1V => 0x1E
    case T21 => 0x21
    case T22 => 0x22
    case T23 => 0x23
    case T24 => 0x24
    case T25 => 0x25
    case T2V => 0x2E
  }

  const Revision11: byte := 0x11

  /** A process data descriptor counts octets, one less, or bits. */
  predicate CountsOctets(d: byte) {
    d >= 0x80
  }

  function Length(d: byte): nat {
    d % 0x20
  }

  /** Descriptors the specification allows: 0 to 16 bits, or 3 to 32 octets. */
  predicate Legal(d: byte) {
    if CountsOctets(d) then Length(d) >= 2 else Length(d) <= 16
  }

  /** Octets of process data a legal descriptor stands for. */
  function Octets(d: byte): nat {
    if CountsOctets(d) then Length(d) + 1 else (Length(d) + 7) / 8
  }

  function PreoperateCode(capability: byte): nat {
    capability / 0x10 % 4
  }

  function OperateCode(capability: byte): nat {
    capability / 2 % 8
  }

  /** On-request octets a message has room for, by operate code. */
  function OperateLength(code: nat): nat {
    match code
    case 0 => 1
    case 1 => 2
    case 4 => 1
    case 5 => 2
    case 6 => 8
    case 7 => 32
    case _ => 0
  }

  function PreoperateLength(code: nat): nat {
    match code
    case 0 => 1
    case 1 => 2
    case 2 => 8
    case _ => 32
  }

  /** Combinations that are accepted for a device of revision 1.1. Three octets each
      way are refused with operate code 4. */
  predicate Supported(code: nat, pdIn: byte, pdOut: byte) {
    match code
    case 0 => true
    case 1 => Octets(pdIn) == 0 && Octets(pdOut) == 0
    case 4 => !(CountsOctets(pdIn) && CountsOctets(pdOut) && Octets(pdIn) == 3 && Octets(pdOut) == 3)
    case 5 => Octets(pdIn) > 0 || Octets(pdOut) > 0
    case 6 => true
    case 7 => true
    case _ => false
  }

  /** The fixed type for so many octets in and out. */
  function FixedType(i: nat, o: nat): Type {
    if i == 0 && o == 0 then T0
    else if o == 0 && i <= 2 then if i == 1 then T21 else T22
    else if i == 0 && o <= 2 then if o == 1 then T23 else T24
    else if i == 1 && o == 1 then T25
    else T2V
  }

  /** The type in OPERATE of a device of revision 1.1: with operate code 0 a fixed type,
      or type 1_1 with the process data interleaved; else type 2_V if there are any process
      data, and without them type 1_2 with two on-request octets, or type 1_V. */
  function OperateType(code: nat, pdIn: byte, pdOut: byte): Type {
    if code == 0 then if CountsOctets(pdIn) || CountsOctets(pdOut) then T11 else FixedType(Octets(pdIn), Octets(pdOut))
    else if code == 1 then T12
    else if code >= 6 && Octets(pdIn) == 0 && Octets(pdOut) == 0 then T1V
    else T2V
  }

  /** The cycle time is not passed on where type 2_V is set by the lengths. */
  predicate LeavesTime(code: nat, pdIn: byte, pdOut: byte) {
    code >= 4 && if code == 4 then !(CountsOctets(pdIn) && CountsOctets(pdOut)) else Length(pdIn) > 0 || Length(pdOut) > 0
  }

  /** Type 2_V, unless a length is out of range; then the list may be left half set. */
  method SetType2V(pdIn: byte, pdOut: byte, od: nat, v: ValueList) returns (w: ValueList)
    requires v.kind == TNone && v.pdIn <= 32 && v.pdOut <= 32
    ensures w.kind == TNone || (w.kind == T2V && w.odLen == od && w.pdIn == Octets(pdIn) && w.pdOut == Octets(pdOut))
    ensures Legal(pdIn) && Legal(pdOut) ==> w.kind == T2V
    ensures w.pdIn <= 32 && w.pdOut <= 32 && w.time == v.time
  {
    w := v;
    var inOctets, outOctets := pdIn >= 0x80, pdOut >= 0x80;
    var i, o := Length(pdIn), Length(pdOut);
    if (inOctets && i != 1) || (!inOctets && i < 17) {
      w := w.(pdIn := if inOctets then i + 1 else (i + 7) / 8);
      if (outOctets && o != 1) || (!outOctets && o < 17) {
        w := w.(pdOut := if outOctets then o + 1 else (o + 7) / 8, odLen := od, kind := T2V);
      }
    }
  }

  /** Operate, revision 1.1, operate code 0: fixed types for up to two octets. */
  method SetFixedType(pdIn: byte, pdOut: byte, time: byte, v: ValueList) returns (w: ValueList)
    requires v.kind == TNone
    ensures w == v || (w.kind != TNone && w.pdIn <= 2 && w.pdOut <= 2 && w.odLen == if w.kind == T11 then 2 else 1)
    ensures Legal(pdIn) && Legal(pdOut) ==> w.kind != TNone
    ensures Legal(pdIn) && Legal(pdOut) && w.kind != T11 ==> w.pdIn == Octets(pdIn) && w.pdOut == Octets(pdOut)
    ensures w.kind == T11 ==> CountsOctets(pdIn) || CountsOctets(pdOut)
    ensures Legal(pdIn) && Legal(pdOut) ==> w.kind == OperateType(0, pdIn, pdOut)
    ensures w.kind != TNone ==> w.time == time
  {
    w := v;
    var i, o := Length(pdIn), Length(pdOut);
    if i == 0 && o == 0 {
      w := ValueList(1, 0, 0, time, T0);
    } else if pdIn < 0x80 && pdOut < 0x80 {
      if o == 0 {
        if 1 <= i <= 8 {
          w := ValueList(1, 1, 0, time, T21);
        } else if 9 <= i <= 16 {
          w := ValueList(1, 2, 0, time, T22);
        }
      } else if i == 0 {
        if 1 <= o <= 8 {
          w := ValueList(1, 0, 1, time, T23);
        } else if 9 <= o <= 16 {
          w := ValueList(1, 0, 2, time, T24);
        }
      } else if 1 <= i <= 8 && 1 <= o <= 8 {
        w := ValueList(1, 1, 1, time, T25);
      } else if (9 <= i <= 16 && 1 <= o <= 16) || (1 <= i <= 16 && 9 <= o <= 16) {
        w := ValueList(1, if i >= 9 then 2 else 1, if o >= 9 then 2 else 1, time, T2V);
      }
    } else {
      w := ValueList(2, 0, 0, time, T11);
    }
  }

  /** Operate, revision 1.1. */
  method SetOperate(code: nat, pdIn: byte, pdOut: byte, time: byte, v: ValueList) returns (w: ValueList)
    requires code < 8 && v.kind == TNone && v.pdIn <= 32 && v.pdOut <= 32
    ensures w.pdIn <= 32 && w.pdOut <= 32
    ensures w.kind != TNone ==> w.odLen == if w.kind == T11 then 2 else OperateLength(code)
    ensures w.kind != TNone ==> code != 2 && code != 3
    ensures w.kind == T11 ==> code == 0 && (CountsOctets(pdIn) || CountsOctets(pdOut))
    ensures Legal(pdIn) && Legal(pdOut) ==> (w.kind != TNone <==> Supported(code, pdIn, pdOut))
    ensures Legal(pdIn) && Legal(pdOut) && w.kind !in {TNone, T11} ==> w.pdIn == Octets(pdIn) && w.pdOut == Octets(pdOut)
    ensures Legal(pdIn) && Legal(pdOut) && w.kind != TNone ==> w.kind == OperateType(code, pdIn, pdOut)
    ensures w.kind != TNone ==> w.time == if LeavesTime(code, pdIn, pdOut) then v.time else time
  {
    w := v;
    var i, o := Length(pdIn), Length(pdOut);
    if code == 0 {
      w := SetFixedType(pdIn, pdOut, time, v);
    } else if code == 1 {
      if i == 0 && o == 0 {
        w := ValueList(2, 0, 0, time, T12);
      }
    } else if code == 4 {
      if pdIn >= 0x80 && pdOut >= 0x80 {
        if o >= 3 || i >= 3 {
          w := ValueList(1, i + 1, o + 1, time, T2V);
        }
      } else {
        w := SetType2V(pdIn, pdOut, 1, v);
      }
    } else if code >= 5 {
      var od := if code == 5 then 2 else if code == 6 then 8 else 32;
      if i > 0 || o > 0 {
        w := SetType2V(pdIn, pdOut, od, v);
      } else if code != 5 {
        w := ValueList(od, 0, 0, time, T1V);
      }
    }
  }

  /** Operate, an earlier revision. The source asserts that a device without process
      data has operate code 0 or 1. */
  method SetLegacy(code: nat, pdIn: byte, pdOut: byte, time: byte, v: ValueList) returns (w: ValueList)
    requires v.kind == TNone && v.pdIn <= 32 && v.pdOut <= 32
    requires Length(pdIn) == 0 && Length(pdOut) == 0 ==> code <= 1
    ensures w.pdIn <= 32 && w.pdOut <= 32 && (w.kind != TNone ==> w.odLen == 1 || w.odLen == 2)
    ensures w.kind != TNone ==> w.pdIn <= 2 && w.pdOut <= 2
    ensures !CountsOctets(pdIn) && !CountsOctets(pdOut) && w.kind !in {TNone, T11} ==>
              w.pdIn == Octets(pdIn) && w.pdOut == Octets(pdOut)
    ensures !CountsOctets(pdIn) && !CountsOctets(pdOut) && w.kind != TNone ==>
              w.kind == if code != 0 && Length(pdIn) == 0 && Length(pdOut) == 0 then T12 else FixedType(Octets(pdIn), Octets(pdOut))
    ensures w.kind != TNone ==> w.time == time
    ensures w.kind == T11 <==> (CountsOctets(pdIn) || CountsOctets(pdOut)) && (Length(pdIn) >= 3 || Length(pdOut) >= 3)
  {
    w := v;
    var i, o := Length(pdIn), Length(pdOut);
    if i == 0 && o == 0 {
      w := ValueList(code + 1, 0, 0, time, if code == 0 then T0 else T12);
    } else if (pdIn >= 0x80 || pdOut >= 0x80) && (i >= 3 || o >= 3) {
      w := ValueList(2, 0, 0, time, T11);
    } else if o == 0 {
      if i <= 8 {
        w := ValueList(1, 1, 0, time, T21);
      } else if i <= 16 {
        w := ValueList(1, 2, 0, time, T22);
      }
    } else if i == 0 {
      if o <= 8 {
        w := ValueList(1, 0, 1, time, T23);
      } else if o <= 16 {
        w := ValueList(1, 0, 2, time, T24);
      }
    } else if i <= 8 && o <= 8 {
      w := ValueList(1, 1, 1, time, T25);
    }
  }

  /** populate_valuelist. Whatever a device says of itself, an accepted M-sequence has
      1, 2, 8 or 32 on-request octets and at most 32 octets of process data each way;
      for a device of revision 1.1 with legal descriptors it is accepted exactly if
      its combination is supported, and then the lengths are what it described,
      unless process data are interleaved. */
  method PopulateValueList(capability: byte, revision: byte, pdIn: byte, pdOut: byte, time: byte, operate: bool, v: ValueList)
    returns (ok: bool, w: ValueList)
    requires v.pdIn <= 32 && v.pdOut <= 32
    requires operate && revision != Revision11 && Length(pdIn) == 0 && Length(pdOut) == 0 ==> OperateCode(capability) <= 1
    ensures ok <==> w.kind != TNone
    ensures ok ==> w.odLen in {1, 2, 8, 32} && w.pdIn <= 32 && w.pdOut <= 32
    ensures !operate ==> ok && w.odLen == PreoperateLength(PreoperateCode(capability)) && w.pdIn == w.pdOut == 0
    ensures !operate ==> w.kind == (if w.odLen == 1 then T0 else if w.odLen == 2 then T12 else T1V)
    ensures ok ==> w.time == if operate && revision == Revision11 && LeavesTime(OperateCode(capability), pdIn, pdOut) then v.time else time
    ensures ok && operate && revision == Revision11 && Legal(pdIn) && Legal(pdOut) ==>
              w.kind == OperateType(OperateCode(capability), pdIn, pdOut)
    ensures ok && operate && revision == Revision11 && w.kind != T11 ==> w.odLen == OperateLength(OperateCode(capability))
    ensures operate && revision == Revision11 && Legal(pdIn) && Legal(pdOut) ==>
              (ok <==> Supported(OperateCode(capability), pdIn, pdOut))
    ensures ok && operate && revision == Revision11 && Legal(pdIn) && Legal(pdOut) && w.kind != T11 ==>
              w.pdIn == Octets(pdIn) && w.pdOut == Octets(pdOut)
    // The message fits the 64-byte buffer it is put together in, unless 32
    // on-request octets follow 31 or 32 octets of process data.
    ensures ok ==> (2 + w.pdOut + w.odLen <= 64 <==> !(w.odLen == 32 && w.pdOut > 30)) && 2 + w.pdOut + w.odLen <= 66
    ensures operate && revision == Revision11 && OperateCode(capability) == 7 && pdIn == 0x82 && pdOut == 0x9F ==>
              ok && 2 + w.pdOut + w.odLen == 66
  {
    w := v.(kind := TNone);
    if !operate {
      var code := PreoperateCode(capability);
      if code < 2 {
        w := ValueList(code + 1, 0, 0, time, if code == 0 then T0 else T12);
      } else {
        w := ValueList(if code == 2 then 8 else 32, 0, 0, time, T1V);
      }
    } else if revision != Revision11 {
      w := SetLegacy(OperateCode(capability), pdIn, pdOut, time, w);
    } else {
      w := SetOperate(OperateCode(capability), pdIn, pdOut, time, w);
    }
    ok := w.kind != TNone;
  }
}
