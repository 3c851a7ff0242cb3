/** The ISDU transfer syntax (section A.5 of the IO-Link Interface Specification
    v1.1.3): what a request looks like on the wire, how a receiver reads one,
    and which responses are well formed. */
module Isdu {
  import opened Bytes

  /** Bytes of `isdu_data` that the encoder initialises (IOLINK_ISDU_MAX_SIZE). */
  const IsduMaxSize: nat := 241

  // I-Service codes of device responses.
  const NoService: nat := 0x0
  const WriteNeg: nat := 0x4
  const WritePos: nat := 0x5
  const ReadNeg: nat := 0xC
  const ReadPos: nat := 0xD

  datatype Request = Request(read: bool, index: nat, subindex: byte, data: seq<byte>)

  /** Bytes of an ISDU beside its data, without the extended length byte. */
  function Overhead(index: nat, subindex: byte): nat {
    if index >= 256 then 5 else if subindex == 0 then 3 else 4
  }

  function IService(r: Request): nat {
    (if r.read then 8 else 0) + Overhead(r.index, r.subindex) - 2
  }

  function Address(index: nat, subindex: byte): seq<byte>
    requires index < 0x1_0000
  {
    if index >= 256 then [index / 256, index % 256, subindex]
    else if subindex == 0 then [index] else [index, subindex]
  }

  function EncodedLength(r: Request): nat {
    var short := |r.data| + Overhead(r.index, r.subindex);
    if short <= 15 then short else short + 1
  }

  /** Requests the data link layer accepts and has room for. */
  predicate Encodable(r: Request) {
    2 <= r.index < 0x1_0000 && EncodedLength(r) <= IsduMaxSize
  }

  /** Where the address of an encoded request starts. */
  function AddressOffset(r: Request): nat {
    if EncodedLength(r) <= 15 then 1 else 2
  }

  /** I-Service and length, with the extended length byte where needed. */
  function Head(r: Request): (h: seq<byte>)
    requires Encodable(r)
    ensures |h| == AddressOffset(r)
  {
    var n := EncodedLength(r);
    if n <= 15 then [16 * IService(r) + n] else [16 * IService(r) + 1, n]
  }

  /** All of the ISDU but its final checksum. */
  function EncodeBody(r: Request): seq<byte>
    requires Encodable(r)
  {
    Head(r) + Address(r.index, r.subindex) + r.data
  }

  function Encode(r: Request): (s: seq<byte>)
    requires Encodable(r)
    ensures |s| == EncodedLength(r)
  {
    EncodeBody(r) + [Checksum(EncodeBody(r))]
  }

  /** The length announced by the first one or two bytes, if acceptable. */
  function TotalLen(b0: byte, b1: byte): Option<byte> {
    var len := if b0 % 16 == 1 then b1 else b0 % 16;
    if len < 2 || len == 16 then None else Some(len)
  }

  /** A reference receiver: reads one request off the front of `b`. */
  function ParseRequest(b: seq<byte>): Option<Request> {
    if |b| < 2 || TotalLen(b[0], b[1]).None? || TotalLen(b[0], b[1]).value > |b| then None
    else
      var total := TotalLen(b[0], b[1]).value;
      var at := if b[0] % 16 == 1 then 2 else 1;
      var service := b[0] / 16;
      var format := service % 8;
      if !(1 <= format <= 3) || total < at + format + 1 || Checksum(b[..total]) != 0 then None
      else
        var index := if format == 3 then BigEndian16(b[at], b[at + 1]) else b[at];
        var subindex := if format == 1 then 0 else b[at + format - 1];
        Some(Request(service >= 8, index, subindex, b[at + format..total - 1]))
  }

  /** Taking a message apart again. */
  lemma Slices(head: seq<byte>, middle: seq<byte>, data: seq<byte>, last: byte)
    ensures var s := head + middle + data + [last];
            && s[..|head|] == head
            && s[|head|..|head| + |middle|] == middle
            && s[|head| + |middle|..|s| - 1] == data
  {
  }

  /** Where an encoded request keeps its parts. */
  lemma EncodeLayout(r: Request)
    requires Encodable(r)
    ensures Encode(r)[..AddressOffset(r)] == Head(r)
    ensures Encode(r)[AddressOffset(r)..AddressOffset(r) + |Address(r.index, r.subindex)|] == Address(r.index, r.subindex)
    ensures Encode(r)[AddressOffset(r) + |Address(r.index, r.subindex)|..EncodedLength(r) - 1] == r.data
  {
    Slices(Head(r), Address(r.index, r.subindex), r.data, Checksum(EncodeBody(r)));
  }

  /** Reading a request whose parts lie where the encoder puts them. */
  lemma ParseLayout(b: seq<byte>, r: Request, n: byte, at: nat, end: nat)
    requires 2 <= r.index < 0x1_0000
    requires |b| >= n >= 2 && TotalLen(b[0], b[1]) == Some(n) && Checksum(b[..n]) == 0
    requires at == if b[0] % 16 == 1 then 2 else 1
    requires b[0] / 16 == IService(r)
    requires end == at + |Address(r.index, r.subindex)| && end + 1 <= n
    requires b[at..end] == Address(r.index, r.subindex)
    requires b[end..n - 1] == r.data
    ensures ParseRequest(b) == Some(r)
  {
    var address := Address(r.index, r.subindex);
    assert b[at] == b[at..end][0] == address[0];
    if r.index >= 256 {
      assert b[at + 1] == b[at..end][1] == address[1];
      assert b[at + 2] == b[at..end][2] == address[2];
    } else if r.subindex != 0 {
      assert b[at + 1] == b[at..end][1] == address[1];
    }
  }

  lemma Prefix(s: seq<byte>, rest: seq<byte>, at: nat, end: nat)
    requires at <= end < |s|
    ensures (s + rest)[..|s|] == s
    ensures (s + rest)[at..end] == s[at..end] && (s + rest)[end..|s| - 1] == s[end..|s| - 1]
  {
  }

  /** The encoder and the receiver are inverse, whatever follows the ISDU. */
  lemma ParseEncode(r: Request, rest: seq<byte>)
    requires Encodable(r)
    ensures ParseRequest(Encode(r) + rest) == Some(r)
  {
    var s, n, at := Encode(r), EncodedLength(r), AddressOffset(r);
    var end := at + |Address(r.index, r.subindex)|;
    EncodeLayout(r);
    EncodedLengthParses(r);
    EncodeChecksum(r);
    Prefix(s, rest, at, end);
    assert s[0] == s[..at][0];
    ParseLayout(s + rest, r, n, at, end);
  }

  /** The XOR over a whole encoded request is zero. */
  lemma EncodeChecksum(r: Request)
    requires Encodable(r)
    ensures Checksum(Encode(r)) == 0
  {
    ChecksumCancels(EncodeBody(r));
  }

  /** The length parser inverts the encoder: the short form announces 3..15
      bytes, the extended form at least 17, so the rejected 16 never arises. */
  lemma EncodedLengthParses(r: Request)
    requires Encodable(r)
    ensures TotalLen(Encode(r)[0], Encode(r)[1]) == Some(|Encode(r)|)
    ensures 3 <= |Encode(r)| <= 15 || 17 <= |Encode(r)|
  {
    EncodeLayout(r);
    HeadParses(r, Encode(r));
  }

  lemma HeadParses(r: Request, s: seq<byte>)
    requires Encodable(r) && |s| == EncodedLength(r) && s[..AddressOffset(r)] == Head(r)
    ensures TotalLen(s[0], s[1]) == Some(|s|)
    ensures 3 <= |s| <= 15 || 17 <= |s|
  {
    var h := s[..AddressOffset(r)];
    assert s[0] == h[0];
    assert |h| == 2 ==> s[1] == h[1];
  }

  /** The response header check of the ISDU handler. */
  predicate ValidHeader(b0: byte, dirRead: bool) {
    var service := b0 / 16;
    if service == NoService then b0 % 16 <= 1
    else
      b0 % 16 != 0 &&
      if dirRead then service == ReadNeg || service == ReadPos
      else service == WriteNeg || service == WritePos
  }

  /** The service code answers a request of the given direction. */
  predicate AnswersDirection(service: nat, dirRead: bool) {
    if dirRead then service == ReadNeg || service == ReadPos
    else service == WriteNeg || service == WritePos
  }

  /** A response as a device may send it: a service code of the right direction
      and a length field that tells its own length. Its checksum may be wrong. */
  predicate WellFormedResponse(r: seq<byte>, dirRead: bool) {
    && 2 <= |r| < 256
    && AnswersDirection(r[0] / 16, dirRead)
    && if r[0] % 16 == 1 then |r| >= 17 && r[1] == |r| else r[0] % 16 == |r|
  }

  predicate Extended(r: seq<byte>) {
    |r| > 0 && r[0] % 16 == 1
  }

  function Payload(r: seq<byte>, dirRead: bool): seq<byte>
    requires WellFormedResponse(r, dirRead)
  {
    r[if Extended(r) then 2 else 1..|r| - 1]
  }
}
