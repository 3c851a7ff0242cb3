/** Bytes, the XOR checksum and big-endian numbers, as the wire formats of the
    stack use them. A byte is its numeric value, so nibbles and flag bits are
    taken with `/` and `%`. */
module Bytes {

  type byte = x: int | 0 <= x < 256

  datatype Option<+T> = None | Some(value: T)

  function Xor(a: byte, b: byte): byte {
    ((a as bv8) ^ (b as bv8)) as int
  }

  /** The XOR of all bytes of `s`; 0 for no bytes. */
  function Checksum(s: seq<byte>): byte {
    if s == [] then 0 else Xor(Checksum(s[..|s| - 1]), s[|s| - 1])
  }

  /** Appending its own checksum makes the checksum of a message zero. */
  lemma ChecksumCancels(s: seq<byte>)
    ensures Checksum(s + [Checksum(s)]) == 0
  {
    var c := Checksum(s);
    assert (s + [c])[..|s|] == s;
    assert Xor(c, c) == 0;
  }

  function Zeros(n: nat): (z: seq<byte>)
    ensures |z| == n && forall i :: 0 <= i < n ==> z[i] == 0
  {
    seq(n, _ => 0)
  }

  type Flags = f: seq<bool> | |f| == 8 witness seq(8, _ => false)

  /** The bits of a status byte, least significant first. */
  function Bits(b: byte): Flags {
    [b % 2 == 1, b / 2 % 2 == 1, b / 4 % 2 == 1, b / 8 % 2 == 1,
     b / 16 % 2 == 1, b / 32 % 2 == 1, b / 64 % 2 == 1, b / 128 == 1]
  }

  /** The value of bit `k`. */
  function Weight(k: nat): (w: nat)
    ensures w > 0
  {
    if k == 0 then 1 else 2 * Weight(k - 1)
  }

  /** Bit `k` of a byte is set. */
  predicate HasBit(b: byte, k: nat) {
    b / Weight(k) % 2 == 1
  }

  lemma Weights()
    ensures Weight(0) == 1 && Weight(1) == 2 && Weight(2) == 4 && Weight(3) == 8
    ensures Weight(4) == 16 && Weight(5) == 32 && Weight(6) == 64 && Weight(7) == 128
  {
    assert Weight(2) == 4 && Weight(4) == 16;
  }

  /** Flag `k` is bit `k`. */
  lemma FlagIsBit(b: byte, k: nat)
    requires k < 8
    ensures Bits(b)[k] <==> HasBit(b, k)
  {
    Weights();
  }

  function Digit(bit: bool, weight: nat): nat {
    if bit then weight else 0
  }

  lemma NibbleDigits(n: nat)
    requires n < 16
    ensures n == Digit(n % 2 == 1, 1) + Digit(n / 2 % 2 == 1, 2) + Digit(n / 4 % 2 == 1, 4) + Digit(n / 8 % 2 == 1, 8)
  {
  }

  lemma LowNibble(h: nat, l: nat)
    requires l < 16
    ensures (16 * h + l) % 2 == l % 2
    ensures (16 * h + l) / 2 % 2 == l / 2 % 2
    ensures (16 * h + l) / 4 % 2 == l / 4 % 2
    ensures (16 * h + l) / 8 % 2 == l / 8 % 2
  {
    assert (16 * h + l) / 2 == 8 * h + l / 2;
    assert (16 * h + l) / 4 == 4 * h + l / 4;
    assert (16 * h + l) / 8 == 2 * h + l / 8;
  }

  lemma HighNibble(h: nat, l: nat)
    requires h < 16 && l < 16
    ensures (16 * h + l) / 16 == h
    ensures (16 * h + l) / 32 == h / 2
    ensures (16 * h + l) / 64 == h / 4
    ensures (16 * h + l) / 128 == h / 8 == h / 8 % 2
  {
  }

  /** The flags are the binary digits of the byte. */
  lemma BitsAreDigits(b: byte)
    ensures
      var f := Bits(b);
      b == Digit(f[0], 1) + Digit(f[1], 2) + Digit(f[2], 4) + Digit(f[3], 8)
           + Digit(f[4], 16) + Digit(f[5], 32) + Digit(f[6], 64) + Digit(f[7], 128)
  {
    assert b == 16 * (b / 16) + b % 16;
    LowNibble(b / 16, b % 16);
    HighNibble(b / 16, b % 16);
    NibbleDigits(b % 16);
    NibbleDigits(b / 16);
  }

  function BigEndian16(hi: byte, lo: byte): (n: nat)
    ensures n < 0x1_0000
  {
    256 * hi + lo
  }

  /** The number whose four base-256 digits, high byte first, begin `raw`. */
  predicate Digits(raw: seq<byte>, n: nat) {
    |raw| >= 4 && n == 0x100_0000 * (raw[0] as int) + 0x1_0000 * (raw[1] as int) + 0x100 * (raw[2] as int) + (raw[3] as int)
  }

  /** Number of segments of `width` bytes that hold `total` bytes. */
  function SegmentCount(total: nat, width: nat): nat
    requires width > 0
  {
    (total + width - 1) / width
  }

  lemma SegmentCountCovers(total: nat, width: nat)
    requires width > 0
    ensures (SegmentCount(total, width) - 1) * width < total || total == 0
    ensures total <= SegmentCount(total, width) * width < total + width
  {
    var n := total + width - 1;
    assert n == (n / width) * width + n % width;
  }
}
