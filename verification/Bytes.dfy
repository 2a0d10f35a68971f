/** 8- and 16-bit quantities as bounded integers, with the bitwise operators the 6510 needs. */
module Bytes {

  type byte = x: int | 0 <= x < 0x100
  type word = x: int | 0 <= x < 0x1_0000

  function Lo(w: word): byte { w % 0x100 }

  function Hi(w: word): byte { w / 0x100 }

  function MakeWord(hi: byte, lo: byte): (w: word)
    ensures Lo(w) == lo && Hi(w) == hi
  {
    hi * 0x100 + lo
  }

  function Wrap8(x: int): byte { x % 0x100 }

  function Wrap16(x: int): word { x % 0x1_0000 }

  predicate Bit7(x: int) { x / 0x80 % 2 == 1 }

  function And(x: byte, y: byte): byte { ((x as bv8) & (y as bv8)) as int }

  function Or(x: byte, y: byte): byte { ((x as bv8) | (y as bv8)) as int }

  function Xor(x: byte, y: byte): byte { ((x as bv8) ^ (y as bv8)) as int }

  // ---- Little-endian numbers -----------------------------------------------------------------

  function LittleEndian(v: nat, width: nat): (r: seq<byte>)
    ensures |r| == width
  {
    if width == 0 then [] else [v % 0x100] + LittleEndian(v / 0x100, width - 1)
  }

  function FromLittleEndian(bs: seq<byte>): nat {
    if bs == [] then 0 else bs[0] + 0x100 * FromLittleEndian(bs[1..])
  }

  function Power256(n: nat): nat { if n == 0 then 1 else 0x100 * Power256(n - 1) }

  lemma {:induction false} LittleEndianRoundTrip(v: nat, width: nat)
    requires v < Power256(width)
    ensures FromLittleEndian(LittleEndian(v, width)) == v
  {
    if width > 0 {
      LittleEndianRoundTrip(v / 0x100, width - 1);
      assert LittleEndian(v, width)[1..] == LittleEndian(v / 0x100, width - 1);
    }
  }

  lemma {:induction false} FromLittleEndianBound(bs: seq<byte>)
    ensures FromLittleEndian(bs) < Power256(|bs|)
  {
    if bs != [] {
      FromLittleEndianBound(bs[1..]);
    }
  }
}
