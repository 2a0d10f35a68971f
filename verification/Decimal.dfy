/**
 Multi-byte decimal arithmetic: a program that runs ADC (or SBC) over the bytes of two
 packed-decimal numbers, low byte first, with the carry flag threaded through.
 */
module Decimal {
  import opened Bytes
  import opened Machine
  import opened Alu

  /** A packed-decimal byte: two digits. */
  predicate IsBcd(b: byte) { b % 0x10 <= 9 && b / 0x10 <= 9 }

  function Digits(b: byte): nat { b / 0x10 * 10 + b % 0x10 }

  predicate AllBcd(xs: seq<byte>) { forall i :: 0 <= i < |xs| ==> IsBcd(xs[i]) }

  /** The number a little-endian sequence of packed-decimal bytes stands for. */
  function Value(xs: seq<byte>): nat {
    if xs == [] then 0 else Digits(xs[0]) + 100 * Value(xs[1..])
  }

  function Power100(n: nat): nat { if n == 0 then 1 else 100 * Power100(n - 1) }

  /** What a carry out of (or a borrow into) an n-byte number is worth. */
  function Above(n: nat, carry: bool): nat { if carry then Power100(n) else 0 }

  lemma {:induction false} ValueBounded(xs: seq<byte>)
    requires AllBcd(xs)
    ensures Value(xs) < Power100(|xs|)
  {
    if xs != [] {
      ValueBounded(xs[1..]);
    }
  }

  /** Two numbers of the same length with the same value are the same bytes. */
  lemma {:induction false} ValueInjective(xs: seq<byte>, ys: seq<byte>)
    requires |xs| == |ys| && AllBcd(xs) && AllBcd(ys) && Value(xs) == Value(ys)
    ensures xs == ys
  {
    if xs != [] {
      assert Digits(xs[0]) == Digits(ys[0]) && Value(xs[1..]) == Value(ys[1..]);
      ValueInjective(xs[1..], ys[1..]);
      assert xs[0] == ys[0];
      assert xs == [xs[0]] + xs[1..] && ys == [ys[0]] + ys[1..];
    }
  }

  // ---- One byte ------------------------------------------------------------------------------

  lemma LowNibble(al: nat, ah: nat, vl: nat, vh: nat, c: nat)
    requires al <= 9 && ah <= 9 && vl <= 9 && vh <= 9 && c <= 1
    ensures var carry := if al + vl + c > 9 then 1 else 0;
      LowCorrected(0x10 * ah + al, 0x10 * vh + vl, c) == 0x10 * (ah + vh + carry) + (al + vl + c - 10 * carry)
  {
    assert (0x10 * ah + al) % 0x10 == al;
    assert (0x10 * vh + vl) % 0x10 == vl;
  }

  lemma HighNibble(low: nat, high: nat)
    requires low <= 9 && high <= 19
    ensures var carry := if high > 9 then 1 else 0;
      HighCorrected(0x10 * high + low) == 0x100 * carry + 0x10 * (high - 10 * carry) + low
  {
    assert (0x10 * high + low) / 0x10 == high;
  }

  lemma FromDigits(high: nat, low: nat)
    requires high <= 9 && low <= 9
    ensures IsBcd(0x10 * high + low) && Digits(0x10 * high + low) == 10 * high + low
  {
    assert (0x10 * high + low) % 0x10 == low;
  }

  lemma ToDigits(b: byte) returns (high: nat, low: nat)
    requires IsBcd(b)
    ensures high <= 9 && low <= 9 && b == 0x10 * high + low && Digits(b) == 10 * high + low
  {
    high, low := b / 0x10, b % 0x10;
  }

  lemma AddResult(r: Regs, v: byte, out: nat, sum: byte)
    requires r.p.d && out <= 1
    requires HighCorrected(LowCorrected(r.a, v, Bit(r.p.c))) == 0x100 * out + sum
    ensures AddWithCarry(r, v).a == sum && AddWithCarry(r, v).p.d && Bit(AddWithCarry(r, v).p.c) == out
  {
    hide LowCorrected, HighCorrected;
    var t := 0x100 * out + sum;
    assert t % 0x1000 == t && t % 0x100 == sum;
  }

  lemma AddByte(r: Regs, v: byte)
    requires r.p.d && IsBcd(r.a) && IsBcd(v)
    ensures var r' := AddWithCarry(r, v);
      && IsBcd(r'.a) && r'.p.d
      && Digits(r'.a) + 100 * Bit(r'.p.c) == Digits(r.a) + Digits(v) + Bit(r.p.c)
  {
    hide LowCorrected, HighCorrected, AddWithCarry, IsBcd, Digits;
    var ah, al := ToDigits(r.a);
    var vh, vl := ToDigits(v);
    var c := Bit(r.p.c);
    LowNibble(al, ah, vl, vh, c);
    var carry := if al + vl + c > 9 then 1 else 0;
    var low, high := al + vl + c - 10 * carry, ah + vh + carry;
    HighNibble(low, high);
    var out := if high > 9 then 1 else 0;
    AddResult(r, v, out, 0x10 * (high - 10 * out) + low);
    FromDigits(high - 10 * out, low);
  }

  /** The high digit after the subtraction, with the borrow folded back by the correction. */
  lemma HighDifference(d: int, low: nat)
    requires -10 <= d <= 9 && low <= 9
    ensures HighBorrowed(low + 0x10 * d % 0x1_0000) == 0x10 * (d + (if d < 0 then 10 else 0)) + low
  {
    if d < 0 {
      var t := low + (0x1_0000 + 0x10 * d);
      assert 0x10 * d % 0x1_0000 == 0x1_0000 + 0x10 * d;
      assert t / 0x100 == 0xff;
      assert (t - 0x60) % 0x100 == t - 0x60 - 0xff00;
    }
  }

  lemma LowDifference(d: int)
    requires -10 <= d <= 9
    ensures LowBorrowed(d) == d + (if d < 0 then 10 else 0)
  {
  }

  lemma SubtractDigits(al: nat, ah: nat, vl: nat, vh: nat, b: nat)
    requires al <= 9 && ah <= 9 && vl <= 9 && vh <= 9 && b <= 1
    ensures var b0 := if al < vl + b then 1 else 0;
      var b1 := if ah < vh + b0 then 1 else 0;
      SubtractNibbles(0x10 * ah + al, 0x10 * vh + vl, b)
        == 0x10 * (ah - vh - b0 + 10 * b1) + (al - vl - b + 10 * b0)
  {
    hide LowBorrowed, HighBorrowed;
    assert (0x10 * ah + al) % 0x10 == al && (0x10 * vh + vl) % 0x10 == vl;
    var b0 := if al < vl + b then 1 else 0;
    LowDifference(al - vl - b);
    HighDifference(ah - vh - b0, al - vl - b + 10 * b0);
    assert 0x10 * ah - 0x10 * vh - 0x10 * b0 == 0x10 * (ah - vh - b0);
  }

  lemma SubtractResult(r: Regs, v: byte)
    requires r.p.d
    ensures var r' := SubtractWithCarry(r, v);
      && r'.a == SubtractNibbles(r.a, v, 1 - Bit(r.p.c)) && r'.p.d
      && (r'.p.c <==> v + (1 - Bit(r.p.c)) <= r.a)
  {
    hide SubtractNibbles;
    var d := r.a - v - (1 - Bit(r.p.c));
    assert d % 0x1_0000 == if d < 0 then d + 0x1_0000 else d;
  }

  lemma SubtractByte(r: Regs, v: byte)
    requires r.p.d && IsBcd(r.a) && IsBcd(v)
    ensures var r' := SubtractWithCarry(r, v);
      && IsBcd(r'.a) && r'.p.d
      && Digits(r'.a) + Digits(v) + (1 - Bit(r.p.c)) == Digits(r.a) + 100 * (1 - Bit(r'.p.c))
  {
    hide SubtractNibbles, SubtractWithCarry, IsBcd, Digits;
    var ah, al := ToDigits(r.a);
    var vh, vl := ToDigits(v);
    var b := 1 - Bit(r.p.c);
    SubtractDigits(al, ah, vl, vh, b);
    SubtractResult(r, v);
    var b0 := if al < vl + b then 1 else 0;
    var b1 := if ah < vh + b0 then 1 else 0;
    FromDigits(ah + 10 * b1 - vh - b0, al + 10 * b0 - vl - b);
  }

  // ---- Numbers of any length -----------------------------------------------------------------

  /** ADC over two numbers from the low byte up: the result and the register file after it. */
  function AddChain(r: Regs, xs: seq<byte>, ys: seq<byte>): (res: (seq<byte>, Regs))
    requires |xs| == |ys|
    ensures |res.0| == |xs|
    decreases |xs|
  {
    if xs == [] then ([], r) else
    var r1 := AddWithCarry(r.(a := xs[0]), ys[0]);
    var (rest, r2) := AddChain(r1, xs[1..], ys[1..]);
    ([r1.a] + rest, r2)
  }

  function SubtractChain(r: Regs, xs: seq<byte>, ys: seq<byte>): (res: (seq<byte>, Regs))
    requires |xs| == |ys|
    ensures |res.0| == |xs|
    decreases |xs|
  {
    if xs == [] then ([], r) else
    var r1 := SubtractWithCarry(r.(a := xs[0]), ys[0]);
    var (rest, r2) := SubtractChain(r1, xs[1..], ys[1..]);
    ([r1.a] + rest, r2)
  }

  /** The exact decimal sum, the carry out being the digit above the last byte. */
  lemma {:induction false} AddChainExact(r: Regs, xs: seq<byte>, ys: seq<byte>)
    requires |xs| == |ys| && AllBcd(xs) && AllBcd(ys) && r.p.d
    ensures var (zs, r') := AddChain(r, xs, ys);
      && AllBcd(zs) && r'.p.d
      && Value(zs) + Above(|xs|, r'.p.c) == Value(xs) + Value(ys) + Bit(r.p.c)
    decreases |xs|
  {
    hide AddWithCarry, IsBcd, Digits;
    if xs != [] {
      var r1 := AddWithCarry(r.(a := xs[0]), ys[0]);
      AddByte(r.(a := xs[0]), ys[0]);
      AddChainExact(r1, xs[1..], ys[1..]);
      var (rest, r2) := AddChain(r1, xs[1..], ys[1..]);
      var zs := [r1.a] + rest;
      assert zs[1..] == rest;
      assert AddChain(r, xs, ys) == (zs, r2);
    }
  }

  /** The exact decimal difference; a clear carry is the borrow from above the last byte. */
  lemma {:induction false} SubtractChainExact(r: Regs, xs: seq<byte>, ys: seq<byte>)
    requires |xs| == |ys| && AllBcd(xs) && AllBcd(ys) && r.p.d
    ensures var (zs, r') := SubtractChain(r, xs, ys);
      && AllBcd(zs) && r'.p.d
      && Value(zs) + Value(ys) + (1 - Bit(r.p.c)) == Value(xs) + Above(|xs|, !r'.p.c)
    decreases |xs|
  {
    hide SubtractWithCarry, IsBcd, Digits;
    if xs != [] {
      var r1 := SubtractWithCarry(r.(a := xs[0]), ys[0]);
      SubtractByte(r.(a := xs[0]), ys[0]);
      SubtractChainExact(r1, xs[1..], ys[1..]);
      var (rest, r2) := SubtractChain(r1, xs[1..], ys[1..]);
      var zs := [r1.a] + rest;
      assert zs[1..] == rest;
      assert SubtractChain(r, xs, ys) == (zs, r2);
    }
  }

  /** The sum read as an equation on the bytes: it is the decimal sum modulo 100^n, and the carry
      says whether that overflowed. */
  lemma SumModulo(r: Regs, xs: seq<byte>, ys: seq<byte>)
    requires |xs| == |ys| && AllBcd(xs) && AllBcd(ys) && r.p.d
    ensures var (zs, r') := AddChain(r, xs, ys);
      var sum := Value(xs) + Value(ys) + Bit(r.p.c);
      && (r'.p.c <==> Power100(|xs|) <= sum)
      && Value(zs) == if Power100(|xs|) <= sum then sum - Power100(|xs|) else sum
  {
    AddChainExact(r, xs, ys);
    ValueBounded(AddChain(r, xs, ys).0);
  }

  /** CLC, add, SEC, subtract the same operand: the original number, byte for byte. */
  lemma SubtractUndoesAdd(r: Regs, r2: Regs, xs: seq<byte>, ys: seq<byte>)
    requires |xs| == |ys| && AllBcd(xs) && AllBcd(ys)
    requires r.p.d && !r.p.c && r2.p.d && r2.p.c
    ensures SubtractChain(r2, AddChain(r, xs, ys).0, ys).0 == xs
    ensures SubtractChain(r2, AddChain(r, xs, ys).0, ys).1.p.c == !AddChain(r, xs, ys).1.p.c
  {
    var (zs, r') := AddChain(r, xs, ys);
    AddChainExact(r, xs, ys);
    var (ws, r'') := SubtractChain(r2, zs, ys);
    SubtractChainExact(r2, zs, ys);
    ValueBounded(xs);
    ValueBounded(ws);
    ValueInjective(ws, xs);
  }
}
