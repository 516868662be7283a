/** Numbers of any length: what programs built from ADC, SBC and DAA compute. */
module Arithmetic {
  import opened Bytes
  import opened CpuSpec

  function Power(base: nat, n: nat): nat { if n == 0 then 1 else base * Power(base, n - 1) }

  /* Packed decimal */

  predicate IsBcd(v: Byte) { v % 16 <= 9 && v / 16 <= 9 }

  function Bcd(v: Byte): nat { 10 * (v / 16) + v % 16 }

  predicate AllBcd(v: seq<Byte>) { forall i :: 0 <= i < |v| ==> IsBcd(v[i]) }

  // The number a little-endian string of packed-decimal bytes stands for
  function Decimal(v: seq<Byte>): nat { if |v| == 0 then 0 else Bcd(v[0]) + 100 * Decimal(v[1..]) }

  // LD A, x; ADC A, y; DAA
  function AdcDaa(s: Cpu, x: Byte, y: Byte): Cpu { Daa(Adc(s.(a := x), y)) }

  // LD A, x; SBC A, y; DAA
  function SbcDaa(s: Cpu, x: Byte, y: Byte): Cpu { Daa(Sbc(s.(a := x), y)) }

  lemma Wrap8(x: int)
    requires -256 <= x < 512
    ensures Low8(x) == if x >= 256 then x - 256 else if x < 0 then x + 256 else x
  {
  }

  lemma LowNibble(q: int, r: int)
    requires 0 <= r < 16
    ensures (16 * q + r) % 16 == r && (16 * q + r) / 16 == q
  {
  }

  // The byte and flags of a sum whose nibble sums are high and low
  predicate IsSum(t: Cpu, high: nat, low: nat) {
    && high <= 18 && low <= 19 && !t.f.n
    && t.f.c == (16 * high + low >= 256) && t.f.h == (low > 15)
    && t.a == if t.f.c then 16 * high + low - 256 else 16 * high + low
  }

  // The first half of DAA corrects the high digit: q tens, less ten if they carry, and nine if the low
  // digit is about to carry into them.
  lemma DaaHighDigit(t: Cpu, high: nat, low: nat)
    requires IsSum(t, high, low)
    ensures var (cy, q) := (t.f.c || t.a > 0x99, if low > 15 then high + 1 else high);
      && cy == (q > 9 || (q == 9 && 9 < low <= 15))
      && (if cy then Low8(t.a + 0x60) else t.a) ==
         16 * (if !cy then q else if q > 9 then q - 10 else 15) + (if low > 15 then low - 16 else low)
  {
    hide Low8;
    Wrap8(t.a + 0x60);
  }

  lemma DaaAfterSum(t: Cpu, high: nat, low: nat)
    requires IsSum(t, high, low)
    ensures var (l, h) := (if low > 9 then low - 10 else low, if low > 9 then high + 1 else high);
      Daa(t).a == (if h > 9 then 16 * (h - 10) + l else 16 * h + l) && Daa(t).f.c == (h > 9)
  {
    hide Low8;
    DaaHighDigit(t, high, low);
    var (cy, q) := (t.f.c || t.a > 0x99, if low > 15 then high + 1 else high);
    var a1: Byte := if cy then Low8(t.a + 0x60) else t.a;
    LowNibble(if !cy then q else if q > 9 then q - 10 else 15, if low > 15 then low - 16 else low);
    Wrap8(a1 + 6);
  }

  lemma DaaAfterDifference(t: Cpu, high: int, low: int)
    requires -9 <= high <= 9 && -10 <= low <= 9 && t.f.n
    requires t.f.c == (16 * high + low < 0) && t.f.h == (low < 0)
    requires t.a == if t.f.c then 16 * high + low + 256 else 16 * high + low
    ensures var (l, h) := (if low < 0 then low + 10 else low, if low < 0 then high - 1 else high);
      Daa(t).a == (if h < 0 then 16 * (h + 10) + l else 16 * h + l) && Daa(t).f.c == (h < 0)
  {
    hide Low8;
    Wrap8(t.a - 0x60);
    Wrap8(if t.f.c then Low8(t.a - 0x60) - 6 else t.a - 6);
  }

  lemma AdcDaaAddsTwoDigits(s: Cpu, x: Byte, y: Byte)
    requires IsBcd(x) && IsBcd(y)
    ensures var r := AdcDaa(s, x, y);
      IsBcd(r.a) && Bcd(r.a) + 100 * Carry(r) == Bcd(x) + Bcd(y) + Carry(s)
  {
    hide Daa, Low8;
    var (high, low) := (x / 16 + y / 16, x % 16 + y % 16 + Carry(s));
    Wrap8(x + y + Carry(s));
    DaaAfterSum(Adc(s.(a := x), y), high, low);
    var (l, h) := (if low > 9 then low - 10 else low, if low > 9 then high + 1 else high);
    LowNibble(if h > 9 then h - 10 else h, l);
  }

  lemma SbcDaaSubtractsTwoDigits(s: Cpu, x: Byte, y: Byte)
    requires IsBcd(x) && IsBcd(y)
    ensures var r := SbcDaa(s, x, y);
      IsBcd(r.a) && Bcd(r.a) + Bcd(y) + Carry(s) == Bcd(x) + 100 * Carry(r)
  {
    hide Daa, Low8;
    var (high, low) := (x / 16 - y / 16, x % 16 - y % 16 - Carry(s));
    Wrap8(x - y - Carry(s));
    DaaAfterDifference(Sbc(s.(a := x), y), high, low);
    var (l, h) := (if low < 0 then low + 10 else low, if low < 0 then high - 1 else high);
    LowNibble(if h < 0 then h + 10 else h, l);
  }

  // The loop over the bytes, lowest first: the CPU at the end and the bytes it stored.
  function AddDecimal(s: Cpu, xs: seq<Byte>, ys: seq<Byte>): (Cpu, seq<Byte>)
    requires |xs| == |ys|
    decreases |xs|
  {
    if |xs| == 0 then (s, [])
    else
      var s1 := AdcDaa(s, xs[0], ys[0]);
      var (t, rest) := AddDecimal(s1, xs[1..], ys[1..]);
      (t, [s1.a] + rest)
  }

  function SubtractDecimal(s: Cpu, xs: seq<Byte>, ys: seq<Byte>): (Cpu, seq<Byte>)
    requires |xs| == |ys|
    decreases |xs|
  {
    if |xs| == 0 then (s, [])
    else
      var s1 := SbcDaa(s, xs[0], ys[0]);
      var (t, rest) := SubtractDecimal(s1, xs[1..], ys[1..]);
      (t, [s1.a] + rest)
  }

  // One column of a long addition: the lowest digit, and the rest with its own carry.
  lemma Column(base: nat, d: int, c1: int, x: int, y: int, c: int, rest: int, p: int, k: int, xs: int, ys: int)
    requires d + base * c1 == x + y + c && rest + p * k == xs + ys + c1
    ensures d + base * rest + base * p * k == x + base * xs + (y + base * ys) + c
  {
    assert base * (rest + p * k) == base * rest + base * (p * k);
    assert base * (xs + ys + c1) == base * xs + base * ys + base * c1;
    assert base * (p * k) == base * p * k;
  }

  // The same for subtraction: borrows move to the other side.
  lemma BorrowColumn(base: nat, d: int, c1: int, x: int, y: int, c: int, rest: int, p: int, k: int, xs: int, ys: int)
    requires d + y + c == x + base * c1 && rest + ys + c1 == xs + p * k
    ensures d + base * rest + (y + base * ys) + c == x + base * xs + base * p * k
  {
    assert base * (rest + ys + c1) == base * rest + base * ys + base * c1;
    assert base * (xs + p * k) == base * xs + base * (p * k);
    assert base * (p * k) == base * p * k;
  }

  lemma {:induction false} DecimalSum(s: Cpu, xs: seq<Byte>, ys: seq<Byte>)
    requires |xs| == |ys| && AllBcd(xs) && AllBcd(ys)
    ensures var (t, rs) := AddDecimal(s, xs, ys);
      |rs| == |xs| && AllBcd(rs)
      && Decimal(rs) + Power(100, |xs|) * Carry(t) == Decimal(xs) + Decimal(ys) + Carry(s)
    decreases |xs|
  {
    if |xs| > 0 {
      hide AdcDaa, Bcd, IsBcd, Carry;
      var s1 := AdcDaa(s, xs[0], ys[0]);
      var (t, rest) := AddDecimal(s1, xs[1..], ys[1..]);
      AdcDaaAddsTwoDigits(s, xs[0], ys[0]);
      DecimalSum(s1, xs[1..], ys[1..]);
      assert ([s1.a] + rest)[1..] == rest;
      Column(100, Bcd(s1.a), Carry(s1), Bcd(xs[0]), Bcd(ys[0]), Carry(s),
             Decimal(rest), Power(100, |xs| - 1), Carry(t), Decimal(xs[1..]), Decimal(ys[1..]));
    }
  }

  lemma {:induction false} DecimalDifference(s: Cpu, xs: seq<Byte>, ys: seq<Byte>)
    requires |xs| == |ys| && AllBcd(xs) && AllBcd(ys)
    ensures var (t, rs) := SubtractDecimal(s, xs, ys);
      |rs| == |xs| && AllBcd(rs)
      && Decimal(rs) + Decimal(ys) + Carry(s) == Decimal(xs) + Power(100, |xs|) * Carry(t)
    decreases |xs|
  {
    if |xs| > 0 {
      hide SbcDaa, Bcd, IsBcd, Carry;
      var s1 := SbcDaa(s, xs[0], ys[0]);
      var (t, rest) := SubtractDecimal(s1, xs[1..], ys[1..]);
      SbcDaaSubtractsTwoDigits(s, xs[0], ys[0]);
      DecimalDifference(s1, xs[1..], ys[1..]);
      assert ([s1.a] + rest)[1..] == rest;
      BorrowColumn(100, Bcd(s1.a), Carry(s1), Bcd(xs[0]), Bcd(ys[0]), Carry(s),
                   Decimal(rest), Power(100, |xs| - 1), Carry(t), Decimal(xs[1..]), Decimal(ys[1..]));
    }
  }

  lemma {:induction false} DecimalRange(v: seq<Byte>)
    requires AllBcd(v)
    ensures Decimal(v) < Power(100, |v|)
  {
    if |v| > 0 {
      assert IsBcd(v[0]);
      DecimalRange(v[1..]);
    }
  }

  // The result is the sum modulo 100^n, and the carry says whether it was at least 100^n.
  lemma DecimalAddition(s: Cpu, xs: seq<Byte>, ys: seq<Byte>)
    requires |xs| == |ys| && AllBcd(xs) && AllBcd(ys)
    ensures var (t, rs) := AddDecimal(s, xs, ys);
      var (total, limit) := (Decimal(xs) + Decimal(ys) + Carry(s), Power(100, |xs|));
      && |rs| == |xs| && AllBcd(rs)
      && Decimal(rs) == (if total >= limit then total - limit else total) < limit
      && (t.f.c <==> total >= limit)
  {
    DecimalSum(s, xs, ys);
    DecimalRange(AddDecimal(s, xs, ys).1);
  }

  lemma DecimalSubtraction(s: Cpu, xs: seq<Byte>, ys: seq<Byte>)
    requires |xs| == |ys| && AllBcd(xs) && AllBcd(ys)
    ensures var (t, rs) := SubtractDecimal(s, xs, ys);
      var (total, limit) := (Decimal(xs) - Decimal(ys) - Carry(s), Power(100, |xs|));
      && |rs| == |xs| && AllBcd(rs)
      && Decimal(rs) == (if total < 0 then total + limit else total) < limit
      && (t.f.c <==> total < 0)
  {
    DecimalDifference(s, xs, ys);
    DecimalRange(SubtractDecimal(s, xs, ys).1);
  }

  /* Binary */

  function Binary(v: seq<Byte>): nat { if |v| == 0 then 0 else v[0] + 256 * Binary(v[1..]) }

  function AddBinary(s: Cpu, xs: seq<Byte>, ys: seq<Byte>): (Cpu, seq<Byte>)
    requires |xs| == |ys|
    decreases |xs|
  {
    if |xs| == 0 then (s, [])
    else
      var s1 := Adc(s.(a := xs[0]), ys[0]);
      var (t, rest) := AddBinary(s1, xs[1..], ys[1..]);
      (t, [s1.a] + rest)
  }

  function SubtractBinary(s: Cpu, xs: seq<Byte>, ys: seq<Byte>): (Cpu, seq<Byte>)
    requires |xs| == |ys|
    decreases |xs|
  {
    if |xs| == 0 then (s, [])
    else
      var s1 := Sbc(s.(a := xs[0]), ys[0]);
      var (t, rest) := SubtractBinary(s1, xs[1..], ys[1..]);
      (t, [s1.a] + rest)
  }

  lemma {:induction false} BinaryRange(v: seq<Byte>)
    ensures Binary(v) < Power(256, |v|)
  {
    if |v| > 0 {
      BinaryRange(v[1..]);
    }
  }

  lemma {:induction false} BinarySum(s: Cpu, xs: seq<Byte>, ys: seq<Byte>)
    requires |xs| == |ys|
    ensures var (t, rs) := AddBinary(s, xs, ys);
      |rs| == |xs| && Binary(rs) + Power(256, |xs|) * Carry(t) == Binary(xs) + Binary(ys) + Carry(s)
    decreases |xs|
  {
    if |xs| > 0 {
      var s1 := Adc(s.(a := xs[0]), ys[0]);
      assert s1.a + 256 * Carry(s1) == xs[0] + ys[0] + Carry(s);
      hide Adc, Carry;
      var (t, rest) := AddBinary(s1, xs[1..], ys[1..]);
      BinarySum(s1, xs[1..], ys[1..]);
      assert ([s1.a] + rest)[1..] == rest;
      Column(256, s1.a, Carry(s1), xs[0], ys[0], Carry(s),
             Binary(rest), Power(256, |xs| - 1), Carry(t), Binary(xs[1..]), Binary(ys[1..]));
    }
  }

  lemma {:induction false} BinaryDifference(s: Cpu, xs: seq<Byte>, ys: seq<Byte>)
    requires |xs| == |ys|
    ensures var (t, rs) := SubtractBinary(s, xs, ys);
      |rs| == |xs| && Binary(rs) + Binary(ys) + Carry(s) == Binary(xs) + Power(256, |xs|) * Carry(t)
    decreases |xs|
  {
    if |xs| > 0 {
      var s1 := Sbc(s.(a := xs[0]), ys[0]);
      assert s1.a + (ys[0] + Carry(s)) == xs[0] + 256 * Carry(s1);
      hide Sbc, Carry;
      var (t, rest) := SubtractBinary(s1, xs[1..], ys[1..]);
      BinaryDifference(s1, xs[1..], ys[1..]);
      assert ([s1.a] + rest)[1..] == rest;
      BorrowColumn(256, s1.a, Carry(s1), xs[0], ys[0], Carry(s),
                   Binary(rest), Power(256, |xs| - 1), Carry(t), Binary(xs[1..]), Binary(ys[1..]));
    }
  }

  lemma BinaryAddition(s: Cpu, xs: seq<Byte>, ys: seq<Byte>)
    requires |xs| == |ys|
    ensures var (t, rs) := AddBinary(s, xs, ys);
      var (total, limit) := (Binary(xs) + Binary(ys) + Carry(s), Power(256, |xs|));
      && |rs| == |xs| && Binary(rs) == (if total >= limit then total - limit else total) < limit
      && (t.f.c <==> total >= limit)
  {
    BinarySum(s, xs, ys);
    BinaryRange(AddBinary(s, xs, ys).1);
  }

  lemma BinarySubtraction(s: Cpu, xs: seq<Byte>, ys: seq<Byte>)
    requires |xs| == |ys|
    ensures var (t, rs) := SubtractBinary(s, xs, ys);
      var (total, limit) := (Binary(xs) - Binary(ys) - Carry(s), Power(256, |xs|));
      && |rs| == |xs| && Binary(rs) == (if total < 0 then total + limit else total) < limit
      && (t.f.c <==> total < 0)
  {
    BinaryDifference(s, xs, ys);
    BinaryRange(SubtractBinary(s, xs, ys).1);
  }

  /* Sixteen bits at once, and undoing an addition */

  // ADD HL agrees with ADD on the low bytes followed by ADC on the high bytes, in result, C and H.
  lemma AddHLIsTwoByteAdditions(s: Cpu, w: Word)
    ensures var (lo, wide) := (Alu(0, s.(a := s.l), Lo(w)), AddHL(s, w));
      var hi := Adc(lo.(a := s.h), Hi(w));
      wide.HL() == Join(hi.a, lo.a) && wide.f == s.f.(n := false, c := hi.f.c, h := hi.f.h)
  {
    hide Low8, Plus;
    WideAddition(s.h, s.l, w);
    WideCarries(s.h, s.l, w);
  }

  function ByteCarry(x: Byte, y: Byte): nat { if x + y > 0xFF then 1 else 0 }

  lemma WideAddition(h: Byte, l: Byte, w: Word)
    ensures Plus(Join(h, l), w) == Join(Low8(h + Hi(w) + ByteCarry(l, Lo(w))), Low8(l + Lo(w)))
  {
    hide Low8;
    Wrap8(l + Lo(w));
    Wrap8(h + Hi(w) + ByteCarry(l, Lo(w)));
  }

  lemma WideCarries(h: Byte, l: Byte, w: Word)
    ensures Join(h, l) + w >= 0x10000 <==> h + Hi(w) + ByteCarry(l, Lo(w)) > 0xFF
    ensures Join(h, l) % 0x1000 + w % 0x1000 >= 0x1000 <==> h % 16 + Hi(w) % 16 + ByteCarry(l, Lo(w)) > 15
  {
    TwelveBits(h, l);
    TwelveBits(Hi(w), Lo(w));
    assert w == Join(Hi(w), Lo(w));
    CarryOut(0x100, h, Hi(w), l, Lo(w));
    CarryOut(0x10, h % 16, Hi(w) % 16, l, Lo(w));
  }

  lemma CarryOut(limit: nat, x: nat, y: nat, l: Byte, k: Byte)
    ensures (256 * x + l) + (256 * y + k) >= 256 * limit <==> x + y + ByteCarry(l, k) >= limit
  {
  }

  lemma TwelveBits(hi: Byte, lo: Byte)
    ensures Join(hi, lo) % 0x1000 == 256 * (hi % 16) + lo
  {
    var (q, r) := (hi / 16, 256 * (hi % 16) + lo);
    assert Join(hi, lo) == 0x1000 * q + r && r < 0x1000;
    Within(q, r);
  }

  lemma Within(q: nat, r: nat)
    requires r < 0x1000
    ensures (0x1000 * q + r) % 0x1000 == r
  {
  }

  // SUB undoes ADD and reports the carry of the addition as its borrow.
  lemma SubUndoesAdd(s: Cpu, v: Byte)
    ensures var sum := Alu(0, s, v); var back := Alu(2, sum, v);
      back.a == s.a && back.f.c == sum.f.c && back.f.h == sum.f.h
  {
    hide Low8;
    var (q, r) := (s.a / 16 + v / 16, s.a % 16 + v % 16);
    var k := if s.a + v > 0xFF then 16 else 0;
    Wrap8(s.a + v);
    Wrap8(Low8(s.a + v) - v);
    LowNibble(if r > 15 then q + 1 - k else q - k, if r > 15 then r - 16 else r);
  }
}
