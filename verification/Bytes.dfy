/** Fixed-width integers, written out as ranges of int, and the bit operations the emulator uses on them. */
module Bytes {
  // One byte and two; the emulator calls them word and dword.
  type Byte = x: int | 0 <= x < 0x100
  type Word = x: int | 0 <= x < 0x10000

  predicate Bit(b: Byte, n: nat)
    requires n < 8
  {
    if n == 0 then b % 2 == 1 else if n == 1 then b / 2 % 2 == 1
    else if n == 2 then b / 4 % 2 == 1 else if n == 3 then b / 8 % 2 == 1
    else if n == 4 then b / 16 % 2 == 1 else if n == 5 then b / 32 % 2 == 1
    else if n == 6 then b / 64 % 2 == 1 else b / 128 == 1
  }

  function BitValue(b: Byte, n: nat): (v: nat)
    requires n < 8
    ensures v < 2
  {
    if Bit(b, n) then 1 else 0
  }

  // The binary digits of a byte, lowest first: they add up to it ...
  function Digits(b: Byte): (v: seq<nat>)
    ensures IsBinary(v) && Sum(v) == b
    ensures forall k: nat :: k < 8 ==> v[k] == BitValue(b, k)
  {
    Halving(b);
    var v := seq(8, (k: nat) requires k < 8 => BitValue(b, k));
    assert v[0] == b % 2 && v[1] == b / 2 % 2 && v[2] == b / 4 % 2 && v[3] == b / 8 % 2;
    assert v[4] == b / 16 % 2 && v[5] == b / 32 % 2 && v[6] == b / 64 % 2 && v[7] == b / 128;
    v
  }

  predicate IsBinary(v: seq<nat>) { |v| == 8 && forall k :: 0 <= k < 8 ==> v[k] < 2 }

  function Sum(v: seq<nat>): Byte
    requires IsBinary(v)
  {
    v[0] + 2 * v[1] + 4 * v[2] + 8 * v[3] + 16 * v[4] + 32 * v[5] + 64 * v[6] + 128 * v[7]
  }

  lemma Halving(b: Byte)
    ensures b == b % 2 + 2 * (b / 2 % 2) + 4 * (b / 4 % 2) + 8 * (b / 8 % 2)
               + 16 * (b / 16 % 2) + 32 * (b / 32 % 2) + 64 * (b / 64 % 2) + 128 * (b / 128)
  {
    assert b / 4 == b / 2 / 2;
    assert b / 8 == b / 4 / 2;
    assert b / 16 == b / 8 / 2;
    assert b / 32 == b / 16 / 2;
    assert b / 64 == b / 32 / 2;
    assert b / 128 == b / 64 / 2;
  }

  lemma Quotients(b: Byte, v: seq<nat>)
    requires IsBinary(v) && b == Sum(v)
    ensures b / 2 == v[1] + 2 * v[2] + 4 * v[3] + 8 * v[4] + 16 * v[5] + 32 * v[6] + 64 * v[7]
    ensures b / 4 == v[2] + 2 * v[3] + 4 * v[4] + 8 * v[5] + 16 * v[6] + 32 * v[7]
    ensures b / 8 == v[3] + 2 * v[4] + 4 * v[5] + 8 * v[6] + 16 * v[7]
    ensures b / 16 == v[4] + 2 * v[5] + 4 * v[6] + 8 * v[7]
    ensures b / 32 == v[5] + 2 * v[6] + 4 * v[7]
    ensures b / 64 == v[6] + 2 * v[7]
    ensures b / 128 == v[7]
  {
    assert v[0] < 2 && v[1] < 2 && v[2] < 2 && v[3] < 2 && v[4] < 2 && v[5] < 2 && v[6] < 2 && v[7] < 2;
  }

  lemma Parities(b: Byte, v: seq<nat>)
    requires IsBinary(v) && b == Sum(v)
    ensures b % 2 == v[0] && b / 2 % 2 == v[1] && b / 4 % 2 == v[2] && b / 8 % 2 == v[3]
    ensures b / 16 % 2 == v[4] && b / 32 % 2 == v[5] && b / 64 % 2 == v[6] && b / 128 == v[7]
  {
    Quotients(b, v);
    LastBit(b, b / 2, v[0]);
    LastBit(b / 2, b / 4, v[1]);
    LastBit(b / 4, b / 8, v[2]);
    LastBit(b / 8, b / 16, v[3]);
    LastBit(b / 16, b / 32, v[4]);
    LastBit(b / 32, b / 64, v[5]);
    LastBit(b / 64, b / 128, v[6]);
  }

  lemma LastBit(n: nat, half: nat, bit: nat)
    requires bit < 2 && n == 2 * half + bit
    ensures n % 2 == bit
  {
  }

  // ... and no other digits do.
  lemma DigitsAreUnique(b: Byte, v: seq<nat>)
    requires IsBinary(v) && b == Sum(v)
    ensures forall k: nat :: k < 8 ==> BitValue(b, k) == v[k]
  {
    Parities(b, v);
  }

  function SetBit(b: Byte, n: nat, on: bool): Byte
    requires n < 8
  {
    Sum(Digits(b)[n := if on then 1 else 0])
  }

  lemma SetBitSetsOnlyThatBit(b: Byte, n: nat, on: bool, k: nat)
    requires n < 8 && k < 8
    ensures Bit(SetBit(b, n, on), k) == if k == n then on else Bit(b, k)
  {
    DigitsAreUnique(SetBit(b, n, on), Digits(b)[n := if on then 1 else 0]);
    assert (BitValue(SetBit(b, n, on), k) == 1) == Bit(SetBit(b, n, on), k);
  }

  // What setting one bit does to the three lowest ones.
  lemma SetBitLowThree(b: Byte, n: nat, on: bool)
    requires n < 8
    ensures SetBit(b, n, on) % 8 ==
      var k := if on then 1 else 0;
      if n == 0 then b % 8 / 2 * 2 + k else if n == 1 then b % 8 / 4 * 4 + 2 * k + b % 2
      else if n == 2 then 4 * k + b % 4 else b % 8
  {
    var v := Digits(b);
    var w := v[n := if on then 1 else 0];
    assert b % 8 == v[0] + 2 * v[1] + 4 * v[2] && b % 4 == v[0] + 2 * v[1] && b % 2 == v[0] by { LowDigits(b, v); }
    assert SetBit(b, n, on) % 8 == w[0] + 2 * w[1] + 4 * w[2] by { LowDigits(SetBit(b, n, on), w); }
  }

  lemma LowFiveBits(b: Byte, k: nat)
    requires k < 5
    ensures Bit(b % 32, k) == Bit(b, k)
  {
    var x := Digits(b);
    hide Digits, Bit;
    Quotients(b, x);
    assert b == 32 * (b / 32) + b % 32;
    DigitsAreUnique(b % 32, [x[0], x[1], x[2], x[3], x[4], 0, 0, 0]);
    SameBit(b, k);
    SameBit(b % 32, k);
  }

  lemma SameBit(v: Byte, k: nat)
    requires k < 8
    ensures BitValue(v, k) == if Bit(v, k) then 1 else 0
  {
  }

  lemma SameUpperBits(v: Byte, w: Byte)
    requires v / 8 == w / 8
    ensures forall k: nat :: 3 <= k < 8 ==> Bit(v, k) == Bit(w, k)
  {
    assert v / 16 == v / 8 / 2 && w / 16 == w / 8 / 2;
    assert v / 32 == v / 16 / 2 && w / 32 == w / 16 / 2;
    assert v / 64 == v / 32 / 2 && w / 64 == w / 32 / 2;
    assert v / 128 == v / 64 / 2 && w / 128 == w / 64 / 2;
  }

  lemma LowThreeBits(b: Byte, k: nat)
    requires k < 3
    ensures Bit(b, k) == Bit(b % 8, k)
  {
    assert b == 8 * (b / 8) + b % 8;
    assert b / 2 == 4 * (b / 8) + b % 8 / 2;
    assert b / 4 == 2 * (b / 8) + b % 8 / 4;
  }

  lemma SameLowBits(v: Byte, w: Byte)
    requires v % 8 == w % 8
    ensures forall k: nat :: k < 3 ==> Bit(v, k) == Bit(w, k)
  {
    hide Bit;
    forall k: nat | k < 3 ensures Bit(v, k) == Bit(w, k) {
      LowThreeBits(v, k);
      LowThreeBits(w, k);
    }
  }

  lemma LowDigits(b: Byte, v: seq<nat>)
    requires IsBinary(v) && b == Sum(v)
    ensures b % 8 == v[0] + 2 * v[1] + 4 * v[2] && b % 4 == v[0] + 2 * v[1] && b % 2 == v[0]
  {
    assert v[0] < 2 && v[1] < 2 && v[2] < 2;
    assert b == v[0] + 2 * v[1] + 4 * v[2] + 8 * (v[3] + 2 * v[4] + 4 * v[5] + 8 * v[6] + 16 * v[7]);
  }

  // Two's complement reading of a byte.
  function Signed(b: Byte): int { if b < 128 then b else b - 256 }

  function Hi(w: Word): Byte { w / 256 }

  function Lo(w: Word): Byte { w % 256 }

  function Join(hi: Byte, lo: Byte): (w: Word)
    ensures Hi(w) == hi && Lo(w) == lo
  {
    256 * hi + lo
  }

  // Arithmetic on addresses wraps at 16 bits.
  function Plus(w: Word, k: int): Word
    requires -0x10000 <= k <= 0x10000
  {
    if w + k >= 0x10000 then w + k - 0x10000 else if w + k < 0 then w + k + 0x10000 else w + k
  }

  function Successor(b: Byte): Byte { if b == 0xFF then 0 else b + 1 }

  function Low8(x: int): Byte { x % 256 }
}
