/** Masks and shifts of bytes, bit by bit, and the arithmetic they amount to. */
module Bitwise {
  import opened Bytes

  /* Every operation is defined on the binary digits, lowest first. */

  function And(a: Byte, b: Byte): Byte {
    var (x, y) := (Digits(a), Digits(b));
    Sum(seq(8, (k: nat) requires k < 8 => if x[k] == 1 then y[k] else 0))
  }

  function Or(a: Byte, b: Byte): Byte {
    var (x, y) := (Digits(a), Digits(b));
    Sum(seq(8, (k: nat) requires k < 8 => if x[k] == 1 then 1 else y[k]))
  }

  function Xor(a: Byte, b: Byte): Byte {
    var (x, y) := (Digits(a), Digits(b));
    Sum(seq(8, (k: nat) requires k < 8 => if x[k] == y[k] then 0 else 1))
  }

  // Bits moved up by n places; those that leave the byte are lost.
  function Shl(v: Byte, n: nat): Byte {
    var x := Digits(v);
    Sum(seq(8, (k: nat) requires k < 8 => if k < n then 0 else x[k - n]))
  }

  function Shr(v: Byte, n: nat): Byte {
    var x := Digits(v);
    Sum(seq(8, (k: nat) requires k < 8 => if k + n < 8 then x[k + n] else 0))
  }

  lemma AndBitByBit(a: Byte, b: Byte, k: nat)
    requires k < 8
    ensures Bit(And(a, b), k) == (Bit(a, k) && Bit(b, k))
  {
    hide Bit, Sum;
    var (x, y) := (Digits(a), Digits(b));
    DigitsAreUnique(And(a, b), seq(8, (i: nat) requires i < 8 => if x[i] == 1 then y[i] else 0));
    SameBit(And(a, b), k);
  }

  lemma OrBitByBit(a: Byte, b: Byte, k: nat)
    requires k < 8
    ensures Bit(Or(a, b), k) == (Bit(a, k) || Bit(b, k))
  {
    hide Bit, Sum;
    var (x, y) := (Digits(a), Digits(b));
    DigitsAreUnique(Or(a, b), seq(8, (i: nat) requires i < 8 => if x[i] == 1 then 1 else y[i]));
    SameBit(Or(a, b), k);
  }

  lemma XorBitByBit(a: Byte, b: Byte, k: nat)
    requires k < 8
    ensures Bit(Xor(a, b), k) == (Bit(a, k) != Bit(b, k))
  {
    hide Bit, Sum;
    var (x, y) := (Digits(a), Digits(b));
    DigitsAreUnique(Xor(a, b), seq(8, (i: nat) requires i < 8 => if x[i] == y[i] then 0 else 1));
    SameBit(Xor(a, b), k);
  }

  lemma OrCommutes(a: Byte, b: Byte)
    ensures Or(a, b) == Or(b, a)
  {
    hide Digits, Sum;
    var (x, y) := (Digits(a), Digits(b));
    assert seq(8, (k: nat) requires k < 8 => if x[k] == 1 then 1 else y[k])
        == seq(8, (k: nat) requires k < 8 => if y[k] == 1 then 1 else x[k]);
  }

  lemma XorSelf(a: Byte)
    ensures Xor(a, a) == 0
  {
    hide Digits;
  }

  /* The parts of a byte, from its digits */

  lemma Parts(v: Byte)
    ensures var x := Digits(v);
      && v % 2 == x[0] && v / 2 == x[1] + 2 * x[2] + 4 * x[3] + 8 * x[4] + 16 * x[5] + 32 * x[6] + 64 * x[7]
      && v % 8 == x[0] + 2 * x[1] + 4 * x[2] && v / 8 == x[3] + 2 * x[4] + 4 * x[5] + 8 * x[6] + 16 * x[7]
      && v % 16 == x[0] + 2 * x[1] + 4 * x[2] + 8 * x[3] && v / 16 == x[4] + 2 * x[5] + 4 * x[6] + 8 * x[7]
      && v % 128 == x[0] + 2 * x[1] + 4 * x[2] + 8 * x[3] + 16 * x[4] + 32 * x[5] + 64 * x[6] && v / 128 == x[7]
  {
    hide Digits;
    var x := Digits(v);
    Quotients(v, x);
    assert v == 2 * (v / 2) + v % 2 && v == 8 * (v / 8) + v % 8 && v == 16 * (v / 16) + v % 16;
    assert v == 128 * (v / 128) + v % 128;
  }

  // A byte that is a sum of digits has those digits.
  lemma DigitsOf(b: Byte, v: seq<nat>)
    requires IsBinary(v) && b == Sum(v)
    ensures Digits(b) == v
  {
    hide Sum;
    DigitsAreUnique(b, v);
  }

  lemma AndDigits(a: Byte, b: Byte, w: seq<nat>)
    requires IsBinary(w) && forall k :: 0 <= k < 8 ==> w[k] == if Digits(a)[k] == 1 then Digits(b)[k] else 0
    ensures And(a, b) == Sum(w)
  {
    hide Digits, Sum;
    var (x, y) := (Digits(a), Digits(b));
    assert seq(8, (k: nat) requires k < 8 => if x[k] == 1 then y[k] else 0) == w;
  }

  lemma OrDigits(a: Byte, b: Byte, w: seq<nat>)
    requires IsBinary(w) && forall k :: 0 <= k < 8 ==> w[k] == if Digits(a)[k] == 1 then 1 else Digits(b)[k]
    ensures Or(a, b) == Sum(w)
  {
    hide Digits, Sum;
    var (x, y) := (Digits(a), Digits(b));
    assert seq(8, (k: nat) requires k < 8 => if x[k] == 1 then 1 else y[k]) == w;
  }

  lemma ShlDigits(v: Byte, n: nat, w: seq<nat>)
    requires IsBinary(w) && forall k :: 0 <= k < 8 ==> w[k] == if k < n then 0 else Digits(v)[k - n]
    ensures Shl(v, n) == Sum(w)
  {
    hide Digits, Sum;
    var x := Digits(v);
    assert seq(8, (k: nat) requires k < 8 => if k < n then 0 else x[k - n]) == w;
  }

  lemma ShrDigits(v: Byte, n: nat, w: seq<nat>)
    requires IsBinary(w) && forall k :: 0 <= k < 8 ==> w[k] == if k + n < 8 then Digits(v)[k + n] else 0
    ensures Shr(v, n) == Sum(w)
  {
    hide Digits, Sum;
    var x := Digits(v);
    assert seq(8, (k: nat) requires k < 8 => if k + n < 8 then x[k + n] else 0) == w;
  }

  /* Shifts by one, four and seven places */

  lemma ShlOne(v: Byte)
    ensures Shl(v, 1) == v % 128 * 2
  {
    hide Digits;
    Parts(v);
  }

  lemma ShrOne(v: Byte)
    ensures Shr(v, 1) == v / 2
  {
    hide Digits;
    Parts(v);
  }

  lemma ShlFour(v: Byte)
    ensures Shl(v, 4) == v % 16 * 16
  {
    hide Digits;
    Parts(v);
  }

  lemma ShrFour(v: Byte)
    ensures Shr(v, 4) == v / 16
  {
    hide Digits;
    Parts(v);
  }

  lemma BitSeven(c: nat)
    requires c < 2
    ensures Shl(c, 7) == 128 * c
  {
    hide Digits;
    Parts(c);
  }

  /* Bits that do not overlap add up. */

  predicate Disjoint(x: seq<nat>, y: seq<nat>)
    requires IsBinary(x) && IsBinary(y)
  {
    forall k :: 0 <= k < 8 ==> x[k] == 0 || y[k] == 0
  }

  lemma OrIsSum(a: Byte, b: Byte)
    requires Disjoint(Digits(a), Digits(b))
    ensures Or(a, b) == a + b
  {
    hide Digits, Or;
    var (x, y) := (Digits(a), Digits(b));
    var w := seq(8, (k: nat) requires k < 8 => x[k] + y[k]);
    OrDigits(a, b, w);
    assert Sum(w) == Sum(x) + Sum(y);
  }

  lemma OrBitZero(v: Byte, c: nat)
    requires v % 2 == 0 && c < 2
    ensures Or(v, c) == v + c
  {
    hide Digits, Or;
    Parts(v);
    DigitsOf(c, [c, 0, 0, 0, 0, 0, 0, 0]);
    OrIsSum(v, c);
  }

  lemma OrBitSeven(v: Byte, c: nat)
    requires v < 128 && c < 2
    ensures Or(v, 128 * c) == v + 128 * c
  {
    hide Digits, Or;
    Parts(v);
    DigitsOf(128 * c, [0, 0, 0, 0, 0, 0, 0, c]);
    OrIsSum(v, 128 * c);
  }

  lemma NibbleDigits(v: Byte)
    ensures var x := Digits(v);
      && (v % 16 == 0 ==> x[0] == x[1] == x[2] == x[3] == 0)
      && (v < 16 ==> x[4] == x[5] == x[6] == x[7] == 0)
  {
    hide Digits;
    Parts(v);
  }

  lemma OrNibbles(high: Byte, low: Byte)
    requires high % 16 == 0 && low < 16
    ensures Or(high, low) == high + low
  {
    hide Digits, Or, Sum;
    NibbleDigits(high);
    NibbleDigits(low);
    OrIsSum(high, low);
  }

  lemma OctalDigits(v: Byte)
    ensures var x := Digits(v);
      && (v % 8 == 0 ==> x[0] == x[1] == x[2] == 0)
      && (v < 8 ==> x[3] == x[4] == x[5] == x[6] == x[7] == 0)
  {
    hide Digits;
    Parts(v);
  }

  lemma OrThreeBits(high: Byte, low: Byte)
    requires high % 8 == 0 && low < 8
    ensures Or(high, low) == high + low
  {
    hide Digits, Or, Sum;
    OctalDigits(high);
    OctalDigits(low);
    OrIsSum(high, low);
  }

  /* Masks */

  lemma LowNibbleMask(v: Byte)
    ensures And(v, 0x0F) == v % 16
  {
    hide Digits;
    var x := Digits(v);
    Parts(v);
    DigitsOf(0x0F, [1, 1, 1, 1, 0, 0, 0, 0]);
    AndDigits(v, 0x0F, [x[0], x[1], x[2], x[3], 0, 0, 0, 0]);
  }

  lemma HighNibbleMask(v: Byte)
    ensures And(v, 0xF0) == v / 16 * 16
  {
    hide Digits;
    var x := Digits(v);
    Parts(v);
    DigitsOf(0xF0, [0, 0, 0, 0, 1, 1, 1, 1]);
    AndDigits(v, 0xF0, [0, 0, 0, 0, x[4], x[5], x[6], x[7]]);
  }

  lemma FillLowNibble(v: Byte)
    ensures Or(v, 0x0F) == v / 16 * 16 + 15
  {
    hide Digits;
    var x := Digits(v);
    Parts(v);
    DigitsOf(0x0F, [1, 1, 1, 1, 0, 0, 0, 0]);
    OrDigits(v, 0x0F, [1, 1, 1, 1, x[4], x[5], x[6], x[7]]);
  }

  lemma SetBitZero(v: Byte)
    ensures Or(v, 0x01) == v / 2 * 2 + 1
  {
    hide Digits;
    var x := Digits(v);
    Parts(v);
    DigitsOf(0x01, [1, 0, 0, 0, 0, 0, 0, 0]);
    OrDigits(v, 0x01, [1, x[1], x[2], x[3], x[4], x[5], x[6], x[7]]);
  }

  lemma ClearBitZero(v: Byte)
    ensures And(v, 0xFE) == v / 2 * 2
  {
    hide Digits;
    var x := Digits(v);
    Parts(v);
    DigitsOf(0xFE, [0, 1, 1, 1, 1, 1, 1, 1]);
    AndDigits(v, 0xFE, [0, x[1], x[2], x[3], x[4], x[5], x[6], x[7]]);
  }

  lemma LowThreeMask(v: Byte)
    ensures And(v, 0x07) == v % 8
  {
    hide Digits;
    var x := Digits(v);
    Parts(v);
    DigitsOf(0x07, [1, 1, 1, 0, 0, 0, 0, 0]);
    AndDigits(v, 0x07, [x[0], x[1], x[2], 0, 0, 0, 0, 0]);
  }

  lemma HighFiveMask(v: Byte)
    ensures And(v, 0xF8) == v / 8 * 8
  {
    hide Digits;
    var x := Digits(v);
    Parts(v);
    DigitsOf(0xF8, [0, 0, 0, 1, 1, 1, 1, 1]);
    AndDigits(v, 0xF8, [0, 0, 0, x[3], x[4], x[5], x[6], x[7]]);
  }

  // Bits three and up of one byte, the lowest three of another
  lemma MaskedUpdate(was: Byte, v: Byte)
    ensures Or(And(was, 0xF8), And(v, 0x07)) == was / 8 * 8 + v % 8
  {
    hide And, Or;
    HighFiveMask(was);
    LowThreeMask(v);
    OrThreeBits(was / 8 * 8, v % 8);
  }

  lemma NibbleBit(high: Byte, low: Byte, k: nat)
    requires high < 16 && low < 16 && k < 8
    ensures Bit(16 * high + low, k) == if k < 4 then Bit(low, k) else Bit(high, k - 4)
  {
    hide Digits, Bit;
    var (x, y) := (Digits(high), Digits(low));
    NibbleDigits(high);
    NibbleDigits(low);
    var w := [y[0], y[1], y[2], y[3], x[0], x[1], x[2], x[3]];
    DigitsAreUnique(16 * high + low, w);
    SameBit(16 * high + low, k);
  }

  // Bits 2c and 2c + 1, moved to the bottom
  function PairOfBits(v: Byte, c: nat): Byte
    requires c < 4
  {
    Shr(And(v, Shl(3, 2 * c)), 2 * c)
  }

  predicate InPair(k: nat, c: nat) { k == 2 * c || k == 2 * c + 1 }

  lemma PairMask(c: nat, mask: seq<nat>)
    requires c < 4 && IsBinary(mask) && forall k: nat :: k < 8 ==> mask[k] == if InPair(k, c) then 1 else 0
    ensures Digits(Shl(3, 2 * c)) == mask
  {
    DigitsOf(3, [1, 1, 0, 0, 0, 0, 0, 0]);
    hide Digits, Sum;
    ShlDigits(3, 2 * c, mask);
    hide Shl;
    DigitsOf(Shl(3, 2 * c), mask);
  }

  lemma PairOfBitsIsPair(v: Byte, c: nat)
    requires c < 4
    ensures PairOfBits(v, c) == Sum([Digits(v)[2 * c], Digits(v)[2 * c + 1], 0, 0, 0, 0, 0, 0])
  {
    hide Digits, And, Shl, Shr, Sum;
    var x := Digits(v);
    var mask := seq(8, (k: nat) requires k < 8 => if InPair(k, c) then 1 else 0);
    var kept := seq(8, (k: nat) requires k < 8 => if InPair(k, c) then x[k] else 0);
    PairMask(c, mask);
    AndDigits(v, Shl(3, 2 * c), kept);
    DigitsOf(And(v, Shl(3, 2 * c)), kept);
    ShrDigits(And(v, Shl(3, 2 * c)), 2 * c, [x[2 * c], x[2 * c + 1], 0, 0, 0, 0, 0, 0]);
  }

  lemma PairsOfDigits(v: Byte, x: seq<nat>)
    requires IsBinary(x) && v == Sum(x)
    ensures v % 4 == x[0] + 2 * x[1] && v / 4 % 4 == x[2] + 2 * x[3]
    ensures v / 16 % 4 == x[4] + 2 * x[5] && v / 64 == x[6] + 2 * x[7]
  {
    Quotients(v, x);
    hide Sum;
    assert v == 4 * (v / 4) + v % 4 && v / 4 == 4 * (v / 16) + v / 4 % 4 && v / 16 == 4 * (v / 64) + v / 16 % 4;
  }

  lemma PairOfBitsIsDigit(v: Byte, c: nat)
    requires c < 4
    ensures PairOfBits(v, c) == match c case 0 => v % 4 case 1 => v / 4 % 4 case 2 => v / 16 % 4 case _ => v / 64
  {
    hide Digits, PairOfBits;
    PairOfBitsIsPair(v, c);
    PairsOfDigits(v, Digits(v));
  }
}
