/** What the rotates and shifts mean, and which undo each other. */
module Shifts {
  import opened Bytes
  import opened CpuSpec

  /* The eight operations as numbers: the new byte and the bit shifted out */

  // RLC, RL, SLA and SWAP as numbers
  lemma LeftRotations(v: Byte, c: nat)
    requires c < 2
    ensures Rotate(0, v, c) == if v >= 128 then (2 * v - 255, true) else (2 * v, false)
    ensures Rotate(2, v, c) == if v >= 128 then (2 * v + c - 256, true) else (2 * v + c, false)
    ensures Rotate(4, v, c) == if v >= 128 then (2 * v - 256, true) else (2 * v, false)
    ensures Rotate(6, v, c) == (16 * (v % 16) + v / 16, false)
  {
    hide Rotate;
    TopBit(v);
    LeftForms(v, c);
  }

  lemma TopBit(v: Byte)
    ensures v >= 128 ==> v / 128 == 1 && v % 128 == v - 128
    ensures v < 128 ==> v / 128 == 0 && v % 128 == v
  {
  }

  lemma LeftForms(v: Byte, c: nat)
    requires c < 2
    ensures Rotate(0, v, c) == (v % 128 * 2 + v / 128, v / 128 == 1)
    ensures Rotate(2, v, c) == (v % 128 * 2 + c, v / 128 == 1)
    ensures Rotate(4, v, c) == (v % 128 * 2, v / 128 == 1)
    ensures Rotate(6, v, c) == (v % 16 * 16 + v / 16, false)
  {
  }

  // RRC, RR, SRA and SRL
  lemma RightRotations(v: Byte, c: nat)
    requires c < 2
    ensures Rotate(1, v, c) == if v % 2 == 1 then (v / 2 + 128, true) else (v / 2, false)
    ensures Rotate(3, v, c) == (v / 2 + 128 * c, v % 2 == 1)
    ensures Rotate(5, v, c) == (if v >= 128 then v / 2 + 128 else v / 2, v % 2 == 1)
    ensures Rotate(7, v, c) == (v / 2, v % 2 == 1)
  {
    hide Rotate;
    TopBit(v);
    RightForms(v, c);
  }

  lemma RightForms(v: Byte, c: nat)
    requires c < 2
    ensures Rotate(1, v, c) == (v / 2 + v % 2 * 128, v % 2 == 1)
    ensures Rotate(3, v, c) == (v / 2 + c * 128, v % 2 == 1)
    ensures Rotate(5, v, c) == (v / 2 + v / 128 * 128, v % 2 == 1)
    ensures Rotate(7, v, c) == (v / 2, v % 2 == 1)
  {
  }

  /* Which of them undo each other */

  lemma LeftThenRight(v: Byte, bit: nat)
    requires bit < 2
    ensures var r := v % 128 * 2 + bit; r / 2 == v % 128 && r % 2 == bit
    ensures v / 128 < 2 && v == v / 128 * 128 + v % 128
  {
  }

  lemma RightThenLeft(v: Byte, bit: nat)
    requires bit < 2
    ensures var r := v / 2 + bit * 128; r % 128 == v / 2 && r / 128 == bit
    ensures v == v / 2 * 2 + v % 2
  {
  }

  // RRC undoes RLC, and both report the bit that moved round.
  lemma RrcUndoesRlc(v: Byte, c: nat, d: nat)
    requires c < 2 && d < 2
    ensures var (r, out) := Rotate(0, v, c); Rotate(1, r, d) == (v, out)
    ensures var (r, out) := Rotate(1, v, c); Rotate(0, r, d) == (v, out)
  {
    LeftThenRight(v, v / 128);
    RightThenLeft(v, v % 2);
  }

  // RL and RR rotate nine bits: each undoes the other, carry included.
  lemma RrUndoesRl(v: Byte, c: nat)
    requires c < 2
    ensures var (r, out) := Rotate(2, v, c); Rotate(3, r, if out then 1 else 0) == (v, c == 1)
  {
    var r := v % 128 * 2 + c;
    LeftThenRight(v, c);
    hide Rotate;
    assert Rotate(2, v, c) == (r, v / 128 == 1) by { RotateLeft(v, c); }
    RotateRight(r, v / 128);
  }

  lemma RlUndoesRr(v: Byte, c: nat)
    requires c < 2
    ensures var (r, out) := Rotate(3, v, c); Rotate(2, r, if out then 1 else 0) == (v, c == 1)
  {
    var r := v / 2 + c * 128;
    RightThenLeft(v, c);
    hide Rotate;
    assert Rotate(3, v, c) == (r, v % 2 == 1) by { RotateRight(v, c); }
    RotateLeft(r, v % 2);
  }

  lemma RotateLeft(v: Byte, c: nat)
    requires c < 2
    ensures Rotate(2, v, c) == (v % 128 * 2 + c, v / 128 == 1)
  {
  }

  lemma RotateRight(v: Byte, c: nat)
    requires c < 2
    ensures Rotate(3, v, c) == (v / 2 + c * 128, v % 2 == 1)
  {
  }

  lemma SwapTwice(v: Byte, c: nat, d: nat)
    requires c < 2 && d < 2
    ensures Rotate(6, Rotate(6, v, c).0, d).0 == v
  {
    var (high, low) := (v / 16, v % 16);
    assert v == 16 * high + low;
    Nibbles(low, high);
  }

  lemma Nibbles(high: nat, low: nat)
    requires low < 16
    ensures (high * 16 + low) / 16 == high && (high * 16 + low) % 16 == low
  {
  }

  // SLA doubles, SRL halves, and SRA halves a two's complement number, rounding down.
  lemma ShiftsAreArithmetic(v: Byte, c: nat)
    requires c < 2
    ensures var (r, out) := Rotate(4, v, c); r + (if out then 256 else 0) == 2 * (v as int)
    ensures var (r, out) := Rotate(7, v, c); 2 * (r as int) + (if out then 1 else 0) == v
    ensures var (r, out) := Rotate(5, v, c); 2 * Signed(r) + (if out then 1 else 0) == Signed(v)
  {
  }
}
