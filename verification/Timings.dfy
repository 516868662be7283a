/** How many machine cycles every instruction is charged. */
module Timings {
  import opened Bytes

  const UNDEFINED_CHARGE: nat := 0x7FFFFFFF

  predicate Undefined(op: Byte) {
    op in [0xD3, 0xE3, 0xE4, 0xF4, 0xDB, 0xEB, 0xEC, 0xFC, 0xDD, 0xED, 0xFD]
  }

  // The 256 table entries, grouped by instruction form. 0xCB is the prefix byte and keeps 0.
  function Charge(op: Byte): nat {
    if op < 0x40 then ChargeLow(op)
    else if op < 0xC0 then (if op == 0x76 then 1 else if op % 8 == 6 || 0x70 <= op < 0x78 then 2 else 1)
    else if Undefined(op) then UNDEFINED_CHARGE
    else ChargeHigh(op)
  }

  function ChargeLow(op: Byte): nat {
    match op % 8
    case 0 => if op == 0x00 || op == 0x10 then 1 else if op == 0x08 then 5 else 3
    case 1 => if op % 16 == 1 then 3 else 2
    case 2 => 2
    case 3 => 2
    case 4 => if op == 0x34 then 3 else 1
    case 5 => if op == 0x35 then 3 else 1
    case 6 => if op == 0x36 then 3 else 2
    case _ => 1
  }

  function ChargeHigh(op: Byte): nat {
    match op % 8
    case 0 => if op < 0xE0 then 5 else if op == 0xE8 then 4 else if op == 0xF8 then 3 else 2
    case 1 => if op % 16 == 1 then 3 else if op == 0xE9 then 1 else if op == 0xF9 then 2 else 4
    case 2 => if op == 0xE2 || op == 0xF2 then 2 else 4
    case 3 => if op == 0xC3 then 4 else if op == 0xCB then 0 else 1
    case 4 => 6
    case 5 => if op == 0xCD then 6 else 4
    case 6 => 2
    case _ => 4
  }

  // Charges of the CB-prefixed instructions: those that go through memory take longer.
  function ChargeCb(op: Byte): nat {
    if op % 8 != 6 then 2 else if op / 64 == 1 then 3 else 4
  }

  lemma ChargeRange(op: Byte)
    ensures Undefined(op) ==> Charge(op) == UNDEFINED_CHARGE
    ensures op == 0xCB ==> Charge(op) == 0
    ensures !Undefined(op) && op != 0xCB ==> 1 <= Charge(op) <= 6
  {
  }

  /* The table itself, sixteen opcodes a row */

  const NONE: nat := 2147483647

  function TableRow(k: nat): (row: seq<nat>)
    requires k < 16
    ensures |row| == 16
  {
    match k
    case 0 => [1, 3, 2, 2, 1, 1, 2, 1, 5, 2, 2, 2, 1, 1, 2, 1]
    case 1 => [1, 3, 2, 2, 1, 1, 2, 1, 3, 2, 2, 2, 1, 1, 2, 1]
    case 2 => [3, 3, 2, 2, 1, 1, 2, 1, 3, 2, 2, 2, 1, 1, 2, 1]
    case 3 => [3, 3, 2, 2, 3, 3, 3, 1, 3, 2, 2, 2, 1, 1, 2, 1]
    case 4 => [1, 1, 1, 1, 1, 1, 2, 1, 1, 1, 1, 1, 1, 1, 2, 1]
    case 5 => [1, 1, 1, 1, 1, 1, 2, 1, 1, 1, 1, 1, 1, 1, 2, 1]
    case 6 => [1, 1, 1, 1, 1, 1, 2, 1, 1, 1, 1, 1, 1, 1, 2, 1]
    case 7 => [2, 2, 2, 2, 2, 2, 1, 2, 1, 1, 1, 1, 1, 1, 2, 1]
    case 8 => [1, 1, 1, 1, 1, 1, 2, 1, 1, 1, 1, 1, 1, 1, 2, 1]
    case 9 => [1, 1, 1, 1, 1, 1, 2, 1, 1, 1, 1, 1, 1, 1, 2, 1]
    case 10 => [1, 1, 1, 1, 1, 1, 2, 1, 1, 1, 1, 1, 1, 1, 2, 1]
    case 11 => [1, 1, 1, 1, 1, 1, 2, 1, 1, 1, 1, 1, 1, 1, 2, 1]
    case 12 => [5, 3, 4, 4, 6, 4, 2, 4, 5, 4, 4, 0, 6, 6, 2, 4]
    case 13 => [5, 3, 4, NONE, 6, 4, 2, 4, 5, 4, 4, NONE, 6, NONE, 2, 4]
    case 14 => [2, 3, 2, NONE, NONE, 4, 2, 4, 4, 1, 4, NONE, NONE, NONE, 2, 4]
    case _ => [2, 3, 2, 1, NONE, 4, 2, 4, 3, 2, 4, 1, NONE, NONE, 2, 4]
  }

  lemma ChargesAreTheTable(op: Byte)
    ensures Charge(op) == TableRow(op / 16)[op % 16]
  {
    hide Charge, TableRow;
    var (k, i) := (op / 16, op % 16);
    assert op == 16 * k + i;
    if 4 <= k < 12 {
      MiddleRows(k, i);
    } else {
      match k
      case 0 => Row0(i);
      case 1 => Row1(i);
      case 2 => Row2(i);
      case 3 => Row3(i);
      case 12 => RowC(i);
      case 13 => RowD(i);
      case 14 => RowE(i);
      case _ => RowF(i);
    }
  }

  lemma MiddleRows(k: nat, i: nat)
    requires 4 <= k < 12 && i < 16
    ensures Charge(16 * k + i) == TableRow(k)[i]
  {
  }

  lemma Row0(i: nat)
    requires i < 16
    ensures Charge(i) == TableRow(0)[i]
  {
  }

  lemma Row1(i: nat)
    requires i < 16
    ensures Charge(0x10 + i) == TableRow(1)[i]
  {
  }

  lemma Row2(i: nat)
    requires i < 16
    ensures Charge(0x20 + i) == TableRow(2)[i]
  {
  }

  lemma Row3(i: nat)
    requires i < 16
    ensures Charge(0x30 + i) == TableRow(3)[i]
  {
  }

  lemma RowC(i: nat)
    requires i < 16
    ensures Charge(0xC0 + i) == TableRow(12)[i]
  {
  }

  lemma RowD(i: nat)
    requires i < 16
    ensures Charge(0xD0 + i) == TableRow(13)[i]
  {
  }

  lemma RowE(i: nat)
    requires i < 16
    ensures Charge(0xE0 + i) == TableRow(14)[i]
  {
  }

  lemma RowF(i: nat)
    requires i < 16
    ensures Charge(0xF0 + i) == TableRow(15)[i]
  {
  }

  // Prefixed instructions: BIT n, (HL) takes three cycles, everything else at (HL) four, registers two.
  lemma CbCharges(op: Byte)
    ensures op in [0x46, 0x4E, 0x56, 0x5E, 0x66, 0x6E, 0x76, 0x7E] <==> ChargeCb(op) == 3
    ensures op % 8 != 6 <==> ChargeCb(op) == 2
    ensures ChargeCb(op) == 2 || ChargeCb(op) == 3 || ChargeCb(op) == 4
  {
  }
}
