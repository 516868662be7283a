/** What every instruction is charged, and what no instruction can do to the flags register. */
module CycleAccounting {
  import opened Bytes
  import opened Bitwise
  import opened BusSpec
  import opened Timings
  import opened CpuSpec

  // Cycles a conditional branch gives back when it is not taken.
  function Discount(op: Byte, f: Flags): nat {
    if op in [0x20, 0x28, 0x30, 0x38] && !Condition(op / 8 % 4, f) then 1
    else if op in [0xC2, 0xCA, 0xD2, 0xDA] && !Condition(op / 8 % 4, f) then 1
    else if op in [0xC0, 0xC8, 0xD0, 0xD8] && !Condition(op / 8 % 4, f) then 3
    else if op in [0xC4, 0xCC, 0xD4, 0xDC] && !Condition(op / 8 % 4, f) then 3
    else 0
  }

  // From s to r an instruction gave back d cycles, kept F's low nibble clear and did not crash the CPU.
  ghost predicate Charged(s: Cpu, r: Cpu, d: nat) {
    r.busy == s.busy - d && (s.f.low == 0 ==> r.f.low == 0) && r.crashed == s.crashed
  }

  lemma OperandCharge(i: nat, s: Cpu, v: Byte)
    requires i < 8
    ensures Charged(s, SetOperand(i, s, v).cpu, 0)
  {
  }

  lemma AluCharge(i: nat, s: Cpu, v: Byte)
    requires i < 8
    ensures Charged(s, Alu(i, s, v), 0)
  {
    hide Low8, And, Or, Xor;
  }

  lemma AccumulatorCharge(i: nat, s: Cpu)
    requires i < 8
    ensures Charged(s, ExecAccumulator(i, s), 0)
  {
    hide Low8, Rotate;
  }

  lemma IncDecCharge(i: nat, s: Cpu, m: Bus, delta: int)
    requires i < 8 && (delta == 1 || delta == -1)
    ensures Charged(s, IncDec(i, s, m, delta).cpu, 0)
  {
    var v := Low8(Operand(i, s, m) + delta);
    var z := (if i == 6 then ReadBack(s, m, v) else v) == 0;
    var h := if delta == 1 then Operand(i, s, m) % 16 == 15 else Operand(i, s, m) % 16 == 0;
    OperandCharge(i, s.WithF(z, delta == -1, h, s.f.c), v);
  }

  lemma JumpCharge(op: Byte, s: Cpu, m: Bus)
    requires op < 0x40 && op % 8 == 0
    ensures Charged(s, ExecLow(op, s, m).cpu, Discount(op, s.f))
  {
  }

  lemma WideCharge(op: Byte, s: Cpu, m: Bus)
    requires op < 0x40 && 1 <= op % 8 <= 3
    ensures Charged(s, ExecLow(op, s, m).cpu, 0)
  {
    hide Read, Condition, IncDec, SetOperand, ExecAccumulator, Jr;
    assert op % 8 == 1 || op % 8 == 2 || op % 8 == 3;
  }

  lemma LowCharge(op: Byte, s: Cpu, m: Bus)
    requires op < 0x40
    ensures Charged(s, ExecLow(op, s, m).cpu, Discount(op, s.f))
  {
    hide Read, Condition, IncDec, SetOperand, ExecAccumulator, ExecIndirect, Jr;
    match op % 8
    case 0 => JumpCharge(op, s, m);
    case 4 => IncDecCharge(op / 8, s, m, 1);
    case 5 => IncDecCharge(op / 8, s, m, -1);
    case 6 => OperandCharge(op / 8, Advance(s, 1), Imm8(s, m));
    case 7 => AccumulatorCharge(op / 8, s);
    case _ => WideCharge(op, s, m);
  }

  lemma ConditionalCharge(op: Byte, s: Cpu, m: Bus)
    requires 0xC0 <= op < 0xE0 && (op % 8 == 0 || op % 8 == 2 || op % 8 == 4)
    ensures Charged(s, ExecHigh(op, s, m).cpu, Discount(op, s.f))
  {
    hide Read, Condition, PopPair, Rst, Alu, ExecPage, ExecAbsolute, PushPair;
    assert op / 8 % 4 == op / 8 - 24;
  }

  lemma PageCharge(op: Byte, s: Cpu, m: Bus)
    requires op >= 0xE0 && (op % 8 == 0 || op % 8 == 2)
    ensures Charged(s, ExecHigh(op, s, m).cpu, 0)
  {
  }

  lemma StackCharge(op: Byte, s: Cpu, m: Bus)
    requires op >= 0xC0 && !Undefined(op) && op != 0xCB
    requires op % 8 == 1 || op % 8 == 3 || op % 8 == 5 || op % 8 == 7
    ensures Charged(s, ExecHigh(op, s, m).cpu, 0)
  {
    hide Read, Condition, Alu, ExecPage, ExecAbsolute, PopPair, Join, Plus;
    if op % 16 == 1 {
      PopCharge(op / 16 - 12, s, m);
    }
  }

  lemma PopCharge(i: nat, s: Cpu, m: Bus)
    requires i < 4
    ensures Charged(s, PopPair(i, s, m), 0)
  {
    hide Read, Join, Plus;
  }

  lemma HighCharge(op: Byte, s: Cpu, m: Bus)
    requires op >= 0xC0 && !Undefined(op) && op != 0xCB
    ensures Charged(s, ExecHigh(op, s, m).cpu, Discount(op, s.f))
  {
    hide Read, Condition, Alu, ExecPage, ExecAbsolute, PopPair, PushPair, Rst, Call, Jp, Ret;
    if op % 8 == 6 {
      AluCharge(op / 8 - 24, Advance(s, 1), Imm8(s, m));
    } else if op % 2 == 1 {
      StackCharge(op, s, m);
    } else if op < 0xE0 {
      ConditionalCharge(op, s, m);
    } else {
      PageCharge(op, s, m);
    }
  }

  lemma OpcodeCharge(op: Byte, s: Cpu, m: Bus)
    requires op != 0xCB && !Undefined(op)
    ensures Charged(s, ExecOpcode(op, s, m).cpu, Discount(op, s.f))
  {
    if op < 0x40 {
      LowCharge(op, s, m);
    } else if op == 0x76 {
    } else if op < 0x80 {
      OperandCharge(op / 8 - 8, s, Operand(op % 8, s, m));
    } else if op < 0xC0 {
      AluCharge(op / 8 - 16, s, Operand(op % 8, s, m));
    } else {
      HighCharge(op, s, m);
    }
  }

  lemma CbCharge(op: Byte, s: Cpu, m: Bus)
    ensures Charged(s, ExecCb(op, s, m).cpu, 0)
  {
    var (y, z) := (op / 8 % 8, op % 8);
    var v := Operand(z, s, m);
    match op / 64
    case 0 =>
      var (r, out) := Rotate(y, v, Carry(s));
      OperandCharge(z, s.WithF((if y == 6 && z == 6 then ReadBack(s, m, r) else r) == 0, false, false, out), r);
    case 1 =>
    case 2 => OperandCharge(z, s, SetBit(v, y, false));
    case _ => OperandCharge(z, s, SetBit(v, y, true));
  }

  // Every one of the 512 opcodes: the table entry less the discount, always between 1 and 6,
  // unless the opcode is undefined, which stops the CPU for good.
  lemma InstructionCharge(s: Cpu, m: Bus)
    requires !s.crashed
    ensures Undefined(Imm8(s, m)) ==> Execute(s, m).cpu.crashed && Execute(s, m).cpu.busy == UNDEFINED_CHARGE
    ensures !Undefined(Imm8(s, m)) ==> !Execute(s, m).cpu.crashed && 1 <= Execute(s, m).cpu.busy <= 6
    ensures Imm8(s, m) == 0xCB ==> Execute(s, m).cpu.busy == ChargeCb(Imm8(Advance(s, 1), m))
    ensures !Undefined(Imm8(s, m)) && Imm8(s, m) != 0xCB ==>
      Execute(s, m).cpu.busy == Charge(Imm8(s, m)) - Discount(Imm8(s, m), s.f)
  {
    var op := Imm8(s, m);
    var s1 := Advance(s, 1);
    if op == 0xCB {
      var cb := Imm8(s1, m);
      CbCharge(cb, Advance(s1, 1).(busy := ChargeCb(cb)), m);
    } else if !Undefined(op) {
      OpcodeCharge(op, s1.(busy := Charge(op)), m);
      ChargeRange(op);
      DiscountFits(op, s.f);
    }
  }

  lemma DiscountFits(op: Byte, f: Flags)
    ensures Discount(op, f) > 0 ==> Charge(op) > Discount(op, f)
  {
  }

  // F's low nibble is clear after every clock if it was before.
  lemma ClockKeepsFlags(s: Cpu, m: Bus)
    requires s.f.low == 0
    ensures Clock(s, m).cpu.f.low == 0
  {
    if !s.crashed && s.busy == 0 && !Listening(s, m) && !s.halted {
      var op := Imm8(s, m);
      var s1 := Advance(s, 1);
      if op == 0xCB {
        var cb := Imm8(s1, m);
        CbCharge(cb, Advance(s1, 1).(busy := ChargeCb(cb)), m);
      } else if !Undefined(op) {
        OpcodeCharge(op, s1.(busy := Charge(op)), m);
      }
    }
  }

  lemma ClockKeepsBusy(s: Cpu, m: Bus)
    requires s.busy >= 0
    ensures Clock(s, m).cpu.busy >= 0
  {
    if !s.crashed && s.busy == 0 && !Listening(s, m) && !s.halted {
      InstructionCharge(s, m);
    }
  }
}
