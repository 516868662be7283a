/** What pairs of instructions do: a load gives back what a store put away, and SP+e is a sum of bytes. */
module Transfers {
  import opened Bytes
  import opened Registers
  import opened BusSpec
  import opened CpuSpec
  import opened Arithmetic

  /* Stores and loads through 0xFF00+n, 0xFF00+C and nn */

  predicate IsStoreLoad(store: Byte, load: Byte) {
    (store == 0xE0 || store == 0xE2 || store == 0xEA) && load == store + 0x10
  }

  // The address an instruction of these forms works on.
  function Target(op: Byte, s: Cpu, m: Bus): Word {
    if op % 16 == 0 then 0xFF00 + Imm8(s, m) else if op % 16 == 2 then 0xFF00 + s.c else Imm16(s, m)
  }

  // Memory that keeps a byte the CPU writes: everything outside the cartridge but the four registers that are
  // shared with the hardware.
  predicate KeepsByte(a: Word) {
    !RefersToCartridge(a) && a != REG_JOIP && a != REG_STAT && a != REG_LY && a != REG_DIV
  }

  lemma ReadBackKept(m: Bus, a: Word, v: Byte)
    requires KeepsByte(a)
    ensures Read(Write(m, a, v, FromCpu), a) == v
  {
  }

  lemma Handler(op: Byte, s: Cpu, m: Bus)
    requires op == 0xE0 || op == 0xE2 || op == 0xEA || op == 0xF0 || op == 0xF2 || op == 0xFA
    ensures ExecOpcode(op, s, m) == if op % 16 == 0 then ExecPage(op, s, m) else ExecAbsolute(op, s, m)
  {
    hide Read, ExecLow, Alu, Ret, PopPair, Jp, Call, PushPair, Rst, SetOperand, Operand, ExecPage, ExecAbsolute;
  }

  lemma PageTransfers(s: Cpu, m: Bus)
    ensures ExecPage(0xE0, s, m) == Outcome(Advance(s, 1), [(0xFF00 + Imm8(s, m), s.a)])
    ensures ExecPage(0xF0, s, m) == Silent(Advance(s, 1).(a := Read(m, 0xFF00 + Imm8(s, m))))
  {
    hide Read, Plus, SpFlags;
  }

  lemma AbsoluteTransfers(s: Cpu, m: Bus)
    ensures ExecAbsolute(0xE2, s, m) == Outcome(s, [(0xFF00 + s.c, s.a)])
    ensures ExecAbsolute(0xF2, s, m) == Silent(s.(a := Read(m, 0xFF00 + s.c)))
    ensures ExecAbsolute(0xEA, s, m) == Outcome(Advance(s, 2), [(Imm16(s, m), s.a)])
    ensures ExecAbsolute(0xFA, s, m) == Silent(Advance(s, 2).(a := Read(m, Imm16(s, m))))
  {
    hide Read, Plus, Imm16;
  }

  lemma StoreOutcome(store: Byte, s: Cpu, m: Bus)
    requires store == 0xE0 || store == 0xE2 || store == 0xEA
    ensures var o := ExecOpcode(store, s, m);
      o.cpu == s.(pc := o.cpu.pc) && o.stores == [(Target(store, s, m), s.a)]
  {
    hide Read, ExecOpcode, ExecPage, ExecAbsolute, Imm8, Imm16, Plus;
    Handler(store, s, m);
    PageTransfers(s, m);
    AbsoluteTransfers(s, m);
  }

  lemma LoadOutcome(load: Byte, s: Cpu, m: Bus)
    requires load == 0xF0 || load == 0xF2 || load == 0xFA
    ensures var o := ExecOpcode(load, s, m);
      o.cpu == s.(pc := o.cpu.pc, a := Read(m, Target(load, s, m))) && o.stores == []
  {
    hide Read, ExecOpcode, ExecPage, ExecAbsolute, Imm8, Imm16, Plus;
    Handler(load, s, m);
    PageTransfers(s, m);
    AbsoluteTransfers(s, m);
  }

  // A load from the address of an earlier store gives back the byte, if memory keeps bytes there, and neither
  // instruction touches another register.
  lemma StoreThenLoad(store: Byte, load: Byte, s: Cpu, m: Bus, t: Cpu)
    requires IsStoreLoad(store, load)
    requires var m1 := WriteAll(m, ExecOpcode(store, s, m).stores);
      Target(load, t, m1) == Target(store, s, m) && KeepsByte(Target(store, s, m))
    ensures var (o, m1) := (ExecOpcode(store, s, m), WriteAll(m, ExecOpcode(store, s, m).stores));
      var p := ExecOpcode(load, t, m1);
      && p.cpu.a == s.a && p.stores == []
      && o.cpu == s.(pc := o.cpu.pc) && p.cpu == t.(pc := p.cpu.pc, a := p.cpu.a)
  {
    hide ExecOpcode, Write, Read, Target, KeepsByte;
    var a := Target(store, s, m);
    StoreOutcome(store, s, m);
    assert WriteAll(m, [(a, s.a)]) == Write(m, a, s.a, FromCpu);
    LoadOutcome(load, t, Write(m, a, s.a, FromCpu));
    ReadBackKept(m, a, s.a);
  }

  /* SP+e */

  lemma WideSum(w: Word, e: Byte)
    ensures var (carry, borrow) := (if Lo(w) + e > 0xFF then 1 else 0, if e >= 128 then 1 else 0);
      Plus(w, Signed(e)) == Join(Low8(Hi(w) + carry - borrow), Low8(Lo(w) + e))
  {
    hide Low8;
    Wrap8(Lo(w) + e);
    Wrap8(Hi(w) + (if Lo(w) + e > 0xFF then 1 else 0) - if e >= 128 then 1 else 0);
  }

  // Both instructions add e to SP as a signed byte. The flags and the low byte are those of ADD on the low byte
  // of SP; the high byte takes the carry and, if e is negative, a borrow.
  lemma SpOffset(op: Byte, s: Cpu, m: Bus)
    requires op == 0xE8 || op == 0xF8
    ensures var (e, t) := (Imm8(s, m), ExecPage(op, s, m).cpu);
      var sum := Alu(0, s.(a := Lo(s.sp)), e);
      var result := if op == 0xE8 then t.sp else t.HL();
      && result == Plus(s.sp, Signed(e))
      && result == Join(Low8(Hi(s.sp) + Carry(sum) - if e >= 128 then 1 else 0), sum.a)
      && t.f == sum.f.(z := false)
  {
    hide Low8, Read, Plus, Signed;
    WideSum(s.sp, Imm8(s, m));
  }
}
