/** A comparison and the branch behind it: which way conditional jumps, calls and returns go. */
module Branches {
  import opened Bytes
  import opened BusSpec
  import opened Timings
  import opened CpuSpec

  // The byte k places behind PC
  function Code(s: Cpu, m: Bus, k: nat): Byte
    requires k < 8
  {
    Read(m, Plus(s.pc, k))
  }

  // CP v, then the instruction behind it
  function AfterTwo(s: Cpu, m: Bus): Outcome { Execute(Execute(s, m).cpu, m) }

  lemma PlusPlus(w: Word, j: int, k: int)
    requires -0x100 <= j <= 0x100 && -0x100 <= k <= 0x100
    ensures Plus(Plus(w, j), k) == Plus(w, j + k)
  {
  }

  // NZ, Z, NC and C after CP v mean A != v, A == v, A >= v and A < v.
  predicate Compares(i: nat, a: Byte, v: Byte)
    requires i < 4
  {
    if i == 0 then a != v else if i == 1 then a == v else if i == 2 then a >= v else a < v
  }

  lemma CpSetsFlags(s: Cpu, m: Bus, i: nat)
    requires i < 4 && Code(s, m, 0) == 0xFE
    ensures var t := Execute(s, m).cpu;
      && t == s.(pc := Plus(s.pc, 2), f := t.f, busy := 2) && Execute(s, m).stores == []
      && (Condition(i, t.f) <==> Compares(i, s.a, Code(s, m, 1)))
  {
    hide Read, ExecOpcode, Plus, Alu, Condition, Compares;
    var s1 := Advance(s, 1).(busy := 2);
    PlusZero(s.pc);
    PlusPlus(s.pc, 1, 1);
    CpOpcode(s1, m);
    assert Execute(s, m) == ExecOpcode(0xFE, s1, m);
    CpFlags(Advance(s1, 1), Imm8(s1, m), i);
  }

  lemma PlusZero(w: Word)
    ensures Plus(w, 0) == w
  {
  }

  lemma CpOpcode(s: Cpu, m: Bus)
    ensures ExecOpcode(0xFE, s, m) == Silent(Alu(7, Advance(s, 1), Imm8(s, m)))
  {
    hide Read, Alu, ExecLow, ExecPage, ExecAbsolute, PopPair, PushPair, Ret, Jp, Call, Rst;
  }

  lemma CpFlags(s: Cpu, v: Byte, i: nat)
    requires i < 4
    ensures Alu(7, s, v) == s.(f := Alu(7, s, v).f)
    ensures Condition(i, Alu(7, s, v).f) <==> Compares(i, s.a, v)
  {
  }

  /* The four kinds of conditional branch, by opcode */

  lemma JrOpcode(i: nat, s: Cpu, m: Bus)
    requires i < 4
    ensures ExecOpcode(0x20 + 8 * i, s, m) == Silent(Jr(s, m, Condition(i, s.f)))
  {
    hide Read, Jr, Condition, ExecIndirect, IncDec, ExecAccumulator, SetOperand, AddHL;
  }

  lemma HighOpcode(i: nat, s: Cpu, m: Bus)
    requires i < 4
    ensures ExecOpcode(0xC0 + 8 * i, s, m) == Silent(Ret(s, m, Condition(i, s.f)))
    ensures ExecOpcode(0xC2 + 8 * i, s, m) == Silent(Jp(s, m, Condition(i, s.f)))
    ensures ExecOpcode(0xC4 + 8 * i, s, m) == Call(s, m, Condition(i, s.f))
  {
    hide Read, Ret, Jp, Call, Condition, ExecLow, Alu, ExecPage, ExecAbsolute, PopPair, PushPair, Rst;
  }

  lemma SecondInstruction(s: Cpu, m: Bus, op: Byte)
    requires Code(s, m, 0) == 0xFE && Code(s, m, 2) == op && op != 0xCB
    ensures var t := Execute(s, m).cpu;
      AfterTwo(s, m) == ExecOpcode(op, t.(pc := Plus(s.pc, 3), busy := Charge(op)), m)
  {
    CpSetsFlags(s, m, 0);
    hide Read, ExecOpcode, Condition, Compares, ExecCb, Plus, Charge;
    PlusPlus(s.pc, 2, 1);
  }

  lemma BranchCharges(i: nat)
    requires i < 4
    ensures Charge(0x20 + 8 * i) == 3 && Charge(0xC0 + 8 * i) == 5
    ensures Charge(0xC2 + 8 * i) == 4 && Charge(0xC4 + 8 * i) == 6
  {
  }

  // What the four handlers do, told apart only by whether they are taken
  lemma JrMeans(s: Cpu, m: Bus, taken: bool)
    ensures var e: int := Read(m, s.pc);
      Jr(s, m, taken) == if taken then s.(pc := Plus(s.pc, if e < 128 then e + 1 else e - 255))
                         else s.(pc := Plus(s.pc, 1), busy := s.busy - 1)
  {
    hide Read;
    PlusPlus(s.pc, 1, Signed(Read(m, s.pc)));
  }

  lemma CallMeans(s: Cpu, m: Bus, taken: bool)
    ensures var back := Plus(s.pc, 2);
      Call(s, m, taken) ==
        if taken then Outcome(s.(pc := Imm16(s, m), sp := Plus(s.sp, -2)),
                              [(Plus(s.sp, -1), back / 256), (Plus(s.sp, -2), back % 256)])
        else Outcome(s.(pc := back, busy := s.busy - 3), [])
  {
    hide Read, Plus, Imm16;
  }

  // JR C is taken if and only if A was below v, JR NC if and only if not; JR Z on A == v, JR NZ otherwise.
  lemma CpThenJr(s: Cpu, m: Bus, i: nat)
    requires i < 4 && Code(s, m, 0) == 0xFE && Code(s, m, 2) == 0x20 + 8 * i
    ensures var (t, taken) := (AfterTwo(s, m).cpu, Compares(i, s.a, Code(s, m, 1)));
      var e: int := Code(s, m, 3);
      && t.pc == Plus(s.pc, if !taken then 4 else if e < 128 then 4 + e else 4 + e - 256)
      && t.busy == (if taken then 3 else 2)
  {
    CpSetsFlags(s, m, i);
    SecondInstruction(s, m, 0x20 + 8 * i);
    BranchCharges(i);
    hide Read, Execute, ExecOpcode, Condition, Compares, Plus, AfterTwo, Charge, Jr;
    var t := Execute(s, m).cpu.(pc := Plus(s.pc, 3), busy := 3);
    JrMeans(t, m, Condition(i, t.f));
    PlusPlus(s.pc, 3, 1);
    PlusPlus(s.pc, 3, Signed(Code(s, m, 3)) + 1);
    JrOpcode(i, Execute(s, m).cpu.(pc := Plus(s.pc, 3), busy := 3), m);
  }

  lemma CpThenJp(s: Cpu, m: Bus, i: nat)
    requires i < 4 && Code(s, m, 0) == 0xFE && Code(s, m, 2) == 0xC2 + 8 * i
    ensures var (t, taken) := (AfterTwo(s, m).cpu, Compares(i, s.a, Code(s, m, 1)));
      && t.pc == (if taken then 256 * Code(s, m, 4) + Code(s, m, 3) else Plus(s.pc, 5))
      && t.busy == (if taken then 4 else 3)
  {
    CpSetsFlags(s, m, i);
    SecondInstruction(s, m, 0xC2 + 8 * i);
    BranchCharges(i);
    hide Read, Execute, ExecOpcode, Condition, Compares, Plus, AfterTwo, Charge;
    PlusPlus(s.pc, 3, 1);
    PlusPlus(s.pc, 3, 2);
    HighOpcode(i, Execute(s, m).cpu.(pc := Plus(s.pc, 3), busy := 4), m);
  }

  lemma CpThenCall(s: Cpu, m: Bus, i: nat)
    requires i < 4 && Code(s, m, 0) == 0xFE && Code(s, m, 2) == 0xC4 + 8 * i
    ensures var (o, taken) := (AfterTwo(s, m), Compares(i, s.a, Code(s, m, 1)));
      var back := Plus(s.pc, 5);
      && o.cpu.pc == (if taken then 256 * Code(s, m, 4) + Code(s, m, 3) else back)
      && o.cpu.sp == (if taken then Plus(s.sp, -2) else s.sp)
      && o.stores == (if taken then [(Plus(s.sp, -1), back / 256), (Plus(s.sp, -2), back % 256)] else [])
      && o.cpu.busy == (if taken then 6 else 3)
  {
    CpSetsFlags(s, m, i);
    SecondInstruction(s, m, 0xC4 + 8 * i);
    BranchCharges(i);
    hide Read, Execute, ExecOpcode, Condition, Compares, Plus, AfterTwo, Charge, Call;
    var t := Execute(s, m).cpu.(pc := Plus(s.pc, 3), busy := 6);
    CallMeans(t, m, Condition(i, t.f));
    PlusPlus(s.pc, 3, 1);
    PlusPlus(s.pc, 3, 2);
    HighOpcode(i, Execute(s, m).cpu.(pc := Plus(s.pc, 3), busy := 6), m);
  }

  lemma CpThenRet(s: Cpu, m: Bus, i: nat)
    requires i < 4 && Code(s, m, 0) == 0xFE && Code(s, m, 2) == 0xC0 + 8 * i
    ensures var (t, taken) := (AfterTwo(s, m).cpu, Compares(i, s.a, Code(s, m, 1)));
      && t.pc == (if taken then 256 * Read(m, Plus(s.sp, 1)) + Read(m, s.sp) else Plus(s.pc, 3))
      && t.sp == (if taken then Plus(s.sp, 2) else s.sp)
      && t.busy == (if taken then 5 else 2)
  {
    CpSetsFlags(s, m, i);
    SecondInstruction(s, m, 0xC0 + 8 * i);
    BranchCharges(i);
    hide Read, Execute, ExecOpcode, Condition, Compares, Plus, AfterTwo, Charge;
    PlusPlus(s.pc, 3, 1);
    PlusPlus(s.pc, 3, 2);
    HighOpcode(i, Execute(s, m).cpu.(pc := Plus(s.pc, 3), busy := 5), m);
  }
}
