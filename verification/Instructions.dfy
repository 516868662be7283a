/** What the instructions mean, opcode by opcode: registers by name, results as arithmetic, targets as bytes. */
module Instructions {
  import opened Bytes
  import opened Bitwise
  import opened BusSpec
  import opened CpuSpec
  import opened Timings
  import opened CycleAccounting

  /* Decoding: which handler an opcode reaches, and with which fields */

  lemma DecodeLow(op: Byte, s: Cpu, m: Bus)
    requires op < 0x40
    ensures ExecOpcode(op, s, m) == ExecLow(op, s, m)
  {
    hide Read, ExecLow, ExecHigh, Alu, SetOperand, Operand;
  }

  lemma DecodeImmediate(y: nat, s: Cpu, m: Bus)
    requires y < 8
    ensures ExecOpcode(8 * y + 6, s, m) == SetOperand(y, s.(pc := Plus(s.pc, 1)), Imm8(s, m))
  {
    hide ExecOpcode, Read, SetOperand, IncDec, ExecIndirect, ExecAccumulator, Jr, AddHL, SetPair, Pair, Imm16, Plus;
    assert (8 * y + 6) / 8 == y && (8 * y + 6) % 8 == 6;
    DecodeLow(8 * y + 6, s, m);
  }

  lemma DecodeMove(i: nat, j: nat, s: Cpu, m: Bus)
    requires i < 8 && j < 8 && !(i == 6 && j == 6)
    ensures ExecOpcode(0x40 + 8 * i + j, s, m) == SetOperand(i, s, Operand(j, s, m))
  {
    hide Read, ExecLow, ExecHigh, Alu, SetOperand, Operand;
    var op: Byte := 0x40 + 8 * i + j;
    assert op / 8 == 8 + i && op % 8 == j;
  }

  lemma DecodeAlu(i: nat, j: nat, s: Cpu, m: Bus)
    requires i < 8 && j < 8
    ensures ExecOpcode(0x80 + 8 * i + j, s, m) == Silent(Alu(i, s, Operand(j, s, m)))
  {
    hide Read, ExecLow, ExecHigh, Alu, SetOperand, Operand;
    var op: Byte := 0x80 + 8 * i + j;
    assert op / 8 == 16 + i && op % 8 == j;
  }

  lemma DecodeHigh(op: Byte, s: Cpu, m: Bus)
    requires op >= 0xC0 && !Undefined(op) && op != 0xCB
    ensures ExecOpcode(op, s, m) == ExecHigh(op, s, m)
  {
    hide Read, ExecLow, ExecHigh, Alu, SetOperand, Operand;
  }

  /* Loads */

  // LD r, n
  lemma LoadImmediate(s: Cpu, m: Bus)
    ensures var (n, t) := (Imm8(s, m), s.(pc := Plus(s.pc, 1)));
      && ExecOpcode(0x06, s, m) == Outcome(t.(b := n), []) && ExecOpcode(0x0E, s, m) == Outcome(t.(c := n), [])
      && ExecOpcode(0x16, s, m) == Outcome(t.(d := n), []) && ExecOpcode(0x1E, s, m) == Outcome(t.(e := n), [])
      && ExecOpcode(0x26, s, m) == Outcome(t.(h := n), []) && ExecOpcode(0x2E, s, m) == Outcome(t.(l := n), [])
      && ExecOpcode(0x36, s, m) == Outcome(t, [(256 * s.h + s.l, n)])
      && ExecOpcode(0x3E, s, m) == Outcome(t.(a := n), [])
  {
    hide ExecOpcode, Read, Plus;
    DecodeImmediate(0, s, m);
    DecodeImmediate(1, s, m);
    DecodeImmediate(2, s, m);
    DecodeImmediate(3, s, m);
    DecodeImmediate(4, s, m);
    DecodeImmediate(5, s, m);
    DecodeImmediate(6, s, m);
    DecodeImmediate(7, s, m);
  }

  // LD A, r and LD r, A
  lemma MoveThroughA(s: Cpu, m: Bus)
    ensures ExecOpcode(0x78, s, m).cpu == s.(a := s.b) && ExecOpcode(0x79, s, m).cpu == s.(a := s.c)
    ensures ExecOpcode(0x7A, s, m).cpu == s.(a := s.d) && ExecOpcode(0x7B, s, m).cpu == s.(a := s.e)
    ensures ExecOpcode(0x7C, s, m).cpu == s.(a := s.h) && ExecOpcode(0x7D, s, m).cpu == s.(a := s.l)
    ensures ExecOpcode(0x7E, s, m).cpu == s.(a := Read(m, 256 * s.h + s.l))
    ensures ExecOpcode(0x47, s, m).cpu == s.(b := s.a) && ExecOpcode(0x4F, s, m).cpu == s.(c := s.a)
    ensures ExecOpcode(0x57, s, m).cpu == s.(d := s.a) && ExecOpcode(0x5F, s, m).cpu == s.(e := s.a)
    ensures ExecOpcode(0x67, s, m).cpu == s.(h := s.a) && ExecOpcode(0x6F, s, m).cpu == s.(l := s.a)
    ensures ExecOpcode(0x77, s, m) == Outcome(s, [(256 * s.h + s.l, s.a)])
  {
    hide ExecOpcode, Read;
    DecodeMove(7, 0, s, m);
    DecodeMove(7, 1, s, m);
    DecodeMove(7, 2, s, m);
    DecodeMove(7, 3, s, m);
    DecodeMove(7, 4, s, m);
    DecodeMove(7, 5, s, m);
    DecodeMove(7, 6, s, m);
    DecodeMove(0, 7, s, m);
    DecodeMove(1, 7, s, m);
    DecodeMove(2, 7, s, m);
    DecodeMove(3, 7, s, m);
    DecodeMove(4, 7, s, m);
    DecodeMove(5, 7, s, m);
    DecodeMove(6, 7, s, m);
  }

  lemma MoveSplits(i: nat, s: Cpu, v: Byte)
    requires i < 7 && i != 6
    ensures SetOperand(i, s, v).cpu == SetOperand(i, s.(a := v), v).cpu.(a := s.a)
  {
  }

  // Every LD r, r' is the two moves through A, with A as it was.
  lemma MoveIsTwoMoves(i: nat, j: nat, s: Cpu, m: Bus)
    requires i < 7 && i != 6 && j < 7 && j != 6
    ensures var loaded := ExecOpcode(0x78 + j, s, m).cpu;
      ExecOpcode(0x40 + 8 * i + j, s, m).cpu == ExecOpcode(0x47 + 8 * i, loaded, m).cpu.(a := s.a)
  {
    hide ExecOpcode, Read;
    DecodeMove(i, j, s, m);
    DecodeMove(7, j, s, m);
    DecodeMove(i, 7, ExecOpcode(0x78 + j, s, m).cpu, m);
    hide Operand;
    LastOperand(s.(a := Operand(j, s, m)), m);
    MoveSplits(i, s, Operand(j, s, m));
  }

  lemma LastOperand(s: Cpu, m: Bus)
    ensures Operand(7, s, m) == s.a
  {
  }

  // LD rr, nn: low byte first
  lemma LoadPair(s: Cpu, m: Bus)
    ensures var (lo, hi, t) := (Read(m, s.pc), Read(m, Plus(s.pc, 1)), s.(pc := Plus(s.pc, 2)));
      var nn: int := 256 * hi as int + lo;
      && ExecOpcode(0x01, s, m) == Outcome(t.(b := hi, c := lo), [])
      && ExecOpcode(0x11, s, m) == Outcome(t.(d := hi, e := lo), [])
      && ExecOpcode(0x21, s, m) == Outcome(t.(h := hi, l := lo), [])
      && ExecOpcode(0x31, s, m) == Outcome(t.(sp := nn), [])
  {
    hide ExecOpcode, Read, IncDec, ExecIndirect, ExecAccumulator, Jr, AddHL, SetOperand, Plus;
    DecodeLow(0x01, s, m);
    DecodeLow(0x11, s, m);
    DecodeLow(0x21, s, m);
    DecodeLow(0x31, s, m);
  }

  // LD (nn), SP and LD SP, HL
  lemma StackPointerMoves(s: Cpu, m: Bus)
    ensures var nn := 256 * Read(m, Plus(s.pc, 1)) + Read(m, s.pc);
      ExecOpcode(0x08, s, m) == Outcome(s.(pc := Plus(s.pc, 2)), [(nn, s.sp % 256), (Plus(nn, 1), s.sp / 256)])
    ensures ExecOpcode(0xF9, s, m) == Outcome(s.(sp := 256 * s.h + s.l), [])
  {
    hide ExecOpcode, Read, Alu, IncDec, ExecIndirect, ExecAccumulator, Jr, AddHL, SetOperand, Plus;
    hide PopPair, PushPair, Jp, Call;
    DecodeLow(0x08, s, m);
    DecodeHigh(0xF9, s, m);
  }

  lemma DecodeIndirect(y: nat, s: Cpu, m: Bus)
    requires y < 8
    ensures ExecOpcode(8 * y + 2, s, m) == ExecIndirect(y, s, m)
  {
    hide ExecOpcode, Read, SetOperand, IncDec, ExecIndirect, ExecAccumulator, Jr, AddHL, SetPair, Pair, Imm16, Plus;
    assert (8 * y + 2) / 8 == y && (8 * y + 2) % 8 == 2;
    DecodeLow(8 * y + 2, s, m);
  }

  // Between A and memory at BC, DE, and HL stepping up or down
  lemma IndirectLoads(s: Cpu, m: Bus)
    ensures ExecOpcode(0x02, s, m) == Outcome(s, [(256 * s.b + s.c, s.a)])
    ensures ExecOpcode(0x12, s, m) == Outcome(s, [(256 * s.d + s.e, s.a)])
    ensures ExecOpcode(0x22, s, m) == Outcome(s.WithHL(Plus(s.HL(), 1)), [(256 * s.h + s.l, s.a)])
    ensures ExecOpcode(0x32, s, m) == Outcome(s.WithHL(Plus(s.HL(), -1)), [(256 * s.h + s.l, s.a)])
    ensures ExecOpcode(0x0A, s, m) == Outcome(s.(a := Read(m, 256 * s.b + s.c)), [])
    ensures ExecOpcode(0x1A, s, m) == Outcome(s.(a := Read(m, 256 * s.d + s.e)), [])
    ensures ExecOpcode(0x2A, s, m) == Outcome(s.(a := Read(m, 256 * s.h + s.l)).WithHL(Plus(s.HL(), 1)), [])
    ensures ExecOpcode(0x3A, s, m) == Outcome(s.(a := Read(m, 256 * s.h + s.l)).WithHL(Plus(s.HL(), -1)), [])
  {
    hide ExecOpcode, Read, Plus;
    DecodeIndirect(0, s, m);
    DecodeIndirect(1, s, m);
    DecodeIndirect(2, s, m);
    DecodeIndirect(3, s, m);
    DecodeIndirect(4, s, m);
    DecodeIndirect(5, s, m);
    DecodeIndirect(6, s, m);
    DecodeIndirect(7, s, m);
  }

  /* The stack */

  lemma DecodeStack(i: nat, s: Cpu, m: Bus)
    requires i < 4
    ensures ExecOpcode(0xC5 + 16 * i, s, m) == PushPair(i, s)
    ensures ExecOpcode(0xC1 + 16 * i, s, m) == Silent(PopPair(i, s, m))
  {
    hide ExecOpcode, Read, Alu, Jp, Ret, Call, Rst, ExecPage, ExecAbsolute, PushPair, PopPair, Plus;
    assert (0xC5 + 16 * i) / 8 == 24 + 2 * i && (0xC5 + 16 * i) % 8 == 5;
    assert (0xC1 + 16 * i) / 8 == 24 + 2 * i && (0xC1 + 16 * i) % 8 == 1 && (0xC1 + 16 * i) % 16 == 1;
    DecodeHigh(0xC5 + 16 * i, s, m);
    DecodeHigh(0xC1 + 16 * i, s, m);
  }

  // PUSH stores the high byte below SP and the low byte below that; POP reads them back.
  lemma PushAndPop(s: Cpu, m: Bus)
    ensures var (t, p, q) := (s.(sp := Plus(s.sp, -2)), Plus(s.sp, -1), Plus(s.sp, -2));
      && ExecOpcode(0xC5, s, m) == Outcome(t, [(p, s.b), (q, s.c)])
      && ExecOpcode(0xD5, s, m) == Outcome(t, [(p, s.d), (q, s.e)])
      && ExecOpcode(0xE5, s, m) == Outcome(t, [(p, s.h), (q, s.l)])
    ensures var (t, hi, lo) := (s.(sp := Plus(s.sp, 2)), Read(m, Plus(s.sp, 1)), Read(m, s.sp));
      && ExecOpcode(0xC1, s, m) == Outcome(t.(b := hi, c := lo), [])
      && ExecOpcode(0xD1, s, m) == Outcome(t.(d := hi, e := lo), [])
      && ExecOpcode(0xE1, s, m) == Outcome(t.(h := hi, l := lo), [])
  {
    hide ExecOpcode, Read, Plus;
    DecodeStack(0, s, m);
    DecodeStack(1, s, m);
    DecodeStack(2, s, m);
  }

  // The flags in the low byte of AF: Z, N, H and C from bit 7 down
  lemma PushAF(s: Cpu, m: Bus)
    ensures var f := (if s.f.z then 128 else 0) + (if s.f.n then 64 else 0) + (if s.f.h then 32 else 0)
                   + (if s.f.c then 16 else 0) + s.f.low;
      ExecOpcode(0xF5, s, m) == Outcome(s.(sp := Plus(s.sp, -2)), [(Plus(s.sp, -1), s.a), (Plus(s.sp, -2), f)])
  {
    hide ExecOpcode, Read, Plus;
    DecodeStack(3, s, m);
  }

  lemma PopAF(s: Cpu, m: Bus)
    ensures var (hi, lo) := (Read(m, Plus(s.sp, 1)), Read(m, s.sp));
      ExecOpcode(0xF1, s, m) ==
        Silent(s.(sp := Plus(s.sp, 2), a := hi, f := Flags(Bit(lo, 7), Bit(lo, 6), Bit(lo, 5), Bit(lo, 4), 0)))
  {
    hide ExecOpcode, Read, Plus, Bit;
    DecodeStack(3, s, m);
    UpperFlags(Read(m, s.sp));
  }

  lemma UpperFlags(v: Byte)
    ensures FlagsOf(v).(low := 0) == Flags(Bit(v, 7), Bit(v, 6), Bit(v, 5), Bit(v, 4), 0)
  {
  }

  /* Arithmetic and logic on A */

  // The forms with an immediate byte are in the same order as those with a register.
  lemma DecodeAluImmediate(i: nat, s: Cpu, m: Bus)
    requires i < 8
    ensures ExecOpcode(0xC6 + 8 * i, s, m) == Silent(Alu(i, s.(pc := Plus(s.pc, 1)), Imm8(s, m)))
  {
    hide ExecOpcode, Read, Plus, ExecPage, ExecAbsolute, PopPair, PushPair, Ret, Jp, Call, Rst, Alu;
    assert (0xC6 + 8 * i) / 8 == 24 + i && (0xC6 + 8 * i) % 8 == 6;
    DecodeHigh(0xC6 + 8 * i, s, m);
  }

  // A and the four flags of a result, with Z exactly for zero; nothing else moves.
  predicate IsResult(s: Cpu, t: Cpu, r: int, n: bool, h: bool, c: bool) {
    0 <= r < 256 && t == s.(a := r, f := Flags(r == 0, n, h, c, s.f.low))
  }

  // 0 and 1 are ADD and ADC: the sum modulo 256, with the carries out of bits 3 and 7.
  lemma Sums(s: Cpu, v: Byte)
    ensures var (a: int, b: int, c) := (s.a, v, if s.f.c then 1 else 0);
      && IsResult(s, Alu(0, s, v), (a + b) % 256, false, a % 16 + b % 16 > 15, a + b > 255)
      && IsResult(s, Alu(1, s, v), (a + b + c) % 256, false, a % 16 + b % 16 + c > 15, a + b + c > 255)
  {
  }

  // 2, 3 and 7 are SUB, SBC and CP: the difference modulo 256, with the borrows; CP keeps A.
  lemma Differences(s: Cpu, v: Byte)
    ensures var (a: int, b: int, c) := (s.a, v, if s.f.c then 1 else 0);
      && IsResult(s, Alu(2, s, v), (a - b) % 256, true, a % 16 < b % 16, a < b)
      && IsResult(s, Alu(3, s, v), (a - b - c) % 256, true, a % 16 < b % 16 + c, a < b + c)
      && Alu(7, s, v) == s.(f := Alu(2, s, v).f)
  {
  }

  // 4, 5 and 6 are AND, XOR and OR, bit by bit.
  lemma LogicBitByBit(s: Cpu, v: Byte, k: nat)
    requires k < 8
    ensures var (x, y, z) := (Alu(4, s, v), Alu(5, s, v), Alu(6, s, v));
      && Bit(x.a, k) == (Bit(s.a, k) && Bit(v, k)) && IsResult(s, x, x.a, false, true, false)
      && Bit(y.a, k) == (Bit(s.a, k) != Bit(v, k)) && IsResult(s, y, y.a, false, false, false)
      && Bit(z.a, k) == (Bit(s.a, k) || Bit(v, k)) && IsResult(s, z, z.a, false, false, false)
  {
    hide And, Or, Xor, Bit;
    AndBitByBit(s.a, v, k);
    XorBitByBit(s.a, v, k);
    OrBitByBit(s.a, v, k);
  }

  // INC and DEC of a register: one more or one less modulo 256, carry untouched
  lemma IncAndDec(s: Cpu, m: Bus)
    ensures var r := if s.b == 255 then 0 else s.b + 1;
      ExecOpcode(0x04, s, m) == Silent(s.(b := r, f := Flags(r == 0, false, s.b % 16 == 15, s.f.c, s.f.low)))
    ensures var r := if s.b == 0 then 255 else s.b - 1;
      ExecOpcode(0x05, s, m) == Silent(s.(b := r, f := Flags(r == 0, true, s.b % 16 == 0, s.f.c, s.f.low)))
  {
    hide ExecOpcode, Read, ExecIndirect, ExecAccumulator, Jr, AddHL, SetPair, Pair, Imm16, Plus;
    DecodeLow(0x04, s, m);
    DecodeLow(0x05, s, m);
  }

  // Which operand the sixteen opcodes of INC and DEC work on
  lemma DecodeIncDec(i: nat, s: Cpu, m: Bus)
    requires i < 8
    ensures ExecOpcode(8 * i + 4, s, m) == IncDec(i, s, m, 1)
    ensures ExecOpcode(8 * i + 5, s, m) == IncDec(i, s, m, -1)
  {
    hide ExecOpcode, Read, IncDec, ExecIndirect, ExecAccumulator, Jr, AddHL, SetPair, Pair, Imm16, Plus, SetOperand;
    assert (8 * i + 4) / 8 == i && (8 * i + 4) % 8 == 4 && (8 * i + 5) / 8 == i && (8 * i + 5) % 8 == 5;
    DecodeLow(8 * i + 4, s, m);
    DecodeLow(8 * i + 5, s, m);
  }

  // At (HL) the zero flag is what a read gives after the write.
  lemma IncAndDecMemory(s: Cpu, m: Bus)
    ensures var (a: Word, v) := (256 * s.h + s.l, Read(m, 256 * s.h + s.l));
      var r := if v == 255 then 0 else v + 1;
      ExecOpcode(0x34, s, m) ==
        Outcome(s.(f := Flags(Read(Write(m, a, r, FromCpu), a) == 0, false, v % 16 == 15, s.f.c, s.f.low)), [(a, r)])
    ensures var (a: Word, v) := (256 * s.h + s.l, Read(m, 256 * s.h + s.l));
      var r := if v == 0 then 255 else v - 1;
      ExecOpcode(0x35, s, m) ==
        Outcome(s.(f := Flags(Read(Write(m, a, r, FromCpu), a) == 0, true, v % 16 == 0, s.f.c, s.f.low)), [(a, r)])
  {
    hide ExecOpcode, Read, Write, ExecIndirect, ExecAccumulator, Jr, AddHL, SetPair, Pair, Imm16, Plus;
    DecodeIncDec(6, s, m);
  }

  lemma DecodePairs(i: nat, s: Cpu, m: Bus)
    requires i < 4
    ensures ExecOpcode(16 * i + 3, s, m) == Silent(SetPair(i, s, Plus(Pair(i, s), 1)))
    ensures ExecOpcode(16 * i + 11, s, m) == Silent(SetPair(i, s, Plus(Pair(i, s), -1)))
    ensures ExecOpcode(16 * i + 9, s, m) == Silent(AddHL(s, Pair(i, s)))
  {
    hide ExecOpcode, Read, IncDec, ExecIndirect, ExecAccumulator, Jr, Imm16, Plus, SetOperand, SetPair, Pair, AddHL;
    assert (16 * i + 3) / 8 == 2 * i && (16 * i + 11) / 8 == 2 * i + 1 && (16 * i + 9) / 8 == 2 * i + 1;
    assert (16 * i + 3) % 8 == 3 && (16 * i + 11) % 8 == 3 && (16 * i + 9) % 8 == 1;
    DecodeLow(16 * i + 3, s, m);
    DecodeLow(16 * i + 11, s, m);
    DecodeLow(16 * i + 9, s, m);
  }

  // INC rr, DEC rr and ADD HL, rr: BC, DE, HL, SP
  lemma PairArithmetic(s: Cpu, m: Bus)
    ensures var (up, down) := (Plus(s.BC(), 1), Plus(s.BC(), -1));
      && ExecOpcode(0x03, s, m).cpu == s.(b := up / 256, c := up % 256)
      && ExecOpcode(0x0B, s, m).cpu == s.(b := down / 256, c := down % 256)
    ensures var (up, down) := (Plus(s.DE(), 1), Plus(s.DE(), -1));
      && ExecOpcode(0x13, s, m).cpu == s.(d := up / 256, e := up % 256)
      && ExecOpcode(0x1B, s, m).cpu == s.(d := down / 256, e := down % 256)
    ensures ExecOpcode(0x23, s, m).cpu == s.WithHL(Plus(s.HL(), 1))
    ensures ExecOpcode(0x2B, s, m).cpu == s.WithHL(Plus(s.HL(), -1))
    ensures ExecOpcode(0x33, s, m).cpu == s.(sp := Plus(s.sp, 1))
    ensures ExecOpcode(0x3B, s, m).cpu == s.(sp := Plus(s.sp, -1))
    ensures ExecOpcode(0x09, s, m).cpu == AddHL(s, s.BC()) && ExecOpcode(0x19, s, m).cpu == AddHL(s, s.DE())
    ensures ExecOpcode(0x29, s, m).cpu == AddHL(s, s.HL()) && ExecOpcode(0x39, s, m).cpu == AddHL(s, s.sp)
  {
    hide ExecOpcode, Read, Plus, AddHL;
    DecodePairs(0, s, m);
    DecodePairs(1, s, m);
    DecodePairs(2, s, m);
    DecodePairs(3, s, m);
  }

  // CPL, SCF and CCF
  lemma AccumulatorFlags(s: Cpu, m: Bus)
    ensures ExecOpcode(0x2F, s, m) == Silent(s.(a := 255 - s.a, f := Flags(s.f.z, true, true, s.f.c, s.f.low)))
    ensures ExecOpcode(0x37, s, m) == Silent(s.(f := Flags(s.f.z, false, false, true, s.f.low)))
    ensures ExecOpcode(0x3F, s, m) == Silent(s.(f := Flags(s.f.z, false, false, !s.f.c, s.f.low)))
  {
    hide ExecOpcode, Read, IncDec, ExecIndirect, Jr, Imm16, Plus, SetOperand, Daa, Rotate, SetPair, AddHL;
    DecodeLow(0x2F, s, m);
    DecodeLow(0x37, s, m);
    DecodeLow(0x3F, s, m);
  }

  // DAA adds 6 to a digit that is above 9 or carried, or takes it back after a subtraction; Z is set for zero, H is
  // cleared and N kept.
  lemma DaaMeans(s: Cpu, m: Bus)
    ensures var (a: int, up) := (s.a, s.f.c || (!s.f.n && s.a > 0x99));
      var high := if up then 0x60 else 0;
      var low := if s.f.h || (!s.f.n && s.a % 16 > 9) then 6 else 0;
      var r := (if s.f.n then a - high - low else a + high + low) % 256;
      ExecOpcode(0x27, s, m) == Silent(s.(a := r, f := Flags(r == 0, s.f.n, false, up, s.f.low)))
  {
    hide ExecOpcode, Read, IncDec, ExecIndirect, Jr, Imm16, Plus, SetOperand, Rotate, SetPair, AddHL, Daa;
    DecodeLow(0x27, s, m);
    if s.f.n {
      DaaAfterSubtraction(s);
    } else {
      DaaAfterAddition(s);
    }
  }

  lemma DaaAfterSubtraction(s: Cpu)
    requires s.f.n
    ensures var r := (s.a as int - (if s.f.c then 0x60 else 0) - (if s.f.h then 6 else 0)) % 256;
      Daa(s) == s.(a := r, f := Flags(r == 0, true, false, s.f.c, s.f.low))
  {
  }

  lemma DaaAfterAddition(s: Cpu)
    requires !s.f.n
    ensures var up := s.f.c || s.a > 0x99;
      var r := (s.a as int + (if up then 0x60 else 0) + (if s.f.h || s.a % 16 > 9 then 6 else 0)) % 256;
      Daa(s) == s.(a := r, f := Flags(r == 0, false, false, up, s.f.low))
  {
    hide Low8;
    SameLowDigit(s.a);
    LowSum(s.a + 0x60, 6);
    LowSum(s.a, 6);
    LowSum(s.a + 0x60, 0);
    LowSum(s.a, 0);
  }

  lemma LowSum(x: nat, y: nat)
    ensures Low8(Low8(x) + y) == Low8(x + y) == (x + y) % 256
    ensures x < 256 ==> Low8(x) == x
  {
  }

  lemma SameLowDigit(v: Byte)
    ensures Low8(v + 0x60) % 16 == v % 16
  {
    var (q, r) := (v / 16, v % 16);
    assert v == 16 * q + r;
  }

  /* Jumps, calls and control */

  // JP nn, JP HL, CALL nn, RET and RETI
  lemma Targets(s: Cpu, m: Bus)
    ensures var (nn, back) := (256 * Read(m, Plus(s.pc, 1)) as int + Read(m, s.pc), Plus(s.pc, 2));
      && ExecOpcode(0xC3, s, m) == Silent(s.(pc := nn))
      && ExecOpcode(0xCD, s, m) == Outcome(s.(pc := nn, sp := Plus(s.sp, -2)),
                                           [(Plus(s.sp, -1), back / 256), (Plus(s.sp, -2), back % 256)])
    ensures ExecOpcode(0xE9, s, m) == Silent(s.(pc := 256 * s.h + s.l))
    ensures var top := 256 * Read(m, Plus(s.sp, 1)) as int + Read(m, s.sp);
      && ExecOpcode(0xC9, s, m) == Silent(s.(pc := top, sp := Plus(s.sp, 2)))
      && ExecOpcode(0xD9, s, m) == Silent(s.(pc := top, sp := Plus(s.sp, 2), ime := true))
  {
    hide ExecOpcode, Read, Plus, Alu, Rst, ExecPage, ExecAbsolute, PopPair, PushPair;
    DecodeHigh(0xC3, s, m);
    DecodeHigh(0xCD, s, m);
    DecodeHigh(0xE9, s, m);
    DecodeHigh(0xC9, s, m);
    DecodeHigh(0xD9, s, m);
  }

  // RST 00, 08, ..., 38
  lemma Restarts(i: nat, s: Cpu, m: Bus)
    requires i < 8
    ensures ExecOpcode(0xC7 + 8 * i, s, m) == Outcome(s.(pc := [0x00, 0x08, 0x10, 0x18, 0x20, 0x28, 0x30, 0x38][i],
                                                         sp := Plus(s.sp, -2)),
                                                      [(Plus(s.sp, -1), s.pc / 256), (Plus(s.sp, -2), s.pc % 256)])
  {
    hide ExecOpcode, Read, Plus, Alu, Jp, Ret, Call, ExecPage, ExecAbsolute, PopPair, PushPair;
    assert (0xC7 + 8 * i) / 8 == 24 + i && (0xC7 + 8 * i) % 8 == 7;
    DecodeHigh(0xC7 + 8 * i, s, m);
  }

  // NOP, STOP, HALT, DI and EI
  lemma Control(s: Cpu, m: Bus)
    ensures ExecOpcode(0x00, s, m) == Silent(s)
    ensures ExecOpcode(0x10, s, m) == Silent(s.(halted := true))
    ensures ExecOpcode(0x76, s, m) == Silent(s.(halted := true))
    ensures ExecOpcode(0xF3, s, m) == Silent(s.(ime := false))
    ensures ExecOpcode(0xFB, s, m) == Silent(s.(ime := true))
  {
    hide Read, Plus, Alu, Rst, Jp, Ret, Call, ExecPage, ExecAbsolute, PopPair, PushPair, SetOperand, IncDec;
    hide ExecIndirect, ExecAccumulator, Jr, AddHL, SetPair, Pair;
    DecodeHigh(0xF3, s, m);
    DecodeHigh(0xFB, s, m);
  }

  // Eleven opcodes stop the CPU for good; no other does.
  lemma Crashes(op: Byte, s: Cpu, m: Bus)
    requires op != 0xCB && !s.crashed
    ensures ExecOpcode(op, s, m).cpu.crashed <==>
      op in [0xD3, 0xDB, 0xDD, 0xE3, 0xE4, 0xEB, 0xEC, 0xED, 0xF4, 0xFC, 0xFD]
  {
    hide ExecOpcode, Discount;
    if Undefined(op) {
      CrashesOnUndefined(op, s, m);
    } else {
      OpcodeCharge(op, s, m);
    }
  }

  lemma CrashesOnUndefined(op: Byte, s: Cpu, m: Bus)
    requires Undefined(op)
    ensures ExecOpcode(op, s, m).cpu.crashed
  {
    hide ExecLow, ExecHigh, Alu, SetOperand, Operand;
  }

  /* Prefixed instructions, here on B; the other operands are decoded by the low three bits */

  lemma RotateInstructions(y: nat, s: Cpu, m: Bus)
    requires y < 8
    ensures var (r, out) := Rotate(y, s.b, if s.f.c then 1 else 0);
      ExecCb(8 * y, s, m) == Silent(s.(b := r, f := Flags(r == 0, false, false, out, s.f.low)))
    ensures y < 4 ==>
      var (r, out) := Rotate(y, s.a, if s.f.c then 1 else 0);
      ExecOpcode(8 * y + 7, s, m) == Silent(s.(a := r, f := Flags(false, false, false, out, s.f.low)))
  {
    hide ExecOpcode, Read, Rotate, IncDec, ExecIndirect, Jr, Imm16, Plus, SetPair, Pair, AddHL, Daa;
    assert 8 * y / 8 == y && 8 * y % 8 == 0 && (8 * y + 7) / 8 == y && (8 * y + 7) % 8 == 7;
    DecodeLow(8 * y + 7, s, m);
  }

  // The same at (HL); SWAP takes its zero flag from reading the cell back.
  lemma RotateMemory(y: nat, s: Cpu, m: Bus)
    requires y < 8
    ensures var (a: Word, c) := (256 * s.h + s.l, if s.f.c then 1 else 0);
      var (r, out) := Rotate(y, Read(m, a), c);
      var zero := (if y == 6 then Read(Write(m, a, r, FromCpu), a) else r) == 0;
      ExecCb(8 * y + 6, s, m) == Outcome(s.(f := Flags(zero, false, false, out, s.f.low)), [(a, r)])
  {
    hide Read, Write, Rotate;
    assert (8 * y + 6) / 8 == y && (8 * y + 6) % 8 == 6;
  }

  // BIT n reports bit n in Z, RES n clears it, SET n sets it; the other bits stay.
  lemma BitInstructions(n: nat, s: Cpu, m: Bus, k: nat)
    requires n < 8 && k < 8
    ensures ExecCb(0x40 + 8 * n, s, m) == Silent(s.(f := Flags(!Bit(s.b, n), false, true, s.f.c, s.f.low)))
    ensures var t := ExecCb(0x80 + 8 * n, s, m).cpu;
      t == s.(b := t.b) && Bit(t.b, k) == (k != n && Bit(s.b, k))
    ensures var t := ExecCb(0xC0 + 8 * n, s, m).cpu;
      t == s.(b := t.b) && Bit(t.b, k) == (k == n || Bit(s.b, k))
  {
    hide Bit, SetBit, Rotate;
    assert (0x40 + 8 * n) / 8 % 8 == n && (0x80 + 8 * n) / 8 % 8 == n && (0xC0 + 8 * n) / 8 % 8 == n;
    assert (0x40 + 8 * n) % 8 == 0 && (0x80 + 8 * n) % 8 == 0 && (0xC0 + 8 * n) % 8 == 0;
    SetBitSetsOnlyThatBit(s.b, n, false, k);
    SetBitSetsOnlyThatBit(s.b, n, true, k);
  }

  // The operand of a prefixed instruction is named by its low three bits, in the order of LD r, n.
  lemma DecodeCb(y: nat, z: nat, s: Cpu, m: Bus)
    requires y < 8 && z < 8
    ensures ExecCb(8 * y + z, s, m) == RotateOperand(y, z, s, m)
    ensures ExecCb(0x40 + 8 * y + z, s, m).cpu == s.(f := Flags(!Bit(Operand(z, s, m), y), false, true, s.f.c, s.f.low))
    ensures ExecCb(0x80 + 8 * y + z, s, m) == SetOperand(z, s, SetBit(Operand(z, s, m), y, false))
    ensures ExecCb(0xC0 + 8 * y + z, s, m) == SetOperand(z, s, SetBit(Operand(z, s, m), y, true))
  {
    hide Bit, SetBit, RotateOperand, SetOperand, Operand;
    CbFields(0, y, z);
    CbFields(1, y, z);
    CbFields(2, y, z);
    CbFields(3, y, z);
  }

  lemma CbFields(x: nat, y: nat, z: nat)
    requires x < 4 && y < 8 && z < 8
    ensures var op := 64 * x + 8 * y + z; op / 64 == x && op / 8 % 8 == y && op % 8 == z
  {
  }
}
