/** One machine clock of the CPU as a function: the next registers and the bus writes it makes, in order. */
module CpuSpec {
  import opened Bytes
  import opened Registers
  import opened Bitwise
  import opened BusSpec
  import opened Timings

  type Nibble = x: int | 0 <= x < 16

  // Register F: four flags, and four low bits without a meaning.
  datatype Flags = Flags(z: bool, n: bool, h: bool, c: bool, low: Nibble) {
    function ToByte(): Byte {
      (if z then 128 else 0) + (if n then 64 else 0) + (if h then 32 else 0) + (if c then 16 else 0) + low
    }
  }

  function FlagsOf(v: Byte): Flags { Flags(v / 128 == 1, v / 64 % 2 == 1, v / 32 % 2 == 1, v / 16 % 2 == 1, v % 16) }

  datatype Cpu = Cpu(a: Byte, f: Flags, b: Byte, c: Byte, d: Byte, e: Byte, h: Byte, l: Byte,
                     sp: Word, pc: Word, ime: bool, halted: bool, crashed: bool, busy: int)
  {
    function BC(): Word { Join(b, c) }
    function DE(): Word { Join(d, e) }
    function HL(): Word { Join(h, l) }
    function WithHL(w: Word): Cpu { this.(h := Hi(w), l := Lo(w)) }
    function WithF(z: bool, n: bool, hc: bool, cy: bool): Cpu { this.(f := Flags(z, n, hc, cy, f.low)) }
  }

  // Registers as CPU::reset leaves them; IME, halted and crashed are not touched.
  function AfterBoot(s: Cpu): Cpu {
    s.(a := 0x01, f := Flags(false, false, false, false, 0),
       b := 0xFF, c := 0x13, d := 0x00, e := 0xC1, h := 0x84, l := 0x03,
       pc := 0x0100, sp := 0xFFFE, busy := 0)
  }

  datatype Outcome = Outcome(cpu: Cpu, stores: seq<Store>)

  function Silent(s: Cpu): Outcome { Outcome(s, []) }

  /* Operands: B, C, D, E, H, L, (HL), A in encoding order */

  function Operand(i: nat, s: Cpu, m: Bus): Byte
    requires i < 8
  {
    match i
    case 0 => s.b case 1 => s.c case 2 => s.d case 3 => s.e
    case 4 => s.h case 5 => s.l case 6 => Read(m, s.HL()) case _ => s.a
  }

  function SetOperand(i: nat, s: Cpu, v: Byte): Outcome
    requires i < 8
  {
    match i
    case 0 => Silent(s.(b := v)) case 1 => Silent(s.(c := v))
    case 2 => Silent(s.(d := v)) case 3 => Silent(s.(e := v))
    case 4 => Silent(s.(h := v)) case 5 => Silent(s.(l := v))
    case 6 => Outcome(s, [(s.HL(), v)])
    case _ => Silent(s.(a := v))
  }

  // What a read of the cell at HL gives just after it was written.
  function ReadBack(s: Cpu, m: Bus, v: Byte): Byte { Read(Write(m, s.HL(), v, FromCpu), s.HL()) }

  // BC, DE, HL, SP in encoding order
  function Pair(i: nat, s: Cpu): Word
    requires i < 4
  {
    if i == 0 then s.BC() else if i == 1 then s.DE() else if i == 2 then s.HL() else s.sp
  }

  function SetPair(i: nat, s: Cpu, w: Word): Cpu
    requires i < 4
  {
    if i == 0 then s.(b := Hi(w), c := Lo(w))
    else if i == 1 then s.(d := Hi(w), e := Lo(w))
    else if i == 2 then s.WithHL(w)
    else s.(sp := w)
  }

  // NZ, Z, NC, C in encoding order
  predicate Condition(i: nat, f: Flags)
    requires i < 4
  {
    if i == 0 then !f.z else if i == 1 then f.z else if i == 2 then !f.c else f.c
  }

  /* Arithmetic on A */

  function Carry(s: Cpu): nat { if s.f.c then 1 else 0 }

  function Adc(s: Cpu, v: Byte): Cpu {
    var r := s.a + v + Carry(s);
    s.(a := Low8(r)).WithF(Low8(r) == 0, false, s.a % 16 + v % 16 + Carry(s) > 0xF, r > 0xFF)
  }

  function Sbc(s: Cpu, v: Byte): Cpu {
    var r := s.a - v - Carry(s);
    s.(a := Low8(r)).WithF(Low8(r) == 0, true, s.a % 16 - v % 16 - Carry(s) < 0, r < 0)
  }

  function ClearCarry(s: Cpu): Cpu { s.(f := s.f.(c := false)) }

  function Logic(s: Cpu, r: Byte, h: bool): Cpu { s.(a := r).WithF(r == 0, false, h, false) }

  // ADD, ADC, SUB, SBC, AND, XOR, OR, CP in encoding order
  function Alu(i: nat, s: Cpu, v: Byte): Cpu
    requires i < 8
  {
    match i
    case 0 => Adc(ClearCarry(s), v)
    case 1 => Adc(s, v)
    case 2 => Sbc(ClearCarry(s), v)
    case 3 => Sbc(s, v)
    case 4 => Logic(s, And(s.a, v), true)
    case 5 => Logic(s, Xor(s.a, v), false)
    case 6 => Logic(s, Or(s.a, v), false)
    case _ => Sbc(ClearCarry(s), v).(a := s.a)
  }

  function Daa(s: Cpu): Cpu {
    if !s.f.n then
      var cy := s.f.c || s.a > 0x99;
      var a1 := if cy then Low8(s.a + 0x60) else s.a;
      var a2 := if s.f.h || a1 % 16 > 9 then Low8(a1 + 6) else a1;
      s.(a := a2).WithF(a2 == 0, false, false, cy)
    else
      var a1 := if s.f.c then Low8(s.a - 0x60) else s.a;
      var a2 := if s.f.h then Low8(a1 - 6) else a1;
      s.(a := a2).WithF(a2 == 0, true, false, s.f.c)
  }

  // RLC, RRC, RL, RR, SLA, SRA, SWAP, SRL in encoding order: the new byte and the bit shifted out.
  function Rotate(i: nat, v: Byte, carry: nat): (Byte, bool)
    requires i < 8 && carry < 2
  {
    match i
    case 0 => (v % 128 * 2 + v / 128, v / 128 == 1)
    case 1 => (v / 2 + v % 2 * 128, v % 2 == 1)
    case 2 => (v % 128 * 2 + carry, v / 128 == 1)
    case 3 => (v / 2 + carry * 128, v % 2 == 1)
    case 4 => (v % 128 * 2, v / 128 == 1)
    case 5 => (v / 2 + v / 128 * 128, v % 2 == 1)
    case 6 => (v % 16 * 16 + v / 16, false)
    case _ => (v / 2, v % 2 == 1)
  }

  function AddHL(s: Cpu, w: Word): Cpu {
    s.WithHL(Plus(s.HL(), w)).WithF(s.f.z, false, s.HL() % 0x1000 + w % 0x1000 >= 0x1000, s.HL() + w >= 0x10000)
  }

  // Flags of the two SP+e instructions, which add e to the low byte of SP as an unsigned byte.
  function SpFlags(s: Cpu, e: Byte): Cpu {
    s.WithF(false, false, Lo(s.sp) % 16 + e % 16 >= 0x10, Lo(s.sp) + e > 0xFF)
  }

  /* Immediate operands and the stack */

  function Advance(s: Cpu, k: nat): Cpu
    requires k <= 2
  { s.(pc := Plus(s.pc, k)) }

  function Imm8(s: Cpu, m: Bus): Byte { Read(m, s.pc) }

  function Imm16(s: Cpu, m: Bus): Word { Join(Read(m, Plus(s.pc, 1)), Read(m, s.pc)) }

  function Push(s: Cpu, w: Word): Outcome {
    Outcome(s.(sp := Plus(s.sp, -2)), [(Plus(s.sp, -1), Hi(w)), (Plus(s.sp, -2), Lo(w))])
  }

  function Top(s: Cpu, m: Bus): Word { Join(Read(m, Plus(s.sp, 1)), Read(m, s.sp)) }

  function Drop(s: Cpu): Cpu { s.(sp := Plus(s.sp, 2)) }

  function Jr(s: Cpu, m: Bus, taken: bool): Cpu {
    var s1 := Advance(s, 1);
    if taken then s1.(pc := Plus(s1.pc, Signed(Imm8(s, m)))) else s1.(busy := s.busy - 1)
  }

  function Jp(s: Cpu, m: Bus, taken: bool): Cpu {
    if taken then s.(pc := Imm16(s, m)) else Advance(s, 2).(busy := s.busy - 1)
  }

  function Call(s: Cpu, m: Bus, taken: bool): Outcome {
    var s1 := Advance(s, 2);
    if taken then Push(s1, s1.pc).(cpu := Push(s1, s1.pc).cpu.(pc := Imm16(s, m)))
    else Silent(s1.(busy := s.busy - 3))
  }

  function Ret(s: Cpu, m: Bus, taken: bool): Cpu {
    if taken then Drop(s).(pc := Top(s, m)) else s.(busy := s.busy - 3)
  }

  function Rst(s: Cpu, target: Word): Outcome {
    var o := Push(s, s.pc);
    o.(cpu := o.cpu.(pc := target))
  }

  /* Instructions, after the opcode has been fetched and charged */

  function IncDec(i: nat, s: Cpu, m: Bus, delta: int): Outcome
    requires i < 8 && (delta == 1 || delta == -1)
  {
    var before := Operand(i, s, m);
    var v := Low8(before + delta);
    var half := if delta == 1 then before % 16 == 15 else before % 16 == 0;
    var zero := (if i == 6 then ReadBack(s, m, v) else v) == 0;
    SetOperand(i, s.WithF(zero, delta == -1, half, s.f.c), v)
  }

  function ExecAccumulator(i: nat, s: Cpu): Cpu
    requires i < 8
  {
    match i
    case 4 => Daa(s)
    case 5 => s.(a := 255 - s.a).WithF(s.f.z, true, true, s.f.c)
    case 6 => s.WithF(s.f.z, false, false, true)
    case 7 => s.WithF(s.f.z, false, false, !s.f.c)
    case _ =>
      var (v, out) := Rotate(i, s.a, Carry(s));
      s.(a := v).WithF(false, false, false, out)
  }

  // LD between A and the cell at BC, DE, HL+ or HL-
  function ExecIndirect(y: nat, s: Cpu, m: Bus): Outcome
    requires y < 8
  {
    var target := if y < 2 then s.BC() else if y < 4 then s.DE() else s.HL();
    var moved := if y < 4 then s else if y < 6 then s.WithHL(Plus(s.HL(), 1)) else s.WithHL(Plus(s.HL(), -1));
    if y % 2 == 0 then Outcome(moved, [(target, s.a)])
    else Silent(moved.(a := Read(m, target)))
  }

  function ExecLow(op: Byte, s: Cpu, m: Bus): Outcome
    requires op < 0x40
  {
    var y := op / 8;
    match op % 8
    case 0 =>
      if op == 0x00 then Silent(s)
      else if op == 0x08 then
        var nn := Imm16(s, m);
        Outcome(Advance(s, 2), [(nn, Lo(s.sp)), (Plus(nn, 1), Hi(s.sp))])
      else if op == 0x10 then Silent(s.(halted := true))
      else Silent(Jr(s, m, op == 0x18 || Condition(y % 4, s.f)))
    case 1 =>
      if y % 2 == 0 then Silent(SetPair(y / 2, Advance(s, 2), Imm16(s, m)))
      else Silent(AddHL(s, Pair(y / 2, s)))
    case 2 => ExecIndirect(y, s, m)
    case 3 => Silent(SetPair(y / 2, s, Plus(Pair(y / 2, s), if y % 2 == 0 then 1 else -1)))
    case 4 => IncDec(y, s, m, 1)
    case 5 => IncDec(y, s, m, -1)
    case 6 => SetOperand(y, Advance(s, 1), Imm8(s, m))
    case _ => Silent(ExecAccumulator(y, s))
  }

  // LDH and the SP+e instructions
  function ExecPage(op: Byte, s: Cpu, m: Bus): Outcome {
    var n := Imm8(s, m);
    var s1 := Advance(s, 1);
    if op == 0xE0 then Outcome(s1, [(Join(0xFF, n), s.a)])
    else if op == 0xF0 then Silent(s1.(a := Read(m, Join(0xFF, n))))
    else
      var sum := Plus(s.sp, Signed(n));
      Silent(if op == 0xE8 then SpFlags(s1, n).(sp := sum) else SpFlags(s1, n).WithHL(sum))
  }

  function PopPair(i: nat, s: Cpu, m: Bus): Cpu
    requires i < 4
  {
    if i == 3 then Drop(s).(a := Hi(Top(s, m)), f := FlagsOf(Lo(Top(s, m))).(low := 0))
    else SetPair(i, Drop(s), Top(s, m))
  }

  function PushPair(i: nat, s: Cpu): Outcome
    requires i < 4
  {
    Push(s, if i == 3 then Join(s.a, s.f.ToByte()) else Pair(i, s))
  }

  // LD A through 0xFF00+C and through an immediate address
  function ExecAbsolute(op: Byte, s: Cpu, m: Bus): Outcome {
    if op == 0xE2 then Outcome(s, [(Join(0xFF, s.c), s.a)])
    else if op == 0xF2 then Silent(s.(a := Read(m, Join(0xFF, s.c))))
    else if op == 0xEA then Outcome(Advance(s, 2), [(Imm16(s, m), s.a)])
    else Silent(Advance(s, 2).(a := Read(m, Imm16(s, m))))
  }

  function ExecHigh(op: Byte, s: Cpu, m: Bus): Outcome
    requires op >= 0xC0 && !Undefined(op) && op != 0xCB
  {
    var y := op / 8 - 24;
    match op % 8
    case 0 => if op < 0xE0 then Silent(Ret(s, m, Condition(y, s.f))) else ExecPage(op, s, m)
    case 1 =>
      if op % 16 == 1 then Silent(PopPair(y / 2, s, m))
      else if op == 0xC9 then Silent(Ret(s, m, true))
      else if op == 0xD9 then Silent(Ret(s, m, true).(ime := true))
      else if op == 0xE9 then Silent(s.(pc := s.HL()))
      else Silent(s.(sp := s.HL()))
    case 2 => if op < 0xE0 then Silent(Jp(s, m, Condition(y, s.f))) else ExecAbsolute(op, s, m)
    case 3 => Silent(if op == 0xC3 then Jp(s, m, true) else s.(ime := op == 0xFB))
    case 4 => Call(s, m, Condition(y, s.f))
    case 5 => if op == 0xCD then Call(s, m, true) else PushPair(y / 2, s)
    case 6 => Silent(Alu(y, Advance(s, 1), Imm8(s, m)))
    case _ => Rst(s, 8 * y)
  }

  function ExecOpcode(op: Byte, s: Cpu, m: Bus): Outcome
    requires op != 0xCB
  {
    if Undefined(op) then Silent(s.(crashed := true))
    else if op < 0x40 then ExecLow(op, s, m)
    else if op == 0x76 then Silent(s.(halted := true))
    else if op < 0x80 then SetOperand(op / 8 - 8, s, Operand(op % 8, s, m))
    else if op < 0xC0 then Silent(Alu(op / 8 - 16, s, Operand(op % 8, s, m)))
    else ExecHigh(op, s, m)
  }

  function RotateOperand(y: nat, z: nat, s: Cpu, m: Bus): Outcome
    requires y < 8 && z < 8
  {
    var (r, out) := Rotate(y, Operand(z, s, m), Carry(s));
    var zero := (if y == 6 && z == 6 then ReadBack(s, m, r) else r) == 0;
    SetOperand(z, s.WithF(zero, false, false, out), r)
  }

  function ExecCb(op: Byte, s: Cpu, m: Bus): Outcome {
    var (y, z) := (op / 8 % 8, op % 8);
    var v := Operand(z, s, m);
    match op / 64
    case 0 => RotateOperand(y, z, s, m)
    case 1 => Silent(s.WithF(!Bit(v, y), false, true, s.f.c))
    case 2 => SetOperand(z, s, SetBit(v, y, false))
    case _ => SetOperand(z, s, SetBit(v, y, true))
  }

  function Execute(s: Cpu, m: Bus): Outcome {
    var op := Imm8(s, m);
    var s1 := Advance(s, 1);
    if op != 0xCB then ExecOpcode(op, s1.(busy := Charge(op)), m)
    else
      var cb := Imm8(s1, m);
      ExecCb(cb, Advance(s1, 1).(busy := ChargeCb(cb)), m)
  }

  /* Interrupts */

  // Requested and enabled
  predicate Pending(m: Bus, i: Interrupt) { Bit(m.mem[REG_IF], i.Index()) && Bit(m.mem[REG_IE], i.Index()) }

  function InterruptAt(i: nat): (j: Interrupt)
    requires i < 5
    ensures j.Index() == i
  {
    match i case 0 => VBlank case 1 => Stat case 2 => Timer case 3 => Serial case _ => JoypadEdge
  }

  // The scan goes from bit 0 upwards.
  function FirstPending(m: Bus): Option<Interrupt> {
    if Pending(m, VBlank) then Some(VBlank)
    else if Pending(m, Stat) then Some(Stat)
    else if Pending(m, Timer) then Some(Timer)
    else if Pending(m, Serial) then Some(Serial)
    else if Pending(m, JoypadEdge) then Some(JoypadEdge)
    else None
  }

  // Finding request i with none below it, and finding none at all
  lemma FirstPendingAt(m: Bus, i: nat)
    requires i <= 5 && forall j: Interrupt :: j.Index() < i ==> !Pending(m, j)
    ensures i < 5 && Pending(m, InterruptAt(i)) ==> FirstPending(m) == Some(InterruptAt(i))
    ensures i == 5 ==> FirstPending(m) == None
  {
    hide Pending;
  }

  function Vector(i: Interrupt): Word { 0x40 + 8 * i.Index() }

  // IF as the CPU rewrites it when it takes interrupt i
  function Acknowledged(m: Bus, i: Interrupt): Byte { SetBit(FiveBits(m.mem[REG_IF]), i.Index(), false) }

  function Dispatch(s: Cpu, m: Bus, i: Interrupt): Outcome {
    if !s.ime then Silent(s.(halted := false))
    else
      var o := Push(s, s.pc);
      Outcome(o.cpu.(ime := false, halted := false, pc := Vector(i), busy := 5),
              [(REG_IF, Acknowledged(m, i))] + o.stores)
  }

  predicate Listening(s: Cpu, m: Bus) { (s.ime || s.halted) && FirstPending(m).Some? }

  function Clock(s: Cpu, m: Bus): Outcome {
    if s.crashed then Silent(s)
    else if s.busy != 0 then Silent(s.(busy := s.busy - 1))
    else if Listening(s, m) then Dispatch(s, m, FirstPending(m).value)
    else if s.halted then Silent(s)
    else Execute(s, m)
  }
}
