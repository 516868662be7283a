/** The CPU object: registers updated field by field, memory through the bus. */
module CPUModule {
  import opened Bytes
  import opened Registers
  import opened Bitwise
  import opened BusSpec
  import opened Timings
  import opened AddressBusModule
  import Spec = CpuSpec
  type Flags = Spec.Flags

  const INTERRUPT_JUMP_ADDRESSES: seq<Word> := [0x40, 0x48, 0x50, 0x58, 0x60]

  class CPU {
    const bus: AddressBus

    var A: Byte
    var F: Flags
    var B: Byte
    var C: Byte
    var D: Byte
    var E: Byte
    var H: Byte
    var L: Byte
    var SP: Word
    var PC: Word
    var IME: bool
    var halted: bool
    var crashed: bool
    var busyCycles: int

    // A Gameboy loads its cartridge before the first clock, so CPU writes never throw.
    ghost predicate Valid()
      reads this, bus
    {
      bus.Valid() && bus.cart.Some?
    }

    ghost function State(): Spec.Cpu
      reads this
    {
      Spec.Cpu(A, F, B, C, D, E, H, L, SP, PC, IME, halted, crashed, busyCycles)
    }

    // The CPU has reached the registers of o, and m has received the writes of o.
    ghost predicate Reached(o: Spec.Outcome, m: Bus)
      reads this, bus, bus.memory
    {
      Valid() && State() == o.cpu && bus.State() == WriteAll(m, o.stores)
    }

    constructor (bus: AddressBus)
      ensures this.bus == bus
      ensures State() ==
        Spec.Cpu(0, Spec.Flags(false, false, false, false, 0), 0, 0, 0, 0, 0, 0, 0, 0, false, false, false, 0)
    {
      this.bus := bus;
      A, B, C, D, E, H, L := 0, 0, 0, 0, 0, 0, 0;
      F := Spec.Flags(false, false, false, false, 0);
      SP, PC, busyCycles := 0, 0, 0;
      IME, halted, crashed := false, false, false;
    }

    method Reset()
      modifies this
      ensures State() == Spec.AfterBoot(old(State()))
    {
      A, F := 0x01, Spec.Flags(false, false, false, false, 0);
      ResetPairs();
      PC, SP := 0x0100, 0xFFFE;
      busyCycles := 0;
    }

    method ResetPairs()
      modifies this
      ensures State() == old(State()).(b := 0xFF, c := 0x13, d := 0x00, e := 0xC1, h := 0x84, l := 0x03)
    {
      B, C := 0xFF, 0x13;
      D, E := 0x00, 0xC1;
      H, L := 0x84, 0x03;
    }

    /* Bus access, immediates and the stack */

    method Store(address: Word, value: Byte)
      requires Valid()
      modifies bus, bus.memory
      ensures Valid() && bus.State() == Write(old(bus.State()), address, value, FromCpu)
    {
      var thrown := bus.Write(address, value, FromCpu);
      assert !thrown;
    }

    method PopPC() returns (v: Byte)
      requires Valid()
      modifies this`PC
      ensures v == Spec.Imm8(old(State()), bus.State())
      ensures State() == Spec.Advance(old(State()), 1)
    {
      v := bus.Read(PC);
      PC := Plus(PC, 1);
    }

    method PopPC16() returns (w: Word)
      requires Valid()
      modifies this`PC
      ensures w == Spec.Imm16(old(State()), bus.State())
      ensures State() == Spec.Advance(old(State()), 2)
    {
      var lsb := PopPC();
      var msb := PopPC();
      w := Join(msb, lsb);
    }

    method PopSP16() returns (w: Word)
      requires Valid()
      modifies this`SP
      ensures w == Spec.Top(old(State()), bus.State())
      ensures State() == Spec.Drop(old(State()))
    {
      var lsb := bus.Read(SP);
      SP := Plus(SP, 1);
      var msb := bus.Read(SP);
      SP := Plus(SP, 1);
      w := Join(msb, lsb);
    }

    method Push(msb: Byte, lsb: Byte)
      requires Valid()
      modifies this`SP, bus, bus.memory
      ensures Reached(Spec.Push(old(State()), Join(msb, lsb)), old(bus.State()))
    {
      ghost var m := bus.State();
      SP := Plus(SP, -1);
      Store(SP, msb);
      SP := Plus(SP, -1);
      Store(SP, lsb);
      WriteAllTwo(m, (Plus(old(SP), -1), msb), (Plus(old(SP), -2), lsb));
    }

    method PushPCToStack()
      requires Valid()
      modifies this`SP, bus, bus.memory
      ensures Reached(Spec.Push(old(State()), old(PC)), old(bus.State()))
    {
      Push(Hi(PC), Lo(PC));
    }

    /* Branches */

    method Ret(condition: bool)
      requires Valid()
      modifies this
      ensures State() == Spec.Ret(old(State()), bus.State(), condition)
    {
      if !condition {
        busyCycles := busyCycles - 3;
        return;
      }
      PC := PopSP16();
    }

    method Jr(condition: bool)
      requires Valid()
      modifies this
      ensures State() == Spec.Jr(old(State()), bus.State(), condition)
    {
      var e := PopPC();
      if !condition {
        busyCycles := busyCycles - 1;
        return;
      }
      PC := Plus(PC, Signed(e));
    }

    method JpImm(condition: bool)
      requires Valid()
      modifies this
      ensures State() == Spec.Jp(old(State()), bus.State(), condition)
    {
      var target := PopPC16();
      if !condition {
        busyCycles := busyCycles - 1;
        return;
      }
      PC := target;
    }

    method CallImm(condition: bool)
      requires Valid()
      modifies this, bus, bus.memory
      ensures Reached(Spec.Call(old(State()), old(bus.State()), condition), old(bus.State()))
    {
      var target := PopPC16();
      if !condition {
        busyCycles := busyCycles - 3;
        return;
      }
      PushPCToStack();
      PC := target;
    }

    /* Arithmetic on A */

    method AdcRegister(v: Byte)
      modifies this`A, this`F
      ensures State() == Spec.Adc(old(State()), v)
    {
      var carry := if F.c then 1 else 0;
      var result := A + v + carry;
      F := F.(h := A % 16 + v % 16 + carry > 0xF, c := result > 0xFF);
      A := Low8(result);
      F := F.(z := A == 0, n := false);
    }

    method AddRegister(v: Byte)
      modifies this`A, this`F
      ensures State() == Spec.Adc(Spec.ClearCarry(old(State())), v)
    {
      F := F.(c := A + v > 0xFF, h := A % 16 + v % 16 >= 0x10);
      A := Low8(A + v);
      F := F.(z := A == 0, n := false);
    }

    method SbcRegister(v: Byte)
      modifies this`A, this`F
      ensures State() == Spec.Sbc(old(State()), v)
    {
      var carry := if F.c then 1 else 0;
      var result := A - v - carry;
      F := F.(h := A % 16 - v % 16 - carry < 0, c := result < 0);
      A := Low8(result);
      F := F.(z := A == 0, n := true);
    }

    method SubRegister(v: Byte)
      modifies this`A, this`F
      ensures State() == Spec.Sbc(Spec.ClearCarry(old(State())), v)
    {
      F := F.(h := A % 16 - v % 16 < 0, c := A < v);
      A := Low8(A - v);
      F := F.(z := A == 0, n := true);
    }

    method CpRegister(v: Byte)
      modifies this`F
      ensures State() == Spec.Alu(7, old(State()), v)
    {
      var result := Low8(A - v);
      F := F.(h := A % 16 - v % 16 < 0, c := v > A, z := result == 0, n := true);
    }

    method AluRegister(i: nat, v: Byte)
      requires i < 8
      modifies this`A, this`F
      ensures State() == Spec.Alu(i, old(State()), v)
    {
      hide And, Or, Xor;
      match i
      case 0 => AddRegister(v);
      case 1 => AdcRegister(v);
      case 2 => SubRegister(v);
      case 3 => SbcRegister(v);
      case 4 =>
        A := And(A, v);
        F := F.(z := A == 0, c := false, h := true, n := false);
      case 5 =>
        A := Xor(A, v);
        F := F.(z := A == 0, n := false, h := false, c := false);
      case 6 =>
        A := Or(A, v);
        F := F.(z := A == 0, c := false, h := false, n := false);
      case _ => CpRegister(v);
    }

    method DecimalAdjust()
      modifies this`A, this`F
      ensures State() == Spec.Daa(old(State()))
    {
      if !F.n {
        if F.c || A > 0x99 {
          A := Low8(A + 0x60);
          F := F.(c := true);
        }
        if F.h || A % 16 > 0x09 {
          A := Low8(A + 0x6);
        }
      } else {
        if F.c {
          A := Low8(A - 0x60);
        }
        if F.h {
          A := Low8(A - 0x6);
        }
      }
      F := F.(z := A == 0, h := false);
    }

    /* Operands */

    method GetOperand(i: nat) returns (v: Byte)
      requires Valid() && i < 8
      ensures v == Spec.Operand(i, State(), bus.State())
    {
      match i
      case 0 => v := B;
      case 1 => v := C;
      case 2 => v := D;
      case 3 => v := E;
      case 4 => v := H;
      case 5 => v := L;
      case 6 => v := bus.Read(Join(H, L));
      case _ => v := A;
    }

    method PutOperand(i: nat, v: Byte)
      requires Valid() && i < 8
      modifies this, bus, bus.memory
      ensures Reached(Spec.SetOperand(i, old(State()), v), old(bus.State()))
    {
      match i
      case 0 => B := v;
      case 1 => C := v;
      case 2 => D := v;
      case 3 => E := v;
      case 4 => H := v;
      case 5 => L := v;
      case 6 => Store(Join(H, L), v);
      case _ => A := v;
    }

    method SetHL(w: Word)
      modifies this`H, this`L
      ensures State() == old(State()).WithHL(w)
    {
      H, L := Hi(w), Lo(w);
    }

    method GetPair(i: nat) returns (w: Word)
      requires i < 4
      ensures w == Spec.Pair(i, State())
    {
      match i
      case 0 => w := Join(B, C);
      case 1 => w := Join(D, E);
      case 2 => w := Join(H, L);
      case _ => w := SP;
    }

    method PutPair(i: nat, w: Word)
      requires i < 4
      modifies this
      ensures State() == Spec.SetPair(i, old(State()), w)
    {
      match i
      case 0 => B, C := Hi(w), Lo(w);
      case 1 => D, E := Hi(w), Lo(w);
      case 2 => SetHL(w);
      case _ => SP := w;
    }

    // One store of an instruction that makes no other.
    method StoreOnly(address: Word, value: Byte)
      requires Valid()
      modifies bus, bus.memory
      ensures Valid() && bus.State() == WriteAll(old(bus.State()), [(address, value)])
    {
      Store(address, value);
    }

    /* Instructions */

    method IncrementOrDecrement(i: nat, delta: int)
      requires Valid() && i < 8 && (delta == 1 || delta == -1)
      modifies this, bus, bus.memory
      ensures Reached(Spec.IncDec(i, old(State()), old(bus.State()), delta), old(bus.State()))
    {
      if i == 6 {
        IncrementOrDecrementMemory(delta);
        return;
      }
      var before := GetOperand(i);
      var after := Low8(before + delta);
      F := F.(h := if delta == 1 then before % 16 == 15 else before % 16 == 0, z := after == 0, n := delta == -1);
      PutOperand(i, after);
    }

    // The zero flag comes from reading the cell back after the store.
    method IncrementOrDecrementMemory(delta: int)
      requires Valid() && (delta == 1 || delta == -1)
      modifies this, bus, bus.memory
      ensures Reached(Spec.IncDec(6, old(State()), old(bus.State()), delta), old(bus.State()))
    {
      hide Write, BusSpec.Read;
      var hl := Join(H, L);
      var before := bus.Read(hl);
      StoreOnly(hl, Low8(before + delta));
      var after := bus.Read(hl);
      F := F.(h := if delta == 1 then before % 16 == 15 else before % 16 == 0, z := after == 0, n := delta == -1);
    }

    method AddToHL(w: Word)
      modifies this`H, this`L, this`F
      ensures State() == Spec.AddHL(old(State()), w)
    {
      var hl := Join(H, L);
      F := F.(n := false, h := hl % 0x1000 + w % 0x1000 >= 0x1000, c := hl + w > 0xFFFF);
      SetHL(Plus(hl, w));
    }

    // RLC, RRC, RL, RR, SLA, SRA, SWAP, SRL: the new byte and the bit shifted out.
    method RotateByte(i: nat, v: Byte) returns (r: Byte, carry: bool)
      requires i < 8
      ensures (r, carry) == Spec.Rotate(i, v, if F.c then 1 else 0)
    {
      hide Or, Shl, Shr;
      var (top, bottom, c) := (BitValue(v, 7), BitValue(v, 0), if F.c then 1 else 0);
      ShlOne(v);
      ShrOne(v);
      ShlFour(v);
      ShrFour(v);
      match i
      case 0 =>
        OrBitZero(v % 128 * 2, top);
        r, carry := Or(Shl(v, 1), top), top == 1;
      case 1 =>
        BitSeven(bottom);
        OrBitSeven(v / 2, bottom);
        r, carry := Or(Shr(v, 1), Shl(bottom, 7)), bottom == 1;
      case 2 =>
        OrBitZero(v % 128 * 2, c);
        r, carry := Or(Shl(v, 1), c), top == 1;
      case 3 =>
        BitSeven(c);
        OrBitSeven(v / 2, c);
        r, carry := Or(Shr(v, 1), Shl(c, 7)), bottom == 1;
      case 4 =>
        r, carry := Shl(v, 1), top == 1;
      case 5 =>
        BitSeven(top);
        OrBitSeven(v / 2, top);
        r, carry := Or(Shr(v, 1), Shl(top, 7)), bottom == 1;
      case 6 =>
        OrNibbles(v % 16 * 16, v / 16);
        OrCommutes(Shr(v, 4), Shl(v, 4));
        r, carry := Or(Shr(v, 4), Shl(v, 4)), false;
      case _ =>
        r, carry := Shr(v, 1), bottom == 1;
    }

    method ExecAccumulator(i: nat)
      requires i < 8
      modifies this`A, this`F
      ensures State() == Spec.ExecAccumulator(i, old(State()))
    {
      match i
      case 4 => DecimalAdjust();
      case 5 =>
        A := 255 - A;
        F := F.(n := true, h := true);
      case 6 => F := F.(c := true, n := false, h := false);
      case 7 => F := F.(c := !F.c, n := false, h := false);
      case _ =>
        var carry;
        A, carry := RotateByte(i, A);
        F := F.(c := carry, z := false, n := false, h := false);
    }

    method ExecIndirect(y: nat)
      requires Valid() && y < 8
      modifies this, bus, bus.memory
      ensures Reached(Spec.ExecIndirect(y, old(State()), old(bus.State())), old(bus.State()))
    {
      var target := Join(H, L);
      if y < 2 {
        target := Join(B, C);
      } else if y < 4 {
        target := Join(D, E);
      }
      if y % 2 == 0 {
        StoreOnly(target, A);
      } else {
        A := bus.Read(target);
      }
      if y == 4 || y == 5 {
        SetHL(Plus(Join(H, L), 1));
      } else if y > 5 {
        SetHL(Plus(Join(H, L), -1));
      }
    }

    method StoreSP()
      requires Valid()
      modifies this, bus, bus.memory
      ensures Reached(Spec.ExecLow(0x08, old(State()), old(bus.State())), old(bus.State()))
    {
      ghost var m := bus.State();
      var nn := PopPC16();
      Store(nn, Lo(SP));
      Store(Plus(nn, 1), Hi(SP));
      WriteAllTwo(m, (nn, Lo(SP)), (Plus(nn, 1), Hi(SP)));
    }

    method ExecLow(op: Byte)
      requires Valid() && op < 0x40
      modifies this, bus, bus.memory
      ensures Reached(Spec.ExecLow(op, old(State()), old(bus.State())), old(bus.State()))
    {
      hide Write, BusSpec.Read, Spec.IncDec, Spec.ExecIndirect, Spec.ExecAccumulator, Spec.SetOperand, Spec.Jr;
      var y := op / 8;
      match op % 8
      case 0 =>
        if op == 0x00 {
        } else if op == 0x08 {
          StoreSP();
        } else if op == 0x10 {
          halted := true;
        } else {
          Jr(op == 0x18 || Spec.Condition(y % 4, F));
        }
      case 1 =>
        if y % 2 == 0 {
          var w := PopPC16();
          PutPair(y / 2, w);
        } else {
          var w := GetPair(y / 2);
          AddToHL(w);
        }
      case 2 => ExecIndirect(y);
      case 3 =>
        var w := GetPair(y / 2);
        PutPair(y / 2, Plus(w, if y % 2 == 0 then 1 else -1));
      case 4 => IncrementOrDecrement(y, 1);
      case 5 => IncrementOrDecrement(y, -1);
      case 6 =>
        var n := PopPC();
        PutOperand(y, n);
      case _ => ExecAccumulator(y);
    }

    method ExecPage(op: Byte)
      requires Valid()
      modifies this, bus, bus.memory
      ensures Reached(Spec.ExecPage(op, old(State()), old(bus.State())), old(bus.State()))
    {
      hide Write, BusSpec.Read;
      var n := PopPC();
      if op == 0xE0 {
        StoreOnly(Join(0xFF, n), A);
      } else if op == 0xF0 {
        A := bus.Read(Join(0xFF, n));
      } else {
        var result := Plus(SP, Signed(n));
        F := F.(n := false, z := false, h := Lo(SP) % 16 + n % 16 >= 0x10, c := Lo(SP) + n > 0xFF);
        if op == 0xE8 {
          SP := result;
        } else {
          SetHL(result);
        }
      }
    }

    method PopPair(i: nat)
      requires Valid() && i < 4
      modifies this
      ensures State() == Spec.PopPair(i, old(State()), bus.State())
    {
      var w := PopSP16();
      if i == 3 {
        F := Spec.FlagsOf(Lo(w)).(low := 0);
        A := Hi(w);
      } else {
        PutPair(i, w);
      }
    }

    method PushPair(i: nat)
      requires Valid() && i < 4
      modifies this, bus, bus.memory
      ensures Reached(Spec.PushPair(i, old(State())), old(bus.State()))
    {
      if i == 3 {
        Push(A, F.ToByte());
      } else {
        var w := GetPair(i);
        Push(Hi(w), Lo(w));
      }
    }

    method ExecAbsolute(op: Byte)
      requires Valid()
      modifies this, bus, bus.memory
      ensures Reached(Spec.ExecAbsolute(op, old(State()), old(bus.State())), old(bus.State()))
    {
      if op == 0xE2 {
        StoreOnly(Join(0xFF, C), A);
      } else if op == 0xF2 {
        A := bus.Read(Join(0xFF, C));
      } else {
        var address := PopPC16();
        if op == 0xEA {
          StoreOnly(address, A);
        } else {
          A := bus.Read(address);
        }
      }
    }

    method ExecPopOrReturn(op: Byte)
      requires Valid() && op >= 0xC0 && op % 8 == 1
      modifies this
      ensures Spec.Silent(State()) == Spec.ExecHigh(op, old(State()), bus.State())
    {
      if op % 16 == 1 {
        PopPair(op / 16 - 12);
      } else if op == 0xC9 {
        Ret(true);
      } else if op == 0xD9 {
        Ret(true);
        IME := true;
      } else if op == 0xE9 {
        PC := Join(H, L);
      } else {
        SP := Join(H, L);
      }
    }

    method ExecHigh(op: Byte)
      requires Valid() && op >= 0xC0 && !Undefined(op) && op != 0xCB
      modifies this, bus, bus.memory
      ensures Reached(Spec.ExecHigh(op, old(State()), old(bus.State())), old(bus.State()))
    {
      hide Write, BusSpec.Read, Spec.Alu, Spec.ExecPage, Spec.ExecAbsolute, Spec.Condition;
      var y := op / 8 - 24;
      match op % 8
      case 0 =>
        if op < 0xE0 {
          Ret(Spec.Condition(y, F));
        } else {
          ExecPage(op);
        }
      case 1 => ExecPopOrReturn(op);
      case 2 =>
        if op < 0xE0 {
          JpImm(Spec.Condition(y, F));
        } else {
          ExecAbsolute(op);
        }
      case 3 =>
        if op == 0xC3 {
          JpImm(true);
        } else {
          IME := op == 0xFB;
        }
      case 4 => CallImm(Spec.Condition(y, F));
      case 5 =>
        if op == 0xCD {
          CallImm(true);
        } else {
          PushPair(y / 2);
        }
      case 6 =>
        var n := PopPC();
        AluRegister(y, n);
      case _ =>
        PushPCToStack();
        PC := Join(0x00, 8 * y);
    }

    method ExecuteOpcode(op: Byte)
      requires Valid() && op != 0xCB
      modifies this, bus, bus.memory
      ensures Reached(Spec.ExecOpcode(op, old(State()).(busy := Charge(op)), old(bus.State())), old(bus.State()))
    {
      hide Write, BusSpec.Read, Spec.ExecLow, Spec.ExecHigh, Spec.Alu, Spec.SetOperand, Spec.Operand, Charge;
      busyCycles := Charge(op);
      if Undefined(op) {
        crashed := true;
      } else if op < 0x40 {
        ExecLow(op);
      } else if op == 0x76 {
        halted := true;
      } else if op < 0x80 {
        var v := GetOperand(op % 8);
        PutOperand(op / 8 - 8, v);
      } else if op < 0xC0 {
        var v := GetOperand(op % 8);
        AluRegister(op / 8 - 16, v);
      } else {
        ExecHigh(op);
      }
    }

    method ExecuteCBOpcode(op: Byte)
      requires Valid()
      modifies this, bus, bus.memory
      ensures Reached(Spec.ExecCb(op, old(State()).(busy := ChargeCb(op)), old(bus.State())), old(bus.State()))
    {
      busyCycles := ChargeCb(op);
      var (y, z) := (op / 8 % 8, op % 8);
      var v := GetOperand(z);
      match op / 64
      case 0 => RotateOperand(y, z, v);
      case 1 => F := F.(z := !Bit(v, y), n := false, h := true);
      case 2 => PutOperand(z, SetBit(v, y, false));
      case _ => PutOperand(z, SetBit(v, y, true));
    }

    method RotateOperand(y: nat, z: nat, v: Byte)
      requires Valid() && y < 8 && z < 8 && v == Spec.Operand(z, State(), bus.State())
      modifies this, bus, bus.memory
      ensures Reached(Spec.RotateOperand(y, z, old(State()), old(bus.State())), old(bus.State()))
    {
      var r, carry := RotateByte(y, v);
      if y == 6 && z == 6 {
        SwapMemory(v, r);
        return;
      }
      F := F.(c := carry, z := r == 0, n := false, h := false);
      PutOperand(z, r);
    }

    method SwapMemory(v: Byte, r: Byte)
      requires Valid() && v == Spec.Operand(6, State(), bus.State()) && r == Spec.Rotate(6, v, 0).0
      modifies this, bus, bus.memory
      ensures Reached(Spec.RotateOperand(6, 6, old(State()), old(bus.State())), old(bus.State()))
    {
      var hl := Join(H, L);
      StoreOnly(hl, r);
      var seen := bus.Read(hl);
      F := F.(c := false, z := seen == 0, n := false, h := false);
    }

    method ExecuteCurrentInstruction()
      requires Valid() && busyCycles == 0
      modifies this, bus, bus.memory
      ensures Reached(Spec.Execute(old(State()), old(bus.State())), old(bus.State()))
    {
      var op := PopPC();
      if op != 0xCB {
        ExecuteOpcode(op);
        return;
      }
      var cb := PopPC();
      ExecuteCBOpcode(cb);
    }

    /* Interrupts and the clock */

    // CPU::IF(interrupt, false)
    method Acknowledge(interrupt: Interrupt)
      requires Valid()
      modifies bus, bus.memory
      ensures Valid()
      ensures bus.State() == Write(old(bus.State()), REG_IF, Spec.Acknowledged(old(bus.State()), interrupt), FromCpu)
    {
      var flags := bus.Read(REG_IF);
      Store(REG_IF, SetBit(FiveBits(flags), interrupt.Index(), false));
    }

    method TriggerInterrupt(interrupt: Interrupt)
      requires Valid() && busyCycles == 0
      modifies this, bus, bus.memory
      ensures old(IME) ==>
        Reached(Spec.Dispatch(old(State()), old(bus.State()), interrupt).(cpu := State()), old(bus.State()))
      ensures old(IME) ==> State().(halted := false) == Spec.Dispatch(old(State()), old(bus.State()), interrupt).cpu
      ensures !old(IME) ==> Valid() && State() == old(State()) && bus.State() == old(bus.State())
    {
      hide Write, BusSpec.Read, Spec.Acknowledged;
      if !IME {
        return;
      }
      IME := false;
      Acknowledge(interrupt);
      PushPCToStack();
      WriteAllFirst(old(bus.State()), (REG_IF, Spec.Acknowledged(old(bus.State()), interrupt)),
                    Spec.Push(old(State()), old(PC)).stores);
      PC := INTERRUPT_JUMP_ADDRESSES[interrupt.Index()];
      busyCycles := 5;
    }

    method TryTriggerInterrupt() returns (triggered: bool)
      requires Valid() && busyCycles == 0
      modifies this, bus, bus.memory
      ensures triggered == Spec.Listening(old(State()), old(bus.State()))
      ensures triggered ==>
        var m := old(bus.State());
        Reached(Spec.Dispatch(old(State()), m, Spec.FirstPending(m).value), m)
      ensures !triggered ==> Valid() && State() == old(State()) && bus.State() == old(bus.State())
    {
      if !IME && !halted {
        return false;
      }
      var enabled := bus.Read(REG_IE);
      var requested := bus.Read(REG_IF);
      hide Write, BusSpec.Read, Bit, Spec.Dispatch, Spec.Vector, Spec.Acknowledged, Spec.FirstPending;
      var i := 0;
      while i != 5
        invariant 0 <= i <= 5
        invariant State() == old(State()) && bus.State() == old(bus.State()) && Valid()
        invariant forall j: Interrupt :: j.Index() < i ==> !Spec.Pending(bus.State(), j)
      {
        if Bit(requested, i) && Bit(enabled, i) {
          Spec.FirstPendingAt(bus.State(), i);
          TriggerInterrupt(Spec.InterruptAt(i));
          halted := false;
          return true;
        }
        i := i + 1;
      }
      Spec.FirstPendingAt(bus.State(), 5);
      return false;
    }

    method MachineClock()
      requires Valid() && busyCycles >= 0
      modifies this, bus, bus.memory
      ensures Reached(Spec.Clock(old(State()), old(bus.State())), old(bus.State()))
    {
      if crashed {
        return;
      }
      if busyCycles != 0 {
        busyCycles := busyCycles - 1;
        return;
      }
      var triggered := TryTriggerInterrupt();
      if triggered {
        return;
      }
      if halted {
        return;
      }
      ExecuteCurrentInstruction();
    }
  }
}
