/** The first loop of the real boot program clears video RAM, with timer and PPU running alongside. */
module BootLoop {
  import opened Bytes
  import opened Registers
  import opened Bitwise
  import opened BootImage
  import opened BusSpec
  import opened SystemSpec
  import opened Progress
  import Schedule
  import C = CpuSpec

  lemma BootBytes()
    ensures BootRom(0x00) == 0x31 && BootRom(0x01) == 0xFE && BootRom(0x02) == 0xFF // LD SP, $FFFE
    ensures BootRom(0x03) == 0xAF                                                   // XOR A
    ensures BootRom(0x04) == 0x21 && BootRom(0x05) == 0xFF && BootRom(0x06) == 0x9F // LD HL, $9FFF
    ensures BootRom(0x07) == 0x32                                                   // LD (HL-), A
    ensures BootRom(0x08) == 0xCB && BootRom(0x09) == 0x7C                          // BIT 7, H
    ensures BootRom(0x0A) == 0x20 && BootRom(0x0B) == 0xFB                          // JR NZ, $0007
  {
    assert BootRow0(0x00) == 0x31 && BootRow0(0x01) == 0xFE && BootRow0(0x02) == 0xFF;
    assert BootRow0(0x03) == 0xAF && BootRow0(0x04) == 0x21 && BootRow0(0x05) == 0xFF && BootRow0(0x06) == 0x9F;
    assert BootRow0(0x07) == 0x32 && BootRow0(0x08) == 0xCB && BootRow0(0x09) == 0x7C;
    assert BootRow0(0x0A) == 0x20 && BootRow0(0x0B) == 0xFB;
  }

  // The CPU runs undisturbed in the boot ROM.
  ghost predicate InBoot(s: System, pc: Word) {
    && Reachable(s) && BootRomEnabled(s.bus) && s.cpu.pc == pc
    && !s.cpu.ime && !s.cpu.halted && !s.cpu.crashed
  }

  // What one action in the boot ROM does, given the instruction it executes.
  lemma BootAction(s: System, pc: Word)
    requires InBoot(s, pc)
    ensures s.cpu.busy >= 0
    ensures SeesBootRom(SeenByCpu(s))
    ensures Action(s) == C.Execute(s.cpu.(busy := 0), SeenByCpu(s))
    ensures Act(s).cpu == Action(s).cpu && Reachable(Act(s))
    ensures OnlyHardware(s.bus, SeenByCpu(s)) && OnlyHardware(WriteAll(SeenByCpu(s), Action(s).stores), Act(s).bus)
  {
    var n: nat :| Schedule.Invariant(s, n);
    assert s.cpu.busy >= 0;
    hide SeenByCpu, Act, BootRom, C.Execute, C.Dispatch, C.FirstPending, Schedule.Invariant;
    ActionOutcome(s, n);
    ActReachable(s);
  }

  /* The six instructions */

  ghost predicate SeesBootRom(m: Bus) { forall a: Word :: a < BOOTROM_UPPER_BOUND ==> Read(m, a) == BootRom(a) }

  lemma ExecLdSp(s: C.Cpu, m: Bus)
    requires SeesBootRom(m) && s.pc == 0x00
    ensures C.Execute(s, m) == C.Silent(s.(pc := 0x03, sp := 0xFFFE, busy := 3))
  {
    hide Read, BootRom, C.ExecHigh, C.ExecCb, C.IncDec, C.ExecAccumulator, C.SetOperand, C.Alu, C.ExecIndirect, C.Jr;
    BootBytes();
  }

  lemma ExecXorA(s: C.Cpu, m: Bus)
    requires SeesBootRom(m) && s.pc == 0x03
    ensures C.Execute(s, m) == C.Silent(s.(pc := 0x04, a := 0, busy := 1).WithF(true, false, false, false))
  {
    hide Read, BootRom, Xor, C.ExecLow, C.ExecHigh, C.ExecCb, C.SetOperand;
    BootBytes();
    XorSelf(s.a);
  }

  lemma ExecLdHl(s: C.Cpu, m: Bus)
    requires SeesBootRom(m) && s.pc == 0x04
    ensures C.Execute(s, m) == C.Silent(s.(pc := 0x07, busy := 3).WithHL(0x9FFF))
  {
    hide Read, BootRom, C.ExecHigh, C.ExecCb, C.IncDec, C.ExecAccumulator, C.SetOperand, C.Alu, C.ExecIndirect, C.Jr;
    BootBytes();
  }

  lemma ExecStoreDown(s: C.Cpu, m: Bus)
    requires SeesBootRom(m) && s.pc == 0x07
    ensures C.Execute(s, m) == C.Outcome(s.(pc := 0x08, busy := 2).WithHL(Plus(s.HL(), -1)), [(s.HL(), s.a)])
  {
    hide Read, BootRom, C.ExecHigh, C.ExecCb, C.IncDec, C.ExecAccumulator, C.SetOperand, C.Alu, C.Jr;
    BootBytes();
  }

  lemma ExecBit7H(s: C.Cpu, m: Bus)
    requires SeesBootRom(m) && s.pc == 0x08
    ensures C.Execute(s, m) == C.Silent(s.(pc := 0x0A, busy := 2).WithF(s.h < 128, false, true, s.f.c))
  {
    hide Read, BootRom, C.ExecOpcode, C.RotateOperand, C.SetOperand;
    BootBytes();
  }

  lemma ExecJrNz(s: C.Cpu, m: Bus)
    requires SeesBootRom(m) && s.pc == 0x0A
    ensures C.Execute(s, m) == C.Silent(if s.f.z then s.(pc := 0x0C, busy := 2) else s.(pc := 0x07, busy := 3))
  {
    hide Read, BootRom, C.ExecHigh, C.ExecCb, C.IncDec, C.ExecAccumulator, C.SetOperand, C.Alu, C.ExecIndirect;
    BootBytes();
  }

  /* The same inside the machine */

  // An instruction that stores nothing leaves memory to the hardware.
  lemma SilentAction(s: System, pc: Word, next: C.Cpu)
    requires InBoot(s, pc) && s.cpu.busy >= 0 && Action(s) == C.Silent(next)
    requires !next.ime && !next.halted && !next.crashed
    ensures InBoot(Act(s), next.pc) && Act(s).cpu == next && OnlyHardware(s.bus, Act(s).bus)
  {
    hide SeenByCpu, Act, Action, Reachable;
    BootAction(s, pc);
    OnlyHardwareTransitive(s.bus, SeenByCpu(s), Act(s).bus);
  }

  function Acts(s: System, k: nat): System { if k == 0 then s else ActOrStay(Acts(s, k - 1)) }

  lemma ThreeActs(s: System)
    ensures Acts(s, 3) == ActOrStay(ActOrStay(ActOrStay(s)))
  {
    hide ActOrStay;
    assert Acts(s, 1) == ActOrStay(s);
    assert Acts(s, 2) == ActOrStay(Acts(s, 1));
  }

  lemma {:induction false} ActsAdd(s: System, j: nat, k: nat)
    ensures Acts(Acts(s, j), k) == Acts(s, j + k)
  {
    hide ActOrStay;
    if k > 0 {
      ActsAdd(s, j, k - 1);
    }
  }

  lemma Prologue(s: System)
    requires InBoot(s, 0x00)
    ensures var t := Acts(s, 3);
      && InBoot(t, 0x07) && OnlyHardware(s.bus, t.bus)
      && t.cpu.HL() == 0x9FFF && t.cpu.a == 0 && t.cpu.sp == 0xFFFE
  {
    hide SeenByCpu, Act, Action, Read, BootRom, C.Execute, OnlyHardware, Reachable, BootRomEnabled;
    ThreeActs(s);
    hide Acts;
    BootAction(s, 0x00);
    ExecLdSp(s.cpu.(busy := 0), SeenByCpu(s));
    SilentAction(s, 0x00, Action(s).cpu);
    var s1 := Act(s);
    BootAction(s1, 0x03);
    ExecXorA(s1.cpu.(busy := 0), SeenByCpu(s1));
    SilentAction(s1, 0x03, Action(s1).cpu);
    var s2 := Act(s1);
    BootAction(s2, 0x04);
    ExecLdHl(s2.cpu.(busy := 0), SeenByCpu(s2));
    SilentAction(s2, 0x04, Action(s2).cpu);
    OnlyHardwareTransitive(s.bus, s1.bus, s2.bus);
    OnlyHardwareTransitive(s.bus, s2.bus, Act(s2).bus);
  }

  lemma StoreAction(s: System, x: Word)
    requires InBoot(s, 0x07) && s.cpu.HL() == x && 0x8000 <= x < 0xA000
    ensures s.cpu.busy >= 0 && InBoot(Act(s), 0x08) && OnlyHardware(Poke(s.bus, x, s.cpu.a), Act(s).bus)
    ensures Act(s).cpu == s.cpu.(pc := 0x08, busy := 2).WithHL(x - 1)
  {
    hide SeenByCpu, Act, Action, Read, BootRom, C.Execute, Reachable;
    BootAction(s, 0x07);
    ExecStoreDown(s.cpu.(busy := 0), SeenByCpu(s));
    var m := SeenByCpu(s);
    VramWrite(m, x, s.cpu.a);
    PokeBoth(s.bus, m, x, s.cpu.a);
    OnlyHardwareTransitive(Poke(s.bus, x, s.cpu.a), Poke(m, x, s.cpu.a), Act(s).bus);
  }

  lemma VramWrite(m: Bus, x: Word, v: Byte)
    requires 0x8000 <= x < 0xA000
    ensures WriteAll(m, [(x, v)]) == Poke(m, x, v)
  {
    assert m.mem[x := v][x := v] == m.mem[x := v];
  }

  lemma PokeBoth(b: Bus, c: Bus, x: Word, v: Byte)
    requires OnlyHardware(b, c) && x < 0xA000
    ensures OnlyHardware(Poke(b, x, v), Poke(c, x, v))
  {
    forall i: Interrupt | IsRaised(Poke(b, x, v), i) ensures IsRaised(Poke(c, x, v), i) {
      assert IsRaised(b, i);
    }
  }

  // One trip round the loop: one more byte is cleared, and the loop ends below 0x8000.
  lemma Iteration(s: System, x: Word)
    requires InBoot(s, 0x07) && s.cpu.HL() == x && 0x8000 <= x < 0xA000
    ensures var t := Acts(s, 3);
      && InBoot(t, if x == 0x8000 then 0x0C else 0x07)
      && OnlyHardware(Poke(s.bus, x, s.cpu.a), t.bus)
      && t.cpu.HL() == x - 1 && t.cpu.a == s.cpu.a && t.cpu.sp == s.cpu.sp
  {
    hide SeenByCpu, Act, Action, Read, BootRom, C.Execute, OnlyHardware, Reachable, BootRomEnabled;
    ThreeActs(s);
    hide Acts;
    StoreAction(s, x);
    var s1 := Act(s);
    BootAction(s1, 0x08);
    ExecBit7H(s1.cpu.(busy := 0), SeenByCpu(s1));
    SilentAction(s1, 0x08, Action(s1).cpu);
    var s2 := Act(s1);
    BootAction(s2, 0x0A);
    ExecJrNz(s2.cpu.(busy := 0), SeenByCpu(s2));
    SilentAction(s2, 0x0A, Action(s2).cpu);
    assert s1.cpu.h == (x - 1) / 256;
    OnlyHardwareTransitive(s1.bus, s2.bus, Act(s2).bus);
    OnlyHardwareTransitive(Poke(s.bus, x, s.cpu.a), s1.bus, Act(s2).bus);
  }

  ghost predicate ZeroFrom(b: Bus, lo: Word) { forall a: Word :: lo <= a < 0xA000 ==> b.mem[a] == 0 }

  lemma OneMoreCleared(b: Bus, c: Bus, x: Word)
    requires x < 0xA000 && ZeroFrom(b, x + 1) && OnlyHardware(Poke(b, x, 0), c)
    ensures ZeroFrom(c, x)
  {
  }

  lemma LoopBody(s: System, x: Word)
    requires InBoot(s, 0x07) && s.cpu.HL() == x && 0x8000 <= x < 0xA000
    requires s.cpu.a == 0 && s.cpu.sp == 0xFFFE && ZeroFrom(s.bus, x + 1)
    ensures var t := Acts(s, 3);
      && InBoot(t, if x == 0x8000 then 0x0C else 0x07) && ZeroFrom(t.bus, x)
      && t.cpu.HL() == x - 1 && t.cpu.a == 0 && t.cpu.sp == 0xFFFE
  {
    hide Acts, Reachable, BootRomEnabled, OnlyHardware, ZeroFrom, InBoot;
    Iteration(s, x);
    OneMoreCleared(s.bus, Acts(s, 3).bus, x);
  }

  // The loop from HL = x with everything above already clear; HL is the measure.
  lemma {:induction false} Loop(s: System, x: Word)
    requires InBoot(s, 0x07) && s.cpu.HL() == x && 0x8000 <= x < 0xA000
    requires s.cpu.a == 0 && s.cpu.sp == 0xFFFE && ZeroFrom(s.bus, x + 1)
    ensures var t := Acts(s, 3 * (x - 0x7FFF));
      InBoot(t, 0x0C) && t.cpu.HL() == 0x7FFF && t.cpu.sp == 0xFFFE && ZeroFrom(t.bus, 0x8000)
    decreases x
  {
    hide Acts, InBoot, ZeroFrom;
    var t := Acts(s, 3);
    LoopBody(s, x);
    if x > 0x8000 {
      var k: nat := 3 * (x - 1 - 0x7FFF);
      Loop(t, x - 1);
      ActsAdd(s, 3, k);
      assert 3 + k == 3 * (x - 0x7FFF);
    }
  }

  // The main result: from PC 0 with IME clear, whatever video RAM held, three instructions and 0x2000
  // trips round the loop of three lead to PC 0x000C with all of video RAM zero.
  lemma BootClearsVideoRam(s: System)
    requires InBoot(s, 0x00)
    ensures var t := Acts(s, 3 + 3 * 0x2000);
      InBoot(t, 0x0C) && t.cpu.HL() == 0x7FFF && t.cpu.sp == 0xFFFE && ZeroFrom(t.bus, 0x8000)
  {
    hide Acts, Reachable, BootRomEnabled, OnlyHardware;
    Prologue(s);
    Loop(Acts(s, 3), 0x9FFF);
    ActsAdd(s, 3, 3 * 0x2000);
  }

  // In particular from power-on.
  lemma PowerOnIsInBoot(cart: Cartridge)
    ensures InBoot(PowerOn(cart), 0x00)
  {
    Schedule.PowerOnInvariant(cart);
  }

  /* The other way out of the boot ROM */

  lemma {:induction false} PokeAllLast(b: Bus, stores: seq<Store>)
    requires |stores| > 0
    ensures PokeAll(b, stores).mem[stores[|stores| - 1].0] == stores[|stores| - 1].1
    decreases |stores|
  {
    if |stores| > 1 {
      PokeAllLast(Poke(b, stores[0].0, stores[0].1), stores[1..]);
    }
  }

  lemma SkippedBus(b: Bus)
    ensures var c := BootSkipped(b);
      c.mem[REG_IE] == 0 && c.mem[BOOT_ROM_LOCK] == 1 && (b.cart.Some? ==> c.cart == b.cart)
  {
    var c := Write(b, BOOT_ROM_LOCK, 1, FromCpu);
    assert c.mem[BOOT_ROM_LOCK] == 1 && c.cart == b.cart;
    hide Write, PokeAll, BootSkipped;
    assert BootSkipped(b) == PokeAll(c, FORCED_REGISTERS) by { BootSkippedIsPokes(b); }
    Schedule.PokeAllFrame(c, FORCED_REGISTERS, BOOT_ROM_LOCK);
    PokeAllLast(c, FORCED_REGISTERS);
  }

  lemma BootSkippedIsPokes(b: Bus)
    ensures BootSkipped(b) == PokeAll(Write(b, BOOT_ROM_LOCK, 1, FromCpu), FORCED_REGISTERS)
  {
  }

  lemma NothingEnabled(b: Bus)
    requires b.mem[REG_IE] == 0
    ensures C.FirstPending(b).None?
  {
  }

  // Skipping the boot ROM hands over to the cartridge: the boot ROM is no longer visible, no interrupt is
  // enabled, and the byte at 0x0100 is executed next unless the CPU had stopped before.
  lemma SkipBootHandsOver(s: System, n: nat)
    requires Schedule.Invariant(s, n)
    ensures var (t, cart) := (Step(s, SkipBoot), s.bus.cart.value);
      && (forall a: Word :: a < CART_ROM_UPPER_BOUND ==> Read(t.bus, a) == cart.answer(cart.received, a))
      && t.cpu.sp == 0xFFFE && C.FirstPending(t.bus).None? && t.cpu.busy == 0
      && (forall op: Byte ::
            Executes(t, op) <==> !s.cpu.crashed && !s.cpu.halted && op == cart.answer(cart.received, 0x0100))
  {
    hide BootSkipped, C.FirstPending, Bit, BootRom, Joypad;
    var t := Step(s, SkipBoot);
    SkippedBus(s.bus);
    NothingEnabled(t.bus);
    NothingEnabled(SeenByCpu(t));
  }

  lemma {:induction false} PokeAllAt(b: Bus, stores: seq<Store>, i: nat)
    requires i < |stores| && forall j :: i < j < |stores| ==> stores[j].0 != stores[i].0
    ensures PokeAll(b, stores).mem[stores[i].0] == stores[i].1
    decreases |stores|
  {
    var c := Poke(b, stores[0].0, stores[0].1);
    if i == 0 {
      Schedule.PokeAllFrame(c, stores[1..], stores[0].0);
    } else {
      PokeAllAt(c, stores[1..], i - 1);
    }
  }

  // The CPU as a game finds it: A 0x01, F 0, BC 0xFF13, DE 0x00C1, HL 0x8403, SP 0xFFFE and PC 0x0100. Whether it
  // was halted, crashed or listening does not change.
  lemma SkippedCpu(s: System)
    ensures Step(s, SkipBoot).cpu ==
      C.Cpu(0x01, C.Flags(false, false, false, false, 0), 0xFF, 0x13, 0x00, 0xC1, 0x84, 0x03,
            0xFFFE, 0x0100, s.cpu.ime, s.cpu.halted, s.cpu.crashed, 0)
  {
    hide BootSkipped, Tick, SetJoypadTo;
  }

  // The hardware registers as a game finds them.
  lemma SkippedRegisters(b: Bus)
    ensures var m := BootSkipped(b).mem;
      && m[0xFF00] == 0xCF && m[0xFF01] == 0x00 && m[0xFF02] == 0x7E && m[0xFF04] == 0x18
      && m[0xFF05] == 0x00 && m[0xFF06] == 0x00 && m[0xFF07] == 0xF8 && m[0xFF0F] == 0xE1
      && m[0xFF40] == 0x91 && m[0xFF42] == 0x00 && m[0xFF43] == 0x00 && m[0xFF46] == 0xFF
      && m[0xFF47] == 0xFC && m[0xFF4A] == 0x00 && m[0xFF4B] == 0x00 && m[0xFFFF] == 0x00 && m[0xFF50] == 0x01
  {
    hide PokeAll, Write;
    var c := Write(b, BOOT_ROM_LOCK, 1, FromCpu);
    SkippedBus(b);
    forall i: nat | i < 16 ensures PokeAll(c, FORCED_REGISTERS).mem[FORCED_REGISTERS[i].0] == FORCED_REGISTERS[i].1 {
      DistinctRegisters(i);
      PokeAllAt(c, FORCED_REGISTERS, i);
    }
    hide BootSkipped;
    BootSkippedIsPokes(b);
    ForcedValues(BootSkipped(b));
  }

  lemma DistinctRegisters(i: nat)
    requires i < 16
    ensures forall j :: i < j < 16 ==> FORCED_REGISTERS[j].0 != FORCED_REGISTERS[i].0
  {
  }

  lemma ForcedValues(b: Bus)
    requires forall i: nat :: i < 16 ==> b.mem[FORCED_REGISTERS[i].0] == FORCED_REGISTERS[i].1
    ensures var m := b.mem;
      && m[0xFF00] == 0xCF && m[0xFF01] == 0x00 && m[0xFF02] == 0x7E && m[0xFF04] == 0x18
      && m[0xFF05] == 0x00 && m[0xFF06] == 0x00 && m[0xFF07] == 0xF8 && m[0xFF0F] == 0xE1
      && m[0xFF40] == 0x91 && m[0xFF42] == 0x00 && m[0xFF43] == 0x00 && m[0xFF46] == 0xFF
      && m[0xFF47] == 0xFC && m[0xFF4A] == 0x00 && m[0xFF4B] == 0x00 && m[0xFFFF] == 0x00
  {
    var r := FORCED_REGISTERS;
    assert r[0] == (0xFF00, 0xCF) && r[1] == (0xFF01, 0x00) && r[2] == (0xFF02, 0x7E) && r[3] == (0xFF04, 0x18);
    assert r[4] == (0xFF05, 0x00) && r[5] == (0xFF06, 0x00) && r[6] == (0xFF07, 0xF8) && r[7] == (0xFF0F, 0xE1);
    assert r[8] == (0xFF40, 0x91) && r[9] == (0xFF42, 0x00) && r[10] == (0xFF43, 0x00) && r[11] == (0xFF46, 0xFF);
    assert r[12] == (0xFF47, 0xFC) && r[13] == (0xFF4A, 0x00) && r[14] == (0xFF4B, 0x00) && r[15] == (0xFFFF, 0x00);
  }
}
