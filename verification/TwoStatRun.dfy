/** A run from power-on in which one line requests two STAT interrupts: a five-byte cartridge program. */
module TwoStatRun {
  import opened Bytes
  import opened Registers
  import opened BusSpec
  import opened SystemSpec
  import opened Progress
  import opened History
  import opened StatLines
  import BootLoop
  import Response
  import Schedule
  import T = TimerSpec
  import C = CpuSpec
  import P = PpuSpec

  // LD A, $28; LDH ($41), A; and an undefined opcode, which freezes the CPU with modes 0 and 2 enabled.
  const PROGRAM: seq<Byte> := [0x3E, 0x28, 0xE0, 0x41, 0xD3]

  function Answer(received: seq<Store>, a: Word): Byte { if 0x100 <= a < 0x105 then PROGRAM[a - 0x100] else 0 }

  const CART := Cartridge(Answer, [])

  /* The program runs */

  ghost predicate Running(s: System, n: nat, pc: Word, busy: nat) {
    && Schedule.Invariant(s, n) && s.bus.cart == Some(CART)
    && s.cpu.pc == pc && s.cpu.busy == busy && !s.cpu.ime && !s.cpu.halted && !s.cpu.crashed
  }

  lemma ReadsProgram(m: Bus, a: Word)
    requires m.cart == Some(CART) && 0x100 <= a < 0x105
    ensures Read(m, a) == PROGRAM[a - 0x100]
  {
  }

  lemma ProgramAction(s: System, n: nat, pc: Word, busy: nat)
    requires Running(s, n, pc, busy)
    ensures SeenByCpu(s).cart == Some(CART)
    ensures Action(s) == C.Execute(s.cpu.(busy := 0), SeenByCpu(s))
    ensures Act(s).cpu == Action(s).cpu && Schedule.Invariant(Act(s), n + busy + 1)
    ensures OnlyHardware(WriteAll(SeenByCpu(s), Action(s).stores), Act(s).bus)
  {
    hide SeenByCpu, Act, C.Execute, C.Dispatch, C.FirstPending, Schedule.Invariant;
    ActionOutcome(s, n);
  }

  lemma ExecLdA(s: C.Cpu, m: Bus)
    requires m.cart == Some(CART) && s.pc == 0x100
    ensures C.Execute(s, m) == C.Silent(s.(pc := 0x102, a := 0x28, busy := 2))
  {
    ReadsProgram(m, 0x100);
    ReadsProgram(m, 0x101);
    hide Read, C.ExecOpcode, C.ExecCb;
    LoadImmediate(s.(pc := 0x101, busy := 2), m);
  }

  lemma LoadImmediate(s: C.Cpu, m: Bus)
    ensures C.ExecOpcode(0x3E, s, m) == C.Silent(C.Advance(s, 1).(a := C.Imm8(s, m)))
  {
    hide Read, C.IncDec, C.ExecAccumulator, C.ExecIndirect, C.Jr, C.AddHL, C.SetPair, C.Pair, C.Imm16;
    hide C.ExecHigh, C.Alu;
  }

  lemma ExecLdh(s: C.Cpu, m: Bus)
    requires m.cart == Some(CART) && s.pc == 0x102
    ensures C.Execute(s, m) == C.Outcome(s.(pc := 0x104, busy := 2), [(REG_STAT, s.a)])
  {
    ReadsProgram(m, 0x102);
    ReadsProgram(m, 0x103);
    hide Read, C.ExecOpcode, C.ExecCb;
    StoreHigh(s.(pc := 0x103, busy := 2), m);
  }

  lemma StoreHigh(s: C.Cpu, m: Bus)
    ensures C.ExecOpcode(0xE0, s, m) == C.Outcome(C.Advance(s, 1), [(Join(0xFF, C.Imm8(s, m)), s.a)])
  {
    hide Read, C.ExecLow, C.Alu, C.Ret, C.PopPair, C.Jp, C.ExecAbsolute, C.Call, C.PushPair, C.Rst;
  }

  lemma ExecUndefined(s: C.Cpu, m: Bus)
    requires m.cart == Some(CART) && s.pc == 0x104
    ensures C.Execute(s, m).cpu.crashed && C.Execute(s, m).stores == []
  {
    ReadsProgram(m, 0x104);
    hide Read, C.ExecLow, C.ExecHigh, C.ExecCb, C.Alu;
  }

  lemma Started()
    ensures Running(Run(PowerOn(CART), [SkipBoot]), 0, 0x100, 0)
  {
    var s := PowerOn(CART);
    Schedule.PowerOnInvariant(CART);
    Schedule.SkipBootKeepsInvariant(s, 0);
    BootLoop.SkippedBus(s.bus);
    hide BootSkipped, Schedule.Invariant;
    assert [SkipBoot][..0] == [];
    assert Run(s, [SkipBoot]) == Step(s, SkipBoot);
  }

  /* The enable bits of STAT survive everything but a write of the CPU */

  ghost predicate SameEnables(b: Bus, c: Bus) { c.mem[REG_STAT] / 8 == b.mem[REG_STAT] / 8 }

  lemma EnterModeKeepsEnables(p: P.Ppu, b: Bus, m: P.Mode)
    ensures SameEnables(b, P.EnterMode(p, b, m).bus)
  {
    hide RaiseAll, Bit;
    P.RaiseAllKeepsDisplay(P.WithMode(b, m), P.EnterMode(p, b, m).requests);
  }

  lemma LineEndKeepsEnables(p: P.Ppu, b: Bus)
    ensures SameEnables(b, P.LineEnd(p, b).bus)
  {
    hide P.EnterMode, P.LycHit;
    var b1 := Poke(b, REG_LY, P.NextLine(b.mem[REG_LY]));
    EnterModeKeepsEnables(p, b1, P.OamScan);
    EnterModeKeepsEnables(p, b1, P.Mode.VBlank);
    var o := P.LineStart(p, b);
    assert SameEnables(b, o.bus);
    P.RaiseAllKeepsDisplay(o.bus, P.StatRequest(o.ppu, P.LycHit(o.bus)));
  }

  lemma PpuKeepsEnables(p: P.Ppu, b: Bus)
    ensures SameEnables(b, P.Clock(p, b).bus)
  {
    hide P.DrawLine, P.AddSprite, P.EnterMode, P.LineEnd;
    var p1 := p.(counter := (p.counter + 1) % 0x100);
    var oam := P.AddSprite(b, P.AddSprite(b, p.oam, 2 * p.counter), 2 * p.counter + 1);
    EnterModeKeepsEnables(p1.(oam := oam), b, P.Drawing);
    EnterModeKeepsEnables(p1, b, P.HBlank);
    LineEndKeepsEnables(p1.(counter := 0), b);
  }

  // A clock in which the CPU writes nothing
  lemma SilentTick(s: System)
    requires CpuPart(s).stores == []
    ensures SameEnables(s.bus, AfterCpu(s)) && SameEnables(s.bus, Tick(s).bus)
  {
    hide C.Clock, P.Clock;
    PpuKeepsEnables(s.ppu, AfterCpu(s));
  }

  /* From the write on, modes 0 and 2 stay enabled */

  ghost predicate Armed(b: Bus) { b.mem[REG_STAT] / 8 == 5 }

  // The CPU is about to freeze, or has.
  ghost predicate Freezing(s: System, n: nat) {
    && Schedule.Invariant(s, n) && Armed(s.bus) && s.bus.cart == Some(CART)
    && (s.cpu.crashed || Running(s, n, 0x104, s.cpu.busy))
  }

  lemma FreezingTick(s: System, n: nat)
    requires Freezing(s, n)
    ensures Freezing(Tick(s), n + 1) && Armed(AfterCpu(s))
  {
    hide P.Clock, T.Clock, C.Execute, C.FirstPending, Schedule.Invariant;
    Schedule.TickKeepsInvariant(s, n);
    TickOnlyHardware(s, n);
    if !s.cpu.crashed {
      ExecUndefined(s.cpu, TimerPart(s).bus);
    }
    SilentTick(s);
  }

  lemma {:induction false} StaysFreezing(s: System, n: nat, k: nat)
    requires Freezing(s, n)
    ensures Freezing(Ticks(s, k), n + k) && Armed(AfterCpu(Ticks(s, k)))
  {
    hide Tick, Freezing, AfterCpu;
    if k == 0 {
      FreezingTick(s, n);
    } else {
      StaysFreezing(s, n, k - 1);
      FreezingTick(Ticks(s, k - 1), n + k - 1);
      FreezingTick(Ticks(s, k), n + k);
    }
  }

  // Four clocks after the boot ROM was skipped the write has been made.
  lemma FourClocks(s: System)
    requires Running(s, 0, 0x100, 0)
    ensures Freezing(Ticks(s, 4), 4)
  {
    hide Act, SeenByCpu, Action, C.Execute, Schedule.Invariant, Write;
    ProgramAction(s, 0, 0x100, 0);
    ExecLdA(s.cpu.(busy := 0), SeenByCpu(s));
    var t := Act(s);
    ProgramAction(t, 1, 0x102, 2);
    ExecLdh(t.cpu.(busy := 0), SeenByCpu(t));
    WriteStat(SeenByCpu(t));
    ActArms(t);
    ActsAreTicks(s, t);
  }

  lemma WriteStat(b: Bus)
    ensures var c := WriteAll(b, [(REG_STAT, 0x28)]);
      c.cart == b.cart && Armed(c)
  {
  }

  lemma ActsAreTicks(s: System, t: System)
    requires s.cpu.busy == 0 && t == Act(s) && t.cpu.busy == 2
    ensures Act(t) == Ticks(s, 4)
  {
    TicksAdd(s, 1, 3);
  }

  lemma {:induction false} TicksAdd(s: System, j: nat, k: nat)
    ensures Ticks(Ticks(s, j), k) == Ticks(s, j + k)
  {
    hide Tick;
    if k > 0 {
      TicksAdd(s, j, k - 1);
    }
  }

  lemma ActArms(t: System)
    requires Running(t, 1, 0x102, 2) && Action(t).stores == [(REG_STAT, 0x28)]
    ensures Armed(Act(t).bus)
  {
    hide Tick, SeenByCpu, C.Clock, P.Clock, T.Clock, Write, Schedule.Invariant;
    var u := Ticks(t, 2);
    Countdown(t, 1, 2);
    StoringTick(t, u);
  }

  lemma StoringTick(t: System, u: System)
    requires t.cpu.busy == 2 && u == Ticks(t, 2) && u.cpu == t.cpu.(busy := 0)
    requires Action(t).stores == [(REG_STAT, 0x28)]
    ensures Armed(Act(t).bus)
  {
    hide C.Clock, P.Clock, T.Clock, Write;
    assert Act(t) == Tick(u) && AfterCpu(u) == WriteAll(TimerPart(u).bus, [(REG_STAT, 0x28)]);
    WriteStat(TimerPart(u).bus);
    PpuKeepsEnables(u.ppu, AfterCpu(u));
  }

  /* Runs of clocks only */

  function Beats(k: nat): seq<Event> { seq(k, _ => MachineClock) }

  lemma {:induction false} BeatsAreTicks(s: System, k: nat)
    ensures Run(s, Beats(k)) == Ticks(s, k) && Clocks(Beats(k)) == k
    ensures |Moments(s, Beats(k))| == k
    ensures forall j: nat :: j < k ==> Moments(s, Beats(k))[j] == Moment(Ticks(s, j).ppu, AfterCpu(Ticks(s, j)))
  {
    hide Tick, AfterCpu;
    if k > 0 {
      BeatsAreTicks(s, k - 1);
      assert Beats(k)[..k - 1] == Beats(k - 1);
    }
  }

  // 17555 clocks after the boot ROM was skipped, at the end of line 153, the request of a line is unused.
  lemma ArmedAtFrameEnd(s: System)
    requires Running(s, 0, 0x100, 0)
    ensures var u := Ticks(s, 17555); Freezing(u, 17555) && !u.ppu.statRequested
  {
    hide Tick, Freezing, Lives, AfterCpu, Act;
    FourClocks(s);
    var (t, v) := (Ticks(s, 4), Ticks(s, 17441));
    TicksAdd(s, 4, 17437);
    TicksAdd(s, 4, 17551);
    TicksAdd(s, 17441, 114);
    StaysFreezing(t, 4, 17437);
    StaysFreezing(t, 4, 17551);
    FlagDrops(v);
  }

  // Line 153 of an armed machine starts with the flag down and keeps it so.
  lemma FlagDrops(v: System)
    requires Freezing(v, 17441)
    ensures !Ticks(v, 114).ppu.statRequested
  {
    hide Tick, AfterCpu, P.Clock, InOrder, Schedule.Invariant;
    var h := Moments(v, Beats(114));
    BeatsAreTicks(v, 114);
    RunLives(v, Beats(114), 17441);
    StatProgress(v.ppu, h, 17441, 152, 114);
    StaysFreezing(v, 17441, 0);
    InOrderIsConsistent(h[63].ppu, h[63].bus, 17441 + 63, 17441, 152, 63);
    ArmedBits(h[0].bus);
  }

  lemma ArmedBits(b: Bus)
    requires Armed(b)
    ensures Bit(b.mem[REG_STAT], 3) && Bit(b.mem[REG_STAT], 5) && !Bit(b.mem[REG_STAT], 6) && !HitsLyc(b)
  {
  }

  // From power-on, with the boot ROM skipped: line 0 of the second frame requests two STAT interrupts.
  lemma TwoRequestsOnLineZero()
    ensures var s := Run(Run(PowerOn(CART), [SkipBoot]), Beats(17555));
      && EndsLine(17555, 153) && Schedule.Invariant(s, 17555)
      && Clocks(Beats(114)) == 114
      && Response.PpuRequests(s, Beats(114), Stat) == 2
  {
    hide Tick, AfterCpu, Lives, P.Clock, HitsLyc, Schedule.Invariant;
    Started();
    var s0 := Run(PowerOn(CART), [SkipBoot]);
    var s := Ticks(s0, 17555);
    BeatsAreTicks(s0, 17555);
    ArmedAtFrameEnd(s0);
    BeatsAreTicks(s, 114);
    StaysFreezing(s, 17555, 0);
    StaysFreezing(s, 17555, 63);
    var h := Moments(s, Beats(114));
    ArmedBits(h[0].bus);
    ArmedBits(h[63].bus);
    TwoPerLine(s, Beats(114), 17555, 153);
  }
}
