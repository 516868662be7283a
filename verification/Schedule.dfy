/** What holds in every reachable state, whatever program runs and whatever the user does. */
module Schedule {
  import opened Bytes
  import opened Registers
  import opened BusSpec
  import opened SystemSpec
  import T = TimerSpec
  import C = CpuSpec
  import P = PpuSpec
  import CycleAccounting

  /* The PPU's half of the registers is safe from everybody else */

  // LY, the mode bits and the LYC bit
  ghost predicate SameDisplayState(b: Bus, c: Bus) {
    c.mem[REG_LY] == b.mem[REG_LY] && c.mem[REG_STAT] % 8 == b.mem[REG_STAT] % 8
  }

  lemma WriteKeepsDisplayState(b: Bus, a: Word, v: Byte, who: Component)
    requires who != FromPpu
    ensures SameDisplayState(b, Write(b, a, v, who))
  {
  }

  lemma {:induction false} WriteAllKeepsDisplayState(b: Bus, stores: seq<Store>)
    ensures SameDisplayState(b, WriteAll(b, stores))
    decreases |stores|
  {
    if stores == [] {
    } else {
      var (a, v) := stores[0];
      WriteKeepsDisplayState(b, a, v, FromCpu);
      WriteAllKeepsDisplayState(Write(b, a, v, FromCpu), stores[1..]);
    }
  }

  lemma TimerKeepsDisplayState(s: System)
    ensures SameDisplayState(s.bus, TimerPart(s).bus)
  {
  }

  lemma SameModeIfSameState(b: Bus, c: Bus)
    requires SameDisplayState(b, c)
    ensures P.ModeOf(b) == P.ModeOf(c)
  {
    assert b.mem[REG_STAT] % 4 == b.mem[REG_STAT] % 8 % 4;
    assert c.mem[REG_STAT] % 4 == c.mem[REG_STAT] % 8 % 4;
  }

  /* The schedule in closed form */

  // After n clocks the line, the clock within the line, the mode and the frame count depend on n alone.
  ghost predicate OnSchedule(p: P.Ppu, b: Bus, n: nat) {
    && b.mem[REG_LY] == n % FRAME_CLOCKS / LINE_CLOCKS
    && p.counter == n % FRAME_CLOCKS % LINE_CLOCKS
    && P.ModeOf(b) == P.ScheduledMode(b.mem[REG_LY], p.counter)
    && p.frames == n / FRAME_CLOCKS % P.FRAME_WRAP
  }

  // The next clock in closed form: one further along the line, the next line, or the next frame.
  lemma NextClock(n: nat)
    ensures var (t, u) := (n % FRAME_CLOCKS, (n + 1) % FRAME_CLOCKS);
      && t / LINE_CLOCKS < FRAME_LINES
      && u / LINE_CLOCKS == (if t % LINE_CLOCKS + 1 < LINE_CLOCKS then t / LINE_CLOCKS else P.NextLine(t / LINE_CLOCKS))
      && u % LINE_CLOCKS == (if t % LINE_CLOCKS + 1 < LINE_CLOCKS then t % LINE_CLOCKS + 1 else 0)
      && (n + 1) / FRAME_CLOCKS == n / FRAME_CLOCKS + (if t == FRAME_CLOCKS - 1 then 1 else 0)
      && (t == FRAME_CLOCKS - 1 <==> t / LINE_CLOCKS == 153 && t % LINE_CLOCKS == 113)
  {
    var t := n % FRAME_CLOCKS;
    NextRemainder(n);
    NextClockOfLine(t);
  }

  lemma NextRemainder(n: nat)
    ensures (n + 1) % FRAME_CLOCKS == (if n % FRAME_CLOCKS == FRAME_CLOCKS - 1 then 0 else n % FRAME_CLOCKS + 1)
    ensures (n + 1) / FRAME_CLOCKS == n / FRAME_CLOCKS + (if n % FRAME_CLOCKS == FRAME_CLOCKS - 1 then 1 else 0)
  {
  }

  lemma NextClockOfLine(t: nat)
    requires t < FRAME_CLOCKS
    ensures t / LINE_CLOCKS < FRAME_LINES
    ensures t % LINE_CLOCKS + 1 < LINE_CLOCKS ==>
      (t + 1) / LINE_CLOCKS == t / LINE_CLOCKS && (t + 1) % LINE_CLOCKS == t % LINE_CLOCKS + 1
    ensures t % LINE_CLOCKS + 1 == LINE_CLOCKS ==>
      (t + 1) / LINE_CLOCKS == t / LINE_CLOCKS + 1 && (t + 1) % LINE_CLOCKS == 0
    ensures t == FRAME_CLOCKS - 1 <==> t / LINE_CLOCKS == 153 && t % LINE_CLOCKS == 113
  {
  }

  lemma PpuClockAdvancesSchedule(p: P.Ppu, b: Bus, n: nat)
    requires OnSchedule(p, b, n) && P.BufferConsistent(p, b)
    ensures P.Consistent(p, b)
    ensures OnSchedule(P.Clock(p, b).ppu, P.Clock(p, b).bus, n + 1)
    ensures P.BufferConsistent(P.Clock(p, b).ppu, P.Clock(p, b).bus)
  {
    NextClock(n);
    P.ClockSteps(p, b);
    StepMovesOn(p, b, P.Clock(p, b), n);
  }

  lemma StepMovesOn(p: P.Ppu, b: Bus, o: P.Outcome, n: nat)
    requires OnSchedule(p, b, n) && P.StepsTo(p, b, o)
    ensures OnSchedule(o.ppu, o.bus, n + 1)
  {
    NextClock(n);
    NextFrame(n / FRAME_CLOCKS);
  }

  lemma NextFrame(f: nat)
    ensures (f + 1) % P.FRAME_WRAP == (f % P.FRAME_WRAP + 1) % P.FRAME_WRAP
  {
  }

  /* The invariant of every run */

  ghost predicate Invariant(s: System, n: nat) {
    && OnSchedule(s.ppu, s.bus, n)
    && P.BufferConsistent(s.ppu, s.bus)
    && EchoCoherent(s.bus.mem)
    && s.cpu.f.low == 0 && s.cpu.busy >= 0
    && s.bus.cart.Some?
  }

  lemma {:induction false} WriteAllKeepsCartridge(b: Bus, stores: seq<Store>)
    requires b.cart.Some?
    ensures WriteAll(b, stores).cart.Some?
    decreases |stores|
  {
    if stores != [] {
      WriteAllKeepsCartridge(Write(b, stores[0].0, stores[0].1, FromCpu), stores[1..]);
    }
  }

  lemma TimerKeepsCartridge(s: System)
    ensures TimerPart(s).bus.cart == s.bus.cart
  {
  }

  // What the PPU sees after the timer and the CPU is still on schedule.
  lemma CpuCannotDisturb(s: System, n: nat)
    requires OnSchedule(s.ppu, s.bus, n) && P.BufferConsistent(s.ppu, s.bus)
    ensures OnSchedule(s.ppu, AfterCpu(s), n) && P.BufferConsistent(s.ppu, AfterCpu(s))
    ensures P.Consistent(s.ppu, AfterCpu(s))
  {
    TimerKeepsDisplayState(s);
    WriteAllKeepsDisplayState(TimerPart(s).bus, CpuPart(s).stores);
    SameModeIfSameState(s.bus, AfterCpu(s));
    PpuClockAdvancesSchedule(s.ppu, AfterCpu(s), n);
  }

  lemma TickKeepsSchedule(s: System, n: nat)
    requires OnSchedule(s.ppu, s.bus, n) && P.BufferConsistent(s.ppu, s.bus)
    ensures OnSchedule(Tick(s).ppu, Tick(s).bus, n + 1) && P.BufferConsistent(Tick(s).ppu, Tick(s).bus)
  {
    CpuCannotDisturb(s, n);
    PpuClockAdvancesSchedule(s.ppu, AfterCpu(s), n);
  }

  lemma TickKeepsEcho(s: System, n: nat)
    requires Invariant(s, n)
    ensures EchoCoherent(Tick(s).bus.mem) && Tick(s).bus.cart.Some?
  {
    assert EchoCoherent(TimerPart(s).bus.mem) && TimerPart(s).bus.cart.Some?;
    WriteAllKeepsEcho(TimerPart(s).bus, CpuPart(s).stores);
    WriteAllKeepsCartridge(TimerPart(s).bus, CpuPart(s).stores);
    CpuCannotDisturb(s, n);
    P.ClockSteps(s.ppu, AfterCpu(s));
  }

  lemma TickKeepsInvariant(s: System, n: nat)
    requires Invariant(s, n)
    ensures Invariant(Tick(s), n + 1)
  {
    TickKeepsSchedule(s, n);
    TickKeepsEcho(s, n);
    CycleAccounting.ClockKeepsFlags(s.cpu, TimerPart(s).bus);
    CycleAccounting.ClockKeepsBusy(s.cpu, TimerPart(s).bus);
  }

  // Everything the components rely on during a clock.
  lemma TickIsSafe(s: System, n: nat)
    requires Invariant(s, n)
    ensures s.cpu.busy >= 0 && TimerPart(s).bus.cart.Some? && Tick(s).bus.cart.Some?
    ensures P.Consistent(s.ppu, AfterCpu(s))
    ensures Invariant(Tick(s), n + 1)
  {
    hide T.Clock, C.Clock, P.Clock;
    CpuCannotDisturb(s, n);
    TimerKeepsCartridge(s);
    TickKeepsInvariant(s, n);
  }

  lemma JoypadKeepsInvariant(s: System, v: Byte, n: nat)
    requires Invariant(s, n)
    ensures Invariant(Step(s, SetJoypad(v)), n)
  {
  }

  lemma {:induction false} PokeAllFrame(b: Bus, stores: seq<Store>, a: Word)
    requires forall i :: 0 <= i < |stores| ==> stores[i].0 != a
    ensures PokeAll(b, stores).mem[a] == b.mem[a] && PokeAll(b, stores).cart == b.cart
    decreases |stores|
  {
    if stores == [] {
    } else {
      PokeAllFrame(Poke(b, stores[0].0, stores[0].1), stores[1..], a);
    }
  }

  // Skipping the boot ROM forces registers, but neither LY nor STAT nor anything that is echoed.
  lemma SkipBootKeepsInvariant(s: System, n: nat)
    requires Invariant(s, n)
    ensures Invariant(Step(s, SkipBoot), n)
  {
    var b := Write(s.bus, BOOT_ROM_LOCK, 1, FromCpu);
    forall a: Word | a < 0xFF00 || a == REG_LY || a == REG_STAT
      ensures BootSkipped(s.bus).mem[a] == s.bus.mem[a] && BootSkipped(s.bus).cart == s.bus.cart
    {
      PokeAllFrame(b, FORCED_REGISTERS, a);
    }
  }

  lemma StepKeepsInvariant(s: System, e: Event, n: nat)
    requires Invariant(s, n)
    ensures Invariant(Step(s, e), n + if e == MachineClock then 1 else 0)
  {
    match e
    case MachineClock => TickKeepsInvariant(s, n);
    case SetJoypad(v) => JoypadKeepsInvariant(s, v, n);
    case SkipBoot => SkipBootKeepsInvariant(s, n);
  }

  lemma PowerOnInvariant(cart: Cartridge)
    ensures Invariant(PowerOn(cart), 0)
  {
  }

  // The main result: every run, of any program and any sequence of user events, stays on schedule,
  // keeps work RAM and its echo equal and never leaves the CPU with a negative countdown.
  lemma {:induction false} EveryRun(cart: Cartridge, es: seq<Event>)
    ensures Invariant(Run(PowerOn(cart), es), Clocks(es))
  {
    if |es| == 0 {
      PowerOnInvariant(cart);
    } else {
      EveryRun(cart, es[..|es| - 1]);
      StepKeepsInvariant(Run(PowerOn(cart), es[..|es| - 1]), es[|es| - 1], Clocks(es[..|es| - 1]));
    }
  }

  // The same in numbers: LY at 0xFF44, the mode in the low bits of STAT at 0xFF41 (2 for 20 clocks, 3 for 43 and 0
  // for 51 on a visible line, 1 below them), and the frames drawn so far.
  lemma EveryRunInNumbers(cart: Cartridge, es: seq<Event>)
    ensures var (s, t) := (Run(PowerOn(cart), es), Clocks(es) % 17556);
      && s.bus.mem[0xFF44] == t / 114
      && s.bus.mem[0xFF41] % 4 ==
         (if t >= 16416 then 1 else if t % 114 < 20 then 2 else if t % 114 < 63 then 3 else 0)
      && s.ppu.frames == Clocks(es) / 17556 % 0x1_0000_0000_0000_0000
      && forall a :: 0xC000 <= a < 0xDE00 ==> s.bus.mem[a] == s.bus.mem[a + 0x2000]
  {
    hide Run, PowerOn, Clocks, P.BufferConsistent;
    EveryRun(cart, es);
    var t := Clocks(es) % 17556;
    assert t >= 16416 <==> t / 114 >= 144;
    ModeInNumbers(Run(PowerOn(cart), es).bus);
  }

  lemma ModeInNumbers(b: Bus)
    ensures b.mem[0xFF41] % 4 == match P.ModeOf(b) case HBlank => 0 case VBlank => 1 case OamScan => 2 case Drawing => 3
  {
  }

  /* The ends of a run's events, in numbers */

  // At power-on everything is zero but the mode, no button is pressed and the CPU runs at address 0.
  lemma PowerOnState(cart: Cartridge)
    ensures var s := PowerOn(cart);
      && (forall a: Word :: s.bus.mem[a] == if a == 0xFF41 then 2 else 0)
      && s.bus.cart == Some(cart) && s.bus.joypadStatus == 0xFF && s.bus.serial == [] && s.clockCount == 0
      && s.cpu == C.Cpu(0, C.Flags(false, false, false, false, 0), 0, 0, 0, 0, 0, 0, 0, 0, false, false, false, 0)
      && s.ppu.counter == 0 && s.ppu.oam == [] && !s.ppu.statRequested && s.ppu.frames == 0
      && forall i :: 0 <= i < 160 * 144 ==> s.ppu.screen[i] == 0
  {
  }

  // A change of the buttons is kept, forced into JOIP and requested as interrupt 4; no change is no event.
  lemma JoypadEvent(s: System, v: Byte)
    ensures var t := Step(s, SetJoypad(v));
      && (v == s.bus.joypadStatus ==> t == s)
      && (v != s.bus.joypadStatus ==>
            && t.bus.joypadStatus == v && t.bus.mem[0xFF00] == v && Bit(t.bus.mem[0xFF0F], 4)
            && (forall a: Word :: a != 0xFF00 && a != 0xFF0F ==> t.bus.mem[a] == s.bus.mem[a])
            && t == s.(bus := t.bus))
  {
    hide Tick, BootSkipped, SetBit, Bit;
    SetBitSetsOnlyThatBit(FiveBits(s.bus.mem[0xFF0F]), 4, true, 4);
  }
}
