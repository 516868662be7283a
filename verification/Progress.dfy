/** From one CPU action to the next: the busy countdown while the rest of the machine runs on. */
module Progress {
  import opened Bytes
  import opened Registers
  import opened BusSpec
  import opened SystemSpec
  import opened Timings
  import Schedule
  import Interrupts
  import CycleAccounting
  import T = TimerSpec
  import C = CpuSpec
  import P = PpuSpec

  // The registers the timer and the PPU write.
  predicate IsHardwareRegister(a: Word) {
    a == REG_DIV || a == REG_TIMA || a == REG_IF || a == REG_STAT || a == REG_LY
  }

  // From b to c only hardware registers changed, and no interrupt request was withdrawn.
  ghost predicate OnlyHardware(b: Bus, c: Bus) {
    && c == b.(mem := c.mem)
    && (forall a: Word :: !IsHardwareRegister(a) ==> c.mem[a] == b.mem[a])
    && (forall i: Interrupt :: IsRaised(b, i) ==> IsRaised(c, i))
  }

  lemma OnlyHardwareTransitive(b: Bus, c: Bus, d: Bus)
    requires OnlyHardware(b, c) && OnlyHardware(c, d)
    ensures OnlyHardware(b, d)
  {
  }

  lemma TimerOnlyHardware(s: System)
    ensures OnlyHardware(s.bus, TimerPart(s).bus)
  {
    forall i: Interrupt | IsRaised(s.bus, i) ensures IsRaised(TimerPart(s).bus, i) {
      Interrupts.TimerRaises(s, i);
    }
  }

  lemma PpuOnlyHardware(p: P.Ppu, b: Bus)
    requires P.Consistent(p, b)
    ensures OnlyHardware(b, P.Clock(p, b).bus)
  {
    hide P.Clock, RaiseAll;
    P.ClockSteps(p, b);
    forall i: Interrupt | IsRaised(b, i) ensures IsRaised(P.Clock(p, b).bus, i) {
      Interrupts.PpuClockRaises(p, b);
      Interrupts.RaiseAllCounts(b, P.Clock(p, b).requests, i);
    }
  }

  lemma TickOnlyHardware(s: System, n: nat)
    requires Schedule.Invariant(s, n)
    ensures OnlyHardware(s.bus, TimerPart(s).bus) && OnlyHardware(AfterCpu(s), Tick(s).bus)
    ensures Schedule.Invariant(Tick(s), n + 1)
  {
    hide P.Clock, C.Clock, T.Clock, P.Consistent, OnlyHardware;
    Schedule.CpuCannotDisturb(s, n);
    TimerOnlyHardware(s);
    PpuOnlyHardware(s.ppu, AfterCpu(s));
    Schedule.TickKeepsInvariant(s, n);
  }

  // While an instruction is busy, the CPU only counts.
  lemma {:induction false} Countdown(s: System, n: nat, k: nat)
    requires Schedule.Invariant(s, n) && !s.cpu.crashed && k <= s.cpu.busy
    ensures Ticks(s, k).cpu == s.cpu.(busy := s.cpu.busy - k)
    ensures OnlyHardware(s.bus, Ticks(s, k).bus)
    ensures Schedule.Invariant(Ticks(s, k), n + k)
  {
    hide P.Clock, T.Clock, C.Execute, C.Dispatch, C.Listening, OnlyHardware, Schedule.Invariant;
    if k == 0 {
      SameIsOnlyHardware(s.bus);
    } else {
      Countdown(s, n, k - 1);
      var u := Ticks(s, k - 1);
      TickOnlyHardware(u, n + k - 1);
      OnlyHardwareTransitive(u.bus, TimerPart(u).bus, Tick(u).bus);
      OnlyHardwareTransitive(s.bus, u.bus, Tick(u).bus);
    }
  }

  lemma SameIsOnlyHardware(b: Bus)
    ensures OnlyHardware(b, b)
  {
  }

  /* The next action: the countdown, then one clock in which the CPU acts */

  function Act(s: System): System
    requires s.cpu.busy >= 0
  {
    Ticks(s, s.cpu.busy + 1)
  }

  // The bus the CPU acts on.
  function SeenByCpu(s: System): Bus
    requires s.cpu.busy >= 0
  {
    TimerPart(Ticks(s, s.cpu.busy)).bus
  }

  function Action(s: System): C.Outcome
    requires s.cpu.busy >= 0
  {
    C.Clock(s.cpu.(busy := 0), SeenByCpu(s))
  }

  lemma ActionOutcome(s: System, n: nat)
    requires Schedule.Invariant(s, n) && !s.cpu.crashed
    ensures OnlyHardware(s.bus, SeenByCpu(s))
    ensures Act(s).cpu == Action(s).cpu
    ensures OnlyHardware(WriteAll(SeenByCpu(s), Action(s).stores), Act(s).bus)
    ensures Schedule.Invariant(Act(s), n + s.cpu.busy + 1)
  {
    hide P.Clock, T.Clock, C.Clock, OnlyHardware;
    var u := Ticks(s, s.cpu.busy);
    Countdown(s, n, s.cpu.busy);
    TickOnlyHardware(u, n + s.cpu.busy);
    OnlyHardwareTransitive(s.bus, u.bus, TimerPart(u).bus);
  }

  // Some number of clocks after power-on, or any state that looks like it
  ghost predicate Reachable(s: System) { exists n: nat :: Schedule.Invariant(s, n) }

  lemma ActReachable(s: System)
    requires Reachable(s) && !s.cpu.crashed
    ensures s.cpu.busy >= 0 && Reachable(Act(s))
  {
    hide Act, C.Clock;
    var n: nat :| Schedule.Invariant(s, n);
    ActionOutcome(s, n);
  }

  // The next action of s fetches op.
  predicate Executes(s: System, op: Byte)
    requires s.cpu.busy >= 0
  {
    && !s.cpu.crashed && !s.cpu.halted && !C.Listening(s.cpu.(busy := 0), SeenByCpu(s))
    && C.Imm8(s.cpu, SeenByCpu(s)) == op
  }

  lemma ExecutesOpcode(s: System, op: Byte)
    requires s.cpu.busy >= 0 && Executes(s, op) && op != 0xCB
    ensures Action(s) == C.ExecOpcode(op, C.Advance(s.cpu, 1).(busy := Charge(op)), SeenByCpu(s))
  {
    hide SeenByCpu, C.ExecOpcode, C.Listening, Charge;
  }

  // Meaningful while the busy counter is not negative, which it never is.
  function ActOrStay(s: System): System { if s.cpu.busy >= 0 then Act(s) else s }

  /* Cycle accounting over runs */

  predicate Fetches(s: System) {
    !s.cpu.crashed && s.cpu.busy == 0 && !C.Listening(s.cpu, TimerPart(s).bus) && !s.cpu.halted
  }

  // After a fetch that is charged c cycles the CPU does nothing for c clocks and is ready on the next:
  // successive fetches are c + 1 clocks apart.
  lemma FetchSpacing(s: System, n: nat, k: nat)
    requires Schedule.Invariant(s, n) && Fetches(s)
    requires !Tick(s).cpu.crashed && 1 <= k <= Tick(s).cpu.busy + 1
    ensures Ticks(s, k).cpu == Tick(s).cpu.(busy := Tick(s).cpu.busy - (k - 1))
    ensures Fetches(Ticks(s, k)) ==> k == Tick(s).cpu.busy + 1
    ensures 1 <= Tick(s).cpu.busy <= 6
  {
    hide P.Clock, T.Clock, C.Clock, C.Listening, Schedule.Invariant;
    Schedule.TickKeepsInvariant(s, n);
    Countdown(Tick(s), n + 1, k - 1);
    TicksFromNext(s, k - 1);
    FetchCharge(s);
  }

  lemma FetchCharge(s: System)
    requires Fetches(s) && !Tick(s).cpu.crashed
    ensures 1 <= Tick(s).cpu.busy <= 6
  {
    hide P.Clock, T.Clock, C.Execute, C.Listening;
    CycleAccounting.InstructionCharge(s.cpu, TimerPart(s).bus);
  }

  lemma {:induction false} TicksFromNext(s: System, k: nat)
    ensures Ticks(Tick(s), k) == Ticks(s, k + 1)
  {
    hide Tick;
    if k > 0 {
      TicksFromNext(s, k - 1);
    }
  }

  // An undefined opcode freezes the CPU for the rest of the run.
  lemma {:induction false} CrashIsForever(s: System, k: nat)
    requires s.cpu.crashed
    ensures Ticks(s, k).cpu == s.cpu
  {
    hide P.Clock, T.Clock, C.Execute, C.Dispatch;
    if k > 0 {
      CrashIsForever(s, k - 1);
    }
  }
}
