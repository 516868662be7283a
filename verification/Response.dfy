/** How soon an enabled interrupt is served, and how often each source may ask. */
module Response {
  import opened Bytes
  import opened Registers
  import opened BusSpec
  import opened SystemSpec
  import opened Progress
  import Interrupts
  import Schedule
  import T = TimerSpec
  import C = CpuSpec
  import P = PpuSpec

  /* Bounded response */

  ghost predicate SomethingPending(b: Bus) { exists i: Interrupt :: C.Pending(b, i) }

  lemma PendingStaysPending(b: Bus, c: Bus, i: Interrupt)
    requires OnlyHardware(b, c) && C.Pending(b, i)
    ensures C.Pending(c, i)
  {
    assert IsRaised(b, i) && IsRaised(c, i);
  }

  // The lowest-numbered enabled request
  lemma FirstPendingIsLowest(b: Bus)
    ensures C.FirstPending(b).Some? <==> SomethingPending(b)
    ensures C.FirstPending(b).Some? ==> C.Pending(b, C.FirstPending(b).value)
    ensures C.FirstPending(b).Some? ==>
      forall j: Interrupt :: C.Pending(b, j) ==> C.FirstPending(b).value.Index() <= j.Index()
  {
    if SomethingPending(b) {
      var i: Interrupt :| C.Pending(b, i);
    }
  }

  // A push that misses the request register
  predicate PushMissesIF(s: C.Cpu) { Plus(s.sp, -1) != REG_IF && Plus(s.sp, -2) != REG_IF }

  // Bit k is the lowest that is set both in IF (0xFF0F) and in IE (0xFFFF).
  predicate IsLowestRequest(m: Memory, k: nat)
    requires k < 5
  {
    Bit(m[0xFF0F], k) && Bit(m[0xFFFF], k) && forall j: nat :: j < k ==> !(Bit(m[0xFF0F], j) && Bit(m[0xFFFF], j))
  }

  const HANDLERS: seq<Word> := [0x0040, 0x0048, 0x0050, 0x0058, 0x0060]

  lemma LowestRequestIsFirst(b: Bus, k: nat)
    requires k < 5 && IsLowestRequest(b.mem, k)
    ensures C.FirstPending(b) == Some(C.InterruptAt(k)) && C.Vector(C.InterruptAt(k)) == HANDLERS[k]
  {
    hide Bit;
    assert forall j: Interrupt :: j.Index() < k ==> !C.Pending(b, j);
    C.FirstPendingAt(b, k);
  }

  lemma SomeLowestRequest(b: Bus)
    requires C.FirstPending(b).Some?
    ensures exists k: nat :: k < 5 && IsLowestRequest(b.mem, k)
  {
    hide Bit;
    FirstPendingIsLowest(b);
    var k := C.FirstPending(b).value.Index();
    forall j: nat | j < k ensures !(Bit(b.mem[0xFF0F], j) && Bit(b.mem[0xFFFF], j)) {
      assert C.InterruptAt(j).Index() == j;
    }
    assert IsLowestRequest(b.mem, k);
  }

  // With IME set and an enabled request pending, busy + 1 clocks later the CPU is at the vector of the
  // lowest-numbered source pending at that clock, whatever arrived in the meantime. Only that request is
  // withdrawn. The timer has run by then; the PPU may still add requests at the end of the clock.
  lemma InterruptServed(s: System, n: nat)
    requires Schedule.Invariant(s, n) && !s.cpu.crashed
    requires s.cpu.ime && SomethingPending(s.bus)
    ensures C.FirstPending(SeenByCpu(s)).Some?
    ensures var (i, t) := (C.FirstPending(SeenByCpu(s)).value, Act(s));
      && C.Pending(SeenByCpu(s), i)
      && (forall j: Interrupt :: C.Pending(SeenByCpu(s), j) ==> i.Index() <= j.Index())
      && t.cpu == s.cpu.(ime := false, halted := false, pc := C.Vector(i), sp := Plus(s.cpu.sp, -2), busy := 5)
      && (PushMissesIF(s.cpu) ==> !IsRaised(WriteAll(SeenByCpu(s), Action(s).stores), i))
      && (PushMissesIF(s.cpu) ==> forall j: Interrupt :: j != i && IsRaised(SeenByCpu(s), j) ==> IsRaised(t.bus, j))
    ensures exists k: nat :: k < 5 && IsLowestRequest(SeenByCpu(s).mem, k)
    ensures forall k: nat :: k < 5 && IsLowestRequest(SeenByCpu(s).mem, k) ==> Act(s).cpu.pc == HANDLERS[k]
  {
    assert s.cpu.busy >= 0;
    hide Act, SeenByCpu, OnlyHardware, C.Execute, Schedule.Invariant;
    var m := SeenByCpu(s);
    ActionOutcome(s, n);
    var k: Interrupt :| C.Pending(s.bus, k);
    PendingStaysPending(s.bus, m, k);
    FirstPendingIsLowest(m);
    var i := C.FirstPending(m).value;
    SomeLowestRequest(m);
    hide IsLowestRequest, Bit;
    forall j: nat | j < 5 && IsLowestRequest(m.mem, j) ensures C.Vector(i) == HANDLERS[j] {
      LowestRequestIsFirst(m, j);
    }
    assert Action(s) == C.Dispatch(s.cpu.(busy := 0), m, i);
    if PushMissesIF(s.cpu) {
      DispatchWithdrawsOnly(s.cpu.(busy := 0), m, i, i);
    }
    forall j: Interrupt | PushMissesIF(s.cpu) && j != i && IsRaised(m, j) ensures IsRaised(Act(s).bus, j) {
      DispatchWithdrawsOnly(s.cpu.(busy := 0), m, i, j);
      RaisedStaysRaised(WriteAll(m, Action(s).stores), Act(s).bus, j);
    }
  }

  lemma RaisedStaysRaised(b: Bus, c: Bus, j: Interrupt)
    requires OnlyHardware(b, c) && IsRaised(b, j)
    ensures IsRaised(c, j)
  {
  }

  lemma DispatchWithdrawsOnly(s: C.Cpu, m: Bus, i: Interrupt, j: Interrupt)
    requires s.ime && PushMissesIF(s)
    ensures Interrupts.Requested(WriteAll(m, C.Dispatch(s, m, i).stores), j) ==
      if i == j then 0 else Interrupts.Requested(m, j)
  {
    hide Write, C.Acknowledged;
    var ack := (REG_IF, C.Acknowledged(m, i));
    var pushes := C.Push(s, s.pc).stores;
    WriteAllFirst(m, ack, pushes);
    assert Interrupts.AvoidsIF(pushes);
    Interrupts.WriteAllKeepsIF(Write(m, REG_IF, C.Acknowledged(m, i), FromCpu), pushes);
    WriteToIF(m, C.Acknowledged(m, i));
    Interrupts.AcknowledgeClearsOneBit(m, i, j);
  }

  lemma WriteToIF(m: Bus, v: Byte)
    ensures Write(m, REG_IF, v, FromCpu).mem[REG_IF] == v
  {
  }

  // With IME clear, the same event wakes a halted CPU in the same bound: PC and the requests stay.
  lemma HaltedCpuWakes(s: System, n: nat)
    requires Schedule.Invariant(s, n) && !s.cpu.crashed
    requires !s.cpu.ime && s.cpu.halted && SomethingPending(s.bus)
    ensures Act(s).cpu == s.cpu.(halted := false, busy := 0)
    ensures OnlyHardware(s.bus, Act(s).bus)
  {
    assert s.cpu.busy >= 0;
    hide Act, SeenByCpu, OnlyHardware, C.Execute, Schedule.Invariant, Write;
    ActionOutcome(s, n);
    var k: Interrupt :| C.Pending(s.bus, k);
    PendingStaysPending(s.bus, SeenByCpu(s), k);
    FirstPendingIsLowest(SeenByCpu(s));
    OnlyHardwareTransitive(s.bus, SeenByCpu(s), Act(s).bus);
  }

  // With nothing enabled and requested a halted CPU sleeps on.
  lemma HaltedCpuSleeps(s: System)
    requires s.cpu.halted && !s.cpu.crashed && s.cpu.busy == 0
    requires forall k: nat :: k < 5 ==> !(Bit(TimerPart(s).bus.mem[0xFF0F], k) && Bit(TimerPart(s).bus.mem[0xFFFF], k))
    ensures Tick(s).cpu == s.cpu
  {
    hide T.Clock, P.Clock, Bit, C.Execute;
    C.FirstPendingAt(TimerPart(s).bus, 5);
  }

  /* Request counts */

  function Count(requests: seq<Interrupt>, i: Interrupt): nat { multiset(requests)[i] }

  lemma ClockRequests(p: P.Ppu, b: Bus)
    requires P.Consistent(p, b)
    ensures var (o, ends) := (P.Clock(p, b), p.counter + 1 == LINE_CLOCKS);
      && Count(o.requests, Interrupt.VBlank) == (if ends && b.mem[REG_LY] == 143 then 1 else 0)
      && Count(o.requests, Stat) <= 1
      && (p.statRequested ==> Count(o.requests, Stat) == 0)
      && (!ends && p.statRequested ==> o.ppu.statRequested)
      && (!ends && Count(o.requests, Stat) == 1 ==> o.ppu.statRequested)
  {
    hide P.DrawLine, P.AddSprite, P.EnterMode, P.LineEnd, P.BufferConsistent;
    var p1 := p.(counter := p.counter + 1);
    match P.ModeOf(b)
    case OamScan =>
      var oam := P.AddSprite(b, P.AddSprite(b, p.oam, 2 * p.counter), 2 * p.counter + 1);
      EntryRequests(p1.(oam := oam), b, P.Drawing);
    case Drawing => EntryRequests(p1, b, P.HBlank);
    case _ =>
      if p.counter + 1 == LINE_CLOCKS {
        LineEndRequests(p.(counter := 0), b);
      }
  }

  lemma EntryRequests(p: P.Ppu, b: Bus, m: P.Mode)
    requires m != P.Mode.VBlank
    ensures var o := P.EnterMode(p, b, m);
      && Count(o.requests, Interrupt.VBlank) == 0 && Count(o.requests, Stat) <= 1
      && (p.statRequested ==> Count(o.requests, Stat) == 0 && o.ppu.statRequested)
      && (Count(o.requests, Stat) == 1 ==> o.ppu.statRequested)
  {
    hide RaiseAll, Bit, P.WithMode;
  }

  lemma LineEndRequests(p: P.Ppu, b: Bus)
    requires b.mem[REG_LY] < FRAME_LINES
    requires P.ModeOf(b) == if b.mem[REG_LY] < HEIGHT then P.HBlank else P.Mode.VBlank
    ensures Count(P.LineEnd(p, b).requests, Interrupt.VBlank) == if b.mem[REG_LY] == 143 then 1 else 0
    ensures Count(P.LineEnd(p, b).requests, Stat) <= if p.statRequested then 0 else 1
  {
    hide RaiseAll, Bit, P.LycHit;
  }

  // Requests for i that the PPU makes during a run.
  function PpuRequests(s: System, es: seq<Event>, i: Interrupt): nat {
    if |es| == 0 then 0
    else
      var (before, e) := (es[..|es| - 1], es[|es| - 1]);
      PpuRequests(s, before, i) + if e == MachineClock then Count(PpuPart(Run(s, before)).requests, i) else 0
  }

  lemma VBlankArithmetic(n: nat)
    ensures (n + 1 + 1140) / FRAME_CLOCKS == (n + 1140) / FRAME_CLOCKS +
      if n % FRAME_CLOCKS / LINE_CLOCKS == 143 && n % FRAME_CLOCKS % LINE_CLOCKS == 113 then 1 else 0
  {
    var (q, t) := (n / FRAME_CLOCKS, n % FRAME_CLOCKS);
    assert n == FRAME_CLOCKS * q + t;
    assert t / LINE_CLOCKS == 143 && t % LINE_CLOCKS == 113 <==> t == 16415;
    if t < 16415 {
      assert (n + 1140) / FRAME_CLOCKS == q && (n + 1141) / FRAME_CLOCKS == q;
    } else if t == 16415 {
      assert (n + 1140) / FRAME_CLOCKS == q && (n + 1141) / FRAME_CLOCKS == q + 1;
    } else {
      assert (n + 1140) / FRAME_CLOCKS == q + 1 && (n + 1141) / FRAME_CLOCKS == q + 1;
    }
  }

  // From power-on, n clocks make exactly (n + 1140) / 17556 VBLANK requests, whatever the program does.
  lemma {:induction false} VBlankCount(cart: Cartridge, es: seq<Event>)
    ensures PpuRequests(PowerOn(cart), es, Interrupt.VBlank) == (Clocks(es) + 1140) / FRAME_CLOCKS
  {
    hide Step, PowerOn, P.Consistent, P.Clock, P.BufferConsistent, Count;
    if |es| > 0 {
      var (before, e) := (es[..|es| - 1], es[|es| - 1]);
      var (s, n) := (Run(PowerOn(cart), before), Clocks(before));
      VBlankCount(cart, before);
      Schedule.EveryRun(cart, before);
      if e == MachineClock {
        Schedule.CpuCannotDisturb(s, n);
        ClockRequests(s.ppu, AfterCpu(s));
        VBlankArithmetic(n);
      }
    }
  }

  // At most one STAT request per line: in any run of at most 114 clocks that starts just after a line end.
  lemma {:induction false} StatOncePerLine(s: System, es: seq<Event>, n: nat)
    requires Schedule.Invariant(s, n) && n % LINE_CLOCKS == 0 && Clocks(es) <= LINE_CLOCKS
    ensures Schedule.Invariant(Run(s, es), n + Clocks(es))
    ensures PpuRequests(s, es, Stat) <= 1
    ensures Clocks(es) < LINE_CLOCKS && PpuRequests(s, es, Stat) == 1 ==> Run(s, es).ppu.statRequested
  {
    hide Step, Count, Schedule.Invariant;
    if |es| > 0 {
      var (before, e) := (es[..|es| - 1], es[|es| - 1]);
      var (u, k) := (Run(s, before), n + Clocks(before));
      StatOncePerLine(s, before, n);
      Schedule.StepKeepsInvariant(u, e, k);
      StatStep(u, e, k);
      WindowClock(n, Clocks(before));
    }
  }

  lemma WindowClock(n: nat, c: nat)
    requires n % LINE_CLOCKS == 0
    ensures c < LINE_CLOCKS ==> (n + c) % LINE_CLOCKS == c
  {
  }

  lemma LineClock(n: nat)
    ensures n % FRAME_CLOCKS % LINE_CLOCKS == n % LINE_CLOCKS
  {
    var q := n / FRAME_CLOCKS;
    assert n == LINE_CLOCKS * (FRAME_LINES * q) + n % FRAME_CLOCKS;
    SameRemainder(n % FRAME_CLOCKS, FRAME_LINES * q);
  }

  lemma SameRemainder(t: nat, q: nat)
    ensures (LINE_CLOCKS * q + t) % LINE_CLOCKS == t % LINE_CLOCKS
  {
  }

  // One event, seen through the once-per-line flag.
  lemma StatStep(s: System, e: Event, n: nat)
    requires Schedule.Invariant(s, n)
    ensures var (c, ends) := (if e == MachineClock then Count(PpuPart(s).requests, Stat) else 0,
                              e == MachineClock && n % LINE_CLOCKS == 113);
      && c <= 1 && (s.ppu.statRequested ==> c == 0)
      && (!ends && s.ppu.statRequested ==> Step(s, e).ppu.statRequested)
      && (!ends && c == 1 ==> Step(s, e).ppu.statRequested)
  {
    hide P.Consistent, P.Clock, T.Clock, C.Clock, P.BufferConsistent, Count;
    if e == MachineClock {
      LineClock(n);
      Schedule.CpuCannotDisturb(s, n);
      ClockRequests(s.ppu, AfterCpu(s));
    }
  }

  // Hence at most ceil(n / 114) STAT requests in the first n clocks.
  lemma {:induction false} StatCount(cart: Cartridge, es: seq<Event>)
    ensures PpuRequests(PowerOn(cart), es, Stat) <= (Clocks(es) + 113) / LINE_CLOCKS
    ensures PpuRequests(PowerOn(cart), es, Stat) <=
      Clocks(es) / LINE_CLOCKS + if Run(PowerOn(cart), es).ppu.statRequested then 1 else 0
  {
    hide Step, PowerOn, P.Consistent, P.Clock, P.BufferConsistent, Count;
    if |es| > 0 {
      var (before, e) := (es[..|es| - 1], es[|es| - 1]);
      StatCount(cart, before);
      Schedule.EveryRun(cart, before);
      StatStep(Run(PowerOn(cart), before), e, Clocks(before));
      CeilingStep(Clocks(before));
    }
  }

  lemma CeilingStep(n: nat)
    ensures (n + 1) / LINE_CLOCKS == n / LINE_CLOCKS + if n % LINE_CLOCKS == 113 then 1 else 0
    ensures (n + 113) / LINE_CLOCKS == n / LINE_CLOCKS + if n % LINE_CLOCKS == 0 then 0 else 1
  {
  }
}
