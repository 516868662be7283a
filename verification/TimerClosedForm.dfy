/** DIV, TIMA and the number of timer interrupts after n clocks, in closed form. */
module TimerClosedForm {
  import opened Bytes
  import opened Registers
  import opened BusSpec
  import opened SystemSpec
  import Schedule
  import T = TimerSpec
  import C = CpuSpec
  import P = PpuSpec

  /* The closed forms */

  // How often a counter of rate r ticks on clocks c+1 .. c+n
  function TickCount(c: nat, n: nat, r: nat): int
    requires r > 0
  {
    (c + n) / r - c / r
  }

  // TIMA after k ticks from t0, restarting from m on overflow.
  function TimaAfter(t0: Byte, m: Byte, k: nat): Byte {
    if k < 256 - t0 then t0 + k else m + (k - (256 - t0)) % (256 - m)
  }

  // Overflows, hence interrupt requests, in those k ticks.
  function Overflows(t0: Byte, m: Byte, k: nat): nat {
    if k < 256 - t0 then 0 else 1 + (k - (256 - t0)) / (256 - m)
  }

  /* One step of each closed form */

  lemma QuotientIsUnique(x: nat, p: nat, q: nat, r: nat)
    requires p > 0 && x == p * q + r && r < p
    ensures x / p == q && x % p == r
  {
    var (a, b) := (x / p, x % p);
    assert x == p * a + b;
    assert p * (a - q) == r - b;
    MultipleSize(p, a - q);
  }

  lemma MultipleSize(p: nat, d: int)
    ensures d > 0 ==> p * d >= p
    ensures d < 0 ==> p * d <= -1 * p
  {
    if d > 0 {
      assert p * d == p * (d - 1) + p;
    } else if d < 0 {
      assert p * d == -(p * (-d - 1)) - p;
    }
  }

  lemma NextQuotient(x: nat, p: nat)
    requires p > 0
    ensures if x % p == p - 1 then (x + 1) % p == 0 && (x + 1) / p == x / p + 1
            else (x + 1) % p == x % p + 1 && (x + 1) / p == x / p
  {
    assert x == p * (x / p) + x % p;
    if x % p == p - 1 {
      assert x + 1 == p * (x / p) + p == p * (x / p + 1);
      QuotientIsUnique(x + 1, p, x / p + 1, 0);
    } else {
      QuotientIsUnique(x + 1, p, x / p, x % p + 1);
    }
  }

  lemma NextTick(c: nat, n: nat, r: nat)
    requires r > 0
    ensures TickCount(c, n + 1, r) == TickCount(c, n, r) + if (c + n + 1) % r == 0 then 1 else 0
    ensures TickCount(c, n, r) >= 0
  {
    NextQuotient(c + n, r);
    MoreClocksMoreTicks(c, n, r);
  }

  lemma {:induction false} MoreClocksMoreTicks(c: nat, n: nat, r: nat)
    requires r > 0
    ensures (c + n) / r >= c / r
  {
    if n > 0 {
      MoreClocksMoreTicks(c, n - 1, r);
      NextQuotient(c + n - 1, r);
    }
  }

  lemma NextTima(t0: Byte, m: Byte, k: nat)
    ensures TimaAfter(t0, m, k + 1) == if TimaAfter(t0, m, k) == 0xFF then m else TimaAfter(t0, m, k) + 1
    ensures Overflows(t0, m, k + 1) == Overflows(t0, m, k) + if TimaAfter(t0, m, k) == 0xFF then 1 else 0
  {
    if k >= 256 - t0 {
      NextQuotient(k - (256 - t0), 256 - m);
    } else if k + 1 == 256 - t0 {
      QuotientIsUnique(0, 256 - m, 0, 0);
    }
  }

  // The 64-bit clock counter may wrap: every rate divides 2^64.
  lemma WrapIsHarmless(c: nat, r: nat)
    requires r == 4 || r == 16 || r == 64 || r == 256
    ensures c % T.CLOCK_WRAP % r == c % r
  {
    RemainderOfRemainder(c, r, T.CLOCK_WRAP / r);
  }

  lemma Regroup(c: nat, r: nat, k: nat, q: nat, a: nat, b: nat)
    requires c == r * k * q + (r * a + b)
    ensures c == r * (k * q + a) + b
  {
    assert r * (k * q + a) == r * (k * q) + r * a;
    assert r * k * q == r * (k * q);
  }

  lemma RemainderOfRemainder(c: nat, r: nat, k: nat)
    requires r > 0 && k > 0
    ensures r * k > 0 && c % (r * k) % r == c % r
  {
    var (q, t) := (c / (r * k), c % (r * k));
    assert c == r * k * q + t && t == r * (t / r) + t % r;
    Regroup(c, r, k, q, t / r, t % r);
    QuotientIsUnique(c, r, k * q + t / r, t % r);
  }

  /* Runs whose program leaves the timer registers alone */

  predicate IsTimerRegister(a: Word) { a == REG_DIV || a == REG_TIMA || a == REG_TMA || a == REG_TAC }

  ghost predicate TimerUntouched(s: System, n: nat) {
    forall k: nat :: k < n ==> AvoidsTimer(CpuPart(Ticks(s, k)).stores)
  }

  predicate AvoidsTimer(stores: seq<Store>) { forall i :: 0 <= i < |stores| ==> !IsTimerRegister(stores[i].0) }

  ghost predicate SameTimer(b: Bus, c: Bus) { forall a: Word :: IsTimerRegister(a) ==> c.mem[a] == b.mem[a] }

  lemma {:induction false} WriteAllKeepsTimer(b: Bus, stores: seq<Store>)
    requires AvoidsTimer(stores)
    ensures SameTimer(b, WriteAll(b, stores))
    decreases |stores|
  {
    if |stores| > 0 {
      WriteAllKeepsTimer(Write(b, stores[0].0, stores[0].1, FromCpu), stores[1..]);
    }
  }

  // After a clock of a run that leaves the timer alone, its registers are as the timer left them.
  lemma TickKeepsTimer(s: System, n: nat)
    requires Schedule.Invariant(s, n) && AvoidsTimer(CpuPart(s).stores)
    ensures SameTimer(TimerPart(s).bus, Tick(s).bus) && Tick(s).clockCount == TimerPart(s).clockCount
    ensures Schedule.Invariant(Tick(s), n + 1)
  {
    hide T.Clock, C.Clock, P.Clock;
    WriteAllKeepsTimer(TimerPart(s).bus, CpuPart(s).stores);
    Schedule.CpuCannotDisturb(s, n);
    P.ClockSteps(s.ppu, AfterCpu(s));
    Schedule.TickKeepsInvariant(s, n);
  }

  // Timer interrupts requested in the first n clocks
  function TimerRequests(s: System, n: nat): nat {
    if n == 0 then 0 else TimerRequests(s, n - 1) + |TimerPart(Ticks(s, n - 1)).requests|
  }

  ghost predicate InClosedForm(s: System, n: nat) {
    var (b, c) := (s.bus.mem, Ticks(s, n).bus.mem);
    var (t0, m, r) := (b[REG_TIMA], b[REG_TMA], T.Rate(b[REG_TAC]));
    var k := TickCount(s.clockCount, n, r);
    && Ticks(s, n).clockCount == (s.clockCount + n) % T.CLOCK_WRAP
    && c[REG_TMA] == m && c[REG_TAC] == b[REG_TAC]
    && c[REG_DIV] == (b[REG_DIV] + TickCount(s.clockCount, n, T.DIV_RATE)) % 256
    && k >= 0
    && c[REG_TIMA] == TimaAfter(t0, m, k)
    && TimerRequests(s, n) == Overflows(t0, m, k)
  }

  // What the timer does in one clock, as arithmetic.
  lemma TimerClock(count: nat, b: Bus)
    requires T.Enabled(b.mem[REG_TAC])
    ensures var (o, count1, r) := (T.Clock(count, b), (count + 1) % T.CLOCK_WRAP, T.Rate(b.mem[REG_TAC]));
      && o.clockCount == count1
      && o.bus.mem[REG_TMA] == b.mem[REG_TMA] && o.bus.mem[REG_TAC] == b.mem[REG_TAC]
      && o.bus.mem[REG_DIV] == (if count1 % 64 == 0 then Successor(b.mem[REG_DIV]) else b.mem[REG_DIV])
      && o.bus.mem[REG_TIMA] ==
         (if count1 % r != 0 then b.mem[REG_TIMA]
          else if b.mem[REG_TIMA] == 0xFF then b.mem[REG_TMA] else b.mem[REG_TIMA] + 1)
      && |o.requests| == (if count1 % r == 0 && b.mem[REG_TIMA] == 0xFF then 1 else 0)
  {
    hide Bit;
  }

  // For any program that does not write the timer registers; the rest of the machine runs along.
  lemma {:induction false} Progress(s: System, start: nat, n: nat)
    requires Schedule.Invariant(s, start) && s.clockCount < T.CLOCK_WRAP
    requires T.Enabled(s.bus.mem[REG_TAC]) && TimerUntouched(s, n)
    ensures InClosedForm(s, n)
    ensures Schedule.Invariant(Ticks(s, n), start + n)
  {
    hide Tick, Schedule.Invariant, T.Enabled, T.Rate, TimaAfter, Overflows, T.Clock, C.Clock;
    if n == 0 {
      FirstTick(s);
    } else {
      Progress(s, start, n - 1);
      TickKeepsTimer(Ticks(s, n - 1), start + n - 1);
      StepInClosedForm(s, n - 1);
    }
  }

  lemma FirstTick(s: System)
    requires s.clockCount < T.CLOCK_WRAP
    ensures InClosedForm(s, 0)
  {
  }

  lemma StepInClosedForm(s: System, n: nat)
    requires T.Enabled(s.bus.mem[REG_TAC]) && InClosedForm(s, n)
    requires SameTimer(TimerPart(Ticks(s, n)).bus, Ticks(s, n + 1).bus)
    requires Ticks(s, n + 1).clockCount == TimerPart(Ticks(s, n)).clockCount
    ensures InClosedForm(s, n + 1)
  {
    hide Tick, T.Clock, T.Enabled, T.Rate, TimaAfter, Overflows, TickCount;
    var (u, c) := (Ticks(s, n), s.clockCount);
    var (t0, m, r) := (s.bus.mem[REG_TIMA], s.bus.mem[REG_TMA], T.Rate(s.bus.mem[REG_TAC]));
    TimerClock(u.clockCount, u.bus);
    NextPhase(c, n, r);
    NextPhase(c, n, T.DIV_RATE);
    NextTick(c, n + 1, r);
    NextTima(t0, m, TickCount(c, n, r));
  }

  // One clock of a counter of rate r, told from the wrapped clock counter.
  lemma NextPhase(c: nat, n: nat, r: nat)
    requires r == 4 || r == 16 || r == 64 || r == 256
    ensures var count1 := ((c + n) % T.CLOCK_WRAP + 1) % T.CLOCK_WRAP;
      && count1 == (c + n + 1) % T.CLOCK_WRAP
      && TickCount(c, n + 1, r) == TickCount(c, n, r) + if count1 % r == 0 then 1 else 0
    ensures TickCount(c, n, r) >= 0
  {
    hide TickCount;
    NextTick(c, n, r);
    WrappedSuccessor(c + n);
    WrapIsHarmless(c + n + 1, r);
  }

  lemma WrappedSuccessor(x: nat)
    ensures (x % T.CLOCK_WRAP + 1) % T.CLOCK_WRAP == (x + 1) % T.CLOCK_WRAP
  {
  }

  /* The main result, from the bytes of the timer registers: DIV at 0xFF04, TIMA, TMA and TAC */

  lemma RateOfTac(tac: Byte)
    ensures T.Rate(tac) == [256, 4, 16, 64][tac % 4]
    ensures T.Enabled(tac) <==> tac / 4 % 2 == 1
  {
  }

  // With the timer enabled TIMA ticks every 256, 4, 16 or 64 clocks, by TAC modulo 4.
  lemma ClosedForm(s: System, start: nat, n: nat)
    requires Schedule.Invariant(s, start) && s.clockCount < T.CLOCK_WRAP
    requires s.bus.mem[0xFF07] / 4 % 2 == 1 && TimerUntouched(s, n)
    ensures var (m0, m1, c) := (s.bus.mem, Ticks(s, n).bus.mem, s.clockCount);
      var (t, tma, r) := (m0[0xFF05], m0[0xFF06], [256, 4, 16, 64][m0[0xFF07] % 4]);
      var k := (c + n) / r - c / r;
      && k >= 0
      && m1[0xFF04] == (m0[0xFF04] + ((c + n) / 64 - c / 64)) % 256
      && m1[0xFF05] == (if k < 256 - t then t + k else tma + (k - (256 - t)) % (256 - tma))
      && m1[0xFF06] == tma && m1[0xFF07] == m0[0xFF07]
      && TimerRequests(s, n) == if k < 256 - t then 0 else 1 + (k - (256 - t)) / (256 - tma)
  {
    hide Schedule.Invariant, TimerRequests, TimerUntouched, Ticks, T.Rate, T.Enabled;
    RateOfTac(s.bus.mem[0xFF07]);
    Progress(s, start, n);
  }

  // With TAC 4, 5, 6 or 7, any 256 clocks tick TIMA exactly 1, 64, 16 or 4 times, and DIV four times.
  lemma TicksIn256Clocks(s: System, start: nat)
    requires Schedule.Invariant(s, start) && s.clockCount < T.CLOCK_WRAP
    requires 4 <= s.bus.mem[0xFF07] <= 7 && TimerUntouched(s, 256)
    ensures var (m0, m1) := (s.bus.mem, Ticks(s, 256).bus.mem);
      var (div: int, t: int, tma: int) := (m0[0xFF04], m0[0xFF05], m0[0xFF06]);
      var ticks := [1, 64, 16, 4][m0[0xFF07] - 4];
      && m1[0xFF04] == (div + 4) % 256
      && m1[0xFF05] == (if t + ticks < 256 then t + ticks else tma + (t + ticks - 256) % (256 - tma))
      && TimerRequests(s, 256) == if t + ticks < 256 then 0 else 1 + (t + ticks - 256) / (256 - tma)
  {
    hide Schedule.Invariant, TimerRequests, TimerUntouched, Ticks;
    var selector := s.bus.mem[0xFF07] - 4;
    var (r, ticks) := ([256, 4, 16, 64][selector], [1, 64, 16, 4][selector]);
    assert s.bus.mem[0xFF07] % 4 == selector && r * ticks == 256;
    ClosedForm(s, start, 256);
    WholePeriods(s.clockCount, r, ticks);
    WholePeriods(s.clockCount, 64, 4);
  }

  lemma WholePeriods(c: nat, r: nat, k: nat)
    requires r > 0
    ensures (c + r * k) / r == c / r + k
  {
    assert c == r * (c / r) + c % r;
    assert r * (c / r + k) == r * (c / r) + r * k;
    QuotientIsUnique(c + r * k, r, c / r + k, c % r);
  }

  // With bit 2 of TAC clear TIMA stands still and requests nothing.
  lemma {:induction false} DisabledTimer(s: System, start: nat, n: nat)
    requires Schedule.Invariant(s, start)
    requires s.bus.mem[0xFF07] / 4 % 2 == 0 && TimerUntouched(s, n)
    ensures var (m0, m1) := (s.bus.mem, Ticks(s, n).bus.mem);
      m1[0xFF05] == m0[0xFF05] && m1[0xFF06] == m0[0xFF06] && m1[0xFF07] == m0[0xFF07]
    ensures TimerRequests(s, n) == 0
    ensures Schedule.Invariant(Ticks(s, n), start + n)
  {
    hide Tick, Schedule.Invariant, T.Enabled, T.Rate, T.Clock, C.Clock;
    if n > 0 {
      var u := Ticks(s, n - 1);
      DisabledTimer(s, start, n - 1);
      TickKeepsTimer(u, start + n - 1);
      RateOfTac(u.bus.mem[0xFF07]);
      DisabledClock(u.clockCount, u.bus);
    }
  }

  lemma DisabledClock(count: nat, b: Bus)
    requires !T.Enabled(b.mem[REG_TAC])
    ensures var o := T.Clock(count, b);
      && o.requests == []
      && forall a: Word :: a != REG_DIV ==> o.bus.mem[a] == b.mem[a]
  {
    hide T.Enabled;
  }
}
