/** Interrupt requests: none is lost, none is made up, and an enabled one is served in bounded time. */
module Interrupts {
  import opened Bytes
  import opened Registers
  import opened BusSpec
  import opened SystemSpec
  import T = TimerSpec
  import C = CpuSpec
  import P = PpuSpec

  /* What one write does to the request register */

  function Requested(b: Bus, i: Interrupt): nat { BitValue(b.mem[REG_IF], i.Index()) }

  lemma RaiseSetsOneBit(b: Bus, i: Interrupt, j: Interrupt)
    ensures Requested(Raise(b, i), j) == if i == j then 1 else Requested(b, j)
  {
    SetBitSetsOnlyThatBit(FiveBits(b.mem[REG_IF]), i.Index(), true, j.Index());
    LowFiveBits(b.mem[REG_IF], j.Index());
  }

  lemma AcknowledgeClearsOneBit(b: Bus, i: Interrupt, j: Interrupt)
    ensures BitValue(C.Acknowledged(b, i), j.Index()) == if i == j then 0 else Requested(b, j)
  {
    SetBitSetsOnlyThatBit(FiveBits(b.mem[REG_IF]), i.Index(), false, j.Index());
    LowFiveBits(b.mem[REG_IF], j.Index());
  }

  // How many of a list of requests for i found its bit clear.
  function RaisedBy(b: Bus, requests: seq<Interrupt>, i: Interrupt): nat
    decreases |requests|
  {
    if |requests| == 0 then 0
    else (if requests[0] == i then 1 - Requested(b, i) else 0) + RaisedBy(Raise(b, requests[0]), requests[1..], i)
  }

  lemma {:induction false} RaiseAllCounts(b: Bus, requests: seq<Interrupt>, i: Interrupt)
    ensures Requested(RaiseAll(b, requests), i) == Requested(b, i) + RaisedBy(b, requests, i)
    decreases |requests|
  {
    if |requests| > 0 {
      RaiseSetsOneBit(b, requests[0], i);
      RaiseAllCounts(Raise(b, requests[0]), requests[1..], i);
    }
  }

  // The outcome depends on the request register alone.
  lemma {:induction false} RaiseAllDependsOnIF(b: Bus, c: Bus, requests: seq<Interrupt>, i: Interrupt)
    requires b.mem[REG_IF] == c.mem[REG_IF]
    ensures RaiseAll(b, requests).mem[REG_IF] == RaiseAll(c, requests).mem[REG_IF]
    ensures RaisedBy(b, requests, i) == RaisedBy(c, requests, i)
    decreases |requests|
  {
    if |requests| > 0 {
      RaiseAllDependsOnIF(Raise(b, requests[0]), Raise(c, requests[0]), requests[1..], i);
    }
  }

  lemma {:induction false} RaiseAllConcat(b: Bus, xs: seq<Interrupt>, ys: seq<Interrupt>)
    ensures RaiseAll(b, xs + ys) == RaiseAll(RaiseAll(b, xs), ys)
    decreases |xs|
  {
    if |xs| == 0 {
      assert xs + ys == ys;
    } else {
      assert (xs + ys)[1..] == xs[1..] + ys;
      RaiseAllConcat(Raise(b, xs[0]), xs[1..], ys);
    }
  }

  /* The components' own requests */

  lemma TimerRaises(s: System, i: Interrupt)
    ensures Requested(TimerPart(s).bus, i) == Requested(s.bus, i) + RaisedBy(s.bus, TimerPart(s).requests, i)
  {
    RaiseAllCounts(s.bus, TimerPart(s).requests, i);
    var count := (s.clockCount + 1) % T.CLOCK_WRAP;
    var b := if T.DivTicks(count) then T.TickDiv(s.bus) else s.bus;
    RaiseAllDependsOnIF(s.bus, T.TickTima(b), TimerPart(s).requests, i);
  }

  // IF after a PPU clock is IF before it with the requests of that clock raised.
  lemma PpuClockRaises(p: P.Ppu, b: Bus)
    ensures P.Clock(p, b).bus.mem[REG_IF] == RaiseAll(b, P.Clock(p, b).requests).mem[REG_IF]
  {
    hide P.DrawLine, P.AddSprite, Raise;
    var p1 := p.(counter := (p.counter + 1) % 0x100);
    match P.ModeOf(b)
    case OamScan => EnterModeRaises(p1, b, P.Drawing);
    case Drawing => EnterModeRaises(p1, b, P.HBlank);
    case _ => LineEndRaises(p1.(counter := 0), b);
  }

  lemma EnterModeRaises(p: P.Ppu, b: Bus, m: P.Mode)
    ensures P.EnterMode(p, b, m).bus.mem[REG_IF] == RaiseAll(b, P.EnterMode(p, b, m).requests).mem[REG_IF]
  {
    hide Raise;
    RaiseAllDependsOnIF(b, P.WithMode(b, m), P.EnterMode(p, b, m).requests, Stat);
  }

  lemma LineEndRaises(p: P.Ppu, b: Bus)
    ensures P.LineEnd(p, b).bus.mem[REG_IF] == RaiseAll(b, P.LineEnd(p, b).requests).mem[REG_IF]
  {
    hide Raise, P.EnterMode;
    var ly := b.mem[REG_LY];
    var b1 := Poke(b, REG_LY, P.NextLine(ly));
    var o := P.LineStart(p, b);
    EnterModeRaises(p, b1, P.OamScan);
    EnterModeRaises(p, b1, P.Mode.VBlank);
    RaiseAllDependsOnIF(b, b1, o.requests, Stat);
    var r := P.StatRequest(o.ppu, P.LycHit(o.bus));
    RaiseAllDependsOnIF(o.bus, RaiseAll(b, o.requests), r, Stat);
    RaiseAllConcat(b, o.requests, r);
  }

  /* The CPU: dispatches take a request away, plain writes elsewhere leave the register alone */

  // The interrupt the CPU dispatches in this clock.
  function Dispatched(s: System): Option<Interrupt> {
    if !s.cpu.crashed && s.cpu.busy == 0 && s.cpu.ime then C.FirstPending(TimerPart(s).bus) else None
  }

  function DispatchCount(s: System, i: Interrupt): nat { if Dispatched(s) == Some(i) then 1 else 0 }

  // The writes the program makes in this clock: all but the acknowledgement of a dispatch.
  function ProgramStores(s: System): seq<Store> {
    if Dispatched(s).Some? then CpuPart(s).stores[1..] else CpuPart(s).stores
  }

  predicate AvoidsIF(stores: seq<Store>) { forall i :: 0 <= i < |stores| ==> stores[i].0 != REG_IF }

  lemma {:induction false} WriteAllKeepsIF(b: Bus, stores: seq<Store>)
    requires AvoidsIF(stores)
    ensures WriteAll(b, stores).mem[REG_IF] == b.mem[REG_IF]
    decreases |stores|
  {
    if |stores| > 0 {
      WriteAllKeepsIF(Write(b, stores[0].0, stores[0].1, FromCpu), stores[1..]);
    }
  }

  lemma DispatchStores(s: System)
    ensures Dispatched(s).Some? ==>
      && CpuPart(s) == C.Dispatch(s.cpu, TimerPart(s).bus, Dispatched(s).value)
      && CpuPart(s).stores == [(REG_IF, C.Acknowledged(TimerPart(s).bus, Dispatched(s).value))] + ProgramStores(s)
      && IsRaised(TimerPart(s).bus, Dispatched(s).value)
  {
    hide C.Execute, Write, T.Clock;
  }

  lemma CpuTakesRequests(s: System, i: Interrupt)
    requires AvoidsIF(ProgramStores(s))
    ensures Requested(AfterCpu(s), i) + DispatchCount(s, i) == Requested(TimerPart(s).bus, i)
  {
    hide C.Clock, T.Clock, C.FirstPending;
    var b := TimerPart(s).bus;
    DispatchStores(s);
    if Dispatched(s).Some? {
      var j := Dispatched(s).value;
      WriteAllFirst(b, (REG_IF, C.Acknowledged(b, j)), ProgramStores(s));
      WriteAllKeepsIF(Write(b, REG_IF, C.Acknowledged(b, j), FromCpu), ProgramStores(s));
      AcknowledgeClearsOneBit(b, j, i);
    } else {
      WriteAllKeepsIF(b, CpuPart(s).stores);
    }
  }

  /* Conservation over runs */

  // Requests for i that raised its bit during e.
  function Raised(s: System, e: Event, i: Interrupt): nat {
    match e
    case MachineClock => RaisedBy(s.bus, TimerPart(s).requests, i) + RaisedBy(AfterCpu(s), PpuPart(s).requests, i)
    case SetJoypad(v) => if s.bus.joypadStatus == v then 0 else RaisedBy(s.bus, [JoypadEdge], i)
    case SkipBoot => 0
  }

  function TotalRaised(s: System, es: seq<Event>, i: Interrupt): nat {
    if |es| == 0 then 0
    else
      var (before, e) := (es[..|es| - 1], es[|es| - 1]);
      TotalRaised(s, before, i) + Raised(Run(s, before), e, i)
  }

  function TotalDispatched(s: System, es: seq<Event>, i: Interrupt): nat {
    if |es| == 0 then 0
    else
      var (before, e) := (es[..|es| - 1], es[|es| - 1]);
      TotalDispatched(s, before, i) + if e == MachineClock then DispatchCount(Run(s, before), i) else 0
  }

  // No write of the program and no forced register reaches IF during the run.
  ghost predicate LeavesIFAlone(s: System, es: seq<Event>) {
    forall k :: 0 <= k < |es| ==>
      es[k] != SkipBoot && (es[k] == MachineClock ==> AvoidsIF(ProgramStores(Run(s, es[..k]))))
  }

  lemma ClockConserves(s: System, i: Interrupt)
    requires AvoidsIF(ProgramStores(s))
    ensures Requested(s.bus, i) + Raised(s, MachineClock, i) == Requested(Tick(s).bus, i) + DispatchCount(s, i)
  {
    hide T.Clock, C.Clock, P.Clock;
    TimerRaises(s, i);
    CpuTakesRequests(s, i);
    PpuClockRaises(s.ppu, AfterCpu(s));
    RaiseAllCounts(AfterCpu(s), PpuPart(s).requests, i);
  }

  lemma JoypadConserves(s: System, v: Byte, i: Interrupt)
    ensures Requested(s.bus, i) + Raised(s, SetJoypad(v), i) == Requested(Step(s, SetJoypad(v)).bus, i)
  {
    hide Tick, BootSkipped, Raise;
    if s.bus.joypadStatus != v {
      var b := Poke(s.bus.(joypadStatus := v), REG_JOIP, v);
      RaiseAllCounts(s.bus, [JoypadEdge], i);
      RaiseAllDependsOnIF(s.bus, b, [JoypadEdge], i);
      assert RaiseAll(b, [JoypadEdge]) == Raise(b, JoypadEdge);
    }
  }

  // The main result: on every run whose writes avoid IF, what was requested and what was already
  // pending is exactly what was dispatched and what is still pending, for every source.
  lemma {:induction false} Conservation(s: System, es: seq<Event>, i: Interrupt)
    requires LeavesIFAlone(s, es)
    ensures Requested(s.bus, i) + TotalRaised(s, es, i) == Requested(Run(s, es).bus, i) + TotalDispatched(s, es, i)
  {
    hide Step, Raised, DispatchCount, ProgramStores;
    if |es| > 0 {
      var before := es[..|es| - 1];
      assert forall k :: 0 <= k < |before| ==> before[..k] == es[..k];
      Conservation(s, before, i);
      LastEventConserves(Run(s, before), es[|es| - 1], i);
    }
  }

  lemma LastEventConserves(s: System, e: Event, i: Interrupt)
    requires e != SkipBoot && (e == MachineClock ==> AvoidsIF(ProgramStores(s)))
    ensures Requested(s.bus, i) + Raised(s, e, i) ==
      Requested(Step(s, e).bus, i) + if e == MachineClock then DispatchCount(s, i) else 0
  {
    hide Tick, Raised, ProgramStores;
    match e
    case MachineClock => ClockConserves(s, i);
    case SetJoypad(v) => JoypadConserves(s, v, i);
  }
}
