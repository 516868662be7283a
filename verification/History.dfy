/** What the PPU lives through: at every clock its own state and the bus it then sees, whoever wrote to it. */
module History {
  import opened BusSpec
  import opened SystemSpec
  import Schedule
  import P = PpuSpec

  datatype Moment = Moment(ppu: P.Ppu, bus: Bus) {
    function Next(): P.Outcome { P.Clock(ppu, bus) }
  }

  // The PPU after the first t clocks of a history that starts with p.
  function At(p: P.Ppu, h: seq<Moment>, t: nat): P.Ppu
    requires t <= |h|
  {
    if t == 0 then p else h[t - 1].Next().ppu
  }

  ghost predicate InOrder(p: P.Ppu, b: Bus, n: nat) { Schedule.OnSchedule(p, b, n) && P.BufferConsistent(p, b) }

  // h starts with p at clock n, every clock hands its PPU to the next, and none finds the display disturbed.
  ghost predicate Lives(p: P.Ppu, h: seq<Moment>, n: nat) {
    forall k: nat :: k < |h| ==> h[k].ppu == At(p, h, k) && InOrder(h[k].ppu, h[k].bus, n + k)
  }

  // A history may be watched from any of its clocks on.
  lemma LivesOn(p: P.Ppu, h: seq<Moment>, n: nat, j: nat)
    requires Lives(p, h, n) && j <= |h|
    ensures Lives(At(p, h, j), h[j..], n + j)
    ensures forall t: nat :: t <= |h| - j ==> At(At(p, h, j), h[j..], t) == At(p, h, j + t)
  {
    hide P.Clock, InOrder;
    forall t: nat | t <= |h| - j ensures At(At(p, h, j), h[j..], t) == At(p, h, j + t) {
    }
    forall k: nat | k < |h[j..]|
      ensures h[j..][k].ppu == At(At(p, h, j), h[j..], k) && InOrder(h[j..][k].ppu, h[j..][k].bus, n + j + k)
    {
      assert h[j..][k] == h[j + k];
    }
  }

  /* Every run of the machine is such a history, whatever the program and the user do */

  function Moments(s: System, es: seq<Event>): seq<Moment> {
    if |es| == 0 then []
    else
      var (before, e) := (es[..|es| - 1], es[|es| - 1]);
      var u := Run(s, before);
      Moments(s, before) + if e == MachineClock then [Moment(u.ppu, AfterCpu(u))] else []
  }

  lemma MachineMoment(s: System, n: nat)
    requires Schedule.Invariant(s, n)
    ensures InOrder(s.ppu, AfterCpu(s), n)
  {
    hide P.Clock, AfterCpu, P.Consistent;
    Schedule.CpuCannotDisturb(s, n);
  }

  lemma {:induction false} RunLives(s: System, es: seq<Event>, n: nat)
    requires Schedule.Invariant(s, n)
    ensures |Moments(s, es)| == Clocks(es)
    ensures Lives(s.ppu, Moments(s, es), n)
    ensures At(s.ppu, Moments(s, es), Clocks(es)) == Run(s, es).ppu
    ensures Schedule.Invariant(Run(s, es), n + Clocks(es))
  {
    hide Schedule.Invariant, InOrder, Lives, At, Step, AfterCpu;
    if |es| == 0 {
      NothingLived(s.ppu, n);
    } else {
      var (before, e) := (es[..|es| - 1], es[|es| - 1]);
      var u := Run(s, before);
      RunLives(s, before, n);
      Schedule.StepKeepsInvariant(u, e, n + Clocks(before));
      EventKeepsPpu(u, e);
      if e == MachineClock {
        MachineMoment(u, n + Clocks(before));
        OneMoreMoment(s.ppu, Moments(s, before), n, Moment(u.ppu, AfterCpu(u)));
      } else {
        assert Moments(s, es) == Moments(s, before);
      }
    }
  }

  // Only the clock moves the PPU.
  lemma EventKeepsPpu(s: System, e: Event)
    ensures Step(s, e).ppu == if e == MachineClock then Moment(s.ppu, AfterCpu(s)).Next().ppu else s.ppu
  {
    hide P.Clock, AfterCpu, BootSkipped, SetJoypadTo;
  }

  lemma NothingLived(p: P.Ppu, n: nat)
    ensures Lives(p, [], n) && At(p, [], 0) == p
  {
  }

  lemma OneMoreMoment(p: P.Ppu, h: seq<Moment>, n: nat, last: Moment)
    requires Lives(p, h, n) && last.ppu == At(p, h, |h|) && InOrder(last.ppu, last.bus, n + |h|)
    ensures Lives(p, h + [last], n)
    ensures At(p, h + [last], |h| + 1) == last.Next().ppu
  {
    hide P.Clock, InOrder;
    var g := h + [last];
    forall k: nat | k < |g| ensures g[k].ppu == At(p, g, k) && InOrder(g[k].ppu, g[k].bus, n + k) {
      assert At(p, g, k) == At(p, h, k);
      assert k < |h| ==> g[k] == h[k];
    }
  }

  /* So is the PPU clocked on its own */

  function PpuAlone(p: P.Ppu, b: Bus, t: nat): Moment {
    if t == 0 then Moment(p, b)
    else
      var o := PpuAlone(p, b, t - 1).Next();
      Moment(o.ppu, o.bus)
  }

  function MomentsAlone(p: P.Ppu, b: Bus, t: nat): seq<Moment> { seq(t, (k: nat) => PpuAlone(p, b, k)) }

  lemma {:induction false} AloneLives(p: P.Ppu, b: Bus, n: nat, t: nat)
    requires InOrder(p, b, n)
    ensures InOrder(PpuAlone(p, b, t).ppu, PpuAlone(p, b, t).bus, n + t)
    ensures P.OnlyPpuRegistersDiffer(b, PpuAlone(p, b, t).bus)
    ensures Lives(p, MomentsAlone(p, b, t), n)
    ensures At(p, MomentsAlone(p, b, t), t) == PpuAlone(p, b, t).ppu
  {
    hide P.Clock, InOrder, Lives, At, P.OnlyPpuRegistersDiffer;
    if t == 0 {
      NothingLived(p, n);
      assert MomentsAlone(p, b, t) == [];
      SameBus(b);
    } else {
      var (h, last) := (MomentsAlone(p, b, t - 1), PpuAlone(p, b, t - 1));
      AloneLives(p, b, n, t - 1);
      NextAlone(last, b, n + t - 1);
      OneMoreMoment(p, h, n, last);
      assert MomentsAlone(p, b, t) == h + [last];
    }
  }

  lemma SameBus(b: Bus)
    ensures P.OnlyPpuRegistersDiffer(b, b)
  {
  }

  lemma NextAlone(m: Moment, b: Bus, n: nat)
    requires InOrder(m.ppu, m.bus, n) && P.OnlyPpuRegistersDiffer(b, m.bus)
    ensures InOrder(m.Next().ppu, m.Next().bus, n + 1) && P.OnlyPpuRegistersDiffer(b, m.Next().bus)
  {
    hide P.Clock, Schedule.OnSchedule, P.BufferConsistent, P.Consistent;
    Schedule.PpuClockAdvancesSchedule(m.ppu, m.bus, n);
    P.ClockSteps(m.ppu, m.bus);
  }
}
