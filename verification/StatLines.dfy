/** STAT interrupts per value of LY: how many there are on every line of every run, and when there are two. */
module StatLines {
  import opened Bytes
  import opened Registers
  import opened BusSpec
  import opened PpuSpec
  import opened SystemSpec
  import opened History
  import Frame
  import Response
  import Schedule

  /* One clock */

  function Granted(requests: seq<Interrupt>): nat { Response.Count(requests, Stat) }

  // The clock that enters HBlank, with its interrupt enabled at that moment
  predicate HBlankAsks(p: Ppu, b: Bus) { p.counter == 62 && b.mem[REG_LY] < HEIGHT && Bit(b.mem[REG_STAT], 3) }

  // Within a line only the entry into HBlank can ask, and it is granted unless the line has used up its request.
  lemma MidLineClock(p: Ppu, b: Bus)
    requires Consistent(p, b) && p.counter < 113
    ensures Granted(Clock(p, b).requests) == if HBlankAsks(p, b) && !p.statRequested then 1 else 0
    ensures Clock(p, b).ppu.statRequested == (p.statRequested || HBlankAsks(p, b))
  {
    hide DrawLine, AddSprite, BufferConsistent, EnterMode, LineEnd;
    match ModeOf(b)
    case OamScan =>
      var oam := AddSprite(b, AddSprite(b, p.oam, 2 * p.counter), 2 * p.counter + 1);
      EnterQuietly(p.(counter := p.counter + 1, oam := oam), b);
    case Drawing => EnterHBlank(p.(counter := p.counter + 1), b);
    case _ =>
  }

  lemma EnterQuietly(p: Ppu, b: Bus)
    ensures EnterMode(p, b, Drawing) == Outcome(p, WithMode(b, Drawing), [])
  {
  }

  lemma EnterHBlank(p: Ppu, b: Bus)
    ensures var o := EnterMode(p, b, HBlank);
      && Granted(o.requests) == (if Bit(b.mem[REG_STAT], 3) && !p.statRequested then 1 else 0)
      && o.ppu.statRequested == (p.statRequested || Bit(b.mem[REG_STAT], 3))
  {
    hide Bit, RaiseAll, WithMode;
  }

  // What the mode that starts with the next line is enabled to ask for: OAM_SCAN on a visible line, VBLANK on
  // line 144, nothing on the lines after it.
  predicate EntryAsks(b: Bus) {
    var ly := NextLine(b.mem[REG_LY]);
    if ly < HEIGHT then Bit(b.mem[REG_STAT], 5) else ly == HEIGHT && Bit(b.mem[REG_STAT], 4)
  }

  predicate HitsLyc(b: Bus) { NextLine(b.mem[REG_LY]) == b.mem[REG_LYC] && Bit(b.mem[REG_STAT], 6) }

  // The end of a line asks for the new mode and for LYC; unless LYC hits, the request is not held against
  // the new line.
  lemma LineEndClock(p: Ppu, b: Bus)
    requires Consistent(p, b) && p.counter == 113
    ensures Granted(Clock(p, b).requests) == if !p.statRequested && (EntryAsks(b) || HitsLyc(b)) then 1 else 0
    ensures Clock(p, b).ppu.statRequested == HitsLyc(b)
  {
    hide Bit, RaiseAll, LineStart, WithLycBit, BufferConsistent;
    LineStartAsks(p.(counter := 0), b);
  }

  lemma LineStartAsks(p: Ppu, b: Bus)
    requires b.mem[REG_LY] < FRAME_LINES
    requires ModeOf(b) == if b.mem[REG_LY] < HEIGHT then HBlank else Mode.VBlank
    ensures var o := LineStart(p, b);
      && Granted(o.requests) == (if !p.statRequested && EntryAsks(b) then 1 else 0)
      && o.ppu.statRequested == (p.statRequested || EntryAsks(b))
      && LycHit(o.bus) == HitsLyc(b)
  {
    hide Bit, RaiseAll, WithMode, EnterMode, ModeOf;
    var b1 := Poke(b, REG_LY, NextLine(b.mem[REG_LY]));
    EntryGrants(p, b1, OamScan);
    EntryGrants(p, b1, Mode.VBlank);
    assert b1.mem[REG_STAT] == b.mem[REG_STAT] && b1.mem[REG_LYC] == b.mem[REG_LYC];
    ModeOfBlank(b);
  }

  lemma ModeOfBlank(b: Bus)
    requires ModeOf(b) == if b.mem[REG_LY] < HEIGHT then HBlank else Mode.VBlank
    ensures ModeOf(b) == HBlank <==> b.mem[REG_LY] < HEIGHT
  {
  }

  lemma EntryGrants(p: Ppu, b: Bus, m: Mode)
    ensures var o := EnterMode(p, b, m);
      && Granted(o.requests) == (if AsksOnEntry(b, m) && !p.statRequested then 1 else 0)
      && o.ppu.statRequested == (p.statRequested || AsksOnEntry(b, m))
      && o.bus.mem[REG_LY] == b.mem[REG_LY] && o.bus.mem[REG_LYC] == b.mem[REG_LYC]
      && Bit(o.bus.mem[REG_STAT], 6) == Bit(b.mem[REG_STAT], 6)
  {
    hide Bit, RaiseAll, WithMode;
    ModeKeepsEnableBits(b, m);
    WithModeTouchesStat(b, m);
    RaiseAllKeepsDisplay(WithMode(b, m), EnterMode(p, b, m).requests);
  }

  lemma WithModeTouchesStat(b: Bus, m: Mode)
    ensures forall a: Word :: a != REG_STAT ==> WithMode(b, m).mem[a] == b.mem[a]
  {
  }

  // The stored LYC bit, bit 2 of STAT (0xFF41): set at a line end exactly if the new LY (0xFF44) equals LYC (0xFF45)
  // and its interrupt, bit 6, is enabled.
  lemma LycBit(p: Ppu, b: Bus)
    requires Consistent(p, b) && p.counter == 113
    ensures var m := Clock(p, b).bus.mem;
      Bit(m[0xFF41], 2) <==> m[0xFF44] == m[0xFF45] && Bit(m[0xFF41], 6)
  {
    hide Bit, RaiseAll, LineStart, WithLycBit, BufferConsistent;
    var o := LineStart(p.(counter := 0), b);
    var hit := LycHit(o.bus);
    RaiseAllKeepsDisplay(o.bus, StatRequest(o.ppu, hit));
    StoredBit(RaiseAll(o.bus, StatRequest(o.ppu, hit)), hit);
  }

  lemma StoredBit(b: Bus, on: bool)
    ensures var c := WithLycBit(b, on);
      && Bit(c.mem[0xFF41], 2) == on && Bit(c.mem[0xFF41], 6) == Bit(b.mem[0xFF41], 6)
      && forall a: Word :: a != 0xFF41 ==> c.mem[a] == b.mem[a]
  {
    var (v, w) := (b.mem[0xFF41], WithLycBit(b, on).mem[0xFF41]);
    assert v / 8 == w / 8 && w % 8 / 4 == (if on then 1 else 0);
    SameUpperBits(v, w);
    LowThreeBits(w, 2);
  }

  /* One line: the clock that ends the line before, and the first 113 of the line itself */

  function StatIn(h: seq<Moment>, t: nat): nat
    requires t <= |h|
  {
    if t == 0 then 0 else StatIn(h, t - 1) + Granted(h[t - 1].Next().requests)
  }

  predicate EndsLine(n: nat, y: nat) { n % FRAME_CLOCKS == LINE_CLOCKS * y + 113 && y < FRAME_LINES }

  lemma WithinNextLine(p: Ppu, b: Bus, n: nat, y: nat, k: nat)
    requires EndsLine(n, y) && k <= 113 && Schedule.OnSchedule(p, b, n + k)
    ensures b.mem[REG_LY] == if k == 0 then y else NextLine(y)
    ensures p.counter == if k == 0 then 113 else k - 1
  {
    hide ModeOf;
    Frame.AddWithinFrame(n, LINE_CLOCKS * y + 113, k);
    if k == 0 {
      Frame.PlaceInLine(y, 113);
    } else {
      Frame.PlaceInLine(NextLine(y), k - 1);
    }
  }

  // The request made on entry, and the one HBlank adds if the flag was dropped.
  function EntryCount(p: Ppu, b: Bus): nat { if !p.statRequested && (EntryAsks(b) || HitsLyc(b)) then 1 else 0 }

  function HBlankCount(b: Bus, atHBlank: Moment): nat {
    if HBlankAsks(atHBlank.ppu, atHBlank.bus) && !HitsLyc(b) then 1 else 0
  }

  lemma {:induction false} StatProgress(p: Ppu, h: seq<Moment>, n: nat, y: nat, t: nat)
    requires Lives(p, h, n) && EndsLine(n, y) && |h| == 114 && 1 <= t <= 114
    ensures At(p, h, t).statRequested == (HitsLyc(h[0].bus) || (t >= 64 && HBlankAsks(h[63].ppu, h[63].bus)))
    ensures StatIn(h, t) == EntryCount(p, h[0].bus) + if t >= 64 then HBlankCount(h[0].bus, h[63]) else 0
  {
    hide Clock, InOrder, HitsLyc, EntryAsks, Granted, EndsLine;
    var m := h[t - 1];
    InOrderIsConsistent(m.ppu, m.bus, n + t - 1, n, y, t - 1);
    if t == 1 {
      LineEndClock(p, h[0].bus);
      assert StatIn(h, 0) == 0;
    } else {
      StatProgress(p, h, n, y, t - 1);
      MidLineClock(m.ppu, m.bus);
    }
  }

  lemma InOrderIsConsistent(p: Ppu, b: Bus, now: nat, n: nat, y: nat, k: nat)
    requires InOrder(p, b, now) && now == n + k && EndsLine(n, y) && k <= 113
    ensures Consistent(p, b)
    ensures p.counter == if k == 0 then 113 else k - 1
    ensures b.mem[REG_LY] == if k == 0 then y else NextLine(y)
  {
    WithinNextLine(p, b, n, y, k);
    hide Clock;
    Schedule.PpuClockAdvancesSchedule(p, b, now);
  }

  /* Every line of every run */

  lemma PrefixKeepsCount(h: seq<Moment>, last: Moment, t: nat)
    requires t <= |h|
    ensures StatIn(h + [last], t) == StatIn(h, t)
  {
    hide Granted;
  }

  lemma {:induction false} CountsAgree(s: System, es: seq<Event>)
    ensures Response.PpuRequests(s, es, Stat) == StatIn(Moments(s, es), |Moments(s, es)|)
  {
    hide Step, Response.Count, AfterCpu, Clock;
    if |es| == 0 {
    } else {
      var (before, e) := (es[..|es| - 1], es[|es| - 1]);
      var (h, u) := (Moments(s, before), Run(s, before));
      CountsAgree(s, before);
      if e == MachineClock {
        PrefixKeepsCount(h, Moment(u.ppu, AfterCpu(u)), |h|);
      } else {
        assert Moments(s, es) == h;
      }
    }
  }

  // The STAT requests made while LY has the value that follows y, for every program and every line.
  lemma StatPerLine(s: System, es: seq<Event>, n: nat, y: nat)
    requires Schedule.Invariant(s, n) && EndsLine(n, y) && Clocks(es) == 114
    ensures |Moments(s, es)| == 114
    ensures var h := Moments(s, es);
      Response.PpuRequests(s, es, Stat) == EntryCount(s.ppu, h[0].bus) + HBlankCount(h[0].bus, h[63])
  {
    hide Schedule.Invariant, Lives, At, EndsLine, EntryCount, HBlankCount, StatIn;
    RunLives(s, es, n);
    CountsAgree(s, es);
    StatProgress(s.ppu, Moments(s, es), n, y, 114);
  }

  // "At most one STAT interrupt per line" fails per value of LY, and exactly then: the line is visible, mode 2
  // asks on entry with nothing requested before, LYC does not hit, so that the flag is dropped at once, and
  // mode 0 asks by the time HBlank is entered. There are never more than two.
  lemma TwoPerLine(s: System, es: seq<Event>, n: nat, y: nat)
    requires Schedule.Invariant(s, n) && EndsLine(n, y) && Clocks(es) == 114
    ensures |Moments(s, es)| == 114
    ensures Response.PpuRequests(s, es, Stat) <= 2
    ensures var (atEntry, atHBlank) := (Moments(s, es)[0].bus, Moments(s, es)[63].bus);
      Response.PpuRequests(s, es, Stat) == 2 <==>
        && NextLine(y) < HEIGHT && !s.ppu.statRequested
        && Bit(atEntry.mem[REG_STAT], 5) && !HitsLyc(atEntry)
        && Bit(atHBlank.mem[REG_STAT], 3)
  {
    hide Schedule.Invariant, At, EndsLine, HitsLyc, Bit, Clock;
    var h := Moments(s, es);
    StatPerLine(s, es, n, y);
    RunLives(s, es, n);
    InOrderIsConsistent(h[0].ppu, h[0].bus, n, n, y, 0);
    InOrderIsConsistent(h[63].ppu, h[63].bus, n + 63, n, y, 63);
  }
}
