/** What ends up on the screen: every line shows what the PPU saw on the clock that drew it. */
module Frame {
  import opened Bytes
  import opened Registers
  import opened BusSpec
  import opened PpuSpec
  import opened SystemSpec
  import opened History
  import Schedule

  /* What the picture depends on */

  predicate IsVideoInput(a: Word) {
    || 0x8000 <= a < 0xA000
    || OAM_MEMORY_LOWER_BOUND <= a < OAM_MEMORY_LOWER_BOUND + DMA_LENGTH
    || a == REG_LCDC || a == REG_SCY || a == REG_SCX || a == REG_WY || a == REG_WX
    || a == REG_BGP || a == REG_OBP0 || a == REG_OBP1
  }

  ghost predicate SameVideo(b: Bus, c: Bus) {
    forall a: Word :: IsVideoInput(a) ==> c.mem[a] == b.mem[a]
  }

  lemma SameLayer(b: Bus, c: Bus, window: bool, px: Byte, py: Byte)
    requires SameVideo(b, c)
    ensures LayerColor(b, window, px, py) == LayerColor(c, window, px, py)
  {
    assert IsVideoInput(REG_LCDC);
    var m := TileMap(b, window);
    assert IsVideoInput(m + py / 8 * 32 + px / 8);
    var row := TileRow(b, m, px, py);
    assert row == TileRow(c, m, px, py);
    assert IsVideoInput(row) && IsVideoInput(row + 1);
  }

  lemma SameBackdrop(b: Bus, c: Bus, x: nat, y: Byte)
    requires SameVideo(b, c)
    ensures Backdrop(b, x, y) == Backdrop(c, x, y)
  {
    hide LayerColor, ApplyPalette;
    assert IsVideoInput(REG_LCDC) && IsVideoInput(REG_WX) && IsVideoInput(REG_WY);
    assert IsVideoInput(REG_SCX) && IsVideoInput(REG_SCY) && IsVideoInput(REG_BGP);
    SameLayer(b, c, true, Low8(x - b.mem[REG_WX] + 7), WindowRow(b, y));
    SameLayer(b, c, false, Low8(x + b.mem[REG_SCX]), BackgroundRow(b, y));
  }

  lemma SameSpriteRow(b: Bus, c: Bus, s: Sprite, y: Byte)
    requires SameVideo(b, c)
    ensures var row := SpriteRow(b, s, y);
      row == SpriteRow(c, s, y) && b.mem[row] == c.mem[row] && b.mem[row + 1] == c.mem[row + 1]
  {
    assert IsVideoInput(REG_LCDC);
    var row := SpriteRow(b, s, y);
    assert IsVideoInput(row) && IsVideoInput(row + 1);
  }

  lemma SameSprite(b: Bus, c: Bus, s: Sprite, x: Byte, y: Byte)
    requires SameVideo(b, c)
    ensures Shows(b, s, x, y) == Shows(c, s, x, y)
    ensures Covers(s, x) ==> SpritePixel(b, s, x, y) == SpritePixel(c, s, x, y)
  {
    hide LayerColor, ApplyPalette, ColorAt, SpriteRow;
    assert IsVideoInput(REG_SCY) && IsVideoInput(REG_OBP0) && IsVideoInput(REG_OBP1);
    SameSpriteRow(b, c, s, y);
    SameLayer(b, c, false, x, BackgroundRow(b, y));
  }

  lemma {:induction false} SameTopmost(b: Bus, c: Bus, sprites: seq<Sprite>, x: Byte, y: Byte, under: Color)
    requires SameVideo(b, c)
    ensures Topmost(b, sprites, x, y, under) == Topmost(c, sprites, x, y, under)
    decreases |sprites|
  {
    if |sprites| > 0 {
      SameSprite(b, c, sprites[|sprites| - 1], x, y);
      SameTopmost(b, c, sprites[..|sprites| - 1], x, y, under);
    }
  }

  lemma SamePixel(b: Bus, c: Bus, sprites: seq<Sprite>, x: Byte, y: Byte)
    requires SameVideo(b, c)
    ensures Pixel(b, sprites, x, y) == Pixel(c, sprites, x, y)
  {
    assert IsVideoInput(REG_LCDC);
    SameBackdrop(b, c, x, y);
    SameTopmost(b, c, sprites, x, y, Backdrop(b, x, y));
  }

  /* The OAM scan reads OAM and LCDC and nothing else */

  predicate IsScanInput(a: Word) {
    OAM_MEMORY_LOWER_BOUND <= a < OAM_MEMORY_LOWER_BOUND + DMA_LENGTH || a == REG_LCDC
  }

  ghost predicate SameScanInputs(b: Bus, c: Bus) {
    forall a: Word :: IsScanInput(a) ==> c.mem[a] == b.mem[a]
  }

  lemma SameSpriteEntry(b: Bus, c: Bus, k: nat, y: Byte)
    requires SameScanInputs(b, c) && k < 40
    ensures SpriteAt(b, k) == SpriteAt(c, k) && OnLine(b, SpriteAt(b, k), y) == OnLine(c, SpriteAt(c, k), y)
  {
    var a: Word := OAM_MEMORY_LOWER_BOUND + 4 * k;
    assert IsScanInput(a) && IsScanInput(Plus(a, 1)) && IsScanInput(Plus(a, 2)) && IsScanInput(Plus(a, 3));
    assert IsScanInput(REG_LCDC);
  }

  // The sprites among the first k OAM entries that touch line y, each entry looked up on its own clock.
  function Sighted(h: seq<Moment>, y: Byte, k: nat): seq<Sprite>
    requires k <= 2 * |h|
  {
    if k == 0 then []
    else
      var b := h[(k - 1) / 2].bus;
      var s := SpriteAt(b, k - 1);
      Sighted(h, y, k - 1) + if OnLine(b, s, y) then [s] else []
  }

  lemma {:induction false} SightedIsTouching(b: Bus, h: seq<Moment>, y: Byte, k: nat)
    requires k <= 2 * |h| && k <= 40
    requires forall j: nat :: j < |h| && 2 * j < k ==> SameScanInputs(b, h[j].bus)
    ensures Sighted(h, y, k) == Touching(b, y, k)
  {
    hide SameScanInputs, SpriteAt, OnLine;
    if k > 0 {
      assert 2 * ((k - 1) / 2) < k;
      SameSpriteEntry(b, h[(k - 1) / 2].bus, k - 1, y);
      SightedIsTouching(b, h, y, k - 1);
    }
  }

  // A clock of OAM_SCAN takes in two entries.
  lemma ScanClock(p: Ppu, b: Bus, seen: seq<Sprite>)
    requires ModeOf(b) == OamScan && p.oam == FirstTen(seen)
    ensures var (y, k) := (b.mem[REG_LY], 2 * p.counter);
      var seen1 := seen + if OnLine(b, SpriteAt(b, k), y) then [SpriteAt(b, k)] else [];
      var seen2 := seen1 + if OnLine(b, SpriteAt(b, k + 1), y) then [SpriteAt(b, k + 1)] else [];
      Clock(p, b).ppu.oam == FirstTen(seen2)
  {
    hide SpriteAt, OnLine, FirstTen, AddSprite;
    var k: nat := 2 * p.counter;
    AddSpriteExtendsScan(b, seen, k);
    var seen1 := seen + if OnLine(b, SpriteAt(b, k), b.mem[REG_LY]) then [SpriteAt(b, k)] else [];
    AddSpriteExtendsScan(b, seen1, k + 1);
  }

  /* Where in the frame a clock is */

  // Clock n is the first of visible line y.
  predicate StartsLine(n: nat, y: nat) { n % FRAME_CLOCKS == LINE_CLOCKS * y && y < HEIGHT }

  // Clock n draws line y.
  predicate DrawsLine(n: nat, y: nat) { n % FRAME_CLOCKS == LINE_CLOCKS * y + 20 }

  lemma PlaceInFrame(n: nat, y: nat, t: nat)
    requires StartsLine(n, y) && t < LINE_CLOCKS
    ensures (n + t) % FRAME_CLOCKS == LINE_CLOCKS * y + t
    ensures (n + t) % FRAME_CLOCKS / LINE_CLOCKS == y && (n + t) % FRAME_CLOCKS % LINE_CLOCKS == t
  {
    var u: nat := LINE_CLOCKS * y + t;
    AddWithinFrame(n, u - t, t);
    PlaceInLine(y, t);
  }

  lemma AddWithinFrame(n: nat, r: nat, t: nat)
    requires n % FRAME_CLOCKS == r && t < 2 * FRAME_CLOCKS
    ensures (n + t) % FRAME_CLOCKS ==
      if r + t < FRAME_CLOCKS then r + t else if r + t < 2 * FRAME_CLOCKS then r + t - FRAME_CLOCKS
      else r + t - 2 * FRAME_CLOCKS
  {
    assert n == FRAME_CLOCKS * (n / FRAME_CLOCKS) + r;
  }

  lemma PlaceInLine(y: nat, t: nat)
    requires t < LINE_CLOCKS
    ensures (LINE_CLOCKS * y + t) / LINE_CLOCKS == y && (LINE_CLOCKS * y + t) % LINE_CLOCKS == t
  {
  }

  lemma DuringScan(p: Ppu, b: Bus, n: nat, y: nat, t: nat)
    requires StartsLine(n, y) && t <= 20 && Schedule.OnSchedule(p, b, n + t)
    ensures b.mem[REG_LY] == y && p.counter == t && (t < 20 ==> ModeOf(b) == OamScan)
  {
    hide ModeOf;
    PlaceInFrame(n, y, t);
  }

  // A line is drawn once a frame.
  lemma DrawnOncePerFrame(n: nat, y: nat, t: nat)
    requires StartsLine(n, y) && t < FRAME_CLOCKS + 20
    ensures DrawsLine(n + t, y) <==> t == 20
  {
    AddWithinFrame(n, LINE_CLOCKS * y, t);
  }

  lemma DrawingClock(n: nat, y: nat)
    requires y < HEIGHT
    ensures DrawsLine(n, y) <==> n % FRAME_CLOCKS / LINE_CLOCKS == y && n % FRAME_CLOCKS % LINE_CLOCKS == 20
  {
    var t := n % FRAME_CLOCKS;
    assert t == LINE_CLOCKS * (t / LINE_CLOCKS) + t % LINE_CLOCKS;
  }

  /* One line, for any history: any program, any user, any writes to video memory at any time */

  lemma {:induction false} ScanProgress(p: Ppu, h: seq<Moment>, n: nat, y: Byte, t: nat)
    requires Lives(p, h, n) && StartsLine(n, y) && 1 <= |h| && t <= |h| && t <= 20
    ensures At(p, h, t).oam == FirstTen(Sighted(h, y, 2 * t))
  {
    hide Clock, FirstTen, InOrder, StartsLine, Sighted;
    if t == 0 {
      FirstScanClock(h[0].ppu, h[0].bus, n, y);
      NothingSighted(h, y);
    } else {
      ScanProgress(p, h, n, y, t - 1);
      ScanStep(h, n, y, t - 1);
    }
  }

  lemma NothingSighted(h: seq<Moment>, y: Byte)
    ensures Sighted(h, y, 0) == []
  {
  }

  lemma FirstScanClock(p: Ppu, b: Bus, n: nat, y: Byte)
    requires StartsLine(n, y) && InOrder(p, b, n)
    ensures p.oam == [] == FirstTen([])
  {
    hide StartsLine;
    DuringScan(p, b, n, y, 0);
  }

  lemma ScanStep(h: seq<Moment>, n: nat, y: Byte, j: nat)
    requires StartsLine(n, y) && j < |h| && j < 20 && InOrder(h[j].ppu, h[j].bus, n + j)
    requires h[j].ppu.oam == FirstTen(Sighted(h, y, 2 * j))
    ensures h[j].Next().ppu.oam == FirstTen(Sighted(h, y, 2 * j + 2))
  {
    hide Clock, SpriteAt, OnLine, FirstTen, Schedule.OnSchedule, StartsLine, BufferConsistent, Sighted;
    DuringScan(h[j].ppu, h[j].bus, n, y, j);
    ScanClock(h[j].ppu, h[j].bus, Sighted(h, y, 2 * j));
    SightedTwoMore(h, y, j);
  }

  lemma SightedTwoMore(h: seq<Moment>, y: Byte, j: nat)
    requires j < |h|
    ensures var b := h[j].bus;
      var seen1 := Sighted(h, y, 2 * j) + if OnLine(b, SpriteAt(b, 2 * j), y) then [SpriteAt(b, 2 * j)] else [];
      Sighted(h, y, 2 * j + 2) ==
        seen1 + if OnLine(b, SpriteAt(b, 2 * j + 1), y) then [SpriteAt(b, 2 * j + 1)] else []
  {
    hide SpriteAt, OnLine;
    assert Sighted(h, y, 2 * j + 1) == Sighted(h, y, 2 * j) +
      if OnLine(h[j].bus, SpriteAt(h[j].bus, 2 * j), y) then [SpriteAt(h[j].bus, 2 * j)] else [];
  }

  // What one clock does to one pixel.
  lemma ClockPixel(p: Ppu, b: Bus, n: nat, x: Byte, y: Byte)
    requires InOrder(p, b, n) && x < WIDTH && y < HEIGHT
    ensures Clock(p, b).ppu.screen[x + WIDTH * y] ==
      if DrawsLine(n, y) then Pixel(b, p.oam, x, y) else p.screen[x + WIDTH * y]
  {
    DrawingClock(n, y);
    hide DrawsLine, Pixel, BufferConsistent, Clock;
    if b.mem[REG_LY] < HEIGHT && p.counter == 20 {
      ScreenDrawn(p, b, x, y);
    } else {
      ScreenStays(p, b);
    }
  }

  lemma ScreenDrawn(p: Ppu, b: Bus, x: Byte, y: Byte)
    requires ModeOf(b) == Drawing && p.counter == 20 && x < WIDTH && y < HEIGHT
    ensures Clock(p, b).ppu.screen[x + WIDTH * y] ==
      if b.mem[REG_LY] == y then Pixel(b, p.oam, x, y) else p.screen[x + WIDTH * y]
  {
    hide Pixel, AddSprite, EnterMode, LineEnd;
    var i: nat := x + WIDTH * y;
    assert i / WIDTH == y && i % WIDTH == x;
    assert Clock(p, b).ppu.screen[i] == AfterDraw(p.screen, b, p.oam, i);
  }

  lemma ScreenStays(p: Ppu, b: Bus)
    requires ModeOf(b) == Drawing ==> p.counter != 20
    requires p.counter < LINE_CLOCKS
    ensures Clock(p, b).ppu.screen == p.screen
  {
    hide AddSprite, RaiseAll, Bit, DrawLine;
  }

  // Once drawn, a pixel keeps its colour until its line is drawn again.
  lemma {:induction false} PixelStays(p: Ppu, h: seq<Moment>, n: nat, x: Byte, y: Byte, t: nat)
    requires Lives(p, h, n) && StartsLine(n, y) && x < WIDTH && 21 <= t <= |h| && t <= FRAME_CLOCKS + 20
    ensures At(p, h, t).screen[x + WIDTH * y] == Pixel(h[20].bus, h[20].ppu.oam, x, y)
  {
    hide Clock, Pixel, InOrder, DrawsLine;
    DrawnOncePerFrame(n, y, t - 1);
    ClockPixel(h[t - 1].ppu, h[t - 1].bus, n + t - 1, x, y);
    if t > 21 {
      PixelStays(p, h, n, x, y, t - 1);
    }
  }

  // From the clock that draws line y until it is drawn again, the line shows what the PPU saw on that
  // clock, with the first ten sprites it sighted during the scan.
  lemma LineOfHistory(p: Ppu, h: seq<Moment>, n: nat, x: Byte, y: Byte)
    requires Lives(p, h, n) && StartsLine(n, y) && x < WIDTH && 21 <= |h| <= FRAME_CLOCKS + 20
    ensures At(p, h, |h|).screen[x + WIDTH * y] == Pixel(h[20].bus, FirstTen(Sighted(h, y, 40)), x, y)
  {
    hide Clock, Pixel, InOrder, StartsLine, FirstTen;
    PixelStays(p, h, n, x, y, |h|);
    ScanProgress(p, h, n, y, 20);
  }

  /* A whole frame in which nobody touches the video inputs */

  function FramePixel(b: Bus, x: Byte, y: Byte): Color { Pixel(b, LineSprites(b, y), x, y) }

  lemma FrameOfHistory(p: Ppu, h: seq<Moment>, n: nat, b: Bus, x: Byte, y: Byte)
    requires Lives(p, h, n) && n % FRAME_CLOCKS == 0 && |h| == FRAME_CLOCKS && x < WIDTH && y < HEIGHT
    requires forall k: nat :: k < |h| ==> SameVideo(b, h[k].bus)
    ensures At(p, h, |h|).screen[x + WIDTH * y] == FramePixel(b, x, y)
  {
    hide At, Pixel, InOrder, FirstTen, SameVideo, Sighted, Touching, StartsLine, Lives, SameScanInputs;
    var j: nat := LINE_CLOCKS * y;
    var g := h[j..];
    LivesOn(p, h, n, j);
    assert At(At(p, h, j), g, |g|) == At(p, h, j + |g|);
    LineOfFrame(n, y);
    LineOfHistory(At(p, h, j), g, n + j, x, y);
    assert forall k: nat :: k < |g| ==> g[k] == h[j + k];
    forall k: nat | k < |g| ensures SameScanInputs(b, g[k].bus) {
      VideoIncludesScan(b, g[k].bus);
    }
    SightedIsTouching(b, g, y, 40);
    SamePixel(b, g[20].bus, LineSprites(b, y), x, y);
  }

  lemma LineOfFrame(n: nat, y: nat)
    requires n % FRAME_CLOCKS == 0 && y < HEIGHT
    ensures StartsLine(n + LINE_CLOCKS * y, y)
  {
    AddWithinFrame(n, 0, LINE_CLOCKS * y);
  }

  lemma VideoIncludesScan(b: Bus, c: Bus)
    requires SameVideo(b, c)
    ensures SameScanInputs(b, c)
  {
    forall a: Word | IsScanInput(a) ensures c.mem[a] == b.mem[a] {
      assert IsVideoInput(a);
    }
  }

  /* The same for runs of the machine */

  // The main result, for every program and everything the user does: row y of the screen is, from its
  // draw clock until it is drawn in the next frame, what the PPU saw on that clock.
  lemma LineOfRun(s: System, es: seq<Event>, n: nat, x: Byte, y: Byte)
    requires Schedule.Invariant(s, n) && StartsLine(n, y) && x < WIDTH
    requires 21 <= Clocks(es) <= FRAME_CLOCKS + 20
    ensures |Moments(s, es)| == Clocks(es)
    ensures var h := Moments(s, es);
      Run(s, es).ppu.screen[x + WIDTH * y] == Pixel(h[20].bus, FirstTen(Sighted(h, y, 40)), x, y)
  {
    hide Schedule.Invariant, Lives, At, StartsLine, Pixel, FirstTen, Sighted;
    RunLives(s, es, n);
    LineOfHistory(s.ppu, Moments(s, es), n, x, y);
  }

  // From the start of a frame on, 17556 clocks leave on the screen, pixel by pixel, what video memory
  // described, for every program that leaves the video inputs as they are in b.
  lemma WholeFrame(s: System, es: seq<Event>, n: nat, b: Bus, x: Byte, y: Byte)
    requires Schedule.Invariant(s, n) && n % FRAME_CLOCKS == 0 && Clocks(es) == FRAME_CLOCKS
    requires forall k: nat :: k < |Moments(s, es)| ==> SameVideo(b, Moments(s, es)[k].bus)
    requires x < WIDTH && y < HEIGHT
    ensures Run(s, es).ppu.screen[x + WIDTH * y] == FramePixel(b, x, y)
  {
    hide Schedule.Invariant, Lives, At, FramePixel, SameVideo;
    RunLives(s, es, n);
    FrameOfHistory(s.ppu, Moments(s, es), n, b, x, y);
  }

  // The PPU's own writes disturb nothing it draws from.
  lemma WholeFrameAlone(p: Ppu, b: Bus, n: nat, x: Byte, y: Byte)
    requires InOrder(p, b, n) && n % FRAME_CLOCKS == 0 && x < WIDTH && y < HEIGHT
    ensures PpuAlone(p, b, FRAME_CLOCKS).ppu.screen[x + WIDTH * y] == FramePixel(b, x, y)
  {
    hide Clock, InOrder, Lives, At, FramePixel;
    var h := MomentsAlone(p, b, FRAME_CLOCKS);
    forall k: nat | k < |h| ensures SameVideo(b, h[k].bus) {
      AloneLives(p, b, n, k);
    }
    AloneLives(p, b, n, FRAME_CLOCKS);
    FrameOfHistory(p, h, n, b, x, y);
  }

  // t clocks into line y the buffer holds the first ten sprites of the first 2t OAM entries that touch the
  // line, in OAM order, for every program that leaves OAM and LCDC as they are in b.
  lemma ScanIsFilterAndTake(s: System, es: seq<Event>, n: nat, b: Bus, y: Byte)
    requires Schedule.Invariant(s, n) && StartsLine(n, y) && Clocks(es) <= 20
    requires forall k: nat :: k < |Moments(s, es)| ==> SameScanInputs(b, Moments(s, es)[k].bus)
    ensures Run(s, es).ppu.oam == FirstTen(Touching(b, y, 2 * Clocks(es)))
  {
    var h := Moments(s, es);
    if Clocks(es) == 0 {
      RunLives(s, es, n);
      FirstScanClock(s.ppu, s.bus, n, y);
    } else {
      hide Schedule.Invariant, Lives, FirstTen, SameScanInputs, StartsLine;
      RunLives(s, es, n);
      ScanProgress(s.ppu, h, n, y, |h|);
      SightedIsTouching(b, h, y, 2 * |h|);
    }
  }
}
