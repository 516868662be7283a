/** What every pixel should be, and one machine clock of the PPU as a function. */
module PpuSpec {
  import opened Bytes
  import opened Registers
  import opened BusSpec

  type Color = x: int | 0 <= x < 4
  type Screen = s: seq<Color> | |s| == WIDTH * HEIGHT witness seq(WIDTH * HEIGHT, _ => 0)

  datatype Sprite = Sprite(yPos: Byte, xPos: Byte, tile: Byte, flags: Byte)

  const MAX_SPRITES_PER_LINE := 10
  const MAX_SPRITE_HEIGHT := 16

  predicate Lcdc(b: Bus, n: nat)
    requires n < 8
  {
    Bit(b.mem[REG_LCDC], n)
  }

  /* Background and window */

  function TileMap(b: Bus, window: bool): Word {
    if Lcdc(b, if window then 6 else 3) then TILEMAP_BASE_1 else TILEMAP_BASE_0
  }

  // Address of the two bytes that hold row py of the tile at point (px, py) of a 256x256 layer.
  function TileRow(b: Bus, map_: Word, px: Byte, py: Byte): (a: Word)
    requires map_ == TILEMAP_BASE_0 || map_ == TILEMAP_BASE_1
    ensures 0x8000 <= a < 0x9800
  {
    var tile: int := b.mem[map_ + py / 8 * 32 + px / 8];
    (if Lcdc(b, 4) then TILEDATA_BASE_8000 + 16 * tile else TILEDATA_BASE_9000 + 16 * Signed(tile)) + 2 * (py % 8)
  }

  // One bit plane of that row; all zero while background and window are switched off.
  function Plane(b: Bus, window: bool, px: Byte, py: Byte, k: nat): Byte
    requires k < 2
  {
    if Lcdc(b, 0) then b.mem[TileRow(b, TileMap(b, window), px, py) + k] else 0
  }

  // Column px of a tile row, leftmost pixel in the highest bit.
  function ColorAt(lsb: Byte, msb: Byte, px: nat): Color {
    2 * BitValue(msb, 7 - px % 8) + BitValue(lsb, 7 - px % 8)
  }

  function LayerColor(b: Bus, window: bool, px: Byte, py: Byte): Color {
    ColorAt(Plane(b, window, px, py, 0), Plane(b, window, px, py, 1), px)
  }

  predicate InWindow(b: Bus, x: nat, y: Byte) { Lcdc(b, 5) && y >= b.mem[REG_WY] && x + 7 >= b.mem[REG_WX] }

  function ApplyPalette(palette: Byte, c: Color): Color {
    match c case 0 => palette % 4 case 1 => palette / 4 % 4 case 2 => palette / 16 % 4 case _ => palette / 64
  }

  function BackgroundRow(b: Bus, y: Byte): Byte { Low8(y + b.mem[REG_SCY]) }

  function WindowRow(b: Bus, y: Byte): Byte { Low8(y - b.mem[REG_WY]) }

  // The window is not palettised.
  function Backdrop(b: Bus, x: nat, y: Byte): Color {
    if InWindow(b, x, y) then LayerColor(b, true, Low8(x - b.mem[REG_WX] + 7), WindowRow(b, y))
    else ApplyPalette(b.mem[REG_BGP], LayerColor(b, false, Low8(x + b.mem[REG_SCX]), BackgroundRow(b, y)))
  }

  /* Sprites */

  function SpriteHeight(b: Bus): nat { if Lcdc(b, 2) then 16 else 8 }

  function SpriteAt(b: Bus, k: nat): Sprite {
    var a := (OAM_MEMORY_LOWER_BOUND + 4 * k) % 0x10000;
    Sprite(b.mem[a], b.mem[Plus(a, 1)], b.mem[Plus(a, 2)], b.mem[Plus(a, 3)])
  }

  predicate OnLine(b: Bus, s: Sprite, y: Byte) {
    s.xPos != 0 && s.yPos <= y + MAX_SPRITE_HEIGHT < s.yPos + SpriteHeight(b)
  }

  // The sprites of the first k OAM entries that touch line y, in OAM order.
  function Touching(b: Bus, y: Byte, k: nat): seq<Sprite> {
    if k == 0 then []
    else
      var s := SpriteAt(b, k - 1);
      Touching(b, y, k - 1) + if OnLine(b, s, y) then [s] else []
  }

  function FirstTen(s: seq<Sprite>): seq<Sprite> {
    if |s| <= MAX_SPRITES_PER_LINE then s else s[..MAX_SPRITES_PER_LINE]
  }

  function LineSprites(b: Bus, y: Byte): seq<Sprite> { FirstTen(Touching(b, y, 40)) }

  function AddSprite(b: Bus, buffer: seq<Sprite>, k: nat): seq<Sprite> {
    var s := SpriteAt(b, k);
    if |buffer| != MAX_SPRITES_PER_LINE && OnLine(b, s, b.mem[REG_LY]) then buffer + [s] else buffer
  }

  // Scanning entry by entry is filtering and keeping the first ten.
  lemma AddSpriteExtendsScan(b: Bus, seen: seq<Sprite>, k: nat)
    ensures AddSprite(b, FirstTen(seen), k) ==
      FirstTen(seen + if OnLine(b, SpriteAt(b, k), b.mem[REG_LY]) then [SpriteAt(b, k)] else [])
  {
    hide OnLine, SpriteAt;
    if |seen| >= MAX_SPRITES_PER_LINE {
      assert (seen + [SpriteAt(b, k)])[..MAX_SPRITES_PER_LINE] == seen[..MAX_SPRITES_PER_LINE];
    } else {
      assert seen + [] == seen;
    }
  }

  // A tall sprite is two tiles one below the other, the first with an even number.
  function FirstTile(b: Bus, s: Sprite): Byte { if Lcdc(b, 2) then s.tile / 2 * 2 else s.tile }

  // Address of row r of the sprite, where r counts from the top of its 8 or 16 rows. Y flip counts from
  // the bottom, but one row too late: it starts one row past the last and never shows the first.
  function SpriteRow(b: Bus, s: Sprite, y: Byte): (a: Word)
    ensures 0x8000 <= a < 0x9001
  {
    var r := (y + MAX_SPRITE_HEIGHT - s.yPos) % SpriteHeight(b);
    TILEDATA_BASE_8000 + 16 * FirstTile(b, s) + 2 * (if Bit(s.flags, 6) then SpriteHeight(b) - r else r)
  }

  // A sprite that starts left of the screen is not drawn at all.
  predicate Covers(s: Sprite, x: nat) { 8 <= s.xPos && s.xPos - 8 <= x < s.xPos }

  function SpriteColor(b: Bus, s: Sprite, x: nat, y: Byte): Color
    requires Covers(s, x)
  {
    var k := x - (s.xPos - 8);
    var row := SpriteRow(b, s, y);
    ColorAt(b.mem[row], b.mem[row + 1], if Bit(s.flags, 5) then 7 - k else k)
  }

  // Opaque at (x, y) and, if it asks for low priority, over colour 0. The test ignores SCX.
  predicate Shows(b: Bus, s: Sprite, x: Byte, y: Byte) {
    Covers(s, x) && SpriteColor(b, s, x, y) != 0
    && (!Bit(s.flags, 7) || LayerColor(b, false, x, BackgroundRow(b, y)) == 0)
  }

  function SpritePixel(b: Bus, s: Sprite, x: nat, y: Byte): Color
    requires Covers(s, x)
  {
    ApplyPalette(if Bit(s.flags, 4) then b.mem[REG_OBP1] else b.mem[REG_OBP0], SpriteColor(b, s, x, y))
  }

  // The last sprite of the buffer that shows at (x, y) wins.
  function Topmost(b: Bus, sprites: seq<Sprite>, x: Byte, y: Byte, under: Color): Color {
    if |sprites| == 0 then under
    else
      var s := sprites[|sprites| - 1];
      if Shows(b, s, x, y) then SpritePixel(b, s, x, y)
      else Topmost(b, sprites[..|sprites| - 1], x, y, under)
  }

  function Pixel(b: Bus, sprites: seq<Sprite>, x: Byte, y: Byte): Color {
    if Lcdc(b, 1) then Topmost(b, sprites, x, y, Backdrop(b, x, y)) else Backdrop(b, x, y)
  }

  function AfterDraw(screen: Screen, b: Bus, sprites: seq<Sprite>, i: nat): Color
    requires i < WIDTH * HEIGHT
  {
    if i / WIDTH == b.mem[REG_LY] then Pixel(b, sprites, i % WIDTH, b.mem[REG_LY]) else screen[i]
  }

  function DrawLine(screen: Screen, b: Bus, sprites: seq<Sprite>): Screen {
    seq(WIDTH * HEIGHT, (i: nat) requires i < WIDTH * HEIGHT => AfterDraw(screen, b, sprites, i))
  }

  /* The mode machine */

  datatype Mode = HBlank | VBlank | OamScan | Drawing {
    function Code(): (c: nat)
      ensures c < 4
    {
      match this case HBlank => 0 case VBlank => 1 case OamScan => 2 case Drawing => 3
    }
  }

  function ModeOf(b: Bus): Mode {
    match b.mem[REG_STAT] % 4 case 0 => HBlank case 1 => Mode.VBlank case 2 => OamScan case _ => Drawing
  }

  datatype Ppu = Ppu(counter: nat, statRequested: bool, oam: seq<Sprite>, screen: Screen, frames: nat)

  datatype Outcome = Outcome(ppu: Ppu, bus: Bus, requests: seq<Interrupt>)

  function WithMode(b: Bus, m: Mode): Bus { Poke(b, REG_STAT, b.mem[REG_STAT] / 4 * 4 + m.Code()) }

  function WithLycBit(b: Bus, on: bool): Bus {
    Poke(b, REG_STAT, b.mem[REG_STAT] / 8 * 8 + (if on then 4 else 0) + b.mem[REG_STAT] % 4)
  }

  // The STAT bit that asks for an interrupt on entering a mode.
  predicate AsksOnEntry(b: Bus, m: Mode) {
    match m
    case HBlank => Bit(b.mem[REG_STAT], 3)
    case VBlank => Bit(b.mem[REG_STAT], 4)
    case OamScan => Bit(b.mem[REG_STAT], 5)
    case Drawing => false
  }

  function StatRequest(p: Ppu, asks: bool): seq<Interrupt> { if asks && !p.statRequested then [Stat] else [] }

  function EnterMode(p: Ppu, b: Bus, m: Mode): Outcome {
    var asks := AsksOnEntry(b, m);
    var requests := StatRequest(p, asks) + if m == Mode.VBlank then [Interrupt.VBlank] else [];
    Outcome(p.(statRequested := p.statRequested || asks), RaiseAll(WithMode(b, m), requests), requests)
  }

  function NextLine(ly: Byte): Byte { if ly == 153 then 0 else Successor(ly) }

  function LineStart(p: Ppu, b: Bus): Outcome {
    var ly := b.mem[REG_LY];
    var b1 := Poke(b, REG_LY, NextLine(ly));
    if ly == 153 then
      var o := EnterMode(p, b1, OamScan);
      o.(ppu := o.ppu.(frames := (p.frames + 1) % FRAME_WRAP))
    else if ly == 143 then EnterMode(p, b1, Mode.VBlank)
    else if ModeOf(b) == HBlank then EnterMode(p, b1, OamScan)
    else Outcome(p, b1, [])
  }

  const FRAME_WRAP: nat := 0x1_0000_0000_0000_0000

  predicate LycHit(b: Bus) { b.mem[REG_LY] == b.mem[REG_LYC] && Bit(b.mem[REG_STAT], 6) }

  function LineEnd(p: Ppu, b: Bus): Outcome {
    var o := LineStart(p, b);
    var hit := LycHit(o.bus);
    var request := StatRequest(o.ppu, hit);
    Outcome(o.ppu.(statRequested := hit), WithLycBit(RaiseAll(o.bus, request), hit), o.requests + request)
  }

  function Clock(p: Ppu, b: Bus): Outcome {
    var next := (p.counter + 1) % 0x100;
    var p1 := p.(counter := next);
    match ModeOf(b)
    case OamScan =>
      var p2 := p1.(oam := AddSprite(b, AddSprite(b, p.oam, 2 * p.counter), 2 * p.counter + 1));
      if next == 20 then EnterMode(p2, b, Drawing) else Outcome(p2, b, [])
    case Drawing =>
      if next == 63 then EnterMode(p1, b, HBlank)
      else if next == 21 then Outcome(p1.(screen := DrawLine(p.screen, b, p.oam), oam := []), b, [])
      else Outcome(p1, b, [])
    case _ => // HBlank, VBlank
      if next != LINE_CLOCKS then Outcome(p1, b, []) else LineEnd(p1.(counter := 0), b)
  }

  /* The states the PPU can be in */

  function ScheduledMode(ly: nat, counter: nat): Mode {
    if ly >= HEIGHT then Mode.VBlank else if counter < 20 then OamScan else if counter < 63 then Drawing else HBlank
  }

  // A sprite that may be drawn on line ly whatever the sprite height is by then.
  predicate Drawable(s: Sprite, ly: Byte) { s.xPos != 0 && 0 <= ly + MAX_SPRITE_HEIGHT - s.yPos < MAX_SPRITE_HEIGHT }

  ghost predicate BufferConsistent(p: Ppu, b: Bus) {
    && |p.oam| <= MAX_SPRITES_PER_LINE && |p.oam| <= 2 * p.counter
    && (forall i :: 0 <= i < |p.oam| ==> Drawable(p.oam[i], b.mem[REG_LY]))
    && (b.mem[REG_LY] >= HEIGHT || p.counter > 20 ==> p.oam == [])
  }

  ghost predicate Consistent(p: Ppu, b: Bus) {
    && b.mem[REG_LY] < FRAME_LINES && p.counter < LINE_CLOCKS
    && ModeOf(b) == ScheduledMode(b.mem[REG_LY], p.counter)
    && BufferConsistent(p, b)
    && p.frames < FRAME_WRAP
  }

  // STAT with one of the PPU's bits replaced
  function WithStatBit(v: Byte, n: nat, on: bool): Byte
    requires n < 3
  {
    var k := if on then 1 else 0;
    v / 8 * 8 + if n == 0 then v % 8 / 2 * 2 + k else if n == 1 then v % 8 / 4 * 4 + 2 * k + v % 2 else 4 * k + v % 4
  }

  lemma TwoBitsMakeAMode(v: Byte, m: Mode)
    ensures WithStatBit(WithStatBit(v, 1, m.OamScan? || m.Drawing?), 0, m.VBlank? || m.Drawing?) == v / 4 * 4 + m.Code()
  {
    var (q, r, e) := (v / 8, v % 8 / 4, v % 2);
    var k := if m.OamScan? || m.Drawing? then 1 else 0;
    var w := WithStatBit(v, 1, k == 1);
    assert v == 8 * q + 4 * r + v % 4 && v / 4 == 2 * q + r;
    assert w == 8 * q + (4 * r + 2 * k + e);
    assert w / 8 == q && w % 8 == 4 * r + 2 * k + e;
  }

  lemma ModeKeepsEnableBits(b: Bus, m: Mode)
    ensures forall k: nat :: 3 <= k < 8 ==> Bit(WithMode(b, m).mem[REG_STAT], k) == Bit(b.mem[REG_STAT], k)
  {
    var v, w := b.mem[REG_STAT], WithMode(b, m).mem[REG_STAT];
    assert v / 8 == w / 8;
    SameUpperBits(v, w);
  }

  /* The schedule is its own invariant */

  // One clock moves the counters on, keeps the state consistent and writes no register but STAT, LY and IF.
  ghost predicate StepsTo(p: Ppu, b: Bus, o: Outcome) {
    var ends := p.counter + 1 == LINE_CLOCKS;
    && o.ppu.counter == (if ends then 0 else p.counter + 1)
    && o.bus.mem[REG_LY] == (if ends then NextLine(b.mem[REG_LY]) else b.mem[REG_LY])
    && ModeOf(o.bus) == ScheduledMode(o.bus.mem[REG_LY], o.ppu.counter)
    && o.ppu.frames == (if ends && b.mem[REG_LY] == 153 then (p.frames + 1) % FRAME_WRAP else p.frames)
    && BufferConsistent(o.ppu, o.bus)
    && OnlyPpuRegistersDiffer(b, o.bus)
  }

  ghost predicate OnlyPpuRegistersDiffer(b: Bus, c: Bus) {
    && c == b.(mem := c.mem)
    && forall a: Word :: a != REG_STAT && a != REG_LY && a != REG_IF ==> c.mem[a] == b.mem[a]
  }

  lemma ClockSteps(p: Ppu, b: Bus)
    requires Consistent(p, b)
    ensures StepsTo(p, b, Clock(p, b))
    ensures Consistent(Clock(p, b).ppu, Clock(p, b).bus)
  {
    match ModeOf(b)
    case OamScan => ScanSteps(p, b);
    case Drawing => DrawingSteps(p, b);
    case _ => BlankSteps(p, b);
  }

  lemma EnterModeOutcome(p: Ppu, b: Bus, m: Mode)
    ensures var o := EnterMode(p, b, m);
      && o.ppu == p.(statRequested := o.ppu.statRequested)
      && ModeOf(o.bus) == m
      && o.bus.mem[REG_LY] == b.mem[REG_LY]
      && OnlyPpuRegistersDiffer(b, o.bus)
  {
    WithModeSetsMode(b, m);
    RaiseAllKeepsDisplay(WithMode(b, m), EnterMode(p, b, m).requests);
  }

  lemma ScanSteps(p: Ppu, b: Bus)
    requires Consistent(p, b) && ModeOf(b) == OamScan
    ensures StepsTo(p, b, Clock(p, b))
  {
    hide SpriteAt, EnterMode;
    var oam := AddSprite(b, AddSprite(b, p.oam, 2 * p.counter), 2 * p.counter + 1);
    var p1 := p.(counter := p.counter + 1, oam := oam);
    EnterModeOutcome(p1, b, Drawing);
    assert Clock(p, b) == if p.counter + 1 == 20 then EnterMode(p1, b, Drawing) else Outcome(p1, b, []);
  }

  lemma DrawingSteps(p: Ppu, b: Bus)
    requires Consistent(p, b) && ModeOf(b) == Drawing
    ensures StepsTo(p, b, Clock(p, b))
  {
    EnterModeOutcome(p.(counter := p.counter + 1), b, HBlank);
  }

  lemma BlankSteps(p: Ppu, b: Bus)
    requires Consistent(p, b) && (ModeOf(b) == HBlank || ModeOf(b) == Mode.VBlank)
    ensures StepsTo(p, b, Clock(p, b))
  {
    hide LineEnd, AddSprite, EnterMode, DrawLine;
    if p.counter + 1 == LINE_CLOCKS {
      LineEndOutcome(p.(counter := 0), b);
      LineEndSteps(p, b);
    }
  }

  lemma LineEndSteps(p: Ppu, b: Bus)
    requires Consistent(p, b) && p.counter + 1 == LINE_CLOCKS
    ensures Clock(p, b) == LineEnd(p.(counter := 0), b)
  {
    hide LineEnd, AddSprite, EnterMode, DrawLine, BufferConsistent;
  }

  // Only IF changes when interrupts are requested.
  lemma {:induction false} RaiseAllKeepsDisplay(b: Bus, requests: seq<Interrupt>)
    ensures RaiseAll(b, requests).mem == b.mem[REG_IF := RaiseAll(b, requests).mem[REG_IF]]
    ensures RaiseAll(b, requests) == b.(mem := RaiseAll(b, requests).mem)
    decreases |requests|
  {
    if requests == [] {
    } else {
      RaiseAllKeepsDisplay(Raise(b, requests[0]), requests[1..]);
    }
  }

  lemma WithModeSetsMode(b: Bus, m: Mode)
    ensures ModeOf(WithMode(b, m)) == m
  {
  }

  lemma WithLycBitKeepsMode(b: Bus, on: bool)
    ensures ModeOf(WithLycBit(b, on)) == ModeOf(b)
  {
    assert WithLycBit(b, on).mem[REG_STAT] % 4 == b.mem[REG_STAT] % 4;
  }

  // The line and mode a finished line leaves behind.
  lemma LineEndOutcome(p: Ppu, b: Bus)
    requires b.mem[REG_LY] < FRAME_LINES
    requires ModeOf(b) == if b.mem[REG_LY] < HEIGHT then HBlank else Mode.VBlank
    ensures var (q, c) := (LineEnd(p, b).ppu, LineEnd(p, b).bus);
      && c.mem[REG_LY] == NextLine(b.mem[REG_LY])
      && ModeOf(c) == ScheduledMode(NextLine(b.mem[REG_LY]), 0)
      && q == p.(statRequested := LycHit(LineStart(p, b).bus),
                 frames := if b.mem[REG_LY] == 153 then (p.frames + 1) % FRAME_WRAP else p.frames)
      && OnlyPpuRegistersDiffer(b, c)
  {
    LineStartOutcome(p, b);
    var o := LineStart(p, b);
    var r := StatRequest(o.ppu, LycHit(o.bus));
    RaiseAllKeepsDisplay(o.bus, r);
    WithLycBitKeepsMode(RaiseAll(o.bus, r), LycHit(o.bus));
  }

  lemma LineStartOutcome(p: Ppu, b: Bus)
    requires b.mem[REG_LY] < FRAME_LINES
    requires ModeOf(b) == if b.mem[REG_LY] < HEIGHT then HBlank else Mode.VBlank
    ensures var (q, c) := (LineStart(p, b).ppu, LineStart(p, b).bus);
      && c.mem[REG_LY] == NextLine(b.mem[REG_LY])
      && ModeOf(c) == ScheduledMode(NextLine(b.mem[REG_LY]), 0)
      && q == p.(statRequested := q.statRequested,
                 frames := if b.mem[REG_LY] == 153 then (p.frames + 1) % FRAME_WRAP else p.frames)
      && OnlyPpuRegistersDiffer(b, c)
  {
    var ly := b.mem[REG_LY];
    var b1 := Poke(b, REG_LY, NextLine(ly));
    var m := ScheduledMode(NextLine(ly), 0);
    WithModeSetsMode(b1, m);
    RaiseAllKeepsDisplay(WithMode(b1, m), EnterMode(p, b1, m).requests);
  }
}
