/** The PPU object: a staged scanline renderer driven by a four-mode state machine. */
module PPUModule {
  import opened Bytes
  import opened Registers
  import opened Bitwise
  import opened BusSpec
  import opened AddressBusModule
  import Spec = PpuSpec
  type Color = Spec.Color
  type Sprite = Spec.Sprite
  type Mode = Spec.Mode

  const TILES := 32
  const LAYER_WIDTH := 256

  class PPU {
    const bus: AddressBus
    // owned by the Gameboy object
    const screenBuffer: array<Color>

    var currentLineClockCounter: Byte
    var STATAlreadyRequestedThisLine: bool
    // two bit planes per layer, one byte per tile
    const backgroundLineBufferLsb: array<Byte>
    const backgroundLineBufferMsb: array<Byte>
    const windowLineBufferLsb: array<Byte>
    const windowLineBufferMsb: array<Byte>
    // one colour per pixel of the 256-pixel line
    const backgroundLineBuffer: array<Color>
    const windowLineBuffer: array<Color>
    var OAMLineBuffer: seq<Sprite>
    var frameCount: nat

    ghost predicate Valid()
      reads this, bus
    {
      && bus.Valid()
      && screenBuffer.Length == WIDTH * HEIGHT
      && backgroundLineBufferLsb.Length == backgroundLineBufferMsb.Length == TILES
      && windowLineBufferLsb.Length == windowLineBufferMsb.Length == TILES
      && backgroundLineBuffer.Length == windowLineBuffer.Length == LAYER_WIDTH
      && Separate()
    }

    ghost predicate Separate()
      reads this, bus
    {
      var m: object, s: object := bus.memory, screenBuffer;
      var b0: object, b1: object := backgroundLineBufferLsb, backgroundLineBufferMsb;
      var w0: object, w1: object := windowLineBufferLsb, windowLineBufferMsb;
      var b: object, w: object := backgroundLineBuffer, windowLineBuffer;
      && m != s && m != b0 && m != b1 && m != w0 && m != w1 && m != b && m != w
      && s != b0 && s != b1 && s != w0 && s != w1 && s != b && s != w
      && b0 != b1 && b0 != w0 && b0 != w1 && b0 != b && b0 != w
      && b1 != w0 && b1 != w1 && b1 != b && b1 != w
      && w0 != w1 && w0 != b && w0 != w && w1 != b && w1 != w && b != w
    }

    // The line buffers are scratch space and no part of the state.
    ghost function State(): Spec.Ppu
      requires screenBuffer.Length == WIDTH * HEIGHT
      reads this, screenBuffer
    {
      Spec.Ppu(currentLineClockCounter, STATAlreadyRequestedThisLine, OAMLineBuffer, screenBuffer[..], frameCount)
    }

    ghost predicate Consistent()
      requires Valid()
      reads this, bus, bus.memory, screenBuffer
    {
      Spec.Consistent(State(), bus.State())
    }

    // Setting STAT bit 7 has no effect: the bus gives the PPU the three low bits only.
    constructor (bus: AddressBus, screenBuffer: array<Color>)
      requires bus.Valid() && screenBuffer.Length == WIDTH * HEIGHT && screenBuffer as object != bus.memory
      requires Spec.ModeOf(bus.State()) != Spec.OamScan
      modifies bus, bus.memory
      ensures this.bus == bus && this.screenBuffer == screenBuffer && Valid()
      ensures fresh(LineBuffers())
      ensures var start := Spec.EnterMode(Spec.Ppu(0, false, [], screenBuffer[..], 0), old(bus.State()), Spec.OamScan);
        State() == start.ppu && bus.State() == start.bus
    {
      this.bus, this.screenBuffer := bus, screenBuffer;
      currentLineClockCounter, STATAlreadyRequestedThisLine, frameCount := 0, false, 0;
      backgroundLineBufferLsb := new Byte[TILES](_ => 0);
      backgroundLineBufferMsb := new Byte[TILES](_ => 0);
      windowLineBufferLsb := new Byte[TILES](_ => 0);
      windowLineBufferMsb := new Byte[TILES](_ => 0);
      backgroundLineBuffer := new Color[LAYER_WIDTH](_ => 0);
      windowLineBuffer := new Color[LAYER_WIDTH](_ => 0);
      OAMLineBuffer := [];
      new;
      hide Spec.EnterMode, Spec.ModeOf, LineBuffers;
      SetUnusedBit();
      SetPPUMode(Spec.OamScan);
    }

    // STAT(STAT_UNUSED_BIT, true)
    method SetUnusedBit()
      requires Valid()
      modifies bus, bus.memory
      ensures Valid() && bus.State() == old(bus.State())
    {
      var reg := bus.Read(REG_STAT);
      SetBitLowThree(reg, 7, true);
      var _ := bus.Write(REG_STAT, SetBit(reg, 7, true), FromPpu);
      assert bus.State().mem == old(bus.State()).mem;
    }

    ghost function LineBuffers(): set<object>
      reads this
    {
      {backgroundLineBufferLsb as object, backgroundLineBufferMsb, windowLineBufferLsb, windowLineBufferMsb,
       backgroundLineBuffer as object, windowLineBuffer as object}
    }

    /* Register access */

    method LCDC(flag: nat) returns (on: bool)
      requires bus.Valid() && flag < 8
      ensures on == Spec.Lcdc(bus.State(), flag)
    {
      var reg := bus.Read(REG_LCDC);
      on := Bit(reg, flag);
    }

    method GetTiledataBaseAddress() returns (a: Word)
      requires bus.Valid()
      ensures a == if Spec.Lcdc(bus.State(), 4) then TILEDATA_BASE_8000 else TILEDATA_BASE_9000
    {
      var mode := LCDC(4);
      a := if mode then TILEDATA_BASE_8000 else TILEDATA_BASE_9000;
    }

    method GetTilemapBaseAddress(drawingWindow: bool) returns (a: Word)
      requires bus.Valid()
      ensures a == Spec.TileMap(bus.State(), drawingWindow)
    {
      var bgSelect := LCDC(3);
      var windowSelect := LCDC(6);
      a := if (!drawingWindow && bgSelect) || (drawingWindow && windowSelect) then TILEMAP_BASE_1 else TILEMAP_BASE_0;
    }

    method IsPositionInsideWindow(x: nat, y: Byte) returns (inside: bool)
      requires bus.Valid()
      ensures inside == Spec.InWindow(bus.State(), x, y)
    {
      var display := LCDC(5);
      if !display {
        return false;
      }
      var wy := bus.Read(REG_WY);
      var wx := bus.Read(REG_WX);
      return y >= wy && x + 7 >= wx;
    }

    /* Stage one: the tile bytes of the whole 32-tile line */

    // Row py of every tile of a layer, as two bit planes.
    ghost predicate HoldsPlanes(lsb: array<Byte>, msb: array<Byte>, window: bool, py: Byte)
      requires bus.Valid() && lsb.Length == msb.Length == TILES
      reads bus, bus.memory, lsb, msb
    {
      forall t :: 0 <= t < TILES ==>
        && lsb[t] == Spec.Plane(bus.State(), window, 8 * t, py, 0)
        && msb[t] == Spec.Plane(bus.State(), window, 8 * t, py, 1)
    }

    method PrepareBackgroundLine()
      requires Valid()
      modifies backgroundLineBufferLsb, backgroundLineBufferMsb
      ensures HoldsPlanes(backgroundLineBufferLsb, backgroundLineBufferMsb, false,
                          Spec.BackgroundRow(bus.State(), bus.State().mem[REG_LY]))
    {
      var enabled := LCDC(0);
      if !enabled {
        forall t | 0 <= t < TILES { backgroundLineBufferLsb[t] := 0; }
        forall t | 0 <= t < TILES { backgroundLineBufferMsb[t] := 0; }
        return;
      }
      hide Spec.Plane, Bit;
      var ly: nat := bus.Read(REG_LY);
      var scy := bus.Read(REG_SCY);
      FetchTiles(backgroundLineBufferLsb, backgroundLineBufferMsb, false, ly + scy);
    }

    // The early exit leaves the window buffers stale, untouched; no pixel of the line is in the window then.
    method PrepareWindowLine()
      requires Valid()
      modifies windowLineBufferLsb, windowLineBufferMsb
      ensures WindowShowsOnLine() ==>
        HoldsPlanes(windowLineBufferLsb, windowLineBufferMsb, true,
                    Spec.WindowRow(bus.State(), bus.State().mem[REG_LY]))
      ensures Spec.Lcdc(bus.State(), 0) && !WindowShowsOnLine() ==>
        && windowLineBufferLsb[..] == old(windowLineBufferLsb[..])
        && windowLineBufferMsb[..] == old(windowLineBufferMsb[..])
    {
      var enabled := LCDC(0);
      if !enabled {
        forall t | 0 <= t < TILES { windowLineBufferLsb[t] := 0; }
        forall t | 0 <= t < TILES { windowLineBufferMsb[t] := 0; }
        return;
      }
      var ly := bus.Read(REG_LY);
      var lastInside := IsPositionInsideWindow(WIDTH - 1, ly);
      if !lastInside {
        return;
      }
      var wy := bus.Read(REG_WY);
      FetchTiles(windowLineBufferLsb, windowLineBufferMsb, true, ly - wy);
    }

    // The loop the two methods above share: row y of the layer, y not yet reduced modulo 256.
    method FetchTiles(lsb: array<Byte>, msb: array<Byte>, window: bool, y: nat)
      requires bus.Valid() && Spec.Lcdc(bus.State(), 0) && y < 512
      requires lsb.Length == msb.Length == TILES && lsb != msb && lsb != bus.memory && msb != bus.memory
      modifies lsb, msb
      ensures HoldsPlanes(lsb, msb, window, y % 256)
    {
      ghost var b := bus.State();
      var tileX := 0;
      while tileX != TILES
        invariant 0 <= tileX <= TILES
        invariant bus.State() == b
        invariant forall t :: 0 <= t < tileX ==>
          lsb[t] == Spec.Plane(b, window, 8 * t, y % 256, 0) && msb[t] == Spec.Plane(b, window, 8 * t, y % 256, 1)
      {
        lsb[tileX], msb[tileX] := FetchTile(window, tileX, y);
        tileX := tileX + 1;
      }
    }

    method FetchTile(window: bool, tileX: nat, y: nat) returns (lo: Byte, hi: Byte)
      requires bus.Valid() && Spec.Lcdc(bus.State(), 0) && tileX < TILES && y < 512
      ensures lo == Spec.Plane(bus.State(), window, 8 * tileX, y % 256, 0)
      ensures hi == Spec.Plane(bus.State(), window, 8 * tileX, y % 256, 1)
    {
      hide Spec.TileRow, Bit;
      var tilemapBaseAddress := GetTilemapBaseAddress(window);
      var tiledataBaseAddress := GetTiledataBaseAddress();
      var tileY := y / 8 % TILES;
      var tileNumber: int := bus.Read(tilemapBaseAddress + (tileX + tileY * TILES));
      var tileOffset := if tiledataBaseAddress == TILEDATA_BASE_8000 then tileNumber * 16 else Signed(tileNumber) * 16;
      var rowOffset := 2 * (y % 8);
      TileRowArithmetic(bus.State(), window, tileX, y);
      lo := bus.Read(tiledataBaseAddress + tileOffset + rowOffset);
      hi := bus.Read(tiledataBaseAddress + tileOffset + rowOffset + 1);
    }

    static lemma TileRowArithmetic(b: Bus, window: bool, tileX: nat, y: nat)
      requires tileX < TILES && y < 512
      ensures Spec.TileRow(b, Spec.TileMap(b, window), 8 * tileX, y % 256) ==
        var tile: int := b.mem[Spec.TileMap(b, window) + (tileX + y / 8 % TILES * TILES)];
        var first := if Spec.Lcdc(b, 4) then TILEDATA_BASE_8000 + 16 * tile else TILEDATA_BASE_9000 + 16 * Signed(tile);
        first + 2 * (y % 8)
    {
      var (q, r) := (y / 8, y % 8);
      RowOfLayer(q, r);
      assert 8 * tileX / 8 == tileX;
    }

    // Reducing the row modulo 256 keeps the row of tiles modulo 32 and the row within the tile.
    static lemma RowOfLayer(q: nat, r: nat)
      requires q < 64 && r < 8
      ensures (8 * q + r) % 256 / 8 == q % TILES && (8 * q + r) % 256 % 8 == r
    {
      var u := 8 * (q % TILES) + r;
      assert 8 * q + r == 256 * (q / TILES) + u;
      WithinLayer(q / TILES, u);
      WithinTile(q % TILES, r);
    }

    static lemma WithinLayer(q: nat, u: nat)
      requires u < 256
      ensures (256 * q + u) % 256 == u
    {
    }

    static lemma WithinTile(t: nat, r: nat)
      requires r < 8
      ensures (8 * t + r) / 8 == t && (8 * t + r) % 8 == r
    {
    }

    /* Stage two: bytes to colours, right to left inside each tile */

    method ComputeColorBuffers()
      requires Valid()
      modifies backgroundLineBuffer, windowLineBuffer
      ensures forall px :: 0 <= px < LAYER_WIDTH ==>
        backgroundLineBuffer[px] == Spec.ColorAt(backgroundLineBufferLsb[px / 8], backgroundLineBufferMsb[px / 8], px)
      ensures forall px :: 0 <= px < LAYER_WIDTH ==>
        windowLineBuffer[px] == Spec.ColorAt(windowLineBufferLsb[px / 8], windowLineBufferMsb[px / 8], px)
    {
      ghost var b0, b1 := backgroundLineBufferLsb[..], backgroundLineBufferMsb[..];
      ghost var w0, w1 := windowLineBufferLsb[..], windowLineBufferMsb[..];
      var tileX := 0;
      while tileX != TILES
        invariant 0 <= tileX <= TILES
        invariant forall px :: 0 <= px < 8 * tileX ==>
          backgroundLineBuffer[px] == Spec.ColorAt(b0[px / 8], b1[px / 8], px)
        invariant forall px :: 0 <= px < 8 * tileX ==>
          windowLineBuffer[px] == Spec.ColorAt(w0[px / 8], w1[px / 8], px)
      {
        var bit := 0;
        while bit != 8
          invariant 0 <= bit <= 8
          invariant forall px :: 0 <= px < 8 * tileX || 8 * tileX + 8 - bit <= px < 8 * tileX + 8 ==>
            && backgroundLineBuffer[px] == Spec.ColorAt(b0[px / 8], b1[px / 8], px)
            && windowLineBuffer[px] == Spec.ColorAt(w0[px / 8], w1[px / 8], px)
        {
          var pixelX := tileX * 8 + (7 - bit);
          backgroundLineBuffer[pixelX] :=
            2 * BitValue(backgroundLineBufferMsb[tileX], bit) + BitValue(backgroundLineBufferLsb[tileX], bit);
          windowLineBuffer[pixelX] :=
            2 * BitValue(windowLineBufferMsb[tileX], bit) + BitValue(windowLineBufferLsb[tileX], bit);
          assert pixelX / 8 == tileX && pixelX % 8 == 7 - bit;
          bit := bit + 1;
        }
        tileX := tileX + 1;
      }
    }

    // The colour line of a layer, at row py.
    ghost predicate HoldsLine(line: array<Color>, window: bool, py: Byte)
      requires bus.Valid() && line.Length == LAYER_WIDTH
      reads bus, bus.memory, line
    {
      forall px :: 0 <= px < LAYER_WIDTH ==> line[px] == Spec.LayerColor(bus.State(), window, px, py)
    }

    ghost predicate WindowShowsOnLine()
      requires bus.Valid()
      reads bus, bus.memory
    {
      exists x :: 0 <= x < WIDTH && Spec.InWindow(bus.State(), x, bus.State().mem[REG_LY])
    }

    // Stages one and two together.
    method PrepareColorLines()
      requires Valid()
      modifies backgroundLineBufferLsb, backgroundLineBufferMsb, windowLineBufferLsb, windowLineBufferMsb
      modifies backgroundLineBuffer, windowLineBuffer
      ensures HoldsLine(backgroundLineBuffer, false, Spec.BackgroundRow(bus.State(), bus.State().mem[REG_LY]))
      ensures WindowShowsOnLine() ==>
        HoldsLine(windowLineBuffer, true, Spec.WindowRow(bus.State(), bus.State().mem[REG_LY]))
    {
      ghost var b := bus.State();
      ghost var y := b.mem[REG_LY];
      PrepareBackgroundLine();
      PrepareWindowLine();
      ComputeColorBuffers();
      ColumnsOfTiles(b, false, Spec.BackgroundRow(b, y), backgroundLineBufferLsb[..], backgroundLineBufferMsb[..]);
      if WindowShowsOnLine() {
        ColumnsOfTiles(b, true, Spec.WindowRow(b, y), windowLineBufferLsb[..], windowLineBufferMsb[..]);
      }
    }

    static lemma ColumnsOfTiles(b: Bus, window: bool, py: Byte, lsb: seq<Byte>, msb: seq<Byte>)
      requires |lsb| == |msb| == TILES
      requires forall t :: 0 <= t < TILES ==>
        lsb[t] == Spec.Plane(b, window, 8 * t, py, 0) && msb[t] == Spec.Plane(b, window, 8 * t, py, 1)
      ensures forall px :: 0 <= px < LAYER_WIDTH ==>
        Spec.ColorAt(lsb[px / 8], msb[px / 8], px) == Spec.LayerColor(b, window, px, py)
    {
      forall px | 0 <= px < LAYER_WIDTH
        ensures Spec.ColorAt(lsb[px / 8], msb[px / 8], px) == Spec.LayerColor(b, window, px, py)
      {
        assert 8 * (px / 8) / 8 == px / 8;
        assert lsb[px / 8] == Spec.Plane(b, window, px, py, 0);
        assert msb[px / 8] == Spec.Plane(b, window, px, py, 1);
      }
    }

    /* Stage three: the line to the screen */

    method ApplyPalette(address: Word, c: Color) returns (r: Color)
      requires bus.Valid() && (address == REG_BGP || address == REG_OBP0 || address == REG_OBP1)
      ensures r == Spec.ApplyPalette(bus.State().mem[address], c)
    {
      hide PairOfBits, Bit;
      var palette := bus.Read(address);
      PairOfBitsIsDigit(palette, c);
      r := PairOfBits(palette, c);
    }

    method FlushLineToScreenBuffer(ly: Byte)
      requires Valid() && ly == bus.State().mem[REG_LY] && ly < HEIGHT
      requires HoldsLine(backgroundLineBuffer, false, Spec.BackgroundRow(bus.State(), ly))
      requires WindowShowsOnLine() ==> HoldsLine(windowLineBuffer, true, Spec.WindowRow(bus.State(), ly))
      modifies screenBuffer
      ensures forall i :: 0 <= i < WIDTH * HEIGHT ==>
        screenBuffer[i] == (
          if ly * WIDTH <= i < ly * WIDTH + WIDTH then Spec.Backdrop(bus.State(), i - ly * WIDTH, ly)
          else old(screenBuffer[i]))
    {
      hide Spec.Backdrop, HoldsLine, WindowShowsOnLine, Spec.BackgroundRow, Spec.WindowRow;
      ghost var b := bus.State();
      var x := 0;
      while x != WIDTH
        invariant 0 <= x <= WIDTH
        invariant bus.State() == b
        invariant forall i :: 0 <= i < WIDTH * HEIGHT ==>
          screenBuffer[i] == (
            if ly * WIDTH <= i < ly * WIDTH + x then Spec.Backdrop(b, i - ly * WIDTH, ly) else old(screenBuffer[i]))
      {
        var value := BackdropPixel(x, ly);
        screenBuffer[x + ly * WIDTH] := value;
        x := x + 1;
      }
    }

    method BackdropPixel(x: nat, ly: Byte) returns (value: Color)
      requires Valid() && ly == bus.State().mem[REG_LY] && x < WIDTH
      requires HoldsLine(backgroundLineBuffer, false, Spec.BackgroundRow(bus.State(), ly))
      requires WindowShowsOnLine() ==> HoldsLine(windowLineBuffer, true, Spec.WindowRow(bus.State(), ly))
      ensures value == Spec.Backdrop(bus.State(), x, ly)
    {
      var inside := IsPositionInsideWindow(x, ly);
      if inside {
        var wx := bus.Read(REG_WX);
        value := windowLineBuffer[(x - wx + 7) % LAYER_WIDTH];
      } else {
        var scx := bus.Read(REG_SCX);
        value := ApplyPalette(REG_BGP, backgroundLineBuffer[(x + scx) % LAYER_WIDTH]);
      }
    }

    /* Sprites, painted over the line in buffer order */

    // Address of the sprite's two tile bytes for line ly.
    method SpriteRowAddress(sprite: Sprite, ly: Byte) returns (a: Word)
      requires bus.Valid() && Spec.Drawable(sprite, ly)
      ensures a == Spec.SpriteRow(bus.State(), sprite, ly)
      ensures 0 <= ly + Spec.MAX_SPRITE_HEIGHT - sprite.yPos < Spec.MAX_SPRITE_HEIGHT
      ensures TILEDATA_BASE_8000 <= a <= TILEDATA_BASE_9000
    {
      hide And, Or;
      var spriteLine := ly - (sprite.yPos - Spec.MAX_SPRITE_HEIGHT);
      assert 0 <= spriteLine < Spec.MAX_SPRITE_HEIGHT;
      var drawingBottomTile := spriteLine > 7;
      if Bit(sprite.flags, 6) {
        drawingBottomTile := !drawingBottomTile;
      }
      var tall := LCDC(2);
      var tileNumber: int := sprite.tile;
      if tall && drawingBottomTile {
        SetBitZero(sprite.tile);
        tileNumber := Or(sprite.tile, 0x01);
      } else if tall {
        ClearBitZero(sprite.tile);
        tileNumber := And(sprite.tile, 0xFE);
      }
      var rowOffset := 2 * (if Bit(sprite.flags, 6) then 8 - spriteLine % 8 else spriteLine % 8);
      hide Bit;
      a := TILEDATA_BASE_8000 + tileNumber * 16 + rowOffset;
    }

    method SpritePixels(sprite: Sprite, ly: Byte) returns (pixels: seq<Color>)
      requires bus.Valid() && Spec.Drawable(sprite, ly)
      ensures |pixels| == 8
      ensures var row := Spec.SpriteRow(bus.State(), sprite, ly); forall k :: 0 <= k < 8 ==>
        pixels[k] == Spec.ColorAt(bus.State().mem[row], bus.State().mem[row + 1], k)
    {
      hide Spec.SpriteRow, Bit;
      var row := SpriteRowAddress(sprite, ly);
      var lsb := bus.Read(row);
      var msb := bus.Read(row + 1);
      pixels := [0, 0, 0, 0, 0, 0, 0, 0];
      var bit := 0;
      while bit != 8
        invariant 0 <= bit <= 8 && |pixels| == 8
        invariant forall k :: 8 - bit <= k < 8 ==> pixels[k] == Spec.ColorAt(lsb, msb, k)
      {
        var value: Color := 2 * BitValue(msb, bit) + BitValue(lsb, bit);
        pixels := pixels[7 - bit := value];
        bit := bit + 1;
      }
    }

    method PaintSprite(sprite: Sprite, ly: Byte)
      requires Valid() && ly < HEIGHT && Spec.Drawable(sprite, ly)
      requires HoldsLine(backgroundLineBuffer, false, Spec.BackgroundRow(bus.State(), ly))
      modifies screenBuffer
      ensures forall i :: 0 <= i < WIDTH * HEIGHT ==>
        screenBuffer[i] == (
          if ly * WIDTH <= i < ly * WIDTH + WIDTH && Spec.Shows(bus.State(), sprite, i - ly * WIDTH, ly)
          then Spec.SpritePixel(bus.State(), sprite, i - ly * WIDTH, ly) else old(screenBuffer[i]))
    {
      hide Spec.SpriteRow, Spec.LayerColor, Spec.ApplyPalette, Spec.BackgroundRow, Bit;
      ghost var b := bus.State();
      var spritePixels := SpritePixels(sprite, ly);
      var spriteX := 0;
      while spriteX != 8
        invariant 0 <= spriteX <= 8
        invariant bus.State() == b
        invariant spriteX > 0 ==> sprite.xPos >= 8
        invariant forall i :: 0 <= i < WIDTH * HEIGHT ==>
          screenBuffer[i] == (
            if ly * WIDTH <= i < ly * WIDTH + WIDTH && i - ly * WIDTH < sprite.xPos - 8 + spriteX
            && Spec.Shows(b, sprite, i - ly * WIDTH, ly)
            then Spec.SpritePixel(b, sprite, i - ly * WIDTH, ly) else old(screenBuffer[i]))
      {
        var screenX := spriteX - 8 + sprite.xPos;
        if screenX >= WIDTH || screenX < 0 {
          break;
        }
        var value := spritePixels[if Bit(sprite.flags, 5) then 7 - spriteX else spriteX];
        assert value == Spec.SpriteColor(b, sprite, screenX, ly);
        if value != 0 && (!Bit(sprite.flags, 7) || backgroundLineBuffer[screenX] == 0) {
          var paletted := ApplyPalette(if Bit(sprite.flags, 4) then REG_OBP1 else REG_OBP0, value);
          screenBuffer[screenX + ly * WIDTH] := paletted;
        }
        spriteX := spriteX + 1;
      }
    }

    method ComputeAndFlushSpritesToScreenBuffer(ly: Byte)
      requires Valid() && ly < HEIGHT
      requires forall k :: 0 <= k < |OAMLineBuffer| ==> Spec.Drawable(OAMLineBuffer[k], ly)
      requires HoldsLine(backgroundLineBuffer, false, Spec.BackgroundRow(bus.State(), ly))
      modifies screenBuffer
      ensures forall i :: 0 <= i < WIDTH * HEIGHT ==>
        screenBuffer[i] == (
          if Spec.Lcdc(bus.State(), 1) && ly * WIDTH <= i < ly * WIDTH + WIDTH
          then Spec.Topmost(bus.State(), OAMLineBuffer, i - ly * WIDTH, ly, old(screenBuffer[i]))
          else old(screenBuffer[i]))
    {
      var enabled := LCDC(1);
      if !enabled {
        return;
      }
      ghost var b := bus.State();
      var k := 0;
      while k != |OAMLineBuffer|
        invariant 0 <= k <= |OAMLineBuffer|
        invariant bus.State() == b && HoldsLine(backgroundLineBuffer, false, Spec.BackgroundRow(b, ly))
        invariant forall i :: 0 <= i < WIDTH * HEIGHT ==>
          screenBuffer[i] == (
            if ly * WIDTH <= i < ly * WIDTH + WIDTH
            then Spec.Topmost(b, OAMLineBuffer[..k], i - ly * WIDTH, ly, old(screenBuffer[i]))
            else old(screenBuffer[i]))
      {
        assert OAMLineBuffer[..k + 1][..k] == OAMLineBuffer[..k];
        PaintSprite(OAMLineBuffer[k], ly);
        k := k + 1;
      }
      assert OAMLineBuffer[..k] == OAMLineBuffer;
    }

    method DrawCurrentLine()
      requires Valid() && bus.State().mem[REG_LY] < HEIGHT
      requires forall k :: 0 <= k < |OAMLineBuffer| ==> Spec.Drawable(OAMLineBuffer[k], bus.State().mem[REG_LY])
      modifies this`OAMLineBuffer, screenBuffer
      modifies backgroundLineBufferLsb, backgroundLineBufferMsb, windowLineBufferLsb, windowLineBufferMsb
      modifies backgroundLineBuffer, windowLineBuffer
      ensures State() ==
        old(State()).(screen := Spec.DrawLine(old(State()).screen, bus.State(), old(OAMLineBuffer)), oam := [])
    {
      hide Spec.Backdrop, Spec.Topmost, HoldsLine, Spec.BackgroundRow, Spec.WindowRow, Spec.Drawable, Bit;
      var ly := bus.Read(REG_LY);
      PrepareColorLines();
      FlushLineToScreenBuffer(ly);
      ComputeAndFlushSpritesToScreenBuffer(ly);
      ghost var drawn := Spec.DrawLine(old(State()).screen, bus.State(), OAMLineBuffer);
      forall i | 0 <= i < WIDTH * HEIGHT ensures screenBuffer[i] == drawn[i] {
        assert i / WIDTH == ly <==> ly * WIDTH <= i < ly * WIDTH + WIDTH;
      }
      assert screenBuffer[..] == drawn;
      OAMLineBuffer := [];
    }

    /* OAM scan */

    method AddSpriteToBufferIfNeeded(spriteNumber: nat)
      requires Valid() && spriteNumber < 40
      requires |OAMLineBuffer| <= Spec.MAX_SPRITES_PER_LINE
      modifies this`OAMLineBuffer
      ensures State() == old(State()).(oam := Spec.AddSprite(bus.State(), old(OAMLineBuffer), spriteNumber))
      ensures |OAMLineBuffer| <= Spec.MAX_SPRITES_PER_LINE
    {
      var spriteAddress := OAM_MEMORY_LOWER_BOUND + 4 * spriteNumber;
      var yPos := bus.Read(spriteAddress);
      var xPos := bus.Read(spriteAddress + 1);
      var tileNumber := bus.Read(spriteAddress + 2);
      var flags := bus.Read(spriteAddress + 3);
      var sprite := Spec.Sprite(yPos, xPos, tileNumber, flags);
      assert sprite == Spec.SpriteAt(bus.State(), spriteNumber);
      if |OAMLineBuffer| == Spec.MAX_SPRITES_PER_LINE || xPos == 0 {
        return;
      }
      var ly := bus.Read(REG_LY);
      if yPos > ly + Spec.MAX_SPRITE_HEIGHT {
        return;
      }
      var tall := LCDC(2);
      var height := if tall then 16 else 8;
      if yPos + height <= ly + Spec.MAX_SPRITE_HEIGHT {
        return;
      }
      assert yPos > 0;
      OAMLineBuffer := OAMLineBuffer + [sprite];
    }

    /* STAT, LY and interrupt requests */

    // STAT(flag, value): the PPU owns the three low bits only.
    method WriteSTAT(flag: nat, value: bool)
      requires Valid() && flag < 3
      modifies bus, bus.memory
      ensures Valid() && bus.cart == old(bus.cart)
      ensures bus.State() ==
        Poke(old(bus.State()), REG_STAT, Spec.WithStatBit(old(bus.State()).mem[REG_STAT], flag, value))
    {
      var reg := bus.Read(REG_STAT);
      SetBitLowThree(reg, flag, value);
      var _ := bus.Write(REG_STAT, SetBit(reg, flag, value), FromPpu);
    }

    method STAT(flag: nat) returns (on: bool)
      requires Valid() && flag < 8
      ensures on == Bit(bus.State().mem[REG_STAT], flag)
    {
      var reg := bus.Read(REG_STAT);
      on := Bit(reg, flag);
    }

    method GetPPUMode() returns (mode: Mode)
      requires Valid()
      ensures mode == Spec.ModeOf(bus.State())
    {
      var reg := bus.Read(REG_STAT);
      var msb := Bit(reg, 1);
      var lsb := Bit(reg, 0);
      assert reg % 4 == (if msb then 2 else 0) + (if lsb then 1 else 0);
      mode := if msb then (if lsb then Spec.Drawing else Spec.OamScan)
              else (if lsb then Mode.VBlank else Spec.HBlank);
    }

    method WriteLY(value: Byte)
      requires Valid()
      modifies bus, bus.memory
      ensures Valid() && bus.cart == old(bus.cart)
      ensures bus.State() == Poke(old(bus.State()), REG_LY, value)
    {
      var _ := bus.Write(REG_LY, value, FromPpu);
      assert bus.State().mem == old(bus.State()).mem[REG_LY := value];
    }

    // At most one STAT interrupt per line.
    method TryRequestSTATInterrupt()
      requires Valid()
      modifies this`STATAlreadyRequestedThisLine, bus, bus.memory
      ensures Valid() && State() == old(State()).(statRequested := true)
      ensures bus.State() == RaiseAll(old(bus.State()), Spec.StatRequest(old(State()), true))
    {
      if STATAlreadyRequestedThisLine {
        return;
      }
      STATAlreadyRequestedThisLine := true;
      bus.RequestInterrupt(Stat);
    }

    method WriteMode(mode: Mode)
      requires Valid()
      modifies bus, bus.memory
      ensures Valid() && bus.State() == Spec.WithMode(old(bus.State()), mode)
    {
      ghost var reg := bus.State().mem[REG_STAT];
      WriteSTAT(1, mode == Spec.OamScan || mode == Spec.Drawing);
      WriteSTAT(0, mode == Mode.VBlank || mode == Spec.Drawing);
      Spec.TwoBitsMakeAMode(reg, mode);
      assert bus.State().mem == Spec.WithMode(old(bus.State()), mode).mem;
    }

    method SetPPUMode(mode: Mode)
      requires Valid() && Spec.ModeOf(bus.State()) != mode
      modifies this`STATAlreadyRequestedThisLine, bus, bus.memory
      ensures Valid()
      ensures State() == Spec.EnterMode(old(State()), old(bus.State()), mode).ppu
      ensures bus.State() == Spec.EnterMode(old(State()), old(bus.State()), mode).bus
    {
      ghost var b := bus.State();
      WriteMode(mode);
      Spec.ModeKeepsEnableBits(b, mode);
      if mode == Spec.Drawing {
        return;
      }
      var asks := STAT(if mode == Spec.HBlank then 3 else if mode == Mode.VBlank then 4 else 5);
      if asks {
        TryRequestSTATInterrupt();
      }
      if mode == Mode.VBlank {
        bus.RequestInterrupt(Interrupt.VBlank);
        RaiseAllAppend(Spec.WithMode(b, mode), Spec.StatRequest(old(State()), asks), Interrupt.VBlank);
      }
    }

    method LineEndLogic(ly: Byte)
      requires Valid() && ly == bus.State().mem[REG_LY] && ly < FRAME_LINES
      requires currentLineClockCounter == LINE_CLOCKS && frameCount < Spec.FRAME_WRAP
      requires ly >= HEIGHT <==> Spec.ModeOf(bus.State()) == Mode.VBlank
      requires ly < HEIGHT <==> Spec.ModeOf(bus.State()) == Spec.HBlank
      modifies this`currentLineClockCounter, this`frameCount, this`STATAlreadyRequestedThisLine, bus, bus.memory
      ensures Valid()
      ensures State() == Spec.LineEnd(old(State()).(counter := 0), old(bus.State())).ppu
      ensures bus.State() == Spec.LineEnd(old(State()).(counter := 0), old(bus.State())).bus
    {
      currentLineClockCounter := 0;
      StartNextLine(ly);
      CompareLYC();
    }

    // The mode half of the end of a line.
    method StartNextLine(ly: Byte)
      requires Valid() && ly == bus.State().mem[REG_LY] && ly < FRAME_LINES && frameCount < Spec.FRAME_WRAP
      requires ly >= HEIGHT <==> Spec.ModeOf(bus.State()) == Mode.VBlank
      requires ly < HEIGHT <==> Spec.ModeOf(bus.State()) == Spec.HBlank
      modifies this`frameCount, this`STATAlreadyRequestedThisLine, bus, bus.memory
      ensures Valid()
      ensures State() == Spec.LineStart(old(State()), old(bus.State())).ppu
      ensures bus.State() == Spec.LineStart(old(State()), old(bus.State())).bus
    {
      hide RaiseAll, Spec.WithMode, Bit, SetBit;
      var mode := GetPPUMode();
      WriteLY(Spec.NextLine(ly));
      match ly
      case 153 =>
        assert mode == Mode.VBlank;
        SetPPUMode(Spec.OamScan);
        frameCount := (frameCount + 1) % Spec.FRAME_WRAP;
      case 143 =>
        assert mode == Spec.HBlank;
        SetPPUMode(Mode.VBlank);
      case _ =>
        assert mode == Spec.HBlank || mode == Mode.VBlank;
        if mode == Spec.HBlank {
          SetPPUMode(Spec.OamScan);
        }
    }

    method WriteLycBit(on: bool)
      requires Valid()
      modifies bus, bus.memory
      ensures Valid() && bus.State() == Spec.WithLycBit(old(bus.State()), on)
    {
      WriteSTAT(2, on);
    }

    // The LYC half of the end of a line.
    method CompareLYC()
      requires Valid()
      modifies this`STATAlreadyRequestedThisLine, bus, bus.memory
      ensures Valid()
      ensures var hit := Spec.LycHit(old(bus.State()));
        && State() == old(State()).(statRequested := hit)
        && bus.State() == Spec.WithLycBit(RaiseAll(old(bus.State()), Spec.StatRequest(old(State()), hit)), hit)
    {
      var lyc := bus.Read(REG_LYC);
      var ly := bus.Read(REG_LY);
      var enabled := STAT(6);
      if ly == lyc && enabled {
        TryRequestSTATInterrupt();
        WriteLycBit(true);
        return;
      }
      WriteLycBit(false);
      STATAlreadyRequestedThisLine := false;
    }

    /* The clock */

    method MachineClock()
      requires Valid() && Consistent()
      modifies this, bus, bus.memory, screenBuffer, LineBuffers()
      ensures Valid() && Consistent()
      ensures State() == Spec.Clock(old(State()), old(bus.State())).ppu
      ensures bus.State() == Spec.Clock(old(State()), old(bus.State())).bus
    {
      Spec.ClockSteps(State(), bus.State());
      var mode := GetPPUMode();
      match mode
      case HBlank =>
        assert 63 <= currentLineClockCounter < LINE_CLOCKS;
        CountBlankClock();
      case VBlank => CountBlankClock();
      case OamScan =>
        assert currentLineClockCounter < 20;
        CountScanClock();
      case Drawing =>
        assert 20 <= currentLineClockCounter < 63;
        CountDrawingClock();
    }

    // Two OAM entries per clock.
    method CountScanClock()
      requires Valid() && Spec.ModeOf(bus.State()) == Spec.OamScan
      requires currentLineClockCounter < 20 && |OAMLineBuffer| <= Spec.MAX_SPRITES_PER_LINE
      modifies this`currentLineClockCounter, this`OAMLineBuffer, this`STATAlreadyRequestedThisLine, bus, bus.memory
      ensures Valid()
      ensures State() == Spec.Clock(old(State()), old(bus.State())).ppu
      ensures bus.State() == Spec.Clock(old(State()), old(bus.State())).bus
    {
      hide Spec.AddSprite, Spec.WithMode, RaiseAll;
      ScanTwoEntries(2 * currentLineClockCounter as int);
      currentLineClockCounter := currentLineClockCounter + 1;
      if currentLineClockCounter != 20 {
        return;
      }
      SetPPUMode(Spec.Drawing);
    }

    method ScanTwoEntries(spriteIndex: nat)
      requires Valid() && spriteIndex < 39
      requires |OAMLineBuffer| <= Spec.MAX_SPRITES_PER_LINE
      modifies this`OAMLineBuffer
      ensures State() == old(State()).(oam :=
        Spec.AddSprite(bus.State(), Spec.AddSprite(bus.State(), old(OAMLineBuffer), spriteIndex), spriteIndex + 1))
    {
      AddSpriteToBufferIfNeeded(spriteIndex);
      AddSpriteToBufferIfNeeded(spriteIndex + 1);
    }

    // The whole line is drawn at once, on the first clock of the mode.
    method CountDrawingClock()
      requires Valid() && Spec.ModeOf(bus.State()) == Spec.Drawing
      requires 20 <= currentLineClockCounter < 63 && bus.State().mem[REG_LY] < HEIGHT
      requires forall k :: 0 <= k < |OAMLineBuffer| ==> Spec.Drawable(OAMLineBuffer[k], bus.State().mem[REG_LY])
      modifies this`currentLineClockCounter, this`OAMLineBuffer, this`STATAlreadyRequestedThisLine
      modifies bus, bus.memory, screenBuffer
      modifies backgroundLineBufferLsb, backgroundLineBufferMsb, windowLineBufferLsb, windowLineBufferMsb
      modifies backgroundLineBuffer, windowLineBuffer
      ensures Valid()
      ensures State() == Spec.Clock(old(State()), old(bus.State())).ppu
      ensures bus.State() == Spec.Clock(old(State()), old(bus.State())).bus
    {
      currentLineClockCounter := currentLineClockCounter + 1;
      if currentLineClockCounter == 63 {
        SetPPUMode(Spec.HBlank);
        return;
      }
      if currentLineClockCounter == 21 {
        DrawCurrentLine();
      }
    }

    // HBlank and VBlank: nothing but counting, until the line ends.
    method CountBlankClock()
      requires Valid() && Consistent()
      requires Spec.ModeOf(bus.State()) == Spec.HBlank || Spec.ModeOf(bus.State()) == Mode.VBlank
      modifies this`currentLineClockCounter, this`frameCount, this`STATAlreadyRequestedThisLine, bus, bus.memory
      ensures Valid()
      ensures State() == Spec.Clock(old(State()), old(bus.State())).ppu
      ensures bus.State() == Spec.Clock(old(State()), old(bus.State())).bus
    {
      currentLineClockCounter := currentLineClockCounter + 1;
      if currentLineClockCounter != LINE_CLOCKS {
        return;
      }
      var ly := bus.Read(REG_LY);
      LineEndLogic(ly);
    }
  }
}
