/** The picture in terms of the bytes of memory: which tile bits, which palette field and which sprite make a pixel. */
module Picture {
  import opened Bytes
  import opened Registers
  import opened BusSpec
  import opened PpuSpec
  import opened SystemSpec
  import opened History
  import opened Frame
  import Schedule

  /* Sprites, as the bytes of OAM describe them: Y, X, tile and attributes of entry k at 0xFE00 + 4k */

  function Entry(m: Memory, k: nat): Sprite
    requires k < 40
  {
    var a := 0xFE00 + 4 * k;
    Sprite(m[a], m[a + 1], m[a + 2], m[a + 3])
  }

  function Height(m: Memory): nat { if Bit(m[0xFF40], 2) then 16 else 8 }

  // Line y is one of the 8 or 16 lines that start 16 above the Y byte, and the X byte is not zero.
  predicate Touches(m: Memory, k: nat, y: Byte)
    requires k < 40
  {
    m[0xFE01 + 4 * k] != 0 && m[0xFE00 + 4 * k] - 16 <= y < m[0xFE00 + 4 * k] - 16 + Height(m)
  }

  // How many entries before k touch line y
  function Before(m: Memory, k: nat, y: Byte): nat
    requires k <= 40
  {
    if k == 0 then 0 else Before(m, k - 1, y) + if Touches(m, k - 1, y) then 1 else 0
  }

  predicate Buffered(m: Memory, k: nat, y: Byte)
    requires k < 40
  {
    Touches(m, k, y) && Before(m, k, y) < 10
  }

  lemma EntryIsSprite(b: Bus, k: nat, y: Byte)
    requires k < 40
    ensures Entry(b.mem, k) == SpriteAt(b, k)
    ensures Touches(b.mem, k, y) <==> OnLine(b, SpriteAt(b, k), y)
  {
    hide Bit;
  }

  // The entries that touch a line are found in order, entry k behind the Before(k) ones that precede it.
  lemma {:induction false} TouchingInOrder(b: Bus, y: Byte, n: nat)
    requires n <= 40
    ensures |Touching(b, y, n)| == Before(b.mem, n, y)
    ensures forall k: nat :: k < n && Touches(b.mem, k, y) ==>
      Before(b.mem, k, y) < Before(b.mem, n, y) && Touching(b, y, n)[Before(b.mem, k, y)] == Entry(b.mem, k)
    ensures forall e :: e in Touching(b, y, n) ==> OnLine(b, e, y)
  {
    hide OnLine, SpriteAt, Touches, Entry;
    if n > 0 {
      EntryIsSprite(b, n - 1, y);
      TouchingInOrder(b, y, n - 1);
    }
  }

  // Twenty clocks into line y, with OAM and LCDC stable: an entry with a non-zero X byte and fewer than ten
  // touching entries before it is in the buffer if and only if y is one of its 8 or 16 lines.
  lemma LinesOfSprite(s: System, es: seq<Event>, n: nat, b: Bus, y: Byte, k: nat)
    requires Schedule.Invariant(s, n) && StartsLine(n, y) && Clocks(es) == 20
    requires forall j: nat :: j < |Moments(s, es)| ==> SameScanInputs(b, Moments(s, es)[j].bus)
    requires k < 40 && b.mem[0xFE00 + 4 * k + 1] != 0 && Before(b.mem, k, y) < 10
    ensures var (m, a, oam) := (b.mem, 0xFE00 + 4 * k, Run(s, es).ppu.oam);
      var e := Sprite(m[a], m[a + 1], m[a + 2], m[a + 3]);
      && (e in oam <==> m[a] <= y + 16 < m[a] + if Bit(m[0xFF40], 2) then 16 else 8)
      && (e in oam ==> Before(m, k, y) < |oam| && oam[Before(m, k, y)] == e)
      && |oam| == if Before(m, 40, y) < 10 then Before(m, 40, y) else 10
  {
    hide Schedule.Invariant, Bit, StartsLine, SameScanInputs, OnLine, Touching;
    ScanIsFilterAndTake(s, es, n, b, y);
    TouchingInOrder(b, y, 40);
    EntryIsSprite(b, k, y);
    TouchesMeans(b.mem, k, y);
  }

  lemma TouchesMeans(m: Memory, k: nat, y: Byte)
    requires k < 40
    ensures
      var first: int := m[0xFE00 + 4 * k];
      Touches(m, k, y) <==> m[0xFE01 + 4 * k] != 0 && first <= y + 16 < first + if Bit(m[0xFF40], 2) then 16 else 8
  {
    hide Bit;
  }

  /* Colours */

  // The colour at a place k from the right in the eight pixels described by the bytes at a and a + 1: the low
  // digit comes from the first byte, the high digit from the second.
  function Dots(m: Memory, a: Word, k: nat): Color
    requires k < 8 && a < 0xFFFF
  {
    BitValue(m[a], k) + 2 * BitValue(m[a + 1], k)
  }

  // The two bits of a palette that belong to colour c
  function Field(palette: Byte, c: Color): Color { palette / [1, 4, 16, 64][c] % 4 }

  lemma PaletteField(palette: Byte, c: Color)
    ensures ApplyPalette(palette, c) == Field(palette, c)
  {
  }

  // Address of the bytes for point (px, py) of the layer whose map is chosen by bit 3 or 6 of LCDC
  function TileBytes(m: Memory, select: nat, px: Byte, py: Byte): (a: Word)
    requires select < 8
    ensures a < 0xFFFF
  {
    var tile: int := m[(if Bit(m[0xFF40], select) then 0x9C00 else 0x9800) + 32 * (py / 8) + px / 8];
    (if Bit(m[0xFF40], 4) then 0x8000 + 16 * tile else 0x9000 + 16 * (if tile < 128 then tile else tile - 256))
      + 2 * (py % 8)
  }

  function LayerDots(m: Memory, select: nat, px: Byte, py: Byte): Color
    requires select < 8
  {
    if Bit(m[0xFF40], 0) then Dots(m, TileBytes(m, select, px, py), 7 - px % 8) else 0
  }

  lemma LayerIsDots(b: Bus, window: bool, px: Byte, py: Byte)
    ensures LayerColor(b, window, px, py) == LayerDots(b.mem, if window then 6 else 3, px, py)
  {
    hide Bit;
    var base: Word := if Bit(b.mem[0xFF40], if window then 6 else 3) then 0x9C00 else 0x9800;
    assert TileMap(b, window) == base;
    assert base + py / 8 * 32 + px / 8 == base + 32 * (py / 8) + px / 8;
    assert TileRow(b, base, px, py) == TileBytes(b.mem, if window then 6 else 3, px, py);
    NoBits(7 - px % 8);
  }

  lemma NoBits(k: nat)
    requires k < 8
    ensures BitValue(0, k) == 0
  {
  }

  // The window covers (x, y).
  predicate WindowCovers(m: Memory, x: Byte, y: Byte) {
    Bit(m[0xFF40], 5) && m[0xFF4A] <= y && m[0xFF4B] <= x + 7
  }

  // Colour of entry k at (x, y); with Y flip row r is looked up height - r rows down.
  function EntryDots(m: Memory, k: nat, x: Byte, y: Byte): Color
    requires k < 40
  {
    var (e, h) := (Entry(m, k), Height(m));
    var (r, i) := ((y + 16 - e.yPos) % h, (x + 8 - e.xPos) % 8);
    var first := if h == 16 then e.tile / 2 * 2 else e.tile;
    Dots(m, 0x8000 + 16 * first + 2 * (if Bit(e.flags, 6) then h - r else r), if Bit(e.flags, 5) then i else 7 - i)
  }

  // Entry k puts a pixel at (x, y): it starts on the screen, is opaque there and, if bit 7 of its attributes asks
  // for it, lies over background colour 0, looked up without SCX.
  predicate Visible(m: Memory, k: nat, x: Byte, y: Byte)
    requires k < 40
  {
    var sx: int := m[0xFE01 + 4 * k];
    && 8 <= sx && sx - 8 <= x < sx
    && EntryDots(m, k, x, y) != 0
    && (!Bit(m[0xFE03 + 4 * k], 7) || LayerDots(m, 3, x, (y + m[0xFF42]) % 256) == 0)
  }

  lemma EntryColour(b: Bus, k: nat, x: Byte, y: Byte)
    requires k < 40
    ensures Visible(b.mem, k, x, y) <==> Shows(b, SpriteAt(b, k), x, y)
    ensures Covers(SpriteAt(b, k), x) ==>
      SpritePixel(b, SpriteAt(b, k), x, y) ==
        Field(b.mem[if Bit(b.mem[0xFE03 + 4 * k], 4) then 0xFF49 else 0xFF48], EntryDots(b.mem, k, x, y))
  {
    hide Bit, LayerColor, LayerDots, ApplyPalette, Field;
    EntryIsSprite(b, k, y);
    LayerIsDots(b, false, x, BackgroundRow(b, y));
    if Covers(SpriteAt(b, k), x) {
      SpriteDots(b, k, x, y);
      PaletteField(b.mem[0xFF48], SpriteColor(b, SpriteAt(b, k), x, y));
      PaletteField(b.mem[0xFF49], SpriteColor(b, SpriteAt(b, k), x, y));
    }
  }

  lemma SpriteDots(b: Bus, k: nat, x: Byte, y: Byte)
    requires k < 40 && Covers(SpriteAt(b, k), x)
    ensures SpriteColor(b, SpriteAt(b, k), x, y) == EntryDots(b.mem, k, x, y)
  {
    hide Bit;
    EntryIsSprite(b, k, y);
  }

  /* What is painted: the last visible entry among those in the buffer */

  predicate Painted(m: Memory, k: nat, x: Byte, y: Byte)
    requires k < 40
  {
    Buffered(m, k, y) && Visible(m, k, x, y)
  }

  // The buffer after n entries, one entry longer or not
  lemma BufferGrows(b: Bus, y: Byte, k: nat)
    requires k < 40
    ensures FirstTen(Touching(b, y, k + 1)) ==
      FirstTen(Touching(b, y, k)) + if Buffered(b.mem, k, y) then [SpriteAt(b, k)] else []
  {
    hide OnLine, SpriteAt, Touches;
    EntryIsSprite(b, k, y);
    TouchingInOrder(b, y, k);
    var t := Touching(b, y, k);
    if |t| >= 10 {
      assert (t + [SpriteAt(b, k)])[..10] == t[..10];
    }
    assert FirstTen(t) + [] == FirstTen(t);
  }

  // Entries that are not painted do not matter.
  lemma {:induction false} UnpaintedTail(b: Bus, x: Byte, y: Byte, under: Color, k: nat)
    requires k <= 40 && forall j: nat :: k <= j < 40 ==> !Painted(b.mem, j, x, y)
    ensures Topmost(b, LineSprites(b, y), x, y, under) == Topmost(b, FirstTen(Touching(b, y, k)), x, y, under)
    decreases 40 - k
  {
    hide OnLine, SpriteAt, Touching, Visible, Buffered, Shows, FirstTen;
    if k < 40 {
      UnpaintedTail(b, x, y, under, k + 1);
      BufferGrows(b, y, k);
      OneMoreEntry(b, x, y, under, k);
    }
  }

  lemma OneMoreEntry(b: Bus, x: Byte, y: Byte, under: Color, k: nat)
    requires k < 40
    ensures var (t, s) := (FirstTen(Touching(b, y, k)), SpriteAt(b, k));
      Topmost(b, t + (if Buffered(b.mem, k, y) then [s] else []), x, y, under) ==
        if Painted(b.mem, k, x, y) then SpritePixel(b, s, x, y) else Topmost(b, t, x, y, under)
  {
    hide OnLine, SpriteAt, Touching, Visible, Buffered, Shows, FirstTen, SpritePixel;
    var (t, s) := (FirstTen(Touching(b, y, k)), SpriteAt(b, k));
    EntryColour(b, k, x, y);
    assert (t + [s])[..|t|] == t;
    assert t + [] == t;
  }

  predicate NothingPainted(m: Memory, x: Byte, y: Byte) {
    Bit(m[0xFF40], 1) ==> forall k: nat :: k < 40 ==> !Painted(m, k, x, y)
  }

  lemma NoSprite(b: Bus, x: Byte, y: Byte)
    requires NothingPainted(b.mem, x, y)
    ensures FramePixel(b, x, y) == Backdrop(b, x, y)
  {
    hide Bit, Painted, Backdrop, Shows;
    if Bit(b.mem[0xFF40], 1) {
      UnpaintedTail(b, x, y, Backdrop(b, x, y), 0);
      assert FirstTen(Touching(b, y, 0)) == [];
    }
  }

  lemma LastPainted(b: Bus, x: Byte, y: Byte, k: nat)
    requires Bit(b.mem[0xFF40], 1) && k < 40 && Painted(b.mem, k, x, y)
    requires forall j: nat :: k < j < 40 ==> !Painted(b.mem, j, x, y)
    ensures Covers(SpriteAt(b, k), x) && FramePixel(b, x, y) == SpritePixel(b, SpriteAt(b, k), x, y)
  {
    EntryColour(b, k, x, y);
    assert Shows(b, SpriteAt(b, k), x, y);
    hide Bit, Painted, Backdrop, Shows, FirstTen, Touching, SpritePixel, SpriteAt;
    UnpaintedTail(b, x, y, Backdrop(b, x, y), k + 1);
    BufferGrows(b, y, k);
    OneMoreEntry(b, x, y, Backdrop(b, x, y), k);
  }

  /* The screen after a frame in which the video inputs stay as they are in b, byte by byte */

  ghost predicate StillFrame(s: System, es: seq<Event>, n: nat, b: Bus) {
    && Schedule.Invariant(s, n) && n % FRAME_CLOCKS == 0 && Clocks(es) == FRAME_CLOCKS
    && forall k: nat :: k < |Moments(s, es)| ==> SameVideo(b, Moments(s, es)[k].bus)
  }

  // A background point: the low digit of the colour is a bit of the first byte of the tile row, the high digit
  // that bit of the second, and the pixel is that field of BGP (0xFF47).
  lemma BackgroundPoint(s: System, es: seq<Event>, n: nat, b: Bus, x: Byte, y: Byte)
    requires StillFrame(s, es, n, b) && x < 160 && y < 144
    requires NothingPainted(b.mem, x, y) && !WindowCovers(b.mem, x, y) && Bit(b.mem[0xFF40], 0)
    ensures var (m, lcdc) := (b.mem, b.mem[0xFF40]);
      var (px, py) := ((x + m[0xFF43]) % 256, (y + m[0xFF42]) % 256);
      var tile: int := m[(if Bit(lcdc, 3) then 0x9C00 else 0x9800) + 32 * (py / 8) + px / 8];
      var at := if Bit(lcdc, 4) then 0x8000 + 16 * tile else 0x9000 + 16 * (if tile < 128 then tile else tile - 256);
      var row := at + 2 * (py % 8);
      var c := BitValue(m[row], 7 - px % 8) + 2 * BitValue(m[row + 1], 7 - px % 8);
      Run(s, es).ppu.screen[x + 160 * y] == m[0xFF47] / [1, 4, 16, 64][c] % 4
  {
    hide StillFrame, Bit, NothingPainted, FramePixel, LayerColor, ApplyPalette, TileBytes, Run;
    FrameAt(s, es, n, b, x, y);
    NoSprite(b, x, y);
    LayerIsDots(b, false, Low8(x + b.mem[0xFF43]), Low8(y + b.mem[0xFF42]));
    TileBytesMeans(b.mem, 3, Low8(x + b.mem[0xFF43]), Low8(y + b.mem[0xFF42]));
    PaletteField(b.mem[0xFF47], LayerColor(b, false, Low8(x + b.mem[0xFF43]), Low8(y + b.mem[0xFF42])));
  }

  lemma FrameAt(s: System, es: seq<Event>, n: nat, b: Bus, x: Byte, y: Byte)
    requires StillFrame(s, es, n, b) && x < 160 && y < 144
    ensures Run(s, es).ppu.screen[x + 160 * y] == FramePixel(b, x, y)
  {
    hide Schedule.Invariant, SameVideo, FramePixel;
    WholeFrame(s, es, n, b, x, y);
  }

  // A window point: the same bits, from the window's map and counted from its corner, and no palette.
  lemma WindowPoint(s: System, es: seq<Event>, n: nat, b: Bus, x: Byte, y: Byte)
    requires StillFrame(s, es, n, b) && x < 160 && y < 144
    requires NothingPainted(b.mem, x, y) && Bit(b.mem[0xFF40], 0)
    requires Bit(b.mem[0xFF40], 5) && b.mem[0xFF4A] <= y && b.mem[0xFF4B] <= x + 7
    ensures var (m, lcdc) := (b.mem, b.mem[0xFF40]);
      var (px, py) := (x + 7 - m[0xFF4B], y - m[0xFF4A]);
      var tile: int := m[(if Bit(lcdc, 6) then 0x9C00 else 0x9800) + 32 * (py / 8) + px / 8];
      var at := if Bit(lcdc, 4) then 0x8000 + 16 * tile else 0x9000 + 16 * (if tile < 128 then tile else tile - 256);
      var row := at + 2 * (py % 8);
      var c := BitValue(m[row], 7 - px % 8) + 2 * BitValue(m[row + 1], 7 - px % 8);
      Run(s, es).ppu.screen[x + 160 * y] == c
  {
    hide StillFrame, Bit, NothingPainted, FramePixel, Backdrop, TileBytes, Run, Clocks;
    FrameAt(s, es, n, b, x, y);
    NoSprite(b, x, y);
    WindowColour(b, x, y);
    TileBytesMeans(b.mem, 6, x + 7 - b.mem[0xFF4B], y - b.mem[0xFF4A]);
  }

  lemma TileBytesMeans(m: Memory, select: nat, px: Byte, py: Byte)
    requires select < 8
    ensures
      var tile: int := m[(if Bit(m[0xFF40], select) then 0x9C00 else 0x9800) + 32 * (py / 8) + px / 8];
      var offset := if Bit(m[0xFF40], 4) then 0x8000 + 16 * tile
                    else 0x9000 + 16 * (if tile < 128 then tile else tile - 256);
      TileBytes(m, select, px, py) == offset + 2 * (py % 8)
  {
    hide Bit;
  }

  lemma WindowColour(b: Bus, x: Byte, y: Byte)
    requires x < 160 && y < 144 && Bit(b.mem[0xFF40], 0) && WindowCovers(b.mem, x, y)
    ensures var (px, py) := (x + 7 - b.mem[0xFF4B], y - b.mem[0xFF4A]);
      0 <= px < 256 && 0 <= py < 256 && Backdrop(b, x, y) == Dots(b.mem, TileBytes(b.mem, 6, px, py), 7 - px % 8)
  {
    hide Bit, LayerColor, TileBytes, Dots;
    assert Low8(x - b.mem[0xFF4B] + 7) == x + 7 - b.mem[0xFF4B] && Low8(y - b.mem[0xFF4A]) == y - b.mem[0xFF4A];
    LayerIsDots(b, true, x + 7 - b.mem[0xFF4B], y - b.mem[0xFF4A]);
  }

  // With bit 0 of LCDC clear both layers are colour 0.
  lemma BlankPoint(s: System, es: seq<Event>, n: nat, b: Bus, x: Byte, y: Byte)
    requires StillFrame(s, es, n, b) && x < 160 && y < 144
    requires NothingPainted(b.mem, x, y) && !Bit(b.mem[0xFF40], 0)
    ensures Run(s, es).ppu.screen[x + 160 * y] == if WindowCovers(b.mem, x, y) then 0 else b.mem[0xFF47] % 4
  {
    hide StillFrame, Bit, NothingPainted, FramePixel, LayerColor;
    FrameAt(s, es, n, b, x, y);
    NoSprite(b, x, y);
    LayerIsDots(b, true, Low8(x - b.mem[0xFF4B] + 7), Low8(y - b.mem[0xFF4A]));
    LayerIsDots(b, false, Low8(x + b.mem[0xFF43]), Low8(y + b.mem[0xFF42]));
  }

  // A sprite point: row r and column i of entry k, with fewer than ten entries on the line before it, not behind the
  // background, and no later entry painted there. If the colour is not 0, the pixel is its field of OBP0 (0xFF48) or
  // OBP1 (0xFF49), by attribute bit 4.
  lemma SpritePoint(s: System, es: seq<Event>, n: nat, b: Bus, x: Byte, y: Byte, k: nat, h: nat, r: nat, i: nat)
    requires StillFrame(s, es, n, b) && x < 160 && y < 144 && Bit(b.mem[0xFF40], 1)
    requires k < 40 && Before(b.mem, k, y) < 10 && forall j: nat :: k < j < 40 ==> !Painted(b.mem, j, x, y)
    requires h == (if Bit(b.mem[0xFF40], 2) then 16 else 8) && r < h && y + 16 == b.mem[0xFE00 + 4 * k] + r
    requires 8 <= b.mem[0xFE01 + 4 * k] && i < 8 && x + 8 == b.mem[0xFE01 + 4 * k] + i
    requires Bit(b.mem[0xFE03 + 4 * k], 7) ==> LayerDots(b.mem, 3, x, (y + b.mem[0xFF42]) % 256) == 0
    ensures var (m, tile, attributes) := (b.mem, b.mem[0xFE02 + 4 * k], b.mem[0xFE03 + 4 * k]);
      var first := if h == 16 then tile / 2 * 2 else tile;
      var row := 0x8000 + 16 * first + 2 * (if Bit(attributes, 6) then h - r else r);
      var bit := if Bit(attributes, 5) then i else 7 - i;
      var c := BitValue(m[row], bit) + 2 * BitValue(m[row + 1], bit);
      c != 0 ==>
        Run(s, es).ppu.screen[x + 160 * y] == m[if Bit(attributes, 4) then 0xFF49 else 0xFF48] / [1, 4, 16, 64][c] % 4
  {
    hide StillFrame, Bit, FramePixel, LayerColor, ApplyPalette, LayerDots, SpritePixel, SpriteAt, EntryDots, Touches;
    hide Run;
    TouchesMeans(b.mem, k, y);
    EntryColour(b, k, x, y);
    SpriteBytes(b.mem, k, x, y, h, r, i);
    if EntryDots(b.mem, k, x, y) != 0 {
      FrameAt(s, es, n, b, x, y);
      LastPainted(b, x, y, k);
    }
  }

  lemma SpriteBytes(m: Memory, k: nat, x: Byte, y: Byte, h: nat, r: nat, i: nat)
    requires k < 40 && h == Height(m) && r < h && y + 16 == m[0xFE00 + 4 * k] + r
    requires i < 8 && x + 8 == m[0xFE01 + 4 * k] + i
    ensures var (tile, attributes) := (m[0xFE02 + 4 * k], m[0xFE03 + 4 * k]);
      var first := if h == 16 then tile / 2 * 2 else tile;
      var row := 0x8000 + 16 * first + 2 * (if Bit(attributes, 6) then h - r else r);
      EntryDots(m, k, x, y) == Dots(m, row, if Bit(attributes, 5) then i else 7 - i)
  {
    hide Bit, Dots;
  }

  // What is painted: an entry on the line, among the first ten there, on the column, opaque, and not behind an
  // opaque background with attribute bit 7 set.
  lemma PaintedMeans(m: Memory, k: nat, x: Byte, y: Byte)
    requires k < 40
    ensures Painted(m, k, x, y) <==>
      var (sy: int, sx: int) := (m[0xFE00 + 4 * k], m[0xFE01 + 4 * k]);
      && sx != 0 && sy <= y + 16 < sy + (if Bit(m[0xFF40], 2) then 16 else 8) && Before(m, k, y) < 10
      && 8 <= sx && sx - 8 <= x < sx && EntryDots(m, k, x, y) != 0
      && (Bit(m[0xFE03 + 4 * k], 7) ==> LayerDots(m, 3, x, (y + m[0xFF42]) % 256) == 0)
  {
    hide Bit, EntryDots, LayerDots;
  }
}
