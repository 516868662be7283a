/** What the address bus promises its users: DMA, mirrored work RAM and the split STAT register. */
module BusLaws {
  import opened Bytes
  import opened Registers
  import opened Bitwise
  import opened BootImage
  import opened BusSpec

  // A transfer leaves every OAM byte equal to what a read of its source gave before, whatever mixture of
  // boot ROM, cartridge and RAM the source page is, and changes nothing else but REG_DMA itself.
  lemma DmaIsSnapshot(b: Bus, page: Byte, who: Component)
    requires page < 0xE0
    ensures var c := Write(b, 0xFF46, page, who);
      && (forall a: Word :: 0xFE00 <= a < 0xFEA0 ==> c.mem[a] == Read(b, 256 * page + (a - 0xFE00)))
      && (forall a: Word :: a != 0xFF46 && !(0xFE00 <= a < 0xFEA0) ==> c.mem[a] == b.mem[a])
      && c.mem[0xFF46] == page && c == b.(mem := c.mem)
      && 256 * page + 160 <= 0xFE00
  {
    var d := Poke(b, REG_DMA, page);
    var c := DmaTransfer(d, page);
    forall a: Word | 0xFE00 <= a < 0xFEA0 ensures c.mem[a] == Read(b, 256 * page + (a - 0xFE00)) {
      assert c.mem[a] == AfterDma(d, page, a);
    }
  }

  // Pages from 0xE0 up are stored but start no transfer.
  lemma HighPagesDoNotTransfer(b: Bus, page: Byte, who: Component)
    requires page >= 0xE0
    ensures Write(b, REG_DMA, page, who) == Poke(b, REG_DMA, page)
  {
    assert b.mem[REG_DMA := page][REG_DMA := page] == b.mem[REG_DMA := page];
  }

  // A write to work RAM is read back at both of its addresses and changes no other.
  lemma WorkRamIsMirrored(b: Bus, a: Word, v: Byte, who: Component)
    requires 0xC000 <= a < 0xFE00
    ensures var c := Write(b, a, v, who);
      && Read(c, a) == v && Read(c, Echo(a)) == v
      && (forall x: Word :: x != a && x != Echo(a) ==> Read(c, x) == Read(b, x))
      && Echo(Echo(a)) == a
  {
  }

  // Of STAT, the PPU writes bits 0 to 2 and everybody else bits 3 to 7; the other bits stay.
  lemma StatIsShared(b: Bus, v: Byte, who: Component, k: nat)
    requires k < 8
    ensures Bit(Write(b, REG_STAT, v, who).mem[REG_STAT], k) ==
      if (k < 3) == (who == FromPpu) then Bit(v, k) else Bit(b.mem[REG_STAT], k)
  {
    var (was, now) := (b.mem[REG_STAT], Write(b, REG_STAT, v, who).mem[REG_STAT]);
    var (low, high) := if who == FromPpu then (v, was) else (was, v);
    assert now == high / 8 * 8 + low % 8;
    SameUpperBits(high, now);
    SameLowBits(low, now);
  }

  // What a program sees of the joypad: it writes a selection and reads back the four lines it selected, low for
  // pressed, buttons before directions, all high if it selected neither.
  lemma JoypadAnswers(b: Bus, selection: Byte, k: nat)
    requires k < 8
    ensures Bit(Read(Write(b, REG_JOIP, selection, FromCpu), REG_JOIP), k) ==
      if k >= 4 then Bit(selection, k)
      else if !Bit(selection, 5) then Bit(b.joypadStatus, k + 4)
      else if !Bit(selection, 4) then Bit(b.joypadStatus, k)
      else true
  {
    hide Bit;
    var (s, j) := (selection, b.joypadStatus);
    assert s == 16 * (s / 16) + s % 16 && j == 16 * (j / 16) + j % 16;
    NibbleBit(s / 16, s % 16, k);
    NibbleBit(j / 16, j % 16, k);
    NibbleBit(j / 16, j % 16, (k + 4) % 8);
    NibbleBit(s / 16, j / 16, k);
    NibbleBit(s / 16, j % 16, k);
    NibbleBit(s / 16, 15, k);
    AllOnes(k % 4);
  }

  lemma AllOnes(k: nat)
    requires k < 4
    ensures Bit(15, k)
  {
  }

  /* Single addresses */

  // Nobody but the timer can set DIV: any other write clears it. Nobody but the PPU can write LY.
  lemma ProtectedRegisters(b: Bus, v: Byte)
    ensures Write(b, 0xFF04, v, FromCpu).mem == b.mem[0xFF04 := 0]
    ensures Write(b, 0xFF04, v, FromPpu).mem == b.mem[0xFF04 := 0]
    ensures Write(b, 0xFF04, v, FromTimer).mem == b.mem[0xFF04 := v]
    ensures Write(b, 0xFF44, v, FromCpu) == b && Write(b, 0xFF44, v, FromTimer) == b
    ensures Write(b, 0xFF44, v, FromPpu).mem == b.mem[0xFF44 := v]
  {
    assert b.mem[0xFF04 := v][0xFF04 := v] == b.mem[0xFF04 := v];
    assert b.mem[0xFF44 := v][0xFF44 := v] == b.mem[0xFF44 := v];
  }

  // Writing 0x81 to SC sends the byte in SB; no other value and no other register sends anything.
  lemma SerialSends(b: Bus, a: Word, v: Byte, who: Component)
    ensures Write(b, a, v, who).serial == if a == 0xFF02 && v == 0x81 then b.serial + [b.mem[0xFF01]] else b.serial
  {
  }

  // The cartridge owns 0x0000-0x7FFF and 0xA000-0xBFFF: it receives the writes there, in order, and memory does not
  // change; without a cartridge reads give 0xFF and writes are lost. Bit 0 of 0xFF50 hides the boot ROM.
  lemma CartridgeSpace(b: Bus, a: Word, v: Byte, who: Component)
    requires a < 0x8000 || 0xA000 <= a < 0xC000
    ensures var c := Write(b, a, v, who);
      && c.mem == b.mem && (b.cart.None? ==> c == b)
      && (b.cart.Some? ==> c.cart == Some(Cartridge(b.cart.value.answer, b.cart.value.received + [(a, v)])))
    ensures WriteThrows(b, a) <==> b.cart.None?
    ensures a >= 0x100 || b.mem[0xFF50] % 2 == 1 ==>
      Read(b, a) == if b.cart.None? then 0xFF else b.cart.value.answer(b.cart.value.received, a)
    ensures a < 0x100 && b.mem[0xFF50] % 2 == 0 ==> Read(b, a) == BootRom(a)
  {
    hide BootRom;
  }

  // Everything else but the joypad register is read from memory.
  lemma MemorySpace(b: Bus, a: Word)
    requires 0x8000 <= a < 0xA000 || (0xC000 <= a && a != 0xFF00)
    ensures Read(b, a) == b.mem[a] && !WriteThrows(b, a)
  {
    hide BootRom;
  }

  // The lower and the upper address of a work-RAM cell; 0xDE00-0xDFFF have no echo.
  lemma MirrorAddresses(b: Bus, a: Word, v: Byte, who: Component)
    requires 0xC000 <= a < 0xFE00
    ensures var m := Write(b, a, v, who).mem;
      m == if a < 0xDE00 then b.mem[a := v][a + 0x2000 := v]
           else if a < 0xE000 then b.mem[a := v]
           else b.mem[a := v][a - 0x2000 := v]
  {
    assert b.mem[a := v][a := v] == b.mem[a := v];
  }

  // VBLANK requests bit 0 of IF (0xFF0F), STAT bit 1, the timer bit 2 and the joypad bit 4.
  lemma RequestLines(b: Bus, j: nat)
    requires j < 5
    ensures Bit(Raise(b, Interrupt.VBlank).mem[0xFF0F], j) == (j == 0 || Bit(b.mem[0xFF0F], j))
    ensures Bit(Raise(b, Stat).mem[0xFF0F], j) == (j == 1 || Bit(b.mem[0xFF0F], j))
    ensures Bit(Raise(b, Timer).mem[0xFF0F], j) == (j == 2 || Bit(b.mem[0xFF0F], j))
    ensures Bit(Raise(b, JoypadEdge).mem[0xFF0F], j) == (j == 4 || Bit(b.mem[0xFF0F], j))
  {
    hide Bit, SetBit;
    var v := FiveBits(b.mem[0xFF0F]);
    LowFiveBits(b.mem[0xFF0F], j);
    SetBitSetsOnlyThatBit(v, 0, true, j);
    SetBitSetsOnlyThatBit(v, 1, true, j);
    SetBitSetsOnlyThatBit(v, 2, true, j);
    SetBitSetsOnlyThatBit(v, 4, true, j);
  }
}
