/** The address bus: 64 KiB updated in place, with different rules for different writers. */
module AddressBusModule {
  import opened Bytes
  import opened Registers
  import opened Bitwise
  import opened BootImage
  import opened BusSpec

  class AddressBus {
    const memory: array<Byte>
    var cart: Option<Cartridge>
    // the state of the eight buttons, kept here because the bus reads it
    var joypadStatus: Byte
    var serialBuffer: seq<Byte>

    ghost predicate Valid()
      reads this
    {
      memory.Length == 0x10000
    }

    ghost function State(): Bus
      requires Valid()
      reads this, memory
    {
      Bus(memory[..], cart, joypadStatus, serialBuffer)
    }

    constructor ()
      ensures Valid() && fresh(memory)
      ensures State() == Bus(seq(0x10000, _ => 0), None, 0xFF, [])
    {
      memory := new Byte[0x10000](_ => 0);
      cart, joypadStatus, serialBuffer := None, 0xFF, [];
    }

    method LoadCart(newCart: Cartridge)
      requires Valid()
      modifies this`cart
      ensures State() == old(State()).(cart := Some(newCart))
    {
      cart := Some(newCart);
    }

    method IsBootRomEnabled() returns (r: bool)
      requires Valid()
      ensures r == BootRomEnabled(State())
    {
      r := memory[BOOT_ROM_LOCK] % 2 == 0;
    }

    method GetJoypad() returns (v: Byte)
      requires Valid()
      ensures v == Joypad(State())
    {
      hide And, Or, Shr;
      var joip := memory[REG_JOIP];
      HighNibbleMask(joip);
      // select buttons
      if !Bit(joip, 5) {
        ShrFour(joypadStatus);
        OrNibbles(joip / 16 * 16, joypadStatus / 16);
        return Or(And(joip, 0xF0), Shr(joypadStatus, 4));
      }
      // select D-pad
      if !Bit(joip, 4) {
        LowNibbleMask(joypadStatus);
        OrNibbles(joip / 16 * 16, joypadStatus % 16);
        return Or(And(joip, 0xF0), And(joypadStatus, 0x0F));
      }
      // nothing selected: as if nothing is pressed
      FillLowNibble(joip);
      return Or(joip, 0x0F);
    }

    method Read(address: Word) returns (v: Byte)
      requires Valid()
      ensures v == BusSpec.Read(State(), address)
    {
      var boot := IsBootRomEnabled();
      if address < BOOTROM_UPPER_BOUND && boot {
        return BootRom(address);
      }
      if address == REG_JOIP {
        v := GetJoypad();
        return;
      }
      if !RefersToCartridge(address) {
        return memory[address];
      }
      if cart.None? {
        return 0xFF;
      }
      return cart.value.answer(cart.value.received, address);
    }

    // Forced writes, for the Gameboy itself.
    method Force(address: Word, value: Byte)
      requires Valid() && !RefersToCartridge(address)
      modifies memory
      ensures State() == Poke(old(State()), address, value)
    {
      memory[address] := value;
    }

    // STAT under the mask of its writer: the three lower bits are only writable by the PPU, the others by the rest.
    method WriteStat(value: Byte, mask: Byte)
      requires Valid() && (mask == 0x07 || mask == 0xF8)
      modifies memory
      ensures var was := old(State()).mem[REG_STAT];
        State() == Poke(old(State()), REG_STAT,
                        if mask == 0x07 then was / 8 * 8 + value % 8 else value / 8 * 8 + was % 8)
    {
      hide And, Or;
      MaskedUpdate(memory[REG_STAT], value);
      MaskedUpdate(value, memory[REG_STAT]);
      OrCommutes(And(value, 0xF8), And(memory[REG_STAT], 0x07));
      ghost var was := memory[..];
      memory[REG_STAT] := And(memory[REG_STAT], 0xFF - mask);
      memory[REG_STAT] := Or(memory[REG_STAT], And(value, mask));
      assert memory[..] == was[REG_STAT := memory[REG_STAT]];
    }

    method Write(address: Word, value: Byte, whois: Component) returns (thrown: bool)
      requires Valid()
      modifies this, memory
      ensures thrown == WriteThrows(old(State()), address)
      ensures State() == BusSpec.Write(old(State()), address, value, whois)
    {
      thrown := false;
      if RefersToCartridge(address) {
        if cart.None? {
          return true;
        }
        cart := Some(cart.value.(received := cart.value.received + [(address, value)]));
        return;
      }
      if address == REG_STAT {
        WriteStat(value, if whois == FromPpu then 0x07 else 0xF8);
        return;
      }
      if address == REG_LY && whois != FromPpu {
        return;
      }
      if address == REG_DIV && whois != FromTimer {
        memory[address] := 0;
        return;
      }
      memory[address] := value;
      if address == REG_SC && value == 0x81 {
        var c := Read(REG_SB);
        serialBuffer := serialBuffer + [c];
        return;
      }
      if address == REG_DMA {
        if value >= 0xE0 {
          return;
        }
        TransferOam(value);
        return;
      }
      if 0xE000 <= address < 0xFE00 {
        memory[address - 0x2000] := value;
        memory[address] := value;
        return;
      }
      if 0xC000 <= address < 0xDE00 {
        memory[address + 0x2000] := value;
        memory[address] := value;
        return;
      }
    }

    // The copy goes byte by byte through Read while OAM is being overwritten.
    method TransferOam(page: Byte)
      requires Valid() && page < 0xE0
      modifies memory
      ensures State() == DmaTransfer(old(State()), page)
    {
      var i := 0;
      while i != DMA_LENGTH
        invariant 0 <= i <= DMA_LENGTH
        invariant forall a: Word :: (memory[a] ==
           if OAM_MEMORY_LOWER_BOUND <= a < OAM_MEMORY_LOWER_BOUND + i
           then AfterDma(old(State()), page, a) else old(State()).mem[a])
      {
        var v := Read(0x100 * page + i);
        memory[OAM_MEMORY_LOWER_BOUND + i] := v;
        i := i + 1;
      }
    }

    // The interrupt wire: Gameboy::requestInterrupt ends in CPU::IF(interrupt, true).
    method RequestInterrupt(interrupt: Interrupt)
      requires Valid()
      modifies this, memory
      ensures State() == Raise(old(State()), interrupt)
    {
      var flags := Read(REG_IF);
      var _ := Write(REG_IF, SetBit(FiveBits(flags), interrupt.Index(), true), FromCpu);
      assert State().mem == Raise(old(State()), interrupt).mem;
    }
  }
}
