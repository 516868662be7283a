/** The shared 64 KiB memory as a value: what a bus read returns and what a bus write changes. */
module BusSpec {
  import opened Bytes
  import opened Registers
  import opened BootImage

  datatype Option<+T> = None | Some(value: T)

  type Memory = m: seq<Byte> | |m| == 0x10000 witness seq(0x10000, _ => 0)

  type Store = (Word, Byte)

  // A cartridge as the bus sees it: whatever its controller does, its answers are a pure
  // function of the writes it has received so far.
  datatype Cartridge = Cartridge(answer: (seq<Store>, Word) -> Byte, received: seq<Store>)

  // Who is writing: different parts of memory are open to different components.
  datatype Component = FromCpu | FromPpu | FromTimer

  datatype Bus = Bus(mem: Memory, cart: Option<Cartridge>, joypadStatus: Byte, serial: seq<Byte>)

  predicate RefersToCartridge(a: Word) {
    a < CART_ROM_UPPER_BOUND || CART_RAM_LOWER_BOUND <= a < CART_RAM_UPPER_BOUND
  }

  predicate BootRomEnabled(b: Bus) { b.mem[BOOT_ROM_LOCK] % 2 == 0 }

  function Joypad(b: Bus): Byte {
    var joip := b.mem[REG_JOIP];
    if !Bit(joip, 5) then joip / 16 * 16 + b.joypadStatus / 16
    else if !Bit(joip, 4) then joip / 16 * 16 + b.joypadStatus % 16
    else joip / 16 * 16 + 15
  }

  function Read(b: Bus, a: Word): Byte {
    if a < BOOTROM_UPPER_BOUND && BootRomEnabled(b) then BootRom(a)
    else if a == REG_JOIP then Joypad(b)
    else if !RefersToCartridge(a) then b.mem[a]
    else if b.cart.None? then 0xFF
    else b.cart.value.answer(b.cart.value.received, a)
  }

  function Poke(b: Bus, a: Word, v: Byte): Bus { b.(mem := b.mem[a := v]) }

  // The other address of a work-RAM cell; addresses that are not mirrored are their own echo.
  function Echo(a: Word): Word {
    if 0xE000 <= a < 0xFE00 then a - 0x2000
    else if 0xC000 <= a < 0xDE00 then a + 0x2000
    else a
  }

  // A write that throws an exception and leaves everything as it was.
  predicate WriteThrows(b: Bus, a: Word) { RefersToCartridge(a) && b.cart.None? }

  function WriteToCartridge(b: Bus, a: Word, v: Byte): Bus {
    if b.cart.None? then b
    else b.(cart := Some(b.cart.value.(received := b.cart.value.received + [(a, v)])))
  }

  // OAM after a transfer is a snapshot: byte i is what a read of source byte i gives beforehand.
  function AfterDma(b: Bus, page: Byte, a: Word): Byte
    requires page < 0xE0
  {
    if OAM_MEMORY_LOWER_BOUND <= a < OAM_MEMORY_LOWER_BOUND + DMA_LENGTH
    then Read(b, 0x100 * page + a - OAM_MEMORY_LOWER_BOUND)
    else b.mem[a]
  }

  function DmaTransfer(b: Bus, page: Byte): Bus
    requires page < 0xE0
  {
    b.(mem := seq(0x10000, (a: int) requires 0 <= a < 0x10000 => AfterDma(b, page, a)))
  }

  function Write(b: Bus, a: Word, v: Byte, who: Component): Bus {
    if RefersToCartridge(a) then WriteToCartridge(b, a, v)
    else if a == REG_STAT then
      // the three lower bits belong to the PPU, the five upper ones to everybody else
      Poke(b, a, if who == FromPpu then b.mem[a] / 8 * 8 + v % 8 else v / 8 * 8 + b.mem[a] % 8)
    else if a == REG_LY && who != FromPpu then b
    else if a == REG_DIV && who != FromTimer then Poke(b, a, 0)
    else if a == REG_SC && v == 0x81 then
      var c := Poke(b, a, v);
      c.(serial := c.serial + [Read(c, REG_SB)])
    else if a == REG_DMA && v < 0xE0 then DmaTransfer(Poke(b, a, v), v)
    else Poke(Poke(b, a, v), Echo(a), v)
  }

  // A sequence of CPU writes, in order.
  function WriteAll(b: Bus, stores: seq<Store>): Bus
    decreases |stores|
  {
    if |stores| == 0 then b
    else WriteAll(Write(b, stores[0].0, stores[0].1, FromCpu), stores[1..])
  }

  lemma WriteAllTwo(b: Bus, x: Store, y: Store)
    ensures WriteAll(b, [x, y]) == Write(Write(b, x.0, x.1, FromCpu), y.0, y.1, FromCpu)
  {
    assert [x, y][1..] == [y];
    assert WriteAll(Write(b, x.0, x.1, FromCpu), [y]) == Write(Write(b, x.0, x.1, FromCpu), y.0, y.1, FromCpu);
  }

  lemma WriteAllFirst(b: Bus, x: Store, stores: seq<Store>)
    ensures WriteAll(b, [x] + stores) == WriteAll(Write(b, x.0, x.1, FromCpu), stores)
  {
    assert ([x] + stores)[1..] == stores;
  }

  /* Interrupt requests */

  datatype Interrupt = VBlank | Stat | Timer | Serial | JoypadEdge {
    function Index(): (i: nat)
      ensures i < 5
    {
      match this case VBlank => 0 case Stat => 1 case Timer => 2 case Serial => 3 case JoypadEdge => 4
    }
  }

  // The five meaningful bits of a register; the others are dropped when IF is rewritten.
  function FiveBits(v: Byte): Byte { v % 32 }

  function Raise(b: Bus, i: Interrupt): Bus {
    Poke(b, REG_IF, SetBit(FiveBits(b.mem[REG_IF]), i.Index(), true))
  }

  predicate IsRaised(b: Bus, i: Interrupt) { Bit(b.mem[REG_IF], i.Index()) }

  function RaiseAll(b: Bus, requests: seq<Interrupt>): Bus
    decreases |requests|
  {
    if |requests| == 0 then b else RaiseAll(Raise(b, requests[0]), requests[1..])
  }

  lemma RaiseAllAppend(b: Bus, requests: seq<Interrupt>, last: Interrupt)
    ensures RaiseAll(b, requests + [last]) == Raise(RaiseAll(b, requests), last)
    decreases |requests|
  {
    if requests == [] {
      assert [] + [last] == [last];
    } else {
      RaiseAllAppend(Raise(b, requests[0]), requests[1..], last);
      assert (requests + [last])[1..] == requests[1..] + [last];
    }
  }

  /* Echo coherence */

  ghost predicate EchoCoherent(m: Memory) {
    forall a :: 0xC000 <= a < 0xDE00 ==> m[a] == m[a + 0x2000]
  }

  lemma WriteKeepsEcho(b: Bus, a: Word, v: Byte, who: Component)
    requires EchoCoherent(b.mem)
    ensures EchoCoherent(Write(b, a, v, who).mem)
  {
  }

  lemma {:induction false} WriteAllKeepsEcho(b: Bus, stores: seq<Store>)
    requires EchoCoherent(b.mem)
    ensures EchoCoherent(WriteAll(b, stores).mem)
    decreases |stores|
  {
    if stores == [] {
    } else {
      WriteKeepsEcho(b, stores[0].0, stores[0].1, FromCpu);
      WriteAllKeepsEcho(Write(b, stores[0].0, stores[0].1, FromCpu), stores[1..]);
    }
  }
}
