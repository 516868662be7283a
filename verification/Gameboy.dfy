/** The Gameboy object: owns the components and steps them in order. */
module GameboyModule {
  import opened Bytes
  import opened Registers
  import opened BusSpec
  import opened AddressBusModule
  import opened TimerControllerModule
  import opened CPUModule
  import opened PPUModule
  import opened SystemSpec
  import Schedule
  import T = TimerSpec
  import C = CpuSpec
  import P = PpuSpec

  class Gameboy {
    const bus: AddressBus
    const ppu: PPU
    const cpu: CPU
    const tcu: TimerController
    const screenBuffer: array<Color>
    // machine clocks since power-on
    ghost var clocks: nat

    ghost predicate Valid()
      reads this, bus, bus.memory, ppu, cpu, tcu, screenBuffer
    {
      && ppu.bus == bus && cpu.bus == bus && tcu.bus == bus && ppu.screenBuffer == screenBuffer
      && ppu.Valid() && cpu.Valid() && tcu.clockCount < T.CLOCK_WRAP
      && Schedule.Invariant(State(), clocks)
    }

    ghost function State(): System
      requires bus.Valid() && ppu.screenBuffer == screenBuffer && screenBuffer.Length == WIDTH * HEIGHT
      reads this, bus, bus.memory, ppu, cpu, tcu, screenBuffer
    {
      System(tcu.clockCount, cpu.State(), ppu.State(), bus.State())
    }

    constructor (cart: Cartridge)
      ensures Valid() && State() == PowerOn(cart) && clocks == 0
    {
      var sharedBus := new AddressBus();
      var screen := new Color[WIDTH * HEIGHT](_ => 0);
      var p := new PPU(sharedBus, screen);
      var c := new CPU(sharedBus);
      var t := new TimerController(sharedBus);
      bus, screenBuffer, ppu, cpu, tcu := sharedBus, screen, p, c, t;
      clocks := 0;
      new;
      hide Tick, P.EnterMode, Schedule.Invariant;
      bus.LoadCart(cart);
      assert screenBuffer[..] == seq(WIDTH * HEIGHT, _ => 0);
      Schedule.PowerOnInvariant(cart);
    }

    method MachineClock()
      requires Valid()
      modifies this, bus, bus.memory, cpu, tcu, ppu, screenBuffer, ppu.LineBuffers()
      ensures Valid() && State() == Tick(old(State())) && clocks == old(clocks) + 1
    {
      hide T.Clock, C.Clock, P.Clock, P.Consistent, Schedule.Invariant, AfterCpu;
      ghost var s := State();
      Schedule.TickIsSafe(s, clocks);
      tcu.MachineClock();
      ClockCpu(s);
      ClockPpu(s);
      clocks := clocks + 1;
    }

    // After the timer, in the clock that started in s.
    method ClockCpu(ghost s: System)
      requires cpu.bus == bus && cpu.Valid() && cpu.busyCycles >= 0
      requires cpu.State() == s.cpu && bus.State() == TimerPart(s).bus
      modifies bus, bus.memory, cpu
      ensures cpu.Valid() && cpu.State() == CpuPart(s).cpu && bus.State() == AfterCpu(s)
    {
      cpu.MachineClock();
    }

    // After the CPU, in the clock that started in s.
    method ClockPpu(ghost s: System)
      requires ppu.bus == bus && ppu.Valid() && ppu.Consistent()
      requires ppu.State() == s.ppu && bus.State() == AfterCpu(s)
      modifies bus, bus.memory, ppu, ppu.screenBuffer, ppu.LineBuffers()
      ensures ppu.Valid() && ppu.State() == PpuPart(s).ppu && bus.State() == PpuPart(s).bus
    {
      ppu.MachineClock();
    }

    method SetJoypad(value: Byte)
      requires Valid()
      modifies bus, bus.memory
      ensures Valid() && State() == Step(old(State()), Event.SetJoypad(value))
    {
      Schedule.JoypadKeepsInvariant(State(), value, clocks);
      if bus.joypadStatus == value {
        return;
      }
      bus.joypadStatus := value;
      bus.Force(REG_JOIP, value);
      bus.RequestInterrupt(JoypadEdge);
    }

    method SkipBoot()
      requires Valid()
      modifies bus, bus.memory, cpu
      ensures Valid() && State() == Step(old(State()), Event.SkipBoot)
    {
      hide Tick, Write, P.BufferConsistent, Schedule.OnSchedule, EchoCoherent;
      Schedule.SkipBootKeepsInvariant(State(), clocks);
      var _ := bus.Write(BOOT_ROM_LOCK, 1, FromCpu);
      ForceAll(FORCED_REGISTERS);
      cpu.Reset();
    }

    method ForceAll(stores: seq<Store>)
      requires bus.Valid() && forall i :: 0 <= i < |stores| ==> !RefersToCartridge(stores[i].0)
      modifies bus.memory
      ensures bus.State() == PokeAll(old(bus.State()), stores)
    {
      var i := 0;
      while i != |stores|
        invariant 0 <= i <= |stores|
        invariant PokeAll(bus.State(), stores[i..]) == PokeAll(old(bus.State()), stores)
      {
        assert stores[i..][1..] == stores[i + 1..];
        bus.Force(stores[i].0, stores[i].1);
        i := i + 1;
      }
    }
  }
}
