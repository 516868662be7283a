/** The whole machine: timer, then CPU, then PPU on every clock, with the user's events in between. */
module SystemSpec {
  import opened Bytes
  import opened Registers
  import opened BusSpec
  import T = TimerSpec
  import C = CpuSpec
  import P = PpuSpec

  datatype System = System(clockCount: nat, cpu: C.Cpu, ppu: P.Ppu, bus: Bus)

  /* One clock. Each component sees the bus as the one before it left it. */

  function TimerPart(s: System): T.Outcome { T.Clock(s.clockCount, s.bus) }

  function CpuPart(s: System): C.Outcome { C.Clock(s.cpu, TimerPart(s).bus) }

  // The bus the PPU sees.
  function AfterCpu(s: System): Bus { WriteAll(TimerPart(s).bus, CpuPart(s).stores) }

  function PpuPart(s: System): P.Outcome { P.Clock(s.ppu, AfterCpu(s)) }

  function Tick(s: System): System {
    System(TimerPart(s).clockCount, CpuPart(s).cpu, PpuPart(s).ppu, PpuPart(s).bus)
  }

  function Ticks(s: System, n: nat): System { if n == 0 then s else Tick(Ticks(s, n - 1)) }

  /* What the user of the library can do */

  datatype Event = MachineClock | SetJoypad(value: Byte) | SkipBoot

  function SetJoypadTo(b: Bus, v: Byte): Bus {
    if b.joypadStatus == v then b
    else Raise(Poke(b.(joypadStatus := v), REG_JOIP, v), JoypadEdge)
  }

  const FORCED_REGISTERS: seq<Store> := [
    (REG_JOIP, 0xCF), (REG_SB, 0x00), (REG_SC, 0x7E), (REG_DIV, 0x18), (REG_TIMA, 0x00), (REG_TMA, 0x00),
    (REG_TAC, 0xF8), (REG_IF, 0xE1), (REG_LCDC, 0x91), (REG_SCY, 0x00), (REG_SCX, 0x00), (REG_DMA, 0xFF),
    (REG_BGP, 0xFC), (REG_WY, 0x00), (REG_WX, 0x00), (REG_IE, 0x00)
  ]

  function PokeAll(b: Bus, stores: seq<Store>): Bus
    decreases |stores|
  {
    if |stores| == 0 then b else PokeAll(Poke(b, stores[0].0, stores[0].1), stores[1..])
  }

  function BootSkipped(b: Bus): Bus { PokeAll(Write(b, BOOT_ROM_LOCK, 1, FromCpu), FORCED_REGISTERS) }

  function Step(s: System, e: Event): System {
    match e
    case MachineClock => Tick(s)
    case SetJoypad(v) => s.(bus := SetJoypadTo(s.bus, v))
    case SkipBoot => s.(bus := BootSkipped(s.bus), cpu := C.AfterBoot(s.cpu))
  }

  function Run(s: System, es: seq<Event>): System {
    if |es| == 0 then s else Step(Run(s, es[..|es| - 1]), es[|es| - 1])
  }

  function Clocks(es: seq<Event>): nat {
    if |es| == 0 then 0 else Clocks(es[..|es| - 1]) + if es[|es| - 1] == MachineClock then 1 else 0
  }

  function PowerOn(cart: Cartridge): System {
    var b := Bus(seq(0x10000, _ => 0), None, 0xFF, []);
    var p := P.EnterMode(P.Ppu(0, false, [], seq(WIDTH * HEIGHT, _ => 0), 0), b, P.OamScan);
    var c := C.Cpu(0, C.Flags(false, false, false, false, 0), 0, 0, 0, 0, 0, 0, 0, 0, false, false, false, 0);
    System(0, c, p.ppu, p.bus.(cart := Some(cart)))
  }
}
