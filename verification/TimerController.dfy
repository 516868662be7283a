/** The timer object: counts clocks and bumps DIV and TIMA in memory. */
module TimerControllerModule {
  import opened Bytes
  import opened Registers
  import opened BusSpec
  import opened AddressBusModule
  import Spec = TimerSpec

  const TIMA_RATES: seq<nat> := [256, 4, 16, 64]

  class TimerController {
    const bus: AddressBus
    var clockCount: nat

    constructor (bus: AddressBus)
      ensures this.bus == bus && clockCount == 0
    {
      this.bus := bus;
      clockCount := 0;
    }

    method IncrementTimer(address: Word) returns (requested: bool)
      requires bus.Valid() && (address == REG_DIV || address == REG_TIMA)
      modifies bus, bus.memory
      ensures bus.Valid()
      ensures requested == (address == REG_TIMA && old(bus.State()).mem[REG_TIMA] == 0xFF)
      ensures bus.State() ==
        var b := if address == REG_DIV then Spec.TickDiv(old(bus.State())) else Spec.TickTima(old(bus.State()));
        if requested then Raise(b, Timer) else b
    {
      var oldValue := bus.Read(address);
      var overflow := oldValue == 0xFF;
      if address == REG_DIV || !overflow {
        var _ := bus.Write(address, Successor(oldValue), FromTimer);
        assert bus.State().mem == old(bus.State()).mem[address := Successor(oldValue)];
        return false;
      }
      var tma := bus.Read(REG_TMA);
      var _ := bus.Write(REG_TIMA, tma, FromTimer);
      assert bus.State().mem == old(bus.State()).mem[REG_TIMA := tma];
      bus.RequestInterrupt(Timer);
      return true;
    }

    method MachineClock()
      requires bus.Valid() && clockCount < Spec.CLOCK_WRAP
      modifies this, bus, bus.memory
      ensures bus.Valid() && clockCount < Spec.CLOCK_WRAP
      ensures clockCount == Spec.Clock(old(clockCount), old(bus.State())).clockCount
      ensures bus.State() == Spec.Clock(old(clockCount), old(bus.State())).bus
    {
      clockCount := (clockCount + 1) % Spec.CLOCK_WRAP;
      if clockCount % Spec.DIV_RATE == 0 {
        var _ := IncrementTimer(REG_DIV);
      }
      var tac := bus.Read(REG_TAC);
      if !Bit(tac, 2) {
        return;
      }
      if clockCount % TIMA_RATES[tac % 4] == 0 {
        var _ := IncrementTimer(REG_TIMA);
      }
    }
  }
}
