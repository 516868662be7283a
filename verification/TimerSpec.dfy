/** One machine clock of the timer controller as a function. */
module TimerSpec {
  import opened Bytes
  import opened Registers
  import opened BusSpec

  const DIV_RATE := 64
  const CLOCK_WRAP: nat := 0x1_0000_0000_0000_0000

  datatype Outcome = Outcome(clockCount: nat, bus: Bus, requests: seq<Interrupt>)

  // TAC bits 0 and 1 select the rate, bit 2 enables the timer.
  function Rate(tac: Byte): (r: nat)
    ensures r == 4 || r == 16 || r == 64 || r == 256
  {
    match tac % 4 case 0 => 256 case 1 => 4 case 2 => 16 case _ => 64
  }

  predicate Enabled(tac: Byte) { Bit(tac, 2) }

  predicate DivTicks(count: nat) { count % DIV_RATE == 0 }

  predicate TimaTicks(count: nat, tac: Byte) { Enabled(tac) && count % Rate(tac) == 0 }

  function TickDiv(b: Bus): Bus { Poke(b, REG_DIV, Successor(b.mem[REG_DIV])) }

  // On overflow TIMA restarts from TMA and the timer interrupt is requested.
  function TickTima(b: Bus): Bus {
    Poke(b, REG_TIMA, if b.mem[REG_TIMA] == 0xFF then b.mem[REG_TMA] else b.mem[REG_TIMA] + 1)
  }

  function Clock(count: nat, b: Bus): Outcome {
    var count1 := (count + 1) % CLOCK_WRAP;
    var b1 := if DivTicks(count1) then TickDiv(b) else b;
    if !TimaTicks(count1, b1.mem[REG_TAC]) then Outcome(count1, b1, [])
    else if b1.mem[REG_TIMA] == 0xFF then Outcome(count1, Raise(TickTima(b1), Timer), [Timer])
    else Outcome(count1, TickTima(b1), [])
  }
}
