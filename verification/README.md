# Game Boy emulator: a verified model

This project models the core of a Game Boy emulator (address bus, CPU, PPU, timer controller and the
`Gameboy` object that clocks them) and proves what it does over whole runs. It is written for Dafny 4.11;
`dafny verify dfyconfig.toml` checks all of it.

## How it is organised

Every component exists twice, and the two are tied together by contracts.

- A **specification** on values: `BusSpec`, `TimerSpec`, `CpuSpec`, `PpuSpec` and `SystemSpec` say what one
  machine clock does as functions. `CpuSpec` returns the next registers together with the bus writes of the
  clock, in order, so "whatever the CPU does" is "whatever list of CPU writes". `PpuSpec` says what a
  pixel *is*, straight from video memory, with no tiles fetched and no line buffers. `Bitwise` defines masks and
  shifts on binary digits; the objects use them where the emulator does, the specifications divide.
- A **class** with the fields of the original object, updating them in place: `AddressBus`, `TimerController`,
  `CPU`, `PPU`, `Gameboy`. Each method's `ensures` equates the new state with the specification of the old
  one. For the PPU this is a refinement: the staged renderer (32 tiles into bit planes, planes into colour
  lines, lines to the screen, sprites painted over) is proved to leave exactly the pixels of `PpuSpec.Pixel`.
  The `assert` statements of `machineClock`, `lineEndLogic` and `setPPUMode` appear as Dafny assertions.

The specification is also pinned from outside, by laws over literal opcodes, addresses and bytes: instructions in
`Instructions` and `Branches`, addresses in `BusLaws`, pixels in `Picture`, the charge table in `Timings`.

The main results are lemmas about the specification, for every program, cartridge and sequence of user events.
`History` cuts a run down to what the PPU lives through: its state at every clock and the bus it then sees.

- `Schedule.EveryRun`: LY, the clock within the line, the PPU mode and the frame count are a closed form of
  the number of clocks, and no program can disturb them; work RAM always equals its echo.
- `Frame.LineOfRun`: whatever the program writes and whenever, a row of the screen is, from its draw clock until it
  is drawn in the next frame, what the PPU saw on that clock, with the first ten sprites it sighted during its scan.
  `Frame.WholeFrame`: if the video inputs stay as they are, 17556 clocks leave on the screen, pixel by pixel, what
  video memory described, sprites included. `Frame.ScanIsFilterAndTake` needs OAM and LCDC to stay, nothing else.
  `Picture` says what that is in bytes: which bits of which tile row, which palette field, which sprite.
- `StatLines.TwoPerLine`: how many STAT interrupts one value of LY sees, for every line and every program.
- `Interrupts.Conservation`: requests raised plus requests pending at the start equal dispatches plus requests
  pending at the end. `Response.InterruptServed`: an enabled request is served `busyCycles + 1` clocks later.
- `Stack.BalancedRun` and `Stack.InterruptReturns`: any balanced nesting of calls, pushes and interrupts gives
  back SP, PC, IME and the live stack.
- `BootLoop.BootClearsVideoRam`: the real boot bytes clear video RAM and leave the first loop.
- `Arithmetic.DecimalAddition` and its companions: ADC/SBC with DAA over numbers of any length.
- `TimerClosedForm.ClosedForm`: DIV, TIMA and the number of timer interrupts after n clocks.

## Where the code and its comments differ

- `src/PPU/ppu.hpp:78` says one STAT interrupt can be fired per line. From line end to line end that is so
  (`Response.StatOncePerLine`). For one value of LY it is not: two are requested if and only if the line is visible,
  the flag is clear and mode 2 enabled when the line is entered, LYC does not hit, and mode 0 is enabled when HBlank
  is entered, whatever the program writes to STAT in between (`StatLines.TwoPerLine`).
  `TwoStatRun.TwoRequestsOnLineZero` is a run from power-on, of a five-byte cartridge program, in which it happens.
- The PPU constructor sets STAT bit 7, but the bus gives the PPU the three low bits only, so the write has no
  effect (`PPUModule.PPU.SetUnusedBit`).
- A sprite whose X position is below 8 is not drawn at all, Y-flipped sprites start one row late, sprite
  priority is tested against the unscrolled background line, and the window is not palettised. The model
  follows the code in each of these.

## Model

In the source a `word` is one byte (`Byte` here) and a `dword` two (`Word`).

| member | source | states |
|---|---|---|
| AddressBusModule.AddressBus.constructor | src/AddressBus/address-bus.hpp:47-53 | a new bus is 64 KiB of zeros with no cartridge and no button pressed |
| AddressBusModule.AddressBus.Read | src/AddressBus/address-bus.cpp:61-88 | boot ROM while enabled, the joypad register, the cartridge (0xFF if missing) or memory, in that order of precedence |
| BusLaws.JoypadAnswers | src/AddressBus/address-bus.cpp:38-58 | a program that writes a selection to JOIP reads back, line by line, the buttons it selected, low for pressed, all high if it selected none |
| AddressBusModule.AddressBus.Write | src/AddressBus/address-bus.cpp:91-171 | the whole new bus state for every writer; throws exactly on a cartridge address with no cartridge, changing nothing |
| AddressBusModule.AddressBus.Force | src/AddressBus/address-bus.cpp:92-98 | a forced write changes one cell and nothing else |
| AddressBusModule.AddressBus.TransferOam | src/AddressBus/address-bus.cpp:140-155 | the byte-by-byte copy loop, reading through the bus while it overwrites OAM, equals a snapshot of the source taken before it |
| AddressBusModule.AddressBus.RequestInterrupt | src/Gameboy/gameboy.cpp:16-18 | the request raises one bit of IF and clears the three meaningless ones |
| BusLaws.DmaIsSnapshot | src/AddressBus/address-bus.cpp:140-155 | after a DMA write every OAM byte is what a bus read of its source gave before, nothing else but REG_DMA changes, source and destination are disjoint |
| BusLaws.HighPagesDoNotTransfer | src/AddressBus/address-bus.cpp:141-144 | pages from 0xE0 start no transfer |
| BusLaws.WorkRamIsMirrored | src/AddressBus/address-bus.cpp:157-168 | a work-RAM write is read back at both addresses and no other read changes |
| BusLaws.StatIsShared | src/AddressBus/address-bus.cpp:114-120 | bit by bit: the PPU writes STAT bits 0-2, everybody else bits 3-7, the others stay |
| BusLaws.ProtectedRegisters | src/AddressBus/address-bus.cpp:122-129 | any write to DIV but the timer's clears it; only the PPU writes LY |
| BusLaws.SerialSends | src/AddressBus/address-bus.cpp:131-138 | 0x81 to SC sends the byte in SB, and nothing else sends |
| BusLaws.CartridgeSpace | src/AddressBus/address-bus.cpp:61-88 | the cartridge owns 0x0000-0x7FFF and 0xA000-0xBFFF and receives its writes in order; without one reads give 0xFF and writes throw; bit 0 of 0xFF50 hides the boot ROM |
| BusLaws.MemorySpace | src/AddressBus/address-bus.cpp:61-88 | everything else but the joypad register is memory |
| BusLaws.MirrorAddresses | src/AddressBus/address-bus.cpp:157-168 | which second cell a work-RAM write reaches, address by address |
| BusLaws.RequestLines | src/Gameboy/gameboy.cpp:16-18 | VBLANK, STAT, timer and joypad request bits 0, 1, 2 and 4 of IF and leave the others |
| Bitwise.MaskedUpdate | src/AddressBus/address-bus.cpp:116-118 | masking the two sides and joining them keeps the upper five bits of one byte and the lower three of the other |
| AddressBusModule.AddressBus.WriteStat | src/AddressBus/address-bus.cpp:114-120 | the two masked assignments give the writer its own bits of STAT and leave the others |
| BusSpec.WriteAllKeepsEcho | src/AddressBus/address-bus.cpp:157-168 | no sequence of CPU writes breaks the equality of work RAM and echo RAM |
| TimerControllerModule.TimerController.IncrementTimer | src/TimerController/timer-controller.cpp:11-32 | DIV wraps silently, TIMA reloads from TMA and requests the interrupt exactly on overflow |
| TimerControllerModule.TimerController.MachineClock | src/TimerController/timer-controller.cpp:40-66 | one clock of the timer object is one clock of its specification |
| TimerClosedForm.ClosedForm | src/TimerController/timer-controller.cpp:11-66 | after n clocks of any program that leaves the timer registers alone: DIV, TIMA and the number of requests as arithmetic in n, from the bytes of the registers, with rates 256, 4, 16, 64 by TAC modulo 4 |
| TimerClosedForm.TicksIn256Clocks | src/TimerController/timer-controller.hpp:17-23 | with TAC 4, 5, 6 or 7 any 256 clocks tick TIMA exactly 1, 64, 16 or 4 times and DIV four times |
| TimerClosedForm.DisabledTimer | src/TimerController/timer-controller.cpp:48-52 | with bit 2 of TAC clear TIMA stands still and requests nothing |
| TimerClosedForm.TimerClock | src/TimerController/timer-controller.cpp:40-66 | when DIV and TIMA tick in one clock, what TIMA becomes and whether the interrupt is requested |
| TimerClosedForm.NextTima | src/TimerController/timer-controller.cpp:17-31 | the closed forms for TIMA and the overflow count advance by one tick as the timer does |
| TimerClosedForm.WrapIsHarmless | src/TimerController/timer-controller.hpp:25-27 | wrapping the 64-bit clock counter does not move any tick, because every rate divides 2^64 |
| CPUModule.CPU.Push | src/CPU/opcodes.hpp:361-376 | two writes below SP, high byte first |
| CPUModule.CPU.PushPCToStack | src/CPU/cpu.cpp:232-235 | pushes PC, high byte first |
| CPUModule.CPU.PopPC16 | src/CPU/cpu.cpp:191-193 | the little-endian word at PC, PC two further, wrapping at 16 bits |
| CPUModule.CPU.PopSP16 | src/CPU/cpu.cpp:176-178 | the little-endian word at SP, SP two further |
| CPUModule.CPU.Ret | src/CPU/cpu.cpp:170-179 | pops PC, or gives back three cycles |
| CPUModule.CPU.Jr | src/CPU/cpu.cpp:181-189 | signed displacement from behind the operand, or one cycle back |
| CPUModule.CPU.JpImm | src/CPU/cpu.cpp:191-201 | absolute jump, or one cycle back |
| CPUModule.CPU.CallImm | src/CPU/cpu.cpp:203-214 | pushes the address behind the operand and jumps, or three cycles back |
| CPUModule.CPU.AdcRegister | src/CPU/cpu.cpp:123-130 | A and the four flags after an addition with carry |
| CPUModule.CPU.AddRegister | src/CPU/cpu.cpp:92-98 | ADD is ADC with the carry cleared |
| CPUModule.CPU.SbcRegister | src/CPU/cpu.cpp:131-139 | A and the four flags after a subtraction with borrow |
| CPUModule.CPU.SubRegister | src/CPU/cpu.cpp:99-105 | SUB is SBC with the carry cleared |
| CPUModule.CPU.CpRegister | src/CPU/cpu.cpp:152-158 | CP leaves A alone and sets the flags SUB would |
| CPUModule.CPU.AluRegister | src/CPU/opcodes.hpp:548-605 | the eight accumulator operations by opcode field |
| CPUModule.CPU.DecimalAdjust | src/CPU/opcodes.hpp:695-707 | DAA after additions and after subtractions |
| CPUModule.CPU.IncrementOrDecrement | src/CPU/cpu.cpp:79-91 | INC and DEC of any operand; carry untouched |
| CPUModule.CPU.IncrementOrDecrementMemory | src/CPU/opcodes.hpp:607-620 | at (HL) the zero flag is what the bus gives back after the store |
| CPUModule.CPU.AddToHL | src/CPU/opcodes.hpp:140-161 | 16-bit sum with carries out of bits 11 and 15, zero flag untouched |
| CPUModule.CPU.ExecAccumulator | src/CPU/opcodes.hpp:64-107 | RLCA, RRCA, RLA, RRA, DAA, CPL, SCF and CCF by opcode field, the rotates by shifting and or-ing |
| CPUModule.CPU.ExecIndirect | src/CPU/opcodes.hpp:487-519 | loads between A and memory at BC, DE, HL+ and HL- |
| CPUModule.CPU.ExecLow | src/CPU/opcodes.hpp:108-197 | every instruction below 0x40: registers, flags, charge and bus writes |
| Transfers.SpOffset | src/CPU/opcodes.hpp:163-172 | SP+e is a signed 16-bit sum whose low byte, H and C are those of ADD on the low byte of SP, and whose high byte takes carry and borrow |
| CPUModule.CPU.PopPair | src/CPU/opcodes.hpp:344-359 | POP into a register pair; POP AF clears the low nibble of F |
| CPUModule.CPU.PushPair | src/CPU/opcodes.hpp:361-376 | PUSH of a register pair |
| Transfers.StoreThenLoad | src/CPU/opcodes.hpp:521-553 | a load through 0xFF00+n, 0xFF00+C or nn gives back what the store of the same form put away, wherever memory keeps bytes; no other register moves |
| CPUModule.CPU.ExecPopOrReturn | src/CPU/opcodes.hpp:199-251 | POP, RET, RETI, JP HL and LD SP,HL |
| CPUModule.CPU.ExecHigh | src/CPU/opcodes.hpp:199-291 | every defined instruction from 0xC0 up |
| CPUModule.CPU.ExecuteOpcode | src/CPU/opcodes.hpp:7-724 | charge first, then the instruction; undefined opcodes crash the CPU |
| CPUModule.CPU.ExecuteCBOpcode | src/CPU/opcodes.hpp:732-1261 | the 256 prefixed instructions by their three opcode fields |
| CPUModule.CPU.RotateOperand | src/CPU/opcodes.hpp:744-999 | rotates, shifts and swap of any operand, with flags |
| CPUModule.CPU.RotateByte | src/CPU/opcodes.hpp:744-999 | the shift-and-or code of all eight rotates and shifts is division and remainder by powers of two, with the bit that left as carry |
| CPUModule.CPU.SwapMemory | src/CPU/opcodes.hpp:990-999 | SWAP (HL) takes its zero flag from reading the cell back |
| CPUModule.CPU.ExecuteCurrentInstruction | src/CPU/cpu.cpp:250-262 | fetch, prefix fetch and execution |
| CPUModule.CPU.Acknowledge | src/CPU/cpu.cpp:22-26 | rewriting IF without one bit |
| CPUModule.CPU.TriggerInterrupt | src/CPU/cpu.cpp:298-316 | with IME: acknowledge, push PC, jump to the vector, five cycles; without: nothing |
| CPUModule.CPU.TryTriggerInterrupt | src/CPU/cpu.cpp:264-296 | the scan from bit 0 finds the lowest enabled request, dispatches it and wakes a halted CPU |
| CPUModule.CPU.MachineClock | src/CPU/cpu.cpp:369-402 | one clock of the CPU object is one clock of its specification, bus writes included |
| BootLoop.SkipBootHandsOver | src/Gameboy/gameboy.cpp:87-115 | after skipping the boot ROM the cartridge answers everywhere below 0x8000, nothing is enabled, and its byte at 0x0100 is executed next iff the CPU was neither halted nor crashed |
| BootLoop.SkippedCpu | src/CPU/cpu.cpp:319-331 | every CPU register as a game finds it; IME, halted and crashed survive |
| BootLoop.SkippedRegisters | src/Gameboy/gameboy.cpp:87-115 | every forced hardware register, by address and value |
| Shifts.RrcUndoesRlc | src/CPU/opcodes.hpp:744-806 | RLC and RRC undo each other and report the same bit |
| Shifts.RrUndoesRl | src/CPU/opcodes.hpp:808-870 | RL rotates nine bits and RR takes it back |
| Shifts.RlUndoesRr | src/CPU/opcodes.hpp:808-870 | RR rotates nine bits and RL takes it back |
| Shifts.SwapTwice | src/CPU/opcodes.hpp:969-999 | SWAP is its own inverse |
| Shifts.ShiftsAreArithmetic | src/CPU/opcodes.hpp:872-967 | SLA doubles, SRL halves, SRA halves a two's complement number, with the lost bit in carry |
| Shifts.LeftRotations | src/CPU/opcodes.hpp:744-999 | RLC, RL, SLA and SWAP as numbers, with the bit that left |
| Shifts.RightRotations | src/CPU/opcodes.hpp:744-999 | RRC, RR, SRA and SRL as numbers, with the bit that left |
| Branches.CpThenJr | src/CPU/cpu.cpp:152-189 | after CP v, JR C goes to its target iff A < v and JR NC iff A >= v, JR Z iff A = v and JR NZ iff not, as PC and as cycles |
| Branches.CpThenJp | src/CPU/cpu.cpp:191-201 | the same for JP |
| Branches.CpThenCall | src/CPU/cpu.cpp:203-214 | the same for CALL, with the bytes it pushes |
| Branches.CpThenRet | src/CPU/cpu.cpp:170-179 | the same for RET, with the word it takes |
| Instructions.LoadImmediate | src/CPU/opcodes.hpp:378-398 | which register each LD r,n loads |
| Instructions.MoveThroughA | src/CPU/opcodes.hpp:399-485 | which register LD A,r reads and LD r,A writes |
| Instructions.MoveIsTwoMoves | src/CPU/opcodes.hpp:399-485 | every LD r,r is the two moves through A with A as it was |
| Instructions.LoadPair | src/CPU/opcodes.hpp:319-342 | LD rr,nn takes the low byte first |
| Instructions.StackPointerMoves | src/CPU/opcodes.hpp:294-317 | LD (nn),SP stores the low byte first; LD SP,HL |
| Instructions.IndirectLoads | src/CPU/opcodes.hpp:487-519 | the eight loads between A and memory, with their address and the step of HL |
| Instructions.PushAndPop | src/CPU/opcodes.hpp:344-376 | the bytes each PUSH stores and the registers each POP loads |
| Instructions.PushAF | src/CPU/opcodes.hpp:361-376 | the place of each flag in the byte stored below A |
| Instructions.PopAF | src/CPU/opcodes.hpp:344-359 | the flags come back from bits 7 to 4 and the low nibble is cleared |
| Instructions.DecodeAlu | src/CPU/opcodes.hpp:552-655 | the 64 accumulator opcodes by operation and operand |
| Instructions.DecodeAluImmediate | src/CPU/opcodes.hpp:655-694 | the immediate forms are in the same order |
| Instructions.Sums | src/CPU/cpu.cpp:92-130 | ADD and ADC as sums modulo 256 with all four flags |
| Instructions.Differences | src/CPU/cpu.cpp:99-158 | SUB and SBC as differences modulo 256 with all four flags; CP keeps A |
| Instructions.LogicBitByBit | src/CPU/cpu.cpp:106-150 | AND, XOR and OR bit by bit with all four flags |
| Instructions.IncAndDec | src/CPU/cpu.cpp:79-91 | one more or one less modulo 256, with flags, carry untouched |
| Instructions.IncAndDecMemory | src/CPU/opcodes.hpp:607-620 | the same at (HL), with the zero flag read back |
| Instructions.PairArithmetic | src/CPU/opcodes.hpp:110-161 | which pair each 16-bit INC, DEC and ADD HL works on |
| Instructions.AccumulatorFlags | src/CPU/opcodes.hpp:695-724 | CPL, SCF and CCF |
| Instructions.DaaMeans | src/CPU/opcodes.hpp:695-707 | DAA for every A and every flag state, as one sum or difference modulo 256, with flags |
| Instructions.Targets | src/CPU/opcodes.hpp:199-271 | where JP, JP HL, CALL, RET and RETI go and what CALL pushes |
| Instructions.Restarts | src/CPU/opcodes.hpp:275-290 | the eight RST targets and the address they push |
| Instructions.Control | src/CPU/opcodes.hpp:26-60 | NOP, STOP, HALT, DI and EI |
| Instructions.Crashes | src/CPU/opcodes.hpp:7-29 | eleven opcodes crash the CPU and no other does |
| Instructions.RotateInstructions | src/CPU/opcodes.hpp:744-999 | the rotate each opcode performs on a register, with flags; the four short forms clear Z |
| Instructions.RotateMemory | src/CPU/opcodes.hpp:778-999 | the same at (HL) |
| Instructions.BitInstructions | src/CPU/opcodes.hpp:1001-1261 | BIT reports, RES clears and SET sets exactly bit n |
| Instructions.DecodeCb | src/CPU/opcodes.hpp:732-1261 | all 256 prefixed opcodes by operation, bit and operand |
| CycleAccounting.InstructionCharge | src/CPU/timings.hpp:13-294 | all 512 opcodes: the table entry less the not-taken discount, between 1 and 6, or an undefined opcode that crashes |
| CycleAccounting.OpcodeCharge | src/CPU/opcodes.hpp:7-724 | which instructions give cycles back, and how many |
| CycleAccounting.CbCharge | src/CPU/opcodes.hpp:732-1261 | prefixed instructions keep their charge |
| CycleAccounting.ClockKeepsFlags | src/CPU/opcodes.hpp:344-359 | no clock sets a low bit of F |
| CycleAccounting.ClockKeepsBusy | src/CPU/cpu.cpp:369-384 | the busy counter never becomes negative |
| Timings.ChargeRange | src/CPU/timings.hpp:13-294 | the table: 1 to 6 for defined opcodes, the maximal charge for undefined ones, nothing for the prefix |
| Timings.ChargesAreTheTable | src/CPU/timings.hpp:13-293 | the charge of every opcode is its entry of the literal 16 by 16 table |
| Timings.CbCharges | src/CPU/timings.hpp:296-576 | prefixed opcodes: three cycles for BIT at (HL), four for the rest at (HL), two for registers |
| Progress.Countdown | src/CPU/cpu.cpp:379-382 | while busy the CPU only counts; the rest of the machine touches five hardware registers and withdraws no request |
| Progress.ActionOutcome | src/Gameboy/gameboy.cpp:72-79 | busyCycles + 1 clocks of the machine are one action of the CPU on a bus that differs in hardware registers only |
| Progress.FetchSpacing | src/CPU/cpu.cpp:369-402 | successive fetches are exactly charge + 1 clocks apart |
| Progress.CrashIsForever | src/CPU/cpu.cpp:375-377 | a crashed CPU never changes again |
| PPUModule.PPU.constructor | src/PPU/ppu.cpp:431-437 | starts in OAM_SCAN with empty buffers |
| PPUModule.PPU.SetUnusedBit | src/PPU/ppu.cpp:434 | setting STAT bit 7 changes nothing |
| PPUModule.PPU.FetchTile | src/PPU/ppu.cpp:160-184 | the two bytes fetched for a tile column are the bit planes of that row of the 256x256 layer, for both addressing modes |
| PPUModule.PPU.FetchTiles | src/PPU/ppu.cpp:160-184 | the 32-tile loop fills both plane buffers with one row of the layer |
| PPUModule.PPU.PrepareBackgroundLine | src/PPU/ppu.cpp:144-185 | the buffers hold row (LY + SCY) mod 256 of the background, or zeros when it is off |
| PPUModule.PPU.PrepareWindowLine | src/PPU/ppu.cpp:187-235 | the buffers hold row LY - WY of the window whenever any pixel of the line is inside it, and are left as they were otherwise |
| PPUModule.PPU.ComputeColorBuffers | src/PPU/ppu.cpp:255-273 | every one of the 256 colours of both lines comes from its bit in its tile |
| PPUModule.PPU.PrepareColorLines | src/PPU/ppu.cpp:237-240 | stages one and two together give the layer colours of specification points |
| PPUModule.PPU.ApplyPalette | src/PPU/ppu.cpp:80-91 | masking and shifting pick the two-bit field of the palette that belongs to the colour |
| PPUModule.PPU.BackdropPixel | src/PPU/ppu.cpp:275-283 | window colour inside the window, palettised scrolled background elsewhere |
| PPUModule.PPU.FlushLineToScreenBuffer | src/PPU/ppu.cpp:275-283 | row LY of the screen is the backdrop, every other row is untouched |
| PPUModule.PPU.SpriteRowAddress | src/PPU/ppu.cpp:366-396 | choosing top or bottom tile and an offset inside it is addressing row r, or height - r if flipped, of the 8 or 16 rows of the sprite; the line within the sprite is 0 to 15 and the address inside the 8000 block or just past it |
| PPUModule.PPU.SpritePixels | src/PPU/ppu.cpp:398-406 | the eight colours of that row, left to right |
| PPUModule.PPU.PaintSprite | src/PPU/ppu.cpp:408-428 | changes exactly the pixels of row LY where the sprite shows, in range, to its palettised colour |
| PPUModule.PPU.ComputeAndFlushSpritesToScreenBuffer | src/PPU/ppu.cpp:360-429 | painting in buffer order leaves the last buffered sprite that shows at each pixel, else what was there |
| PPUModule.PPU.DrawCurrentLine | src/PPU/ppu.cpp:237-244 | the staged renderer leaves exactly the specified pixels on row LY and empties the sprite buffer |
| PPUModule.PPU.AddSpriteToBufferIfNeeded | src/PPU/ppu.cpp:318-347 | adds the entry exactly if it touches the line and there is room; its y position is then positive |
| PPUModule.PPU.WriteSTAT | src/PPU/ppu.cpp:30-34 | writing one of the PPU's bits leaves the other seven |
| PPUModule.PPU.GetPPUMode | src/PPU/ppu.cpp:522-524 | the mode is the two low bits of STAT |
| PPUModule.PPU.SetPPUMode | src/PPU/ppu.cpp:36-74 | new mode, STAT request if enabled and not used up on this line, VBLANK request |
| PPUModule.PPU.TryRequestSTATInterrupt | src/PPU/ppu.cpp:246-253 | requests at most once until the flag is reset |
| PPUModule.PPU.LineEndLogic | src/PPU/ppu.cpp:93-142 | next line, mode, frame count and LYC comparison, with the source's assertions |
| PPUModule.PPU.CompareLYC | src/PPU/ppu.cpp:126-142 | the stored LYC bit, the request and the per-line flag |
| StatLines.LycBit | src/PPU/ppu.cpp:126-142 | bit 2 of STAT after a line end is set iff LY equals LYC and bit 6 is set |
| PPUModule.PPU.MachineClock | src/PPU/ppu.cpp:440-520 | one clock of the PPU object is one clock of its specification, and all its assertions hold |
| PpuSpec.AddSpriteExtendsScan | src/PPU/ppu.cpp:318-347 | scanning entry by entry is filtering OAM and keeping the first ten |
| PpuSpec.ClockSteps | src/PPU/ppu.cpp:440-520 | one clock moves the counters on, keeps buffered sprites drawable and writes no register but STAT, LY and IF |
| Schedule.WriteAllKeepsDisplayState | src/AddressBus/address-bus.cpp:114-124 | no CPU writes reach LY, the mode or the LYC bit |
| Schedule.CpuCannotDisturb | src/Gameboy/gameboy.cpp:72-79 | what the PPU sees after timer and CPU is still on schedule and consistent |
| Schedule.PpuClockAdvancesSchedule | src/PPU/ppu.cpp:440-520 | the closed form of line, counter, mode and frame count advances with every PPU clock |
| Schedule.TickKeepsInvariant | src/Gameboy/gameboy.cpp:72-79 | one machine clock keeps schedule, echo, flags and countdown invariants |
| Schedule.JoypadKeepsInvariant | src/Gameboy/gameboy.cpp:140-162 | so does a joypad change |
| Schedule.SkipBootKeepsInvariant | src/Gameboy/gameboy.cpp:87-115 | so does skipping the boot ROM: none of its forced writes reaches LY, STAT or mirrored RAM |
| Schedule.EveryRun | src/PPU/ppu.cpp:440-520 | every run from power-on, of any program with any user events, satisfies the invariant with its number of clocks |
| Schedule.EveryRunInNumbers | src/PPU/ppu.cpp:440-520 | LY, the two mode bits, the frame count and the echo of every run, as numbers of its clocks |
| Schedule.PowerOnState | src/Gameboy/gameboy.cpp:30-64 | everything a machine starts with |
| Schedule.JoypadEvent | src/Gameboy/gameboy.cpp:140-162 | a change of buttons is kept, forced into JOIP and requested; no change is no event |
| GameboyModule.Gameboy.constructor | src/Gameboy/gameboy.cpp:30-64 | the state after power-on with a cartridge loaded |
| GameboyModule.Gameboy.MachineClock | src/Gameboy/gameboy.cpp:72-79 | timer, CPU, PPU in this order; the invariant holds with one more clock |
| GameboyModule.Gameboy.SetJoypad | src/Gameboy/gameboy.cpp:140-162 | ignored if nothing changed, else state, JOIP and a joypad request |
| GameboyModule.Gameboy.SkipBoot | src/Gameboy/gameboy.cpp:87-115 | boot ROM off, the sixteen forced registers, CPU reset |
| History.RunLives | src/Gameboy/gameboy.cpp:72-79 | every run of the machine with any user events is a history in which each PPU clock leads to the next and none finds the display disturbed |
| Frame.LineOfRun | src/PPU/ppu.cpp:237-244 | for every program: row y shows what the PPU saw on its draw clock until the row is drawn again |
| Frame.WholeFrame | src/PPU/ppu.cpp:237-283 | after 17556 machine clocks from a frame start every pixel is the direct function of video memory, with sprites, for any program that leaves video memory alone |
| Frame.WholeFrameAlone | src/PPU/ppu.cpp:440-520 | the same for the PPU clocked on its own: its own writes disturb nothing it draws from |
| Frame.LineOfHistory | src/PPU/ppu.cpp:480-518 | the same for any history of the PPU, whoever writes to the bus between its clocks |
| Frame.PixelStays | src/PPU/ppu.cpp:440-520 | each line is drawn exactly once a frame, and nothing else touches its pixels |
| Frame.ScanProgress | src/PPU/ppu.cpp:480-500 | for every program: t clocks into a line the buffer is the first ten sighted sprites of the first 2t entries, each entry as it was on its own clock |
| Frame.ScanIsFilterAndTake | src/PPU/ppu.cpp:480-500 | t scan clocks into any visible line, with OAM and LCDC stable over those clocks, the buffer is the first ten touching sprites of the first 2t entries in OAM order |
| Picture.LinesOfSprite | src/PPU/ppu.cpp:318-347 | from the OAM bytes: with fewer than ten before it, an entry is in the buffer iff y is one of its 8 or 16 lines, and at its place in order |
| Picture.BackgroundPoint | src/PPU/ppu.cpp:144-184 | on the screen after a still frame, from the bytes of memory: a background pixel is the BGP field numbered by one bit of each byte of its tile row, low digit from the first |
| Picture.WindowPoint | src/PPU/ppu.cpp:187-235 | the same for a window pixel, without the palette |
| Picture.BlankPoint | src/PPU/ppu.cpp:144-149 | with bit 0 of LCDC clear both layers are colour 0 |
| Picture.SpritePoint | src/PPU/ppu.cpp:360-429 | the same for a sprite pixel: row, flips, tile, object palette and priority from the four OAM bytes; the last painted entry wins |
| Picture.PaintedMeans | src/PPU/ppu.cpp:360-429 | exactly when an entry puts a pixel at a point |
| Frame.SamePixel | src/PPU/ppu.cpp:144-235 | a pixel depends on nothing but VRAM, OAM and eight registers |
| Interrupts.Conservation | src/CPU/cpu.cpp:264-316 | on every run whose writes avoid IF, for every source: pending before + raised = pending after + dispatched |
| Interrupts.ClockConserves | src/Gameboy/gameboy.cpp:72-79 | the same for one machine clock |
| Interrupts.TimerRaises | src/TimerController/timer-controller.cpp:28-31 | the timer changes IF by its requests only |
| Interrupts.PpuClockRaises | src/PPU/ppu.cpp:36-74 | the PPU changes IF by its requests only |
| Interrupts.CpuTakesRequests | src/CPU/cpu.cpp:298-316 | the CPU takes away exactly the request it dispatches |
| Interrupts.JoypadConserves | src/Gameboy/gameboy.cpp:140-162 | a joypad change raises at most its own bit |
| Interrupts.DispatchStores | src/CPU/cpu.cpp:283-316 | a dispatched interrupt was requested, and its first write acknowledges it |
| Response.InterruptServed | src/CPU/cpu.cpp:264-316 | busyCycles + 1 clocks later PC is 0x40, 0x48, 0x50, 0x58 or 0x60 by the lowest bit set in both IF and IE, IME and halted are off, SP is two lower and no other request is lost |
| Response.HaltedCpuWakes | src/CPU/cpu.cpp:264-305 | with IME off a halted CPU wakes in the same bound, PC and requests as they were |
| Response.HaltedCpuSleeps | src/CPU/cpu.cpp:392-395 | with nothing requested and enabled a halted CPU does not change |
| Response.FirstPendingIsLowest | src/CPU/cpu.cpp:283-293 | the scan finds a request iff there is an enabled one, and the lowest |
| Response.VBlankCount | src/PPU/ppu.cpp:93-124 | n clocks from power-on make exactly (n + 1140) / 17556 VBLANK requests |
| Response.StatOncePerLine | src/PPU/ppu.cpp:246-253 | at most one STAT request from just after a line end through the next |
| Response.StatCount | src/PPU/ppu.cpp:246-253 | hence at most ceil(n / 114) in n clocks |
| Response.ClockRequests | src/PPU/ppu.cpp:36-142 | which requests a clock can make, given line, counter and the per-line flag |
| StatLines.StatPerLine | src/PPU/ppu.cpp:93-142 | the exact number of STAT requests while LY has one value, for every line and program |
| StatLines.TwoPerLine | src/PPU/ppu.hpp:78-79 | the exact condition under which one value of LY sees two STAT requests in a run of the machine, and never more |
| TwoStatRun.TwoRequestsOnLineZero | src/PPU/ppu.hpp:78-79 | a run from power-on in which line 0 sees two |
| StatLines.MidLineClock | src/PPU/ppu.cpp:36-74 | within a line only the entry into HBlank can request STAT, if enabled then and not used up |
| StatLines.LineEndClock | src/PPU/ppu.cpp:93-142 | the end of a line requests STAT for the new mode or for LYC, and drops the flag unless LYC hits |
| Stack.BalancedRun | src/CPU/cpu.cpp:170-235 | any balanced run, however deep, gives SP back and leaves the live stack as it was |
| Stack.PushActs | src/CPU/cpu.cpp:232-235 | a push adds exactly one word on top of the stack list, with timer and PPU running |
| Stack.OtherActs | src/CPU/cpu.cpp:170-179 | a pop drops exactly the top word; other actions leave the list alone |
| Stack.BracketCloses | src/CPU/cpu.cpp:170-235 | the word popped after a balanced body is the word pushed before it |
| Stack.InterruptReturns | src/CPU/cpu.cpp:298-316 | an interrupted program resumes with PC, SP, stack and IME restored |
| Stack.CallReturns | src/CPU/cpu.cpp:203-214 | CALL, taken conditional calls and RST, ended by any return, resume behind themselves with the stack as it was |
| Stack.PushPopAF | src/CPU/opcodes.hpp:344-376 | PUSH AF ... POP AF restores A and F around any balanced body |
| Stack.InstructionPushes | src/CPU/opcodes.hpp:252-290 | CALL, taken conditional calls, RST and PUSH and the word each pushes |
| Stack.InstructionPops | src/CPU/opcodes.hpp:199-223 | RET, RETI, taken conditional returns and POP and where the word goes |
| BootLoop.BootClearsVideoRam | src/AddressBus/address-bus.hpp:46 | the boot bytes from PC 0 reach PC 0x000C with video RAM zero, HL 0x7FFF and SP 0xFFFE, timer and PPU running |
| BootLoop.Loop | src/AddressBus/address-bus.hpp:46 | the loop from any HL in video RAM, with HL as the measure |
| BootLoop.Iteration | src/CPU/opcodes.hpp:505-509 | one trip: one byte cleared, HL one lower, out of the loop at 0x8000 |
| BootLoop.BootBytes | src/AddressBus/address-bus.hpp:46 | the twelve bytes the loop is made of |
| BootLoop.PowerOnIsInBoot | src/Gameboy/gameboy.cpp:30-64 | power-on meets the premise of the boot theorem |
| Arithmetic.DecimalAddition | src/CPU/opcodes.hpp:695-707 | ADC;DAA over packed-decimal strings of any length is the sum modulo 100^n with carry iff it was reached |
| Arithmetic.DecimalSubtraction | src/CPU/opcodes.hpp:695-707 | SBC;DAA likewise, carry iff the result is negative |
| Arithmetic.AdcDaaAddsTwoDigits | src/CPU/opcodes.hpp:695-707 | two decimal digits and the carry, for every flag state |
| Arithmetic.SbcDaaSubtractsTwoDigits | src/CPU/opcodes.hpp:695-707 | the same for subtraction |
| Arithmetic.BinaryAddition | src/CPU/cpu.cpp:123-130 | chains of ADC add modulo 256^n with the right final carry |
| Arithmetic.BinarySubtraction | src/CPU/cpu.cpp:131-139 | chains of SBC subtract modulo 256^n with the right final borrow |
| Arithmetic.AddHLIsTwoByteAdditions | src/CPU/opcodes.hpp:140-161 | ADD HL,rr agrees with ADD then ADC on bytes in result, C and H |
| Arithmetic.SubUndoesAdd | src/CPU/cpu.cpp:92-105 | SUB after ADD restores A and reports the same carries |

## Left out

- Cartridge controllers (MBC0, MBC1, MBC3), save files and the real-time clock: a cartridge is any device whose
  answers are a pure function of the writes it has received; assertions inside a controller are not modelled.
- Exceptions beyond the bus: `AddressBus.Write` reports the throw for a missing cartridge. The CPU object assumes a
  cartridge, which every constructed `Gameboy` has.
- Front end, serial printing, debug output and the display on/off query; the serial buffer itself is modelled.
- Back pointers: `PPU` gets the screen buffer and the interrupt wire directly instead of through `Gameboy`, and the
  joypad state lives in the bus object, which is where it is read.
- Timing tables: the two 256-entry arrays are one function grouped by instruction form, not filled element by element.
- Opcode dispatch: the switches over named opcodes are decoded by the opcode's bit fields, which is how the names are
  numbered; the named cases are not listed one by one.
- Register F: its four flags and low nibble are a record instead of a `bitset<8>`.
- Line drawing: background and window share one tile loop, which the source writes out twice.
- Response.InterruptServed: "no other request is lost" assumes the two pushes of the dispatch do not hit IF themselves.
- Interrupts.Conservation: assumes the program's writes and forced registers avoid IF, since either may set it at will.
- Stack.BalancedRun: assumes the stack window lies in work RAM, echo RAM or high RAM and that the program's other
  writes miss the live stack.
- The rest of the boot program, sound registers and everything the hardware does that the emulator does not.
