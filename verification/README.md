# Verification of the TRX64 6510 core and its satellites

This project models the cycle-stepped 6510 of TRX64 and five smaller algorithms around it, and proves
what they are for. `dafny verify dfyconfig.toml` checks all of it.

## What is modelled

**The 6510 core** (`Interrupts`, `IntStatusObject`, `Machine`, `Alu`, `Instructions`, `Dispatch`,
`Exec`). A bus is a record of functions over an abstract device state, so that every result holds for
every VIC, CIA, expansion port and memory. `Interrupts` is the interrupt-line multiplexer as a value,
`IntStatusObject.IntStatus` the object the chips update. `Machine` is one CPU cycle with everything in
it (line sampling, delay counters, turbo phase, the PHI2 edge, the wait before an access, the BA
stall), `Instructions` the addressing modes, all opcode bodies and the decoder, `Dispatch` the call
the host makes: alarms, interrupt dispatch, fetch, opcode. `Exec.Core` is the same core in place, field
by field and loop by loop; each of its methods is proved equal to the function of the same name. A ghost
log (`Machine.Log`) plays the recorder on the bus: accesses, cycles, turbo waits, JAMs, stolen cycles,
PHI2 edges, NMI vector fetches, interrupt entries. The main results are about that log over whole runs:
any calls under any debugger gates, with the host restamping lines, changing the speed and
touching the devices in between.

- `WholeRuns`: NMI conservation, one access per cycle and per clock, turbo accounting, the latency
  rule for every entry, a released IRQ seen at one boundary only.
- `Latency`: the delay counters are exact, and entries happen exactly when due. `Masking`: what the
  instruction right after CLI, PLP and SEI may meet.
- `Debugger`: stopping after interrupt entries and splitting steps at their prologue is invisible over any
  number of calls; a repeated prologue never enters twice. `ChipQueue`: why a prologue leaves no released
  IRQ behind.
- `Vectors`: where every interrupt goes. `BusTrace`: the accesses of every instruction, cycle by cycle, and
  where it leaves program counter and stack pointer. `Opcodes`: the opcode map.
- `LoadsAndStores`, `Subroutines` (on the flat RAM of `FlatMemory`): which byte an instruction means, and what
  JSR and RTS, pushes and pulls do for a program.
- `InterruptReturn`: interrupt entry, a balanced handler and RTI restore the interrupted state.
- `ReadModifyWrite`: read, write back, write at one address, and exactly when.
- `TurboWait`: the access wait is the least possible one. `Sampling`: what a cycle makes of the lines.
- `Decimal`, `Arithmetic`: chained decimal and binary arithmetic is exact on numbers of any length.

**The keyboard matrix** (`KeyboardMatrix`): the mutually recursive solver, the port reads with their
loops, and what a scan reads. An 8-bit mask is the set of its bit numbers.

**The checkpoint diff** (`Runs`, `CheckpointTree`, `DriveBlob`, `CheckpointMask`, `TreeReport`): run
extraction, the recursive walk, the modules of the drive blob, the mask with its echo, the verdict, and what
is reported under which path.

**VIC provenance** (`Provenance`): the change list and its expansion.

**The CPU-history ring** (`HistoryRing`): a slab overwritten in place that answers as a plain log, and
its dump.

**The sandbox write observer** (`SandboxObserver`): per-address accounting of where stores landed.

## Where the code does not do what it says

Each of these is modelled as written, and the exact condition under which the promised property holds
is proved; a member named here for a failure states it for a concrete input.

- `($nn,X)` read-modify-write opcodes write to address 0: their target never reaches
  `pending_ind_addr` (`ReadModifyWrite.IndXWritesElsewhere`; right if and only if the mode is another
  one or the target is address 0, `ReadModifyWrite.RmwOneAddress`).
- The sandbox observer relies on two CPU stores never sharing a clock. At a turbo divider they can: the
  clock advances once per PHI2 cycle. A RAM store under `$D000-$DFFF` can then vanish from the RAM
  report (`SandboxObserver.TurboStoreLost`, `SandboxObserver.RamRunsExactIff`).
- A mask window with `from > to` is echoed as a match when a piece of a run holds both its ends, although
  it removes nothing, and splits the piece into parts that touch or overlap
  (`CheckpointMask.InvertedWindowIsEchoed`, `CheckpointMask.EchoRightIff`,
  `CheckpointMask.SubtractExact`).
- The strict diff calls some different trees identical: fractions against fractions, an array against
  its zero-padded form, a null against a missing key (`CheckpointTree.FractionsAreBlind`,
  `CheckpointTree.TrailingZeroIsBlind`, `CheckpointTree.NullIsBlind`; `CheckpointTree.WalkSilent` says
  exactly which pairs of trees have no delta).
  A drive blob that decodes on one side only, and whatever lies outside the four compared modules, is
  reported nowhere (`CheckpointMask.UndecodedDriveIsBlind`, `DriveBlob.DriveSilent`).
- The 32-bit store counters of the sandbox observer stand still at their end; an I/O address with that many
  I/O stores is never in the RAM report (`SandboxObserver.ReportedAt`).
- A ring of 2^32 slots or more can lose history in a dump (`HistoryRing.LargeRingForgets`,
  `HistoryRing.RestoreIsTransparent`). Only a direct caller of the ring can ask for one: the daemon clamps
  the depth to ten minutes (`crates/trx64-daemon/src/main.rs`, line 9127).

## Model

| member | source | states |
|---|---|---|
| `WholeRuns.PowerOnInv` | crates/trx64-core/src/c64_6510core.rs:220-263 | the power-on state of core and interrupt status satisfies everything the whole-run results start from |
| `WholeRuns.RunCounted` | crates/trx64-core/src/lib.rs:4051-4064 | for any bus and any run of calls, line changes, speed changes and device changes: the invariant is kept; JAMs, restarted phases, VIC ticks, stolen cycles and the clock add up; a bus that steals nothing steals nothing |
| `WholeRuns.RunAllKeepsInv` | crates/trx64-core/src/c64_6510core.rs:2737-2810 | line counts, phase, edge record, one-access-per-cycle and NMI account stay true over every such run |
| `WholeRuns.OneAccessPerCycle` | crates/trx64-core/src/c64_6510core.rs:1422-1745 | over every run and at every divider: accesses + turbo waits + executed JAMs = CPU cycles, and the i-th access is in the i-th cycle that is neither wait nor JAM |
| `WholeRuns.OneAccessPerClock` | crates/trx64-core/src/c64_6510core.rs:962-1013 | at 1 MHz the clocks elapsed are the accesses made plus the JAMs executed plus the cycles stolen |
| `WholeRuns.EveryClockHasItsAccess` | crates/trx64-core/src/c64_6510core.rs:962-1013 | at 1 MHz, on a bus that steals nothing, a run without a JAM makes exactly as many accesses as clocks elapse |
| `WholeRuns.TurboAccounting` | crates/trx64-core/src/lib.rs:3964-3978 | over every run `turbo_phase < turbo_div`; one VIC tick per PHI2 edge; every PHI2 cycle lasted the divider that ran it plus what phase restarts took back, and that is in all what the restarts found on the counter |
| `WholeRuns.DividerIsExact` | crates/trx64-core/src/c64_6510core.rs:962-1013 | without a restart that takes something back every PHI2 cycle lasts exactly its divider |
| `WholeRuns.RunSlowly` | crates/trx64-core/src/c64_6510core.rs:962-1013 | a run nobody changes the speed of stays at 1 MHz: one VIC tick per CPU cycle, no turbo wait, delay counters not ahead of the clock and exact while undisturbed, all entries late enough |
| `WholeRuns.ReleasedIrqWindow` | crates/trx64-core/src/c64_6510core.rs:2752-2767 | an IRQ taken without a line asking for it was released less than 3 clocks ago |
| `WholeRuns.TailAfterPrologue` | crates/trx64-core/src/c64_6510core.rs:2768-2776 | after the call whose boundary saw the tail of a release, a tail can only be that of a later release |
| `WholeRuns.TailSeenOnce` | crates/trx64-core/src/c64_6510core.rs:2760-2776 | a release is seen at one boundary only: no boundary of any later run sees its tail again |
| `WholeRuns.TailBeginsWithRelease` | crates/trx64-core/src/c64_6510core.rs:292-301 | only the release of the last IRQ source starts a tail, and its expiry is the release clock + 3 |
| `WholeRuns.NmiConserved` | crates/trx64-core/src/c64_6510core.rs:310-337 | over every run, latch settings = `$FFFA` vector reads that really are on the bus, each counted once, + one if still pending + requests dropped by a jammed CPU |
| `WholeRuns.ClockAccounting` | crates/trx64-core/src/c64_6510core.rs:962-1013 | the clock moves once per VIC tick and once per stolen cycle; the divider changes only at a PHI2 edge |
| `WholeRuns.EveryEntryIsLate` | crates/trx64-core/src/c64_6510core.rs:415-461 | over every run at 1 MHz from power-on each IRQ and NMI entry comes at least 2 clocks after its edge (3 after a taken same-page branch), no IRQ while the last opcode is marked as enabling it, no NMI right after a BRK |
| `Masking.CliHoldsIrq` | crates/trx64-core/src/c64_6510core.rs:1886-1898 | right after a CLI that found I set no IRQ is entered, only an NMI may be; the one exception is a BA stall that marked the CLI during its own fetch, and the mark after it is exactly the opposite of that |
| `Masking.PlpHoldsIrq` | crates/trx64-core/src/c64_6510core.rs:2169-2181 | right after a PLP that cleared I no IRQ is entered, on any bus |
| `Masking.SeiLetsIrqIn` | crates/trx64-core/src/c64_6510core.rs:2032-2038 | right after a SEI that found I clear an IRQ is due if and only if one is asked for and ripe, although I is set |
| `Masking.BranchDelays` | crates/trx64-core/src/c64_6510core.rs:2073-2091 | a branch delays the next interrupt by a cycle if and only if it is taken and stays in the page of the instruction behind it |
| `Vectors.DispatchJumps` | crates/trx64-core/src/c64_6510core.rs:2521-2603 | where every dispatch goes: $FFFC for a reset, else $FFFA for a due NMI, else for a due IRQ $FFFE or, if an NMI takes it over, $FFFA; the program counter is what the two bytes read there spell, low byte first; with nothing due it stays |
| `Vectors.IrqBrkJumps` | crates/trx64-core/src/c64_6510core.rs:2475-2510 | the IRQ/BRK sequence ends with reads of `v` and `v + 1` and a jump to what they spell; `v` is $FFFA exactly if an NMI is latched and its edge two cycles old once P is pushed, $FFFE otherwise |
| `Vectors.NmiEntryJumps` | crates/trx64-core/src/c64_6510core.rs:2526-2556 | an NMI entry goes through $FFFA and notes the fetch |
| `Vectors.IrqEntryJumps` | crates/trx64-core/src/c64_6510core.rs:2558-2578 | an IRQ entry goes through the vector of its sequence |
| `Vectors.BrkJumps` | crates/trx64-core/src/c64_6510core.rs:2513-2517 | and so does a BRK |
| `Vectors.ResetJumps` | crates/trx64-core/src/c64_6510core.rs:2590-2601 | a reset goes through $FFFC and sets I |
| `BusTrace.GetFollows` | crates/trx64-core/src/c64_6510core.rs:2404-2421 | every get mode makes exactly the accesses of its row of the table, dummy reads and page crossings included, reads its result at the effective address, and hands that on for `($nn),Y` RMW only |
| `BusTrace.StoreFollows` | crates/trx64-core/src/c64_6510core.rs:2456-2472 | every plain store makes the accesses of its mode and ends with the write of its value at the effective address |
| `BusTrace.BranchPerforms` | crates/trx64-core/src/c64_6510core.rs:2073-2091 | a branch that is taken goes to its signed offset from the next instruction, with one dummy read, or two across a page; one that is not goes on |
| `BusTrace.IrqBrkTraced` | crates/trx64-core/src/c64_6510core.rs:2475-2510 | three pushes, return address high and low and P, then the two vector bytes, nothing else |
| `BusTrace.ExecutePerforms` | crates/trx64-core/src/c64_6510core.rs:1415-2517 | on any bus every instruction makes exactly the accesses of the table, in its order and with its values, and leaves program counter and stack pointer where the table says |
| `BusTrace.InstructionPerforms` | crates/trx64-core/src/c64_6510core.rs:2816-3132 | the same for whole instructions: two or three fetches at the program counter, then the table's row of the opcode they fetched, with the operands they fetched |
| `Opcodes.AccumulatorColumn` | crates/trx64-core/src/c64_6510core.rs:2870-3132 | the opcode map follows the structure of the 6502: the accumulator column by row and mode |
| `Opcodes.MemoryColumns` | crates/trx64-core/src/c64_6510core.rs:2870-3132 | the read-modify-write columns, the undocumented combinations included |
| `Opcodes.RegisterColumns` | crates/trx64-core/src/c64_6510core.rs:2870-3132 | the loads and stores of X, Y and A with X |
| `Opcodes.BranchesByBits` | crates/trx64-core/src/c64_6510core.rs:2870-3132 | a branch opcode asks for the flag and the state its top three bits name |
| `Opcodes.ControlOpcodes` | crates/trx64-core/src/c64_6510core.rs:2870-3132 | the opcodes outside the columns |
| `LoadsAndStores.LoadGets` | crates/trx64-core/src/c64_6510core.rs:2404-2421 | on flat RAM a load of any mode gets the byte at its effective address and changes nothing |
| `LoadsAndStores.StoreChanges` | crates/trx64-core/src/c64_6510core.rs:2456-2472 | a store of any mode changes the byte at its effective address and no other |
| `LoadsAndStores.LoadInstruction` | crates/trx64-core/src/c64_6510core.rs:2816-3132 | any load instruction in memory: its operation on the byte at the address its operands and registers mean, memory unchanged |
| `LoadsAndStores.StoreInstruction` | crates/trx64-core/src/c64_6510core.rs:2816-3132 | any plain store instruction in memory: that byte becomes the register, nothing else changes but the program counter |
| `LoadsAndStores.RmwInstruction` | crates/trx64-core/src/c64_6510core.rs:2816-3132 | any read-modify-write in memory: that byte becomes what the operation makes of it, and no other; at address 0 for `($nn,X)` |
| `Subroutines.JsrCalls` | crates/trx64-core/src/c64_6510core.rs:2102-2118 | a JSR in memory pushes the address of its last byte and goes to its operands, the second read behind the pushes |
| `Subroutines.JsrReaches` | crates/trx64-core/src/c64_6510core.rs:2102-2118 | so that it reaches the address they spell in memory unless it overwrites the second one itself |
| `Subroutines.SubroutineReturns` | crates/trx64-core/src/c64_6510core.rs:2119-2133 | JSR, any subroutine that keeps SP and the two pushed bytes, RTS: the program goes on 3 behind the JSR with the SP it had, for every PC and SP |
| `Subroutines.AccumulatorSaved` | crates/trx64-core/src/c64_6510core.rs:2150-2168 | PHA, any code that keeps SP and the byte, PLA: the accumulator is back, with its flags |
| `Subroutines.FlagsSaved` | crates/trx64-core/src/c64_6510core.rs:2155-2181 | PHP and PLP: all flags are back, B as the push set it |
| `Arithmetic.AddExact` | crates/trx64-core/src/c64_6510core.rs:1756-1794 | binary ADC: result and carry are the sum, V the signed overflow, N and Z the result's, nothing else |
| `Arithmetic.SubtractExact` | crates/trx64-core/src/c64_6510core.rs:1977-2014 | binary SBC: the same for the difference and the borrow |
| `Arithmetic.BinarySumExact` | crates/trx64-core/src/c64_6510core.rs:1756-1794 | ADC byte by byte over binary numbers of any length is the exact sum |
| `Arithmetic.BinaryDifferenceExact` | crates/trx64-core/src/c64_6510core.rs:1977-2014 | and SBC the exact difference |
| `Arithmetic.CompareExact` | crates/trx64-core/src/c64_6510core.rs:1901-1907 | a comparison orders register and operand in C and Z and changes nothing else |
| `Arithmetic.ShiftExact` | crates/trx64-core/src/c64_6510core.rs:2191-2226 | shifts and rotations double or halve exactly, with what moves in and what falls out |
| `Arithmetic.RotationsUndo` | crates/trx64-core/src/c64_6510core.rs:2209-2226 | a rotation each way gives byte and carry back |
| `Arithmetic.CombinedExact` | crates/trx64-core/src/c64_6510core.rs:2247-2306 | the undocumented read-modify-writes are their two parts, one after the other |
| `Arithmetic.LogicExact` | crates/trx64-core/src/c64_6510core.rs:1805-1940 | AND, ORA and EOR work bit by bit, with the result's flags |
| `Arithmetic.TransferExact` | crates/trx64-core/src/c64_6510core.rs:2040-2069 | each transfer moves its source to its target, with the flags of all but TXS |
| `Latency.CycleExact` | crates/trx64-core/src/c64_6510core.rs:962-1013 | one 1 MHz cycle that reports no change late keeps every delay counter equal to the time since its edge, edges stamped ahead of the clock included |
| `Latency.DelaysExact` | crates/trx64-core/src/c64_6510core.rs:1002-1007 | over every undisturbed 1 MHz run from power-on: `irq_delay_cycles` is `clk - irq_clk` and `nmi_delay_cycles` is `clk - nmi_clk` |
| `Latency.RipeExactly` | crates/trx64-core/src/c64_6510core.rs:415-461 | with exact counters the IRQ and NMI gates open exactly 2 (3) clocks after the edge |
| `Latency.EnteredExactly` | crates/trx64-core/src/c64_6510core.rs:2521-2578 | at the boundary of every such run an interrupt is entered if and only if, by the clock, one is ripe: neither early nor a boundary late |
| `Debugger.NoSecondEntry` | crates/trx64-core/src/c64_6510core.rs:2737-2810 | a repeated prologue never takes a second interrupt, whatever the chips' alarms do in between: at 1 MHz, without a reset, or with the reset vector in memory as on the C64 |
| `Debugger.SecondEntryAfterReset` | crates/trx64-core/src/c64_6510core.rs:2551-2578 | counterexample for a bus whose vector reads wait: a turbo reset ripens the NMI the dispatch has just passed over |
| `Debugger.NeverASecondEntry` | crates/trx64-core/src/c64_6510core.rs:2737-2810 | in every state a run reaches from power-on, without a condition |
| `Debugger.RepeatedPrologue` | crates/trx64-core/src/c64_6510core.rs:2737-2783 | when alarms are idempotent at a fixed clock, a second prologue is the identity if and only if the first left no tail dangling |
| `ChipQueue.CycleDrains` | crates/trx64-core/src/c64_6510core.rs:962-1013 | after every CPU cycle the chips' queued line changes are replayed |
| `ChipQueue.DispatchDrains` | crates/trx64-core/src/c64_6510core.rs:2521-2578 | an entry, made of nothing but cycles, leaves the queue of line changes empty, and a dispatch without one touches no chip |
| `ChipQueue.PrologueNeverDangles` | crates/trx64-core/src/c64_6510core.rs:2768-2776 | on a bus whose alarms, run from an empty queue, only raise lines (an ICR read or a chip reset is what releases one), no prologue leaves a tail dangling, whatever is queued before it |
| `Debugger.RepeatedPrologueIsIdle` | crates/trx64-core/src/c64_6510core.rs:2737-2783 | on such a bus a repeated prologue changes nothing |
| `Debugger.SplitStepIsTransparent` | crates/trx64-core/src/c64_6510core.rs:2737-2810 | a step split into prologue and opcode is the unsplit step: with the entry stop the daemon sets beside it, or on such a bus under any other gates |
| `Debugger.SplitsAreTransparent` | crates/trx64-core/src/c64_6510core.rs:2737-2810 | the same for any number of calls under any such gates, stops and splits in any order: registers, bus trace and chips are at every point those of the unstopped run after as many instructions, before or after its prologue, and the next full call gives its next state |
| `Debugger.SessionsAreTransparent` | crates/trx64-daemon/src/main.rs:755-775 | in every state a run reaches from power-on, for the gates the daemon sets, with no condition on resets |
| `Debugger.PrologueLeavesQuiet` | crates/trx64-core/src/c64_6510core.rs:2752-2783 | after a prologue that entered an interrupt or met no waiting turbo reset nothing is due |
| `Debugger.PrologueComesToRest` | crates/trx64-core/src/c64_6510core.rs:2752-2783 | and with idempotent alarms the chips are caught up, a jam has nothing left to drop, and a ripe IRQ is latched |
| `Debugger.StopAndResume` | crates/trx64-core/src/c64_6510core.rs:2737-2810 | one call under any gates either equals the unstopped call or stops where resuming completes it |
| `Debugger.StopsAreTransparent` | crates/trx64-core/src/c64_6510core.rs:2737-2810 | any number of calls under any stop gates is the unstopped run, registers, bus trace and chips included; a paused machine resumes to the next state of it |
| `Debugger.PrologueAtRest` | crates/trx64-core/src/c64_6510core.rs:2737-2783 | at rest the prologue is the identity if and only if no released IRQ left its tail |
| `Debugger.ChangesMakeNothingDue` | crates/trx64-core/src/c64_6510core.rs:272-337 | no line change makes an interrupt due that was not: every new edge restarts its delay |
| `ReadModifyWrite.GetReadsTarget` | crates/trx64-core/src/c64_6510core.rs:2404-2421 | the get half of every read-modify-write mode ends with a real read of the mode's effective address; only `($nn),Y` records it |
| `ReadModifyWrite.SetWritesTarget` | crates/trx64-core/src/c64_6510core.rs:2439-2453 | the set half writes the old value and then the new value, both at one address |
| `ReadModifyWrite.RmwOneAddress` | crates/trx64-core/src/c64_6510core.rs:2191-2306 | old value read, old value written back, new value written, in that order in the last three cycles; at one address if and only if the mode is not `($nn,X)` or its target is address 0 |
| `ReadModifyWrite.EveryRmwOpcode` | crates/trx64-core/src/c64_6510core.rs:2870-3132 | the same for every RMW opcode the decoder knows, fetch included, from any state between two cycles |
| `ReadModifyWrite.IndXWritesElsewhere` | crates/trx64-core/src/c64_6510core.rs:1638-1643 | counterexample: `SLO ($nn,X)` with target `$1010` writes to `$0000` |
| `InterruptReturn.PushStateLeavesFrame` | crates/trx64-core/src/c64_6510core.rs:1220-1224 | the three pushes leave status, PCL, PCH above the stack pointer, wherever the stack page wraps |
| `InterruptReturn.EntryLeavesFrame` | crates/trx64-core/src/c64_6510core.rs:2521-2578 | every IRQ or NMI entry, NMI takeover included, leaves the interrupted PC and status (B clear) in the frame |
| `InterruptReturn.RtiReadsFrame` | crates/trx64-core/src/c64_6510core.rs:2134-2145 | RTI takes PC, status and SP from the frame |
| `InterruptReturn.InterruptIsInvisible` | crates/trx64-core/src/c64_6510core.rs:2134-2145 | on flat RAM, entry, any handler that keeps SP and the three pushed bytes, and RTI restore PC, SP and all flags with B cleared |
| `Machine.StatusRoundTrip` | crates/trx64-core/src/c64_6510core.rs:1314-1349 | status byte and flags convert back and forth without loss |
| `TurboWait.WaitIsLeast` | crates/trx64-core/src/c64_6510core.rs:1102-1134 | the wait is the least number of CPU cycles that gives the notice and ends at phase 0, and below 2 dividers for any notice below one |
| `TurboWait.LeadBelowDivider` | crates/trx64-core/src/c64_6510core.rs:1102-1134 | `lead63 * div / 63` is below the divider for every access kind |
| `TurboWait.BusAccessLandsOnEdge` | crates/trx64-core/src/c64_6510core.rs:1102-1134 | in the machine: a CIA or IO access happens at phase 0, after the least wait that gives 1/63 or 12/63 of a PHI2 cycle of notice to a CIA, 30/63 or 42/63 to IO1/IO2, always below `2 * div` cycles |
| `TurboWait.OtherAccessesRun` | crates/trx64-core/src/c64_6510core.rs:1102-1134 | every other access waits for nothing, but for one cycle of a SID access or fast read in a short phase |
| `TurboWait.AccessPays` | crates/trx64-core/src/c64_6510core.rs:1137-1199 | a read waits for the turbo grid and then stalls for BA, a write waits and never stalls |
| `TurboWait.PageAccessPays` | crates/trx64-core/src/c64_6510core.rs:1200-1231 | zero page and stack never wait; their reads stall, their writes do not |
| `TurboWait.IdleAdvancesPhase` | crates/trx64-core/src/c64_6510core.rs:1031-1049 | idle cycles at a stable divider walk the phase round |
| `Decimal.AddByte` | crates/trx64-core/src/c64_6510core.rs:1756-1794 | decimal ADC of two BCD bytes: the BCD digits and carry of the exact sum |
| `Decimal.SubtractByte` | crates/trx64-core/src/c64_6510core.rs:1977-2014 | decimal SBC of two BCD bytes: the BCD digits and borrow of the exact difference |
| `Decimal.AddChainExact` | crates/trx64-core/src/c64_6510core.rs:1756-1794 | ADC byte by byte over numbers of any length: result and carry are the exact decimal sum |
| `Decimal.SubtractChainExact` | crates/trx64-core/src/c64_6510core.rs:1977-2014 | the same for SBC and borrow |
| `Decimal.SumModulo` | crates/trx64-core/src/c64_6510core.rs:1756-1794 | the result is the sum modulo 100^n and the carry says whether it overflowed |
| `Decimal.SubtractUndoesAdd` | crates/trx64-core/src/c64_6510core.rs:1977-2014 | subtracting what was added gives the original bytes back |
| `Interrupts.SetIrq` | crates/trx64-core/src/c64_6510core.rs:272-303 | keeps `nirq` the number of asserting sources, IK_IRQ implying one, and a tail dated release + 3; never touches NMI account or reset |
| `Interrupts.SetNmi` | crates/trx64-core/src/c64_6510core.rs:310-337 | keeps `nnmi` the number of asserting sources; the latch and its count move together |
| `Interrupts.Replay` | crates/trx64-core/src/c64_6510core.rs:272-337 | the same for every sequence of line changes |
| `Interrupts.ReplayTimely` | crates/trx64-core/src/c64_6510core.rs:272-337 | no sequence of line changes lets a delay counter run ahead of its edge |
| `Interrupts.BumpDelays` | crates/trx64-core/src/c64_6510core.rs:1002-1007 | the counters advance with the clock and never ahead of it |
| `Interrupts.IrqChange` | crates/trx64-core/src/c64_6510core.rs:272-303 | one change of an IRQ source: levels, request, edge clock, delay and tail date, for a first assertion, a last release and anything between |
| `Interrupts.NmiChange` | crates/trx64-core/src/c64_6510core.rs:310-337 | one change of an NMI source: only the rise of the whole line with a clear latch is an edge, stamped with its clock or that of a later steal |
| `Sampling.SampleLevels` | crates/trx64-core/src/c64_6510core.rs:962-1001 | after a cycle's samples each source stands at what its device drives, the port's while one is plugged in; RESTORE is a pulse that latches unless another source holds the line; no other source moves |
| `Sampling.CycleSamples` | crates/trx64-core/src/c64_6510core.rs:962-1001 | so after the sampling of any cycle of the machine, the CIAs' own changes replayed before |
| `Interrupts.DropRequests` | crates/trx64-core/src/c64_6510core.rs:2752-2760 | a jammed CPU's drop keeps the counts and accounts for the NMI it throws away |
| `Interrupts.HeldLineFiresOnce` | crates/trx64-core/src/c64_6510core.rs:310-337 | while a source holds the NMI, no sequence of changes sets the latch again |
| `Interrupts.LatchCountsEdges` | crates/trx64-core/src/c64_6510core.rs:310-337 | the latch is set by exactly the changes that raise the whole line while it is clear |
| `Interrupts.ReleaseAndReassertFiresAgain` | crates/trx64-core/src/c64_6510core.rs:310-337 | release and re-assert inside one instruction is a second NMI |
| `IntStatusObject.IntStatus.constructor` | crates/trx64-core/src/c64_6510core.rs:220-263 | starts with every count zero, nothing pending and the invariant true |
| `IntStatusObject.IntStatus.SetIrq` | crates/trx64-core/src/c64_6510core.rs:272-303 | the object's new state is that of the value model |
| `IntStatusObject.IntStatus.SetNmi` | crates/trx64-core/src/c64_6510core.rs:310-337 | the object's new state is that of the value model |
| `IntStatusObject.IntStatus.ReplayAll` | crates/trx64-core/src/c64_6510core.rs:626-631 | replays queued line changes in order |
| `IntStatusObject.IntStatus.Report` | crates/trx64-core/src/c64_6510core.rs:626-631 | replays a report and counts what comes too late |
| `IntStatusObject.IntStatus.AckIrq` | crates/trx64-core/src/c64_6510core.rs:385-388 | clears the tail and its clock and nothing else |
| `IntStatusObject.IntStatus.DropRequests` | crates/trx64-core/src/c64_6510core.rs:2752-2760 | drops both requests and the tail |
| `IntStatusObject.IntStatus.BumpDelays` | crates/trx64-core/src/c64_6510core.rs:1002-1007 | advances the delay counters whose edge has passed |
| `Interrupts.Report` | crates/trx64-core/src/c64_6510core.rs:626-631 | a report of line changes keeps the counts and the NMI account, counts those stamped in the past, and keeps the delays exact if there is none |
| `Interrupts.AckTakesOne` | crates/trx64-core/src/c64_6510core.rs:380-382 | an acknowledge takes the latched request, counts it as taken and keeps the line invariant |
| `Interrupts.AcknowledgedIsNotRedelivered` | crates/trx64-core/src/c64_6510core.rs:380-382 | no changes of a line that stays held bring an acknowledged NMI back |
| `Machine.ClkInc` | crates/trx64-core/src/c64_6510core.rs:962-1013 | every cycle keeps line counts, phase, edge record, NMI account, the delays and the latency of the entries made, and changes no register |
| `Machine.AccessWait` | crates/trx64-core/src/c64_6510core.rs:1102-1150 | the idle cycles before an access are exactly its turbo wait, none at 1 MHz; registers, accesses and NMI account stay |
| `Machine.CheckBa` | crates/trx64-core/src/c64_6510core.rs:1058-1080 | a BA stall accounts for its stolen clocks and makes no access |
| `Instructions.Execute` | crates/trx64-core/src/c64_6510core.rs:2870-3132 | every opcode body makes one access per cycle but for the one cycle of a JAM, and keeps the NMI account and the latency; which accesses, and where the program goes on, is BusTrace.ExecutePerforms |
| `Dispatch.Run` | crates/trx64-core/src/c64_6510core.rs:2737-2810 | one call keeps every account and counts the JAM it executes, if it does |
| `Machine.LoadCycle` | crates/trx64-core/src/c64_6510core.rs:1154-1187 | a read cycle is exactly one access of its kind at its address |
| `Machine.StoreCycle` | crates/trx64-core/src/c64_6510core.rs:1189-1199 | a write cycle is exactly one access of its kind at its address |
| `Machine.PushCycle` | crates/trx64-core/src/c64_6510core.rs:1220-1224 | one write cycle of the value at the stack pointer, which falls by one inside its page |
| `Machine.PullCycle` | crates/trx64-core/src/c64_6510core.rs:1225-1231 | one real read cycle above the stack pointer, which rises by one inside its page |
| `Instructions.CallGet` | crates/trx64-core/src/c64_6510core.rs:2404-2421 | every addressing mode keeps the cycle and NMI accounts; only `($nn),Y` RMW changes `pending_ind_addr`; which byte it reads is BusTrace.GetFollows and LoadsAndStores.LoadGets |
| `Instructions.FetchNmiVector` | crates/trx64-core/src/c64_6510core.rs:2502-2509 | the one place an NMI is paid for: its vector fetch is recorded and owed by one acknowledge; the jump is to what $FFFA and $FFFB spell |
| `Instructions.IrqBrk` | crates/trx64-core/src/c64_6510core.rs:2475-2510 | IRQ/BRK sequence with NMI takeover: pays for the NMI exactly when it takes it over, and jumps to what the vector it reads last spells, that of the NMI exactly then |
| `Dispatch.NmiEntry` | crates/trx64-core/src/c64_6510core.rs:2526-2556 | NMI entry: SP falls by 3, B clear, I set, last opcode a BRK, PC what $FFFA and $FFFB spell; one access per cycle; NMI account kept |
| `Dispatch.IrqEntry` | crates/trx64-core/src/c64_6510core.rs:2558-2578 | IRQ entry: the same from the IRQ/BRK sequence, PC what $FFFE or the NMI vector spells |
| `Dispatch.DoInterrupt` | crates/trx64-core/src/c64_6510core.rs:2521-2610 | an entry is made if and only if an NMI or IRQ is due; a reset never survives it |
| `Dispatch.Prologue` | crates/trx64-core/src/c64_6510core.rs:2737-2783 | the prologue keeps every account |
| `Exec.Core.SampleLines` | crates/trx64-core/src/c64_6510core.rs:992-1001 | CIA changes, then VIC, expansion port and RESTORE key, one call after the other, are the specified report |
| `Exec.Core.ClkInc` | crates/trx64-core/src/c64_6510core.rs:962-1013 | one CPU cycle in place, either side of the divider, is the specified cycle with all it keeps |
| `Exec.Core.TurboAccessWait` | crates/trx64-core/src/c64_6510core.rs:1102-1134 | the two loops of the wait pay the specified least wait |
| `Exec.Core.Execute` | crates/trx64-core/src/c64_6510core.rs:2870-3132 | the opcode switch changes the object in place as specified |
| `Exec.Core.Run` | crates/trx64-core/src/c64_6510core.rs:2715-2810 | one call of the core in place is exactly the specified call |
| `Exec.Core.RunAll` | crates/trx64-core/src/lib.rs:4051-4064 | any run of calls, line changes and speed changes on the object: it ends in the specified state, every NMI latched is fetched, pending or dropped, every cycle is an access, a wait or a JAM |
| `KeyboardMatrix.ActivateRow` | crates/trx64-core/src/c64cia.rs:83-94 | terminates for every matrix; adds exactly lines connected to the row, each with everything it touches |
| `KeyboardMatrix.ActivateColumn` | crates/trx64-core/src/c64cia.rs:96-107 | the same from a column |
| `KeyboardMatrix.ExploresFromNothing` | crates/trx64-core/src/c64cia.rs:109-128 | from empty sets that is exactly the set of connected rows and columns |
| `KeyboardMatrix.ActiveByRow` | crates/trx64-core/src/c64cia.rs:114-128 | the `active_*_by_row` queries return the row's component |
| `KeyboardMatrix.ActiveByColumn` | crates/trx64-core/src/c64cia.rs:109-122 | the `active_*_by_column` queries return the column's component |
| `KeyboardMatrix.ConnectedSymmetric` | crates/trx64-core/src/c64cia.rs:65-81 | with transposed key arrays connection is symmetric, so that the reached set is a connected component |
| `KeyboardMatrix.ForceLow` | crates/trx64-core/src/c64cia.rs:175-189 | forces low exactly when two rows of the mask share the component |
| `KeyboardMatrix.PullByRows` | crates/trx64-core/src/c64cia.rs:199-219 | the row loop of the port B read accumulates the specified pulls |
| `KeyboardMatrix.ReadPb` | crates/trx64-core/src/c64cia.rs:192-233 | the port B read, loops included, bit by bit: low if and only if stick 1 pulls it, or it is an output driven low, or one driven high that two driven-low rows of its component overdrive, or an input connected to a row or column that reads low |
| `KeyboardMatrix.PortBReads` | crates/trx64-core/src/c64cia.rs:192-233 | the same of the specified value, for every setting of both ports and both sticks |
| `KeyboardMatrix.ReadPa` | crates/trx64-core/src/c64cia.rs:135-172 | the port A read bit by bit: low if and only if stick 2 pulls it, or it is an output driven low, or a low column pulls it, through its component or only its own keys, or a low row is connected to it |
| `KeyboardMatrix.PortAReads` | crates/trx64-core/src/c64cia.rs:135-172 | the same of the specified value |
| `KeyboardMatrix.ScanReadsComponents` | crates/trx64-core/src/c64cia.rs:192-233 | with port B all input and no joystick a port B bit is low if and only if its column is connected to a driven-low row |
| `KeyboardMatrix.ReverseScanReadsComponents` | crates/trx64-core/src/c64cia.rs:135-172 | the reverse scan, with ghost keys removed where port B holds a high output in the component |
| `KeyboardMatrix.DirectKeysAreConnected` | crates/trx64-core/src/c64cia.rs:150-160 | the elimination only ever removes ghost keys: a key's own rows are in the component |
| `KeyboardMatrix.GhostKey` | crates/trx64-core/src/c64cia.rs:83-128 | three corners of a rectangle connect the fourth |
| `CheckpointTree.RunsFromExact` | crates/trx64-core/src/checkpoint_diff.rs:382-402 | the ranges are sorted, disjoint, maximal runs covering exactly the differing positions, zero-padding included |
| `CheckpointTree.RangesAreRuns` | crates/trx64-core/src/checkpoint_diff.rs:382-429 | the deltas emitted for two sequences are those runs, with their counts and at most 8 samples |
| `CheckpointTree.DiffSeq` | crates/trx64-core/src/checkpoint_diff.rs:382-429 | the two-index loop emits exactly that list |
| `Runs.RunsUnique` | crates/trx64-core/src/checkpoint_diff.rs:382-402 | a set of positions has only one such list, so that the description fixes the result |
| `CheckpointTree.WalkExact` | crates/trx64-core/src/checkpoint_diff.rs:302-345 | for comparable trees without the drive blob on top the walk is silent if and only if the trees are equal |
| `CheckpointTree.WalkSilent` | crates/trx64-core/src/checkpoint_diff.rs:302-345 | for all parsed trees: the walk is silent if and only if they agree up to its stated blind spots |
| `TreeReport.WalkAt` | crates/trx64-core/src/checkpoint_diff.rs:302-345 | the deltas a walk reports at a path are exactly those of the two nodes the trees hold there, if the walk gets there |
| `TreeReport.PositionReported` | crates/trx64-core/src/checkpoint_diff.rs:302-432 | position x is reported under a path if and only if both trees have arrays of bytes or of numbers there, outside the drive blob, that differ at x |
| `TreeReport.ScalarReported` | crates/trx64-core/src/checkpoint_diff.rs:302-345 | a scalar delta is reported under a path if and only if it is the pair of nodes the trees hold there, reached, and differing in a way that is not compared further |
| `TreeReport.SamplesReported` | crates/trx64-core/src/checkpoint_diff.rs:377-432 | every reported range shows the first eight of its positions with the numbers of the two trees, before and after |
| `TreeReport.MaskedVerdict` | crates/trx64-core/src/checkpoint_diff.rs:288-298 | the masked verdict is identical if and only if the mask lets through no scalar, no array position and no byte of a drive part in which the two checkpoints differ |
| `CheckpointTree.FractionsAreBlind` | crates/trx64-core/src/checkpoint_diff.rs:408-412 | two different fractions produce no delta |
| `CheckpointTree.TrailingZeroIsBlind` | crates/trx64-core/src/checkpoint_diff.rs:404-412 | an array and its zero-padded form produce no delta |
| `CheckpointTree.NullIsBlind` | crates/trx64-core/src/checkpoint_diff.rs:318-329 | a null and a missing key produce no delta |
| `CheckpointMask.SubtractExact` | crates/trx64-core/src/checkpoint_diff.rs:177-189 | subtraction is set difference for every window; the pieces are proper runs, and a hit means a removal, if and only if the run does not hold both ends of an inverted window |
| `CheckpointMask.FlagsRightIff` | crates/trx64-core/src/checkpoint_diff.rs:227-241 | for any window the flag is right if and only if no piece left holds both its inverted ends |
| `CheckpointMask.EchoRightIff` | crates/trx64-core/src/checkpoint_diff.rs:191-275 | for any window the echo is right if and only if the window is proper or no piece left of any delta holds both its ends |
| `CheckpointMask.InvertedWindowIsEchoed` | crates/trx64-core/src/checkpoint_diff.rs:177-189 | counterexample: an inverted window is echoed as a match and removes nothing |
| `CheckpointMask.WalkEmits` | crates/trx64-core/src/checkpoint_diff.rs:302-345 | the walk emits nothing but proper ranges and scalars; under which paths is TreeReport.WalkAt |
| `CheckpointMask.EmptyMaskIsStrict` | crates/trx64-core/src/checkpoint_diff.rs:288-298 | an empty mask loses nothing |
| `CheckpointMask.StrictVerdict` | crates/trx64-core/src/checkpoint_diff.rs:288-298 | trees to answer: comparable checkpoints of machines without a drive are reported identical if and only if they are equal |
| `CheckpointMask.StrictVerdictOfAny` | crates/trx64-core/src/checkpoint_diff.rs:288-298 | any two parsed checkpoints are reported identical if and only if their trees agree up to what the walk cannot see and their drives agree part by part |
| `CheckpointMask.UndecodedDriveIsBlind` | crates/trx64-core/src/checkpoint_diff.rs:436-442 | counterexample: a drive blob that decodes on one side only is reported nowhere |
| `DriveBlob.ViceModule` | crates/trx64-core/src/checkpoint_diff.rs:487-512 | the loop over the module frames finds the data of the first module of the name |
| `DriveBlob.FindReadsBack` | crates/trx64-core/src/checkpoint_diff.rs:482-512 | the search reads back what was framed: for every list of modules and every name, the data of the first module of that name or nothing |
| `DriveBlob.DriveBlobComponents` | crates/trx64-core/src/checkpoint_diff.rs:436-468 | the deltas of the five drive parts, in the code's order and with its guards |
| `DriveBlob.DriveSilent` | crates/trx64-core/src/checkpoint_diff.rs:436-468 | the drives give no delta if and only if each part that both hold agrees byte by byte up to padding |
| `DriveBlob.RamReportedAt` | crates/trx64-core/src/checkpoint_diff.rs:454-480 | where both blobs hold a CPU module that ends in 2 KB of RAM, position x of the drive RAM is reported if and only if the bytes at RAM address x differ |
| `CheckpointMask.SubtractFirstExact` | crates/trx64-core/src/checkpoint_diff.rs:227-241 | the windows one after another leave a run minus their union |
| `CheckpointMask.FlagsExact` | crates/trx64-core/src/checkpoint_diff.rs:231-238 | a window is flagged if and only if it removed something the earlier ones had left |
| `CheckpointMask.Position` | crates/trx64-core/src/checkpoint_diff.rs:205-215 | the index of the first equal entry |
| `CheckpointMask.CutSegments` | crates/trx64-core/src/checkpoint_diff.rs:230-240 | one window over all segments |
| `CheckpointMask.CutRun` | crates/trx64-core/src/checkpoint_diff.rs:216-241 | all windows of the component over one run, with their flags |
| `CheckpointMask.ApplyMask` | crates/trx64-core/src/checkpoint_diff.rs:194-275 | kept deltas and all three echo lists, as the loops compute them |
| `CheckpointMask.KeptIsDifference` | crates/trx64-core/src/checkpoint_diff.rs:194-275 | the positions kept are the reported positions minus everything the mask names |
| `CheckpointMask.WindowOrderIsIrrelevant` | crates/trx64-core/src/checkpoint_diff.rs:216-241 | windows may be listed in any order |
| `CheckpointMask.VerdictExact` | crates/trx64-core/src/checkpoint_diff.rs:629-704 | the verdict is identical if and only if no delta survives the mask |
| `CheckpointMask.MoreMaskKeepsIdentical` | crates/trx64-core/src/checkpoint_diff.rs:194-275 | more mask entries never turn identical into differing |
| `CheckpointMask.EchoExact` | crates/trx64-core/src/checkpoint_diff.rs:191-275 | a proper window is echoed without `(matched 0)` if and only if it removed something earlier entries had left |
| `Provenance.Capture` | crates/trx64-core/src/c64re_snapshot.rs:827-867 | the captured list is the change list of the captured lines, null when there is none |
| `Provenance.Restore` | crates/trx64-core/src/c64re_snapshot.rs:878-914 | the one-pass expansion gives each line the last entry at or before it, for unsorted and duplicate entries too |
| `Provenance.EntryAfterSort` | crates/trx64-core/src/c64re_snapshot.rs:902 | the stable sort does not change which entry a line takes |
| `Provenance.RestoredIsLastCaptured` | crates/trx64-core/src/c64re_snapshot.rs:869-914 | a restored line holds the registers of the last captured line at or before it |
| `Provenance.RestoreAgrees` | crates/trx64-core/src/c64re_snapshot.rs:869-914 | restore after capture gives every captured line back |
| `Provenance.CaptureAgain` | crates/trx64-core/src/c64re_snapshot.rs:869-872 | capturing a restored record repeats the list, line by line |
| `Provenance.RoundTrip` | crates/trx64-core/src/c64re_snapshot.rs:869-872 | the checkpoint round-trips for any number of lines and any capture pattern |
| `Provenance.NeighboursDiffer` | crates/trx64-core/src/c64re_snapshot.rs:828-836 | the list holds changes only: neighbouring entries differ |
| `HistoryRing.Ring.constructor` | crates/trx64-core/src/cpu_history.rs:96-110 | an empty ring of at least one slot |
| `HistoryRing.Ring.Clone` | crates/trx64-core/src/cpu_history.rs:286-294 | a clone starts empty with the same size and arming |
| `HistoryRing.Ring.Resize` | crates/trx64-core/src/cpu_history.rs:118-123 | drops the log, keeps the arming |
| `HistoryRing.Ring.Clear` | crates/trx64-core/src/cpu_history.rs:186-188 | drops the log |
| `HistoryRing.Ring.SetEnabled` | crates/trx64-core/src/cpu_history.rs:150-152 | changes the arming only |
| `HistoryRing.Ring.Push` | crates/trx64-core/src/cpu_history.rs:158-181 | the log grows by the entry, or not at all while disabled, although the slab is overwritten in place |
| `HistoryRing.Ring.Len` | crates/trx64-core/src/cpu_history.rs:133-135 | log length capped at capacity |
| `HistoryRing.Ring.LastN` | crates/trx64-core/src/cpu_history.rs:193-208 | the suffix of the log since the last clear or resize, capped |
| `HistoryRing.Ring.WindowByCycle` | crates/trx64-core/src/cpu_history.rs:214-232 | that suffix filtered by stamp, in order, with its count |
| `HistoryRing.Ring.CycleSpan` | crates/trx64-core/src/cpu_history.rs:267-276 | first and last stamp of the retained suffix |
| `HistoryRing.Ring.ToDump` | crates/trx64-core/src/cpu_history.rs:237-244 | the retained suffix as 19-byte records, capacity cut to 32 bits |
| `HistoryRing.Ring.FromDump` | crates/trx64-core/src/cpu_history.rs:251-262 | a ring whose log is the payload's whole records |
| `HistoryRing.SlotsDistinct` | crates/trx64-core/src/cpu_history.rs:73-77 | entries less than a capacity apart never share a slot |
| `HistoryRing.WindowExact` | crates/trx64-core/src/cpu_history.rs:214-232 | the window holds every stamped entry as often as the log does, and nothing else |
| `HistoryRing.RecordRoundTrip` | crates/trx64-core/src/cpu_history.rs:305-333 | a record survives its little-endian bytes |
| `HistoryRing.PayloadRoundTrip` | crates/trx64-core/src/cpu_history.rs:237-262 | any list of entries survives the payload |
| `HistoryRing.RestoreIsTransparent` | crates/trx64-core/src/cpu_history.rs:246-262 | the restored ring retains the same window if and only if the capacity that went through 32 bits still holds it |
| `HistoryRing.LargeRingForgets` | crates/trx64-core/src/cpu_history.rs:239-243 | counterexample, for a direct caller of the ring: 2^32 slots become one |
| `HistoryRing.RestoreExact` | crates/trx64-core/src/cpu_history.rs:246-262 | below 2^32 slots the restored ring has the same size and window |
| `HistoryRing.LastOfRetained` | crates/trx64-core/src/cpu_history.rs:193-208 | a query reads the retained window only |
| `HistoryRing.DumpAndRestore` | crates/trx64-core/src/cpu_history.rs:237-262 | dump and restore change no answer if and only if the capacity that went through 32 bits still holds what the ring retains |
| `SandboxObserver.MarksExact` | crates/trx64-cli/src/sandbox_cmd.rs:494-525 | for every event stream and every address: armed, written, I/O seen and last I/O value are what the run did |
| `SandboxObserver.IoAccounting` | crates/trx64-cli/src/sandbox_cmd.rs:513-525 | for every event stream and every address the I/O count is the number of I/O stores, up to the counter's end |
| `SandboxObserver.Accounting` | crates/trx64-cli/src/sandbox_cmd.rs:494-525 | for every event stream and every address: write count + stores hidden by a same-clock successor = RAM stores + I/O stores, up to the counter's end |
| `SandboxObserver.Observer.constructor` | crates/trx64-cli/src/sandbox_cmd.rs:418-432 | nothing recorded, not armed |
| `SandboxObserver.Observer.OnBus` | crates/trx64-cli/src/sandbox_cmd.rs:494-512 | the observer's new state after one bus record, tables updated in place |
| `SandboxObserver.Observer.OnIoStore` | crates/trx64-cli/src/sandbox_cmd.rs:513-525 | the observer's new state after one I/O store |
| `SandboxObserver.Observer.Harvest` | crates/trx64-cli/src/sandbox_cmd.rs:437-450 | every byte overlaid or raw as specified, and the overlaid runs are the maximal runs of overlaid addresses |
| `SandboxObserver.Observer.RamRuns` | crates/trx64-cli/src/sandbox_cmd.rs:455-465 | the maximal runs of exactly the addresses that pass the RAM test |
| `SandboxObserver.Observer.WrittenRuns` | crates/trx64-cli/src/sandbox_cmd.rs:468-474 | the maximal runs of exactly the written addresses |
| `SandboxObserver.ContiguousRuns` | crates/trx64-cli/src/sandbox_cmd.rs:192-206 | the two-index loop returns the maximal runs of its addresses, the top address included |
| `SandboxObserver.RepushesCancel` | crates/trx64-cli/src/sandbox_cmd.rs:383-387 | any number of port re-pushes before a store leave no trace in the write counts |
| `SandboxObserver.ReportedAt` | crates/trx64-cli/src/sandbox_cmd.rs:455-465 | an address outside I/O is reported if and only if it was stored to; one inside if and only if it has more stores beside I/O than hidden stores and its I/O counter has not reached its end |
| `SandboxObserver.RamRunsExact` | crates/trx64-cli/src/sandbox_cmd.rs:383-387 | while no two consecutive stores share a clock, the report is exactly the addresses stored to outside I/O after arming, if and only if no I/O counter of such an address has reached its end |
| `SandboxObserver.RamRunsExactIff` | crates/trx64-cli/src/sandbox_cmd.rs:383-387 | for any clocks, exactly when the report is right |
| `SandboxObserver.TurboStoreLost` | crates/trx64-cli/src/sandbox_cmd.rs:383-387 | counterexample at a turbo divider: two RAM stores on one clock, the first lost from the report |
| `SandboxObserver.HarvestExact` | crates/trx64-cli/src/sandbox_cmd.rs:434-450 | a harvested byte is the last I/O store to it (low nibble in colour RAM) if there was one, and raw RAM otherwise |
| `SandboxObserver.WrittenExact` | crates/trx64-cli/src/sandbox_cmd.rs:468-474 | the plain report is the stored addresses, but for the re-pushed port |

## Left out

Of the 6510 core:

- The pinned bank window of `fetch_opcode` and `jump`: no host pins one; every fetch goes through the bus.
- ROM traps and host JAM handlers: the C64 buses keep the defaults, so that JAM is one idle cycle, then a fetch of the same opcode at every call.
- The monitor bit of the interrupt word (its branch is empty) and `last_opcode_addr`, which only a monitor reads.
- Tracing hooks (`on_interrupt`, `debug_maincpu`): they change nothing; entries are in the ghost log instead.
- `turbo_short_cycles`: the 64-entry table is a function of the bus record, free in divider and phase.
- Wrap-around of the 64-bit clock and of the delay counters: both are unbounded.
- `fixup_int_clk` with recorded DMA: nothing raises `num_dma_per_opcode`; the model keeps the case without it.
- The two copies of `last_opcode_info` are one field: the core writes both together. A BA stall may only add the interrupt-enable mark to it.
- The N and Z shadow bytes are two booleans.
- The RESET vector reads take no clock in the code; the model counts them apart from the one-access account.
- The value formulas of ANE, LXA, ANC, ASR, ARR, SBX, LAS and the SH* stores are modelled but nothing is proved of them beyond their accesses; where an SH* store goes depends on its value, and the table of BusTrace leaves its address open.
- `cpu_status_reset`, `reset_to` and the composite status accessors: field-by-field copies.
- Latency.DelaysExact: for runs in which no cycle is stolen and no line change is reported after the clock it is stamped with; otherwise only the bound of WholeRuns.RunSlowly holds.
- WholeRuns.EveryEntryIsLate: at 1 MHz only; at turbo the counters count CPU cycles and the clock does not.
- Debugger.NoSecondEntry: does not cover a reset met at a turbo divider on a bus whose vector reads wait, where it is false (Debugger.SecondEntryAfterReset). Nothing in the core asks for a reset, and the vector of the C64 is in memory.
- Debugger.SplitsAreTransparent: for chips whose alarms are idempotent at a fixed clock; a reset still pending when the debugger takes over must be one that queues no line change.
- WholeRuns.TurboAccounting: the host's own accesses to the devices are one action that replaces them; how long they take is not counted.
- Between two calls the host may change lines, speed and phase; a DMA hold that runs the clock without the CPU, a debugger writing registers, and a cold reset start a new run.

Of the smaller algorithms:

- The keyboard's own event schedule, joystick state and shift lock: `keyarr` and the joystick masks are inputs, and the code's shift lock is constantly off.
- `component_of` and `lane_of` are arbitrary classifiers; path and echo texts, sample names, summaries and the 64-change cap of the report are not modelled. Object keys and array indices stand for the path strings.
- Decoding of `$ta` nodes: a typed array is its decoded bytes or nothing, and has no keys of its own; a checkpoint that is itself one has no drive.
- Numbers of the JSON trees are integers or opaque fractions.
- CheckpointMask.EchoExact: for windows with `from <= to`; CheckpointMask.EchoRightIff is for all of them.
- Malformed entries of a provenance list are taken as already filtered out, and casts to narrower bytes as already done.
- Capture and restore of the interrupt status and of the other checkpoint parts: copies by name or position.
- The ring's kill-switch environment variable is a parameter; base64 and gzip of the dump are not modelled, and the head counter does not wrap.
- SandboxObserver.RamRunsExactIff: leaves open I/O addresses whose write counter reaches 2^32 - 1 before their I/O counter does while stores there are hidden, or, at the re-pushed port, at all; there the count depends on the order of the stores. A store that a cartridge or an open window took counts as one beside I/O, as in the code.
- The observer's step counter and `rts_pop`: one line each.
- The Action Replay mapper, VIC, CIA timers, drives, SID, snapshot containers and all user interfaces.
