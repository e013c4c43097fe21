# TDRV32 in Dafny

A model of the TDRV32 processor and of its Python test models, with proofs for every run where the
repository's own formal checks are bounded. TDRV32 is a five-stage, in-order RV32IMC core: forwarding, a
load-use bubble, a load-then-store pair repaired one stage late, branch flushes, CSR draining, traps,
sleep, and one global hold that joins instruction fetch, the data port and an iterative multiply/divide
unit.

## How it is organised

- `Words`, `Powers`, `Bits`: machine words, powers of two, two's complement at any width, binary digits.
- `Isa`, `Software`: the instruction set and the CSRs as the RISC-V manuals define them, in integers, digits and
  numeric encodings, with nothing shared with the datapath; the reference machine is proved to be this.
- `Decode`, `Encode`, `Decompress`, `Compressed`, `Assembler`: control unit and immediates, formats, RVC
  expansion and its meaning, the test encoders and the name table.
- `Fetch`, `FetchStream`, `RegisterFile`, `Csr`, `LoadStore`, `Alu`, `Stages`, `Hazard`, `Divider`,
  `Multiplier`, `Mdu`, `Adder`: the units. Clocked ones are a step function on a state value and a class
  whose `Tick` is proved to compute it.
- `Machine`: the reference, one instruction at a time. It has no stage, stall, forwarding path or latch.
  Memory answers, volatile counters and interrupts reach it as choices of the environment.
- `Pipeline`: the equations and one clock edge. `Core`: the same as one object composed of the unit
  classes.
- `Execution`, `Relation`, `Stalling`, `Advancing`, `Departing`, `Following`, `Simulation`: the simulation
  relation between a pipeline state and a reference state, and its preservation by every kind of cycle. Each
  instruction in flight is related through the memory its own beats came from, so memory may change meanwhile.
- `Runs`: the theorem about whole runs. `Guarantees`, `FrontEnd`, `Alignment`, `Interrupts`, `Bubbles`, `Progress`: what
  follows in every reachable state, and liveness.
- `Bridge`, `System`, `AhbSlave`, `AhbBench`: the AHB-Lite side, up to the processor closed with a memory
  on each bus. `Memory`, `Coherence`, `Harness`, `SharedMemory`: byte memories, the flat-memory machine, and
  the pipeline closed with the native memory model, code and data in one memory.
- `Predicted`, `Generator`, `Building`, `RandomTest`, `SharedTest`: the random-program generator as its own
  oracle, and the random test on the pipeline and on the closed bench. `Hex`, `Image`: sparse memory images.

The closed benches show that the assumptions of the run theorems (a served instruction port, prompt ports,
coherent data) are met by the repository's own memory models. With code and data in one memory the sequential
machine fetches every instruction from the memory it stores to, and one assumption is left, about that machine
alone: between a change of an instruction's words and the execution of that instruction it executes a FENCE.I
(`SharedMemory.Fenced`). What the pipeline prefetches, or fetches on a wrong path, may change freely. With a
memory on each AHB-Lite bus the data memory is a whole number of words, or the whole address space.

The source remarks that the instruction-address-misaligned exception cannot occur
(`rtl/logical/pipeline/tdrv32_pipeline.sv:907-908`). The reset vector is a parameter, and the remark holds
exactly for the even ones: `Alignment.NeverMisalignedIffResetEven`. From every odd one a memory filled with JALs
takes the exception first (`Alignment.OddResetMisaligns`).

The two Python memories accept the same aligned stores exactly when the memory is a whole number of words or the
whole address space: one checks the containing word, the other the bytes (`AhbBench.RangesAgreeIffRegular`).

## Model

| member | source | states |
|---|---|---|
| `Runs.PipelineRefinesMachine` | rtl/logical/pipeline/tdrv32_pipeline.sv:369-381 | For every instruction memory and every input sequence from reset (any wait states, bus errors, interrupts): the commits seen, plus the one in WB, are exactly the commits of a one-instruction-at-a-time RV32IMC machine; the traps are exactly its traps; every load and store made exactly one accepted transfer with its address, data, strobes and size. |
| `Runs.CycleExplained` | rtl/logical/pipeline/tdrv32_pipeline.sv:358-363 | One clock edge: if a run of the reference explains the state and everything observed, appending the at most two reference steps of this cycle explains the next state and observation, whatever was fetched for instructions that are not executed. A stalled cycle stands for no step. |
| `Runs.MemEvent` | rtl/logical/pipeline/tdrv32_pipeline.sv:1101-1142 | When the pipeline advances, the reference step of the instruction in MEM produces exactly the record WB will retire, its access fault if the bus reported one, and the one transfer made for it, early and latched or now. |
| `Runs.ExEvent` | rtl/logical/pipeline/tdrv32_pipeline.sv:938-945 | The trap of an advancing cycle that is not a bus fault is one reference step of the instruction in EX, possible when it was taken, and it neither commits nor transfers. |
| `Isa.ExecuteMeans` | rtl/logical/stages/decode/control_unit.sv:107-165 | For every 32-bit word and every state, the reference machine does what the RISC-V manual says the encoded instruction does (encodings, immediates, results by integer arithmetic or digit by digit, addresses, lanes, exception codes, all in numbers), and refuses with cause 2 exactly the words that encode none. |
| `Isa.StepMeans` | rtl/logical/pipeline/tdrv32_pipeline.sv:369-381 | One reference step on that outcome: the exception or the access fault (5 for a load, 7 for a store) is taken and shown, or the successor is next, the destination and no other register has the result, minstret is one more, and the retirement shows PC, raw word, register write and store. |
| `Isa.InterruptMeans` | rtl/logical/stages/system/csr_file.sv:99-108 | An interrupt step is possible only with MIE set and an enabled line raised; it reports the first of external, software and timer and goes to that line's vector. |
| `Isa.BranchGoes` | rtl/logical/stages/execute/branch_unit.sv:24-36 | Each of the six encoded branches goes to the PC plus its offset exactly when its relation on the equal, signed or unsigned numbers holds, refuses an odd target, and otherwise continues after itself. |
| `Isa.AssembledMeans` | verification/cocotb/riscv.py:65-200 | Every word a test encoder returns is executed as the instruction it is named after. |
| `Isa.AssembledParses` | verification/cocotb/riscv.py:16-60 | Every word a test encoder returns is, by the manual's encoding, the instruction it is named after with the given operands. |
| `Coherence.PipelineRefinesMemoryMachine` | rtl/logical/pipeline/tdrv32_pipeline.sv:346-381 | With a data memory behind the data port, for every schedule: commits and traps are those of a sequential machine whose loads and stores act on one flat little-endian byte map, and the memory holds what that machine stored. |
| `Coherence.StepAgrees` | rtl/logical/stages/memory/load_store_unit.sv:31-152 | One reference step whose transfer a memory answered is one step of the flat-memory machine: same state, same memory, same commit and trap. |
| `SharedMemory.BenchRefinesMemoryMachine` | verification/cocotb/native_memory.py:164-193 | The pipeline closed with the native memory model, code and data in one memory, for every image, wait states, failing addresses, interrupt and time inputs: it shows the run of the sequential machine that fetches from the flat memory it stores to (commits, traps, equal memories, and the bounds on stalls and silence), whatever the program does to its own code, provided a FENCE.I is executed between a change of an instruction's words and its execution. Prefetched and wrong-path words may change. A program that changes no instruction it executes needs no FENCE.I and is the run of the loaded image. |
| `SharedMemory.FetchesBytes` | rtl/logical/stages/fetch/rv32c_fetch_buffer.sv:125-139 | The instruction at an even address is the little-endian halfword there, or with low bits 11 the two halfwords from there on, wherever the word boundary is. |
| `SharedMemory.FetchedIsCurrent` | rtl/logical/stages/fetch/rv32c_fetch_buffer.sv:125-139 | If the words of the next instruction have been the same since the last FENCE.I and each was fetched at some moment since, what was fetched is the instruction the sequential machine finds, even when the two beats were read at different moments and other stores came between. |
| `SharedMemory.EitherEmptyOrPlain` | rtl/logical/pipeline/tdrv32_pipeline.sv:951-953 | After an advancing edge with an instruction in MEM, or with anything left in EX, ID or the fetch buffer, nothing in EX trapped; and if both are there, what moved into MEM is not a FENCE.I. |
| `SharedMemory.CycleTracked` | rtl/logical/pipeline/tdrv32_pipeline.sv:948-953 | One edge on a memory that changes: if every instruction in flight was fetched since the last FENCE.I before it, each part at some moment since, the same holds after the edge and the reference run still explains everything seen. |
| `Harness.PortServes` | verification/cocotb/native_memory.py:112-162 | A port accepts a held request exactly once, in its (wait + 1)-st cycle, and its check that the request stayed the same never fails. |
| `Harness.PortModel.Drive` | verification/cocotb/native_memory.py:138-162 | The falling-edge bookkeeping of a port: forget an accepted request, adopt a new one, count down, and say whether it is ready. |
| `Harness.PortModel.Edge` | verification/cocotb/native_memory.py:177-193 | The rising edge marks a request accepted exactly when it is active, valid and ready. |
| `Harness.PortModel.Cycle` | verification/cocotb/native_memory.py:172-193 | A whole turn of the run loop on one port is the step of the port the bench is made of. |
| `AhbBench.ProcessorRefinesMemoryMachine` | rtl/logical/tdrv32_top.sv:69-182 | The processor with both bridges closed with an AHB-Lite memory on each bus, for every instruction image, every data image of a whole number of words or of the whole address space, wait states and failing addresses: refinement of the flat-memory machine, with data memory written by address and size alone, and the bounds on stalls and silence. |
| `AhbBench.RangesAgreeIffRegular` | verification/cocotb/ahb_memory.py:79-82 | The word-checked and the byte-checked memory accept the same aligned stores if and only if the memory is a whole number of words or covers the address space; otherwise they disagree on the last byte. |
| `Core.Pipe.Tick` | rtl/logical/pipeline/tdrv32_pipeline.sv:513-534 | The pipeline as one object: a clock edge of all its registers and sub-units yields the step function of the old state, and the ghost reference run kept beside it still explains everything shown. |
| `Core.Pipe.Edge` | rtl/logical/pipeline/tdrv32_pipeline.sv:540-557 | Every register and sub-unit samples the same old state; the composed new state is the step of the old. |
| `Core.Pipe.TickOwn` | rtl/logical/pipeline/tdrv32_pipeline.sv:516-534 | The program counter, the sleep flag and the three transfer-latch registers after an edge. |
| `Core.Pipe.constructor` | rtl/logical/pipeline/tdrv32_pipeline.sv:516-519 | Reset clears control and leaves payload arbitrary; in that state the empty reference run explains the core for every instruction memory. |
| `Simulation.CycleKeepsRelation` | rtl/logical/pipeline/tdrv32_pipeline.sv:643-661 | Every cycle, advancing or not, flushing, bubbling, draining or trapping, keeps the simulation relation with the reference state advanced by the steps the cycle stands for. |
| `Simulation.SyncTrapIsReference` | rtl/logical/pipeline/tdrv32_pipeline.sv:938-942 | An EX-stage exception is the exception of the reference's next instruction, with the same PC, cause and value and the same next state. |
| `Simulation.IrqIsReference` | rtl/logical/pipeline/tdrv32_pipeline.sv:943-957 | An interrupt is taken only when the reference may take it, before the instruction in EX, with the same cause and vector. |
| `Execution.ExecuteAgrees` | rtl/logical/pipeline/tdrv32_pipeline.sv:804-942 | For every instruction word, operand values and CSR contents: EX refuses exactly what the reference refuses, for the same cause and value, and otherwise produces its successor, result, access and CSR update. |
| `Advancing.ForwardingIsFresh` | rtl/logical/hazard/forwarding_unit.sv:47-67 | Forwarding yields the youngest older writer's value unless that writer is a load in MEM; store data is that value once the store is in MEM even then. |
| `Bubbles.WaitsIffNeeded` | rtl/logical/hazard/hazard_detection_unit.sv:56-76 | In every run ID is held back exactly when the load in EX writes a register, not x0, that the instruction in ID needs in EX (store data is not), or it is a CSR instruction and a valid instruction is in EX, MEM or WB. |
| `Advancing.OperandsFresh` | rtl/logical/hazard/hazard_detection_unit.sv:56-68 | In every related state, an instruction leaving EX has current values in every operand it reads, and a store presents current data in MEM, including the load-then-store pair that does not stall. |
| `Advancing.TransferOnce` | rtl/logical/pipeline/tdrv32_pipeline.sv:346-359 | When MEM is left, the transfer remembered earlier and the one accepted now are together exactly the one its instruction calls for, and none otherwise. |
| `Departing.CsrDeparts` | rtl/logical/pipeline/tdrv32_pipeline.sv:862-887 | After a CSR instruction leaves EX the CSR file holds the reference's update, made once however long it was held, once outstanding retirements are counted. |
| `Departing.TrapKeepsRelation` | rtl/logical/pipeline/tdrv32_pipeline.sv:953-1008 | After a trap entry the pipeline is related to the reference state that has taken the same trap from the state the older instructions leave. |
| `Departing.RedirectKeepsRelation` | rtl/logical/pipeline/tdrv32_pipeline.sv:454-472 | After a branch, jump, MRET, WFI or FENCE.I redirect fetch resumes at the reference's next PC with nothing younger in flight. |
| `Following.WaitKeepsRelation` | rtl/logical/pipeline/tdrv32_pipeline.sv:648-653 | A load-use bubble or a CSR drain keeps the relation while ID and the PC stand still. |
| `Following.MoveKeepsRelation` | rtl/logical/pipeline/tdrv32_pipeline.sv:667-744 | When ID moves into EX it arrives decoded, with the operands the register file will hold, and fetch appends the next instruction of the path. |
| `Stalling.Frozen` | rtl/logical/pipeline/tdrv32_pipeline.sv:360-363 | In a stalled cycle no architectural register, CSR or stage from EX on changes, nothing commits and nothing traps. |
| `Stalling.StallTransfers` | rtl/logical/pipeline/tdrv32_pipeline.sv:513-534 | A transfer accepted during a stall is remembered exactly once, with its response. |
| `Stalling.StallKeepsRelation` | rtl/logical/pipeline/tdrv32_pipeline.sv:360-363 | A stalled cycle keeps the simulation relation with the same reference state. |
| `Runs.ResetExplained` | rtl/logical/pipeline/tdrv32_pipeline.sv:516-519 | The reset state, with arbitrary payload registers, is related to the reference's start state, with nothing observed. |
| `Guarantees.StartIsFixed` | rtl/logical/stages/decode/register_file.sv:36-56 | Where execution starts after reset and what each register reads as. |
| `Guarantees.TrapsArePrecise` | rtl/logical/pipeline/tdrv32_pipeline.sv:974-1008 | At every trap entry of every run: the trap is the reference's next event, the instructions older than the one at its PC and no others have committed or are in WB, registers and CSRs are the reference's just before it but for the trap itself, and no younger instruction is left in any stage. |
| `Guarantees.TrapIsReported` | rtl/logical/stages/system/csr_file.sv:215-220 | At every trap entry of every run: reading mcause, mtval and mepc gives the cause, value and even PC of the trap just shown, mstatus has the old MIE in MPIE and MIE clear, execution goes on at the base or vector mtvec names, and an interrupt is reported for the first enabled and raised line. |
| `Guarantees.FaultBeatsEx` | rtl/logical/pipeline/tdrv32_pipeline.sv:978-985 | A bus fault in MEM beats every exception, interrupt, MRET and CSR write of the instruction in EX in the same cycle. |
| `Guarantees.EnginesAreOwned` | rtl/logical/pipeline/tdrv32_pipeline.sv:809-823 | In every reachable state, whatever was fetched, both engines are idle unless EX holds a multiply or divide, and a busy engine works with that instruction's operands. |
| `Guarantees.InstretCountsCommits` | rtl/logical/stages/system/csr_file.sv:255-275 | Without writes to the counter or its inhibit bit, minstret is the number of commits since reset modulo 2^64. |
| `Guarantees.CyclesAreCounted` | rtl/logical/stages/system/csr_file.sv:260-261 | While software leaves the counter and its inhibit bit alone, mcycle is the number of clock edges since reset, modulo 2^64. |
| `Guarantees.ChoicesAreSampled` | rtl/logical/pipeline/tdrv32_pipeline.sv:1010-1040 | The cycle count, time and pins that each reference step is told of are those of one advancing cycle of the run, and each interrupt step was taken for the pins of its cycle. |
| `Guarantees.CsrReadsAreOrdered` | rtl/logical/pipeline/tdrv32_pipeline.sv:643-649 | When a CSR instruction is in EX every older instruction has left the pipeline, so it sees the reference's CSRs and registers and the count of the instructions retired before it. |
| `Guarantees.DataRequestIsStable` | rtl/logical/pipeline/tdrv32_pipeline.sv:346-355 | A data request not yet accepted is presented again unchanged in every field, whatever fetch or the multiply/divide unit do. |
| `Guarantees.FetchRequestIsStable` | rtl/logical/pipeline/tdrv32_pipeline.sv:341-344 | A fetch request not yet accepted is presented again at the same address. |
| `FrontEnd.FrontEndIsStream` | rtl/logical/pipeline/tdrv32_pipeline.sv:454-511 | In one cycle the pipeline's PC and fetch buffer, and what enters ID, evolve as the fetch stream does: the PC moves only when an instruction is consumed or a redirect is accepted. |
| `FrontEnd.EnteredIsParse` | rtl/logical/pipeline/tdrv32_pipeline.sv:454-511 | In every run: the instructions that entered ID since the last accepted redirect are the mixed 16/32-bit parse of memory from its target, the PC is that of the next one, and the reads accepted are two for each crossing instruction and one for any other, plus those already made for the next. |
| `Guarantees.SleepIsQuiet` | rtl/logical/pipeline/tdrv32_pipeline.sv:965-972 | A sleeping core requests nothing on either port and holds no instruction in ID or EX, in every run. |
| `Guarantees.FenceIOrders` | rtl/logical/pipeline/tdrv32_pipeline.sv:951-953 | When FENCE.I takes effect every older data transfer has been accepted, fetch restarts at the instruction after it and nothing fetched earlier survives. |
| `Alignment.PipelineStaysEven` | rtl/logical/pipeline/tdrv32_pipeline.sv:907-913 | From an even reset vector no commit or trap is at an odd PC and the instruction-address-misaligned exception is never taken. |
| `Alignment.OddResetMisaligns` | rtl/logical/pipeline/tdrv32_pipeline.sv:905-913 | From every odd reset vector there is a memory, and a schedule of 165 cycles, on which the first trap of the pipeline is that exception, at the reset vector. |
| `Alignment.NeverMisalignedIffResetEven` | rtl/logical/pipeline/tdrv32_pipeline.sv:905-913 | The reset vector is even if and only if no memory and no run ever take the instruction-address-misaligned exception. |
| `Interrupts.NothingPasses` | rtl/logical/pipeline/tdrv32_pipeline.sv:943-944 | With an enabled interrupt pending no instruction completes EX; the trap is the interrupt's unless an older bus fault or the instruction's own exception comes first. |
| `Interrupts.SleepsAndWakes` | rtl/logical/pipeline/tdrv32_pipeline.sv:965-972 | In every run, whatever MIE is: a sleeper wakes in exactly the cycles in which a line is raised whose bit in mie is set, and a core falls asleep exactly when a WFI leaves EX untrapped with no such line. |
| `Interrupts.SleeperGoesOn` | verification/cocotb/test_core.py:537-607 | A sleeper that sees such a line for one cycle, MIE set or clear, retires or traps within 5(max(2K, 32) + 1) further cycles when each port accepts within K. |
| `Interrupts.HeldInterruptIsTaken` | rtl/logical/pipeline/tdrv32_pipeline.sv:943-957 | If each port accepts within K cycles: from any moment of any run, asleep or not, while an enabled interrupt is held pending no instruction completes EX and a trap is entered within 6(max(2K, 32) + 1) cycles. |
| `Progress.AdvanceIffAllDone` | rtl/logical/pipeline/tdrv32_pipeline.sv:344-363 | The pipeline advances if and only if, after this cycle's responses, no fetch beat, no data transfer and no multiply/divide iteration is left. |
| `Progress.StallCountsFetch` | rtl/logical/stages/fetch/rv32c_fetch_buffer.sv:108-140 | In a stall, accepted fetch beats count down and stay counted. |
| `Progress.StallCountsData` | rtl/logical/pipeline/tdrv32_pipeline.sv:516-527 | In a stall, an accepted data transfer counts down and stays counted. |
| `Progress.StallCountsMdu` | rtl/logical/stages/execute/mdu_unit.sv:78-90 | In a stall the engine counts down one iteration per cycle whatever the buses do, and a finished result is kept. |
| `Progress.PipelineKeepsGoing` | rtl/logical/pipeline/tdrv32_pipeline.sv:358-363 | If each port accepts within K cycles, at every moment of every run, whatever the ports return, the current stall has lasted at most max(2K, 32) cycles, and a commit, a trap or a drained sleep occurred within the last 5(max(2K, 32) + 1) cycles. |
| `Progress.StallsEnd` | rtl/logical/pipeline/tdrv32_pipeline.sv:358-363 | Any run of consecutive cycles without an advance is at most max(2K, 32) long when each port accepts within K. |
| `Progress.EventsKeepPace` | rtl/logical/pipeline/tdrv32_pipeline.sv:372-381 | A core that never sleeps has shown at least m commits and traps once 5m(max(2K, 32) + 1) cycles have passed. |
| `Progress.AdvanceMoves` | rtl/logical/pipeline/tdrv32_pipeline.sv:372-381 | Every advance without a commit or a trap moves the oldest instruction one stage on. |
| `FetchStream.ConsumedIsParse` | rtl/logical/stages/fetch/rv32c_fetch_buffer.sv:40-154 | For every memory, wait pattern and redirects: the instructions consumed since the last accepted redirect are the mixed 16/32-bit parse of memory from its target, with two accepted reads for each crossing instruction and one for any other. |
| `Fetch.CompleteIsReference` | rtl/logical/stages/fetch/rv32c_fetch_buffer.sv:58-106 | A completed fetch, held or not, one beat or two, is the instruction memory parses to at that PC, or its bus fault. |
| `Fetch.ClockHolds` | rtl/logical/stages/fetch/rv32c_fetch_buffer.sv:108-154 | Every cycle without consumption keeps the meaning of the held response and first half. |
| `Fetch.ClockEmpties` | rtl/logical/stages/fetch/rv32c_fetch_buffer.sv:114-124 | A consumed instruction or an accepted redirect leaves the buffer fresh for any PC. |
| `Fetch.BeatsCount` | rtl/logical/stages/fetch/rv32c_fetch_buffer.sv:125-139 | Each accepted beat is one fewer still needed, and the instruction is complete exactly when none is. |
| `Fetch.Buffer.Tick` | rtl/logical/stages/fetch/rv32c_fetch_buffer.sv:108-154 | The six registers of the buffer after a clock edge. |
| `Divider.DividesInNCycles` | rtl/logical/stages/execute/iterative_divider.sv:44-80 | For every N >= 2, operands and operation: done is raised in the N-th cycle after the start and not before, the result is the standard's DIV, DIVU, REM or REMU value including division by zero and overflow, and it is held until consumed whatever the inputs then carry. |
| `Divider.QuotientUnique` | rtl/logical/stages/execute/iterative_divider.sv:56-72 | The standard's signed quotient and remainder are the only pair with x = y*q + r, |r| < |y| and r of the dividend's sign. |
| `Divider.PartialSteps` | rtl/logical/stages/execute/iterative_divider.sv:58-64 | One restoring step divides one more bit of the dividend. |
| `Divider.Continues` | rtl/logical/stages/execute/iterative_divider.sv:82-157 | Every cycle keeps the meaning of the registers, and operands presented meanwhile are ignored. |
| `Divider.Engine.Tick` | rtl/logical/stages/execute/iterative_divider.sv:82-157 | The divider's registers after a clock edge. |
| `Divider.Engine.Load` | rtl/logical/stages/execute/iterative_divider.sv:119-137 | The registers loaded at a start. |
| `Divider.Engine.Iterate` | rtl/logical/stages/execute/iterative_divider.sv:139-153 | The registers after one iteration. |
| `Multiplier.MultipliesInNCycles` | rtl/logical/stages/execute/iterative_multiplier.sv:43-73 | For every N >= 2, operands and operation: done is raised in the N-th cycle, the result is the right half of the exact signed, mixed or unsigned product, and it is held until consumed. |
| `Multiplier.ExactProduct` | rtl/logical/stages/execute/iterative_multiplier.sv:58-60 | After N steps the double-width register holds the exact magnitude product; the N+1-bit sum loses no carry. |
| `Multiplier.Engine.Tick` | rtl/logical/stages/execute/iterative_multiplier.sv:75-133 | The multiplier's registers after a clock edge. |
| `Mdu.ClockKeepsOwnership` | rtl/logical/stages/execute/mdu_unit.sv:78-90 | An edge either consumes the finished result, leaving both engines idle, or keeps the ownership with the same operands and brings the result one cycle nearer. |
| `Mdu.OwnedResult` | rtl/logical/stages/execute/mdu_unit.sv:87-90 | When the unit does not stall its result is what the M instruction computes. |
| `Mdu.Unit.Tick` | rtl/logical/stages/execute/mdu_unit.sv:78-116 | Both engines after a clock edge behind the start and consume equations. |
| `Powers.CounterFits` | rtl/logical/stages/execute/iterative_divider.sv:16-17 | The iteration counter is wide enough for N - 1, for every N. |
| `Adder.CarrySelectAdds` | rtl/logical/common/adder_n_bit.sv:14-56 | For every width, block width and operands, including a short last block, carry-select addition is addition modulo 2^N. |
| `Adder.DataAddressIsSelected` | rtl/logical/pipeline/tdrv32_pipeline.sv:888-899 | The data address is the output of the carry-select adder with 32 bits in blocks of eight. |
| `Adder.BlockIsExact` | rtl/logical/common/adder_n_bit.sv:36-53 | The sum selected in a block is the exact sum of its fields and carry, and its carry out is one bit. |
| `Software.AddressMap` | rtl/logical/stages/system/csr_file.sv:111-201 | Which of the 4096 CSR addresses exist and which of these can be written. |
| `Software.CountersAreSeen` | rtl/logical/stages/system/csr_file.sv:141-167 | The low and high words of the three counters and their read-only shadows. |
| `Software.PinsAreSeen` | rtl/logical/stages/system/csr_file.sv:88-92 | mip shows the three lines at bits 11, 7 and 3. |
| `Software.ResetReads` | rtl/logical/stages/system/csr_file.sv:203-214 | What every writable CSR reads as after reset. |
| `Software.WriteIsSeen` | rtl/logical/stages/system/csr_file.sv:224-272 | After a write the register shows the legal part of the word, a counter's shadow shows it too, and no other CSR has changed. |
| `Software.TrapIsSeen` | rtl/logical/stages/system/csr_file.sv:215-220 | After a trap mcause, mtval and mepc read as recorded, MPIE is the old MIE, MIE is clear and nothing else has changed. |
| `Software.ReturnIsSeen` | rtl/logical/stages/system/csr_file.sv:221-223 | After a return MIE is the old MPIE, MPIE is set and nothing else has changed. |
| `Software.RetireIsSeen` | rtl/logical/stages/system/csr_file.sv:262-263 | A retirement adds one to the 64-bit instruction count unless inhibited and changes nothing else. |
| `Software.InterruptIsSeen` | rtl/logical/stages/system/csr_file.sv:94-108 | Pending, cause and wake-up in terms of MIE, the three bits of mie and the three lines. |
| `Software.VectorsAreSeen` | rtl/logical/pipeline/tdrv32_pipeline.sv:954-958 | A trap goes to mtvec's base, an interrupt in vectored mode four bytes further for each number. |
| `Csr.MtvecWarl` | rtl/logical/stages/system/csr_file.sv:232-237 | A reserved vector mode becomes direct, the base survives, and legal values read back as written. |
| `Csr.EnablesWarl` | rtl/logical/stages/system/csr_file.sv:230-231 | Only the three machine interrupts can be enabled, and writing back what was read changes nothing. |
| `Csr.TrapThenReturn` | rtl/logical/stages/system/csr_file.sv:215-223 | Taking a trap masks every interrupt, and returning restores the mask and the even PC the trap saved. |
| `Csr.File.Tick` | rtl/logical/stages/system/csr_file.sv:203-275 | All CSR fields after an edge: trap entry beats return beats a write, and the counters advance on their own. |
| `Csr.File.TickRegisters` | rtl/logical/stages/system/csr_file.sv:203-248 | The trap-state process after an edge. |
| `Csr.File.TickCounters` | rtl/logical/stages/system/csr_file.sv:255-275 | The counter process after an edge, sampling the inhibit bits before it. |
| `RegisterFile.ReadSeesWrite` | rtl/logical/stages/decode/register_file.sv:84-94 | The write-through path makes a read return what the file will hold after this edge. |
| `RegisterFile.File.Tick` | rtl/logical/stages/decode/register_file.sv:70-82 | The register view after a write, with storage and validity bitmap kept apart. |
| `RegisterFile.File.ReadPort` | rtl/logical/stages/decode/register_file.sv:89-94 | A read port returns the bypassed or stored value, and the reset value of a register never written. |
| `Stages.IfIdRegister.Tick` | rtl/logical/pipeline/if_id_register.sv:36-63 | Flush beats stall, and an invalid stage shows a NOP. |
| `Stages.IdExRegister.Tick` | rtl/logical/pipeline/id_ex_register.sv:129-206 | Stall beats flush; a flush clears every control and captures payload. |
| `Stages.ExMemRegister.Tick` | rtl/logical/pipeline/ex_mem_register.sv:65-116 | Stall beats flush; a flush clears every control and captures payload. |
| `Stages.MemWbRegister.Tick` | rtl/logical/pipeline/mem_wb_register.sv:49-82 | A stall holds the retiring payload. |
| `Bridge.AnswersAreTransfers` | rtl/logical/bus/native_to_ahb_lite.sv:45-92 | For every run with a master that holds its requests: the answers it received are the transfers a bus monitor saw completed, with the same address, direction, size, write data, read data and error, and each had exactly one accepted address phase. |
| `Bridge.WaitedSignalsHold` | rtl/logical/bus/native_to_ahb_lite.sv:45-66 | While HREADY is low no bus signal of a transfer moves. |
| `Bridge.Master.Tick` | rtl/logical/bus/native_to_ahb_lite.sv:68-92 | The bridge's registers after a clock edge. |
| `System.DataBusRefinesMachine` | rtl/logical/tdrv32_top.sv:154-181 | For every behaviour of both slaves: the transfers completed on the data bus are, in order and once each, those of the reference run, at most the youngest ahead of its instruction's retirement. |
| `System.TransfersAreAligned` | rtl/logical/bus/native_to_ahb_lite.sv:52-57 | In every run each address phase is proper: a fetch is a read of an aligned word, a data transfer a byte, an aligned halfword or an aligned word. |
| `System.SleepMeansIdleBuses` | rtl/logical/common/core_sleep_gate.sv:9-10 | When the core sleeps both bridges are idle and no transfer starts, so the sleep gate never delays the report. |
| `AhbSlave.NothingIsLost` | verification/cocotb/ahb_memory.py:92-144 | The memory model ignores HTRANS while it is busy, yet against this bridge the transfers it accepts and completes are those an AHB-Lite monitor sees. |
| `AhbSlave.AnswersInTime` | verification/cocotb/ahb_memory.py:108-130 | A held request is answered after its address phase, the wait states and, for a failing address, the first cycle of the two-cycle ERROR response; the error comes with the answer. |
| `AhbSlave.Slave.Cycle` | verification/cocotb/ahb_memory.py:97-144 | One turn of the run loop: the response driven, and the memory and bookkeeping after the rising edge; completing a write outside the memory raises, with nothing changed. |
| `Memory.ViewsAgree` | rtl/logical/stages/memory/data_memory.sv:18-43 | For every program of aligned, in-range byte, halfword and word accesses, the strobed memory, the memory written by address and size and the flat byte map end equal and return the same loads. |
| `Memory.StoresAgree` | rtl/logical/stages/memory/load_store_unit.sv:89-152 | For every aligned store the strobes, the address and size, and the flat map write the same bytes, so the strobes dropped at the bus are redundant. |
| `Memory.LoadsAgree` | rtl/logical/stages/memory/load_store_unit.sv:31-87 | For every aligned load, steering and extending the lanes of the word gives the flat map's value. |
| `Memory.DataMemory.Tick` | rtl/logical/stages/memory/data_memory.sv:22-33 | The bytes selected by strobes are written and no others; a lane beyond the last byte is not written. |
| `Memory.DataMemory.Read` | rtl/logical/stages/memory/data_memory.sv:35-43 | A read returns the aligned word, little-endian, or zero when not enabled; lanes beyond the last byte float. |
| `Memory.NativeMemory.ReadWord` | verification/cocotb/native_memory.py:76-85 | The memory-mapped hook's answer if it has one, else the aligned word, or zero outside the memory. |
| `Memory.NativeMemory.Write` | verification/cocotb/native_memory.py:97-110 | A write the memory-mapped hook takes is only counted; a mapped one changes the strobed bytes and is counted; an unmapped one is an error and changes nothing. |
| `Memory.AhbMemory.ReadWord` | verification/cocotb/ahb_memory.py:58-62 | The aligned word; outside the memory a NOP on the instruction port and zero on the data port. |
| `Memory.AhbMemory.Write` | verification/cocotb/ahb_memory.py:79-90 | An in-range write changes exactly the addressed bytes, from the lanes their addresses select. |
| `Assembler.AssembledIsUnderstood` | verification/cocotb/riscv.py:15-337 | For every mnemonic, registers and immediate: the encoder raises exactly when the immediate does not fit, and otherwise its word carries that mnemonic's name, is legal, and gives back the registers and the immediate. |
| `Assembler.CompressedExpands` | verification/cocotb/riscv.py:269-303 | Every compressed encoder's parcel expands to the full-size encoding of what it abbreviates. |
| `Assembler.SystemUnderstood` | verification/cocotb/functional_coverage.py:115-124 | The four fixed SYSTEM words carry their names and are legal. |
| `Encode.FieldsB` | rtl/logical/stages/decode/immediate_generator.sv:18-20 | The branch offset scattered by the B format comes back sign-extended from the immediate generator. |
| `Encode.FieldsJ` | rtl/logical/stages/decode/immediate_generator.sv:26-28 | The jump offset scattered by the J format comes back sign-extended from the immediate generator. |
| `Encode.FieldsI` | rtl/logical/stages/decode/immediate_generator.sv:10-13 | All fields and the sign-extended immediate of the I format come back. |
| `Encode.FieldsS` | rtl/logical/stages/decode/immediate_generator.sv:15-16 | All fields and the sign-extended immediate of the S format come back. |
| `Compressed.ExpansionMeansParcel` | rtl/logical/stages/decode/rv32c_decompressor.sv:66-253 | For every 16-bit parcel and every state: executing what fetch passes on for it is executing the compressed instruction as the standard defines it, and a reserved parcel is refused with itself as the trap value. |
| `Compressed.RefusedParcel` | rtl/logical/stages/decode/control_unit.sv:104-168 | A zero-extended parcel is never a legal instruction. |
| `Compressed.JumpAgrees` | rtl/logical/stages/decode/rv32c_decompressor.sv:113-120 | The jump immediate gathered by the expander is the standard's signed offset. |
| `Decode.OffsetsEven` | rtl/logical/stages/decode/immediate_generator.sv:18-28 | Branch and JAL offsets are even. |
| `Departing.ControlFacts` | rtl/logical/stages/decode/control_unit.sv:173-414 | The decoder's selects are consistent: the PC select names exactly the control transfer enabled, system returns and fences transfer nothing else and access no memory, and every load writes a register. |
| `Generator.ProgramIsItsOracle` | verification/cocotb/reference_model.py:87-233 | For every sequence of draws and seed values: executing the generated words, whatever x1 to x12, x31, the CSRs and other memory held, writes exactly the predicted registers, takes no trap and leaves exactly the predicted memory, however long it runs. |
| `Alu.BitwiseByDigits` | rtl/logical/stages/execute/alu_unit.sv:35-37 | For each of the 32 positions, the digit of AND, OR and XOR is the conjunction, disjunction and difference of the operands' digits, and complementing inverts it. |
| `Predicted.GatesAgree` | verification/cocotb/reference_model.py:140-144 | The model's bitwise operators, defined by their digits, are the datapath's gates. |
| `Predicted.RegisterValueAgrees` | verification/cocotb/reference_model.py:129-211 | The value predicted in unbounded integers for each register instruction, multiply and divide included, is what the reference computes on words. |
| `Predicted.ImmediateValueAgrees` | verification/cocotb/reference_model.py:148-171 | The same for the immediate instructions. |
| `Predicted.ShiftValueAgrees` | verification/cocotb/reference_model.py:172-178 | The same for the immediate shifts, the arithmetic one flooring. |
| `Predicted.RemainderAgrees` | verification/cocotb/reference_model.py:51-53 | The model's remainder, defined from its quotient of magnitudes, is the standard's. |
| `Building.Generate` | verification/cocotb/reference_model.py:87-233 | The generator as it runs, with a builder updated in place in two loops, yields the program the theorems are about. |
| `Building.Builder.Write` | verification/cocotb/reference_model.py:74-80 | One emitted word: the prediction is recorded at its address unless it targets x0, which stays zero. |
| `Building.Builder.Store` | verification/cocotb/reference_model.py:82-84 | One emitted store: the word and the predicted memory. |
| `RandomTest.PipelineMeetsPrediction` | verification/cocotb/reference_model.py:224-233 | For every generated program, every schedule and a zeroed data area, with separate memories: the pipeline takes no trap and retires a prefix of the predicted writes; once the completion marker has retired, all of them, and memory holds the predicted words; with ports that accept within K cycles the marker retires within 5(max(2K, 32) + 1) cycles for each instruction. |
| `SharedTest.BenchPassesRandomTest` | verification/cocotb/test_core.py:376-407 | The random test on the closed bench, program and data in one memory, up to 229 draws, any wait states, no bus errors or interrupts: no trap, only predicted writes in order; once the marker has retired all of them, with memory exactly as predicted; and a deadline in cycles by which it has. |
| `SharedTest.FitsIffSmall` | verification/cocotb/reference_model.py:93-104 | One memory can hold a generated program and its zeroed data area if and only if there are at most 229 draws. |
| `SharedTest.ProgramKeepsCode` | verification/cocotb/reference_model.py:82-104 | With at most 229 draws no store of the sequential machine changes an instruction, however long it runs. |
| `Image.ImageRoundTrip` | scripts/elf_to_mem.py:63-81 | For the lines emitted for any segments: reading them back loads a word exactly when some segment byte covers it, with the later segments' bytes over zero, and there is one address line for each maximal run of words and no other. |
| `Image.Convert` | scripts/elf_to_mem.py:63-81 | The converter's loops, bytes overlaid in segment order and lines written in ascending order, yield a text that parses into an image reading back as exactly the segments. |
| `Image.TextParses` | scripts/elf_to_mem.py:76-79 | The lines as written, an at sign before an address and hexadecimal digits filled to eight, parse back into the same lines. |
| `Hex.DigitsReadBack` | scripts/elf_to_mem.py:76-79 | A number written with enough hexadecimal places reads back as the number. |
| `Image.OverlayAt` | scripts/elf_to_mem.py:65-71 | The overlay's bytes are the last segment's that covers them, and a word exists exactly when one of its bytes is covered. |

## Left out

- Runs.PipelineRefinesMachine: the reference's instruction memory is fixed during the run; a memory that the program changes is that of `SharedMemory.BenchRefinesMemoryMachine`.
- Runs.PipelineRefinesMachine: mcycle, time and the interrupt pins reach the reference as the values the instruction saw; that mcycle counts clock cycles is not related to the reference.
- Guarantees.InstretCountsCommits: the value read after software writes the counter or inhibits it is covered only by the refinement theorem.
- Progress.PipelineKeepsGoing: a dormant core (asleep and drained) counts as progress; that it goes on once an enabled line is raised is `Interrupts.SleeperGoesOn`, and that a pending interrupt is then taken is `Interrupts.HeldInterruptIsTaken`.
- SharedMemory.BenchRefinesMemoryMachine: a program that executes an instruction it has overwritten without a FENCE.I between is outside, as the architecture leaves open which of the two it executes; a write to an unmapped address stops the original simulation and here changes nothing, and no memory-mapped hook is installed on the bench.
- AhbBench.ProcessorRefinesMemoryMachine: a data memory that ends inside a word is outside, because the memory model itself then accepts bytes it cannot read back; a write to an unmapped address stops the original simulation and here changes nothing.
- Memory.DataMemory.Read: what a lane beyond the last byte shows is a parameter.
- Image.ImageRoundTrip: ELF header parsing and its error cases are not part of this model.
- Generator.ProgramIsItsOracle: the random source is a parameter; every sequence of draws it can make is covered, with sources ranging over all of x0 to x30.
- Asynchronous reset as a transition, the active-low latch phase of the register file (one write per clock edge here), X propagation, and lint and coverage pragmas.
- Debug ports and the payload that feeds only them (branch-taken, jal, jalr, immediate and ALU result in the last stages), and the RVFI shadow.
- The recovery branches for invalid encodings of the state registers, which the enumerations rule out.
- The second expansion table in verification/cocotb/rv32c_oracle.py: the expansion is proved against the meaning of the parcels instead.
- HPROT, HBURST and HMASTLOCK, which are constants of the bridge.
- cocotb scheduling, coverage counting, firmware, FPGA files and ACT4 configuration.
