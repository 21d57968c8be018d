# A verified model of the rvemu hart

rvemu is an emulator of a single RV64GC hart with its devices. This project models the machine in
Dafny and proves what its loop keeps: the two instruction executors agree, address translation is
the Sv39 walk, traps and returns nest, supervisor CSRs are windows, pending interrupts are neither
invented nor lost, load-reserved and store-conditional work over whole runs, and the devices move
exactly the bytes they should.

## How it is organised

The state of the machine is a value, `HartState.Hart`: registers, program counter, CSRs, mode,
paging cache, reservations and the bus with memory, CLINT and disk. What the emulator does is
given twice.

* Classes with the source's own fields and order of updates: `Memory.Dram`, `CsrState.State`,
  `Registers.XRegisters`, `SystemBus.ClintDevice`, `SystemBus.VirtioDevice`, `SystemBus.SystemBus`,
  `Cpu.Cpu`, `Emulator.Emulator`, and the free methods of `TrapHandling` and `VirtioBlk`, which the
  source attaches to other types but which update the processor. Their loops (the table walk, the
  disk copies, the emulator's loop) are loops here. Each method ties the whole new state to a
  function of the old one.
* Functions on states: `Executor` for the 32-bit instructions, `Compressed` for the expansion that
  the comments of the source describe, `Paging`, `Csr`, `Traps`, `Interrupts`, `Disk`,
  `EmulatorStep`. The properties are lemmas about these.

The compressed executor deserves a word. `Compressed.ExecCompressed` says that a 16-bit word means its
expansion, run with length 2. The methods `Cpu.Cpu.CAddi4spn` to `Cpu.Cpu.CSdsp` transcribe the source's
separate implementation of each 16-bit instruction, with its own immediate decoding, and each is
proved to have that effect (lemmas in `CompressedEffects`); `LengthLemmas.CompressedMatchesGeneral`
then relates lengths 2 and 4.

| files | what they hold |
|---|---|
| `Words`, `Types` | machine words, modes, exceptions, outcomes, the environment |
| `ByteStore`, `Devices`, `Memory`, `SystemBus`, `RegisterBytes`, `ByteMap` | memory, CLINT, bus and their refinement of a byte store |
| `Disk`, `VirtioBlk`, `DiskLaws`, `DiskRuns` | the virtio block device |
| `Csr`, `CsrState`, `CsrWindows` | control and status registers |
| `Paging`, `HartState` | Sv39 translation, loads and stores through it |
| `Encoding`, `Decoder`, `Alu`, `Comparisons`, `Executor`, `Compressed`, `CompressedEffects`, `Instruction`, `LengthLemmas` | instructions |
| `Registers`, `Cpu` | the processor as an object |
| `Traps`, `TrapLaws`, `TrapHandling`, `ExceptionPc`, `PreciseExceptions`, `Faults` | traps and returns |
| `Interrupts`, `EmulatorStep`, `Emulator`, `Frames`, `Invariants`, `Reservations` | the loop and what every run keeps |

## Conventions

* Arithmetic is that of a release build, which the repository's documentation launches: additions
  wrap at 64 bits and shift counts are masked. `bv64` is a register, `int` appears where the source
  widens (the M extension) and for physical addresses.
* A Rust panic is the outcome `Panic`. What the objects hold after one is not specified, because the
  process ends.
* What comes from outside one iteration of the loop is a value `Env` given to it: whether the UART
  interrupts, what the ROM, PLIC, UART and remaining virtio registers answer, refuse or panic on, and
  the results of host floating-point arithmetic.
* Bit positions are `bv6` and register numbers `bv5`, so that out-of-range ones do not exist.
* Word operations are named functions (`Add`, `And`, `Clear`, ...) so that proofs about whole states
  can hide them.

## What the code does that its comments or the standard do not say

Each is kept as the code has it. The ones with an exact condition have a lemma in the table below.

* c.jr and c.jalr do not clear the low bit of their target.
* fsw and fsd do not sign-extend their offset.
* remw and remuw by zero return the whole dividend.
* An integer division by zero sets a flag of FCSR: the only way an instruction other than a CSR
  instruction, mret or sret changes a CSR.
* A fault while translating a store is reported as a load page fault, and a bus fault in the table
  walk is always a load access fault.
* The exception pc is four bytes back, whatever was executed.
* The table walk checks no permissions and writes no accessed or dirty bits back.
* `mret` with MPP = 2 enters debug mode, and nothing else does; every trap taken there panics.
* The ends of bus and register ranges are inclusive.
* A misaligned lr or atomic operation raises a load address misaligned exception.

## Model

| member | source | states |
|---|---|---|
| LengthLemmas.CompressedMatchesGeneral | src/cpu.rs:618-1287 | For every state and every 16-bit word that stands for a 32-bit instruction, the compressed executor has exactly the effect of the general executor on the expansion at length 2 instead of 4, if and only if the word is not a c.jr or c.jalr to an odd address |
| LengthLemmas.RegisterJumpIffEven | src/cpu.rs:1094-1136 | c.jr and c.jalr are their expansion if and only if the target register is even: they do not clear bit 0 as jalr does |
| LengthLemmas.ExecuteAtLengthTwo | src/cpu.rs:1206-3287 | Over every instruction word, the effect at length 2 is that at length 4 with the next pc two bytes on unless the instruction transfers control (jal, jalr, a taken branch, mret, sret), and with the link of jal and jalr two bytes on; nothing else differs |
| Cpu.Cpu.CAddi4spn | src/cpu.rs:636-652 | The hand-written update has exactly the effect of the expansion addi rd, x2, nzuimm run with length 2 |
| Cpu.Cpu.CFld | src/cpu.rs:653-667 | The hand-written update has exactly the effect of the expansion fld run with length 2 |
| Cpu.Cpu.CLw | src/cpu.rs:668-682 | The hand-written update has exactly the effect of the expansion lw run with length 2 |
| Cpu.Cpu.CLd | src/cpu.rs:683-696 | The hand-written update has exactly the effect of the expansion ld run with length 2 |
| Cpu.Cpu.CReserved4 | src/cpu.rs:697-700 | The word stands for no instruction; the outcome is the panic or illegal-instruction exception of the source, with the state as it was |
| Cpu.Cpu.CFsd | src/cpu.rs:701-713 | The hand-written update has exactly the effect of the expansion fsd run with length 2 |
| Cpu.Cpu.CSw | src/cpu.rs:714-727 | The hand-written update has exactly the effect of the expansion sw run with length 2 |
| Cpu.Cpu.CSd | src/cpu.rs:728-740 | The hand-written update has exactly the effect of the expansion sd run with length 2 |
| Cpu.Cpu.CAddi | src/cpu.rs:749-766 | The hand-written update has exactly the effect of the expansion addi rd, rd, imm run with length 2 |
| Cpu.Cpu.CAddiw | src/cpu.rs:767-788 | The hand-written update has exactly the effect of the expansion addiw run with length 2 |
| Cpu.Cpu.CLi | src/cpu.rs:789-805 | The hand-written update has exactly the effect of the expansion addi rd, x0, imm run with length 2 |
| Cpu.Cpu.CAddi16sp | src/cpu.rs:806-828 | The hand-written update has exactly the effect of the expansion addi x2, x2, nzimm run with length 2 |
| Cpu.Cpu.CLui | src/cpu.rs:829-847 | The hand-written update has exactly the effect of the expansion lui run with length 2 |
| Cpu.Cpu.CSrli | src/cpu.rs:851-860 | The hand-written update has exactly the effect of the expansion srli run with length 2 |
| Cpu.Cpu.CSrai | src/cpu.rs:861-871 | The hand-written update has exactly the effect of the expansion srai run with length 2 |
| Cpu.Cpu.CAndi | src/cpu.rs:872-886 | The hand-written update has exactly the effect of the expansion andi run with length 2 |
| Cpu.Cpu.CSub | src/cpu.rs:888-900 | The hand-written update has exactly the effect of the expansion sub run with length 2 |
| Cpu.Cpu.CXor | src/cpu.rs:901-910 | The hand-written update has exactly the effect of the expansion xor run with length 2 |
| Cpu.Cpu.COr | src/cpu.rs:911-920 | The hand-written update has exactly the effect of the expansion or run with length 2 |
| Cpu.Cpu.CAnd | src/cpu.rs:921-930 | The hand-written update has exactly the effect of the expansion and run with length 2 |
| Cpu.Cpu.CSubw | src/cpu.rs:931-945 | The hand-written update has exactly the effect of the expansion subw run with length 2 |
| Cpu.Cpu.CAddw | src/cpu.rs:946-959 | The hand-written update has exactly the effect of the expansion addw run with length 2 |
| Cpu.Cpu.CReservedAlu | src/cpu.rs:960-969 | The word stands for no instruction; the outcome is the panic or illegal-instruction exception of the source, with the state as it was |
| Cpu.Cpu.CJ | src/cpu.rs:971-991 | The hand-written update has exactly the effect of the expansion jal x0, offset run with length 2 |
| Cpu.Cpu.CBeqz | src/cpu.rs:992-1012 | The hand-written update has exactly the effect of the expansion beq rs1, x0, offset run with length 2 |
| Cpu.Cpu.CBnez | src/cpu.rs:1013-1033 | The hand-written update has exactly the effect of the expansion bne rs1, x0, offset run with length 2 |
| Cpu.Cpu.CSlli | src/cpu.rs:1042-1053 | The hand-written update has exactly the effect of the expansion slli run with length 2 |
| Cpu.Cpu.CFldsp | src/cpu.rs:1054-1067 | The hand-written update has exactly the effect of the expansion fld rd, offset(x2) run with length 2 |
| Cpu.Cpu.CLwsp | src/cpu.rs:1068-1080 | The hand-written update has exactly the effect of the expansion lw rd, offset(x2) run with length 2 |
| Cpu.Cpu.CLdsp | src/cpu.rs:1081-1093 | The hand-written update has exactly the effect of the expansion ld rd, offset(x2) run with length 2 |
| Cpu.Cpu.CJr | src/cpu.rs:1096-1105 | The hand-written update has exactly the effect of the expansion jalr x0, 0(rs1), with the low bit of the target kept run with length 2 |
| Cpu.Cpu.CMv | src/cpu.rs:1106-1116 | The hand-written update has exactly the effect of the expansion add rd, x0, rs2 run with length 2 |
| Cpu.Cpu.CJalr | src/cpu.rs:1125-1135 | The hand-written update has exactly the effect of the expansion jalr x1, 0(rs1), with the low bit of the target kept run with length 2 |
| Cpu.Cpu.CAdd | src/cpu.rs:1137-1151 | The hand-written update has exactly the effect of the expansion add rd, rd, rs2 run with length 2 |
| Cpu.Cpu.CFsdsp | src/cpu.rs:1156-1167 | The hand-written update has exactly the effect of the expansion fsd rs2, offset(x2) run with length 2 |
| Cpu.Cpu.CSwsp | src/cpu.rs:1168-1179 | The hand-written update has exactly the effect of the expansion sw rs2, offset(x2) run with length 2 |
| Cpu.Cpu.CSdsp | src/cpu.rs:1180-1191 | The hand-written update has exactly the effect of the expansion sd rs2, offset(x2) run with length 2 |
| Cpu.Cpu.ExecuteCompressed | src/cpu.rs:618-1202 | Fetch, step over 2 bytes and dispatch over the three quadrants: the whole new state and outcome are those of the expansion, given x0 is zero |
| Cpu.Cpu.ExecuteGeneral | src/cpu.rs:1206-3287 | Fetch, step over 4 bytes and execute: the whole new state and outcome are those of the instruction function that all properties are stated about |
| Cpu.Cpu.ExecuteInstruction | src/cpu.rs:594-614 | Idle harts do nothing, the all-zero half word is illegal, and the low two bits choose the executor |
| Decoder.DecodeI | src/cpu.rs:1285-1287 | The shifts and sign-extending casts yield the I-type immediate of the instruction format, for every word |
| Decoder.DecodeS | src/cpu.rs:1484-1487 | The shifts and sign-extending casts yield the S-type immediate of the instruction format, for every word |
| Decoder.DecodeB | src/cpu.rs:2974-2980 | The shifts and sign-extending casts yield the B-type immediate of the instruction format, for every word |
| Decoder.DecodeU | src/cpu.rs:1415-1419 | The shifts and sign-extending casts yield the U-type immediate of the instruction format, for every word |
| Decoder.DecodeJ | src/cpu.rs:3049-3058 | The shifts and sign-extending casts yield the J-type immediate of the instruction format, for every word |
| Decoder.FpStoreOffsetIffNonNegative | src/cpu.rs:1519-1524 | fsw and fsd do not sign-extend their offset: it is the S-type offset if and only if bit 31 is clear |
| Cpu.Cpu.ExecLoad | src/cpu.rs:1223-1282 | Each load width extends as its funct3 says, and a failing read leaves everything alone |
| Cpu.Cpu.ExecStore | src/cpu.rs:1483-1518 | The store of each width, with its reservation and fault behaviour |
| Cpu.Cpu.ExecAmo | src/cpu.rs:1542-1882 | The atomics: which pairs of funct3 and funct5 are defined, alignment faults, read-modify-write order |
| Cpu.Cpu.ExecLr | src/cpu.rs:1602-1631 | Alignment, read, register and one more reservation |
| Cpu.Cpu.ExecSc | src/cpu.rs:1632-1673 | Alignment, the reservation dropped in either case, and the store only if it was there |
| Cpu.Cpu.ExecBranch | src/cpu.rs:2973-3034 | Taken branches move from the start of the instruction, others not at all |
| Cpu.Cpu.ExecPrivileged | src/cpu.rs:3070-3183 | ecall by mode, ebreak, uret (panic), sret, mret, wfi and the fences |
| Cpu.Cpu.ExecSret | src/cpu.rs:3102-3138 | The new state after sret, bit by bit through SSTATUS |
| Cpu.Cpu.ExecMret | src/cpu.rs:3139-3175 | The new state after mret, with MPP written as a field |
| Cpu.Cpu.ExecCsr | src/cpu.rs:3184-3276 | The six CSR instructions, and the paging cache refreshed when SATP is written |
| Cpu.Cpu.UpdatePaging | src/cpu.rs:371-385 | The cache is recomputed from the mode and page-number fields of SATP |
| Cpu.Cpu.Translate | src/cpu.rs:388-545 | The loop over the page table computes the recursive Sv39 walk of sections 4.3.2 and 4.4 of the Privileged Architecture, on success and on every fault, and terminates by its level; machine mode and disabled paging translate nothing |
| Paging.AtMostOneEntryPerLevel | src/cpu.rs:408-446 | A walk reads between one and three page-table entries |
| Paging.WalkReadsOnlyItsEntries | src/cpu.rs:408-446 | A walk on two memories that agree on the entries it reads finds the same leaf by the same entries |
| Paging.TranslationIgnoresHighBits | src/cpu.rs:396-400 | The translation depends on bits 38:0 of the address only |
| Paging.WalkForAccess | src/cpu.rs:420-441 | The access type changes which page fault is raised and nothing else: a successful translation is the same for every access type |
| Paging.PageIsContiguous | src/cpu.rs:468-543 | Through a leaf at level i, every address of the same 2^(12+9i)-byte page translates, at the same distance, with the low 12+9i bits untouched and the physical address below 2^56 |
| Paging.StoreMissesWalk | src/cpu.rs:408-446 | A store to memory that overlaps none of the entries of a walk leaves the walk and its entries as they were |
| HartState.StoreThenLoad | src/cpu.rs:548-564 | A store through paging to DRAM is read back, cut to its size, at every virtual address that reaches the same physical address by entries the store did not hit |
| HartState.StoreKeepsTranslation | src/cpu.rs:548-564 | Such a store redirects no other virtual address |
| Cpu.Cpu.Write | src/cpu.rs:555-564 | The reservation is dropped first, the address is translated as a load, and the bus is written: whole new state and outcome |
| Faults.TranslationFaults | src/cpu.rs:388-545 | A translation fails with a load access fault or with the page fault of its access type, and in no other way |
| Faults.WriteFaults | src/cpu.rs:555-564 | A store fails with a load access fault, a load page fault or a store access fault: never with a store page fault |
| Faults.NoStorePageFaults | src/cpu.rs:594-3286 | No instruction, on any state, raises a store page fault |
| CsrState.State.Read | src/csr.rs:211-235 | Reads through the SSTATUS, SIE and SIP masks |
| CsrState.State.Write | src/csr.rs:238-271 | The whole register file after a write: read-only CSRs, masked views, plain registers |
| CsrState.State.WriteBits | src/csr.rs:321-331 | The field is replaced in the word read and the word written back through the mask of the CSR |
| CsrWindows.WriteIsMasked | src/csr.rs:238-271 | Whatever the address, a write is a masked write of one register: all ones, none, the SSTATUS mask, MIDELEG, or SSIP within MIDELEG |
| CsrWindows.ViewsAreWindows | src/csr.rs:211-331 | No sequence of word, bit and field writes to SSTATUS, SIE and SIP changes a bit of mstatus, mie or mip outside its window, or any other CSR |
| CsrWindows.WordIsReadBack | src/csr.rs:211-271 | The bits that a write reaches are read back, for every CSR address |
| CsrWindows.BitIsReadBack | src/csr.rs:274-318 | A writable bit is read back as written |
| CsrWindows.OtherBitIsKept | src/csr.rs:274-318 | A bit write changes no other bit of the same CSR, writable or not |
| CsrWindows.FieldIsReadBack | src/csr.rs:287-331 | A value that fits a writable field is read back from it |
| CsrWindows.DisjointFieldIsKept | src/csr.rs:287-331 | A field write changes no disjoint field of the same CSR, writable or not |
| CsrWindows.BitWriteMissesField | src/csr.rs:287-318 | A bit write changes no field without that bit |
| CsrWindows.FieldWriteMissesBit | src/csr.rs:274-331 | A field write changes no bit outside the field |
| CsrWindows.UxlIsReadOnly | src/csr.rs:211-262 | UXL is shown by SSTATUS and changed by no sequence of writes through the views |
| CsrWindows.SstatusWritesMstatus | src/csr.rs:238-318 | Writing a bit inside the SSTATUS window is writing that bit of mstatus |
| TrapHandling.TakeExceptionTrap | src/exception.rs:67-200 | The update of mode, pc and CSRs in the order of the source ends in the specified state, and the kind of trap is that of the exception |
| TrapHandling.TakeInterruptTrap | src/interrupt.rs:38-167 | The same for interrupts: idle cleared, delegation except of the machine timer, vectored targets, cause with the top bit |
| TrapLaws.SupervisorEntry | src/exception.rs:89-134 | A trap into supervisor mode moves SIE to SPIE, clears SIE and records the mode in SPP; of mstatus and all CSRs nothing else changes but sepc, scause and stval |
| TrapLaws.MachineEntry | src/interrupt.rs:111-164 | A trap into machine mode moves MIE to MPIE, clears MIE and records the mode in MPP; of mstatus and all CSRs nothing else changes but mepc, mcause and mtval |
| TrapLaws.SretStatus | src/cpu.rs:3102-3138 | sret moves SPIE back to SIE, sets SPIE, clears SPP, returns to the mode in SPP and to sepc, and changes no other CSR bit |
| TrapLaws.MretStatus | src/cpu.rs:3139-3175 | mret moves MPIE back to MIE, sets MPIE, clears MPP, returns to the mode in MPP and to mepc, and changes no other CSR bit |
| TrapLaws.MachineExcursion | src/interrupt.rs:111-164 | An interrupt into machine mode, a handler that leaves mepc and the stacks alone, and mret restore mode, even pc, MIE and the whole supervisor stack |
| TrapLaws.NestedTrapsUnwind | src/interrupt.rs:60-165 | An interrupt into supervisor mode, any number of machine-mode interrupts during its handler, each with its mret, and sret restore mode, even pc, SIE and MIE |
| TrapLaws.TrapsMask | src/exception.rs:67-180 | Every exception and every interrupt taken from user, supervisor or machine mode ends with interrupts masked for the mode entered and does not lower the privilege |
| TrapLaws.TrapPanicsIffDebug | src/interrupt.rs:159-164 | A trap panics if and only if the hart is in debug mode |
| ExceptionPc.ExceptionPcNamesInstruction | src/exception.rs:72-101 | The exception pc recorded, four bytes back, is the faulting instruction if and only if a 32-bit instruction had been fetched |
| PreciseExceptions.ExceptionsArePrecise | src/cpu.rs:594-3286 | For every instruction and state that raise an exception: registers, CSRs, mode, memory and devices are as before, the pc moved by exactly 0, 2 or 4, and at most one reserved address was dropped |
| PreciseExceptions.ExecutePrecise | src/cpu.rs:1206-3287 | The same for the general executor, over every instruction word |
| PreciseExceptions.CompressedPrecise | src/cpu.rs:618-1202 | The same for the compressed executor, over every 16-bit word |
| SystemBus.ClintDevice.Increment | src/devices/clint.rs:65-90 | The timer step on device and CSRs together |
| Interrupts.TickSyncsTimer | src/devices/clint.rs:65-90 | After every step of the timer, whatever MIP held, MTIP says whether mtime has reached mtimecmp |
| Interrupts.TickMovesOnlyTime | src/devices/clint.rs:65-90 | The step moves mtime, TIME and its two bits of MIP and nothing else, and sets MSIP exactly when asked or already set |
| Cpu.Cpu.CheckPendingInterrupt | src/cpu.rs:277-368 | Gate, device polling with the disk access, and choice: the whole new state and the interrupt, or a panic if the disk fails |
| Interrupts.ChoosesFirst | src/cpu.rs:325-368 | The interrupt taken is the first of MEI, MSI, MTI, SEI, SSI, STI set in both MIE and MIP, none if there is none, and only its pending bit is cleared |
| Interrupts.PendingIsConserved | src/cpu.rs:277-368 | With interrupts enabled, the pending bits after the check are those before, with the supervisor external bit of an interrupting device and without the one taken |
| Interrupts.GatedIffMasked | src/cpu.rs:286-302 | The gate closes exactly when the enable bit of the current mode is clear in mstatus, read through SSTATUS or not |
| Interrupts.MaskedTakesNothing | src/cpu.rs:286-302 | While interrupts are masked the check returns none and changes nothing |
| Invariants.MaskedIteration | src/emulator.rs:49-93 | Once masked, an iteration takes no interrupt, and interrupts stay masked unless it executes a CSR instruction, mret or sret |
| Invariants.MaskedRun | src/emulator.rs:47-93 | Over every run whose iterations execute none of those instructions interrupts stay masked |
| Invariants.DebugEntry | src/cpu.rs:3139-3175 | An instruction enters debug mode if and only if it is an mret that finds the reserved value 2 in MPP |
| Invariants.DebugIteration | src/emulator.rs:60-92 | Outside debug mode an iteration panics if and only if the disk access or the instruction does: no trap panics |
| Invariants.RunWithoutDebug | src/emulator.rs:47-93 | A run outside debug mode in which no mret finds 2 in MPP never enters it |
| Invariants.TimerInSyncAtEveryCheck | src/emulator.rs:60-66 | At the check of every iteration of every run, MTIP equals the comparison of mtime with mtimecmp |
| Invariants.PendingSurvives | src/emulator.rs:60-92 | A pending interrupt other than the timer survives every iteration that neither takes it nor executes a CSR instruction, mret or sret |
| Frames.StepQuiet | src/cpu.rs:594-3286 | Every instruction step but a CSR instruction, mret and sret keeps the mode, the paging cache and all CSRs but FCSR, and FCSR too if and only if it is not a division by zero that finds the flag clear |
| Frames.OperationKeepsCsrs | src/cpu.rs:1990-2276 | A register operation, of 64 or 32 bits, keeps all CSRs if and only if it is not a division by zero that finds the flag of FCSR clear |
| Invariants.RunKeeps | src/emulator.rs:47-93 | In every run that does not panic, through CSR instructions, traps, returns and ticks, x0 is zero and the paging cache agrees with SATP |
| Invariants.AgreementMeans | src/cpu.rs:371-385 | Agreement is: paging enabled iff SATP[63:60] is 8, and the root is SATP[43:0] times 4096 |
| Invariants.CsrKeeps | src/cpu.rs:3184-3276 | All six CSR instructions keep the cache in step with SATP |
| Reservations.ReservedIffLatestIsLr | src/cpu.rs:555-564 | In every run an address is in the reservation set if and only if, among its successful load-reserveds, processor stores and aligned store-conditionals, the latest is a load-reserved |
| Reservations.ExecuteEvent | src/cpu.rs:1206-3287 | Over every instruction word, the reservation set changes by the event of the instruction and not otherwise |
| Reservations.ScSucceedsIffReserved | src/cpu.rs:1632-1673 | An aligned sc stores and returns 0 exactly when the latest event at its address is an lr; otherwise it returns 1 and changes nothing else |
| Reservations.OneGrantOnly | src/cpu.rs:1602-1673 | However many load-reserveds came before, after one sc or store at the address the history reserves it to no one until a new lr |
| Reservations.ScInRun | src/cpu.rs:1632-1673 | In every run, an iteration that executes an aligned sc stores and returns 0 if the latest event of the run at its address was an lr, and otherwise returns 1 and changes nothing else |
| Reservations.GrantsAreSeparated | src/emulator.rs:47-93 | Two store-conditionals granted at one address in a run have a load-reserved of that address between them |
| Memory.Dram.Read | src/dram.rs:33-41 | The byte-by-byte reads of each width are the little-endian value of the bytes; outside the memory they panic |
| Memory.Dram.Write | src/dram.rs:44-53 | The byte-by-byte writes of each width replace exactly the bytes of the value, little-endian |
| Memory.Dram.Initialize | src/dram.rs:27-30 | The binary is copied to the start and the rest is kept; a binary that does not fit panics |
| SystemBus.ClintDevice.Read | src/devices/clint.rs:93-110 | Which register answers, with which bytes |
| SystemBus.ClintDevice.Write | src/devices/clint.rs:113-154 | Which register changes, with the 32-bit width of msip |
| ByteMap.SubReadIsBytes | src/devices/clint.rs:93-110 | A read inside a register is the little-endian value of the bytes it covers |
| ByteMap.SubWriteIsBytes | src/devices/clint.rs:113-154 | A write inside a register replaces exactly the bytes it covers |
| ByteMap.RegionWrite | src/devices/clint.rs:113-154 | A write inside DRAM or a register replaces the covered bytes of that region |
| ByteMap.MixedWidthsRefineBytes | src/dram.rs:33-122 | For every sequence of in-range accesses of 8, 16, 32 and 64 bits to DRAM and to the CLINT registers, each read equals the little-endian value in a byte store updated by the earlier writes |
| ByteMap.StoreOfRepresents | src/bus.rs:81-104 | Every bus has such a byte store |
| SystemBus.SystemBus.Read | src/bus.rs:81-91 | Address decoding with the inclusive range ends of the source |
| SystemBus.SystemBus.Write | src/bus.rs:94-104 | Address decoding for writes, which the ROM does not answer |
| VirtioBlk.DiskAccess | src/devices/virtio_blk.rs:371-472 | The disk access, with its byte-copy loops on the disk and on memory, computes the specified request, or fails when the specification does |
| VirtioBlk.WriteDisk | src/devices/virtio_blk.rs:438-444 | The loop from memory to disk, byte by byte, against the recursive copy |
| VirtioBlk.ReadDisk | src/devices/virtio_blk.rs:445-451 | The loop from disk to memory, byte by byte, against the recursive copy |
| VirtioBlk.NewDesc | src/devices/virtio_blk.rs:148-155 | The four fields of a descriptor, read in order |
| DiskLaws.CopyToDiskExact | src/devices/virtio_blk.rs:438-444 | The copy replaces exactly the bytes of the sector range by the bytes of the buffer |
| DiskLaws.CopyToMemoryExact | src/devices/virtio_blk.rs:445-451 | The copy replaces exactly the bytes of the buffer by the bytes of the sector range |
| DiskLaws.RequestOnDevice | src/devices/virtio_blk.rs:371-472 | A well-placed request succeeds; the disk changes by exactly len bytes at the sector for a write and not at all for a read, the id is the next, the interrupt is asserted, and no other register or device changes |
| DiskLaws.RequestInMemory | src/devices/virtio_blk.rs:371-472 | After it the buffer holds the disk bytes for a read and its own for a write, the status byte is 0 and the used index is the id modulo 8 |
| DiskLaws.RequestSparesTheRest | src/devices/virtio_blk.rs:371-472 | It changes no byte of memory but those of the buffer, the status and the used index |
| DiskLaws.WriteThenRead | src/devices/virtio_blk.rs:436-453 | What a write request put on the disk, a read request of the same sector and length brings back, into any buffer |
| DiskLaws.AccessesAreCounted | src/devices/virtio_blk.rs:352-355 | After n successful accesses the id is n modulo 2^64 and the used index just written is n modulo 8, across wrap-around |
| DiskRuns.RunCountsRequests | src/emulator.rs:47-93 | In every run the id has advanced by the number of requests served, modulo 2^64; nothing else moves it |
| Alu.MulhIsExact | src/cpu.rs:1921-1931 | mulh joined with mul is the exact signed 128-bit product |
| Alu.MulhuIsExact | src/cpu.rs:1971-1982 | mulhu joined with mul is the exact unsigned 128-bit product |
| Alu.MulhsuIsExact | src/cpu.rs:1946-1957 | mulhsu joined with mul is the exact product of a signed and an unsigned factor |
| Alu.MulhsuFromMulhu | src/cpu.rs:1946-1957 | mulhsu is mulhu less rs2 when rs1 is negative, modulo 2^64 |
| Alu.DivRem | src/cpu.rs:1990-2013 | For div and rem the dividend is q*b + r with r smaller than b in magnitude and r of the sign of the dividend, for every non-zero divisor but in the overflow case |
| Alu.DivRemOverflow | src/cpu.rs:1997-2013 | In the overflow case the quotient is the minimum, the remainder 0, and the equation holds modulo 2^64 |
| Alu.DivuRemu | src/cpu.rs:2026-2046 | The same for divu and remu |
| Alu.DivisionByZero | src/cpu.rs:1998-2003 | Division by zero gives all ones and the dividend |
| Alu.DivwRemw | src/cpu.rs:2170-2194 | The same for divw and remw on the low halves, sign-extended |
| Alu.DivwOverflow | src/cpu.rs:2170-2194 | The overflow case modulo 2^32 |
| Alu.DivuwRemuw | src/cpu.rs:2206-2226 | The same for divuw and remuw on the unsigned low halves, with the results sign-extended |
| Alu.WordDivisionByZero | src/cpu.rs:2235-2276 | remw and remuw by zero return the whole dividend: the sign-extended low half exactly when the dividend is a 32-bit number |
| Comparisons.BranchMeaning | src/cpu.rs:2973-3034 | beq, bne, blt, bge, bltu and bgeu branch on the signed or unsigned numbers in their registers, for all operands |
| Comparisons.SetLessMeaning | src/cpu.rs:1347-1366 | slt and sltu and their immediate forms compare signed and unsigned numbers |
| Comparisons.AmoExtremes | src/cpu.rs:1774-1880 | amomin.d, amomax.d, amominu.d and amomaxu.d store one of the two words, the least or greatest in the reading they are named after |
| Emulator.Emulator.Iterate | src/emulator.rs:60-92 | One iteration on the objects is one step of the specification, and keeps what every run keeps |
| Emulator.Emulator.Start | src/emulator.rs:47-95 | The loop computes the run of the specification over the given iterations, with the 10000-iteration limit of tests |
| EmulatorStep.RunOneMore | src/emulator.rs:47-95 | A run one iteration longer is the run and then the iteration, unless it had ended |
| Registers.XRegisters.Write | src/cpu.rs:103-108 | Register x0 cannot be written |

## Left out

- Cpu.Cpu.ExecuteGeneral: does not model floating-point arithmetic, conversions, compares and
  classification; each such instruction writes what the environment gives, or is illegal. Loads and
  stores of double words move raw bits.
- Cpu.Cpu.CheckPendingInterrupt: does not model the write of the interrupt number to the PLIC, which is
  always a word inside its threshold registers and so cannot fail, nor what the PLIC then answers.
- UART, ROM and device tree: their answers are inputs of each iteration.
- PLIC claim and completion: an interrupting device sets the supervisor external bit and nothing else.
- Which reads and writes of the ROM, PLIC, UART and remaining virtio registers panic (such as
  `device_features` with a selector above 1): the environment says so for each iteration.
- Virtio registers other than those the disk access reads (features, queue selection, status,
  configuration): their answers are inputs of each iteration.
- The layout of the available ring: the head index is taken as the code computes it, with no claim
  that it matches section 2.6.6 of VIRTIO 1.1.
- `Cpu::reset` and `State::reset`: they leave the paging cache and the reservations behind, so runs
  start from a new processor.
- Command line, wasm and JavaScript front ends, `Display`, debug output and instruction counting.
- `to_range`: the ranges the code uses are given as half-open pairs below 64 and as `60..`.
- Emulator.Emulator.Start: the source loops until a fatal trap; here the loop also ends when the given
  sequence of environments does, and its second iteration limit, for instruction counting, is absent.
- DiskLaws.RequestOnDevice: says nothing of requests whose status byte, header, buffer and used index
  overlap; `VirtioBlk.DiskAccess` still computes them.
- DiskLaws.WriteThenRead: assumes that the disk is not touched between the two requests.
- Reservations.ReservedIffLatestIsLr: covers stores of the processor; the disk writes memory directly
  and drops no reservation, as in the source.
- TrapLaws.NestedTrapsUnwind: is about interrupts; an exception returns to the pc four bytes back.
- ByteMap.MixedWidthsRefineBytes: is about accesses inside one register or inside memory; accesses
  across the end of a register are modelled by `ClintRead` and `ClintWrite` as the source has them.
- PreciseExceptions.ExceptionsArePrecise: the reservation that a failing store drops stays dropped.
- Fetching at an odd or page-crossing pc: both halves are read at the translation of the first byte,
  as in the source; no claim is made that this is right.
- Instruction and data caches, fences, multiple harts and timing: the source has none.
