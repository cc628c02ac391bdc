# A dynamic binary translator, its address translation and its device handshake

The hypervisor runs a MIPS64 guest on a MIPS64 host by translating guest blocks into host words that keep the guest's
registers in memory slots. This project models four parts of it and proves what they are for.

**The block translator** (`Words`, `Instructions`, `Decoder`, `Machine`, `HostMachine`, `Emitters`, `Translator`,
`CodeBuffer`, `GuestMachine`, `HostSteps`, `Simulation`, `Faithfulness`, `MaddSimulation`, `BlockSimulation`, `Exactness`,
`ControlSimulation`, `ControlExactness`, `BlockTranslation`, `TranslatedCode`, `PreciseState`, `ProgramRuns`, `PageFix`,
`LinkedAccess`). `GuestMachine` is a reference interpreter on the guest's registers, after the architecture manual;
`HostMachine` runs host code on slots and host memory. Both share one interpretation of the architecture's operations, of
which the proofs use only the few operations the emitted code itself relies on. The C++ side behind the call-outs is an
arbitrary function of the history of call-outs, and leaves anything in the host's own registers, so the theorems hold for
every TLB, cache and device behaviour. `Emitters` says what each handler appends; `Translator` appends it to the growable
buffer. The main results are `BlockSimulated`, its word-level form `TranslatedBlockRuns`, `ProgramSimulated` over whole runs,
`HostLeavesPrecisely`, `HostCallsPrecise`, `EmittedAfterRun` and `TwoBlocksRun`.

**Address translation** (`Cp0`, `Mmu`, `Tlb`, `TlbProperties`, `RegionMap`, `Dram`, `AddressCache`, `Coherence`,
`Processor`, `TlbUnit`). The page cache agrees with segments, TLB and region map over every run; a refill makes progress; page
arithmetic is exact. What a TLB write, a CP0 write, the privilege check and the static mapping do is also stated on register
bits and address ranges alone (`WrittenTranslates`, `WriteLeaves`, `AllowedExactly`, `StaticExactly`).

**Exceptions and the block cache** (`Exceptions`, `EbaseWrite`, `BlockCache`, `Fetch`). Entry and `eret` nest twice and no
deeper; the vector is always fetchable, and what an entry leaves is stated in numbers (`EntersBy`); `fetchNextBlock` runs the last translation of a PC and ASID, or makes exactly that
of the block it finds.

**The message box** (`Handshake`). One core and one device as interleaved steps.

Where the code does not do what the architecture asks, the code is modelled, the exact condition is proved, and an input
that fails is given:

- `eret` in user mode, with a link open or with Status bit 16 set (`EretExactly`, `EretFails`): the emitted code checks no
  privilege, does not close the link and clears bit 16.
- `sc` and `scd` (`ConditionalExactly`, `ProtectionExact`, `WritesReadOnlyPage`, `WritesOldMapping`): the emitted code does
  not translate the address; it writes where the last access went, whether or not the page may be written or is still
  there. What a program can see before the `sc` is the protection slot: 1 means the page may be written. After a load that
  went through the TLB or a static mapping, 0 means it may not. A load that hit the page cache also leaves 0, so there 0
  says nothing.
- `maddu` and `msubu` (`UnsignedExact`, `UnsignedFails`): the multiplication is signed.
- destination $0 (`SupportedExactly`, `ZeroRegisterFails`, `LoadFails`, `ConditionalZeroFails`, `LinkToExactly`): not tested.
- the link before the read (`LinkExactly`, `LinkFirstFails`), branch offsets (`BranchExact`, `FarBranchFails`), jump regions
  (`JumpExact`, `RegionJumpFails`), bit 16 of EBase (`EbaseExact`, `EbaseFails`).
- Wired (`RandomIndexInTable`, `WiredTooHigh`), the region of a read-back entry (`ReadThenWrite`, `RegionThreeIsLost`), the
  Cause code of an invalid page (`InvalidPageCause`, `LoadReportedAsStore`), memory above 16.25 GB (`PlanDistinct`,
  `OneBlockTooMany`), Status bits across an exception (`ReturnedExact`, `ErlIsLost`).

The conditions on states are collected in `Exact` for one instruction, `ControlExact` for a control instruction with its
delay slot and `BlockExact` along a block; the block and program theorems hold wherever these do, and `StepExactly` shows
that a single instruction goes wrong everywhere else.

Comments in the source call the shift pair in `CP0_IPE::ReservedBits` a sign extension; on an unsigned value it clears
the upper half, and the model follows the code. `fixBlock` divides the byte distance from the block start to the page
boundary by 4; `FixBlock` takes the same number as the instructions before the control instruction less those of them
in the last page.

A value of a register is 64 bits wide. Host addresses, sizes and physical addresses in the region map are unbounded
numbers; a 64-bit guest address becomes one through `ToNat`.

## Model

| member | source | states |
|---|---|---|
| `Instructions.ParseEncode` | Translation_IPE.cpp:7-13 | parsing the word the encoding macros build gives every field of the instruction back |
| `Instructions.EncodeParse` | IInfo.cpp:17-53 | encoding the parsed fields of any 32-bit word gives the word back, whatever its format |
| `Instructions.FieldPlaces` | IInfo.cpp:17-53 | where each field lies, counted in bits of the word, for every opcode |
| `Decoder.ControlAgreesWithDispatch` | IInfo.cpp:55-136 | a handler reads the delay-slot argument exactly for the words classified as control, coprocessor branches and the rotate pattern of opcode 1 excepted |
| `Decoder.NoMissingSlot` | BlockTranslation_IPE.cpp:26-33 | in a block as cut, with a control-free delay slot, every instruction translated without a slot has a handler that needs none |
| `Decoder.InstBlock.GetBlock` | InstBlock.cpp:10-28 | the block is the parsed words up to the first control instruction and the one word after it |
| `HostSteps.RunBranch` | Translation_IPE.cpp:1243-1367 | a branch whose offset is one more than the length of the path behind its delay slot skips exactly that path |
| `Simulation.UnprevRRuns` | Translation_IPE.cpp:546-570 | a three-register operation leaves the slots as the instruction leaves the guest, a $0 destination included |
| `Simulation.RunShiftR` | Translation_IPE.cpp:572-583 | exactly the destination slot changes, to the shifted value of the source slot |
| `Simulation.RunMulDivR` | Translation_IPE.cpp:585-600 | exactly the HI and LO slots change, to the two halves the operation gives |
| `Simulation.MoveFromRuns` | Translation_IPE.cpp:643-661 | mfhi and mflo, a $0 destination included |
| `Simulation.RunExtR` | Translation_IPE.cpp:680-692 | exactly the slot of rt changes, to the extracted field |
| `Simulation.RunInsR` | Translation_IPE.cpp:694-707 | exactly the slot of rt changes; the old value of rt takes part |
| `Simulation.RunUnprevI` | Translation_IPE.cpp:709-727 | exactly the slot of rt changes; lui reads $0 |
| `Simulation.AddressCallRuns` | Translation_IPE.cpp:729-763 | the call-out carries PC, address, direction and store data; a mapping comes back into the slots, a refusal ends the block with the link broken and nothing else changed |
| `Simulation.LoadRuns` | Translation_IPE.cpp:765-781 | every load, unaligned forms included, against translate-then-load |
| `Simulation.StoreRuns` | Translation_IPE.cpp:783-791 | every store against translate-then-store |
| `Simulation.LinkedRuns` | Translation_IPE.cpp:849-903 | ll and lld: the link is open, data and address are recorded |
| `Simulation.ConditionalRuns` | Translation_IPE.cpp:793-847 | sc and scd: all paths through the three skips end in the common tail, with the guest result, wherever ConditionalExact holds |
| `Simulation.TeqTneRuns` | Translation_IPE.cpp:442-463 | teq and tne leave for the C++ side exactly when the registers say so |
| `Simulation.TeqiTneiRuns` | Translation_IPE.cpp:495-514 | teqi and tnei likewise, with the sign-extended immediate |
| `Simulation.RequestRuns` | Translation_IPE.cpp:1485-1493 | syscall and break leave with their mark and the guest state untouched |
| `Simulation.PrivilegeRuns` | Translation_IPE.cpp:32-52 | the check leaves with a reserved-instruction mark exactly in user mode with EXL and ERL clear |
| `Simulation.TlbOpRuns` | Translation_IPE.cpp:356-397 | TLB instructions: the privilege check, then one request whose answer becomes the CP0 slots |
| `Simulation.RunEret` | Translation_IPE.cpp:1542-1578 | in every state the emitted eret leaves with the PC from ErrorEPC if ERL was set, else from EPC, clears ERL or EXL and with it Status bit 16, and leaves the link and everything else as it was |
| `Faithfulness.EretExactly` | Translation_IPE.cpp:1542-1578 | the emitted eret does what the architecture asks if and only if the mode is not user, Status bit 16 is clear and no link is open |
| `Faithfulness.EretFails` | Translation_IPE.cpp:1542-1578 | three states in which it does not: user mode, an open link, bit 16 set |
| `Faithfulness.ConditionalExactly` | Translation_IPE.cpp:793-847 | the emitted sc and scd do what the architecture asks if and only if a store to the address would be let through and, where the link holds, goes to the place of the last access and rt is not $0 |
| `MaddSimulation.RunMadd` | Translation_IPE.cpp:602-641 | the 21 emitted words add to or subtract from HI:LO the signed 64-bit product and write sign-extended halves back, whichever of the four functions they stand for |
| `MaddSimulation.MaddRuns` | Translation_IPE.cpp:602-641 | madd and msub on the guest accumulator |
| `MaddSimulation.ProductExact` | Translation_IPE.cpp:602-641 | for exactly these operands the signed and the unsigned product agree modulo 2^64 |
| `MaddSimulation.UnsignedExact` | Translation_IPE.cpp:602-641 | the emitted maddu and msubu do what the architecture asks if and only if both words are below 2^31, one is 0, or both are 2^31 |
| `MaddSimulation.UnsignedFails` | Translation_IPE.cpp:602-641 | maddu on two words of all ones goes wrong |
| `BlockSimulation.StepSimulated` | InsDecoding.cpp:387-397 | instruction simulation for every supported instruction where Exact holds, every ALU interpretation and every behaviour of the C++ side |
| `Exactness.StepExactly` | InsDecoding.cpp:387-397 | the emitted code of a supported instruction is right in a state if and only if Exact holds there |
| `Exactness.SupportedExactly` | InsDecoding.cpp:387-446 | of the instructions the reference describes, the supported ones are exactly those whose emitted code is right in every state where Exact holds, under every ALU interpretation and every behaviour of the C++ side |
| `Exactness.ZeroRegisterFails` | Translation_IPE.cpp:572-727 | one instruction to $0 for each handler that does not test for it, with a state in which its code is wrong |
| `Exactness.LoadFails` | Translation_IPE.cpp:774-777 | a load to $0 skips the translation and with it the fault, in every state |
| `Exactness.ConditionalZeroFails` | Translation_IPE.cpp:793-847 | sc to $0 corrupts register $0 exactly when the link holds |
| `ControlSimulation.BranchExact` | Translation_IPE.cpp:1046-1069 | the displacement the taken end adds is the architectural one if and only if the offset lies between -8193 and 8190; then the stored PC is the branch target |
| `ControlExactness.FarBranchFails` | Translation_IPE.cpp:1046-1069 | the emitted words of a branch with offset 8191, in every state at one address |
| `ControlSimulation.DecisionRuns` | Translation_IPE.cpp:1243-1329 | the skip of 7 lands on the taken end; each end stores its PC and leaves |
| `ControlSimulation.LikelyChoice` | Translation_IPE.cpp:1331-1367 | the skip of 9 lands on the delay slot of the taken path |
| `ControlSimulation.BneBeqRuns` | Translation_IPE.cpp:1243-1280 | beq and bne decide on the registers as they were before the delay slot, whatever its length |
| `ControlSimulation.BranchRuns` | Translation_IPE.cpp:1282-1329 | branches on one register and bbit, with the link they write first |
| `ControlSimulation.BneBeqLikelyRuns` | Translation_IPE.cpp:1331-1348 | the delay slot runs if and only if the branch is taken |
| `ControlSimulation.BranchLikelyRuns` | Translation_IPE.cpp:1350-1367 | the same for one-register likely branches, with link |
| `ControlSimulation.JumpExact` | Translation_IPE.cpp:1378-1401 | the target built at translation time is the architectural one if and only if the delay slot lies in the sign-extended 256 MB region of the low word of the PC |
| `ControlExactness.RegionJumpFails` | Translation_IPE.cpp:1378-1401 | the emitted words of a jump at 0x0FFF_FFFC, in every state |
| `ControlSimulation.JumpRuns` | Translation_IPE.cpp:1378-1428 | j and jal: lui and ori rebuild the target word after the delay slot |
| `ControlSimulation.JumpRegRuns` | Translation_IPE.cpp:1430-1483 | jr and jalr go where the register pointed before the delay slot and after the link |
| `ControlSimulation.ControlSimulated` | Translation_IPE.cpp:1243-1483 | every supported control instruction with every supported delay slot, wherever the order of link and read does not matter and the slot is exact |
| `ControlExactness.LinkExactly` | Translation_IPE.cpp:1282-1483 | link branches and jalr write the link before they read their register: the code is right if and only if they read another register, decide alike on the old value and the link, jump to the link address, or branch to the next block anyway |
| `ControlExactness.LinkFirstFails` | Translation_IPE.cpp:1300-1329 | the emitted words of bltzal $31 with $31 = 0 in the kernel, in every such state |
| `ControlExactness.LinkToExactly` | Translation_IPE.cpp:1454-1462 | the link step is right if and only if it does not put an address other than 0 into the slot of $0 |
| `ControlExactness.LinkToZeroFails` | Translation_IPE.cpp:1454-1462 | jalr to $0 |
| `BlockTranslation.UpdatePcRuns` | Translation_IPE.cpp:24-31 | the PC slot moves on by 4 and nothing else changes |
| `BlockTranslation.TerminateRuns` | Translation_IPE.cpp:1600-1608 | the terminator leaves with the state, PC included, as it is |
| `BlockTranslation.BlockSimulated` | BlockTranslation_IPE.cpp:20-33 | block simulation: the emitted code of a whole block, exact along the run, leaves where, and with exactly the state, the reference guest leaves it |
| `TranslatedCode.ParsedEncoded` | Translation_IPE.cpp:7-13 | the words in the buffer read back as the instructions the emitters meant |
| `TranslatedCode.BlockCodeWellFormed` | BlockTranslation_IPE.cpp:20-33 | every emitted field of every block fits its bit-field |
| `TranslatedCode.TranslatedBlockRuns` | BlockTranslation_IPE.cpp:20-33 | block simulation for the words in the buffer |
| `PreciseState.HostLeavesPrecisely` | Processor_IPE.cpp:487-514 | the words in the buffer, left because of an access, trap or call, have run exactly n instructions: the PC slot is start + 4n, and the register, CP0, HI and LO slots and memory are those after n instructions, but for the link of a branch whose delay slot leaves |
| `PreciseState.HostCallsPrecise` | Translation_IPE.cpp:729-763 | every call-out the words make carries the PC of the instruction that makes it and all 34 registers as they are before it |
| `ProgramRuns.ProgramSimulated` | Processor_IPE.cpp:432-484 | program simulation: over every run of blocks, with arbitrary handling in between that may differ from step to step (exceptions, interrupts, timers), the hypervisor does what the reference guest does |
| `Translator.PushLoad` | Translation_IPE.cpp:765-781 | appends the call-out and the load, or one nop for $0 |
| `Translator.PushLoadLinked` | Translation_IPE.cpp:849-903 | appends the linked load; for $0 without an address |
| `Translator.PushBneBeq` | Translation_IPE.cpp:1243-1280 | appends the translation with that of the delay slot between save and decision |
| `Translator.PushBranchLikely` | Translation_IPE.cpp:1350-1367 | appends the translation with the delay slot on the taken path only |
| `Translator.PushJump` | Translation_IPE.cpp:1378-1428 | appends the jump with the target fixed from the block end |
| `Translator.FindInstrCase` | InsDecoding.cpp:387-446 | appends the code of one instruction; the delay slot is translated by the same method without a slot of its own |
| `Translator.DoBlockTranslation` | BlockTranslation_IPE.cpp:20-33 | appends exactly the code that is proved to simulate the block |
| `CodeBuffer.CapacityIsPower` | TranslationBlock.cpp:88-98 | the capacities of the invariant are exactly 2048 * 2^k |
| `CodeBuffer.TranslationBlock.constructor` | TranslationBlock.cpp:8-15 | an empty buffer of 2048 words |
| `CodeBuffer.TranslationBlock.PushBack` | TranslationBlock.h:41-50 | one word more; the cursor, the spare word and the bound on the capacity survive every expansion |
| `CodeBuffer.TranslationBlock.ExpandBlock` | TranslationBlock.cpp:88-98 | twice the capacity, the same words, the cursor behind them |
| `CodeBuffer.TranslationBlock.Clear` | TranslationBlock.cpp:69-81 | empty again, at the initial capacity |
| `PageFix.BackToPage` | Processor_IPE.cpp:538-543 | the boundary of the page an address lies in, counted in words from the start of the walk |
| `PageFix.CutAt` | Processor_IPE.cpp:538-563 | the erase, and both ways of ending what is left |
| `PageFix.FixBlock` | Processor_IPE.cpp:465-473 | for every block that crosses a page: at least one instruction stays, the cut is at the boundary of the last page, and the delay-slot path is not taken |
| `PageFix.CutKeeps` | Processor_IPE.cpp:465-471 | a user block whose control instruction is in another page than its start keeps no instruction of that page, and only instructions of its first page if and only if the two are neighbours |
| `PageFix.CutExample` | Processor_IPE.cpp:538-551 | the user block at 0x0040_0FF8 with its control instruction at 0x0040_1004 becomes its first two instructions and the terminator |
| `PageFix.CutRuns` | Processor_IPE.cpp:538-551 | running the cut block and then the rest equals running the block |
| `PageFix.TwoBlocksRun` | Processor_IPE.cpp:465-478 | the same for the translated code of both parts; the first hands over with the PC at the page boundary |
| `LinkedAccess.LinkAfterRun` | Translation_IPE.cpp:793-903 | after ll and any run of instructions with anything in between that keeps the monitor, the link holds if and only if no sc ran, no eret returned and no access was refused since, the last access was to the address of the sc, and the word there is the one ll loaded |
| `LinkedAccess.EmittedAfterRun` | Translation_IPE.cpp:793-847 | after such a run the emitted words of sc write memory and report 1 under exactly this condition, and else leave memory alone and report 0 |
| `LinkedAccess.ProtectionExact` | Translation_IPE.cpp:793-847 | directly after an access, with the link holding: the emitted sc is right if and only if the protection slot says the page may be written and rt is not $0 |
| `LinkedAccess.LinkedJustAccessed` | Translation_IPE.cpp:849-903 | ll leaves a state in which the protection slot is what its access was told |
| `LinkedAccess.WritesReadOnlyPage` | Translation_IPE.cpp:793-903 | the emitted words of ll and sc write a page that may only be read, where the architecture stops |
| `LinkedAccess.WritesOldMapping` | Translation_IPE.cpp:793-847 | the emitted sc writes where the page was before it was remapped |
| `Cp0.CP0.Write` | CP0_IPE.h:245-247 | exactly one register changes, to what its reserved bits let through |
| `Cp0.CP0.GetKSU` | CP0_IPE.h:201-211 | kernel mode whenever EXL or ERL is set |
| `Cp0.CP0.IsInterruptPending` | CP0_IPE.h:218-226 | only with IE set, EXL and ERL clear, and an unmasked cause |
| `Cp0.ReservedBitsTwice` | CP0_IPE.cpp:188-301 | writing back what a write left changes no register |
| `Cp0.WriteLeaves` | CP0_IPE.cpp:188-301 | what a write leaves in each register, as arithmetic on the value written |
| `Cp0.ModeBits` | CP0_IPE.h:201-211 | which bits of Status make the mode kernel, supervisor or user |
| `Cp0.PendingExactly` | CP0_IPE.h:218-226 | an interrupt is pending if and only if one of the bits 15 to 8 is set in both Status and Cause, IE is set, and EXL and ERL are clear |
| `Exceptions.PerformException` | ExceptionHandler_IPE.cpp:12-87 | the complete new CP0 state and the vector in numbers: base from BEV and EBase, 0x80 for a refill with EXL clear, 0x200 for an interrupt with IV, else 0x180; the type in bits 6 to 2 of Cause; BadVAddr, the PC register and the Status bit of the level; everything else kept; nothing for an unknown type |
| `Exceptions.TlbExcep` | ExceptionHandler_IPE.cpp:97-118 | the faulting page in EntryHi, XContext and Context, in numbers, and then the same entry |
| `Exceptions.EnteredExactly` | ExceptionHandler_IPE.cpp:12-87 | every entry to an exception, by whatever path, is the one those numbers describe, and exists exactly for types 0 to 5 and 8 to 14 |
| `Exceptions.LocatedExactly` | ExceptionHandler_IPE.cpp:97-118 | which bits of the faulting address go where in the three registers, and what of the registers stays |
| `Exceptions.CauseHoldsCode` | ExceptionHandler_IPE.cpp:50-53 | the exception code is in its field and the rest of Cause is kept |
| `EbaseWrite.RunWriteEbase` | Translation_IPE.cpp:291-304 | the emitted mtc0 changes only EBase, and whatever is written leaves it below 1 GB of kseg0 and kseg1, on a 4 KB boundary but for the core number |
| `EbaseWrite.EbaseExact` | Translation_IPE.cpp:296-303 | the words keep the base address if and only if its bit 16 is 0 |
| `EbaseWrite.EbaseFails` | Translation_IPE.cpp:296-303 | writing 0x8001_0000 leaves 0x8000_0000 |
| `Exceptions.EbaseAlwaysOk` | CP0_IPE.cpp:272-282 | the same for the initial EBase and for every C++ write |
| `Exceptions.VectorFetchable` | ExceptionHandler_IPE.cpp:55-87 | for every exception, mode and reachable EBase the vector is an aligned kseg0 or kseg1 address that needs no TLB |
| `Exceptions.EnteredRegs` | ExceptionHandler_IPE.cpp:75-86 | the first level saves the PC in EPC, the second in ErrorEPC, and neither touches the other |
| `Exceptions.ReturnedExact` | Translation_IPE.cpp:1542-1578 | Status survives an exception and its eret if and only if ERL was clear and only writable bits were set |
| `Exceptions.EretUndoesException` | Translation_IPE.cpp:1542-1578 | PC and Status both come back, by the emitted eret as by the architecture, under the same condition, whatever the handler did elsewhere |
| `Exceptions.ErlIsLost` | ExceptionHandler_IPE.cpp:75-86 | an exception taken with ERL set: the emitted eret goes to the old ErrorEPC |
| `Exceptions.NestedExceptionsUnwind` | Translation_IPE.cpp:1542-1578 | two nested exceptions unwind in last-in-first-out order |
| `Exceptions.ThreeLevelsDoNotUnwind` | ExceptionHandler_IPE.cpp:75-86 | a third level loses the second |
| `Exceptions.HandlerIsKernel` | CP0_IPE.h:201-226 | between entry and eret: kernel mode and no interrupt |
| `Mmu.StaticLinear` | MMU_IPE.cpp:188-239 | a 4 KB page bypasses the TLB as a whole, at constant distance |
| `Mmu.AllowedExactly` | MMU_IPE.cpp:93-133 | user mode may use exactly three address ranges, supervisor mode none, and kernel mode all but the three holes of the 64-bit space |
| `Mmu.StaticExactly` | MMU_IPE.cpp:188-239 | which address ranges bypass the TLB, with and without ERL, and the physical address of each |
| `TlbUnit.TLB.GVAtoGPA` | TLB_IPE.cpp:102-145 | the first match decides; the shared load/store cell takes the D bit before the exception reads it; a fault enters the exception |
| `TlbUnit.TLB.TlbRandom` | TLB_IPE.cpp:309-320 | the entry at the random index becomes the one of the CP0 registers and maps as they say (MapsAsWritten: from PageMask, EntryHi and EntryLo alone); an index past the table leaves every entry |
| `TlbUnit.TLB.TlbWriteIndex` | TLB_IPE.cpp:323-328 | the indexed entry becomes the one of the CP0 registers and maps as they say: an address of its pair goes to the frame number of its EntryLo times 4096 plus the address inside the page; nothing else changes |
| `TlbUnit.TLB.TlbRead` | TLB_IPE.cpp:331-333 | the four registers of the indexed entry |
| `Tlb.RandomIndexInTable` | TLB_IPE.cpp:309-320 | the index stays in the table for every random number if and only if Wired is at most 32, and never falls below Wired |
| `Tlb.ResetMatchesNothing` | TLB_IPE.cpp:82-94 | a reset entry is found for no address under any ASID |
| `Tlb.SixBitsExactly` | TLB_IPE.cpp:182-194 | an index and the number of wired entries are the register modulo 64 |
| `TlbUnit.TLB.WiredTooHigh` | TLB_IPE.cpp:309-320 | with Wired 33 a tlbwr is lost at index 65 |
| `TlbProperties.PageArithmetic` | TLB_IPE.cpp:116-133 | the or is an addition: the frame above, the page offset of the virtual address below |
| `TlbProperties.PageInjective` | TLB_IPE.cpp:116-133 | within a page, physical addresses differ exactly where offsets do |
| `TlbProperties.OddIsPageSizeBit` | TLB_IPE.cpp:123-123 | for a pair mask 2^m - 1, m up to 33, the popcount shift selects bit m - 1 |
| `TlbProperties.SelectsExactly` | TLB_IPE.cpp:105-121 | a written entry is found exactly for the addresses of its pair, under its own ASID or, if bit 0 of both EntryLo is set, under any |
| `TlbProperties.WrittenTranslates` | TLB_IPE.cpp:55-83 | after a TLB write with an architectural page mask, if no other entry matches: the physical address is EntryLo / 64 * 4096 without the page-offset bits plus the address inside the page; a load needs bit 1 of that EntryLo, a store bits 1 and 2 |
| `TlbProperties.EntryFramesClear` | TLB_IPE.cpp:59-80 | a written entry has no frame bits below its page size, for every page mask |
| `TlbProperties.RefilledMatches` | ExceptionHandler_IPE.cpp:97-107 | the entry written after a fault matches the faulting address, whatever page size was chosen |
| `TlbProperties.RefillProgress` | TLB_IPE.cpp:102-145 | after the refill the same access succeeds if and only if the selected half has V (and D for a store), whatever the other entries hold |
| `TlbProperties.InvalidPageCause` | TLB_IPE.cpp:125-141 | the Cause code of an invalid page names the kind of access if and only if the D bit of the page happens to agree with it |
| `TlbProperties.LoadReportedAsStore` | TLB_IPE.cpp:125-141 | a load from an invalid page with D set enters the exception with the code of a store |
| `TlbProperties.WriteThenRead` | TLB_IPE.cpp:237-242 | tlbr after a write gives PageMask and both EntryLo exactly, and EntryHi without region and reserved bits |
| `TlbProperties.ReadThenWrite` | TLB_IPE.cpp:33-35 | writing a read entry back keeps it if and only if it lies in region 0 |
| `TlbProperties.RegionThreeIsLost` | TLB_IPE.cpp:33-35 | an entry of region 3 comes back as one of region 0 |
| `TlbProperties.SamePageOdd` | TLB_IPE.cpp:123-123 | addresses of one 4 KB page select the same half, for every page mask |
| `RegionMap.GpaMap.FindIndex` | GPAtoHVATranslator_IPE.cpp:215-223 | the first device section that holds the address |
| `RegionMap.GpaMap.GpaToHva` | GPAtoHVATranslator_IPE.cpp:29-50 | the mapped block plus offset; a missing device block is mapped once, and the mappings stay disjoint; no result exactly for an unmapped block outside every device section |
| `RegionMap.HvaStable` | GPAtoHVATranslator_IPE.cpp:29-50 | over any run of lookups an address keeps its host address |
| `RegionMap.HvaInjective` | GPAtoHVATranslator_IPE.cpp:86-97 | different backed addresses never share a host address |
| `RegionMap.HvaLinear` | GPAtoHVATranslator_IPE.cpp:86-97 | no 4 KB page straddles two blocks |
| `RegionMap.SectionsWellPlaced` | GPAMap_IPE.h:55-200 | device sections start on 128 MB boundaries and larger ones are whole blocks |
| `RegionMap.ListedBacked` | GPAtoHVATranslator_IPE.cpp:195-223 | a lookup inside a listed section finds one, and the mapping it makes backs the address |
| `Dram.AllocDram` | GPAtoHVATranslator_IPE.cpp:140-172 | succeeds if and only if there is more than 256 MB, and installs exactly the planned mappings |
| `Dram.PlanTotal` | GPAtoHVATranslator_IPE.cpp:140-172 | the DR0, DR1 and DR2 mappings add up to the memory size |
| `Dram.PlanAligned` | GPAtoHVATranslator_IPE.cpp:140-172 | every mapping starts on a 256 MB boundary and fits one block |
| `Dram.PlanDistinct` | GPAtoHVATranslator_IPE.cpp:140-172 | no mapping replaces another if and only if the memory is at most 16.25 GB |
| `Dram.OneBlockTooMany` | GPAtoHVATranslator_IPE.cpp:140-172 | with 16.5 GB the mapping of DR1 is replaced by one of DR2 |
| `Dram.BackedExactly` | GPAtoHVATranslator_IPE.cpp:140-172 | exactly which physical addresses are backed |
| `Dram.BootedMapSound` | GPAtoHVATranslator_IPE.cpp:140-187 | from boot through any run of lookups host addresses are stable, and memory and devices never share one |
| `AddressCache.AddrTranslationCache.CheckCache` | AddrTranslationCache.h:60-68 | a hit is an entry for this page that allows the access |
| `AddressCache.AddrTranslationCache.UpdateCache` | AddrTranslationCache.cpp:32-42 | one entry, holding the start of the page |
| `AddressCache.AddrTranslationCache.ClearCache` | AddrTranslationCache.cpp:49-58 | every entry holds a key no page has |
| `AddressCache.ToNatAdds` | AddrTranslationCache.h:60-68 | page start plus offset as numbers |
| `AddressCache.ToNatInjective` | AddrTranslationCache.h:60-68 | different addresses are different numbers |
| `Coherence.SlowLinear` | GVAtoHVATranslation_IPE.cpp:6-24 | static mapping and TLB map a 4 KB page alike |
| `Coherence.StoreNeedsWritable` | TLB_IPE.cpp:125-131 | a store translates exactly where a load does and D is set |
| `Coherence.HitAgrees` | AddrTranslationCache.h:60-68 | in a coherent state a hit is the address of the slow path, and a store never hits a clean page |
| `Coherence.RefillTranslates` | ExceptionHandler_IPE.cpp:97-118 | after a miss and the TLB write of its handler the slow path maps the address to the frame number in the EntryLo of the page times 4096 plus the address inside the page, if and only if bit 1 of that EntryLo (and bit 2, for a store) is set |
| `Coherence.StepCoherent` | Processor_IPE.cpp:333-371 | translations, TLB writes and EntryHi changes keep the cache coherent |
| `Coherence.RunCoherent` | Processor_IPE.cpp:516-536 | coherence over every run with ERL constant |
| `Processor.Processor.GVAtoGPA` | MMU_IPE.cpp:16-45 | succeeds if and only if the mode may use the address, by ranges (MayAccess), and the slow path maps it; else the exception recorded is the address error of the access or the fault of the TLB with the page filed, and the guest is at its vector |
| `Processor.Processor.AddrTranslation` | Processor_IPE.cpp:516-536 | cache, scratch segment, slow path with fill, or the exception that records what failed, as one step of the coherence run |
| `Processor.Processor.FetchAddress` | Processor_IPE.cpp:446-455 | the PC stays and no register changes if and only if it can be translated; else the exception is recorded, and the translation of its vector never faults |
| `Processor.CvmsegExactly` | Processor_IPE.cpp:521-524 | the range of the scratch memory, and the offset into it |
| `Processor.Processor.TlbWriteI` | Processor_IPE.cpp:333-339 | as one step of the coherence run |
| `Processor.Processor.TlbWrite` | Processor_IPE.cpp:356-362 | as one step of the coherence run, or only a cleared cache where the entry is lost |
| `Processor.Processor.WriteEntryHi` | Processor_IPE.cpp:364-371 | as one step of the coherence run |
| `BlockCache.TranslatedBlockCache.constructor` | TranslatedBlockCache_IPE.cpp:15-29 | every slot is valid with nothing installed |
| `BlockCache.TranslatedBlockCache.DoesExist` | TranslatedBlockCache_IPE.h:86-96 | a hit for a non-zero PC has the words and the block end of the last translation installed for this PC and ASID |
| `BlockCache.TranslatedBlockCache.PutInCache` | TranslatedBlockCache_IPE.cpp:54-67 | one slot is named and holds the words and the block end; every other block keeps its translation |
| `BlockCache.TranslatedBlockCache.Install` | Processor_IPE.cpp:463-474 | exactly the code of the block, and the address of the control instruction that was read as block end, become the translation of its PC and ASID; every other block keeps its own |
| `BlockCache.InstalledRuns` | Processor_IPE.cpp:438-445 | the words of any hit or miss, run with the block end of that hit or miss in its slot, do what the guest does on the block that was read, up to the cut |
| `Fetch.FetchNextBlock` | Processor_IPE.cpp:432-484 | a hit runs the last translation of the PC and ASID with its block end; a miss translates the PC, or the vector if that faults, reads the block there, keeps it whole in kernel mode or within one page and else cuts it at the start of the page of its control instruction, and installs and runs exactly its code; the block end is start + 4 (n - 2) of the n instructions read, on hit and miss |
| `BlockCache.InitialMisses` | TranslatedBlockCache_IPE.cpp:15-29 | a fresh slot matches no non-zero PC |
| `BlockCache.SlotShared` | TranslatedBlockCache_IPE.h:70-77 | two aligned PCs share a slot if and only if they agree modulo 2^15 |
| `Handshake.InvStep` | IOManager.cpp:149-161 | every step of either thread keeps the turn-taking and the ledger of messages |
| `Handshake.ExactlyOnceInOrder` | CIU.cpp:115-127 | in every interleaving each posted message is processed once, in order and fully written, and a read waits for all earlier writes |
| `Handshake.NeverStuck` | IOManager.cpp:99-107 | some thread can move unless both rest |
| `Handshake.RunsToRest` | CIU.cpp:115-127 | every maximal run ends at rest with every message processed: no wakeup is lost |

## Left out

- BlockSimulation.StepSimulated: overflow traps of add, addi, dadd, sub and of the emitted dadd and dsub are not modelled, and the delivery of host signals with them.
- BlockTranslation.BlockSimulated: instructions that `Supported` and `SupportedControl` exclude. Shifts, immediates, ext and ins to $0, loads and ll to $0 and jalr to $0 are excluded because their code is wrong (a load to $0 skips the translation and its fault; ll to $0 uses no address). mthi and mtlo emit nothing, and tge and tlt test the sign of a difference. mfc0, di, ei, rdhwr, saa, saad and the multiplier extensions are outside the model, not shown wrong.
- ControlSimulation.ControlSimulated: a delay slot that is itself a control instruction, which the architecture leaves undefined.
- ControlExactness.LinkExactly: a delay slot that leaves the block, and likely link branches with offset 1, where the outcome also depends on the delay slot.
- LinkedAccess.LinkAfterRun: the monitor of the architecture watches the memory line; here, as in the emitted code, the link also needs the word to be unchanged, so a word written and restored in between goes unnoticed.
- LinkedAccess.ProtectionExact: assumes that an access is told the protection and place of its page; a load that hits the page cache is told 0 whatever the page.
- Simulation.AddressCallRuns: loads and stores to device addresses go through the same call-out; what the device does is part of the answer.
- CodeBuffer.TranslationBlock.PushBack: the 32-bit sizes are unbounded numbers, so a buffer of 4 GB does not wrap.
- PageFix.FixBlock: the first word of the next page is a parameter; no modelled block reaches the path that fetches it.
- Fetch.FetchNextBlock: the guest PC is assumed word-aligned, and every block it can find is assumed to be one whose handlers are modelled; guest code does not change after translation. A PC of 0 matches the keys the constructor leaves, so nothing is said of a hit there.
- PageFix.CutKeeps: a block that runs over the top of the address space; no address user mode may use lies there.
- TlbProperties.WrittenTranslates: page masks the architecture does not allow (the half is then chosen by a population count; `RefillProgress` covers them by entry).
- TlbUnit.TLB.TlbRandom: rand() is a parameter; an index past the table writes memory behind it, of which nothing is said.
- RegionMap.GpaMap.GpaToHva: the address mmap returns is a parameter, assumed disjoint from earlier ones; for an unmapped block outside every section find_index returns no value and what follows is undefined.
- AddressCache.AddrTranslationCache.constructor: the source leaves the entries uninitialised, so they are a parameter; coherence is proved from the first clearing on.
- Coherence.RunCoherent: TLBR, the duplicate invalidation of TLBP and changes of ERL inside a run, none of which clears the page cache; and the privilege check, which a hit does not repeat.
- BlockCache.TranslatedBlockCache.Install: the container of a slot is represented by its words; its identity and its mprotect calls are not modelled.
- Handshake.ExactlyOnceInOrder: spurious wakeups, and several cores posting to one box, where test and set of isServiced are not atomic.
- mtc0 other than to EBase, wait and the TLB probe: no properties proved.
- initialize_GPA_subsections: section 42 has a negative size in floating point, whose conversion is undefined.
- ProgramRuns.ProgramSimulated: what the C++ side does between blocks is arbitrary, and may be different after every block, but is assumed to act alike on guest and slots.
- supervisor mode beyond its refusal, devices, logging and loading: I/O or register masks.
