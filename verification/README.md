# A verified model of the RV64I simulator

The simulator is one slow machine (fetch, decode, execute) behind several fast paths: a cache of
decoded blocks, compiled x86 code for whole functions and for hot blocks, and three TLBs before the
Sv39 walk. Its decoder and its execute functions are themselves the output of two small compilers.
This project models each fast path and each generator and proves it equal to the simple thing it
stands for, for all inputs and over whole runs.

`dafny verify dfyconfig.toml` checks everything.

## How the parts fit

| files | content |
|---|---|
| Numbers, Bits, WordLaws | the number a 64-bit word stands for, the word operations, and what each computes as arithmetic on those numbers |
| Memory, ByteMemory, ByteOrder | byte memory as a value and as a buffer; reads and writes as little-endian numbers |
| Isa, InstructionNumbers | decoded instructions, what each does to a hart, and its value or condition in numbers |
| Reference | the slow machine; `Retires(dec, n, h, g)`: g is h after exactly n executed instructions |
| Sv39, Mmu, PageTables, PageNumbers | the page walk, the TLBs and `MMU` as objects, the guest program that builds tables; the fields of addresses, entries, tags and satp as numbers |
| GuestSections | which addresses of the guest's sections its tables map to themselves |
| TlbAliases | exactly when a TLB answers wrongly for an address other than the one that filled the entry |
| TlbRuns | the slow machine with every access going through the TLBs, over whole runs |
| X86, Emit, EmitAgrees, EmitEffect, EmitFailures | an abstract x86 machine, every emitter, each emitted sequence against the executer, and inputs on which they differ |
| Cfg, FlowEdges, Compiler | control-flow discovery, its edges against what instructions do, code generation with labels, calls and exits |
| LabelInvariant | every label compiled code passes is the pc cell's, at every depth of calls |
| PlainBlocks, LostInstructions | exactly when plain compiled code is single stepping; where the cycle total falls short |
| SlotIndex, BlockCache, LruCache | the direct-mapped block cache, and the list-and-map cache beside it |
| Sim, RunTraces, Simulation, JitSimulation, RunTheorems | the simulator as functions, where its loops stop, its invariants, the simulation theorem, whole runs |
| Termination | total correctness: runs end exactly when the slow machine stops |
| Programs, PagingProgram | concrete guest programs, assembled and decoded by the shipped decoder, that meet the hypotheses |
| Predecode, HartMachine, Simulator | ahead-of-time compilation; `Hart` as an object with the source's loops; both joined |
| Decoder, DecoderGen, ShippedDecoder | the generated decoder against an assembler; the generator of nested switches; the one as the output of the other |
| Constants, Dsl, DslNumbers, DslPrograms, ScopeBuilder, GeneratedExecuter | the instruction DSL with its integer constants, comparisons, loads and stores, its compilation, and the execute functions it generates |
| CppScopes, CppBodies | when the generated C++ is valid, for expressions, bodies and whole functions |

Imperative source is modelled by classes and methods with the source's loops (`Mmu.Mmu`,
`TlbRuns.PagedHart`, `BlockCache.NaiveCache`, `LruCache.LruCache`, `HartMachine.Hart`,
`Compiler.Assembler`, `ScopeBuilder.Scope`, the generator loops), each proved equal to a function;
the theorems are about those functions. What may not return takes fuel: one unit per jump, nested
call, loop back or step. The simulation theorems say what holds if a run ends; Termination shows
that a run ends for some fuel if and only if the slow machine stops, and how much suffices.

The executer, the emitted code and the DSL use the same word operations. What these compute is said
apart from their definitions: `Unsigned(x)` and `Signed(x)` are the numbers of a word, read off its
bits, and WordLaws and InstructionNumbers give every operation and instruction as arithmetic on them.

## What a run must satisfy

The theorems about runs take a `World`: the image (the instruction at each pc), the set of pcs
control can reach, satp, and the jalrs that always land on their successor (`steady`). Its
hypotheses are the ones the code needs:

- `GoodRun`: in every state the slow machine reaches, the next pc is in that set and memory still
  holds the image there. With the JIT on also: executable memory holds the image, the next
  instruction is one whose emitted code agrees with the executer (`EmitEffect.Agrees`, an exact
  condition, see `CodeAgrees`), and, if some reached code is not executable, a jalr that once landed
  on its successor and ran on from there does so every time (`JalrSteady`). Only such a jalr can be
  recorded in front of another instruction of a plain block, and `PlainBlocks.OnTrackExactly` shows
  that the compiled block is single stepping exactly as long as its jalrs land.
- `Placed`: reached pcs are 32-bit and no two share a cache slot, since the cache has no tag check.
  `WindowIsPlaced` derives it from one aligned window of 4 * capacity bytes; `LookupAfterInstall`
  says what a lookup gives in general.
- x0's cell holds 0 at the start (`X0CellMatters` shows why) and satp does not change during the run.

With the TLBs in place (`TlbRuns.RunFits`) a run must also translate only addresses for which no
other address it translates is an alias (`NoAlias`; `TlbAliases.RightExactly` shows that no less will
do, and `PagesHaveNoAlias` that 4 KiB pages sharing bits 38:32 have none), and store into no live
page table; satp may be set once, from Bare.

`CallProgramIsGood`, `EcallProgramIsGood` and `PagingProgramFits` show, of assembled programs under
the shipped decoder, that the hypotheses can be met. A fetch, load or store that cannot be
translated, and an unknown instruction, end the process: status `Aborted`.

## Where the code differs from what one would expect

- Emitted loads, sllw and slliw sign-extend; the executer zero-extends lb, lh, lw, sllw and slliw (`LoadDiffers`,
  `ShiftDiffers`).
- The emitted jalr writes rd before it reads rs1 and clears bit 0 of the target; the executer does neither
  (`OwnLinkDiffers`, `OddTargetDiffers`).
- A page-table entry is a leaf by R alone, because the X bit is compared with the R mask.
- TLB tags drop address bits 63:32: after page 0 is mapped, address 2^32 is answered with frame 0 though its walk
  faults (`AliasIsAnswered`); a hit is the walk's for exactly the addresses that share bits 38:32 (`ServedExactly`).
- A superpage hit ORs in VPN bits of the address that filled the entry (`HitRight`).
- A plain compiled block counts no instructions; `run_until_pc` drops what it reports, so such
  instructions are missing from the cycle total (`lost` in the model). The total is exact if and only
  if no such block was executed inside a nested call (`RunIsSlowRun`); `CyclesFallShort` is a run, from an empty
  cache, where it is not.
- A plain compiled block runs its instructions in order even if one of them is a jalr that jumps away
  (`OnTrackExactly`); in the run of `CompiledReturnIsLost` the simulator records such a block, compiles it, leaves the
  slow machine's track and halts, which the slow machine never does.
- `load_data` and `zero_init` compute the end in 64 bits, so a range that wraps can pass their test (`TestIsRight`).
- A DSL constant is written with the suffix U, so a negative one of less than 32 bits becomes a 32-bit number:
  `rs1 + (-1)` adds 2^32 - 1 (`MinusOneIsWrong`). `LiteralExactly` says which integers keep their value.
- The guest's loops step whole pages from a start that need not be aligned, and then may miss a section's last page
  (`LoopCovers`); with text ending at 0x1F00 and data behind it, 0x2000 faults (`DataFaults`).
- All constants of a DSL scope share the C++ variable `_val`; temporaries typed as constants are not declared.
- `sw` decodes an rd, because the generator looks for the letters `rd` in the instruction's text.

## Model

| member | source | states |
|---|---|---|
| WordLaws.AddIsSum | src/decode_execute_module/executer/rv32i_executer_gen.cpp:1264-1322 | addition is addition of numbers modulo 2^64 |
| WordLaws.SubIsDifference | src/decode_execute_module/executer/rv32i_executer_gen.cpp:1323-1381 | subtraction is subtraction modulo 2^64 |
| WordLaws.SltIsOrder | src/decode_execute_module/executer/rv32i_executer_gen.cpp:1441-1499 | the signed comparison compares the numbers in two's complement |
| WordLaws.UltIsOrder | src/decode_execute_module/executer/rv32i_executer_gen.cpp:1500-1558 | the unsigned one compares the unsigned numbers |
| WordLaws.AndIsBitwise | src/decode_execute_module/executer/rv32i_executer_gen.cpp:1795-1853 | every bit of the result is set if and only if both operands' are |
| WordLaws.OrIsBitwise | src/decode_execute_module/executer/rv32i_executer_gen.cpp:1736-1794 | if and only if one of them is |
| WordLaws.XorIsBitwise | src/decode_execute_module/executer/rv32i_executer_gen.cpp:1559-1617 | if and only if they differ |
| WordLaws.ShlMultiplies | src/decode_execute_module/executer/rv32i_executer_gen.cpp:1382-1440 | shifting left multiplies by a power of two, modulo 2^64 |
| WordLaws.ShrDivides | src/decode_execute_module/executer/rv32i_executer_gen.cpp:1618-1676 | the logical right shift divides the unsigned number |
| WordLaws.SarDivides | src/decode_execute_module/executer/rv32i_executer_gen.cpp:1677-1735 | the arithmetic one divides the signed number, rounding down |
| WordLaws.AddLowIsSum | isa/dsl/rv64i_executer_gen.rb:8-14 | the 32-bit sum is the sum modulo 2^32 |
| WordLaws.SubLowIsDifference | isa/dsl/rv64i_executer_gen.rb:8-14 | so is the 32-bit difference |
| WordLaws.SextWordIsSigned | isa/dsl/rv64i_executer_gen.rb:8-29 | extending a word keeps the signed number of its low 32 bits |
| WordLaws.SextByteIsSigned | src/hart/jit/jit_instruction_factory.hpp:1368-1504 | extending a byte, that of its low 8 bits |
| WordLaws.SextHalfIsSigned | src/hart/jit/jit_instruction_factory.hpp:1368-1504 | extending a half, that of its low 16 bits |
| WordLaws.ZextWordIsLow | src/hart/jit/naive_cache.hpp:25-27 | a word cut to 32 bits is its number modulo 2^32 |
| InstructionNumbers.ImmIsSigned | src/decode_execute_module/executer/rv32i_executer_gen.cpp:1854-1912 | the immediate operand is the signed number of the 32-bit field |
| InstructionNumbers.SumsAre | src/decode_execute_module/executer/rv32i_executer_gen.cpp:1264-1912 | add and addi write the sum modulo 2^64 |
| InstructionNumbers.SignedComparisonsAre | src/decode_execute_module/executer/rv32i_executer_gen.cpp:1441-1971 | slt and slti write 1 if the first number is less, as signed numbers, else 0 |
| InstructionNumbers.ComparisonsAre | src/decode_execute_module/executer/rv32i_executer_gen.cpp:1500-2030 | sltu and sltiu as unsigned numbers |
| InstructionNumbers.LogicIs | src/decode_execute_module/executer/rv32i_executer_gen.cpp:1559-2207 | and, or, xor and their immediate forms, bit by bit |
| InstructionNumbers.ShiftsAre | src/decode_execute_module/executer/rv32i_executer_gen.cpp:1382-2384 | the 64-bit shifts multiply and divide by 2 to the count modulo 64 |
| InstructionNumbers.WordSumsAre | src/decode_execute_module/executer/rv32i_executer_gen.cpp:706-1014 | addw and addiw write the signed number of the sum's low 32 bits |
| InstructionNumbers.WordDifferencesAre | src/decode_execute_module/executer/rv32i_executer_gen.cpp:1015-1074 | subw, that of the difference's |
| InstructionNumbers.WordShiftsAre | src/decode_execute_module/executer/rv32i_executer_gen.cpp:766-1200 | sllw, srlw, slliw and srliw multiply and divide the low 32 bits, count modulo 32, and zero-extend |
| InstructionNumbers.SignedWordShiftsAre | src/decode_execute_module/executer/rv32i_executer_gen.cpp:892-1263 | sraw and sraiw divide the signed low 32 bits, rounding down |
| InstructionNumbers.UpperIs | src/decode_execute_module/executer/rv32i_executer_gen.cpp:2846-2965 | lui writes 4096 times the immediate, auipc adds it to the pc |
| InstructionNumbers.BranchesAre | src/decode_execute_module/executer/rv32i_executer_gen.cpp:2450-2845 | when each branch is taken, as signed or unsigned numbers |
| ByteOrder.ReadIsNumber | src/memory/memory.cpp:45-56 | a read gives the little-endian number of the bytes from its address on |
| ByteOrder.WriteIsNumber | src/memory/memory.cpp:58-69 | the n bytes a write leaves are the value's number modulo 256^n |
| Memory.ReadBack | src/memory/memory.cpp:45-69 | an 8-byte read at the address of an 8-byte write returns the value written |
| Memory.ReadAfterDisjointWrite | src/memory/memory.cpp:58-69 | a write leaves every read of other bytes unchanged |
| ByteMemory.ReadIsWordOf | src/memory/memory.cpp:45-56 | a read of the value memory is the word of the bytes a read of the buffer copies |
| ByteMemory.WriteIsBytesOf | src/memory/memory.cpp:58-69 | a write to the value memory leaves the bytes a write to the buffer copies |
| ByteMemory.StoredIsLow | src/memory/memory.cpp:45-69 | reading back n written bytes gives the value cut to n bytes |
| ByteMemory.ReadAfterWrite | src/memory/memory.cpp:45-69 | in the buffer, a read of what was written gives the value cut to its bytes, and a read of other bytes what it gave before |
| ByteMemory.PhysicalMemory.Create | src/memory/memory.cpp:12-35 | size zero is refused; otherwise the least whole number of pages that holds it, all zero |
| ByteMemory.PhysicalMemory.Write | src/memory/memory.cpp:58-69 | exactly the addressed bytes change, to the value's low bytes |
| ByteMemory.PhysicalMemory.LoadData | src/memory/memory.cpp:71-76 | refused exactly when the 64-bit test fails, and then nothing changes; copied when the end is within the capacity |
| ByteMemory.PhysicalMemory.ZeroInit | src/memory/memory.cpp:78-83 | the same for zeroing |
| ByteMemory.TestIsRight | src/memory/memory.cpp:71-83 | the bounds test is right if and only if the end does not wrap, or wraps to beyond the capacity |
| ByteMemory.LastBytePasses | src/memory/memory.cpp:71-83 | one byte at the last address passes it, whatever the capacity |
| Sv39.LeafMeansReadable | src/memory/mmu.cpp:75-78 | an entry is taken for a leaf exactly when R is set, whatever X is |
| Sv39.LastReadDecides | src/memory/mmu.cpp:57-83 | a walk reads one to three entries, all but the last of them with bits 2:0 == 001; it faults exactly when the last has bit 0 clear, or bit 2 set and bit 1 clear, or, at the bottom, bit 1 clear, and else ends at the last one's level |
| Sv39.LeafPaSplits | src/memory/mmu.cpp:85-101 | the physical address keeps va's low 12+9L bits and takes all higher bits from the leaf's PPN |
| Sv39.WalkReadsOnly | src/memory/mmu.cpp:57-83 | a walk depends on no memory but the entries it reads |
| Sv39.WalkSharedPage | src/memory/mmu.cpp:57-83 | addresses that share the VPN fields from the leaf's level up have the same walk |
| PageNumbers.VpnIsQuotient | src/memory/mmu.cpp:47-50 | VPN[l] is va / 2^(12+9l) modulo 512 |
| PageNumbers.IndexIsQuotient | e2e_tests/virtual_memory.c:31-45 | so are the three indices of map_page |
| PageNumbers.EntryAddress | src/memory/mmu.cpp:61 | an entry lies at its table plus eight times the index |
| PageNumbers.NextTableAddress | src/memory/mmu.cpp:57-60 | a pointer entry's table is at its PPN times 4096 |
| PageNumbers.ModeIsTop | src/hart/hart.cpp:56-64 | the mode is the top four bits of satp |
| PageNumbers.ModeDecides | src/memory/mmu.cpp:39-45 | mode 0 translates nothing, mode 8 walks the tables, and every other mode faults |
| PageNumbers.RootIsLow | src/hart/hart.cpp:56-64 | the root table is at the low 44 bits times 4096 |
| PageNumbers.HashIsRemainder | src/memory/tlb.hpp:23-26 | the TLB slot is the page number modulo 64 |
| PageNumbers.TagIsFloor | src/memory/tlb.hpp:12-20 | the tag is that of the address modulo 2^32, rounded down to its page size |
| Mmu.HitAddress | src/memory/mmu.hpp:92-95 | what a hit returns: the right address with the filling address's in-superpage VPN bits ORed in |
| Mmu.HitRight | src/memory/mmu.hpp:92-95 | a hit is right if and only if those bits are a subset of the looked-up address's |
| Mmu.HitServed | src/memory/tlb.hpp:12-36 | a match on an entry that a walk filled answers as the walk of the looked-up address would, up to those bits, if the two addresses share bits 38:32 |
| Mmu.FilledEntry | src/memory/mmu.cpp:103-115 | what a walk inserts is sound for its slot and address, and the walk itself answers exactly |
| Mmu.ServedIsUncached | src/memory/mmu.hpp:77-98 | a translation equals the TLB-free one for every 4 KiB page, and for a superpage exactly when the bits are covered |
| Mmu.UncachedIsTranslate | src/memory/mmu.cpp:31-121 | the TLB-free answer is the translation loads, stores and fetches of the hart model use |
| Mmu.NoAliasIsRight | src/memory/mmu.hpp:77-98 | an address without aliases among those seen gets the walk's own answer, hit or miss, page or superpage |
| Mmu.PagesHaveNoAlias | src/memory/tlb.hpp:12-36 | addresses on 4 KiB pages that share bits 38:32 have no aliases |
| TlbAliases.ServedExactly | src/memory/tlb.hpp:12-36 | for two addresses of one slot and tag: over all tables a hit is the walk's answer, up to superpage bits, if and only if they share bits 38:32 |
| TlbAliases.RightExactly | src/memory/mmu.hpp:77-98 | and is the walk's very answer if and only if, besides, the in-superpage bits of the one are set in the other |
| TlbAliases.AliasIsAnswered | src/memory/mmu.hpp:77-98 | after map_page of page 0 into empty memory, address 2^32 hits and is answered with frame 0, while its walk faults |
| Mmu.Tlb.Lookup | src/memory/tlb.hpp:33-36 | the entry of the hashed slot if its tag matches |
| Mmu.Tlb.Insert | src/memory/tlb.hpp:38-48 | exactly the hashed slot is overwritten with the tag, frame and size of the mapping |
| Mmu.Tlb.Flush | src/memory/tlb.hpp:50-53 | no entry is valid afterwards |
| Mmu.Mmu.WalkTables | src/memory/mmu.cpp:57-83 | the walker's loop computes the walk |
| Mmu.Mmu.TranslateGeneric | src/memory/mmu.cpp:31-121 | the uncached answer in each mode, and the TLBs stay coherent with the tables |
| Mmu.Mmu.Translate | src/memory/mmu.hpp:77-98 | in every coherent state a miss gives the walk's answer and fills an entry, a hit gives that of an address seen before with the same slot and tag, and coherence is kept |
| Mmu.Mmu.MemStore | src/memory/mmu.hpp:101 | a store outside the entries walks read keeps all three TLBs coherent |
| TlbRuns.AnswerIsRight | src/memory/mmu.hpp:77-98 | what the MMU serves for an address in reach, on a page or a superpage, is the walk's answer, faults included |
| TlbRuns.PagedHart.VaToPa | src/hart/hart.cpp:116-140 | a translation through the TLBs is the walk's, and the TLBs stay coherent |
| TlbRuns.PagedHart.Load | src/hart/hart.cpp:148-175 | loads and fetches through the TLBs give what the walk gives |
| TlbRuns.PagedHart.Store | src/hart/hart.cpp:177-200 | so do stores, outside live page tables |
| TlbRuns.PagedHart.Step | src/hart/hart.cpp:148-200 | one fetched and executed instruction is a step of the machine without TLBs |
| TlbRuns.PagedHart.Run | src/hart/hart.cpp:148-200 | so are n instructions |
| TlbRuns.PagedHart.SetSatp | src/hart/hart.cpp:56-64 | leaving Bare mode without a flush is sound |
| TlbRuns.PagedHart.RunThenPage | src/hart/hart.cpp:56-200 | a whole program that builds tables in Bare mode and then pages behaves as without TLBs |
| PageTables.ReadSlot | e2e_tests/virtual_memory.c:31-45 | writing a table entry changes that entry and no other entry of any table |
| PageTables.WalkOfMapped | e2e_tests/virtual_memory.c:31-45 | after any map_page calls the walk of a mapped page ends at the leaf of the last call with its lowest VPN, and is the identity exactly when that call was for the same page |
| PageTables.MappedIsIdentity | e2e_tests/virtual_memory.c:31-85 | with one page per leaf slot every address of every mapped page translates to itself once satp is set |
| PageTables.SatpFields | e2e_tests/virtual_memory.c:74-85 | the satp value written selects Sv39 and the L1 table |
| PageTables.Guest.MapOne | e2e_tests/virtual_memory.c:31-45 | the three stores of map_page |
| PageTables.Guest.BuildSv39PageTables | e2e_tests/virtual_memory.c:50-71 | the loops map every page of text, data and the stack page |
| GuestSections.ProgramIsIdentityMapped | e2e_tests/virtual_memory.c:50-105 | if each loop reaches its section's last page and no two called pages share a leaf slot, every address of text and data, and of the stack page, translates to itself, whatever memory held before |
| GuestSections.LoopCovers | e2e_tests/virtual_memory.c:50-66 | a loop calls map_page for the page of every address of [start, end) if and only if (end - 1) % 4096 >= start % 4096 |
| GuestSections.IdentityExactly | e2e_tests/virtual_memory.c:31-45 | after any calls on zeroed tables an address translates to itself if and only if the last call that wrote its leaf slot was for its page, and faults if there was none |
| GuestSections.SectionsExactly | e2e_tests/virtual_memory.c:50-105 | on zeroed tables all addresses of text and data translate to themselves if and only if the last page of each is called |
| GuestSections.ShippedStackFits | e2e_tests/simple.ld:4-19 | with the linker script's stack and sections below 0x1FF000 no two called pages share a leaf slot |
| GuestSections.DataFaults | e2e_tests/virtual_memory.c:50-66 | for text 0x1000 to 0x1F00 and data from there to 0x2100, the data address 0x2000 faults |
| PagingProgram.PagingProgramFits | e2e_tests/virtual_memory.c:31-71 | an assembled program running through tables that map_page built meets the hypotheses of the TLB runs, and halts |
| Isa.ExecuteFlow | src/decode_execute_module/executer/rv32i_executer_gen.cpp:2385-3083 | branches go to target or successor, jal to its target, everything else but jalr falls through, and exactly an ecall halts |
| Isa.ExecuteKeeps | src/hart/hart.hpp:46-60 | no instruction changes satp or x0's cell, csrw aside, which is not modelled |
| Isa.AbortKeepsPc | src/hart/hart.cpp:202-212 | an instruction that aborts leaves the pc at itself |
| Emit.DataCodeIsStraight | src/hart/jit/jit_instruction_factory.hpp:1119-1786 | no emitter body hides a jump or a trampoline call |
| EmitAgrees.ValueCodeComputes | src/hart/jit/jit_instruction_factory.hpp:1142-1365 | the code of every arithmetic instruction leaves the executer's value in rax (sign-extended for sllw and slliw) and touches nothing else of the hart |
| EmitEffect.LoadAgrees | src/hart/jit/jit_instruction_factory.hpp:1368-1504 | an emitted load agrees with the executer exactly when the loaded sign bit is clear or nothing is written |
| EmitEffect.ValueAgrees | src/hart/jit/jit_instruction_factory.hpp:1695-1777 | exactly when the word shifts agree |
| EmitEffect.JalrAgrees | src/hart/jit/jit_instruction_factory.hpp:1594-1603 | exactly when the jalr sequence agrees: even target, and rd not read back through rs1 with another result |
| EmitEffect.EcallAgrees | src/hart/jit/jit_instruction_factory.hpp:1779-1786 | exactly when the ecall sequence agrees |
| EmitEffect.CodeAgrees | src/hart/jit/jit_instruction_factory.hpp:1119-1786 | for every instruction but csrw (and auipc within x86's immediates), every state, paging mode and memory path the emitted sequence has the executer's effect if and only if `Agrees`, and it never touches the counter |
| EmitFailures.LoadDiffers | src/hart/jit/jit_instruction_factory.hpp:1368-1504 | lb of the byte 0x80: emitted code leaves 2^64 - 128, the executer 0x80 |
| EmitFailures.ShiftDiffers | src/hart/jit/jit_instruction_factory.hpp:1695-1777 | sllw of 1 by 31: bits 63:32 are set by emitted code only |
| EmitFailures.OddTargetDiffers | src/hart/jit/jit_instruction_factory.hpp:1594-1603 | jalr to the odd address 1 goes to 0 in emitted code |
| EmitFailures.OwnLinkDiffers | src/hart/jit/jit_instruction_factory.hpp:1594-1603 | jalr x1, 0(x1) goes to its own return address in emitted code |
| Compiler.LabelsBoundOnce | src/hart/jit/compiler.hpp:53-72 | a function block binds one label per pc, in order, and the exit label, each exactly once |
| Compiler.JumpsAreBound | src/hart/jit/jit_instruction_factory.hpp:940-1117 | every jump of an instruction's code goes to the exit or to a label of the block |
| Compiler.FromLabel | src/hart/jit/compiler.hpp:59-72 | a jump to a pc's label lands on the code of that pc's instruction |
| Compiler.FromExit | src/hart/jit/jit_basic_block.hpp:37-51 | a jump to the exit label leaves the block |
| Compiler.Assembler.EmitBranchDispatch | src/hart/jit/jit_instruction_factory.hpp:1070-1085 | appends exactly the dispatch the simulation is proved about |
| Compiler.Assembler.EmitPostCallCheck | src/hart/jit/jit_instruction_factory.hpp:1102-1117 | appends exactly the check after a call |
| Compiler.Assembler.CompileFunctionInstr | src/hart/jit/jit_instruction_factory.hpp:940-1030 | appends count, data code and control flow of one instruction, csrw aside |
| Compiler.CompileFunctionBlock | src/hart/jit/compiler.hpp:48-78 | the emission loop yields the labelled code of the whole block |
| Compiler.CompileBb | src/hart/jit/compiler.hpp:21-39 | the emission loop of a plain block |
| Compiler.Compile | src/hart/jit/compiler.hpp:41-46 | the choice between the two |
| Cfg.ExploreIsLeast | src/hart/hart.cpp:315-370 | the worklist visits, entry first and without duplicates, exactly the least set closed under executable successors |
| Cfg.ExploreSucceeds | src/hart/hart.cpp:315-370 | it fails only where an executable pc cannot be fetched |
| Cfg.LayoutIsRotatedOrder | src/hart/hart.cpp:376-396 | the pcs are laid out in address order, rotated to start at the entry |
| Cfg.SuccessorsAre | src/hart/hart.cpp:330-369 | an executable pc is pushed if and only if it is the next one, and the instruction neither an ecall nor a jump that links nothing, or the target of a branch or of a jal that links nothing |
| Cfg.CallTargetsAre | src/hart/hart.cpp:335-346 | the call targets of a built block are exactly the executable pcs pc + imm of its jals with rd != 0 |
| Cfg.ExecExactly | src/hart/hart.cpp:415-422 | a range holds the pcs from its start up to, but not including, its end |
| Cfg.BlockIsLeast | src/hart/hart.cpp:306-413 | a built block holds exactly the least set of pcs with the entry and every executable pc control goes on at, by opcode, rd and imm, in ascending order rotated to the entry |
| FlowEdges.EdgesAreReal | src/hart/hart.cpp:330-369 | for an instruction that is no call and no indirect jump a pc is followed if and only if some state goes there, but for the other way out of a branch that always goes one way, and behind an unknown word |
| FlowEdges.CallsLand | src/hart/hart.cpp:335-346 | a direct call goes to the recorded target and leaves the return pc in rd, and every jal that changes a register is one |
| FlowEdges.CallsReturn | src/hart/hart.cpp:330-353 | after a linking jump exactly pc + 4 is followed; after a jalr that links nothing and after an ecall, nothing |
| Cfg.BuiltBlock | src/hart/hart.cpp:398-412 | each pc of a built block is executable and carries its decoded instruction |
| Cfg.SuccessorsCover | src/hart/hart.cpp:330-369 | wherever an instruction other than a call or indirect jump takes control inside executable memory is among the pushed successors, and so is a call's return pc |
| Cfg.ControlStaysInBlock | src/hart/hart.cpp:306-413 | control in a built function stays on its pcs until a call, return, ecall or a pc outside executable memory |
| Cfg.IsExecPc | src/hart/hart.cpp:415-422 | true exactly inside some range |
| Cfg.PushSuccessors | src/hart/hart.cpp:330-369 | the worklist gains exactly the executable pcs control goes on at, besides pcs that are not executable, and the call targets exactly an executable target of a linking jal |
| Cfg.BuildFunctionBlock | src/hart/hart.cpp:306-413 | the loop terminates and yields the block and the call targets |
| Reference.StopsOnce | src/machine/machine.cpp:71-77 | a run stops in one state after one number of instructions |
| SlotIndex.MaskKeepsLow | src/hart/jit/naive_cache.hpp:25-27 | masking with capacity - 1 keeps the low bits of the word index |
| SlotIndex.LowIsRemainder | src/hart/jit/naive_cache.hpp:25-27 | and those are the remainder by the capacity |
| SlotIndex.WindowSeparates | src/hart/jit/naive_cache.hpp:25-27 | in any window of 4 * capacity bytes aligned 32-bit pcs have slots of their own |
| SlotIndex.SharedSlot | src/hart/jit/naive_cache.hpp:25-27 | two 32-bit pcs share a slot if and only if their word indices agree modulo the capacity |
| BlockCache.PowerOfTwoTest | src/hart/jit/naive_cache.cpp:6-8 | the bit trick accepts exactly the powers of two |
| BlockCache.NaiveCache.Create | src/hart/jit/naive_cache.cpp:10-16 | a cache exists exactly for power-of-two sizes, and starts empty |
| BlockCache.NaiveCache.Lookup | src/hart/jit/naive_cache.cpp:18-25 | the valid block of the slot, whatever its pc |
| BlockCache.NaiveCache.Install | src/hart/jit/naive_cache.cpp:27-32 | exactly the block's slot is replaced |
| BlockCache.NaiveCache.InvalidateAll | src/hart/jit/naive_cache.cpp:34-40 | no slot is valid afterwards |
| LruCache.ListIsFifo | src/hart/jit/utils/lru_cache.hpp:29-42 | after any installs the list holds the last `capacity` keys inserted, newest first, each once |
| LruCache.LookupIsLastInstalled | src/hart/jit/utils/lru_cache.hpp:20-42 | a lookup gives the last value installed for the key unless `capacity` newer keys were inserted since |
| LruCache.LruCache.Lookup | src/hart/jit/utils/lru_cache.hpp:20-27 | a reference into the list to the key's value, or null |
| LruCache.LruCache.Install | src/hart/jit/utils/lru_cache.hpp:29-42 | list and map change together: update in place, or insertion in front with the back dropped when full |
| Simulation.LookupOk | src/hart/threaded_code.hpp:40-56 | any hit for a reached pc is the block of that pc, its instructions are the image's, its exec functions theirs, its code their compilation; promotion keeps this |
| Simulation.ExecFnsMatch | src/hart/hart.cpp:398-412 | a block found has one exec function per instruction, that of its opcode, or is a function block, which has none and is only entered through its compiled code |
| Simulation.InstallOk | src/hart/jit/naive_cache.cpp:27-32 | installing such a block keeps the cache so |
| Simulation.BuildOk | src/hart/threaded_code.hpp:58-70 | building and compiling a function succeeds exactly inside executable ranges and keeps the cache so |
| JitSimulation.HeadRuns | src/hart/jit/jit_instruction_factory.hpp:1126-1131 | counter and data code of a block's instruction make exactly that single step and count it |
| JitSimulation.BranchRuns | src/hart/jit/jit_instruction_factory.hpp:1070-1085 | the dispatch continues at the architectural pc, or leaves with the pc cell there, whichever labels are missing |
| JitSimulation.FallRuns | src/hart/jit/jit_instruction_factory.hpp:1021-1029 | the same for falling through |
| JitSimulation.JumpRuns | src/hart/jit/jit_instruction_factory.hpp:983-992 | a jump to the pc cell's label, or to the exit if the block has none, goes on with single steps |
| JitSimulation.CallRuns | src/hart/jit/jit_instruction_factory.hpp:1087-1117 | a linking jump, the nested call and what follows are single steps |
| JitSimulation.HaltNeverReturns | src/hart/jit/jit_instruction_factory.hpp:1102-1108 | a halted hart is never at a caller's return pc |
| JitSimulation.FunctionRuns | src/hart/jit/compiler.hpp:48-78 | from any label with the pc cell there, compiled code that ends has made exactly n single steps, n being the counter's increase plus what nested plain blocks lost |
| LabelInvariant.FunctionOnItsLabels | src/hart/jit/jit_instruction_factory.hpp:940-1117 | from a label with the pc cell there, every label that compiled code passes has the pc cell at its pc, in the block, in what it calls at any depth and after every return, whether or not the code ends |
| LabelInvariant.RunOnItsLabels | src/hart/jit/compiler.hpp:53-72 | so it is in whole runs, under every setting and from every sound cache |
| JitSimulation.PlainRuns | src/hart/jit/compiler.hpp:21-39 | a plain compiled block, jalrs that land on their successors included, makes one single step per instruction and counts none |
| PlainBlocks.PlainReaches | src/hart/jit/compiler.hpp:21-39 | plain compiled code reaches each instruction with the hart the ones before it leave in order, whatever the pc |
| PlainBlocks.OnTrackExactly | src/hart/jit/compiler.hpp:21-39 | the pc is right before each instruction if and only if every jalr before it lands on its successor |
| PlainBlocks.OnTrackIsStepping | src/hart/jit/compiler.hpp:21-39 | and then the instructions are single steps |
| PlainBlocks.BothAreRecorded | src/hart/hart.cpp:558-603 | a jalr that lands on its successor is recorded together with the increment behind it |
| PlainBlocks.CompiledReturnIsLost | src/hart/hart.cpp:454-607 | a whole run from an empty cache: the block is recorded, becomes hot, is compiled, increments although the jalr goes elsewhere, and the simulator halts with a register value the slow machine, which never halts, never has |
| JitSimulation.InterpretOk | src/hart/hart.cpp:485-536 | interpreting a cached block, loop-back included, makes as many single steps as it reports |
| JitSimulation.RecordOk | src/hart/hart.cpp:558-606 | recording makes as many single steps as it reports, and records at most max_bb instructions of the image with the functions that executed them |
| JitSimulation.ExecBlockOk | src/hart/hart.cpp:454-537 | executing the block of the current pc, in any of its three forms |
| JitSimulation.SimStepOk | src/hart/hart.cpp:539-607 | a step, by whichever path, makes exactly the single steps it reports, but for lost ones, and keeps all invariants |
| JitSimulation.RunUntilOk | src/hart/hart.cpp:300-304 | so does run_until_pc, and it ends with the hart stopped or at the return pc |
| JitSimulation.CallOk | src/hart/jit/trampolines.cpp:24-33 | so does a trampoline call by either route |
| JitSimulation.RunMachineOk | src/machine/machine.cpp:71-77 | so does the run loop; it ends with the hart stopped or the bound reached; its cycle total plus the lost instructions is the number retired, and something is lost if and only if a plain block ran inside a nested call |
| RunTraces.RunTrace | src/machine/machine.cpp:71-77 | a run is the steps from its start to the first state in which the hart has stopped or the total has reached a bound other than 0 |
| RunTraces.UntilTrace | src/hart/hart.cpp:300-304 | run_until_pc is the steps up to the first state at the return pc or stopped |
| RunTraces.InterpretTrace | src/hart/hart.cpp:485-534 | interpretation takes every turn, next instruction or back to the first, and ends behind the first that leaves the block or stops |
| RunTraces.RecordTrace | src/hart/hart.cpp:564-603 | recording keeps every instruction that falls through, with its function, up to the bound, and ends at the first that does not |
| RunTraces.CachedStepDecodesNothing | src/hart/hart.cpp:539-545 | a step at a pc with an interpreted block in the cache is the same whatever the decoder |
| RunTraces.RecordedIsFound | src/hart/hart.cpp:558-606 | what a step without the JIT recorded is what the next lookup of its pc finds |
| RunTraces.PromotedAtBound | src/hart/threaded_code.hpp:40-56 | a block gets its code at exactly the lookup that brings its count to the bound, if the JIT is on and it holds no branch and no jal |
| Termination.FunctionEnds | src/hart/jit/compiler.hpp:48-78 | compiled code ends if the slow machine stops within N instructions, with fuel linear in N |
| Termination.UntilEnds | src/hart/hart.cpp:300-304 | so does run_until_pc, whatever the return pc |
| Termination.StepEnds | src/hart/hart.cpp:539-607 | so does a step by any path |
| Termination.StoppingProgramsStop | src/machine/machine.cpp:71-77 | a program on which the slow machine stops ends under every setting, in the slow machine's final state |
| Termination.RunEndsIffMachineStops | src/machine/machine.cpp:71-77 | a run ends for some fuel if and only if the slow machine stops |
| Termination.SettingsDoNotMatterForEnding | src/hart/threaded_code.hpp:18-24 | whether it ends does not depend on JIT settings, ranges or caches |
| RunTheorems.CachedStepIsKSteps | src/hart/hart.cpp:539-607 | without the JIT a step that reports k has made exactly k single steps and counted k |
| RunTheorems.RunIsSlowRun | src/machine/machine.cpp:71-77 | every run from an empty or predecoded cache ends, stopped or at the bound, where the slow machine is after exactly n instructions; cycles plus lost ones are n, and cycles are n if and only if no plain compiled block was executed inside a nested call |
| LostInstructions.CallLoses | src/hart/jit/trampolines.cpp:24-33 | a trampoline call to a compiled plain block executes instructions and counts none of them |
| LostInstructions.LinkLoses | src/hart/jit/jit_instruction_factory.hpp:1087-1117 | so does compiled code at an instruction that calls such a block |
| LostInstructions.CyclesFallShort | src/hart/hart.cpp:300-304 | an assembled program that, from an empty cache, ends as it should after seven instructions and reports fewer cycles: its second call of a function outside executable memory enters the block the first one recorded |
| RunTheorems.SettingsDoNotMatter | src/hart/threaded_code.hpp:18-24 | programs that halt do so in the same state under all JIT settings, ranges and cache sizes |
| RunTheorems.HaltUnwindsEveryFrame | src/hart/jit/trampolines.cpp:20-33 | after an ecall at any call depth no enclosing frame executes another guest instruction; what is lost never decreases |
| RunTheorems.WindowIsPlaced | src/hart/jit/naive_cache.hpp:25-27 | the window condition suffices for the cache |
| RunTheorems.LookupAfterInstall | src/hart/jit/naive_cache.cpp:18-25 | after an install a lookup returns that block for exactly the pcs with its word index modulo the capacity, and it is the block of the pc if and only if it starts there |
| RunTheorems.X0CellMatters | src/hart/jit/jit_instruction_factory.hpp:1162-1168 | emitted code agrees on reading x0 if and only if its cell holds 0 |
| RunTheorems.DecodedIsFormatted | src/decode_execute_module/decoder/rv32i_decoder_gen.cpp:517-611 | branches and jal carry the formats promotion looks for |
| Programs.EcallProgramIsGood | src/decode_execute_module/executer/rv32i_executer_gen.cpp:3029-3050 | any hart in Bare mode at an ecall word meets the hypotheses of the run theorems under the shipped decoder |
| Programs.EcallWordIsGood | src/decode_execute_module/decoder/rv32i_decoder_gen.cpp:634-842 | such as a hart at the word 0x73 |
| Programs.CallProgramIsGood | src/hart/jit/jit_instruction_factory.hpp:1087-1117 | so does an assembled program with two calls, returns and an ecall, for all ranges, JIT settings and caches of eight slots or more |
| Programs.ProgramHolds | src/decode_execute_module/decoder/rv32i_decoder_gen.cpp:31-842 | instructions assembled into memory one after the other are what the decoder finds there |
| Predecode.DoneExactly | src/hart/hart.cpp:223-275 | it succeeds if and only if the JIT is on, some range is given, some set with the entry is closed under direct calls without a fetch fault, and both bounds hold; it faults exactly without such a set |
| Predecode.PredecodeCovers | src/hart/hart.cpp:223-275 | on success exactly the least set with the entry was built that holds every executable pc a member's block calls directly, by a jal with rd != 0, within the two bounds, and each entry with a slot of its own finds its compiled function there; from a pc that is not executable nothing is built |
| Predecode.SkipVisited | src/hart/hart.cpp:253-257 | not pushing seen callees changes nothing |
| Predecode.CollectBlocks | src/hart/hart.cpp:228-258 | the collecting loop yields those blocks and their instruction total |
| Predecode.PredecodedIsSound | src/hart/hart.cpp:270-272 | a predecoded cache is as good a start as an empty one |
| HartMachine.Hart.Dispatch | src/hart/hart.cpp:507-509 | one call through a stored exec function pointer, with next_pc as the instruction leaves it |
| HartMachine.Hart.ExecuteByOpcode | src/decode_execute_module/executer/rv32i_executer_gen.cpp:3143-3200 | executes by opcode and returns the function that did |
| HartMachine.Hart.Lookup | src/hart/threaded_code.hpp:40-56 | counts the lookup in place and attaches code to a block that has become hot |
| HartMachine.Hart.RecordLoop | src/hart/hart.cpp:564-603 | the recording loop, which keeps each instruction with its function |
| HartMachine.Hart.InterpretLoop | src/hart/hart.cpp:485-534 | the interpreting loop |
| HartMachine.Hart.ExecuteCachedBlock | src/hart/hart.cpp:454-537 | equals the block execution the simulation is proved about |
| HartMachine.Hart.RunCompiled | src/hart/jit/jit_basic_block.hpp:57-59 | running emitted code in place, nested calls included |
| HartMachine.Hart.CallTrampoline | src/hart/jit/trampolines.cpp:24-33 | equals the modelled call |
| HartMachine.Hart.EnsureJitFunction | src/hart/hart.cpp:277-292 | whether compiled code for the entry is in the cache afterwards, and the cache left |
| HartMachine.Hart.ExecuteJittedFunction | src/hart/hart.cpp:294-298 | runs the entry's code if it has any |
| HartMachine.Hart.RunUntilPc | src/hart/hart.cpp:300-304 | the stepping loop of a call that cannot be compiled |
| HartMachine.Hart.Step | src/hart/hart.cpp:539-607 | equals the modelled step, its whole new state included |
| HartMachine.Hart.PredecodeAndJitIfSmall | src/hart/hart.cpp:223-275 | equals the modelled predecoding |
| HartMachine.Hart.Run | src/machine/machine.cpp:71-77 | the run loop and its cycle total |
| Simulator.PredecodeNeverFaults | src/hart/hart.cpp:326-328 | predecoding a good program never aborts |
| Simulator.Simulate | src/machine/machine.cpp:64-77 | the simulator end to end: if it ends, the hart is where n single steps lead; cycles are at most n, and n if and only if no plain compiled block was executed inside a nested call |
| Decoder.DispatchIsListing | src/decode_execute_module/decoder/rv32i_decoder_gen.cpp:634-842 | a word is dispatched to an instruction if and only if its opcode and the fields tested for it are the listed ones |
| Decoder.DecodedOperands | src/decode_execute_module/decoder/rv32i_decoder_gen.cpp:517-611 | for every word but the unknown ones: rs1, rs2 and rd are bits 19:15, 24:20 and 11:7 for the opcodes listed and unset for the others, and the immediate is that of the opcode's format |
| Decoder.JImmediate | src/decode_execute_module/decoder/rv32i_decoder_gen.cpp:53-59 | the scrambled J immediate comes back sign-extended |
| Decoder.BFields | src/decode_execute_module/decoder/rv32i_decoder_gen.cpp:41-47 | every field of a B word comes back, immediate included |
| Decoder.AssembleThenDecode | src/decode_execute_module/decoder/rv32i_decoder_gen.cpp:31-842 | every instruction with operands in range, registers exactly where the manual's list of opcodes has them, decodes, once assembled, to itself |
| DecoderGen.MatchIsDispatched | isa/dsl/rv32i_decoder_gen.rb:171-202 | for every well-formed table a word matching all declared fields of an entry is dispatched to it |
| DecoderGen.MatchIsUnique | isa/dsl/rv32i_decoder_gen.rb:171-202 | no word matches two entries |
| DecoderGen.TestedIsDispatched | isa/dsl/rv32i_decoder_gen.rb:171-202 | the fields the switches test suffice |
| DecoderGen.DispatchedIsTested | isa/dsl/rv32i_decoder_gen.rb:171-202 | and are necessary: whatever is dispatched to an entry has them |
| DecoderGen.GroupByKey | isa/dsl/rv32i_decoder_gen.rb:172 | grouping in order of first occurrence, members in table order |
| DecoderGen.GenerateOpcodeDispatch | isa/dsl/rv32i_decoder_gen.rb:171-202 | the nested loops build the switches the theorems are about |
| ShippedDecoder.TableIsWellFormed | isa/rv64i_isa.yml:1-362 | the shipped table meets the conditions under which the generated switches are right |
| ShippedDecoder.GeneratedIsDecoder | src/decode_execute_module/decoder/rv32i_decoder_gen.cpp:634-842 | for every word the switches generated from the shipped table dispatch what the shipped decoder does, and are silent exactly where it answers UNKNOWN |
| Constants.LiteralExactly | isa/dsl/rv32i_executer_gen.rb:242 | the emitted literal of an integer v has v's 64-bit value if and only if 0 <= v < 2^64 or -2^64 < v <= -2^32 |
| Constants.CountOfInteger | isa/dsl/scope.rb:145-155 | masking an integer's low five bits masks those of its 64-bit value, and gives a constant that is emitted right |
| Constants.ShippedLiterals | isa/rv64i_isa.yml:1-362 | the constants 1, 4, 12 and 31 of the description and the DSL are emitted right |
| Dsl.BinRuns | isa/dsl/scope.rb:37-43 | one operation on values of which at most one is a constant, and that emitted with its value |
| Dsl.ShiftRuns | isa/dsl/scope.rb:145-155 | a word shift masks its count, a constant one of whatever sign included, and leaves the 32-bit result extended as declared |
| Dsl.NotLessRuns | isa/dsl/scope.rb:120-121 | `ge` and `geu`, as neq(lt, 1), give the negated comparison |
| DslNumbers.BinComparisonsAre | isa/dsl/rv32i_executer_gen.rb:243-256 | eq, neq, lt, gt, ltu and gtu yield 1 or 0 as the signed or unsigned numbers compare |
| DslNumbers.NotLessAre | isa/dsl/scope.rb:120-121 | so do ge and geu |
| Dsl.MemLoadRuns | isa/dsl/scope.rb:46-51 | a load reads the translated bytes, zero-extended whatever sign is declared, or ends the process |
| Dsl.BuildRuns | isa/dsl/scope.rb:17-155 | with constants that are emitted right, the emitted statements leave the expression's 64-bit value in its result, end the process exactly if a load faults, and overwrite no earlier temporary |
| DslPrograms.AllRun | isa/dsl/scope.rb:46-90 | the same for whole bodies with assignments, jumps, stores, ecall and nested if_expr scopes |
| DslPrograms.StoreRuns | isa/dsl/scope.rb:53-57 | a store writes the translated bytes, or ends the process |
| CppScopes.BuildIsValid | isa/dsl/rv32i_executer_gen.rb:224-242 | an expression's code is valid C++ if and only if there is at most one constant and one word operation of each kind, no literal on the left, and literals of less than 64 bits |
| CppScopes.ValidCodeIsRight | isa/dsl/rv32i_executer_gen.rb:213-279 | whatever expression compiles computes its value, unless it has a negative constant of less than 32 bits |
| CppScopes.MinusOneIsWrong | isa/dsl/rv32i_executer_gen.rb:242 | rs1 + (-1) compiles and always computes the wrong sum, rs1 + 2^32 - 1 |
| CppScopes.SecondConstantWins | isa/dsl/constant.rb:5-8 | two constants in one operation: the second is read for both |
| CppBodies.BodyIsValid | isa/dsl/rv32i_executer_gen.rb:213-279 | a body is valid C++ if and only if that holds of each of its scopes, if_exprs included |
| CppBodies.GeneratedIsValid | isa/dsl/rv32i_executer_gen.rb:154-279 | so is the whole execute function |
| CppBodies.ShippedBodiesAreValid | isa/rv64i_isa.yml:1-362 | the function generated for every instruction of the ISA description, csrw aside, is valid |
| CppBodies.ValidBodyIsRight | isa/dsl/rv32i_executer_gen.rb:213-279 | whatever body compiles, assigns rd only where it is in scope, and has no negative constant of less than 32 bits, does what it says |
| ScopeBuilder.Scope.BinaryOp | isa/dsl/scope.rb:37-43 | appends exactly the statements of one operation |
| ScopeBuilder.Scope.WordStmt | isa/dsl/scope.rb:137-155 | appends exactly the statements of one word operation |
| ScopeBuilder.Scope.Evaluate | isa/dsl/scope.rb:46-155 | evaluating an expression appends exactly its statements |
| ScopeBuilder.Scope.PerformAll | isa/dsl/scope.rb:46-90 | the same for a body, stores and if_expr scopes of their own included |
| GeneratedExecuter.GeneratedRuns | isa/dsl/instruction_builder.rb:22-33 | an execute function reads its sources, runs the body and writes rd |
| GeneratedExecuter.ValueMatches | isa/rv64i_isa.yml:68-334 | the body of every arithmetic instruction computes the executer's value |
| GeneratedExecuter.ConditionMatches | isa/rv64i_isa.yml:275-323 | every branch condition is nonzero exactly when the branch is taken |
| GeneratedExecuter.GeneratedIsExecute | isa/dsl/rv32i_executer_gen.rb:154-279 | the execute function generated from the ISA description of any instruction but csrw has exactly the effect used as its meaning everywhere else, loads, stores and their faults included |

## Left out

- EmitEffect.CodeAgrees: does not cover csrw, nor auipc with an immediate of 2^19 or more: shifted left by 12 it does not fit the sign-extended 32-bit immediate of an x86 add.
- Isa.ExecuteKeeps: csrw changes satp in the source; its rd is never decoded, and executing it aborts in the model.
- Compiler.Assembler.CompileFunctionInstr: emits nothing for csrw.
- GeneratedExecuter.GeneratedIsExecute: csrw's body, and the default case for unknown instructions, which has none.
- ByteMemory.PhysicalMemory.LoadData: what a copy past the end of the buffer leaves there is undefined in C++ and not said (ZeroInit likewise).
- CppBodies.ShippedBodiesAreValid: csrw's body is not among them.
- Constants.LiteralExactly: integers of 2^64 or more in magnitude have no C++ literal; what a compiler makes of them is not said.
- Any change of satp during a run of the fast paths.
- Real x86 encoding, asmjit, host registers and calling convention, and the lifetime of code whose slot is overwritten while it runs: emitted code is an abstract instruction list that stays available.
- The AArch64 emitters.
- Runs that never end: of these it is only proved that they do not end under any setting.
- The host scratch registers that survive a call, other than rax, are modelled as holding one arbitrary value.
- Memory bounds: for the hart addresses wrap at 2^64 and every byte exists. PhysicalMemory has bounds and is written in place; hart and MMU hold memory as a value (a function from addresses to bytes) that they reassign.
- The instruction counter and the lookup counter are unbounded numbers.
- The block cache and the JIT are proved against a hart that translates by the pure walk; that the slow machine is the same with the TLBs is proved separately, in TlbRuns, and the two are not composed.
- std::sort is insertion into a sorted sequence; unordered containers are sequences and maps.
- The emitters of single instructions are functions giving the sequence appended, not one method each.
- The DSL's csr and ebreak statements, and name errors for registers used inside if_expr.
- FlowEdges.EdgesAreReal: not stated for csrw, which aborts in the model.
- C++ scopes: only redeclared and undeclared variables are considered.
- ELF loading, configuration, command line, statistics and debug output, modules and callbacks.
- The format of an unknown word, which the source leaves uninitialised and build_function_block reads: the decoder model gives it a format of its own.
- Privilege levels, ASIDs, A/D/U/G bits and permission checks, which the simulator does not implement.
