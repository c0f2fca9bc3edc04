# LBMacTwo: proofs about the bench generators, the trace and history recorders, and the HFS tools

The repository brings up a Macintosh-II-class FPGA core and checks it against other 68020/68881
implementations. Three families of its code carry the weight of those checks, and this project models them:

* **The bench generators** (`cpu_bench.c`, `cpu_test_macii.c`, `fpu_bench.c`, `cpu_fpu_bench.c`). Each
  assembles a machine-code program into a byte buffer - reset, preload, dump, test, dump, RTS - and calls
  it. The modules `Emit`, `StateDump`, `CpuBench`, `MaciiBench`, `FpuBench` and `CpuFpuBench` hold the
  emitters as methods over an `array` of bytes; `M68k` is the instruction set they emit with encoder and
  decoder; `Machine` executes it on a big-endian byte memory. What a preload or test does is an arbitrary
  environment (`Machine.Env`), so the theorems hold for every test, not for the ones in today's corpus.
* **The recorders** in `verilator/sim_main.cpp`: the eight-entry window that tells opcodes from extension
  words (`TraceGrouper`) and the 512-entry history ring (`HistoryRing`).
* **The HFS tools**: the B-tree leaf walk (`LeafWalk`), the forward and reverse extent maps (`ExtentMaps`),
  the changed-sector provenance report (`Provenance`) and the MDB repair (`MdbRepair`).

`CorpusDiff` is the comparison of two benches' snapshots, and `LayoutIndependence` proves that two benches
which place code, snapshots and scratch RAM differently still compare as a match. `Invoke` and
`WholeSession` add the call around a program, `StopRewrite`, `Footprint`, `StopBytes` and `StraightLine` the
effect of rewriting STOP, `CorpusReport` the report over two corpora.

Instruction semantics follow the M68000 Family Programmer's Reference Manual: section 4 (integer
instructions), section 5 (floating point), section 6 (STOP).

## Main results

1. **Observation transparency** (`CpuBench.ObservationTransparency`): for every preload and every
   fall-through test, the test starts in exactly the state `init_snap` records and `final_snap` records
   exactly the state it ends in. For the FPU bench (`FpuBench.FpuObservation`) that holds of D0-D7, A1-A7,
   FP0-FP7 and FPCR; A0 is recorded as it was but inherited as the address behind the FP area, and FPSR
   and FPIAR are recorded as the dump's own FMOVE.X leave them.
2. **Layout independence** (`LayoutIndependence.LayoutIndependence`): any two placements of one test over
   one-word D-register operations of any size and meaning, immediates, `LEA d16(A6),An` and in-window
   longword `d16(A6)` accesses report snapshots that `classify` calls a match.
3. **STOP rewriting** (`StopRewrite.StopRewriting`): if the original run reaches the STOP that is rewritten
   and leaves its bytes alone, the built program dumps the registers the original had there. For
   straight-line programs `StraightLine.StraightLineExact` says exactly when the dump is reached at all, by
   a condition on the program alone, and `StraightLine.StraightLineDumps` what it then holds.
4. **Returning** (`Invoke.SessionReturns`, `MaciiBench.SessionReturns`): the program comes back to its JSR
   with every callee-saved register restored, through the RTD epilogue or the A7 bracket;
   `WholeSession.Session` is one test from the caller's registers back to them, with no hypothesis on the run.
5. **The FPU dump** (`FpuBench.FpuDumpEffect`, `FpuBench.FpuDumpTiles`): every register but
   FPSR and FPIAR recorded as it was, all but A0, CCR and those two kept, every snapshot byte written once.
6. **The streaming trace** (`TraceGrouper.Grouper.OnFetch`, `TraceGrouper.WindowExact`) refines decoding
   each sequential run as a whole, and **the ring** (`HistoryRing.Ring.Dump`) holds the newest 512 entries.
7. **The HFS tools**: the leaf walk reports no anomaly if and only if the chain is sound
   (`LeafWalk.NoAnomalyMeansSound`); the reverse extent map is always right and the forward one is covered by
   it exactly on volumes with whole sectors per block (`ExtentMaps.ReverseThenForward`,
   `ExtentMaps.ForwardExact`); every sector of a COPY run is a copy (`Provenance.CopyRunMeans`); the MDB
   repair is idempotent (`MdbRepair.RepairIdempotent`).
8. **The corpus report** (`CorpusDiff.VerdictMeans`, `CorpusReport.BuildReport`): each of the ten categories is
   given exactly under its condition on the two tests' snapshots; every row is true of its tests, and the totals,
   the table per operation and the pass rates are those of the rows.

## Where the code does not do what its comments say

A promise that fails comes with the exact condition under which it holds and an input at which it fails.

* `SingleStepTests/gen/cpu_test_macii.c:114-129` promises that the recorded initial CCR is the value the test
  inherits. The MOVE.L A7 at line 185 sets the flags afterwards. `MaciiBench.InheritedCcr` and
  `MaciiBench.CcrConsistent` give the exact condition: A7 and the last scratch longword agree on being
  negative and on being zero. With the scratch RAM zeroed, as line 282 leaves it, and any stack it fails:
  `MaciiBench.ZeroScratchDiffers`.
* `SingleStepTests/macos_bench/cpu_fpu_bench.c:71-86` takes the bytes 4E 72 27 00 to be an instruction.
  Inside straight-line code they can only be an immediate longword (`StopBytes.StopInside`). Then that
  immediate is changed and the program halts at its own STOP; likewise if the data behind the STOP ends in
  those bytes. `StraightLine.StraightLineExact`: the dump is reached if and only if nothing follows the STOP,
  or neither is the case. `StopRewrite.DecoyBreaks` is one such program. For other programs
  `StopRewrite.StopRewritingExact` covers the runs that leave the rewritten bytes alone.
* `SingleStepTests/macos_bench/fpu_bench.c:136-153` records A0 before clobbering it, so the snapshot is right,
  but the test inherits A0 = init_snap + 0x60: `FpuBench.InheritedA0`, and `FpuBench.ResetA0Differs` for every
  test without preload. FPSR and FPIAR are stored after eight FMOVE.X of the dump's own; on a 68881 that
  keeps instruction addresses in FPIAR (`SingleStepTests/README.md:94-97`) the recorded FPIAR is an address
  inside the dump: `FpuBench.RecordedFpiar`.
* `verilator/sim_main.cpp:1929-1930` says eight words are enough and the full-buffer case should not happen.
  It happens in every sequential run of nine fetches, and is harmless unless an instruction is longer than
  eight words: `TraceGrouper.WindowExact`. The disassembler sees five words and reads zeros behind them
  (`verilator/sim/m68k_dasm_stubs.cpp:76-88`), so not every long instruction is taken for one, but
  MOVE.L (bd.L,A0,D0.W),([bd.L,A1,D0.W],od.L) is nine words to it and is cut: `TraceGrouper.NineWordsCut`.
  A first fetch at FFFFFFFF is dropped: `TraceGrouper.FirstFetch`.
* `scripts/repair_hfs_mdb_stamps.py:71`: the recomputed words may be stamp words themselves, or
  drAlBlSt may not fit 16 bits, which raises an error before anything is written. `MdbRepair.StampsGone`
  is the exact condition for the first and `MdbRepair.StampStays` a block; the outcome `Overflow` of
  `MdbRepair.Repair` is the second and `MdbRepair.FirstBlockOverflows` a block.
* `scripts/hfs_forensics.py:40`: with a block size that is no multiple of 512, `owner_of` misses the end of
  every extent of every fork (`ExtentMaps.MisalignedLosesBytes`); what it does report is still right
  (`ExtentMaps.ReverseThenForward`).
* `SingleStepTests/macos_bench/cpu_fpu_bench.c:36` holds programs of 120 bytes, or 124 with a STOP at the end;
  longer ones are written past it without a check: `CpuFpuBench.FitsExactly`.
* `SingleStepTests/gen/cpu_diff_corpus.py`: the category help speaks of A0..A6; A0..A5 are compared (line 63).

## Model

| member | source | states |
|---|---|---|
| M68k.DecodeEncode | SingleStepTests/macos_bench/cpu_bench.c:74-91 | the encoding of every instruction decodes back to it whatever bytes follow |
| M68k.EncodeDecode | SingleStepTests/macos_bench/cpu_bench.c:74-91 | bytes that decode to an instruction begin with that instruction's encoding: no two encodings of one instruction |
| M68k.DecodeEncodeAll | SingleStepTests/macos_bench/cpu_bench.c:74-126 | the concatenated bytes of any list of instructions decode back to exactly that list |
| M68k.EncodeDecodeAll | SingleStepTests/macos_bench/fpu_bench.c:63-118 | a byte string that decodes to a list of instructions is the concatenation of their encodings |
| M68k.ClearCode | SingleStepTests/macos_bench/cpu_bench.c:155-158 | MOVEQ #imm,Dn is 70+2n imm, SUBA.L Am,An is 91+2n C8+m |
| M68k.ReturnCode | SingleStepTests/macos_bench/cpu_bench.c:199-202 | SUBQ.L #4,A7 is 59 8F, RTS is 4E 75 |
| M68k.LoadCode | SingleStepTests/macos_bench/cpu_bench.c:86-88 | MOVEA.L #,An is 20+2n 7C, MOVE.L #,Dn 20+2n 3C, MOVEA.L addr,An 20+2n 79, each with its longword |
| M68k.StoreCode | SingleStepTests/macos_bench/cpu_bench.c:80-124 | the stores of Dn, An, a longword and CCR are 23 C0+n, 23 C8+n, 23 F9 and 42 F9, each with its addresses |
| M68k.ControlCode | SingleStepTests/macos_bench/cpu_fpu_bench.c:71-107 | MOVE #,CCR is 44 FC, BRA.W is 60 00 and STOP is 4E 72, each with its word |
| M68k.FpuCode | SingleStepTests/macos_bench/fpu_bench.c:105-118 | FMOVE.X FPn,(Am)+ is F2 18+m 68 00 plus 80 hex for each n, FMOVE.L of a control register F2 39 with B0, A8 or A4, 00 and the address |
| M68k.AluCode | SingleStepTests/gen/cpu_tests.h:184-331 | MOVE.L, ADD.L, SUB.L and CMP.L Dm,Dn are the bytes the test tables write for them |
| M68k.UnaryCode | SingleStepTests/gen/cpu_tests.h:496-978 | NEG.L, NOT.L, SWAP, CLR.L and TST.L Dn are the bytes the test tables write for them |
| M68k.IndexedCode | SingleStepTests/gen/cpu_tests.h:144-797 | LEA d16(A6),An and MOVE.L between Dn and d16(A6) are the bytes the test tables write for them |
| Emit.PutW | SingleStepTests/macos_bench/cpu_bench.c:74 | two bytes, big end first, at the write position, the rest of the buffer unchanged |
| Emit.PutL | SingleStepTests/macos_bench/cpu_bench.c:75-78 | four bytes, big end first, at the write position, the rest of the buffer unchanged |
| Emit.PutBytes | SingleStepTests/macos_bench/cpu_bench.c:181-182 | the copied bytes stand at the write position, the rest of the buffer unchanged |
| Emit.EmitMoveLDnToAbs | SingleStepTests/macos_bench/cpu_bench.c:80-82 | the bytes written are the encoding of MOVE.L Dn,addr |
| Emit.EmitMoveLAnToAbs | SingleStepTests/macos_bench/cpu_bench.c:83-85 | the bytes written are the encoding of MOVE.L An,addr |
| Emit.EmitMoveLAbsToAbs | SingleStepTests/macos_bench/cpu_bench.c:119-123 | the bytes written are the encoding of MOVE.L src,addr with both addresses absolute |
| Emit.EmitMoveaLImmToAn | SingleStepTests/macos_bench/cpu_bench.c:86-88 | the bytes written are the encoding of MOVEA.L #imm,An |
| Emit.EmitMoveLImmToDn | SingleStepTests/macos_bench/cpu_fpu_bench.c:53-56 | the bytes written are the encoding of MOVE.L #imm,Dn |
| Emit.EmitMoveWImmToCcr | SingleStepTests/macos_bench/cpu_bench.c:89-91 | the bytes written are the encoding of MOVE #imm,CCR with the immediate cut to its low byte |
| Emit.EmitMoveCcrToAbs | SingleStepTests/macos_bench/cpu_bench.c:114 | the bytes written are the encoding of MOVE CCR,addr |
| Emit.EmitMoveaLAbsToA7 | SingleStepTests/macos_bench/cpu_bench.c:197-198 | the bytes written are the encoding of MOVEA.L addr,A7 |
| Emit.EmitSubqA7 | SingleStepTests/macos_bench/cpu_bench.c:199 | the bytes written are the encoding of SUBQ.L #4,A7 |
| Emit.EmitRts | SingleStepTests/macos_bench/cpu_bench.c:202 | the bytes written are the encoding of RTS |
| Emit.EmitFmoveXToAnPostinc | SingleStepTests/macos_bench/fpu_bench.c:105-109 | the bytes written are the encoding of FMOVE.X FPn,(An)+ |
| Emit.EmitFmoveLCtrlToAbs | SingleStepTests/macos_bench/fpu_bench.c:113-118 | the bytes written are the encoding of FMOVE.L of a control register to an absolute address |
| Emit.EmitClearD | SingleStepTests/macos_bench/cpu_fpu_bench.c:65 | the loop writes the encoding of MOVEQ #0 into each of Dfirst to D7 |
| Emit.EmitClearA | SingleStepTests/macos_bench/cpu_bench.c:157-158 | the loop writes the encoding of SUBA.L An,An for each of A0 to A(count-1) |
| Machine.StepExecutes | SingleStepTests/macos_bench/cpu_bench.c:202-203 | the processor executes the instruction whose encoding lies at its program counter, whatever surrounds it |
| Machine.CcrBits | SingleStepTests/macos_bench/cpu_bench.c:98-107 | X, N, Z, V and C are the bits 4 to 0 of a stored CCR |
| Machine.SubtractMeans | SingleStepTests/gen/cpu_tests.h:220-331 | after SUB and CMP Z, C and N with V order the operands, unsigned and signed; C and V tell exactly when the result is not the true difference; CMP keeps operand and X |
| Machine.AddMeans | SingleStepTests/gen/cpu_tests.h:184-187 | C and V tell exactly when the result is not the true unsigned or signed sum; SUB takes it back |
| Machine.UnaryMeans | SingleStepTests/gen/cpu_tests.h:496-535 | NEG is SUB from zero, NOT undoes itself and is one less than NEG, SWAP exchanges the two words |
| Machine.DestinationFlags | SingleStepTests/macos_bench/cpu_bench.c:155-156 | moves into Dn, CLR, TST, NOT and SWAP set N and Z from what they leave, clear V and C, keep X and every other register; MOVEQ extends its sign |
| Machine.SourceFlags | SingleStepTests/macos_bench/cpu_bench.c:98-107 | stores change no register but CCR, which gets N and Z of the value stored |
| Machine.AluDestination | SingleStepTests/gen/cpu_tests.h:184-331 | the second register of MOVE, ADD, SUB and CMP is the destination, and nothing else changes but CCR |
| Machine.AddressArithmetic | SingleStepTests/macos_bench/cpu_bench.c:157-158 | SUBA is undone by adding; displacements count from -32768 to 32767 |
| Machine.RunLinear | SingleStepTests/macos_bench/cpu_bench.c:142-204 | straight-line code that does not write on itself has the effect of the list it encodes and falls through to the byte behind it |
| Machine.StoresEffect | SingleStepTests/macos_bench/cpu_bench.c:115-123 | stores whose cells are apart leave in each cell the value its source had before the first of them |
| StateDump.EmitSavesA | SingleStepTests/macos_bench/cpu_bench.c:115-116 | 48 bytes: the stores of A0 to A7 |
| StateDump.EmitSavesD | SingleStepTests/macos_bench/cpu_bench.c:117-118 | 48 bytes: the stores of D0 to D7 |
| StateDump.EmitSavesRam | SingleStepTests/macos_bench/cpu_bench.c:119-123 | 160 bytes: the copies of the sixteen scratch longwords |
| StateDump.EmitStateDump | SingleStepTests/macos_bench/cpu_bench.c:109-126 | 262 bytes: the dump's code with CCR last when it is the initial dump and first otherwise |
| StateDump.SavesEffect | SingleStepTests/macos_bench/cpu_bench.c:115-123 | the saves put every register and the scratch RAM into the snapshot and change no register but pc and CCR, nor any byte outside the snapshot |
| StateDump.DumpEffect | SingleStepTests/macos_bench/cpu_bench.c:93-126 | from any state the dump keeps D0-D7, A0-A7 and all memory but the snapshot, whose contents are the entry state with the exit CCR (initial) or the entry CCR (final) |
| StateDump.DumpSpares | SingleStepTests/macos_bench/cpu_bench.c:95-97 | a dump never writes on memory apart from its snapshot, in particular not on the code still to run |
| CpuHarness.PreludeRuns | SingleStepTests/macos_bench/cpu_bench.c:148-164 | from any state sixteen steps leave D0-D7, A0-A5 and CCR zero, A6 at the scratch RAM, A7 and all memory unchanged |
| CpuHarness.DumpRuns | SingleStepTests/macos_bench/cpu_bench.c:109-126 | dump code in memory runs in 33 steps to the byte behind it with the effect of the dump |
| CpuBench.ProgramLength | SingleStepTests/macos_bench/cpu_bench.c:142-204 | 564 bytes plus preload and test, 8 more with the RTD epilogue, and never more than the 1024 of the buffer |
| CpuBench.Bench.BuildProgram | SingleStepTests/macos_bench/cpu_bench.c:142-204 | the buffer holds the program of the test, the rest of it unchanged; behind the final dump stand 2E 79, the address of g_saved_sp, 59 8F and 4E 75 if "RTD #" stands somewhere in the name and "RTD #0" nowhere, else 4E 75 alone; init_pc and final_pc are the addresses of the test and of the final dump |
| CpuBench.Bench.EmitEpilogue | SingleStepTests/macos_bench/cpu_bench.c:188-202 | the bytes written are the reload of A7 from g_saved_sp, SUBQ and RTS exactly if "RTD #" stands at some offset of the name and "RTD #0" at none, and RTS alone otherwise |
| CpuBench.ContainsMeans | SingleStepTests/macos_bench/cpu_bench.c:195-196 | the search finds a string if and only if it stands at some offset of the name |
| CpuBench.InitDumpRuns | SingleStepTests/macos_bench/cpu_bench.c:172-181 | the initial dump runs into the test; registers and scratch RAM are the preload's, the flags its X with N and Z of the last scratch longword, and init_snap equals the state reached |
| CpuBench.FinalDumpRuns | SingleStepTests/macos_bench/cpu_bench.c:184-186 | the final dump records the state it is entered in and runs into the epilogue |
| CpuBench.ObservationTransparency | SingleStepTests/macos_bench/cpu_bench.c:93-204 | for every preload and fall-through test: the test starts in the state init_snap records and final_snap is the state its bytes make of it |
| CpuBench.CcrConsistent | SingleStepTests/macos_bench/cpu_bench.c:98-107 | the two recorded CCR values differ exactly when the test itself changed the flags |
| CpuBench.ReturnsTo | SingleStepTests/macos_bench/cpu_bench.c:188-202 | the epilogue pops its return address at saved SP - 4 where A7 is reloaded, at the A7 the test left otherwise, and changes nothing else |
| Invoke.PopPush | SingleStepTests/macos_bench/cpu_bench.c:229-234 | popping the frame gives back the registers pushed, on any memory that agrees on the frame |
| Invoke.EnterStack | SingleStepTests/macos_bench/cpu_bench.c:229-232 | on entry pc and A0 are the entry point and A7 is 48 lower, g_saved_sp points at the frame, the return address lies right below it, and the other registers are as they were |
| Invoke.InvokeRestores | SingleStepTests/macos_bench/cpu_bench.c:226-239 | whatever state comes back, if frame and g_saved_sp are intact, D2-D7, A2-A6 and A7 are the caller's |
| Invoke.SessionReturns | SingleStepTests/macos_bench/cpu_bench.c:188-239 | a test with the epilogue returns to the JSR for every A7 it leaves, others for A7 as it was; final_snap is kept and the caller's registers come back |
| Invoke.PlainReturns | SingleStepTests/macos_bench/cpu_bench.c:188-202 | without the epilogue the RTS returns to the JSR if and only if the longword at the A7 the test left is the return address |
| MaciiBench.ProgramLength | SingleStepTests/gen/cpu_test_macii.c:150-207 | 576 bytes plus preload and test, never more than the buffer |
| MaciiBench.Bench.BuildProgram | SingleStepTests/gen/cpu_test_macii.c:150-207 | the buffer holds the program and the PC markers enclose the test's own bytes, inside the bracket |
| MaciiBench.InitRuns | SingleStepTests/gen/cpu_test_macii.c:180-196 | the test starts with the registers and scratch RAM of init_snap but with the flags of A7, and saved_a7 holds A7 |
| MaciiBench.InheritedCcr | SingleStepTests/gen/cpu_test_macii.c:114-129 | the recorded initial CCR is the one inherited if and only if A7 and the last scratch longword agree on sign and on being zero |
| MaciiBench.ZeroScratchDiffers | SingleStepTests/gen/cpu_test_macii.c:180-186 | with zero scratch RAM and a nonzero A7 the recorded CCR is never the one inherited |
| MaciiBench.CcrConsistent | SingleStepTests/gen/cpu_test_macii.c:126-129 | for a test that leaves the flags alone the two recorded CCR values are equal if and only if the same condition holds |
| MaciiBench.FinalRuns | SingleStepTests/gen/cpu_test_macii.c:198-205 | final_snap records D0-D7, A0-A6, CCR and scratch RAM as the test left them and A7 as saved |
| MaciiBench.BracketReturns | SingleStepTests/gen/cpu_test_macii.c:61-81 | whatever A7 the test leaves, the program returns to where A7 pointed before the test, if saved_a7 and that longword are intact |
| MaciiBench.SessionReturns | SingleStepTests/gen/cpu_test_macii.c:180-230 | with A7 kept by the preload the program returns to the JSR and the caller's D2-D7, A2-A6 and A7 come back |
| FpuBench.EmitReset | SingleStepTests/macos_bench/fpu_bench.c:120-134 | 30 bytes: the code clearing D0-D7 and A0-A6 |
| FpuBench.EmitSavesFp | SingleStepTests/macos_bench/fpu_bench.c:145-146 | 32 bytes: the eight FMOVE.X through A0 |
| FpuBench.EmitSavesCtrl | SingleStepTests/macos_bench/fpu_bench.c:149-151 | 24 bytes: the stores of FPCR, FPSR and FPIAR |
| FpuBench.EmitFpuDump | SingleStepTests/macos_bench/fpu_bench.c:136-153 | 158 bytes: the dump's code |
| FpuBench.SavesFpRegs | SingleStepTests/macos_bench/fpu_bench.c:145-146 | the FMOVE.X loop leaves A0 behind its last store and changes no other integer register |
| FpuBench.SavesFpMem | SingleStepTests/macos_bench/fpu_bench.c:145-146 | each FP register lies at 12 times its number from the start, and nothing outside the 96 bytes changes |
| FpuBench.FpuDumpEffect | SingleStepTests/macos_bench/fpu_bench.c:136-153 | the snapshot holds all registers as on entry, A0 included, and FPSR and FPIAR as the dump's own FMOVE.X leave them; D, A1-A7, FP data and FPCR are kept, A0 ends at base + 0x60 |
| FpuBench.FpuDumpWrites | SingleStepTests/macos_bench/fpu_bench.c:40-47 | the addresses and lengths actually written, in order, are eight A cells, eight 12-byte cells, eight D cells and three control cells |
| FpuBench.FpuDumpTiles | SingleStepTests/macos_bench/fpu_bench.c:40-47 | the 27 stores write inside the snapshot, and every byte of 0x00 to 0xAB is written by exactly one of them |
| FpuBench.RecordedFpiar | SingleStepTests/macos_bench/fpu_bench.c:145-151 | where FMOVE.X leaves its own address in FPIAR, the recorded FPIAR is the dump's start + 82 |
| FpuBench.FpuProgramLength | SingleStepTests/macos_bench/fpu_bench.c:161-184 | 348 bytes plus preload and test, never more than the 512 of the buffer |
| FpuBench.BuildProgram | SingleStepTests/macos_bench/fpu_bench.c:161-184 | the buffer holds reset, preload, dump, test, dump and RTS |
| FpuBench.ResetRuns | SingleStepTests/macos_bench/fpu_bench.c:120-134 | fifteen steps clear D0-D7 and A0-A6 and keep A7, the FPU and all memory |
| FpuBench.FpuDumpRuns | SingleStepTests/macos_bench/fpu_bench.c:136-153 | dump code in memory runs in 28 steps with the effect of the dump |
| FpuBench.FpuObservation | SingleStepTests/macos_bench/fpu_bench.c:161-184 | from the entry point, for every preload and fall-through test: the reset, both dumps and the RTS are reached; init_snap records the preload's state and final_snap the test's, FPSR and FPIAR as the dump leaves them; the test inherits the recorded state but for A0, CCR and the dump's effect on those two |
| FpuBench.InheritedA0 | SingleStepTests/macos_bench/fpu_bench.c:136-144 | A1-A7 are inherited as recorded; A0 is if and only if the preload left it at init_snap + 0x60 |
| FpuBench.ResetA0Differs | SingleStepTests/macos_bench/fpu_bench.c:129-144 | for every test without preload zero is recorded in A0 and another value inherited |
| CpuFpuBench.TargetUnique | SingleStepTests/macos_bench/cpu_fpu_bench.c:90-110 | at most one STOP of a program is rewritten |
| CpuFpuBench.RewrittenKeeps | SingleStepTests/macos_bench/cpu_fpu_bench.c:80-86 | every byte outside the four of the STOP keeps its offset and value; only a tail STOP shortens the program |
| CpuFpuBench.WholeLength | SingleStepTests/macos_bench/cpu_fpu_bench.c:59-123 | 136 bytes plus what is embedded |
| CpuFpuBench.BuildProgram | SingleStepTests/macos_bench/cpu_fpu_bench.c:59-123 | for every program: preamble, embedded program, dump and RTS are written from the start of the buffer on, and nothing else in memory changes |
| CpuFpuBench.FitsExactly | SingleStepTests/macos_bench/cpu_fpu_bench.c:36 | what is written stays inside the 256 bytes if and only if the program has at most 120, or 124 with a STOP at the end |
| CpuFpuBench.EmbedProgram | SingleStepTests/macos_bench/cpu_fpu_bench.c:87-113 | what is embedded is the program itself if it has no STOP, and otherwise the program with its target STOP cut or replaced |
| CpuFpuBench.FindStop | SingleStepTests/macos_bench/cpu_fpu_bench.c:100-103 | the first occurrence of the STOP's bytes, or none |
| CpuFpuBench.PatchBra | SingleStepTests/macos_bench/cpu_fpu_bench.c:104-107 | the four bytes become BRA.W to the end of the embedded program, all others are kept |
| Footprint.StepAgrees | SingleStepTests/macos_bench/cpu_fpu_bench.c:80-86 | a step that touches no byte of a set goes alike on any two memories that differ only there, and leaves those bytes alone |
| Footprint.RunAgrees | SingleStepTests/macos_bench/cpu_fpu_bench.c:80-86 | the same for whole runs |
| StopRewrite.PreambleRuns | SingleStepTests/macos_bench/cpu_fpu_bench.c:64-69 | fifteen steps load the operand into D0 and the scratch base into A6, clear the other registers and keep A7 and memory |
| StopRewrite.RegDumpRuns | SingleStepTests/macos_bench/cpu_fpu_bench.c:115-121 | the register dump stores D0-D7 and A0-A7 as they were and runs into the RTS |
| StopRewrite.StopRewriting | SingleStepTests/macos_bench/cpu_fpu_bench.c:71-120 | if the original run reaches the target STOP without touching its bytes or those behind the program, the rewritten one dumps the D and A registers of that moment and leaves the same data memory |
| StopRewrite.BuiltProgramRuns | SingleStepTests/macos_bench/cpu_fpu_bench.c:59-123 | the same from the entry point of the program as built, preamble included |
| StopRewrite.StopRewritingExact | SingleStepTests/macos_bench/cpu_fpu_bench.c:71-111 | for an original run that leaves the rewritten bytes and those behind the program alone and stops at any of its STOPs, the dump is reached if and only if that STOP is the rewritten one |
| StopRewrite.NeverDumps | SingleStepTests/macos_bench/cpu_fpu_bench.c:94-110 | a run that stops at another STOP never arrives at the dump, however long it runs |
| StopRewrite.DecoyBreaks | SingleStepTests/macos_bench/cpu_fpu_bench.c:101-109 | a program whose STOP bytes occur first in an immediate ends with another D0 once rewritten and is never dumped |
| StraightLine.StraightRuns | SingleStepTests/macos_bench/cpu_fpu_bench.c:71-86 | straight-line code runs as the list it encodes and touches nothing behind it, so the hypotheses of StopRewriting hold for it |
| StraightLine.StraightLineDumps | SingleStepTests/macos_bench/cpu_fpu_bench.c:59-123 | for every straight-line program whose STOP is the one rewritten, data behind it or not, the built program dumps exactly the D and A registers its instructions make of the initial ones |
| StraightLine.TailStopIsTarget | SingleStepTests/macos_bench/cpu_fpu_bench.c:75-93 | a STOP at the end is the one rewritten, whatever the code in front of it looks like |
| StopBytes.StopInside | SingleStepTests/macos_bench/cpu_fpu_bench.c:100-103 | the bytes the search looks for occur inside straight-line code only as the immediate longword of a MOVE.L #,Dn or MOVEA.L #,An |
| StopBytes.ExchangeLong | SingleStepTests/macos_bench/cpu_fpu_bench.c:104-107 | overwriting such an immediate gives the code of the same instructions with another immediate |
| StraightLine.OtherRewritten | SingleStepTests/macos_bench/cpu_fpu_bench.c:87-113 | if not the STOP the code ends with is rewritten, what is embedded is again straight-line code of the same length with that STOP behind it |
| StraightLine.HaltsAtStop | SingleStepTests/macos_bench/cpu_fpu_bench.c:71-86 | straight-line code never gets past the STOP behind it, however long it runs |
| StraightLine.TargetIsStop | SingleStepTests/macos_bench/cpu_fpu_bench.c:75-110 | the STOP the code ends with is the one rewritten if and only if nothing follows it, or the data does not end in another and no instruction loads its bytes |
| StraightLine.StraightLineExact | SingleStepTests/macos_bench/cpu_fpu_bench.c:71-120 | for every straight-line program and every data behind its STOP the built program reaches its dump if and only if that condition on the program holds |
| CorpusDiff.MatchMeans | SingleStepTests/gen/cpu_diff_corpus.py:81-128 | match means exactly: neither bench ran the test, or the candidate did and everything compared agrees |
| CorpusDiff.VerdictMeans | SingleStepTests/gen/cpu_diff_corpus.py:81-182 | each of the ten categories is given if and only if the two tests meet its condition, stated on the snapshots: e.g. sign extension exactly if A0-A5 and RAM agree and one D register differs but not in its low 16 or low 8 bits, whatever the CCR; unknown exactly if two of D, A and RAM differ |
| CorpusDiff.AMatchesMeans | SingleStepTests/gen/cpu_diff_corpus.py:92-105 | an address register agrees if and only if it holds the same value, or the same value moved as far as A6 was |
| CorpusDiff.PcDiffersMeans | SingleStepTests/gen/cpu_diff_corpus.py:111-126 | with all four PCs recorded they differ if and only if the two programs lie differently far apart before and after the test; with one missing never |
| CorpusDiff.SkippedMeans | SingleStepTests/gen/cpu_diff_corpus.py:66-88 | a test counts as skipped if and only if every number recorded of it but the PC is zero |
| CorpusDiff.RelocationKeepsMatch | SingleStepTests/gen/cpu_diff_corpus.py:92-105 | moving a bench's scratch RAM, with A6 and the address registers derived from it, never turns a match into a difference |
| CorpusDiff.DetailMeans | SingleStepTests/gen/cpu_diff_corpus.py:130-182 | the detail given is the one of the category, and true: the values are those of the two runs, the register named is the lowest that differs, with the number of others, and the only one where the category says so, the scratch byte is the first that differs |
| CorpusReport.BuildReport | SingleStepTests/gen/cpu_diff_corpus.py:201-243 | a row per test both corpora have, in string order; its category is the one the two tests meet the condition of, its detail is true of them, its operation is the part of the name before the first space or dot without the colons behind it; the category counts and, per operation, total, counts per category and pass rate are those of the rows |
| CorpusReport.OpMeans | SingleStepTests/gen/cpu_diff_corpus.py:215-217 | every name has exactly one mnemonic: what stands before its first space or dot, if any, without trailing colons; a test is filed under it, or under "smoke" where it is "DBG" |
| CorpusReport.LessMeans | SingleStepTests/gen/cpu_diff_corpus.py:206 | the order of the listing is by the first character that differs, a string before its continuations |
| CorpusReport.CommonSorted | SingleStepTests/gen/cpu_diff_corpus.py:206 | the names listed are exactly those both corpora have, each once, in string order |
| CorpusReport.FiledTotal | SingleStepTests/gen/cpu_diff_corpus.py:218-228 | the lists of an operation, over the ten categories, hold each of its rows once |
| CorpusReport.PerfectReport | SingleStepTests/gen/cpu_diff_corpus.py:236-237 | the match count is the common count if and only if every common test agrees in all that is compared or ran on neither bench |
| CorpusReport.ByNameLast | SingleStepTests/gen/cpu_diff_corpus.py:204-205 | of corpus lines with one name the last is compared, and every name is |
| LayoutIndependence.PortableStep | SingleStepTests/gen/cpu_diff_corpus.py:92-105 | one instruction of the subset keeps two differently placed machines related: same D, CCR and scratch RAM, A0-A5 equal raw or relative to A6 |
| LayoutIndependence.SessionReports | SingleStepTests/macos_bench/cpu_bench.c:142-204 | after the final dump the two snapshots in memory are the states before and after the test |
| LayoutIndependence.LayoutIndependence | SingleStepTests/gen/cpu_diff_corpus.py:81-128 | one test run under any two placements, scratch RAM equal at the start, gives snapshots classified as a match |
| LayoutIndependence.PcDistance | SingleStepTests/macos_bench/cpu_bench.c:48-54 | final_pc - init_pc is the length of the test wherever the program lies |
| LayoutIndependence.NotSkipped | SingleStepTests/gen/cpu_diff_corpus.py:83-88 | a test that was run is never taken for a skipped one |
| WholeSession.EndKeeps | SingleStepTests/macos_bench/cpu_bench.c:142-204 | up to the final dump a straight-line session writes only scratch RAM and init_snap and keeps A7 |
| WholeSession.Session | SingleStepTests/macos_bench/cpu_bench.c:142-239 | from MOVEM and JSR through every straight-line preload and test back behind the JSR: final_snap records what the test made, and the caller has D2-D7, A2-A6 and A7 back |
| TraceGrouper.Grouper.OnFetch | verilator/sim_main.cpp:1893-1948 | after every fetch the lines emitted plus a flush of the buffer equal the deduplicated history decoded run by run; the buffer is sequential and holds at most eight |
| TraceGrouper.Grouper.Take | verilator/sim_main.cpp:1898-1948 | a fetch with a new pc keeps that invariant, in each of the flushing, appending and full-buffer cases |
| TraceGrouper.Grouper.Flush | verilator/sim_main.cpp:1903-1923 | the buffered run is decoded as a whole and the buffer emptied |
| TraceGrouper.Grouper.Oldest | verilator/sim_main.cpp:1931-1946 | the oldest instruction of a full buffer is emitted and its words, at most eight, are dropped |
| TraceGrouper.Grouper.Shift | verilator/sim_main.cpp:1944-1946 | the entries kept move to the front in order |
| TraceGrouper.Grouper.Opwords | verilator/sim_main.cpp:1907-1910 | the words shown to the disassembler are the first five at most |
| TraceGrouper.FrontFixed | verilator/sim_main.cpp:1932-1935 | with five words of lookahead no later fetch can change the oldest instruction |
| TraceGrouper.InvRefines | verilator/sim_main.cpp:1893-1948 | the invariant implies that lines so far plus a flush equal the run-by-run decoding |
| TraceGrouper.FirstFetch | verilator/sim_main.cpp:84 | the first fetch is dropped if and only if its pc is FFFFFFFF |
| TraceGrouper.InvBreak | verilator/sim_main.cpp:1898-1927 | a fetch that does not follow begins a new run |
| TraceGrouper.InvOldest | verilator/sim_main.cpp:1929-1947 | emitting from a full buffer and taking the next fetch keeps the invariant |
| TraceGrouper.WholeIsRun | verilator/sim_main.cpp:1903-1923 | a run that fits the buffer decodes alike with and without the eight-word limit |
| TraceGrouper.WindowExact | verilator/sim_main.cpp:1929-1938 | the trace equals unlimited decoding of a run if and only if no instruction with more to come is longer than eight words |
| TraceGrouper.NineWordsCut | verilator/sim_main.cpp:1929-1938 | a nine-word MOVE.L, told from its first five words, and a NOP: the second line shown is for the last word of the MOVE.L instead of the NOP |
| HistoryRing.KeptAlternates | verilator/sim_main.cpp:673-677 | no two neighbouring entries kept have the same pc |
| HistoryRing.RepeatsIgnored | verilator/sim_main.cpp:673-677 | any number of further calls with the last pc changes nothing |
| HistoryRing.SlotWritten | verilator/sim_main.cpp:680-703 | writing the next slot keeps the newest 512 entries in the ring |
| HistoryRing.Ring.Record | verilator/sim_main.cpp:673-704 | after any sequence of calls the ring holds the newest 512 of the entries kept |
| HistoryRing.Ring.Dump | verilator/sim_main.cpp:746-754 | the entries printed are exactly the last 512 of the deduplicated sequence, or all, oldest first |
| LeafWalk.ReadRecords | scripts/hfs_forensics.py:101-107 | the loop over the offset table collects the records in order, counts the bad offsets, and fails on an entry outside the file |
| LeafWalk.WalkLeaves | scripts/hfs_forensics.py:82-108 | for any links the walk ends after at most one step more than the file has nodes; records come in chain order, anomalies and visited nodes are those of the chain; a crash only at an unreadable node |
| LeafWalk.WalkUnique | scripts/hfs_forensics.py:82-110 | the file determines the outcome: records, order, anomalies, visited count and ending |
| LeafWalk.ChainBounded | scripts/hfs_forensics.py:84-94 | no chain of distinct leaf nodes is longer than the file |
| LeafWalk.ScanClean | scripts/hfs_forensics.py:101-106 | a node counts no bad offset if and only if every entry of its table lies inside it |
| LeafWalk.NoAnomalyMeansSound | scripts/hfs_forensics.py:80-110 | no anomaly is reported if and only if the file has a sound leaf chain: acyclic, in range, all leaves, ending at 0, every offset table entry inside its node; and then it is the chain walked |
| LeafWalk.NodeClean | scripts/hfs_forensics.py:101-106 | a node adds nothing to the anomalies if and only if every entry of its offset table can be read and lies inside it |
| LeafWalk.SoundRecords | scripts/hfs_forensics.py:101-107 | from such a node every record is collected, in table order; the k-th has the number of the node and its bytes from node * node size + the k-th offset up to the offset behind it where that is greater and not beyond the node, up to the end of the node otherwise |
| LeafWalk.RecordSpans | scripts/hfs_forensics.py:107 | the same of the record collected for a good entry of any offset table, whatever the entry behind it |
| LeafWalk.HeaderFields | scripts/hfs_forensics.py:71-81 | the first leaf is the number in bytes 24 to 27, the node size that in bytes 32 and 33 or 512 for zero; a node counts if it ends inside the file |
| LeafWalk.StartIs | scripts/hfs_forensics.py:95 | a node starts at its number times the node size |
| LeafWalk.NodeFields | scripts/hfs_forensics.py:95-103 | the links, the type and the record count of a node are the numbers in bytes 0 to 3, 4 to 7, 8 and 10 to 11 from its start; entry r of its offset table ends 2r bytes before its end, and is read from the end of the file where that is negative |
| LeafWalk.ReadableMeans | scripts/hfs_forensics.py:95-97 | a header can be read if and only if the file reaches twelve bytes into the node |
| LeafWalk.SoundIsWhole | scripts/hfs_forensics.py:87-108 | a file has no other chain that ends at 0 than the one walked |
| LeafWalk.NoCrash | scripts/hfs_forensics.py:95-103 | the walk does not fail where nodes hold a header and offset tables stay inside their nodes |
| LeafWalk.ParseBtree | scripts/hfs_forensics.py:59-110 | too small, not a header node, or walked with zero anomalies exactly when sound |
| ExtentMaps.ReadFork | scripts/hfs_forensics.py:46-57 | the first size bytes of all extents one after the other, although reading stops early |
| ExtentMaps.AbToLbaIs | scripts/hfs_forensics.py:42-44 | block 0 begins at drAlBlSt of the partition, every next one drAlBlkSiz // 512 sectors further on |
| ExtentMaps.ExtentInImage | scripts/hfs_forensics.py:54-55 | of an extent exactly the bytes inside the image are read, none of an extent beyond it |
| ExtentMaps.ForkOffsets | scripts/hfs_forensics.py:211-218 | exactly the offsets at which some extent of the fork holds the sector, ascending and none twice |
| ExtentMaps.ForkOwners | scripts/hfs_forensics.py:209-218 | exactly the entries one fork contributes, at ascending offsets: the data fork from the data extents of the catalog record and the overflow extents of (cnid, data) behind them, the resource fork likewise |
| ExtentMaps.OwnerOf | scripts/hfs_forensics.py:206-219 | exactly the forks that hold the sector, with the offsets at which they do, file by file, data fork before resource fork; each fork over its own catalog extents followed by its own overflow extents |
| ExtentMaps.ForkAt | scripts/hfs_forensics.py:42-57 | byte j of an extent is the byte of the fork at the extent's start plus j |
| ExtentMaps.ReverseThenForward | scripts/hfs_forensics.py:206-219 | for every block size: where owner_of reports a fork and offset for a sector, read_fork's bytes from there are the sector's, as far as size allows |
| ExtentMaps.ForwardThenReverse | scripts/hfs_forensics.py:46-57 | every byte of a fork lies in a sector that owner_of maps back to it |
| ExtentMaps.MisalignedLosesBytes | scripts/hfs_forensics.py:40 | with any block size that is no multiple of 512 the last byte of every non-empty extent of every fork is in no sector owner_of maps to it |
| ExtentMaps.ForwardExact | scripts/hfs_forensics.py:40-57 | every byte of a non-empty fork is in a sector owner_of maps back to it if and only if the block size is a multiple of 512 |
| ExtentMaps.BitmapBlockOwned | scripts/hfs_forensics.py:223-229 | the bitmap bit shown for a sector of an extent is that of one of the extent's blocks, the one containing the sector |
| Provenance.HashSectors | scripts/hda_match_sources.py:34-38 | the index holds, per digest, exactly the pristine sectors with it in ascending order |
| Provenance.SourcesMean | scripts/hda_match_sources.py:34-38 | the listed sources are exactly the sectors with that digest |
| Provenance.ShiftInside | scripts/hda_match_sources.py:25-28 | the positions compared are exactly those of the sector at which both images have a byte |
| Provenance.CommonMeans | scripts/hda_match_sources.py:15 | the sectors looked at are exactly those that lie in both images as a whole |
| Provenance.ScoreCounts | scripts/hda_match_sources.py:29 | the score is the number of positions at which the images agree |
| Provenance.ShiftsMean | scripts/hda_match_sources.py:24 | the shifts tried are those by one to four bytes either way, shorter ones first and forward before backward |
| Provenance.ChangedMeans | scripts/hda_match_sources.py:43-45 | a sector is changed if and only if some byte of it is |
| Provenance.ShiftMatch | scripts/hda_match_sources.py:21-32 | the shift returned qualifies, no other scores higher, no earlier one as high; none is returned only if none qualifies |
| Provenance.Classify | scripts/hda_match_sources.py:42-57 | one result per changed sector in ascending order, and each says what is true of the sector |
| Provenance.ClassifySector | scripts/hda_match_sources.py:46-57 | the kind and sources given to a sector are true of it |
| Provenance.ChangedComplete | scripts/hda_match_sources.py:43-45 | the sectors reported are exactly the changed ones, ascending |
| Provenance.GroupRuns | scripts/hda_match_sources.py:59-74 | the runs partition the results in order into contiguous same-kind stretches, and no run could have been continued by the next result |
| Provenance.RunsMaximal | scripts/hda_match_sources.py:59-74 | no run whatever stands for the results of a run and the one behind it, so each is as long as it can be |
| Provenance.CopyRunMeans | scripts/hda_match_sources.py:59-74 | in a COPY run every sector k has the digest of source sector k, and both ranges have the run's length |
| Provenance.MatchSources | scripts/hda_match_sources.py:13-74 | the whole script: true results, partitioned into runs |
| MdbRepair.SlotsMean | scripts/repair_hfs_mdb_stamps.py:28-34 | the slots visited are exactly 0x0C and those at 0x14, 0x1C, 0x30, 0x38 of each 64-byte group |
| MdbRepair.W | scripts/repair_hfs_mdb_stamps.py:61-62 | the word is written big end first and nothing else changes |
| MdbRepair.FindStamped | scripts/repair_hfs_mdb_stamps.py:56 | exactly the slots that hold a stamp word |
| MdbRepair.ClearStamps | scripts/repair_hfs_mdb_stamps.py:64-65 | the bytes of stamped slots become zero and no others |
| MdbRepair.Repair | scripts/repair_hfs_mdb_stamps.py:50-80 | which of the four outcomes occurs, and that the block on disk changes only when the repair succeeds, to the repaired block |
| MdbRepair.RepairedSlot | scripts/repair_hfs_mdb_stamps.py:64-76 | every slot of the repaired block, word by word |
| MdbRepair.StampedBytes | scripts/repair_hfs_mdb_stamps.py:26-56 | a slot is stamped if and only if its bytes are 22 9A or 51 C9 |
| MdbRepair.FirstBlockWhen | scripts/repair_hfs_mdb_stamps.py:67-71 | drAlBlSt is recomputed if and only if it is stamped or zero |
| MdbRepair.CatalogWord | scripts/repair_hfs_mdb_stamps.py:74-76 | a stamped word at 0x94 becomes the low 16 bits of the count in bytes 0x98 and 0x99 times the block size in bytes 0x14 to 0x17, whose high word is zero where it was stamped |
| MdbRepair.TouchesOnlyStamps | scripts/repair_hfs_mdb_stamps.py:64-76 | no byte outside stamped slots and a recomputed drAlBlSt changes |
| MdbRepair.StampsGone | scripts/repair_hfs_mdb_stamps.py:56-76 | afterwards no slot is stamped if and only if no recomputed word is a stamp word |
| MdbRepair.StampStays | scripts/repair_hfs_mdb_stamps.py:67-71 | a stamped block with its bitmap at 0x2299 and one allocation block is repaired to another stamped block |
| MdbRepair.FirstBlockOverflows | scripts/repair_hfs_mdb_stamps.py:61-71 | the same block with its bitmap at 0xFFFF cannot be repaired and is left as it was |
| MdbRepair.SoundVolumesLoseStamps | scripts/repair_hfs_mdb_stamps.py:67-76 | with a block size of whole sectors and drVBMSt + 16 below 0x229A no slot is stamped afterwards |
| MdbRepair.RepairIdempotent | scripts/repair_hfs_mdb_stamps.py:53-79 | repairing a repaired block changes nothing, for every block with a signature that can be repaired |
| MdbRepair.FirstBlockExact | scripts/repair_hfs_mdb_stamps.py:67-71 | the recomputed drAlBlSt is the smallest that leaves the bitmap byte of every allocation block before block 0 |

## Left out

- Machine.StepExecutes: addresses do not wrap inside one access, and a longword at the very top of the address space continues past it; every theorem keeps code and data below 2^32.
- Machine.RunLinear: odd program counters and stack addresses, bus errors, interrupts and the instruction cache (the flush before each JSR) are not modelled.
- LayoutIndependence.LayoutIndependence: the subset has every one-word operation that reads and changes D registers and flags only (nine of them with their meaning written out, the others as an arbitrary function), MOVEQ, MOVE.L and MOVEA.L of immediates, MOVE to CCR, SUBA of a register from itself, LEA d16(A6) and longword d16(A6) accesses with displacement 0 to 60; operations with word or byte immediates are left out.
- FpuBench.FpuDumpEffect: FPSR and FPIAR after FMOVE.X to memory come from an arbitrary function, because implementations differ; a register image is 12 opaque bytes, so rounding and NaN handling do not appear.
- FpuBench.FpuObservation: the call around the program is that of cpu_bench.c and is proved there only.
- StopRewrite.StopRewriting: what instructions outside the model read and write is part of the environment; the hypothesis that the run leaves the STOP's bytes and the bytes behind the program alone is stated on that footprint.
- StopRewrite.StopRewritingExact: runs that read or change the rewritten bytes are outside its hypothesis; what becomes of them is said for straight-line programs by StraightLine.StraightLineExact.
- Invoke.SessionReturns: MOVEM, the move of SP and JSR around the program are given as state transformers for inline assembly, not decoded; the stack is assumed to lie apart from snapshots and code. For a test without the epilogue A7 must be as it was, which PlainReturns shows to be about the longword found there.
- CorpusReport.BuildReport: the wording of the detail strings and the printed tables are left out, the values named in them are not; a missing ccr or ram key is the value 0 or the empty list.
- TraceGrouper.Grouper.OnFetch: the disassembler is an arbitrary function of the pc and at most five words, and of the word count only as far as five; the line counter, the trace limit and the log file are left out.
- HistoryRing.Ring.Record: the registers sampled into an entry are the entry's fields, read by the caller; the other dumps of the same ring in the file repeat the same loop.
- LeafWalk.WalkLeaves: report strings; bthNNodes and the other header words are only printed by the source.
- ExtentMaps.OwnerOf: catalog and extents-overflow record parsing and the directory-name lookup; files and overflow extents are inputs.
- Provenance.ShiftMatch: the quotient compared with 0.92 is compared exactly, as 25 * score >= 23 * total.
- Provenance.CopyRunMeans: MD5 is an arbitrary function of the sector, so equal digests are what is claimed, not equal contents.
- MdbRepair.Repair: argument handling and copying the image; the block is the array the file object reads and writes.
- JSON output, HFS directory creation, the `-sys7.c` and `fpu_test_macii.c` twins of the same generators, and the Verilog are not part of this model.
