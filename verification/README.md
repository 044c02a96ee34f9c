# A model of the RISC-V assembler and five-stage pipeline simulator

This project models the assembler and the processor simulator of the repository and proves what they do.
`dafny verify dfyconfig.toml` checks everything.

**The processor.** `Pipeline.Tick` is one clock tick of the five-stage machine: write-back, memory, execute,
decode and fetch over double-buffered latches, with the hazard unit of `HazardUnit`, the comparator in decode
and, in mode 5, the branch predictor. `SingleCycle.Step` is one instruction of the single-cycle machine.
`RvssVm` and `SingleCycleVm` are the two machines as the objects the simulator keeps, with methods stage by
stage. The theorems compare the two machines: an abstraction function runs everything past decode to its end
(`PipelineRefinement.Drained`), every tick is then zero or one sequential steps (`TickRefines`), and from there
follow whole runs (`PipelineRuns`; `OnCourse` says of every run over exact words when it does), the main loop and that
it ends (`MainLoop`), the five ticks of draining behind it (`PipelineLoop`, `LoopExit`), programs from reset to the end
(`StraightLine`, `Programs`, `BranchingPrograms`), and when mode 1 without any hazard handling is right (`NoHazards`).

How long all this takes is exact as well. `IssueGaps` gives the ticks between two instructions leaving decode, from the
words in front of the second alone, `RegisterUse` says what those words read and write, and `LoopLength` and
`ProgramLength` add the waits up to the length of the main loop; `Timing` and `StorelessPrograms` compare the modes.
`FrontEnd` says when the pipeline drops what it fetched, where it fetches on and what its predictor learns, judged by
what the sequential machine does, and `Counters` what its two counters count.

The theorems hold for all units that are `SingleCycle.Lawful`; `Processor` gives the real ones (arithmetic unit,
immediate generator, control unit, flat memory, gshare predictor) and proves them lawful, `ProcessorUnits` ties them to
the memory and predictor objects. `MnemonicMeaning` says which operation the word of a mnemonic selects,
`MnemonicNumbers` what that operation computes, and `MnemonicEffects` and `InstructionEffects` what executing the word
does to registers, memory and program counter.

**The assembler.** `Parser` is the two-pass parser as an object: data layout, text, back-patching, the formats
of the integer and multiplication instructions (`LineShapes`) and the pseudo-instructions. `DataLayout` and
`TextMeaning` say independently of it what a token list means: which literals its data sections hold, at which index
and under which labels (`DataLayout.DataOf`); which units its text stands for, with registers, immediates and targets,
at which labels (`TextMeaning.TextOf`); when the parser ends (`Quiet`) and when it finds no error (`Assembles`).
`Parser.Parse` does exactly that. `TextPlaces` and `DataItems` describe the same by counting, token by token: where each
line and each code label lies, and which literal comes where. `Syntaxes` is the table of what may follow a mnemonic.
`Emission` is about the code and the queue of open branches on the way, `DataPlaces` about the two counters, of parser
and loader, that a data label depends on. `CodeGenerator` encodes, `Layout` says where every part of a word lies,
`VmBase` decodes immediates, `Loader` writes text and data to memory, `EndToEnd.AssembleAndLoad` puts all of them
together, and `Execution.AssembleForRun` joins that to the pipeline: from tokens to registers. `LineMeaning` and
`PseudoMeaning` follow a line, shorthands, `li` and `la` included, from its tokens through encoding and decoding to the
state it leaves.

**The units.** `Memory` is the lazily allocated block memory against a flat byte map, `Alu` the integer
operations against integer arithmetic, `AluMeaning` those on bits, `BranchPredictor` the gshare predictor over whole
runs, `GshareLaws` what its index is for, `LineMap` the map from lines to instructions and the breakpoints.

Words are bit vectors where the code works on bits, and integers through `Words.U64` and `Words.Signed64` where
it counts. Signed overflow, undefined in C++, is taken as two's complement wrap, the evident intent. Exceptions
are results: a refused access, a failed conversion, an error count. In the processor a refused access sets a
flag, after which memory no longer changes; `RefusalIsPrecise` says what the registers are when it shows. The
encodings are those of sections 2.2, 2.3, 5.2, 7.1 and 7.2 of the RISC-V Instruction Set Manual, Volume I,
Unprivileged, 20191213, as far as the code follows them.

## What turned out false

Each of these is stated exactly, with the condition under which the code does what it is meant to.

- Modes 2 and 3 never follow a taken branch, and mode 5 does not check a predicted `jalr` against its target
  (`ControlFlow.RightAddressExactly`, with states in `ControlExamples.BranchIsMissed` and `ReturnIsUnchecked`). A run
  computes what the sequential machine does exactly as long as that does not happen (`OnCourse.RunRefinesExactly`). What
  modes 2 and 3 compute instead is the run of a machine without branches (`ControlFlow.BlindRunRefines`); they agree
  with the sequential run exactly until it takes a branch away (`OnCourse.WithoutPredictionExactly`). Section
  "Mode Verification & Results" of `pdf and reports/report_3.tex` calls both modes correct without that exception.
- In every pipelined mode `lui` and `auipc` write an unshifted immediate, and a jump that was not predicted
  writes zero for its return address (`ExactWords.ExactExactly`, `UpperAlone`, `JumpAlone`). So `la` works in the
  single-cycle machine (`PseudoMeaning.LaExactly`) but not in the pipeline.
- The run loop stops as soon as the program counter is past the program, even with a branch or jump in decode that
  leads back. A program whose last word closes a loop is cut off after one round
  (`ControlExamples.LoopIsCutOff`). The whole program runs exactly if the sequential run never leads back from the end
  of the program (`MainLoop.IssuedAtEnd`, `LoopExit.WholeProgramExactly`), that is, if its last word, being a branch or
  jump, is the last one executed whenever it is (`BranchingPrograms.BackIsLastWord`); otherwise `LoopExit.CutOffRun`
  says what is left.
- Mode 2 loses the last register write of a program whose last instruction reads what its predecessor writes:
  five ticks do not drain it (`PipelineLoop.StallOnlyRun`, `StraightLine.StraightLineRun`). The sample program at
  `python_script.py:431-461`, announced as correct in modes 2 and 3 for its register x9, ends that way and has a `la`.
- The word operations (opcodes 0x1B and 0x3B) have no control signals and never write a register
  (`MnemonicEffects.RegisterDeliversExactly`, `ImmediateDeliversExactly`, `ShiftMnemonic`), and most have no syntax in
  the parser; `addiw` immediates decode to 0 (`VmBase.ImmediateRoundTrip`).
- Right shifts by 32 or more fit their encoding, but the control unit knows no operation for them and the destination
  becomes zero (`MnemonicEffects.ShiftMnemonic`); the parser refuses such amounts.
- Branch words with funct3 2 or 3 and load words with funct3 7 make the single-cycle machine reuse an old flag
  or memory result (`SingleCycleVm.SingleCycleVm.ExecuteNext`).
- `li` is wrong for numbers from 2^31 - 2048 on: the register is 2^32 less (`PseudoMeaning.LiExactly`, `LiRuns`).
- A load by label uses its destination as its base. Into x0 it reads from a part of the distance instead of the label
  (`LineMeaning.LoadIntoZeroRuns`); into any other register it reads from the label (`LoadLineRuns`).
- Division by zero answers 0, and the least 64-bit value divided by -1 answers the greatest; section 7.2 of the
  manual asks for other values. `divuw` and `remuw` do not sign-extend.
- A refused store can change bytes in a memory shorter than the access (`Memory.AllOrNothing`).
- Behind a labelled directive without literals the parser's index and the loader's counter part, and a data label may
  name the wrong place: exactly if the two have not met again at the literal it names (`DataPlaces.PlacedExactly`). In
  the program of `ParserExamples.ParseDrifting` a label is 8 whose literal is loaded at 1.
- The first pass of the parser spins on a label or mnemonic called `data`, `bss` or `section`, and exactly then it does
  not end (`Parser.Parser.Parse`, `ParserExamples.ParseSpinning`).
- `COMMANDS.md:42` says that an execution limit of 0 means none. It stops the single-cycle run after one
  instruction (`SingleCycleVm.SingleCycleVm.RunSingle`).

## Model

| member | source | states |
|---|---|---|
| HazardUnit.ForwardingPicksYoungest | src/vm/hazard_detection_unit.cpp:73-143 | in modes 3 and up, an operand of an instruction that is let through comes from the youngest of the instructions ahead that write its register, and from the register file exactly if there is none; never from a load still in execute; x0 is never forwarded |
| PipelineRefinement.ForwardedRegister | src/vm/hazard_detection_unit.cpp:105-143 | the value the chosen source delivers is the value the register has once everything ahead has retired |
| PipelineRefinement.UnwrittenRegister | src/vm/hazard_detection_unit.cpp:10-18 | a register nobody ahead writes is final in decode although the unit never looks at MEM/WB, because write-back comes first in the tick |
| PipelineRefinement.FilledLatchCarries | src/vm/rvss/rvss_vm.cpp:209-342 | an integer instruction leaves decode with its word, signals and immediate, and with operands that are final |
| PipelineRefinement.TickDrains | src/vm/rvss/rvss_vm.cpp:113-140 | one tick changes the drained state (everything past decode run to its end) by exactly the instruction that left decode |
| PipelineRefinement.WordActsAlike | src/vm/rvss/rvss_vm.cpp:343-582 | executing, accessing memory and writing back an exact word in the pipeline is executing it in the single-cycle machine |
| PipelineRefinement.SignalsAreCoherent | src/vm/rvss/rvss_control_unit.cpp:19-116 | memory goes to the register exactly for loads, and a load writes a register |
| PipelineRefinement.ResolvedTargetIsRight | src/vm/rvss/rvss_vm.cpp:272-320 | mode 5 trains the predictor only with right targets, when a jalr goes where it always goes |
| PipelineRefinement.TickKeepsInv | src/vm/rvss/rvss_vm.cpp:113-140 | from a good state (the next word exact, no branch taken below mode 4, a jalr going where it always goes in mode 5) every tick keeps the pipeline invariant: coherent latches, IF/ID holding the word of its address, right targets in the predictor |
| PipelineRefinement.TickRefines | src/vm/rvss/rvss_vm.cpp:113-140 | from a good state one tick is one sequential step of the drained state if an instruction leaves decode, and none otherwise |
| PipelineRuns.RunRefines | src/vm/rvss/rvss_vm.cpp:1761-1795 | while the sequential states are good, branches and predictions included, the drained state is the sequential state after as many instructions as have left decode |
| OnCourse.TickExactly | src/vm/rvss/rvss_vm.cpp:113-140 | whatever branches do and wherever a jalr goes, a tick in which an exact word leaves decode is a sequential step exactly if it does not go astray |
| OnCourse.RunRefinesExactly | src/vm/rvss/rvss_vm.cpp:1761-1795 | a run over exact words, from any sane state in modes 2 to 5, agrees with the sequential machine after every tick exactly as long as no instruction goes astray |
| OnCourse.FilesOnCourse | src/vm/rvss/rvss_vm.cpp:437-582 | and then its register file and memory are the sequential ones, three and two ticks late |
| OnCourse.NeverAstray | src/vm/rvss/rvss_vm.cpp:272-320 | in mode 4 every such run agrees, without further conditions |
| OnCourse.WithoutPredictionExactly | src/vm/rvss/rvss_vm.cpp:272-320 | in modes 2 and 3 the sequential run alone decides: the machines agree exactly as long as no instruction issued is a branch that does not go on behind itself |
| PipelineRuns.DrainedIsWhatRetires | src/vm/rvss/rvss_vm.cpp:437-582 | two ticks on memory, three ticks on the register file, is the drained one, in every mode |
| PipelineRuns.RegisterFileIsSequential | src/vm/rvss/rvss_vm.cpp:1761-1795 | the actual register file and memory of such a run are those of the sequential machine, three and two ticks late |
| PipelineRuns.RefusalIsPrecise | src/vm/rvss/rvss_vm.cpp:437-513 | in such a run a refused memory access shows when the register file is that of the sequential machine in front of the refused instruction |
| PipelineRuns.StallOnlyWaitsTwice | src/vm/hazard_detection_unit.cpp:54-71 | in mode 2 an instruction is held in decode at most two ticks |
| PipelineRuns.ForwardingWaitsOnce | src/vm/hazard_detection_unit.cpp:76-103 | an upper bound for any state: in modes 3 and up at most one tick, a branch or jalr at most two |
| PipelineRuns.SomethingIssues | src/vm/rvss/rvss_vm.cpp:194-342 | in any state one of four consecutive ticks lets an instruction leave decode |
| IssueGaps.StallsExactly | src/vm/hazard_detection_unit.cpp:17-103 | from the two latches ahead, when an instruction is held: without forwarding behind any writer of an operand, with forwarding only behind a load in execute, and a branch or jalr behind any writer |
| IssueGaps.WaitExactly | src/vm/hazard_detection_unit.cpp:17-143 | in every run, how many ticks an instruction waits behind the one that issued last: exactly, from the two words in front of it alone |
| IssueGaps.RedirectExactly | src/vm/rvss/rvss_vm.cpp:194-320 | and behind a redirect: one tick without an instruction, and one more exactly if the target reads the return address where it must wait for it |
| LoopLength.LoopLengthExactly | src/vm/rvss/rvss_vm.cpp:1761-1769 | over words in a row the main loop takes exactly one tick a word and the waits of the words, which the words alone decide, in every mode from 2 on |
| LoopLength.WaitsMean | src/vm/hazard_detection_unit.cpp:17-103 | with forwarding a word waits exactly behind a load it reads from; without, two ticks behind its predecessor, or one behind the word before if that one was directly in front |
| LoopLength.ForwardingLength | src/vm/hazard_detection_unit.cpp:73-143 | so with forwarding the ticks up to a word are one for each word, and one for each word in front of it that reads what a load directly in front of it loads |
| RegisterUse.ReadsExactlySources | src/vm/hazard_detection_unit.cpp:28-52 | the hazard unit takes an instruction for a reader of exactly the source registers of its format |
| RegisterUse.DependsExactly | src/vm/rvss/rvss_control_unit.cpp:19-116 | an instruction depends on another exactly if that one has a destination other than x0 that it reads; word operations have none |
| RegisterUse.LoadWordsExactly | src/vm/rvss/rvss_control_unit.cpp:19-116 | and the loads, and what reads in decode, are what their mnemonics say |
| FrontEnd.RedirectsExactly | src/vm/rvss/rvss_vm.cpp:272-320 | what was fetched behind a branch or jump is dropped in modes 4 and 5 exactly if the sequential machine goes another direction than was predicted; in modes 2 and 3 behind every jump and no branch |
| FrontEnd.LearnsExactly | src/vm/branch_prediction_unit.cpp:36-56 | the predictor learns, of each branch and jump that issues and of nothing else, what the sequential machine does, and remembers where it goes |
| FrontEnd.FetchesExactly | src/vm/rvss/rvss_vm.cpp:144-192 | where fetching goes on: at the remembered target exactly if the predictor, with what it has learnt by then, favours taken |
| PipelineRuns.RetiredWereIssued | src/vm/rvss/rvss_vm.cpp:515-582 | conservation from any state: what was counted as retired and what is in flight never exceeds what was issued and was in flight at first |
| Counters.RetiredExactly | src/vm/rvss/rvss_vm.cpp:515-582 | three ticks later exactly the instructions among those issued that write a register have been counted as retired |
| Counters.NothingUnderWay | src/vm/rvss/rvss_vm.cpp:515-582 | from empty latches nothing retires in the first three ticks |
| Counters.StallsExactlyCounted | src/vm/rvss/rvss_vm.cpp:194-342 | the stall counter is exactly the number of ticks that issued nothing, but for an empty decode stage at the start and the end |
| MainLoop.LoopTerminates | src/vm/rvss/rvss_vm.cpp:1761-1769 | if the sequential machine leaves the program after kk instructions, the main loop ends in less than 4 (kk + 1) ticks |
| MainLoop.RemembersWhatWent | src/vm/branch_prediction_unit.cpp:36-56 | every target the predictor remembers, apart from those it starts with, is one that an earlier instruction went to from the same place |
| MainLoop.IssuedAtEnd | src/vm/rvss/rvss_vm.cpp:1766-1769 | when the main loop ends, everything but at most the last instruction has issued exactly if no instruction of the sequential run leads back from the end of the program; otherwise everything in front of the first that does |
| PipelineLoop.FiveTicksMore | src/vm/rvss/rvss_vm.cpp:1771-1778 | for every program whose sequential run ends, the main loop ends within four ticks an instruction, and in every mode what the five ticks behind it complete, unless a branch or jump at the end of the program leads back into it |
| PipelineLoop.ForwardingRunIsSequential | src/vm/rvss/rvss_vm.cpp:1761-1795 | under the same condition on the sequential run, a run with forwarding ends and leaves the sequential registers and memory, branches included |
| PipelineLoop.StallOnlyRun | src/vm/rvss/rvss_vm.cpp:1761-1795 | and so does mode 2, except that the last register write is lost exactly when the last instruction reads what the one before it writes |
| LoopExit.CutOffRun | src/vm/rvss/rvss_vm.cpp:1761-1778 | a run in which an instruction at the end of the program leads back stops behind the first that does: its registers are the sequential ones there, and its memory too, but for a store at the target when the branch did not wait |
| LoopExit.WholeProgramExactly | src/vm/rvss/rvss_vm.cpp:1761-1778 | in modes 3 and up the main loop ends having issued the program but for at most its last instruction exactly if the sequential run never leads back from the end of the program; it then leaves the sequential result, and otherwise is cut off behind the first instruction that does |
| ControlExamples.LoopIsCutOff | src/vm/rvss/rvss_vm.cpp:1761-1778 | a program of three words that counts down from 3 to 0 ends with 2 in its register in modes 4 and 5 |
| Timing.LoopEndsInTime | src/vm/rvss/rvss_vm.cpp:1761-1769 | over words in a row, only the last of which may be a branch or jump, the main loop ends within three ticks a word, whatever they compute |
| Timing.ForwardingIsNoLater | src/vm/hazard_detection_unit.cpp:54-143 | over such words a forwarding mode ends its loop no later than mode 2 |
| StraightLine.StraightLineRun | src/vm/rvss/rvss_vm.cpp:1761-1795 | every straight-line program of exact words ends within three ticks a word and five more, with the sequential result, or in mode 2 exactly without that last write |
| StraightLine.WordsBehind | src/vm/rvss/rvss_vm.cpp:1771-1778 | with other words than zero behind the program, which of them still write a register or memory: at most the first, exactly if neither it nor the last word of the program waits, and at most the first two |
| NoHazards.RunsWithoutHazard | src/vm/hazard_detection_unit.cpp:17-71 | mode 1 does, tick for tick, what mode 2 does as long as mode 2 does not wait |
| NoHazards.NoHazardRun | src/vm/hazard_detection_unit.cpp:17-71 | in mode 1 a straight-line program in which no word reads what one of its two predecessors writes takes one tick a word and leaves the sequential result |
| ControlFlow.RightAddressExactly | src/vm/rvss/rvss_vm.cpp:272-320 | the tick that issues any integer instruction, calls included, leaves the sequential next address exactly when it does not go astray: below mode 4 a taken branch is not followed, and in mode 5 a predicted jalr is not checked against its target |
| ControlFlow.BlindRunRefines | src/vm/rvss/rvss_vm.cpp:272-320 | in modes 2 and 3 every run, with branches of any outcome, is a run of the sequential machine that never takes a branch |
| ControlExamples.BranchIsMissed | src/vm/rvss/rvss_vm.cpp:272-320 | beq x0, x0, 8 in memory at address 0: two ticks after a reset, modes 2 and 3 go on at 4, the sequential machine at 8 |
| ControlExamples.ReturnIsUnchecked | src/vm/rvss/rvss_vm.cpp:272-320 | a return predicted to 16 while its register says 32: mode 5 goes on at 16 |
| ExactWords.ExactExactly | src/vm/rvss/rvss_vm.cpp:309-342 | a pipelined mode gets an integer word right in every state exactly when it is an ExactWord |
| ExactWords.UpperAlone | src/vm/rvss/rvss_vm.cpp:330-400 | lui and auipc in the pipeline write the register their unused field names plus the unshifted immediate |
| ExactWords.JumpAlone | src/vm/rvss/rvss_vm.cpp:309-320 | a jump that was not predicted writes zero instead of its return address |
| RvssVm.RvssVm.constructor | src/vm/rvss/rvss_vm.cpp:1725-1759 | a reset machine: pc 0, empty latches, nothing pending |
| RvssVm.RvssVm.PipelineWriteBack | src/vm/rvss/rvss_vm.cpp:515-582 | the register file after write-back, and the count of retired instructions |
| RvssVm.RvssVm.PipelineMem | src/vm/rvss/rvss_vm.cpp:437-513 | memory and the MEM/WB latch after the memory stage |
| RvssVm.RvssVm.PipelineExecute | src/vm/rvss/rvss_vm.cpp:343-435 | the EX/MEM latch after forwarding and the arithmetic unit |
| RvssVm.RvssVm.ResolveControlFlow | src/vm/rvss/rvss_vm.cpp:272-320 | prediction check, flush, redirect and training for a branch or jump in decode |
| RvssVm.RvssVm.PipelineDecode | src/vm/rvss/rvss_vm.cpp:194-342 | the stage as stall, bubble, redirect or filled latch |
| RvssVm.RvssVm.PipelineFetch | src/vm/rvss/rvss_vm.cpp:144-192 | flush, hold, or fetch at the predicted address |
| RvssVm.RvssVm.Clocktick | src/vm/rvss/rvss_vm.cpp:113-140 | the stages in the order of the code, over double-buffered latches, are one step of the state machine all theorems are about |
| RvssVm.RvssVm.RunPipelined | src/vm/rvss/rvss_vm.cpp:1761-1795 | the loop ends at the end of the program, at the execution limit or on a stop request, then ticks five times more |
| RvssVm.RunStraightLine | src/vm/rvss/rvss_vm.cpp:1761-1795 | the machine object runs any straight-line program to the sequential result |
| RvssVm.RunToEnd | src/vm/rvss/rvss_vm.cpp:1761-1795 | in a forwarding mode the machine object runs every program whose sequential run ends to the sequential result, or stops behind the first instruction that leads back from its end |
| SingleCycleVm.SingleCycleVm.Fetch | src/vm/rvss/rvss_vm.cpp:585-588 | the word at the program counter, which moves four on |
| SingleCycleVm.SingleCycleVm.SettlePc | src/vm/rvss/rvss_vm.cpp:632-684 | branches and jumps of the single-cycle machine, by going four back and adding |
| SingleCycleVm.SingleCycleVm.Execute | src/vm/rvss/rvss_vm.cpp:594-690 | result, flag and next address of one instruction |
| SingleCycleVm.SingleCycleVm.WriteMemory | src/vm/rvss/rvss_vm.cpp:1117-1183 | the access of one instruction; a load word without a width leaves the old result |
| SingleCycleVm.SingleCycleVm.WriteBack | src/vm/rvss/rvss_vm.cpp:1280-1330 | which result goes to the register |
| SingleCycleVm.SingleCycleVm.ExecuteNext | src/vm/rvss/rvss_vm.cpp:1495-1499 | one instruction with an integer opcode changes the state, with the flag of the last branch and the value of the last load, exactly as stated, also when its word reuses them |
| SingleCycleVm.SingleCycleVm.RunSingle | src/vm/rvss/rvss_vm.cpp:1486-1511 | the whole run, to the end of the program, the limit or a stop request, takes that step as often as it says, for all integer words |
| SingleCycleVm.RegularIsSequential | src/vm/rvss/rvss_vm.cpp:1486-1511 | as long as no word reuses an old result, those are the steps of the sequential machine |
| Programs.ProgramSetup | src/vm/vm_base.cpp:22-30 | a straight-line program in memory whose stores leave it alone meets every assumption of the pipeline theorems on the concrete processor |
| Programs.RunProgram | src/vm/rvss/rvss_vm.cpp:1761-1795 | from reset, the concrete pipelined machine leaves the sequential registers and memory |
| Programs.RunBothWays | src/vm/rvss/rvss_vm.cpp:1486-1511 | the single-cycle object and the pipelined object run the same program to the same memory and registers |
| Programs.ForwardingProgramIsNoLater | src/vm/hazard_detection_unit.cpp:54-143 | on every program of words in a row, lui and auipc included, a forwarding mode ends its loop no later than mode 2, and mode 2 within three ticks a word |
| Programs.StraightProgramIsNoLater | src/vm/hazard_detection_unit.cpp:54-143 | so it is for straight-line programs whose stores leave them alone |
| Programs.HazardFreeProgram | src/vm/hazard_detection_unit.cpp:17-71 | so it does on the concrete processor from reset |
| ProgramLength.StorelessLength | src/vm/rvss/rvss_vm.cpp:1761-1769 | from reset, the main loop over a program without stores takes exactly that many ticks in every mode |
| ProgramLength.StraightLength | src/vm/rvss/rvss_vm.cpp:1761-1769 | so it does over a straight-line program whose stores leave it alone |
| ProgramLength.StraightForwardingLength | src/vm/hazard_detection_unit.cpp:73-143 | with forwarding that is the number of words and of loads whose value the next word reads, the last word left out |
| StorelessPrograms.StorelessStays | src/vm/rvss/rvss_vm.cpp:1761-1769 | a program without stores stays in memory in every pipelined mode, whatever it computes |
| StorelessPrograms.StorelessIsNoLater | src/vm/hazard_detection_unit.cpp:54-143 | for words in a row without stores, lui and auipc included, forwarding is no later than stalling, without any condition on the run |
| BranchingPrograms.BranchingSetup | src/vm/vm_base.cpp:22-30 | a program of exact words with branches, whose sequential run ends without storing over the program, meets every assumption about the run loop in modes 4 and 5 |
| BranchingPrograms.BackIsLastWord | src/vm/rvss/rvss_vm.cpp:1766-1769 | an instruction leads back exactly if it is the last word of the program, a branch or jump, and not the last one executed |
| BranchingPrograms.RunSequentiallyToEnd | src/vm/rvss/rvss_vm.cpp:1486-1511 | the single-cycle object runs every such program to its end |
| BranchingPrograms.RunBothToEnd | src/vm/rvss/rvss_vm.cpp:1761-1795 | the single-cycle object and, in modes 4 and 5, the pipelined object run the same program with branches to the same registers and memory, or the pipeline stops behind the first instruction that leads back |
| Execution.AssembleForRun | src/vm/vm_base.cpp:22-79 | a token list, assembled, loaded into empty memory and run by the pipeline, leaves what the sequential machine computes: straight-line programs in every mode but for that last write in mode 2, programs with branches in modes 4 and 5 |
| Execution.ImageIsProgram | src/vm/vm_base.cpp:22-79 | a loaded program lies in memory from address 0, followed by zero words |
| Processor.FlagIsTaken | src/vm/branch_comparator_alu.cpp:3-27 | the comparator of the pipeline and the flag of the single-cycle machine take the same branches |
| Processor.MachineIsLawful | src/vm/rvss/rvss_control_unit.cpp:118-478 | the concrete units meet the laws the pipeline theorems assume |
| ProcessorUnits.StoreIsMemoryStore | src/vm/main_memory.cpp:131-157 | a store of the processor is a sized store of the simulated memory, refusals included |
| ProcessorUnits.LoadIsMemoryLoad | src/vm/main_memory.cpp:77-103 | a load is a sized load, then widened |
| ProcessorUnits.PredictorIsGshare | src/vm/branch_prediction_unit.cpp:4-56 | the predictor in the pipeline is the predictor object |
| MnemonicMeaning.RegisterWordSelects | src/vm/rvss/rvss_control_unit.cpp:118-478 | the word of a register mnemonic makes the control unit select the operation the mnemonic names |
| MnemonicMeaning.ImmediateWordSelects | src/vm/rvss/rvss_control_unit.cpp:118-478 | so for immediates, loads and jalr |
| MnemonicMeaning.ShiftWordSelects | src/vm/rvss/rvss_control_unit.cpp:118-478 | for shifts exactly when the shift is to the left or by less than 32 |
| MnemonicMeaning.BranchWordDecides | src/vm/rvss/rvss_vm.cpp:649-676 | both machines branch on the comparison the mnemonic names |
| MnemonicMeaning.LoadMeans | src/vm/rvss/rvss_vm.cpp:1133-1164 | a load reads the bytes its mnemonic says and extends them with or without sign, as numbers |
| MnemonicMeaning.StoreMeans | src/vm/rvss/rvss_vm.cpp:1166-1183 | a store inside memory leaves the number of its source modulo the width its mnemonic says, and no other byte changes; outside it is refused |
| MnemonicEffects.RegisterMnemonic | src/vm/rvss/rvss_vm.cpp:594-690 | executing a register mnemonic writes the named operation of its two registers to its destination, but for the word operations nothing; MnemonicNumbers.RegisterMeans says what that is |
| MnemonicNumbers.RegisterMeans | src/vm/alu.cpp:40-240 | what every register mnemonic computes: sums, products, quotients, remainders, shifts and comparisons as numbers, and, or and xor bit by bit |
| MnemonicEffects.RegisterDeliversExactly | src/vm/rvss/rvss_control_unit.cpp:19-116 | the destination gets the named value in every state exactly for the mnemonics that are not word operations |
| MnemonicEffects.ImmediateMnemonic | src/vm/rvss/rvss_vm.cpp:594-690 | what every immediate mnemonic, load and jalr does to registers, memory and program counter, with the value MnemonicNumbers.ImmediateMeans describes; addiw does nothing |
| MnemonicNumbers.ImmediateMeans | src/vm/alu.cpp:40-240 | an immediate operation computes what its register mnemonic does with the sign-extended immediate |
| MnemonicEffects.ImmediateDeliversExactly | src/vm/rvss/rvss_control_unit.cpp:19-116 | of the operations with an immediate exactly addiw does not deliver |
| MnemonicEffects.ShiftMnemonic | src/vm/rvss/rvss_vm.cpp:594-690 | a shift by an immediate delivers the named value, to the right by 32 or more zero, and the word shifts nothing |
| MnemonicNumbers.ShiftMeans | src/vm/alu.cpp:198-240 | and a shift by an immediate what its register mnemonic does with the amount |
| MnemonicEffects.StoreMnemonic | src/vm/rvss/rvss_vm.cpp:1166-1183 | a store writes its second register at its first plus the immediate |
| MnemonicEffects.BranchMnemonic | src/vm/rvss/rvss_vm.cpp:649-684 | a branch goes the distance exactly when the comparison its mnemonic names holds |
| MnemonicEffects.JumpMnemonic | src/vm/rvss/rvss_vm.cpp:632-643 | jal saves the next address and goes the distance |
| InstructionEffects.EffectExactly | src/vm/rvss/rvss_vm.cpp:594-690 | the word of every integer mnemonic, lui and auipc included, has exactly the effect of its mnemonic and operands on the whole state |
| LineMeaning.NumericLine | src/assembler/parse_formats/i_m_formats.cpp:30-249 | a line that names no label stands for one unit exactly if its number is in the range of the format; its word is that of the mnemonic with the registers and the number in the order of the line |
| LineMeaning.NumericLineRuns | src/vm/rvss/rvss_vm.cpp:594-690 | so executing it does what the mnemonic says with the registers and the number on the line |
| LineMeaning.LabelLineRuns | src/assembler/parse_formats/i_m_formats.cpp:251-372 | a branch or jump by label, executed at its address, goes to the label if the comparison of its two registers, in the order of the line, holds, and nowhere else |
| LineMeaning.ShorthandRuns | src/assembler/parse_formats/pseudo_formats.cpp:86-264 | not leaves the bitwise complement of the other register, mv the register itself, nop changes only the program counter, and ret goes where x1 says and writes nothing |
| LineMeaning.LiLineRuns | src/assembler/parse_formats/pseudo_formats.cpp:108-187 | li takes exactly the numbers of 32 bits; what it leaves in the register and nothing else |
| LineMeaning.LaLineRuns | src/assembler/parse_formats/pseudo_formats.cpp:16-83 | la at its address leaves the address of the data label, exactly if the distance is in range, and changes nothing else |
| LineMeaning.NeedsData | src/assembler/parse_formats/i_m_formats.cpp:374-462 | la and a load by label are accepted exactly for a data label |
| LineMeaning.LoadLineRuns | src/assembler/parse_formats/i_m_formats.cpp:374-462 | a load by label into a register other than x0 reads from that address |
| LineMeaning.LoadIntoZeroRuns | src/assembler/parse_formats/i_m_formats.cpp:374-462 | into x0 it reads from the lower part of the distance |
| PseudoMeaning.UpperThenAddi | src/assembler/parse_formats/pseudo_formats.cpp:16-83 | lui or auipc and addi, encoded, decoded and executed, leave the sum of the two parts |
| PseudoMeaning.LiExactly | src/assembler/parse_formats/pseudo_formats.cpp:108-187 | li leaves its number exactly when it lies below 2^31 - 2048 |
| PseudoMeaning.LiRuns | src/assembler/parse_formats/pseudo_formats.cpp:108-187 | and otherwise 2^32 less; the whole state behind it |
| PseudoMeaning.LaExactly | src/assembler/parse_formats/pseudo_formats.cpp:16-83 | la leaves the address exactly when the rounded distance fits 32 bits |
| Tokens.UnescapeEscape | src/utils.cpp:90-117 | every text has a string literal that stands for it |
| Tokens.EscapesExactly | src/utils.cpp:90-117 | what each escape stands for; an unknown one is kept |
| ParserData.LiteralDenotes | src/assembler/parser.cpp:110-175 | an integer literal keeps its number modulo the range of its directive |
| ParserData.LiteralTakes | src/assembler/parser.cpp:110-175 | it takes the bytes its range needs, and is aligned to as many |
| ParserData.OtherLiterals | src/assembler/parser.cpp:176-232 | zero stands for as many zero bytes as it says, a string for its bytes and a zero, a floating-point literal for its bits |
| DataItems.DataIsDescribed | src/assembler/parser.cpp:63-254 | read token by token, the data are the literals of the data sections in order, and every label names the literal that comes next |
| DataItems.DataRegionExactly | src/assembler/parser.cpp:516-557 | a token is read as data exactly if the last section name in front of it opens a data section |
| DataPlaces.PlacedExactly | src/assembler/parser.cpp:63-254 | every data label is the offset at which the loader's 32-bit counter arrives at its literal exactly if the two alignment walks over the tokens meet at every literal that is named |
| DataPlaces.LiteralsSuffice | src/assembler/parser.cpp:63-254 | without errors, and with a literal behind every label, they meet |
| ParserExamples.ParseDrifting | src/assembler/parser.cpp:63-110 | a program the parser accepts and whose second data label is 8 where its literal is loaded at 1 |
| ParserExamples.ParseSpinning | src/assembler/parser.cpp:516-541 | a program on which the parser never ends |
| TextMeaning.ErrorsRemain | src/assembler/parser.cpp:256-459 | an error in front is never taken back |
| Syntaxes.SyntaxExactly | src/common/instructions.cpp:621-745 | a line is accepted exactly if what follows the mnemonic is spelled as the table of syntaxes says |
| TextPlaces.TextIsDescribed | src/assembler/parser.cpp:256-459 | a program that assembles is the one counting gives: each line of the code is there as its units, behind as many as the lines in front of it take; each code label is four times that count; there is nothing else |
| TextPlaces.LabelNamesLine | src/assembler/parser.cpp:261-280 | the unit at a quarter of the address of a label is the first one of the next line |
| TextMeaning.LineUnitsUsable | src/assembler/parser.cpp:281-445 | every unit a line stands for can be encoded, or names a label and has existing registers |
| TextMeaning.TextIsSound | src/assembler/parser.cpp:256-459 | so it is for every unit of a program, and code labels are multiples of four |
| Emission.EntriesReflect | src/assembler/parse_formats/i_m_formats.cpp:251-372 | emitting the units of a line one by one keeps code and queue what they stand for: linked, or waiting for a label |
| Emission.QueueDecides | src/assembler/parser.cpp:594-684 | every queued unit can be filled in exactly if the program is linkable |
| Emission.FilledIsProgram | src/assembler/parser.cpp:594-684 | and the code is then the program |
| Parser.Parser.NextToken | src/assembler/parser.cpp:32-37 | moves one token on, never past the end |
| Parser.Parser.SkipCurrentLine | src/assembler/parser.cpp:46-51 | moves to the first token of another line or to the end |
| Parser.Parser.ParseLiterals | src/assembler/parser.cpp:110-232 | consumes exactly the run of literals and commas, appends exactly what it stands for, and records an error exactly for a count of zero |
| Parser.Parser.ParseDataLabel | src/assembler/parser.cpp:75-109 | the label gets the index aligned for its directive, names the next literal, and without a directive is an error |
| Parser.Parser.ParseDataDirective | src/assembler/parser.cpp:63-254 | reads exactly what the tokens of the section stand for: literals, index, labels and errors |
| Parser.Parser.ParseO | src/assembler/parse_formats/i_m_formats.cpp:14-28 | exact shape and unit of a line without operands |
| Parser.Parser.ParseGprGprGpr | src/assembler/parse_formats/i_m_formats.cpp:30-63 | exact shape and unit of a three-register line |
| Parser.Parser.ParseGprGprImm | src/assembler/parse_formats/i_m_formats.cpp:65-171 | exact shape, range check and unit of two registers and a number |
| Parser.Parser.ParseGprImm | src/assembler/parse_formats/i_m_formats.cpp:173-249 | the same for a register and a number |
| Parser.Parser.ParseGprGprLabel | src/assembler/parse_formats/i_m_formats.cpp:251-312 | a branch to a label: linked, queued, or refused when out of range |
| Parser.Parser.ParseGprLabel | src/assembler/parse_formats/i_m_formats.cpp:318-372 | a jump to a label, likewise |
| Parser.Parser.EmitToLabel | src/assembler/parse_formats/i_m_formats.cpp:251-312 | linked if the label is known and in range, an error if out of range, queued if not known |
| Parser.Parser.EmitAddress | src/assembler/parse_formats/i_m_formats.cpp:374-462 | a load that names a data label: auipc and the load, with the split distance |
| Parser.Parser.ParseGprImmBase | src/assembler/parse_formats/i_m_formats.cpp:464-534 | loads, stores and jalr with offset and base |
| Parser.Parser.ParseLi | src/assembler/parse_formats/pseudo_formats.cpp:108-187 | one or two instructions, or an error outside 32 bits |
| Parser.Parser.ParseShorthand | src/assembler/parse_formats/pseudo_formats.cpp:86-264 | nop, mv, not and ret as the instruction LineMeaning.ShorthandRuns executes |
| Parser.Parser.ParsePseudo | src/assembler/parse_formats/pseudo_formats.cpp:15-266 | accepted exactly with the syntax of the pseudo-instruction, and then yields exactly its units, operands included, or an error |
| Parser.Parser.ParseInstruction | src/assembler/parser.cpp:281-445 | a line is accepted exactly when it has one of the syntaxes of its mnemonic, and then yields exactly the units it stands for, with registers, immediates and targets, or an error |
| Parser.Parser.ReadInstruction | src/assembler/parser.cpp:281-445 | one line of text, refused or not, and the M extension check, as the tokens say |
| Parser.Parser.ParseTextLabel | src/assembler/parser.cpp:261-280 | a code label gets the address TextPlaces.TextIsDescribed counts; naming it twice is an error |
| Parser.Parser.ParseTextDirective | src/assembler/parser.cpp:256-459 | ends, and reads exactly what the tokens of the section stand for: units, labels and errors |
| Parser.Parser.FirstPass | src/assembler/parser.cpp:516-557 | ends exactly if no label or mnemonic in front of the end reads like a section name, and otherwise spins there; the data is that of the tokens |
| Parser.Parser.SecondPass | src/assembler/parser.cpp:559-592 | ends on every token list, with the units and labels of the tokens |
| Parser.Parser.PatchUnit | src/assembler/parser.cpp:594-684 | one queued unit gets its offset, or an error is recorded exactly if its label is not known, holds data for a branch, or is out of range |
| Parser.Parser.BackPatch | src/assembler/parser.cpp:594-684 | without an error exactly if the program is linkable, and then the code is the program |
| Parser.Parser.EmitText | src/assembler/parser.cpp:559-684 | the second pass and back-patching: without errors exactly if the text is and can be linked, and then every unit is that of the tokens |
| Parser.Parser.Parse | src/assembler/parser.cpp:516-686 | ends exactly on quiet token lists, has no errors exactly if the tokens assemble, and then the code is that of the tokens unit by unit, with operands, targets and labels, and so is the data |
| ParserUnits.LinkedWord | src/assembler/code_generator.cpp:126-170 | the word of a linked unit, read back by the immediate generator, is the offset to its label |
| ParserUnits.OffsetRangeExactly | src/assembler/parse_formats/i_m_formats.cpp:251-372 | the range check lets exactly the even offsets pass that the format can hold |
| DecimalText.PrintedNumberReads | src/assembler/code_generator.cpp:42-44 | printed decimal immediates read back exactly when they fit a 32-bit int |
| CodeGenerator.GenerateMachineCode | src/assembler/code_generator.cpp:309-354 | the words of all units in order, or an error exactly when one unit has none |
| CodeGenerator.DecodeEncode | src/assembler/code_generator.cpp:46-307 | a field-extracting decoder recovers mnemonic and operands from every word, so fields never overlap |
| CodeGenerator.EncodeIsInjective | src/assembler/code_generator.cpp:46-307 | different instructions have different words |
| CodeGenerator.UnitRoundTrip | src/assembler/code_generator.cpp:309-354 | from the text of a unit to its word and back |
| Layout.WordHasParts | src/assembler/code_generator.cpp:46-307 | every part of every integer word, immediate bits included, lies where the instruction set has it |
| Layout.BaseWordExactly | include/common/instructions.h:231-320 | each mnemonic has the fixed bits the instruction set lists |
| Instructions.FieldsNameTheMnemonic | src/common/instructions.cpp:381-587 | opcode and function fields determine the mnemonic |
| VmBase.ImmediateRoundTrip | src/vm/vm_base.cpp:96-173 | every immediate comes back from its word; of shifts the low six bits; of opcode 0x1B nothing but 0 |
| DataSection.AlignedIsLeast | src/vm/vm_base.cpp:34-37 | aligning yields the least multiple at or after the offset |
| Loader.LoadProgram | src/vm/vm_base.cpp:22-79 | a program that fits is loaded completely |
| Loader.TextReadsBack | src/vm/vm_base.cpp:22-30 | every text word reads back at four times its index, whatever was loaded later |
| Loader.DataReadsBack | src/vm/vm_base.cpp:32-79 | every literal reads back at its aligned offset |
| EndToEnd.AssembleAndLoad | src/vm/vm_base.cpp:22-79 | from tokens to memory: when parsing ends, when it has no errors, that the units are then those counted off the tokens and every one is encoded, and that in a program that fits the word of every unit and every literal is in place, every branch leads to the first line behind its label, and every data label names its literal if the counters meet |
| LineMap.BuildLineMap | src/assembler/assembler.cpp:56-72 | defined exactly on lines 1 to that of the last instruction, each going to the first instruction on or after it |
| LineMap.LowerAdjoint | src/assembler/assembler.cpp:56-72 | the map is the lower adjoint of "line of" |
| LineMap.Breakpoints.AddBreakpoint | src/vm/vm_base.cpp:176-203 | which requests are refused, and what is stored otherwise |
| LineMap.Breakpoints.RemoveBreakpoint | src/vm/vm_base.cpp:205-233 | removes exactly that address |
| LineMap.Breakpoints.CheckBreakpoint | src/vm/vm_base.cpp:235-238 | found exactly when set |
| LineMap.BreakpointStopsAtFirst | src/vm/vm_base.cpp:176-203 | a breakpoint on a line is at the first instruction on or after it |
| FlatMemory.LoadAfterStore | src/vm/main_memory.cpp:61-75 | a load returns the low bytes of the store of its place |
| FlatMemory.LoadedPrefix | src/vm/main_memory.cpp:61-75 | the first bytes are the low ones |
| FlatMemory.LoadElsewhere | src/vm/main_memory.cpp:61-75 | and a store leaves all other bytes alone |
| Memory.Memory.constructor | include/vm/main_memory.h:36-40 | all bytes zero |
| Memory.Memory.Reset | include/vm/main_memory.h:99-101 | all bytes zero again |
| Memory.Memory.Read | src/vm/main_memory.cpp:21-31 | a byte of the flat map, zero if its block was never allocated |
| Memory.Memory.Write | src/vm/main_memory.cpp:33-41 | changes one byte or is refused |
| Memory.Memory.EnsureBlockExists | src/vm/main_memory.cpp:55-59 | allocating a block changes no contents |
| Memory.Memory.ReadGeneric | src/vm/main_memory.cpp:61-68 | little-endian bytes, across blocks |
| Memory.Memory.WriteGeneric | src/vm/main_memory.cpp:70-75 | little-endian bytes, across blocks, up to the end of memory |
| Memory.Memory.ReadSized | src/vm/main_memory.cpp:77-103 | answers exactly for accesses inside the memory |
| Memory.Memory.WriteSized | src/vm/main_memory.cpp:131-157 | changes exactly its bytes; a refused one at most those the wrapped check lets through |
| Memory.AllOrNothing | src/vm/main_memory.cpp:131-157 | a refused store of n bytes never changes anything exactly when the memory is empty or has at least n - 1 bytes |
| Memory.Replay | src/vm/main_memory.cpp:21-157 | any sequence of accesses of any widths behaves as on the flat map |
| Alu.OverflowIsExact | src/vm/alu.cpp:45-79 | the flag of add, sub and mul tells whether the result is exact |
| Alu.WordOverflowIsExact | src/vm/alu.cpp:52-72 | the same for addw, subw and mulw |
| Alu.MulhIsExact | src/vm/alu.cpp:80-92 | mulh and mul together are the signed 128-bit product |
| Alu.MulhsuIsExact | src/vm/alu.cpp:93-104 | mulhsu and mul together are the mixed product |
| Alu.MulhuIsExact | src/vm/alu.cpp:105-116 | mulhu and mul together are the unsigned product, although it is computed in a signed variable |
| Alu.DivisionFits | src/vm/alu.cpp:125-136 | div and rem fit together; by zero both answer 0 |
| Alu.UnsignedDivisionFits | src/vm/alu.cpp:149-155 | divu and remu fit together; by zero both answer 0 |
| Alu.WordDivisionFits | src/vm/alu.cpp:137-148 | divw and remw fit together |
| Alu.UnsignedWordDivisionFits | src/vm/alu.cpp:156-162 | divuw and remuw fit together, zero-extended |
| Alu.DivisionOverflow | src/vm/alu.cpp:125-148 | the one overflowing quotient: the greatest value in 64 bits, the least in 32 |
| Alu.WordOperationReadsWords | src/vm/alu.cpp:117-227 | word operations depend on the low words only |
| Alu.WordOperationSignExtends | src/vm/alu.cpp:117-227 | and answer sign-extended words |
| Alu.UnsignedWordOperationZeroExtends | src/vm/alu.cpp:156-190 | except divuw and remuw, right only when the top bit is clear |
| Alu.WordOperationIsLowWord | src/vm/alu.cpp:52-124 | addw, subw and mulw are the sign-extended low words of add, sub and mul |
| AluMeaning.BitByBit | src/vm/alu.cpp:191-199 | bit i of and, or and xor is the conjunction, disjunction or exclusive or of the bits i of the operands |
| AluMeaning.ComparisonsAreNumbers | src/vm/alu.cpp:228-240 | slt and sltu write 1 exactly if the first number is less, signed or unsigned, and 0 otherwise |
| AluMeaning.WordShiftsDivide | src/vm/alu.cpp:204-227 | sllw and srlw multiply and divide the low word, sraw divides the signed low word rounding down |
| Alu.LogicalShiftDivides | src/vm/alu.cpp:210-213 | srl divides by a power of two |
| Alu.ArithmeticShiftDivides | src/vm/alu.cpp:220-223 | sra divides the signed value, rounding down |
| Alu.ShiftLeftMultiplies | src/vm/alu.cpp:200-203 | sll multiplies modulo 2^64 |
| BranchPredictor.BranchPredictionUnit.Predict | src/vm/branch_prediction_unit.cpp:4-34 | answer and new state, with a missing counter installed at 1; which counter is asked, GshareLaws.SharesCounterExactly says |
| BranchPredictor.BranchPredictionUnit.Update | src/vm/branch_prediction_unit.cpp:36-56 | counter, target and history after a resolved branch |
| GshareLaws.IndexBit | src/vm/branch_prediction_unit.cpp:8-10 | bit i of the index differs from bit i of the address exactly if bit i of the history is set |
| GshareLaws.SharesCounterExactly | src/vm/branch_prediction_unit.cpp:8-10 | two addresses under two histories share a counter exactly if the bits in which the addresses differ are those in which the histories do |
| GshareLaws.HistoriesSeparate | src/vm/branch_prediction_unit.cpp:8-10 | so one branch has different counters under different histories |
| GshareLaws.TrainingIsLocal | src/vm/branch_prediction_unit.cpp:36-46 | training under one history leaves every answer under another index as it was |
| GshareLaws.LearnsPerHistory | src/vm/branch_prediction_unit.cpp:36-46 | what a branch is taught under one history does not change its answers under another |
| GshareLaws.SharedCounterAnswersAlike | src/vm/branch_prediction_unit.cpp:4-20 | and what meets at one counter is answered alike |
| GshareLaws.FirstAnswers | src/vm/branch_prediction_unit.cpp:4-20 | a counter nobody has trained answers not taken; after one taken outcome it still does if nobody had asked, and answers taken if somebody had |
| GshareLaws.TwoDecide | src/vm/branch_prediction_unit.cpp:36-56 | two equal outcomes in a row under one history decide the answer there |
| GshareLaws.OneDoesNotUndo | src/vm/branch_prediction_unit.cpp:39-46 | after three equal outcomes one contrary outcome does not change the answer, and two do |
| GshareLaws.TakenTwice | src/vm/branch_prediction_unit.cpp:4-56 | a branch taken twice from the start, asked under the history it then has, is not predicted |
| BranchPredictor.BranchPredictionUnit.RecordPrediction | src/vm/branch_prediction_unit.cpp:58-63 | correct never exceeds total |
| BranchPredictor.BranchPredictionUnit.Reset | src/vm/branch_prediction_unit.cpp:70-75 | as new |
| BranchPredictor.CountersStayInRange | src/vm/branch_prediction_unit.cpp:4-56 | counters stay in 0 to 3 over every run |
| BranchPredictor.AskingTwice | src/vm/branch_prediction_unit.cpp:4-34 | asking again changes nothing and answers the same |
| BranchPredictor.HistoryIsLastOutcomes | src/vm/branch_prediction_unit.cpp:36-56 | bit i of the history is the i-th outcome from the end |
| BranchPredictor.TakenPredictionTarget | src/vm/branch_prediction_unit.cpp:4-34 | a taken prediction gives the target of the latest taken update of that address |
| BranchPredictor.Converges | src/vm/branch_prediction_unit.cpp:4-56 | 66 equal outcomes settle the predictor from any state, whatever is asked in between |

## Left out

- Floating point: registers, arithmetic, loads, stores, rounding modes and the formats of its instructions. The
  encoder and decoder cover its encodings, the data section its literals as bit patterns.
- CSR instructions, system calls and their parser formats. The pipeline theorems are about integer opcodes; the
  hazard unit is known to be wrong for destination register 0 of the floating-point file.
- PipelineRuns.RunRefines: in modes 2 and 3 for runs in which no conditional branch is taken, in mode 5 for runs
  in which each `jalr` always goes to the same address; `OnCourse.RunRefinesExactly` has the exact condition.
- OnCourse.RunRefinesExactly: up to the first word that is not an `ExactWord`; `ExactWords.ExactExactly` shows that the
  pipeline gets no other integer word right in every state.
  What `lui`, `auipc` and linking jumps leave in a longer run is not a function of the sequential state: they read
  an unused register field without waiting or forwarding, or link what the predictor decides.
- PipelineLoop.ForwardingRunIsSequential: for programs of exact words, followed by three zero words in memory, whose
  sequential run ends, and in mode 5 a predictor that remembers nothing of them at first, as after a reset.
- StraightLine.StraightLineRun: for exact words followed by zero words, and stores that leave the program alone;
  `StraightLine.WordsBehind` says which other words behind it can still change something.
- LoopLength.LoopLengthExactly: for words in a row, only the last of which may be a branch or jump; behind a redirect
  `IssueGaps.RedirectExactly` has the exact wait for each instruction of any run.
- Timing.ForwardingIsNoLater: for words in a row. With branches inside, the modes can execute different instructions.
- BranchingPrograms.BranchingSetup: for programs whose stores leave them alone, and in mode 5 each `jalr` of which
  always goes to the same address.
- Execution.AssembleForRun: for programs of exact words, with the data at least four words behind the text.
- NoHazards.NoHazardRun: for straight-line programs.
- Programs.ProgramSetup: for programs whose addresses stay below 2^63.
- A fetch past the end of memory, whose exception the fetch stage does not catch.
- SingleCycleVm.SingleCycleVm.RunSingle: says what the run is as long as it meets integer words; undo and redo
  records are not kept.
- RvssVm.RvssVm.RunPipelined: the stop request of another thread is a number of ticks; the dumps and the printed
  statistics are not modelled. Reset of a used machine is not modelled apart from a new one.
- Alu.WordDivisionFits: the two cases undefined in C++, the remainder of the least value by -1 and word divisions
  by a divisor with a zero low word only, answer 0 in the model.
- Instructions: the mnemonics `neg`, `j`, `call` and the other pseudo-instructions the parser lists but does not
  expand are one mnemonic without syntax.
- Lexing: register names arrive as numbers, number and floating-point literals as values, strings as bytes. The
  model starts at the token list.
- Parser.Parser.ParseInstruction: does not say which error texts are recorded, only how often.
- Parser.Parser.Parse: of a program with errors it gives the labels, the data and the number of units, but not the
  units.
- The units of the code generator keep their fields as text, without the truncation of the fixed-size arrays
  they are kept in.
- BranchPredictor.BranchPredictionUnit.RecordPrediction: the statistics are unbounded.
- Memory.Memory.constructor: the block size is fixed per object; changing it afterwards is not modelled.
- VmBase: state dumps, the register file's textual access, and the memory-mapped devices.
- The breakpoint the loader sets at the end of the program, and the debug run that stops at breakpoints.
- Data labels as targets of `jal`: the code accepts them, and the offset it computes means nothing.
- The graphical interface, the command loop, configuration files, ELF output and all printing.
