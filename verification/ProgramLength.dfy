/** How many ticks the processor takes over a program from reset: exactly, and from its words alone. */
module ProgramLength {
  import opened Words
  import opened HazardUnit
  import opened PipelineRuns
  import opened MainLoop
  import opened Timing
  import opened StraightLine
  import opened Processor
  import opened RvssVm
  import opened Programs
  import opened StorelessPrograms
  import opened LoopLength

  lemma NothingExecutes(mode: int, m: Ram)
    ensures !ExWrites(ResetRun(mode, m)(0).idEx)
  {
  }

  /** The ticks until the last word is in decode: those it takes if nothing waits, and the waits. */
  function Length(mode: int, w: seq<bv32>): nat
    requires |w| > 0
  {
    Arrives(mode, w, |w| - 1)
  }

  /** Words in a row that stay in memory. */
  lemma RowLength(mode: int, m: Ram, w: seq<bv32>)
    requires mode >= 2 && |w| > 0 && Row(w) && TextStays(mode, m, w)
    ensures LoopEnds(ResetRun(mode, m), Halted(w), Length(mode, w))
  {
    hide Row, TextStays, ResetRun, Timed, LoopEnds, Halted, Addresses, Arrives, ExWrites;
    ProgramIsTimed(mode, m, w);
    NothingExecutes(mode, m);
    LoopLengthExactly(MACHINE, mode, ResetRun(mode, m), Halted(w), Addresses(), w);
  }

  /** A program without stores. */
  lemma StorelessLength(mode: int, m: Ram, w: seq<bv32>)
    requires mode >= 2 && |w| > 0 && Row(w) && Storeless(w) && Contains(m, w)
    ensures LoopEnds(ResetRun(mode, m), Halted(w), Length(mode, w))
  {
    hide Row, Storeless, Contains, TextStays, ResetRun, LoopEnds, Arrives;
    StorelessStays(mode, m, w);
    RowLength(mode, m, w);
  }

  /** A straight-line program whose stores leave it alone. */
  lemma StraightLength(mode: int, m: Ram, w: seq<bv32>, arch: SeqRun<Dword, Ram>)
    requires mode >= 2 && |w| > 0 && ProgramRun(m, w, arch)
    ensures LoopEnds(ResetRun(mode, m), Halted(w), Length(mode, w))
  {
    hide ProgramRun, StraightSetup, Timed, ResetState, RunFrom, Halted, TextOf, LoopEnds, Arrives, ExWrites;
    ProgramSetup(mode, m, w, arch);
    StraightIsTimed(MACHINE, mode, TextOf(w), pc => pc, ResetRun(mode, m), arch, Halted(w), Addresses(), w);
    NothingExecutes(mode, m);
    LoopLengthExactly(MACHINE, mode, ResetRun(mode, m), Halted(w), Addresses(), w);
  }

  /** With forwarding that is one tick a word, and one more for each word in front of the last that reads what
      a load directly in front of it loads. */
  lemma StraightForwardingLength(mode: int, m: Ram, w: seq<bv32>, arch: SeqRun<Dword, Ram>)
    requires mode >= 3 && |w| > 0 && ProgramRun(m, w, arch) && forall i :: 0 <= i < |w| ==> !IsBranchOrJalr(w[i])
    ensures LoopEnds(ResetRun(mode, m), Halted(w), |w| + LoadUses(w, |w| - 1))
  {
    hide ProgramRun, ResetRun, Halted, LoopEnds, Arrives, LoadUses, IsBranchOrJalr;
    StraightLength(mode, m, w, arch);
    ForwardingLength(mode, w, |w| - 1);
  }
}
