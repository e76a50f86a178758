/** Token accounting of a Claude stream: peaks of what is live, a saturating sum of what is new. */
module ClaudeUsage {
  import opened Words

  datatype Usage = Usage(input: u64, output: u64, cacheCreation: u64, cacheRead: u64)

  datatype Totals = Totals(peakInput: u64, totalOutput: u64, peakCacheRead: u64, peakCacheWrite: u64)

  /** The true live input of one turn. */
  function LiveInput(u: Usage): nat {
    u.input + u.cacheCreation + u.cacheRead
  }

  function OutputSum(turns: seq<Usage>): nat {
    if turns == [] then 0 else OutputSum(turns[..|turns| - 1]) + turns[|turns| - 1].output
  }

  function Largest(f: Usage -> nat, turns: seq<Usage>): nat {
    if turns == [] then 0
    else
      var before := Largest(f, turns[..|turns| - 1]);
      var last := f(turns[|turns| - 1]);
      if before >= last then before else last
  }

  function Capped(n: nat): u64 {
    Min(n, TWO_64 - 1)
  }

  /** What a session that saw these turns must report. */
  function Expected(turns: seq<Usage>): Totals {
    Totals(Capped(Largest(LiveInput, turns)), Capped(OutputSum(turns)),
           Capped(Largest(CacheReadOf, turns)), Capped(Largest(CacheWriteOf, turns)))
  }

  function CacheReadOf(u: Usage): nat { u.cacheRead }
  function CacheWriteOf(u: Usage): nat { u.cacheCreation }

  /** The largest is reached by some turn and exceeded by none. */
  lemma {:induction false} LargestIsReached(f: Usage -> nat, turns: seq<Usage>)
    ensures forall u :: u in turns ==> f(u) <= Largest(f, turns)
    ensures turns != [] ==> exists u :: u in turns && f(u) == Largest(f, turns)
    ensures turns == [] ==> Largest(f, turns) == 0
  {
    if turns != [] {
      var init, last := turns[..|turns| - 1], turns[|turns| - 1];
      LargestIsReached(f, init);
      assert forall u :: u in turns <==> u in init || u == last;
    }
  }

  /**
   What is expected of a session: each peak, capped, is exceeded by no turn and
   reached by one.
   */
  lemma ExpectedPeaks(turns: seq<Usage>)
    ensures var t := Expected(turns);
            forall u :: u in turns ==>
              && Capped(u.input + u.cacheCreation + u.cacheRead) <= t.peakInput
              && u.cacheRead <= t.peakCacheRead && u.cacheCreation <= t.peakCacheWrite
              && u.output <= t.totalOutput
    ensures turns != [] ==>
              var t := Expected(turns);
              && (exists u :: u in turns && t.peakInput == Capped(u.input + u.cacheCreation + u.cacheRead))
              && (exists u :: u in turns && t.peakCacheRead == u.cacheRead)
              && (exists u :: u in turns && t.peakCacheWrite == u.cacheCreation)
  {
    LargestIsReached(LiveInput, turns);
    LargestIsReached(CacheReadOf, turns);
    LargestIsReached(CacheWriteOf, turns);
    OutputsAddUp(turns);
  }

  lemma {:induction false} OutputsAddUp(turns: seq<Usage>)
    ensures forall u :: u in turns ==> u.output <= OutputSum(turns)
  {
    if turns != [] {
      var init, last := turns[..|turns| - 1], turns[|turns| - 1];
      OutputsAddUp(init);
      assert forall u :: u in turns <==> u in init || u == last;
    }
  }

  class ClaudeSessionState {
    var peakInput: u64
    var totalOutput: u64
    var peakCacheRead: u64
    var peakCacheWrite: u64
    ghost var turns: seq<Usage>

    /** However long the session, the counters are the capped true maxima and the capped true sum. */
    ghost predicate Valid()
      reads this
    {
      Totals(peakInput, totalOutput, peakCacheRead, peakCacheWrite) == Expected(turns)
    }

    constructor ()
      ensures Valid() && turns == []
    {
      peakInput, totalOutput, peakCacheRead, peakCacheWrite := 0, 0, 0, 0;
      turns := [];
    }

    method OnAssistant(u: Usage)
      requires Valid()
      modifies this
      ensures Valid() && turns == old(turns) + [u]
      ensures totalOutput == Min(OutputSum(turns), TWO_64 - 1)
    {
      var turnInput := SaturatingAdd64(SaturatingAdd64(u.input, u.cacheCreation), u.cacheRead);
      peakInput := Max64(peakInput, turnInput);
      totalOutput := SaturatingAdd64(totalOutput, u.output);
      peakCacheRead := Max64(peakCacheRead, u.cacheRead);
      peakCacheWrite := Max64(peakCacheWrite, u.cacheCreation);
      turns := turns + [u];
      assert turns[..|turns| - 1] == old(turns);
    }
  }
}
