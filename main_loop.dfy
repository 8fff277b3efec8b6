/** The pacing of the entry point's main loop (src/index.js): each round
    starts with a one-minute budget, every channel update spends the time it
    took, and the loop sleeps for what is left, never a negative time. The
    entry point's parseDurationMs is Durations.EnvDuration. */
module MainLoop {
  import opened Common

  /** The budget each round starts with. */
  const RoundBudgetMs := 60 * 1000

  function Sum(durations: seq<int>): int
  {
    if durations == [] then 0 else Sum(durations[..|durations| - 1]) + durations[|durations| - 1]
  }

  /** The sleep after a round whose channel updates took `durations`. */
  function SleepAfter(durations: seq<int>): int
  {
    Max(0, RoundBudgetMs - Sum(durations))
  }

  /** A round's sleep: the scraper failing sleeps the whole budget;
      otherwise the budget is charged for each channel in turn and clamped
      at zero. */
  method RoundSleep(scraped: bool, durations: seq<int>) returns (sleepMs: int)
    ensures sleepMs >= 0
    ensures !scraped ==> sleepMs == RoundBudgetMs
    ensures scraped ==> sleepMs == SleepAfter(durations)
  {
    var totalWaitMs := RoundBudgetMs;
    if !scraped {
      return totalWaitMs;
    }
    var i := 0;
    while i < |durations|
      invariant 0 <= i <= |durations|
      invariant totalWaitMs == RoundBudgetMs - Sum(durations[..i])
    {
      assert durations[..i + 1][..i] == durations[..i];
      totalWaitMs := totalWaitMs - durations[i];
      i := i + 1;
    }
    assert durations[..i] == durations;
    if totalWaitMs < 0 {
      totalWaitMs := 0;
    }
    sleepMs := totalWaitMs;
  }

  /** The sum of non-negative durations is non-negative and grows with
      every channel. */
  lemma {:induction false} SumMonotone(durations: seq<int>, d: int)
    requires forall i :: 0 <= i < |durations| ==> durations[i] >= 0
    ensures Sum(durations) >= 0
    ensures d >= 0 ==> Sum(durations + [d]) >= Sum(durations)
  {
    assert (durations + [d])[..|durations|] == durations;
    if durations != [] {
      SumMonotone(durations[..|durations| - 1], d);
    }
  }

  /** The sleep never exceeds the budget when the updates took
      non-negative time, and it is zero exactly when the updates used the
      whole budget. */
  lemma SleepBounds(durations: seq<int>)
    requires forall i :: 0 <= i < |durations| ==> durations[i] >= 0
    ensures 0 <= SleepAfter(durations) <= RoundBudgetMs
    ensures SleepAfter(durations) == 0 <==> Sum(durations) >= RoundBudgetMs
    ensures Sum(durations) < RoundBudgetMs ==> SleepAfter(durations) + Sum(durations) == RoundBudgetMs
  {
    SumMonotone(durations, 0);
  }
}
