/** Saturating counters, and keyed groups of them with the label of their first record. */
module RangeCounters {

  const MAX_COUNT := 0x7FFF_FFFF_FFFF_FFFF

  type Count = n: int | 0 <= n <= MAX_COUNT

  /** Adding int64 counters: negative operands count as zero, and the sum stops at the maximum. */
  function AddCounts(left: int, right: int): Count {
    var a, b := if left < 0 then 0 else if left > MAX_COUNT then MAX_COUNT else left,
                if right < 0 then 0 else if right > MAX_COUNT then MAX_COUNT else right;
    if a > MAX_COUNT - b then MAX_COUNT else a + b
  }

  datatype Counters = Counters(requests: Count, successes: Count, failures: Count, totalTokens: Count, inputTokens: Count,
                               outputTokens: Count, cachedTokens: Count, cacheWriteTokens: Count, reasoningTokens: Count,
                               latencySum: Count, latencyCount: Count)
  {
    function Plus(other: Counters): Counters {
      Counters(AddCounts(requests, other.requests), AddCounts(successes, other.successes),
               AddCounts(failures, other.failures), AddCounts(totalTokens, other.totalTokens),
               AddCounts(inputTokens, other.inputTokens), AddCounts(outputTokens, other.outputTokens),
               AddCounts(cachedTokens, other.cachedTokens), AddCounts(cacheWriteTokens, other.cacheWriteTokens),
               AddCounts(reasoningTokens, other.reasoningTokens), AddCounts(latencySum, other.latencySum),
               AddCounts(latencyCount, other.latencyCount))
    }
  }

  const NOTHING := Counters(0, 0, 0, 0, 0, 0, 0, 0, 0, 0, 0)

  /** Saturation does not depend on how a sum is grouped. */
  lemma PlusAssociative(a: Counters, b: Counters, c: Counters)
    ensures a.Plus(b).Plus(c) == a.Plus(b.Plus(c))
  {
  }

  lemma PlusNothing(a: Counters)
    ensures NOTHING.Plus(a) == a && a.Plus(NOTHING) == a
  {
  }
}
