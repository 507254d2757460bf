/** The observations of one quota period. Times and durations are nanoseconds, the zero time is 0, and
    `used` is the used share of the quota. */
module QuotaPeriods {
  import opened Wrappers

  const SECOND := 1_000_000_000
  const MINUTE := 60 * SECOND
  const SAMPLES_MAX := 64

  /** What a window is about: a credential, and a bucket of its quota. */
  datatype Key = Key(provider: string, authIndex: string, authId: string, group: string, slot: string, source: string)

  datatype Observation = Observation(key: Key, name: string, model: string, unmapped: bool, seconds: int, reset: int,
                                     observedAt: int, used: real, revoked: bool, collectionStartedAt: int)

  datatype Period = Period(endedByReset: bool, resetTimeEstimated: bool, start: int, end: int, collectionStartedAt: int,
                           samples: seq<Observation>)

  predicate ValidObservation(o: Observation) {
    && o.observedAt != 0
    && (o.revoked ||
        (0 < o.seconds <= 366 * 86400 && o.reset != 0 && 0.0 <= o.used <= 1.0
         && o.reset - o.seconds * SECOND <= o.observedAt <= o.reset))
  }

  predicate SameObservation(a: Observation, b: Observation) {
    a == b.(collectionStartedAt := a.collectionStartedAt)
  }

  /** Deadlines that differ by clock drift only. */
  predicate DriftIsSmall(previous: int, next: int, seconds: int) {
    var quarter := seconds * SECOND / 4;
    var tolerance := if quarter < MINUTE then quarter else MINUTE;
    -tolerance <= next - previous <= tolerance
  }

  predicate Precedes(end: int, start: int, seconds: int) {
    end <= start || DriftIsSmall(end, start, seconds)
  }

  // ----- order -----

  ghost predicate Sorted(s: seq<Observation>) {
    forall i, j | 0 <= i < j < |s| :: s[i].observedAt <= s[j].observedAt
  }

  /** A stable insertion: behind all that were not observed later. */
  function Inserted(s: seq<Observation>, o: Observation): seq<Observation> {
    if s == [] || s[|s| - 1].observedAt <= o.observedAt then s + [o]
    else Inserted(s[..|s| - 1], o) + [s[|s| - 1]]
  }

  function StableSorted(s: seq<Observation>): seq<Observation> {
    if s == [] then [] else Inserted(StableSorted(s[..|s| - 1]), s[|s| - 1])
  }

  lemma {:induction false} InsertedMembers(s: seq<Observation>, o: Observation)
    ensures multiset(Inserted(s, o)) == multiset(s) + multiset{o}
  {
    if s != [] && s[|s| - 1].observedAt > o.observedAt {
      InsertedMembers(s[..|s| - 1], o);
      assert s == s[..|s| - 1] + [s[|s| - 1]];
    }
  }

  lemma {:induction false} InsertedSorted(s: seq<Observation>, o: Observation)
    requires Sorted(s)
    ensures Sorted(Inserted(s, o))
  {
    if s != [] && s[|s| - 1].observedAt > o.observedAt {
      var front, last := s[..|s| - 1], s[|s| - 1];
      InsertedSorted(front, o);
      InsertedMembers(front, o);
      var t := Inserted(front, o);
      forall i | 0 <= i < |t| ensures t[i].observedAt <= last.observedAt {
        assert t[i] in multiset(t);
        assert t[i] in front || t[i] == o;
      }
    }
  }

  lemma {:induction false} StableSortedFits(s: seq<Observation>)
    ensures Sorted(StableSorted(s)) && multiset(StableSorted(s)) == multiset(s)
  {
    hide Sorted, Inserted;
    if s == [] {
      NoneSorted();
    } else {
      var front, last := s[..|s| - 1], s[|s| - 1];
      StableSortedFits(front);
      InsertedMembers(StableSorted(front), last);
      InsertedSorted(StableSorted(front), last);
      assert s == front + [last];
    }
  }

  lemma NoneSorted()
    ensures Sorted([])
  {
  }

  lemma SortedFront(s: seq<Observation>)
    requires Sorted(s) && s != []
    ensures Sorted(s[..|s| - 1]) && Inserted(s[..|s| - 1], s[|s| - 1]) == s
  {
    var front, last := s[..|s| - 1], s[|s| - 1];
    assert front != [] ==> front[|front| - 1].observedAt <= last.observedAt;
    assert s == front + [last];
  }

  /** What is sorted stays as it is. */
  lemma {:induction false} SortedStays(s: seq<Observation>)
    requires Sorted(s)
    ensures StableSorted(s) == s
  {
    hide Sorted, Inserted;
    if s != [] {
      SortedFront(s);
      SortedStays(s[..|s| - 1]);
    }
  }

  // ----- early resets -----

  predicate ResetCandidate(peak: real, used: real) {
    used < peak - 0.02 || (used == 0.0 && peak > 0.0)
  }

  /** The fall from sample `k` to sample `i` is a reset that the next sample confirms. */
  predicate Confirmed(s: seq<Observation>, end: int, k: nat, i: nat)
    requires k < |s| && i < |s|
  {
    && i + 1 < |s| && s[i].observedAt < end && ResetCandidate(s[k].used, s[i].used)
    && s[i + 1].used < (s[k].used + s[i].used) / 2.0
  }

  /** Where a scan of the samples stands: the peak since the last reset, and that reset. */
  datatype Scan = Scan(current: int, peak: int, drop: int)

  /** One more sample. */
  function ScanOne(s: seq<Observation>, end: int, i: nat, r: Scan): Scan
    requires i < |s| && -1 <= r.current < i
  {
    if r.current >= 0 && Confirmed(s, end, r.current, i) then Scan(i, r.current, i)
    else if r.current < 0 || s[i].used > s[r.current].used then r.(current := i)
    else r
  }

  function ScanResets(s: seq<Observation>, end: int, n: nat): (r: Scan)
    requires n <= |s|
    ensures -1 <= r.current < n && -1 <= r.peak < n && -1 <= r.drop < n && (n > 0 ==> r.current >= 0)
    ensures r.drop <= r.current
  {
    if n == 0 then Scan(-1, -1, -1) else ScanOne(s, end, n - 1, ScanResets(s, end, n - 1))
  }

  ghost predicate PeakOf(s: seq<Observation>, from: int, to: int, k: int)
    requires 0 <= from <= k < to <= |s|
  {
    forall j | from <= j < to :: s[j].used <= s[k].used
  }

  /** The scan finds the latest reset: a confirmed fall from the peak since the one before, with no
      confirmed fall from any later peak. */
  lemma {:induction false} ScanFindsLatest(s: seq<Observation>, end: int, n: nat)
    requires n <= |s|
    ensures var r := ScanResets(s, end, n);
            var from := if r.drop < 0 then 0 else r.drop;
            && (r.drop < 0 <==> r.peak < 0)
            && (r.drop >= 0 ==> r.peak < r.drop && Confirmed(s, end, r.peak, r.drop))
            && (n > 0 ==> from <= r.current && PeakOf(s, from, n, r.current))
            && (forall k, i | from <= k < i < n && PeakOf(s, from, i, k) :: !Confirmed(s, end, k, i))
  {
    if n > 0 {
      ScanFindsLatest(s, end, n - 1);
      var r, q := ScanResets(s, end, n), ScanResets(s, end, n - 1);
      if r.drop != n - 1 {
        var from := if r.drop < 0 then 0 else r.drop;
        forall k, i | from <= k < i < n && PeakOf(s, from, i, k) ensures !Confirmed(s, end, k, i) {
          if i == n - 1 {
            assert PeakOf(s, from, n - 1, q.current);
            assert s[k].used == s[q.current].used;
          }
        }
      }
    }
  }

  method LatestReset(s: seq<Observation>, end: int) returns (peak: int, drop: int)
    ensures peak == ScanResets(s, end, |s|).peak && drop == ScanResets(s, end, |s|).drop
  {
    var current := -1;
    peak, drop := -1, -1;
    var i := 0;
    while i < |s|
      invariant 0 <= i <= |s| && ScanResets(s, end, i) == Scan(current, peak, drop)
    {
      if current >= 0 && i + 1 < |s| && s[i].observedAt < end && ResetCandidate(s[current].used, s[i].used)
         && s[i + 1].used < (s[current].used + s[i].used) / 2.0 {
        peak, drop, current := current, i, i;
      } else if current < 0 || s[i].used > s[current].used {
        current := i;
      }
      i := i + 1;
    }
  }

  function ResetThreshold(p: Period): int {
    var part := (p.end - p.start) / 24;
    if part > MINUTE then part else MINUTE
  }

  /** How many samples come before the first that, like all behind it, has the deadline of the period. */
  function PreReset(p: Period, n: nat): (count: nat)
    requires n <= |p.samples|
    ensures count <= n
    ensures forall i | count <= i < n :: p.end - p.samples[i].reset <= ResetThreshold(p)
    ensures count > 0 ==> p.end - p.samples[count - 1].reset > ResetThreshold(p)
  {
    if n == 0 then 0 else if p.end - p.samples[n - 1].reset > ResetThreshold(p) then n else PreReset(p, n - 1)
  }

  method PreResetSamples(p: Period) returns (count: nat)
    ensures count == PreReset(p, |p.samples|)
  {
    count := 0;
    var i := 0;
    while i < |p.samples|
      invariant 0 <= i <= |p.samples| && count == PreReset(p, i)
    {
      if p.end - p.samples[i].reset > ResetThreshold(p) {
        count := i + 1;
      }
      i := i + 1;
    }
  }

  lemma {:induction false} DropGrows(s: seq<Observation>, end: int, n: nat, m: nat)
    requires n <= m <= |s|
    ensures ScanResets(s, end, n).drop <= ScanResets(s, end, m).drop
    ensures ScanResets(s, end, m).drop < n ==> ScanResets(s, end, n).drop == ScanResets(s, end, m).drop
  {
    if n < m {
      DropGrows(s, end, n, m - 1);
    }
  }

  lemma ScanOneFrom(s: seq<Observation>, end: int, d: nat, i: nat, r: Scan)
    requires d <= r.current < i < |s| && ScanOne(s, end, i, r).drop != i
    ensures ScanOne(s[d..], end, i - d, Scan(r.current - d, -1, -1)) == Scan(ScanOne(s, end, i, r).current - d, -1, -1)
  {
    assert s[d..][i - d] == s[i] && s[d..][r.current - d] == s[r.current];
    assert i + 1 < |s| ==> s[d..][i + 1 - d] == s[i + 1];
  }

  lemma RightAfterLatest(s: seq<Observation>, end: int, d: nat)
    requires d < |s| && ScanResets(s, end, d + 1).drop == d
    ensures ScanResets(s, end, d + 1).current == d && ScanResets(s[d..], end, 1) == Scan(0, -1, -1)
  {
    assert ScanResets(s[d..], end, 0) == Scan(-1, -1, -1);
    assert ScanResets(s, end, d).drop < d;
  }

  /** Seen from the latest reset on, the samples have none. */
  lemma {:induction false} NoneAfterLatest(s: seq<Observation>, end: int, d: nat, n: nat)
    requires d < n <= |s| && ScanResets(s, end, |s|).drop == d
    ensures var r, q := ScanResets(s, end, n), ScanResets(s[d..], end, n - d);
            r.drop == d && q == Scan(r.current - d, -1, -1)
  {
    hide ScanOne, Confirmed;
    DropGrows(s, end, n, |s|);
    if n == d + 1 {
      RightAfterLatest(s, end, d);
    } else {
      NoneAfterLatest(s, end, d, n - 1);
      ScanOneFrom(s, end, d, n - 1, ScanResets(s, end, n - 1));
    }
  }

  predicate Consumed(s: seq<Observation>) {
    exists i :: 0 <= i < |s| && s[i].used > 0.0
  }

  /** The part of a period since its latest reset, if it had one: the samples behind the first `skipped`. */
  datatype View = View(skipped: nat, start: int, estimated: bool, reset: bool)

  predicate Fits(v: View, p: Period) {
    v.skipped <= |p.samples| && (if v.reset then v.skipped < |p.samples| else v == View(0, p.start, p.resetTimeEstimated, false))
  }

  function Shown(p: Period, v: View): Period
    requires Fits(v, p)
  {
    p.(start := v.start, resetTimeEstimated := v.estimated, samples := p.samples[v.skipped..])
  }

  /** Without the samples from before the latest usage decrease. */
  function SinceDecrease(p: Period, v: View): (r: View)
    requires Fits(v, p)
    ensures Fits(r, p)
  {
    var s := Shown(p, v).samples;
    var drop := ScanResets(s, p.end, |s|).drop;
    if drop < 0 then v else View(v.skipped + drop, s[drop].observedAt, true, true)
  }

  /** Without the first samples, which have an earlier deadline and of which `prior` shows a part. */
  function SinceDeadlineMoved(p: Period, before: nat, prior: View): (r: View)
    requires 0 < before < |p.samples| && prior.skipped <= before
    ensures Fits(r, p)
  {
    var last, next := p.samples[before - 1], p.samples[before];
    if Consumed(p.samples[prior.skipped..before]) then
      if p.start < last.observedAt || p.start > next.observedAt then View(before, next.observedAt, true, true)
      else View(before, p.start, p.resetTimeEstimated, true)
    else if prior.reset then View(prior.skipped, prior.start, prior.estimated, true)
    else View(0, p.start, p.resetTimeEstimated, false)
  }

  function PriorPeriod(p: Period, before: nat): Period
    requires 0 < before <= |p.samples|
  {
    var deadline := p.samples[before - 1].reset;
    Period(false, false, deadline - (p.end - p.start), deadline, 0, p.samples[..before])
  }

  function EffectiveView(p: Period): (v: View)
    ensures Fits(v, p)
    decreases |p.samples|
  {
    var before := PreReset(p, |p.samples|);
    if before == 0 || before == |p.samples| then SinceDecrease(p, View(0, p.start, p.resetTimeEstimated, false))
    else SinceDecrease(p, SinceDeadlineMoved(p, before, EffectiveView(PriorPeriod(p, before))))
  }

  /** The period that is charged: the one since the latest reset card or usage decrease. */
  function EffectivePeriod(p: Period): Period {
    Shown(p, EffectiveView(p))
  }

  lemma DecreaseSkipsAll(p: Period, v: View)
    requires Fits(v, p)
    ensures var e := Shown(p, SinceDecrease(p, v)); ScanResets(e.samples, e.end, |e.samples|).drop < 0
  {
    hide ScanResets;
    var s := Shown(p, v).samples;
    var drop := ScanResets(s, p.end, |s|).drop;
    if drop >= 0 {
      NoneAfterLatest(s, p.end, drop, |s|);
      assert s[drop..] == p.samples[v.skipped + drop..];
    }
  }

  /** The effective part holds no further usage reset: looking again finds nothing. */
  lemma EffectiveHasNoDecrease(p: Period)
    ensures var e := EffectivePeriod(p); ScanResets(e.samples, e.end, |e.samples|).drop < 0
  {
    var before := PreReset(p, |p.samples|);
    if before == 0 || before == |p.samples| {
      DecreaseSkipsAll(p, View(0, p.start, p.resetTimeEstimated, false));
    } else {
      DecreaseSkipsAll(p, SinceDeadlineMoved(p, before, EffectiveView(PriorPeriod(p, before))));
    }
  }

  predicate EarlyDeadline(p: Period, o: Observation) {
    p.end - o.reset > ResetThreshold(p)
  }

  /** Nor does a deadline move there after usage: what still names an earlier deadline, and all before it,
      shows none. Where the last sample names one, deadlines are not looked at. */
  lemma EffectiveDeadlines(p: Period)
    requires PreReset(p, |p.samples|) < |p.samples|
    ensures var s := EffectivePeriod(p).samples;
            forall i, j | 0 <= j <= i < |s| && EarlyDeadline(p, s[i]) :: s[j].used <= 0.0
  {
    hide EffectiveView, SinceDecrease, SinceDeadlineMoved, PreReset, EarlyDeadline;
    var before, view := PreReset(p, |p.samples|), EffectiveView(p);
    var s := EffectivePeriod(p).samples;
    if before > 0 {
      ViewSinceMove(p, before);
    }
    forall i, j | 0 <= j <= i < |s| && EarlyDeadline(p, s[i]) ensures s[j].used <= 0.0 {
      assert s[i] == p.samples[view.skipped + i];
      LateAfter(p, view.skipped + i);
    }
  }

  lemma ViewSinceMove(p: Period, before: nat)
    requires 0 < before < |p.samples| && before == PreReset(p, |p.samples|)
    ensures forall i | EffectiveView(p).skipped <= i < before :: p.samples[i].used <= 0.0
  {
    hide EffectiveView, SinceDecrease, SinceDeadlineMoved, PreReset;
    var prior := EffectiveView(PriorPeriod(p, before));
    ViewOfMoved(p, before);
    DecreaseMovesOn(p, SinceDeadlineMoved(p, before, prior));
    MovedUnconsumed(p, before, prior);
  }

  lemma ViewOfMoved(p: Period, before: nat)
    requires 0 < before < |p.samples| && before == PreReset(p, |p.samples|)
    ensures EffectiveView(PriorPeriod(p, before)).skipped <= before
    ensures EffectiveView(p) == SinceDecrease(p, SinceDeadlineMoved(p, before, EffectiveView(PriorPeriod(p, before))))
  {
    hide SinceDecrease, SinceDeadlineMoved, PreReset;
  }

  lemma DecreaseMovesOn(p: Period, v: View)
    requires Fits(v, p)
    ensures v.skipped <= SinceDecrease(p, v).skipped
  {
    hide ScanResets;
  }

  lemma MovedUnconsumed(p: Period, before: nat, prior: View)
    requires 0 < before < |p.samples| && prior.skipped <= before && Fits(prior, PriorPeriod(p, before))
    ensures forall i | SinceDeadlineMoved(p, before, prior).skipped <= i < before :: p.samples[i].used <= 0.0
  {
    hide Consumed;
    if SinceDeadlineMoved(p, before, prior).skipped < before {
      Unconsumed(p.samples[prior.skipped..before]);
      forall i | prior.skipped <= i < before ensures p.samples[i].used <= 0.0 {
        assert p.samples[i] == p.samples[prior.skipped..before][i - prior.skipped];
      }
    }
  }

  lemma Unconsumed(s: seq<Observation>)
    requires !Consumed(s)
    ensures forall j | 0 <= j < |s| :: s[j].used <= 0.0
  {
  }

  lemma LateAfter(p: Period, i: nat)
    requires i < |p.samples| && EarlyDeadline(p, p.samples[i])
    ensures i < PreReset(p, |p.samples|)
  {
  }

  // ----- at most 64 samples -----

  ghost function Count(keep: seq<bool>): (n: nat)
    ensures n <= |keep|
  {
    if keep == [] then 0 else Count(keep[..|keep| - 1]) + if keep[|keep| - 1] then 1 else 0
  }

  function Chosen(s: seq<Observation>, keep: seq<bool>): (t: seq<Observation>)
    requires |s| == |keep|
  {
    if s == [] then []
    else Chosen(s[..|s| - 1], keep[..|s| - 1]) + if keep[|s| - 1] then [s[|s| - 1]] else []
  }

  lemma {:induction false} ChosenFits(s: seq<Observation>, keep: seq<bool>)
    requires |s| == |keep|
    ensures |Chosen(s, keep)| == Count(keep)
    ensures forall o | o in Chosen(s, keep) :: o in s
    ensures forall i | 0 <= i < |s| && keep[i] :: s[i] in Chosen(s, keep)
  {
    if s != [] {
      var front := s[..|s| - 1];
      ChosenFits(front, keep[..|s| - 1]);
      forall i | 0 <= i < |s| && keep[i] ensures s[i] in Chosen(s, keep) {
        assert i < |s| - 1 ==> front[i] == s[i] && keep[..|s| - 1][i];
      }
    }
  }

  lemma {:induction false} ChosenSorted(s: seq<Observation>, keep: seq<bool>)
    requires |s| == |keep| && Sorted(s)
    ensures Sorted(Chosen(s, keep))
  {
    if s != [] {
      var front, last := s[..|s| - 1], s[|s| - 1];
      ChosenSorted(front, keep[..|s| - 1]);
      ChosenFits(front, keep[..|s| - 1]);
      var t := Chosen(front, keep[..|s| - 1]);
      forall i | 0 <= i < |t| ensures t[i].observedAt <= last.observedAt {
        assert t[i] in front;
      }
    }
  }

  lemma {:induction false} CountMarked(keep: seq<bool>, i: nat)
    requires i < |keep|
    ensures Count(keep[i := true]) == Count(keep) + if keep[i] then 0 else 1
  {
    var n := |keep| - 1;
    if i < n {
      CountMarked(keep[..n], i);
      assert keep[i := true][..n] == keep[..n][i := true];
    } else {
      assert keep[i := true][..n] == keep[..n];
    }
  }

  lemma {:induction false} CountNone(n: nat)
    ensures Count(seq(n, _ => false)) == 0
  {
    if n > 0 {
      CountNone(n - 1);
      assert seq(n, _ => false)[..n - 1] == seq(n - 1, _ => false);
    }
  }

  lemma {:induction false} CountAll(keep: seq<bool>)
    requires forall i | 0 <= i < |keep| :: keep[i]
    ensures Count(keep) == |keep|
  {
    if keep != [] {
      CountAll(keep[..|keep| - 1]);
    }
  }

  ghost predicate Extends(keep: seq<bool>, more: seq<bool>) {
    |keep| == |more| && forall i | 0 <= i < |keep| && keep[i] :: more[i]
  }

  method Mark(keep: seq<bool>, kept: nat, i: int) returns (more: seq<bool>, n: nat)
    requires kept == Count(keep)
    ensures Extends(keep, more) && n == Count(more) <= kept + 1
    ensures 0 <= i < |keep| ==> more[i]
    ensures forall j | 0 <= j < |keep| && j != i :: more[j] == keep[j]
  {
    more, n := keep, kept;
    if 0 <= i < |keep| && !keep[i] {
      CountMarked(keep, i);
      more, n := keep[i := true], kept + 1;
    }
  }

  /** The samples that compaction must not lose: the very first, the first of this collection, both sides
      of the latest reset and of a moved deadline, and the last that shows exhaustion. */
  ghost predicate Anchors(p: Period, keep: seq<bool>)
    requires |keep| == |p.samples| > 0
  {
    var s := p.samples;
    var r, deadline := ScanResets(s, p.end, |s|), PreReset(p, |s|);
    && keep[0]
    && (forall i | 0 <= i < |s| && s[i].observedAt >= p.collectionStartedAt
                   && (forall j | 0 <= j < i :: s[j].observedAt < p.collectionStartedAt) :: keep[i])
    && (r.drop >= 0 && r.peak >= 0 ==> keep[r.peak] && keep[r.drop] && (r.drop + 1 < |s| ==> keep[r.drop + 1]))
    && (deadline > 0 ==> keep[deadline - 1]) && (deadline < |s| ==> keep[deadline])
    && (forall i | 0 <= i < |s| && s[i].used == 1.0 && (forall j | i < j < |s| :: s[j].used != 1.0) :: keep[i])
  }

  method FirstCollected(s: seq<Observation>, started: int) returns (first: int)
    ensures -1 <= first < |s|
    ensures first < 0 ==> forall i | 0 <= i < |s| :: s[i].observedAt < started
    ensures first >= 0 ==> s[first].observedAt >= started && forall i | 0 <= i < first :: s[i].observedAt < started
  {
    first := 0;
    while first < |s|
      invariant 0 <= first <= |s| && forall i | 0 <= i < first :: s[i].observedAt < started
    {
      if s[first].observedAt >= started {
        return;
      }
      first := first + 1;
    }
    first := -1;
  }

  method LastExhausted(s: seq<Observation>) returns (last: int)
    ensures -1 <= last < |s|
    ensures last >= 0 ==> s[last].used == 1.0
    ensures forall i | last < i < |s| :: s[i].used != 1.0
  {
    last := |s| - 1;
    while last >= 0
      invariant -1 <= last < |s| && forall i | last < i < |s| :: s[i].used != 1.0
    {
      if s[last].used == 1.0 {
        return;
      }
      last := last - 1;
    }
  }

  predicate Marked(keep: seq<bool>, i: int) {
    0 <= i < |keep| ==> keep[i]
  }

  method MarkAll(n: nat, marks: seq<int>) returns (keep: seq<bool>, kept: nat)
    ensures |keep| == n && kept == Count(keep) <= |marks| && forall k | 0 <= k < |marks| :: Marked(keep, marks[k])
  {
    CountNone(n);
    keep, kept := seq(n, _ => false), 0;
    var k := 0;
    while k < |marks|
      invariant 0 <= k <= |marks| && |keep| == n && kept == Count(keep) <= k
      invariant forall j | 0 <= j < k :: Marked(keep, marks[j])
    {
      keep, kept := Mark(keep, kept, marks[k]);
      k := k + 1;
    }
  }

  method MarkAnchors(p: Period) returns (keep: seq<bool>, kept: nat)
    requires |p.samples| > SAMPLES_MAX
    ensures |keep| == |p.samples| && Anchors(p, keep) && kept == Count(keep) <= 8
  {
    hide Count, ScanResets, PreReset;
    var s := p.samples;
    var first := FirstCollected(s, p.collectionStartedAt);
    var peak, drop := LatestReset(s, p.end);
    var deadline: int := PreResetSamples(p);
    var exhausted := LastExhausted(s);
    var marks := [0, first, peak, drop, drop + 1, deadline - 1, deadline, exhausted];
    keep, kept := MarkAll(|s|, marks);
    assert Marked(keep, marks[0]) && Marked(keep, marks[1]) && Marked(keep, marks[2]) && Marked(keep, marks[3])
        && Marked(keep, marks[4]) && Marked(keep, marks[5]) && Marked(keep, marks[6]) && Marked(keep, marks[7]);
  }

  /** 64 samples are left: the anchors, at most eight, and besides them only the newest. */
  ghost predicate Compacted(p: Period, q: Period, anchors: seq<bool>, keep: seq<bool>) {
    && |anchors| == |keep| == |p.samples| > 0 && Anchors(p, anchors) && Count(anchors) <= 8
    && q == p.(samples := Chosen(p.samples, keep)) && |q.samples| == SAMPLES_MAX
    && Extends(anchors, keep) && (forall i, j | 0 <= i < j < |keep| && keep[i] && !anchors[i] :: keep[j])
  }

  method FillNewest(anchors: seq<bool>, count: nat) returns (keep: seq<bool>)
    requires count == Count(anchors) <= SAMPLES_MAX < |anchors|
    ensures Extends(anchors, keep) && Count(keep) == SAMPLES_MAX
    ensures forall i, j | 0 <= i < j < |keep| && keep[i] && !anchors[i] :: keep[j]
  {
    keep := anchors;
    var kept, i := count, |keep| - 1;
    while i >= 0 && kept < SAMPLES_MAX
      invariant -1 <= i < |keep| == |anchors| && Extends(anchors, keep) && kept == Count(keep) <= SAMPLES_MAX
      invariant forall j | i < j < |keep| :: keep[j]
      invariant forall j | 0 <= j <= i :: keep[j] == anchors[j]
    {
      keep, kept := Mark(keep, kept, i);
      i := i - 1;
    }
    if kept < SAMPLES_MAX {
      CountAll(keep);
    }
  }

  method Compact(p: Period) returns (q: Period, ghost anchors: seq<bool>, ghost keep: seq<bool>)
    ensures if |p.samples| <= SAMPLES_MAX then q == p else Compacted(p, q, anchors, keep)
    ensures |q.samples| <= SAMPLES_MAX && (Sorted(p.samples) ==> Sorted(q.samples)) && q.(samples := p.samples) == p
    ensures forall o | o in q.samples :: o in p.samples
  {
    hide Count, Chosen, Anchors;
    q, anchors, keep := p, [], [];
    if |p.samples| > SAMPLES_MAX {
      var marked, kept := MarkAnchors(p);
      var chosen := FillNewest(marked, kept);
      ChosenFits(p.samples, chosen);
      if Sorted(p.samples) {
        ChosenSorted(p.samples, chosen);
      }
      q := p.(samples := Chosen(p.samples, chosen));
      anchors, keep := marked, chosen;
    }
  }

  // ----- one more sample -----

  /** At most 64 samples, in the order of their observation. */
  ghost predicate Fine(p: Period) {
    |p.samples| <= SAMPLES_MAX && Sorted(p.samples)
  }

  /** Only the samples and the start of the collection may differ. */
  ghost predicate SameSpan(p: Period, q: Period) {
    q == p.(samples := q.samples, collectionStartedAt := q.collectionStartedAt)
  }

  function Collected(p: Period, o: Observation, started: int): int {
    if p.collectionStartedAt == 0 || (o.observedAt >= started && started > p.collectionStartedAt) then started
    else p.collectionStartedAt
  }

  method AppendSample(p: Period, o: Observation, started: int) returns (q: Period, added: bool)
    ensures added <==> forall i | 0 <= i < |p.samples| :: !SameObservation(p.samples[i], o)
    ensures !added ==> q == p
    ensures added ==> Fine(q) && SameSpan(p, q) && q.collectionStartedAt == Collected(p, o, started)
    ensures added && |p.samples| < SAMPLES_MAX ==> q.samples == StableSorted(p.samples + [o])
    ensures added ==> o in q.samples || |q.samples| == SAMPLES_MAX
    ensures forall x | x in q.samples :: x in p.samples || x == o
  {
    q, added := p, true;
    var i := 0;
    while i < |p.samples|
      invariant 0 <= i <= |p.samples| && forall j | 0 <= j < i :: !SameObservation(p.samples[j], o)
    {
      if SameObservation(p.samples[i], o) {
        return p, false;
      }
      i := i + 1;
    }
    hide StableSorted;
    StableSortedFits(p.samples + [o]);
    SortedLength(p.samples + [o]);
    q := p.(samples := StableSorted(p.samples + [o]), collectionStartedAt := Collected(p, o, started));
    ghost var anchors, keep;
    q, anchors, keep := Compact(q);
  }

  lemma SortedLength(s: seq<Observation>)
    ensures |StableSorted(s)| == |s| && forall x :: x in StableSorted(s) <==> x in s
  {
    StableSortedFits(s);
    assert |multiset(StableSorted(s))| == |multiset(s)|;
    forall x ensures x in StableSorted(s) <==> x in s {
      assert x in StableSorted(s) <==> x in multiset(StableSorted(s));
      assert x in s <==> x in multiset(s);
    }
  }
}
