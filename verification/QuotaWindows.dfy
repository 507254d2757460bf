/** One quota window: its current period and the one before, brought up to date by observations that may
    arrive in any order. */
module QuotaWindows {
  import opened Wrappers
  import opened QuotaPeriods

  datatype Window = Window(key: Key, name: string, model: string, unmapped: bool, seconds: int, hidden: bool,
                           updatedAt: int, current: Option<Period>, previous: Option<Period>)

  ghost predicate SampleOk(o: Observation, key: Key, seconds: int) {
    ValidObservation(o) && !o.revoked && o.key == key && o.seconds == seconds
  }

  /** At most 64 ordered samples of this very window, over a span of its length; a period that a reset
      ended may have any length. */
  ghost predicate PeriodOk(p: Period, key: Key, seconds: int) {
    && Fine(p) && p.start < p.end && (!p.endedByReset ==> p.end - p.start == seconds * SECOND)
    && forall o | o in p.samples :: SampleOk(o, key, seconds)
  }

  ghost predicate OptionOk(p: Option<Period>, key: Key, seconds: int) {
    p.Some? ==> PeriodOk(p.value, key, seconds)
  }

  /** A previous period that no reset ended is over when the current one starts. */
  ghost predicate Apart(w: Window) {
    w.current.Some? && w.previous.Some? && !w.previous.value.endedByReset ==> w.previous.value.end <= w.current.value.start
  }

  ghost predicate PeriodsOk(w: Window) {
    OptionOk(w.current, w.key, w.seconds) && OptionOk(w.previous, w.key, w.seconds)
  }

  ghost predicate WindowOk(w: Window) {
    PeriodsOk(w) && Apart(w)
  }

  predicate RevocationOnly(w: Window) {
    w.hidden && w.seconds == 0 && w.current == None && w.previous == None && w.updatedAt != 0
  }

  predicate HeadOk(w: Window) {
    0 < w.seconds <= 366 * 86400 || RevocationOnly(w)
  }

  /** All but the periods. */
  ghost predicate SameHead(v: Window, w: Window) {
    v == w.(current := v.current, previous := v.previous)
  }

  lemma AppendedOk(p: Period, q: Period, o: Observation, key: Key, seconds: int)
    requires PeriodOk(p, key, seconds) && SampleOk(o, key, seconds) && Fine(q) && SameSpan(p, q)
    requires forall x | x in q.samples :: x in p.samples || x == o
    ensures PeriodOk(q, key, seconds)
  {
  }

  ghost predicate Has(s: seq<Observation>, o: Observation) {
    exists x :: x in s && SameObservation(x, o)
  }

  lemma HasItself(o: Observation)
    ensures Has([o], o)
  {
    assert o in [o] && SameObservation(o, o);
  }

  /** A sample that was taken is there, unless there are 64 others. */
  ghost predicate Recorded(p: Option<Period>, o: Observation) {
    p.Some? && (Has(p.value.samples, o) || |p.value.samples| == SAMPLES_MAX)
  }

  /** The samples gain this one and lose none while there is room. */
  ghost predicate GainsSample(s: seq<Observation>, t: seq<Observation>, o: Observation) {
    && (forall x | x in t :: x in s || x == o) && (Has(t, o) || |t| == SAMPLES_MAX)
    && (|s| < SAMPLES_MAX ==> Has(t, o) && forall x | x in s :: x in t)
  }

  /** A period gains a sample that it did not have. */
  ghost predicate Gains(p: Option<Period>, q: Option<Period>, o: Observation) {
    && p.Some? && q.Some? && SameSpan(p.value, q.value) && !Has(p.value.samples, o)
    && GainsSample(p.value.samples, q.value.samples, o)
  }

  /** Adds a sample to a sound period. */
  method Append(p: Period, o: Observation, started: int, ghost key: Key, ghost seconds: int) returns (q: Period, added: bool)
    requires PeriodOk(p, key, seconds) && SampleOk(o, key, seconds)
    ensures PeriodOk(q, key, seconds) && SameSpan(p, q) && (!added ==> q == p)
    ensures added <==> !Has(p.samples, o)
    ensures Recorded(Some(q), o) && forall x | x in q.samples :: x in p.samples || x == o
    ensures |p.samples| < SAMPLES_MAX ==> |q.samples| <= |p.samples| + 1 && Has(q.samples, o) && forall x | x in p.samples :: x in q.samples
    ensures GainsSample(p.samples, q.samples, o) && (added ==> Gains(Some(p), Some(q), o))
  {
    hide StableSorted;
    q, added := AppendSample(p, o, started);
    SortedLength(p.samples + [o]);
    if !added {
      var i :| 0 <= i < |p.samples| && SameObservation(p.samples[i], o);
      assert p.samples[i] in q.samples;
    } else {
      assert SameObservation(o, o);
      AppendedOk(p, q, o, key, seconds);
    }
  }

  // ----- archiving what a reset ended -----

  method AppendBefore(p: Period, former: Period, ghost key: Key, ghost seconds: int) returns (q: Period)
    requires PeriodOk(p, key, seconds) && PeriodOk(former, key, seconds)
    ensures PeriodOk(q, key, seconds) && SameSpan(p, q)
    ensures forall x | x in q.samples :: x in p.samples || (x in former.samples && x.observedAt < p.end)
    ensures |p.samples| + |former.samples| <= SAMPLES_MAX ==> HoldsBoth(p, former, q)
  {
    hide PeriodOk, Gains, GainsSample;
    q := p;
    var i := 0;
    while i < |former.samples|
      invariant 0 <= i <= |former.samples| && PeriodOk(q, key, seconds) && SameSpan(p, q)
      invariant forall x | x in q.samples :: x in p.samples || (x in former.samples && x.observedAt < p.end)
      invariant |p.samples| + |former.samples| <= SAMPLES_MAX ==>
        && |q.samples| <= |p.samples| + i && (forall x | x in p.samples :: x in q.samples)
        && forall k | 0 <= k < i && former.samples[k].observedAt < p.end :: Has(q.samples, former.samples[k])
    {
      if former.samples[i].observedAt < p.end {
        SampleOf(former, former.samples[i], key, seconds);
        var added;
        ghost var before := q;
        q, added := Append(q, former.samples[i], former.collectionStartedAt, key, seconds);
        forall k | 0 <= k <= i && former.samples[k].observedAt < p.end && |p.samples| + |former.samples| <= SAMPLES_MAX
          ensures Has(q.samples, former.samples[k])
        {
          assert k < i ==> Has(before.samples, former.samples[k]);
        }
      }
      i := i + 1;
    }
  }

  /** All samples of the one, and of the other those from before the end. */
  ghost predicate HoldsBoth(p: Period, former: Period, q: Period) {
    && (forall x | x in p.samples :: x in q.samples)
    && (forall x | x in former.samples && x.observedAt < p.end :: Has(q.samples, x))
  }

  lemma SampleOf(p: Period, o: Observation, key: Key, seconds: int)
    requires PeriodOk(p, key, seconds) && o in p.samples
    ensures SampleOk(o, key, seconds)
  {
  }

  predicate SameArchive(a: Period, b: Period) {
    && a.start == b.start && a.end == b.end && a.endedByReset && a.resetTimeEstimated == b.resetTimeEstimated
    && |a.samples| == |b.samples| && forall i | 0 <= i < |a.samples| :: SameObservation(a.samples[i], b.samples[i])
  }

  /** The segment before the first `before` samples' reset, as a period that ends where the effective one
      begins. */
  function EndedSegment(w: Window, p: Period, before: nat, effective: Period): Period
    requires 0 < before <= |p.samples|
  {
    var deadline := p.samples[before - 1].reset;
    var segment := EffectivePeriod(Period(false, false, deadline - w.seconds * SECOND, deadline, p.collectionStartedAt,
                                          p.samples[..before]));
    segment.(end := effective.start, endedByReset := true, resetTimeEstimated := effective.resetTimeEstimated)
  }

  lemma SegmentOk(w: Window, p: Period, before: nat, effective: Period)
    requires PeriodOk(p, w.key, w.seconds) && 0 < before <= |p.samples|
    ensures var q := EndedSegment(w, p, before, effective); q.start < q.end ==> PeriodOk(q, w.key, w.seconds)
  {
    hide EffectiveView;
    var q := EndedSegment(w, p, before, effective);
    var skipped := |p.samples[..before]| - |q.samples|;
    assert q.samples == p.samples[skipped..before];
  }

  lemma SegmentEnds(w: Window, p: Period, before: nat, effective: Period)
    requires 0 < before <= |p.samples|
    ensures var q := EndedSegment(w, p, before, effective); q.endedByReset && q.end == effective.start
  {
  }

  lemma RestartedOk(p: Period, start: int, key: Key, seconds: int)
    requires PeriodOk(p, key, seconds) && p.endedByReset && start < p.end
    ensures PeriodOk(p.(start := start), key, seconds)
  {
  }

  /** A segment within an archive that was there takes over its start, and its samples from before the end, all of
      them while there is room. One that begins in the archive and ends later begins where the archive ended, if
      its last sample is from after that. */
  ghost predicate Joins(segment: Period, former: Period, last: Observation, r: Period) {
    && r.endedByReset && r.end == segment.end && r.resetTimeEstimated == segment.resetTimeEstimated
    && if former.start < segment.end <= former.end then
         && r.start == former.start
         && (forall o | o in r.samples :: o in segment.samples || (o in former.samples && o.observedAt < segment.end))
         && (|segment.samples| + |former.samples| <= SAMPLES_MAX ==> HoldsBoth(segment, former, r))
       else
         && r.samples == segment.samples
         && r.start == if segment.start < former.end < segment.end && former.end <= last.observedAt then former.end else segment.start
  }

  /** An archive that was there gives the segment its start, and its samples if the two overlap. */
  method JoinFormer(segment: Period, former: Period, last: Observation, ghost key: Key, ghost seconds: int) returns (r: Period)
    requires PeriodOk(segment, key, seconds) && PeriodOk(former, key, seconds) && segment.endedByReset
    ensures PeriodOk(r, key, seconds) && Joins(segment, former, last, r)
  {
    hide PeriodOk, HoldsBoth;
    r := segment;
    if r.end > former.end && r.start < former.end && last.observedAt >= former.end {
      RestartedOk(r, former.end, key, seconds);
      r := r.(start := former.end);
    }
    if former.start < r.end && r.end <= former.end {
      RestartedOk(r, former.start, key, seconds);
      r := r.(start := former.start);
      r := AppendBefore(r, former, key, seconds);
      SameHolds(segment, segment.(start := former.start), former, r);
    }
  }

  lemma SameHolds(p: Period, q: Period, former: Period, r: Period)
    requires p.samples == q.samples && p.end == q.end
    ensures HoldsBoth(p, former, r) <==> HoldsBoth(q, former, r)
  {
  }

  /** The current period had an early reset, and the segment before it is not older than the previous
      period. */
  predicate ArchiveDue(w: Window) {
    w.current.Some?
    && var p := w.current.value;
       var view := EffectiveView(p);
       view.reset && view.skipped > 0
       && var segment := EndedSegment(w, p, view.skipped, Shown(p, view));
          segment.start < segment.end
          && !(w.previous.Some? && !w.previous.value.endedByReset && w.previous.value.end > segment.end)
  }

  /** What the latest early reset of the current period ended. */
  function ResetSegment(w: Window): Period
    requires ArchiveDue(w)
  {
    var p := w.current.value;
    EndedSegment(w, p, EffectiveView(p).skipped, EffectivePeriod(p))
  }

  /** The segment takes the previous place, joined with an archive that was there. */
  ghost predicate HoldsSegment(w: Window, archive: Option<Period>) {
    ArchiveDue(w) && archive.Some?
    && var segment := ResetSegment(w);
       if w.previous.Some? && w.previous.value.endedByReset then Joins(segment, w.previous.value, LastBefore(w), archive.value)
       else archive.value == segment && segment.endedByReset
  }

  /** Keeps the segment that the latest early reset ended, unless it is known already. The current period
      stays as it is. */
  method ArchiveReset(w: Window) returns (v: Window, changed: bool)
    requires PeriodsOk(w)
    ensures PeriodsOk(v) && SameHead(v, w) && v.current == w.current
    ensures if changed then HoldsSegment(w, v.previous) else v == w
    ensures ArchiveDue(w) && !changed ==>
      w.previous.Some? && w.previous.value.endedByReset && w.previous.value.end == ResetSegment(w).end
  {
    hide ArchiveDue, ResetSegment, PeriodOk, HoldsBoth, LastBefore;
    v, changed := w, false;
    if !ArchiveDue(w) {
      return;
    }
    DueSegment(w);
    var segment := ResetSegment(w);
    if w.previous.Some? && w.previous.value.endedByReset {
      var former := w.previous.value;
      segment := JoinFormer(segment, former, LastBefore(w), w.key, w.seconds);
      if SameArchive(former, segment) {
        return;
      }
    }
    v, changed := w.(previous := Some(segment)), true;
  }

  /** The last sample before the reset. */
  function LastBefore(w: Window): Observation
    requires ArchiveDue(w)
  {
    w.current.value.samples[EffectiveView(w.current.value).skipped - 1]
  }

  lemma DueSegment(w: Window)
    requires PeriodsOk(w) && ArchiveDue(w)
    ensures w.current.Some? && PeriodOk(ResetSegment(w), w.key, w.seconds) && ResetSegment(w).endedByReset
  {
    hide EffectiveView, PeriodOk, EndedSegment;
    var p := w.current.value;
    SegmentEnds(w, p, EffectiveView(p).skipped, EffectivePeriod(p));
    SegmentOk(w, p, EffectiveView(p).skipped, EffectivePeriod(p));
  }

  predicate EmptyArchive(p: Period) {
    p.endedByReset && p.samples != [] && !Consumed(p.samples)
  }

  function WithoutEmptyArchive(w: Window): Window {
    if w.previous.Some? && EmptyArchive(w.previous.value) then w.(previous := None) else w
  }

  // ----- observations -----

  function LastObserved(p: Option<Period>): int {
    if p.Some? && p.value.samples != [] && p.value.samples[|p.value.samples| - 1].observedAt > 0
    then p.value.samples[|p.value.samples| - 1].observedAt else 0
  }

  function WindowObservedAt(w: Window): int {
    var a, b := LastObserved(w.current), LastObserved(w.previous);
    if b > a then b else a
  }

  ghost predicate Known(p: Option<Period>, o: Observation) {
    p.Some? && Has(p.value.samples, o)
  }

  /** A period that a reset ended was live when the observation was made, and has its deadline. */
  predicate InArchive(p: Option<Period>, o: Observation) {
    && p.Some? && p.value.endedByReset && p.value.start <= o.observedAt < p.value.end && p.value.samples != []
    && DriftIsSmall(p.value.samples[|p.value.samples| - 1].reset, o.reset, o.seconds)
  }

  predicate Near(p: Option<Period>, o: Observation) {
    p.Some? && DriftIsSmall(p.value.end, o.reset, o.seconds)
  }

  /** It belongs to a period before the current one that is not known, or that is later than the known one. */
  predicate IsPredecessor(w: Window, o: Observation) {
    w.current.Some? && (w.previous == None || o.reset > w.previous.value.end) && Precedes(o.reset, w.current.value.start, o.seconds)
  }

  /** Whether a late observation completes the history. */
  ghost predicate FitsLate(w: Window, o: Observation) {
    && w.seconds == o.seconds
    && if InArchive(w.previous, o) then !Known(w.previous, o)
       else (Near(w.current, o) && !Known(w.current, o)) || (Near(w.previous, o) && !Known(w.previous, o)) || IsPredecessor(w, o)
  }

  /** What it does then: the period that it belongs to gains it, or becomes the previous one; a current
      period that began before the archive ended gains it, too. */
  ghost predicate LateChange(w: Window, v: Window, o: Observation) {
    if InArchive(w.previous, o) then
      && Gains(w.previous, v.previous, o)
      && (if w.current.Some? && w.current.value.start <= w.previous.value.end
          then Gains(w.current, v.current, o) || (Known(w.current, o) && v.current == w.current)
          else v.current == w.current)
    else if Near(w.current, o) && !Known(w.current, o) then Gains(w.current, v.current, o) && v.previous == w.previous
    else if Near(w.previous, o) && !Known(w.previous, o) then v.current == w.current && Gains(w.previous, v.previous, o)
    else
      && v.current == w.current && w.current.Some? && v.previous.Some? && v.previous.value.samples == [o] && !v.previous.value.endedByReset
      && v.previous.value.end == (if DriftIsSmall(o.reset, w.current.value.start, o.seconds) then w.current.value.start else o.reset)
  }

  /** An observation of the period that a reset ended. */
  method ApplyToArchive(w: Window, o: Observation, started: int) returns (v: Window, accepted: bool)
    requires WindowOk(w) && SampleOk(o, w.key, w.seconds) && InArchive(w.previous, o)
    ensures WindowOk(v) && SameHead(v, w) && (!accepted ==> v == w)
    ensures (accepted <==> FitsLate(w, o)) && (accepted ==> LateChange(w, v, o) && Recorded(v.previous, o))
  {
    hide PeriodOk, Gains, GainsSample, Has, DriftIsSmall;
    v := w;
    var p;
    p, accepted := Append(w.previous.value, o, started, w.key, w.seconds);
    if accepted {
      v := w.(previous := Some(p));
      if w.current.Some? && w.current.value.start <= p.end {
        var c, _ := Append(w.current.value, o, started, w.key, w.seconds);
        v := v.(current := Some(c));
      }
    }
  }

  /** An observation older than what the window shows: it may still complete its history. */
  method ApplyLate(w: Window, o: Observation, started: int) returns (v: Window, accepted: bool)
    requires WindowOk(w) && ValidObservation(o) && !o.revoked && o.key == w.key
    ensures WindowOk(v) && SameHead(v, w) && (!accepted ==> v == w)
    ensures (accepted <==> FitsLate(w, o)) && (accepted ==> LateChange(w, v, o))
    ensures accepted ==> Recorded(v.current, o) || Recorded(v.previous, o)
    ensures accepted ==> w.current.Some? || w.previous.Some?
  {
    hide PeriodOk, Gains, GainsSample, Has, DriftIsSmall, InArchive;
    v, accepted := w, false;
    if w.seconds != o.seconds {
      return;
    }
    if InArchive(w.previous, o) {
      ArchiveIsThere(w.previous, o);
      v, accepted := ApplyToArchive(w, o, started);
      return;
    }
    if Near(w.current, o) {
      var c;
      c, accepted := Append(w.current.value, o, started, w.key, w.seconds);
      if accepted {
        v := w.(current := Some(c));
        return;
      }
    }
    if Near(w.previous, o) {
      var p;
      p, accepted := Append(w.previous.value, o, started, w.key, w.seconds);
      if accepted {
        v := w.(previous := Some(p));
        return;
      }
    }
    if IsPredecessor(w, o) {
      var end := if DriftIsSmall(o.reset, w.current.value.start, o.seconds) then w.current.value.start else o.reset;
      FirstOk(end, o, started, w.key);
      HasItself(o);
      v := w.(previous := Some(Period(false, false, end - o.seconds * SECOND, end, started, [o])));
      EndsBefore(w.current.value.start, o);
      accepted := true;
    }
  }

  lemma ArchiveIsThere(p: Option<Period>, o: Observation)
    requires InArchive(p, o)
    ensures p.Some?
  {
  }

  lemma EndsBefore(start: int, o: Observation)
    requires Precedes(o.reset, start, o.seconds)
    ensures (if DriftIsSmall(o.reset, start, o.seconds) then start else o.reset) <= start
  {
  }

  lemma FirstOk(end: int, o: Observation, started: int, key: Key)
    requires ValidObservation(o) && !o.revoked && o.key == key
    ensures PeriodOk(Period(false, false, end - o.seconds * SECOND, end, started, [o]), key, o.seconds)
  {
  }

  /** Makes the previous period end where the current one starts, or drops it. */
  function Aligned(w: Window, seconds: int): (v: Window)
    requires PeriodsOk(w) && w.seconds == seconds > 0
    ensures WindowOk(v) && SameHead(v, w) && v.current == w.current && (w.current == None ==> v == w)
  {
    if w.current.Some? && w.previous.Some? && !w.previous.value.endedByReset then
      var previous, start := w.previous.value, w.current.value.start;
      if DriftIsSmall(previous.end, start, seconds)
         || (previous.end > start && previous.start < start && previous.end - start <= seconds * SECOND / 4)
      then w.(previous := Some(previous.(start := start - seconds * SECOND, end := start)))
      else if !Precedes(previous.end, start, seconds) then w.(previous := None)
      else w
    else w
  }

  /** The window that an observation is about to update: one that is over moves to the previous place. */
  function Rolled(w: Window, o: Observation): (v: Window)
    requires PeriodsOk(w)
    ensures PeriodsOk(v) && SameHead(v, w.(seconds := o.seconds)) && v.seconds == o.seconds
  {
    var start := o.reset - o.seconds * SECOND;
    if w.seconds != o.seconds then w.(seconds := o.seconds, current := None, previous := None)
    else if w.current.Some? && (w.current.value.end <= start || DriftIsSmall(w.current.value.end, start, o.seconds))
    then w.(current := None, previous := w.current)
    else w
  }

  /** A window of another length loses its periods. A current period that is over when the new one begins,
      or about then, becomes the previous one. */
  ghost predicate RolledOver(w: Window, r: Window, o: Observation) {
    var start, quarter := o.reset - o.seconds * SECOND, o.seconds * SECOND / 4;
    if w.seconds != o.seconds then r.current == None && r.previous == None
    else if w.current.Some? && w.current.value.end - start <= (if quarter < MINUTE then quarter else MINUTE)
    then r.current == None && r.previous == w.current
    else r.current == w.current && r.previous == w.previous
  }

  lemma RollsOver(w: Window, o: Observation)
    requires PeriodsOk(w) && ValidObservation(o) && !o.revoked
    ensures RolledOver(w, Rolled(w, o), o)
  {
    hide PeriodOk;
  }

  /** What the newest observation does to the current period of a window that has been rolled over: it begins
      one, or the one there gains it and takes its deadline; where only the previous period has its
      deadline, that gains it. */
  ghost predicate InOrderChange(r: Window, v: Window, o: Observation) {
    if r.current == None && Near(r.previous, o) then v.current == None && Gains(r.previous, v.previous, o)
    else
      && v.current.Some? && v.current.value.end == o.reset
      && (if r.current == None then v.current.value.samples == [o] && v.current.value.start == o.reset - o.seconds * SECOND
          else
            && GainsSample(r.current.value.samples, v.current.value.samples, o)
            && v.current.value.start == if r.current.value.end == o.reset then r.current.value.start else o.reset - o.seconds * SECOND)
      && PreviousAt(r.previous, v.previous, v.current.value.start, o.seconds)
  }

  /** What becomes of the previous period when the current one starts then: one that a reset ended stays,
      and so does one that was over well before; one that ends about then, or at most a quarter of its
      length later, is shifted to end just then; any other goes. */
  ghost predicate PreviousAt(p: Option<Period>, q: Option<Period>, start: int, seconds: int) {
    if p == None || p.value.endedByReset then q == p
    else
      var late := p.value.end - start;
      var quarter := seconds * SECOND / 4;
      var drift := if quarter < MINUTE then quarter else MINUTE;
      if late < -drift then q == p
      else if late <= drift || (p.value.start < start && late <= quarter) then
        q == Some(p.value.(start := start - seconds * SECOND, end := start))
      else q == None
  }

  lemma AlignedPrevious(w: Window, seconds: int)
    requires PeriodsOk(w) && w.seconds == seconds > 0 && w.current.Some?
    ensures PreviousAt(w.previous, Aligned(w, seconds).previous, w.current.value.start, seconds)
  {
    hide PeriodOk;
  }

  /** The newest observation so far. It is refused only if its period has it, or if it was made when the
      current period, which has another deadline, was over or empty. */
  method ApplyInOrder(w: Window, o: Observation, started: int) returns (v: Window, accepted: bool)
    requires WindowOk(w) && ValidObservation(o) && !o.revoked && o.key == w.key
    ensures accepted ==> WindowOk(v) && v.key == w.key && v.seconds == o.seconds
    ensures accepted ==> v.updatedAt == o.observedAt && !v.hidden && (Recorded(v.current, o) || Recorded(v.previous, o))
    ensures var r := Rolled(w, o);
            accepted <==>
              if r.current == None
              then r.previous == None || !DriftIsSmall(r.previous.value.end, o.reset, o.seconds) || !Known(r.previous, o)
              else if r.current.value.end == o.reset then !Known(r.current, o)
              else o.observedAt < r.current.value.end && r.current.value.samples != []
    ensures accepted ==> InOrderChange(Rolled(w, o), v, o) && v.name == o.name && v.model == o.model && v.unmapped == o.unmapped
  {
    hide PeriodOk, GainsSample, Has, DriftIsSmall, PreviousAt;
    v := Rolled(w, o);
    accepted := true;
    var start := o.reset - o.seconds * SECOND;
    var first := Period(false, false, start, o.reset, started, [o]);
    if v.current == None {
      if v.previous.Some? && DriftIsSmall(v.previous.value.end, o.reset, o.seconds) {
        var p;
        p, accepted := Append(v.previous.value, o, started, v.key, v.seconds);
        v := v.(previous := Some(p));
      } else {
        FirstOk(o.reset, o, started, v.key);
        HasItself(o);
        v := v.(current := Some(first));
      }
    } else if v.current.value.end == o.reset {
      var c;
      c, accepted := Append(v.current.value, o, started, v.key, v.seconds);
      v := v.(current := Some(c));
    } else if o.observedAt < v.current.value.end && start < v.current.value.end && v.current.value.samples != [] {
      // A deadline that drifted, or that a reset card moved.
      MovedOk(v.current.value, start, o.reset, v.key, v.seconds);
      var c, _ := Append(v.current.value.(start := start, end := o.reset), o, started, v.key, v.seconds);
      v := v.(current := Some(c));
    } else {
      accepted := false;
    }
    if accepted {
      if v.current.Some? {
        AlignedPrevious(v, o.seconds);
      }
      v := Aligned(v, o.seconds);
      v := v.(name := o.name, model := o.model, unmapped := o.unmapped, updatedAt := o.observedAt, hidden := false);
    }
  }

  lemma MovedOk(p: Period, start: int, end: int, key: Key, seconds: int)
    requires PeriodOk(p, key, seconds) && start < end && end - start == seconds * SECOND
    ensures PeriodOk(p.(start := start, end := end), key, seconds)
  {
  }
}
