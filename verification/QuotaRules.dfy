/** The rules of quota cycles one by one: what is valid, when deadlines are the same, what expires, and what
    is archived. */
module QuotaRules {
  import opened Wrappers
  import opened QuotaPeriods
  import opened QuotaWindows
  import opened QuotaCycles
  import opened QuotaBackup

  const DAY := 86_400

  // ----- what is valid -----

  /** Usage names a window of at most 366 days, a share of the quota, and a deadline that it does not miss by
      more than the length of the window. */
  lemma ObservationValidIff(o: Observation)
    ensures ValidObservation(o) <==>
      o.observedAt != 0
      && (!o.revoked ==> 1 <= o.seconds <= 366 * DAY && o.reset != 0 && !(o.used < 0.0) && !(o.used > 1.0)
                         && 0 <= o.reset - o.observedAt <= o.seconds * 1_000_000_000)
  {
  }

  /** The start of the collection does not tell observations apart. */
  lemma SameObservationIff(a: Observation, b: Observation)
    ensures SameObservation(a, b) <==>
      && a.key == b.key && a.name == b.name && a.model == b.model && a.unmapped == b.unmapped && a.seconds == b.seconds
      && a.reset == b.reset && a.observedAt == b.observedAt && a.used == b.used && a.revoked == b.revoked
  {
  }

  lemma FactValidIff(f: Fact, id: string, at: int)
    ensures ValidFact(f) <==> 1 <= |f.id| < 257 && !(f.timestamp == 0)
    ensures ValidTombstone(id, at) <==> 1 <= |id| < 257 && !(at == 0)
  {
  }

  /** A window without a length is only the memory of a revocation. */
  lemma HeadValidIff(w: Window)
    ensures HeadOk(w) <==> 1 <= w.seconds <= 366 * DAY || IsMarker(w)
  {
  }

  ghost predicate IsMarker(w: Window) {
    w.hidden && w.updatedAt != 0 && w.seconds == 0 && !w.current.Some? && !w.previous.Some?
  }

  lemma MarkerIs(o: Observation)
    requires o.observedAt != 0
    ensures IsMarker(Marker(o)) && Marker(o).key == o.key && Marker(o).updatedAt == o.observedAt
    ensures Marker(o).name == Marker(o).model == "" && !Marker(o).unmapped
  {
  }

  lemma FilledIs(o: Observation, startedAt: int)
    ensures SameObservation(Filled(o, startedAt), o)
    ensures o.collectionStartedAt != 0 ==> Filled(o, startedAt) == o
    ensures o.collectionStartedAt == 0 ==> Filled(o, startedAt).collectionStartedAt == startedAt
  {
  }

  /** A span is not empty, and as long as the window, or shorter if a reset ended it. */
  lemma SpanValidIff(p: Period, seconds: int)
    ensures ValidSpan(p, seconds) <==>
      p.start < p.end <= p.start + seconds * 1_000_000_000 && (p.end < p.start + seconds * 1_000_000_000 ==> p.endedByReset)
  {
  }

  // ----- deadlines -----

  /** A quarter of the window, at most a minute. */
  ghost function Drift(seconds: int): int {
    if seconds < 240 then seconds * 250_000_000 else 60_000_000_000
  }

  lemma DriftIs(a: int, b: int, seconds: int)
    requires seconds >= 0
    ensures DriftIsSmall(a, b, seconds) <==> a - b <= Drift(seconds) && b - a <= Drift(seconds)
    ensures Precedes(a, b, seconds) <==> a - b <= Drift(seconds)
  {
  }

  /** When a late observation belongs to the archive, to a period, or to a predecessor. */
  lemma BelongsIff(w: Window, o: Observation)
    requires o.seconds >= 0
    ensures InArchive(w.previous, o) <==> exists p: Period, last: Observation ::
      && Some(p) == w.previous && p.endedByReset && EndsWith(p.samples, last)
      && !(o.observedAt < p.start) && o.observedAt < p.end
      && last.reset - o.reset <= Drift(o.seconds) && o.reset - last.reset <= Drift(o.seconds)
    ensures Near(w.current, o) <==> exists p: Period ::
      Some(p) == w.current && p.end - o.reset <= Drift(o.seconds) && o.reset - p.end <= Drift(o.seconds)
    ensures IsPredecessor(w, o) <==> exists p: Period ::
      Some(p) == w.current && o.reset - p.start <= Drift(o.seconds) && (w.previous.Some? ==> w.previous.value.end < o.reset)
  {
    if w.current.Some? {
      DriftIs(w.current.value.end, o.reset, o.seconds);
      DriftIs(o.reset, w.current.value.start, o.seconds);
    }
    if w.previous.Some? && w.previous.value.samples != [] {
      var last := w.previous.value.samples[|w.previous.value.samples| - 1];
      DriftIs(last.reset, o.reset, o.seconds);
      assert EndsWith(w.previous.value.samples, last);
    }
    hide DriftIsSmall, Drift;
  }

  ghost predicate EndsWith(s: seq<Observation>, last: Observation) {
    s != [] && s[|s| - 1] == last
  }

  // ----- expiry -----

  /** One of the periods of a window. */
  ghost predicate IsPeriod(w: Window, p: Period) {
    w.current == Some(p) || w.previous == Some(p)
  }

  /** A window covers the times from the start of a period to before its end. */
  lemma CoversIff(w: Window, at: int)
    ensures Covers(w, at) <==> exists p: Period :: IsPeriod(w, p) && p.start <= at && at < p.end
  {
    assert w.current.Some? ==> IsPeriod(w, w.current.value);
    assert w.previous.Some? ==> IsPeriod(w, w.previous.value);
  }

  /** It starts with the earlier one of its periods. */
  lemma StartIsEarliest(w: Window)
    ensures HasStart(w) <==> exists p: Period :: IsPeriod(w, p)
    ensures HasStart(w) ==>
      (exists p: Period :: IsPeriod(w, p) && p.start == Start(w)) && forall p: Period | IsPeriod(w, p) :: Start(w) <= p.start
  {
    assert w.current.Some? ==> IsPeriod(w, w.current.value);
    assert w.previous.Some? ==> IsPeriod(w, w.previous.value);
  }

  /** The end of the latest period, and as long again. */
  ghost predicate LongOver(w: Window, now: int) {
    var p := if w.current.Some? then w.current else w.previous;
    p.Some? && p.value.end + w.seconds * 1_000_000_000 < now
  }

  /** A visible window stays. A hidden one whose usage is long over, or that has none, goes after two times
      366 days; until then its revocation is remembered without periods. */
  lemma PrunedIs(w: Window, now: int)
    ensures !w.hidden ==> Pruned(w, now) == Some(w)
    ensures w.hidden && HasStart(w) && !LongOver(w, now) ==> Pruned(w, now) == Some(w)
    ensures w.hidden && (HasStart(w) ==> LongOver(w, now)) && now - w.updatedAt > 732 * DAY * 1_000_000_000 ==> Pruned(w, now) == None
    ensures w.hidden && (HasStart(w) ==> LongOver(w, now)) && now - w.updatedAt <= 732 * DAY * 1_000_000_000 ==>
      var v := Pruned(w, now);
      && v.Some? && v.value.key == w.key && v.value.hidden && v.value.updatedAt == w.updatedAt
      && v.value.current == v.value.previous == None && v.value.seconds == (if HasStart(w) then 0 else w.seconds)
      && v.value.name == w.name && v.value.model == w.model && v.value.unmapped == w.unmapped
  {
  }

  // ----- archives -----

  lemma SameArchiveIff(a: Period, b: Period)
    ensures SameArchive(a, b) <==>
      && a.endedByReset && (a.start, a.end, a.resetTimeEstimated, |a.samples|) == (b.start, b.end, b.resetTimeEstimated, |b.samples|)
      && forall i | 0 <= i < |b.samples| && i < |a.samples| :: SameObservation(a.samples[i], b.samples[i])
  {
  }

  /** A segment that a reset ended: what is effective of the samples before the reset, if their last deadline
      had been that of the period; it ends where the effective part begins, and says so as certainly. */
  lemma SegmentIs(w: Window, p: Period, before: nat, effective: Period)
    requires 0 < before <= |p.samples|
    ensures var q, end := EndedSegment(w, p, before, effective), p.samples[before - 1].reset;
      exists inner: Period ::
        && inner.samples == p.samples[..before] && inner.end == end && inner.end - inner.start == w.seconds * 1_000_000_000
        && !inner.endedByReset && !inner.resetTimeEstimated && inner.collectionStartedAt == p.collectionStartedAt
        && q.samples == EffectivePeriod(inner).samples && q.start == EffectivePeriod(inner).start
        && q.end == effective.start && q.resetTimeEstimated == effective.resetTimeEstimated && q.endedByReset
        && q.collectionStartedAt == p.collectionStartedAt
  {
    hide EffectiveView;
    var end := p.samples[before - 1].reset;
    var inner := Period(false, false, end - w.seconds * SECOND, end, p.collectionStartedAt, p.samples[..before]);
    assert inner.samples == p.samples[..before];
  }

  /** It is due if the current period had an early reset with samples before it, the segment is not empty, and
      no natural predecessor is later. */
  lemma ArchiveDueIff(w: Window)
    ensures ArchiveDue(w) <==>
      && w.current.Some? && EffectiveView(w.current.value).reset && EffectiveView(w.current.value).skipped >= 1
      && var p := w.current.value;
         var segment := EndedSegment(w, p, EffectiveView(p).skipped, EffectivePeriod(p));
         segment.start < segment.end
         && (w.previous == None || w.previous.value.endedByReset || w.previous.value.end <= segment.end)
    ensures ArchiveDue(w) ==>
      ResetSegment(w) == EndedSegment(w, w.current.value, EffectiveView(w.current.value).skipped, EffectivePeriod(w.current.value))
  {
    hide EffectiveView, EndedSegment;
  }

  // ----- the time of the latest usage -----

  ghost predicate SeenAt(p: Option<Period>, at: int) {
    p.Some? && p.value.samples != [] && p.value.samples[|p.value.samples| - 1].observedAt == at
  }

  /** The later one of the last samples, or 0 without a sample of a time after it. */
  lemma ObservedAtIsLatest(w: Window)
    ensures var at := WindowObservedAt(w);
      && at >= 0 && (at > 0 ==> SeenAt(w.current, at) || SeenAt(w.previous, at))
      && forall t | SeenAt(w.current, t) || SeenAt(w.previous, t) :: t <= at
  {
  }

  // ----- backups -----

  /** A backup may repeat what is known, but not contradict it. */
  lemma SnapshotValidIff(s: Snapshot, facts: map<string, Fact>)
    ensures ValidSnapshot(s, facts) <==>
      && s.version == 1
      && (forall id | id in s.facts :: FactAgrees(s.facts[id], id, facts))
      && (forall id | id in s.deleted :: 1 <= |id| <= 256 && s.deleted[id] != 0)
      && (forall key | key in s.windows :: ValidWindow(s.windows[key], key))
  {
    hide ValidWindow;
    assert forall id | id in s.deleted :: ValidTombstone(id, s.deleted[id]) <==> 1 <= |id| <= 256 && s.deleted[id] != 0;
    assert forall id | id in s.facts ::
      FactAgrees(s.facts[id], id, facts)
      <==> s.facts[id].id == id && ValidFact(s.facts[id]) && (id in facts ==> facts[id] == s.facts[id]);
  }

  ghost predicate FactAgrees(f: Fact, id: string, facts: map<string, Fact>) {
    f.id == id && 1 <= |id| <= 256 && f.timestamp != 0 && (id !in facts || facts[id] == f)
  }

  /** Two periods that were live at one time, by their spans and their first samples. */
  ghost predicate LiveTogether(p: Option<Period>, q: Period) {
    && p.Some? && |p.value.samples| > 0 && |q.samples| > 0
    && !(q.end <= p.value.start) && !(p.value.end <= q.start)
    && !(q.end <= p.value.samples[0].observedAt) && !(p.value.end <= q.samples[0].observedAt)
  }

  ghost predicate SameDeadline(p: Option<Period>, q: Period, seconds: int) {
    p.Some? && p.value.end - q.end <= Drift(seconds) && q.end - p.value.end <= Drift(seconds)
  }

  /** The samples of another history's period join the period with its deadline, the previous one first; without
      one, the only one that was live with it. */
  lemma TargetIs(w: Window, q: Period)
    requires w.seconds >= 0
    ensures var target := TargetOf(w, q);
      && (SameDeadline(w.previous, q, w.seconds) ==> target == Previous)
      && (!SameDeadline(w.previous, q, w.seconds) && SameDeadline(w.current, q, w.seconds) ==> target == Current)
      && (!SameDeadline(w.previous, q, w.seconds) && !SameDeadline(w.current, q, w.seconds) ==>
            && (target == Previous <==> LiveTogether(w.previous, q) && !LiveTogether(w.current, q))
            && (target == Current <==> LiveTogether(w.current, q) && !LiveTogether(w.previous, q)))
  {
    if w.previous.Some? {
      DriftIs(w.previous.value.end, q.end, w.seconds);
    }
    if w.current.Some? {
      DriftIs(w.current.value.end, q.end, w.seconds);
    }
    hide DriftIsSmall, Drift;
  }

  /** It precedes the current period, and the known predecessor by more than drift. */
  ghost predicate IsLaterPredecessor(w: Window, q: Period) {
    && w.current.Some? && q.end - w.current.value.start <= Drift(w.seconds)
    && (w.previous.Some? ==> q.end - w.previous.value.end > Drift(w.seconds))
  }

  /** A later predecessor takes the previous place, without its samples. It ends at the current start if it ends
      about then, and keeps its start only if a reset ended it. */
  lemma PredecessorIs(w: Window, q: Period)
    requires PeriodsOk(w) && PeriodOk(q, w.key, w.seconds) && w.seconds >= 0
    ensures !IsLaterPredecessor(w, q) ==> WithPredecessor(w, q) == w
    ensures IsLaterPredecessor(w, q) ==>
      var about := w.current.value.start - q.end <= Drift(w.seconds);
      var end := if about then w.current.value.start else q.end;
      var start := if q.endedByReset then q.start else end - w.seconds * 1_000_000_000;
      var v := WithPredecessor(w, q);
      if start < end then
        && v.previous.Some? && v.previous.value.start == start && v.previous.value.end == end && v.previous.value.samples == []
        && v.previous.value.endedByReset == q.endedByReset && v.previous.value.collectionStartedAt == q.collectionStartedAt
      else v == w
  {
    hide PeriodOk;
    if w.current.Some? {
      DriftIs(q.end, w.current.value.start, w.seconds);
    }
    if w.previous.Some? {
      DriftIs(q.end, w.previous.value.end, w.seconds);
    }
    hide DriftIsSmall, Precedes;
  }

  /** The known window has the newest word unless the other has a later one, or at the same time a revocation
      against usage. */
  lemma KnownIsNewestIff(known: Window, incoming: Window)
    ensures KnownIsNewest(known, incoming) <==>
      incoming.updatedAt <= known.updatedAt
      && !(incoming.updatedAt == known.updatedAt && incoming.hidden && !known.hidden)
  {
  }

  /** A revocation does not lead with its own history if the other has usage and it has none, or only earlier. */
  lemma LeadingIs(newest: Window, other: Window)
    ensures Leading(newest, other) == newest || Leading(newest, other) == other
    ensures newest.hidden && other.seconds > 0 && newest.seconds == 0 ==> Leading(newest, other) == other
    ensures newest.hidden && other.seconds > 0 && WindowObservedAt(other) > WindowObservedAt(newest) ==> Leading(newest, other) == other
    ensures !newest.hidden || other.seconds <= 0 || (newest.seconds != 0 && WindowObservedAt(other) <= WindowObservedAt(newest)) ==>
      Leading(newest, other) == newest
  {
  }

  // ----- early resets -----

  /** Usage falls before the deadline by more than two points, or to nothing, and the next sample is nearer to the
      low than to the peak. */
  lemma ConfirmedIff(s: seq<Observation>, end: int, peak: nat, low: nat)
    requires peak < |s| && low < |s|
    ensures Confirmed(s, end, peak, low) <==>
      && low < |s| - 1 && !(end <= s[low].observedAt)
      && (s[peak].used - s[low].used > 0.02 || (s[low].used == 0.0 && 0.0 < s[peak].used))
      && s[low + 1].used - s[low].used < s[peak].used - s[low + 1].used
  {
  }

  /** A deadline is an earlier one if it lies a 24th of the period before the end, and a minute at least. */
  lemma ThresholdIs(p: Period)
    ensures var t := ResetThreshold(p);
      t >= 60_000_000_000 && (t == 60_000_000_000 || 24 * t <= p.end - p.start) && p.end - p.start < 24 * t + 24
  {
  }

  /** A period knows from when on requests were collected: a later start counts from its own samples on. */
  lemma CollectedIs(p: Period, o: Observation, started: int)
    ensures p.collectionStartedAt == 0 ==> Collected(p, o, started) == started
    ensures p.collectionStartedAt != 0 && p.collectionStartedAt < started <= o.observedAt ==> Collected(p, o, started) == started
    ensures p.collectionStartedAt != 0 && (started <= p.collectionStartedAt || o.observedAt < started) ==>
      Collected(p, o, started) == p.collectionStartedAt
  {
  }

  /** The view after a decrease starts, as an estimate, at the sample of the latest fall; without a fall it is as
      before. */
  lemma DecreaseIs(p: Period, v: View)
    requires Fits(v, p)
    ensures var s, r := p.samples[v.skipped..], SinceDecrease(p, v);
            var drop := ScanResets(s, p.end, |s|).drop;
      if drop == -1 then r == v
      else 0 <= drop && r.skipped == v.skipped + drop && r.start == p.samples[r.skipped].observedAt && r.estimated && r.reset
  {
    hide ScanResets;
  }

  /** A deadline that moved after usage ends a segment: the view starts behind it, at the start of the period if
      that lies between the two samples, else, as an estimate, at the second one. Without usage the view is that
      of the samples before. */
  lemma MovedIs(p: Period, before: nat, prior: View)
    requires 0 < before < |p.samples| && prior.skipped <= before
    ensures var r, last, next := SinceDeadlineMoved(p, before, prior), p.samples[before - 1].observedAt, p.samples[before].observedAt;
      if exists o :: o in p.samples[prior.skipped..before] && o.used > 0.0 then
        && r.skipped == before && r.reset
        && (last <= p.start <= next ==> r.start == p.start && r.estimated == p.resetTimeEstimated)
        && (!(last <= p.start <= next) ==> r.start == next && r.estimated)
      else if prior.reset then r == prior
      else r.skipped == 0 && r.start == p.start && r.estimated == p.resetTimeEstimated && !r.reset
  {
    var s := p.samples[prior.skipped..before];
    if Consumed(s) {
      var i :| 0 <= i < |s| && s[i].used > 0.0;
      assert s[i] in s;
    }
    hide Consumed;
    if o :| o in s && o.used > 0.0 {
      UsedIsConsumed(s, o);
    }
  }

  lemma UsedIsConsumed(s: seq<Observation>, o: Observation)
    requires o in s && o.used > 0.0
    ensures Consumed(s)
  {
  }

  /** The samples before a moved deadline, as a period of the same length that ends at their own deadline. */
  lemma PriorIs(p: Period, before: nat)
    requires 0 < before <= |p.samples|
    ensures var q := PriorPeriod(p, before);
      && q.samples == p.samples[..before] && q.end == p.samples[before - 1].reset && q.end - q.start == p.end - p.start
      && !q.endedByReset && !q.resetTimeEstimated && q.collectionStartedAt == 0
  {
  }

  /** The view of a period: first by deadlines, if an earlier one comes before the last sample, then by falls. */
  lemma ViewIs(p: Period)
    ensures var whole, before := View(0, p.start, p.resetTimeEstimated, false), PreReset(p, |p.samples|);
      EffectiveView(p) == SinceDecrease(p,
        if 1 <= before < |p.samples| then SinceDeadlineMoved(p, before, EffectiveView(PriorPeriod(p, before))) else whole)
    ensures var v, e := EffectiveView(p), EffectivePeriod(p);
      && e.samples == p.samples[v.skipped..] && e.start == v.start && e.resetTimeEstimated == v.estimated
      && e.end == p.end && e.endedByReset == p.endedByReset && e.collectionStartedAt == p.collectionStartedAt
  {
    hide SinceDecrease, SinceDeadlineMoved, PreReset, PriorPeriod;
  }
}
