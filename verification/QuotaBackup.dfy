/** Backups of the quota state: what is accepted, what is repaired first, and how it is merged. */
module QuotaBackup {
  import opened Wrappers
  import opened QuotaPeriods
  import opened QuotaWindows
  import opened QuotaCycles

  datatype Snapshot = Snapshot(version: int, startedAt: int, facts: map<string, Fact>, deleted: map<string, int>,
                               windows: map<Key, Window>)

  // ----- validation -----

  predicate ValidSpan(p: Period, seconds: int) {
    var duration := p.end - p.start;
    0 < duration <= seconds * SECOND && (p.endedByReset || duration == seconds * SECOND)
  }

  predicate InOrder(s: seq<Observation>) {
    forall i | 0 < i < |s| :: s[i - 1].observedAt <= s[i].observedAt
  }

  lemma {:induction false} InOrderIsSorted(s: seq<Observation>)
    ensures InOrder(s) <==> Sorted(s)
  {
    if InOrder(s) && |s| > 1 {
      var front := s[..|s| - 1];
      assert InOrder(front);
      InOrderIsSorted(front);
      forall i, j | 0 <= i < j < |s| ensures s[i].observedAt <= s[j].observedAt {
        assert s[|s| - 2].observedAt <= s[|s| - 1].observedAt && front[|front| - 1] == s[|s| - 2];
        assert i < |front| - 1 ==> front[i].observedAt <= front[|front| - 1].observedAt;
      }
    }
  }

  predicate ValidPeriod(p: Option<Period>, key: Key, seconds: int) {
    p.Some? ==>
      && |p.value.samples| <= SAMPLES_MAX && ValidSpan(p.value, seconds) && InOrder(p.value.samples)
      && forall i | 0 <= i < |p.value.samples| ::
           var o := p.value.samples[i]; ValidObservation(o) && !o.revoked && o.key == key && o.seconds == seconds
  }

  predicate ValidWindow(w: Window, key: Key) {
    w.key == key && HeadOk(w) && ValidPeriod(w.current, key, w.seconds) && ValidPeriod(w.previous, key, w.seconds)
  }

  predicate ValidSnapshot(s: Snapshot, facts: map<string, Fact>) {
    && s.version == 1
    && (forall id | id in s.facts :: s.facts[id].id == id && ValidFact(s.facts[id]) && (id in facts ==> facts[id] == s.facts[id]))
    && (forall id | id in s.deleted :: ValidTombstone(id, s.deleted[id]))
    && (forall key | key in s.windows :: ValidWindow(s.windows[key], key))
  }

  /** A valid window is sound, but nothing is said about its two periods together. */
  lemma ValidIsSound(w: Window, key: Key)
    requires ValidWindow(w, key)
    ensures PeriodsOk(w) && HeadOk(w) && w.key == key
  {
    hide SampleOk, Sorted, InOrder;
    forall p | p == w.current || p == w.previous ensures OptionOk(p, w.key, w.seconds) {
      if p.Some? {
        InOrderIsSorted(p.value.samples);
        forall o | o in p.value.samples ensures SampleOk(o, w.key, w.seconds) {
          var i :| 0 <= i < |p.value.samples| && p.value.samples[i] == o;
          SampleIsOk(p, w.key, w.seconds, i);
        }
      }
    }
  }

  lemma SampleIsOk(p: Option<Period>, key: Key, seconds: int, i: nat)
    requires p.Some? && ValidPeriod(p, key, seconds) && i < |p.value.samples|
    ensures SampleOk(p.value.samples[i], key, seconds)
  {
  }

  // ----- repair -----

  predicate Broken(p: Option<Period>, seconds: int) {
    p.Some? && (|p.value.samples| > SAMPLES_MAX || !ValidSpan(p.value, seconds) || !InOrder(p.value.samples))
  }

  /** A period with an impossible span is dropped; the samples of another are ordered and compacted. */
  method RepairPeriod(p: Option<Period>, seconds: int) returns (q: Option<Period>)
    ensures q.Some? <==> p.Some? && ValidSpan(p.value, seconds)
    ensures q.Some? ==>
      && Fine(q.value) && q.value == p.value.(samples := q.value.samples)
      && forall o | o in q.value.samples :: o in p.value.samples
    ensures q.Some? && Fine(p.value) ==> q == p
  {
    hide StableSorted;
    q := None;
    if p.Some? && ValidSpan(p.value, seconds) {
      StableSortedFits(p.value.samples);
      SortedLength(p.value.samples);
      if Sorted(p.value.samples) {
        SortedStays(p.value.samples);
      }
      var repaired, anchors, keep := Compact(p.value.(samples := StableSorted(p.value.samples)));
      q := Some(repaired);
    }
  }

  /** Repair drops a period of this window. */
  predicate SpanDropped(w: Window) {
    (w.current.Some? && !ValidSpan(w.current.value, w.seconds)) || (w.previous.Some? && !ValidSpan(w.previous.value, w.seconds))
  }

  method RepairWindow(w: Window) returns (v: Window)
    ensures SameHead(v, w)
    ensures v.current.Some? ==> w.current.Some?
    ensures v.previous.Some? ==> w.previous.Some?
    ensures PeriodsOk(w) && HeadOk(w) ==> ValidWindow(v, w.key)
    ensures ValidWindow(w, w.key) && !(w.previous.Some? && EmptyArchive(w.previous.value)) ==> v == w
    ensures Apart(v) <==> Apart(w) || SpanDropped(w)
  {
    v := w;
    if !Broken(w.current, w.seconds) && !Broken(w.previous, w.seconds) && !(w.previous.Some? && EmptyArchive(w.previous.value)) {
      UnbrokenIsValid(w);
      return;
    }
    hide ValidPeriod, PeriodOk, ValidSpan, Fine, Broken;
    var current := RepairPeriod(w.current, w.seconds);
    var previous := RepairPeriod(w.previous, w.seconds);
    v := w.(current := current, previous := previous);
    RepairedIsValid(w.current, current, w.key, w.seconds);
    RepairedIsValid(w.previous, previous, w.key, w.seconds);
    v := WithoutEmptyArchive(v);
  }

  lemma RepairedIsValid(p: Option<Period>, q: Option<Period>, key: Key, seconds: int)
    requires q.Some? ==> p.Some? && ValidSpan(p.value, seconds) && Fine(q.value) && q.value == p.value.(samples := q.value.samples)
    requires q.Some? ==> forall o | o in q.value.samples :: o in p.value.samples
    ensures OptionOk(p, key, seconds) ==> ValidPeriod(q, key, seconds)
  {
    if q.Some? {
      InOrderIsSorted(q.value.samples);
      forall i | 0 <= i < |q.value.samples| && OptionOk(p, key, seconds)
        ensures SampleOk(q.value.samples[i], key, seconds)
      {
        assert q.value.samples[i] in p.value.samples;
      }
    }
  }

  lemma UnbrokenIsValid(w: Window)
    requires !Broken(w.current, w.seconds) && !Broken(w.previous, w.seconds)
    ensures PeriodsOk(w) && HeadOk(w) ==> ValidWindow(w, w.key)
  {
    if PeriodsOk(w) {
      RepairedIsValid(w.current, w.current, w.key, w.seconds) by { UnbrokenFine(w.current, w.seconds); }
      RepairedIsValid(w.previous, w.previous, w.key, w.seconds) by { UnbrokenFine(w.previous, w.seconds); }
    }
  }

  lemma UnbrokenFine(p: Option<Period>, seconds: int)
    requires !Broken(p, seconds)
    ensures p.Some? ==> ValidSpan(p.value, seconds) && Fine(p.value)
  {
    if p.Some? {
      InOrderIsSorted(p.value.samples);
    }
  }

  // ----- merging two histories of a window -----

  predicate SharesObservedWindow(a: Period, b: Period) {
    && a.samples != [] && b.samples != [] && a.start < b.end && b.start < a.end
    && a.samples[0].observedAt < b.end && b.samples[0].observedAt < a.end
  }

  datatype Target = NoTarget | Previous | Current

  function Close(p: Option<Period>, q: Period, seconds: int): bool {
    p.Some? && DriftIsSmall(p.value.end, q.end, seconds)
  }

  function Shares(p: Option<Period>, q: Period): bool {
    p.Some? && SharesObservedWindow(p.value, q)
  }

  /** Which period another history's period describes: the one with its deadline; else the only one that
      was live together with it. */
  function TargetOf(w: Window, q: Period): (target: Target)
    ensures target.Previous? ==> w.previous.Some?
    ensures target.Current? ==> w.current.Some?
  {
    if Close(w.previous, q, w.seconds) then Previous
    else if Close(w.current, q, w.seconds) then Current
    else if Shares(w.previous, q) && Shares(w.current, q) then NoTarget
    else if Shares(w.previous, q) then Previous
    else if Shares(w.current, q) then Current
    else NoTarget
  }

  /** The latest completed predecessor of the current period takes the previous place. */
  function WithPredecessor(w: Window, q: Period): (v: Window)
    requires PeriodsOk(w) && PeriodOk(q, w.key, w.seconds)
    ensures PeriodsOk(v) && SameHead(v, w) && v.current == w.current && (Apart(w) <==> Apart(v))
    ensures v.previous == w.previous || (v.previous.Some? && v.previous.value.samples == [])
  {
    if w.current.Some? && Precedes(q.end, w.current.value.start, w.seconds)
       && (w.previous == None || (q.end > w.previous.value.end && !DriftIsSmall(q.end, w.previous.value.end, w.seconds)))
    then
      var end := if DriftIsSmall(q.end, w.current.value.start, w.seconds) then w.current.value.start else q.end;
      var start := if q.endedByReset then q.start else end - w.seconds * SECOND;
      if start < end then w.(previous := Some(q.(start := start, end := end, samples := []))) else w
    else w
  }

  method AppendAll(p: Period, q: Period, ghost key: Key, ghost seconds: int) returns (r: Period)
    requires PeriodOk(p, key, seconds) && PeriodOk(q, key, seconds)
    ensures PeriodOk(r, key, seconds) && SameSpan(p, r)
    ensures forall x | x in r.samples :: x in p.samples || x in q.samples
    ensures |p.samples| + |q.samples| <= SAMPLES_MAX ==>
      (forall x | x in p.samples :: x in r.samples) && forall x | x in q.samples :: Has(r.samples, x)
  {
    hide PeriodOk;
    r := p;
    var i := 0;
    while i < |q.samples|
      invariant 0 <= i <= |q.samples| && PeriodOk(r, key, seconds) && SameSpan(p, r)
      invariant forall x | x in r.samples :: x in p.samples || x in q.samples
      invariant |p.samples| + |q.samples| <= SAMPLES_MAX ==>
        && |r.samples| <= |p.samples| + i && (forall x | x in p.samples :: x in r.samples)
        && forall k | 0 <= k < i :: Has(r.samples, q.samples[k])
    {
      SampleOf(q, q.samples[i], key, seconds);
      var added;
      ghost var before := r;
      r, added := Append(r, q.samples[i], q.collectionStartedAt, key, seconds);
      forall k | 0 <= k <= i && |p.samples| + |q.samples| <= SAMPLES_MAX ensures Has(r.samples, q.samples[k]) {
        assert k < i ==> Has(before.samples, q.samples[k]);
      }
      i := i + 1;
    }
  }

  ghost predicate In(p: Option<Period>, o: Observation) {
    p.Some? && o in p.value.samples
  }

  ghost predicate InWindow(w: Window, o: Observation) {
    In(w.current, o) || In(w.previous, o)
  }

  /** Only samples may have joined the current period. */
  ghost predicate SameCurrent(w: Window, v: Window) {
    (w.current.Some? <==> v.current.Some?) && (w.current.Some? ==> SameSpan(w.current.value, v.current.value))
  }

  method MergePeriod(w: Window, p: Option<Period>) returns (v: Window)
    requires PeriodsOk(w) && OptionOk(p, w.key, w.seconds)
    ensures PeriodsOk(v) && SameHead(v, w) && (Apart(w) <==> Apart(v)) && (p == None ==> v == w)
    ensures SameCurrent(w, v) && forall o :: InWindow(v, o) ==> InWindow(w, o) || In(p, o)
  {
    v := w;
    if p == None {
      return;
    }
    hide PeriodOk;
    v := WithPredecessor(w, p.value);
    match TargetOf(v, p.value) {
      case NoTarget =>
      case Previous =>
        var r := AppendAll(v.previous.value, p.value, w.key, w.seconds);
        v := v.(previous := Some(r));
      case Current =>
        var r := AppendAll(v.current.value, p.value, w.key, w.seconds);
        v := v.(current := Some(r));
    }
  }

  /** The history that leads: that of the newest word, or of newer usage if the word is a revocation. */
  function Leading(newest: Window, other: Window): Window {
    if newest.hidden && other.seconds > 0 && (newest.seconds == 0 || WindowObservedAt(other) > WindowObservedAt(newest))
    then other else newest
  }

  /** The newest word decides date and visibility. The other history joins the leading one: no sample is
      invented, and its periods stay apart just when they were. */
  method MergeHistory(newest: Window, other: Window) returns (v: Window)
    requires PeriodsOk(newest) && PeriodsOk(other) && HeadOk(newest) && HeadOk(other) && newest.key == other.key
    ensures PeriodsOk(v) && HeadOk(v) && v.key == newest.key
    ensures v.hidden == newest.hidden && v.updatedAt == newest.updatedAt
    ensures (Apart(v) <==> Apart(Leading(newest, other))) && SameCurrent(Leading(newest, other), v)
    ensures forall o :: InWindow(v, o) ==> InWindow(newest, o) || InWindow(other, o)
  {
    hide PeriodOk, Apart;
    var incoming := other;
    v := newest;
    if v.hidden && other.seconds > 0 && (v.seconds == 0 || WindowObservedAt(other) > WindowObservedAt(v)) {
      incoming := newest;
      v := other.(updatedAt := newest.updatedAt, hidden := true);
      SameApart(other, v);
    }
    if v.seconds != incoming.seconds {
      return;
    }
    ghost var head := v;
    v := MergePeriod(v, incoming.previous);
    v := MergePeriod(v, incoming.current);
    MergedHead(head, v, incoming);
  }

  lemma SameApart(w: Window, v: Window)
    requires v.current == w.current && v.previous == w.previous
    ensures Apart(w) <==> Apart(v)
  {
  }

  /** A marker takes no periods in. */
  lemma MergedHead(w: Window, v: Window, incoming: Window)
    requires HeadOk(w) && HeadOk(incoming) && SameHead(v, w) && w.seconds == incoming.seconds
    requires v.seconds == 0 ==> v == w
    ensures HeadOk(v)
  {
  }

  // ----- merging a backup -----

  /** Windows that are sound but for the order of their two periods. */
  ghost predicate Sound(w: Window, key: Key) {
    w.key == key && PeriodsOk(w) && HeadOk(w)
  }

  ghost predicate AllApart(windows: map<Key, Window>) {
    forall key | key in windows :: Apart(windows[key])
  }

  /** Which of two windows has the newest word; the one that is known wins ties, but not as usage against
      a revocation. */
  predicate KnownIsNewest(known: Window, incoming: Window) {
    incoming.updatedAt < known.updatedAt || (incoming.updatedAt == known.updatedAt && (!incoming.hidden || known.hidden))
  }

  function LeadOf(existing: Option<Window>, incoming: Window): Window {
    if existing == None then incoming
    else if KnownIsNewest(existing.value, incoming) then Leading(existing.value, incoming)
    else Leading(incoming, existing.value)
  }

  /** `joined` has the current period of the leading history, with samples of both. */
  ghost predicate Joined(existing: Option<Window>, incoming: Window, joined: Window) {
    && SameCurrent(LeadOf(existing, incoming), joined)
    && (if existing == None then joined == incoming
        else forall o :: InWindow(joined, o) ==> InWindow(existing.value, o) || InWindow(incoming, o))
  }

  /** The exact condition: the leading periods are apart, or an early reset of the current one takes the
      previous place. */
  ghost predicate EndsApart(existing: Option<Window>, incoming: Window, joined: Window) {
    Apart(LeadOf(existing, incoming)) || ArchiveDue(joined)
  }

  method MergeWindow(existing: Option<Window>, incoming: Window) returns (v: Window, ghost joined: Window)
    requires Sound(incoming, incoming.key) && (existing.Some? ==> Sound(existing.value, incoming.key))
    ensures Sound(v, incoming.key) && Joined(existing, incoming, joined)
    ensures Apart(v) <==> EndsApart(existing, incoming, joined)
    ensures existing == None && (incoming.current.Some? ==> !EffectiveView(incoming.current.value).reset) ==> v == incoming
    ensures v.updatedAt == (if existing.Some? && existing.value.updatedAt > incoming.updatedAt then existing.value else incoming).updatedAt
  {
    hide Apart, PeriodOk, EffectiveView;
    v := incoming;
    if existing.Some? {
      var known := existing.value;
      if KnownIsNewest(known, v) {
        v := MergeHistory(known, incoming);
      } else {
        v := MergeHistory(incoming, known);
      }
    }
    joined := v;
    var changed;
    v, changed := ArchiveReset(v);
    ArchivedApart(joined, v, changed);
  }

  lemma ArchivedApart(w: Window, v: Window, changed: bool)
    requires if changed then HoldsSegment(w, v.previous) else v == w
    requires ArchiveDue(w) && !changed ==> w.previous.Some? && w.previous.value.endedByReset
    ensures Apart(v) <==> Apart(w) || ArchiveDue(w)
  {
    hide EffectiveView, EndedSegment;
  }

  /** Repair has nothing to do here. */
  predicate Intact(w: Window, key: Key) {
    ValidWindow(w, key) && !(w.previous.Some? && EmptyArchive(w.previous.value))
  }

  method RepairSnapshot(s: Snapshot) returns (r: Snapshot)
    ensures r == s.(windows := r.windows) && r.windows.Keys == s.windows.Keys
    ensures forall key | key in s.windows && Intact(s.windows[key], key) :: r.windows[key] == s.windows[key]
    ensures forall key | key in s.windows && Sound(s.windows[key], key) :: ValidWindow(r.windows[key], key)
    ensures forall key | key in s.windows ::
      Apart(r.windows[key]) <==> Apart(s.windows[key]) || SpanDropped(s.windows[key])
  {
    hide Sound, ValidWindow, Apart, Intact, SpanDropped;
    var windows := s.windows;
    var rest := windows.Keys;
    while rest != {}
      invariant rest <= windows.Keys == s.windows.Keys && forall key | key in rest :: windows[key] == s.windows[key]
      invariant forall key | key in windows && key !in rest && Sound(s.windows[key], key) :: ValidWindow(windows[key], key)
      invariant forall key | key in windows && key !in rest ::
        Apart(windows[key]) <==> Apart(s.windows[key]) || SpanDropped(s.windows[key])
      invariant forall key | key in windows && Intact(s.windows[key], key) :: windows[key] == s.windows[key]
      decreases rest
    {
      var key :| key in rest;
      var w := RepairKept(windows[key], key);
      windows := windows[key := w];
      rest := rest - {key};
    }
    r := s.(windows := windows);
  }

  method RepairKept(w: Window, ghost key: Key) returns (v: Window)
    ensures (Sound(w, key) ==> ValidWindow(v, key)) && (Intact(w, key) ==> v == w)
    ensures Apart(v) <==> Apart(w) || SpanDropped(w)
  {
    v := RepairWindow(w);
  }

  /** The saved state. */
  function Saved(q: QuotaState): Snapshot
    reads q
  {
    Snapshot(1, q.startedAt, q.facts, q.deleted, q.windows)
  }

  /** Whatever a sound state saves is accepted when it is read again: nothing in it can turn storage off. */
  method Reload(q: QuotaState) returns (r: Snapshot)
    requires q.Valid()
    ensures ValidSnapshot(r, map[]) && r.facts == q.facts && r.deleted == q.deleted && AllApart(r.windows)
  {
    hide Apart, ValidWindow, SpanDropped;
    forall key | key in q.windows ensures Sound(q.windows[key], key) && Apart(q.windows[key]) {
      KeptIsSound(q.windows[key], key);
    }
    r := RepairSnapshot(Saved(q));
  }

  lemma KeptIsSound(w: Window, key: Key)
    requires Kept(w, key)
    ensures Sound(w, key) && Apart(w)
  {
  }

  function DeletedAt(deleted: map<string, int>, id: string): int {
    if id in deleted then deleted[id] else 0
  }

  method MergeTombstone(q: QuotaState, id: string, at: int)
    requires q.FactsOk() && ValidTombstone(id, at)
    modifies q`facts, q`deleted
    ensures q.FactsOk() && q.facts == old(q.facts) - {id}
    ensures q.deleted == if at > DeletedAt(old(q.deleted), id) then old(q.deleted)[id := at] else old(q.deleted)
  {
    if at > DeletedAt(q.deleted, id) {
      q.deleted := q.deleted[id := at];
    }
    q.facts := q.facts - {id};
  }

  /** Tombstones of a backup join those here, with the later time, and their facts go. */
  method MergeTombstones(q: QuotaState, tombstones: map<string, int>)
    requires q.FactsOk() && forall id | id in tombstones :: ValidTombstone(id, tombstones[id])
    modifies q`facts, q`deleted
    ensures q.FactsOk() && q.facts == old(q.facts) - tombstones.Keys
    ensures forall id :: id in q.deleted <==> id in old(q.deleted) || (id in tombstones && tombstones[id] > 0)
    ensures forall id | id in q.deleted ::
      q.deleted[id] == if id in tombstones && tombstones[id] > DeletedAt(old(q.deleted), id) then tombstones[id]
                       else old(q.deleted)[id]
  {
    var rest := tombstones.Keys;
    while rest != {}
      invariant rest <= tombstones.Keys && q.FactsOk()
      invariant forall id :: id in q.facts <==> id in old(q.facts) && (id !in tombstones || id in rest)
      invariant forall id | id in q.facts :: q.facts[id] == old(q.facts)[id]
      invariant forall id :: id in q.deleted <==> id in old(q.deleted) || (id in tombstones && id !in rest && tombstones[id] > 0)
      invariant forall id | id in q.deleted ::
        q.deleted[id] == if id in tombstones && id !in rest && tombstones[id] > DeletedAt(old(q.deleted), id) then tombstones[id]
                         else old(q.deleted)[id]
      decreases rest
    {
      var id :| id in rest;
      MergeTombstone(q, id, tombstones[id]);
      rest := rest - {id};
    }
  }

  /** Facts of a backup replace those here, except for deleted records. */
  method MergeFacts(q: QuotaState, facts: map<string, Fact>)
    requires q.FactsOk() && forall id | id in facts :: facts[id].id == id && ValidFact(facts[id])
    modifies q`facts
    ensures q.FactsOk()
    ensures forall id :: id in q.facts <==> id in old(q.facts) || (id in facts && id !in q.deleted)
    ensures forall id | id in q.facts :: q.facts[id] == if id in facts then facts[id] else old(q.facts)[id]
  {
    var rest := facts.Keys;
    while rest != {}
      invariant rest <= facts.Keys && q.FactsOk()
      invariant forall id :: id in q.facts <==> id in old(q.facts) || (id in facts && id !in rest && id !in q.deleted)
      invariant forall id | id in q.facts :: q.facts[id] == if id in facts && id !in rest then facts[id] else old(q.facts)[id]
      decreases rest
    {
      var id :| id in rest;
      if id !in q.deleted {
        q.facts := q.facts[id := facts[id]];
      }
      rest := rest - {id};
    }
  }

  method MergeWindows(q: QuotaState, windows: map<Key, Window>) returns (ghost joined: map<Key, Window>)
    requires (forall key | key in q.windows :: Sound(q.windows[key], key)) && (forall key | key in windows :: Sound(windows[key], key))
    modifies q`windows
    ensures forall key | key in q.windows :: Sound(q.windows[key], key)
    ensures q.windows.Keys == old(q.windows).Keys + windows.Keys
    ensures forall key | key in q.windows && key !in windows :: q.windows[key] == old(q.windows)[key]
    ensures joined.Keys == windows.Keys && forall key | key in windows ::
      MergedAs(Lookup(old(q.windows), key), windows[key], joined[key], q.windows[key])
  {
    hide Sound, MergedAs;
    joined := map[];
    var rest := windows.Keys;
    while rest != {}
      invariant rest <= windows.Keys && q.windows.Keys == old(q.windows).Keys + (windows.Keys - rest)
      invariant forall key | key in q.windows :: Sound(q.windows[key], key)
      invariant forall key | key in q.windows && (key !in windows || key in rest) :: q.windows[key] == old(q.windows)[key]
      invariant joined.Keys == windows.Keys - rest && forall key | key in joined ::
        MergedAs(Lookup(old(q.windows), key), windows[key], joined[key], q.windows[key])
      decreases rest
    {
      var key :| key in rest;
      var w;
      ghost var j;
      w, j := MergeKept(Lookup(q.windows, key), windows[key], key);
      q.windows, joined := q.windows[key := w], joined[key := j];
      rest := rest - {key};
    }
  }

  predicate NoReset(w: Window) {
    w.current.Some? ==> !EffectiveView(w.current.value).reset
  }

  /** What becomes of a window of a backup. */
  ghost predicate MergedAs(existing: Option<Window>, incoming: Window, joined: Window, v: Window) {
    && Joined(existing, incoming, joined)
    && (Apart(v) <==> EndsApart(existing, incoming, joined))
    && (existing == None && NoReset(incoming) ==> v == incoming)
  }

  method MergeKept(existing: Option<Window>, incoming: Window, ghost key: Key) returns (v: Window, ghost joined: Window)
    requires Sound(incoming, key) && (existing.Some? ==> Sound(existing.value, key))
    ensures Sound(v, key) && MergedAs(existing, incoming, joined, v)
  {
    hide EndsApart, Joined;
    v, joined := MergeWindow(existing, incoming);
  }

  /** What repair makes of a window of a backup. */
  ghost predicate RepairedAs(w: Window, r: Window, key: Key) {
    (Apart(r) <==> Apart(w) || SpanDropped(w)) && (Intact(w, key) ==> r == w)
  }

  /** Merging a backup. What is not valid after repair changes nothing. Facts and tombstones stay disjoint,
      and every window stays sound; but validation does not compare the two periods of a window. The state
      stays valid just when each window of the backup ends with its periods apart: when those of the
      repaired window do, if it leads, or when an early reset takes the previous place. */
  method MergeSnapshot(q: QuotaState, backup: Snapshot)
      returns (merged: bool, ghost repaired: map<Key, Window>, ghost joined: map<Key, Window>)
    requires q.Valid()
    modifies q`startedAt, q`facts, q`deleted, q`windows, q`version
    ensures q.FactsOk() && forall key | key in q.windows :: Sound(q.windows[key], key)
    ensures repaired.Keys == backup.windows.Keys && forall key | key in repaired :: RepairedAs(backup.windows[key], repaired[key], key)
    ensures merged ==> joined.Keys == backup.windows.Keys && forall key | key in joined ::
      key in q.windows && MergedAs(Lookup(old(q.windows), key), repaired[key], joined[key], q.windows[key])
    ensures merged ==>
      (q.Valid() <==> forall key | key in joined :: EndsApart(Lookup(old(q.windows), key), repaired[key], joined[key]))
    ensures AllApart(backup.windows) ==> q.Valid()
    ensures (forall key | key in backup.windows :: Intact(backup.windows[key], key)) ==> merged == ValidSnapshot(backup, old(q.facts))
    ensures !merged ==> q.windows == old(q.windows) && q.facts == old(q.facts) && q.deleted == old(q.deleted)
    ensures q.startedAt == if merged && backup.startedAt > old(q.startedAt) then backup.startedAt else old(q.startedAt)
    ensures merged ==> (forall id :: id in q.facts <==>
      id !in q.deleted && (id in backup.facts || (id in old(q.facts) && id !in backup.deleted)))
  {
    hide Apart, ValidWindow, Sound, Kept, Intact, NoReset, SpanDropped, Joined, ArchiveDue;
    AllSound(q);
    var s := RepairSnapshot(backup);
    repaired, joined := s.windows, map[];
    merged := ValidSnapshot(s, q.facts);
    if (forall key | key in backup.windows :: Intact(backup.windows[key], key)) {
      assert s.windows == backup.windows;
    }
    if merged {
      joined := AddSnapshot(q, s);
      SoundValid(q);
      if q.Valid() {
        AllSound(q);
      }
    }
  }

  lemma AllSound(q: QuotaState)
    requires q.Valid()
    ensures AllApart(q.windows) && forall key | key in q.windows :: Sound(q.windows[key], key)
  {
    forall key | key in q.windows ensures Sound(q.windows[key], key) && Apart(q.windows[key]) {
      KeptIsSound(q.windows[key], key);
    }
  }

  lemma SoundValid(q: QuotaState)
    requires q.FactsOk() && forall key | key in q.windows :: Sound(q.windows[key], key)
    ensures AllApart(q.windows) ==> q.Valid()
  {
    forall key | key in q.windows ensures Apart(q.windows[key]) ==> Kept(q.windows[key], key) {
      if Apart(q.windows[key]) {
        SoundIsKept(q.windows[key], key);
      }
    }
  }

  /** Adds a valid snapshot. */
  method AddSnapshot(q: QuotaState, s: Snapshot) returns (ghost joined: map<Key, Window>)
    requires q.FactsOk() && (forall key | key in q.windows :: Sound(q.windows[key], key)) && ValidSnapshot(s, q.facts)
    modifies q`startedAt, q`facts, q`deleted, q`windows, q`version
    ensures q.FactsOk() && forall key | key in q.windows :: Sound(q.windows[key], key)
    ensures forall id :: id in q.facts <==> id !in q.deleted && (id in s.facts || (id in old(q.facts) && id !in s.deleted))
    ensures q.startedAt == if s.startedAt > old(q.startedAt) then s.startedAt else old(q.startedAt)
    ensures q.windows.Keys == old(q.windows).Keys + s.windows.Keys
    ensures forall key | key in q.windows && key !in s.windows :: q.windows[key] == old(q.windows)[key]
    ensures joined.Keys == s.windows.Keys && forall key | key in s.windows ::
      MergedAs(Lookup(old(q.windows), key), s.windows[key], joined[key], q.windows[key])
  {
    hide ValidWindow, Sound, MergedAs;
    forall key | key in s.windows ensures Sound(s.windows[key], key) {
      ValidWindowIsSound(s.windows[key], key);
    }
    if q.startedAt < s.startedAt {
      q.startedAt := s.startedAt;
    }
    MergeTombstones(q, s.deleted);
    MergeFacts(q, s.facts);
    joined := MergeWindows(q, s.windows);
    q.version := q.version + 1;
  }

  lemma ValidWindowIsSound(w: Window, key: Key)
    requires ValidWindow(w, key)
    ensures Sound(w, key)
  {
    ValidIsSound(w, key);
  }

  lemma SoundIsKept(w: Window, key: Key)
    requires Sound(w, key) && Apart(w)
    ensures Kept(w, key)
  {
  }

  /** Validation does not compare the two periods of a window. Here the earlier one reaches one day into the
      later one: the backup is valid, an empty state takes it over, and is not valid any more. */
  method OverlapSpoils(key: Key) returns (q: QuotaState)
    ensures fresh(q) && key in q.windows && !Apart(q.windows[key]) && !q.Valid()
  {
    var day := 24 * 60 * MINUTE;
    var previous := Period(false, false, 100 * day, 107 * day, 100 * day, []);
    var current := Period(false, false, 106 * day, 113 * day, 100 * day, []);
    var w := Window(key, "", "", false, 7 * 86400, false, 106 * day, Some(current), Some(previous));
    var backup := Snapshot(1, 100 * day, map[], map[], map[key := w]);
    assert Intact(w, key) && NoReset(w) && !Apart(w);
    q := new QuotaState(100 * day, 0);
    assert ValidSnapshot(backup, q.facts);
    var merged, repaired, joined := MergeSnapshot(q, backup);
    assert merged;
  }
}
