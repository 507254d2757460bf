/** The quota state: facts that requests left, tombstones of deleted records, and the windows that
    observations update. Visibility follows the newest word, whatever the order of delivery. */
module QuotaCycles {
  import opened Wrappers
  import opened QuotaPeriods
  import opened QuotaWindows

  const REVOCATION_RETENTION := 2 * 366 * 24 * 60 * MINUTE

  datatype Credential = Credential(provider: string, authIndex: string, authId: string)

  /** Of a fact's contents only what decides its lifetime matters; `body` stands for the rest. */
  datatype Fact = Fact(id: string, credential: Credential, timestamp: int, body: nat)

  predicate ValidFact(f: Fact) {
    f.id != "" && |f.id| <= 256 && f.timestamp != 0
  }

  predicate ValidTombstone(id: string, at: int) {
    id != "" && |id| <= 256 && at != 0
  }

  function CredentialOf(key: Key): Credential {
    Credential(key.provider, key.authIndex, key.authId)
  }

  ghost predicate Kept(w: Window, key: Key) {
    w.key == key && WindowOk(w) && HeadOk(w)
  }

  // ----- what was heard about a window -----

  function Lookup(windows: map<Key, Window>, key: Key): Option<Window> {
    if key in windows then Some(windows[key]) else None
  }

  ghost predicate Stale(w: Window, o: Observation) {
    o.observedAt < w.updatedAt || (w.hidden && o.observedAt == w.updatedAt)
  }

  /** What an observation may do to a window's date and visibility. */
  ghost predicate Heeded(before: Option<Window>, after: Option<Window>, o: Observation, accepted: bool) {
    if !accepted then after == before && (o.revoked && ValidObservation(o) ==> before.Some? && Stale(before.value, o))
    else
      && ValidObservation(o) && after.Some?
      && (if o.revoked then after.value.hidden && after.value.updatedAt == o.observedAt && (before.Some? ==> !Stale(before.value, o))
          else if before.Some? && Stale(before.value, o) then
            before.value.updatedAt != 0 || !before.value.hidden
            ==> after.value.hidden == before.value.hidden && after.value.updatedAt == before.value.updatedAt
          else after.value.updatedAt == o.observedAt && !after.value.hidden)
  }

  /** The window's date is that of the newest of the observations about it, and it is hidden just when one
      of the newest is a revocation. */
  ghost predicate ShowsNewest(w: Option<Window>, heard: seq<Observation>, key: Key) {
    && (forall i | 0 <= i < |heard| && heard[i].key == key :: w.Some?)
    && (w.Some? ==>
          && (forall i | 0 <= i < |heard| && heard[i].key == key ::
                heard[i].observedAt <= w.value.updatedAt
                && (heard[i].observedAt == w.value.updatedAt && heard[i].revoked ==> w.value.hidden))
          && (exists i :: 0 <= i < |heard| && heard[i].key == key && heard[i].observedAt == w.value.updatedAt != 0
                          && heard[i].revoked == w.value.hidden))
  }

  /** Accepted usage, and any revocation, accepted or not, counts as heard. */
  lemma HeededShowsNewest(before: Option<Window>, after: Option<Window>, heard: seq<Observation>, o: Observation, accepted: bool)
    requires ShowsNewest(before, heard, o.key) && Heeded(before, after, o, accepted) && ValidObservation(o)
    requires accepted || o.revoked
    ensures ShowsNewest(after, heard + [o], o.key)
  {
    var more := heard + [o];
    if before.Some? {
      var i :| 0 <= i < |heard| && heard[i].key == o.key && heard[i].observedAt == before.value.updatedAt != 0
               && heard[i].revoked == before.value.hidden;
      assert more[i] == heard[i];
    }
    assert more[|heard|] == o;
    forall i | 0 <= i < |more| && more[i].key == o.key
      ensures more[i].observedAt <= after.value.updatedAt
              && (more[i].observedAt == after.value.updatedAt && more[i].revoked ==> after.value.hidden)
    {
      assert i < |heard| ==> more[i] == heard[i];
    }
  }

  /** The date of a window never goes back. */
  lemma HeededMovesOn(before: Window, after: Option<Window>, o: Observation, accepted: bool)
    requires Heeded(Some(before), after, o, accepted) && before.updatedAt != 0
    ensures after.Some? && after.value.updatedAt >= before.updatedAt
  {
  }

  // ----- one observation -----

  function Marker(o: Observation): Window {
    Window(o.key, "", "", false, 0, true, o.observedAt, None, None)
  }

  /** The window that usage is applied to: a new one if there is none. One that a later word has hidden is
      dated by its own observations. */
  ghost function Before(existing: Option<Window>, o: Observation): Window {
    if existing == None then Window(o.key, o.name, o.model, o.unmapped, o.seconds, false, 0, None, None)
    else if existing.value.hidden && o.observedAt <= existing.value.updatedAt
    then existing.value.(updatedAt := WindowObservedAt(existing.value))
    else existing.value
  }

  /** The observation is recorded in a period. A late one completes the history; the newest one rolls the
      window over, begins or continues the current period, and shows the window. */
  ghost predicate Recording(w: Window, v: Window, o: Observation) {
    && (Recorded(v.current, o) || Recorded(v.previous, o))
    && if Stale(w, o) then SameHead(v, w) && LateChange(w, v, o)
       else
         && v.seconds == o.seconds && v.name == o.name && v.model == o.model && v.unmapped == o.unmapped
         && exists r: Window :: RolledOver(w, r, o) && InOrderChange(r, v, o)
  }

  /** What an early reset ended is in the previous place, unless it is known. */
  ghost predicate SegmentPlaced(v: Window, p: Option<Period>) {
    || HoldsSegment(v, p)
    || (p == v.previous
        && (ArchiveDue(v) ==> p.Some? && p.value.endedByReset && p.value.end == ResetSegment(v).end))
  }

  /** An archive of samples without usage. */
  ghost predicate NoUsage(p: Option<Period>) {
    p.Some? && p.value.endedByReset && p.value.samples != [] && forall x | x in p.value.samples :: x.used <= 0.0
  }

  /** Then an early reset is archived, and an archive without usage goes. The current period stays. */
  ghost predicate Archiving(v: Window, after: Window) {
    && after == v.(previous := after.previous, hidden := after.hidden, updatedAt := after.updatedAt)
    && exists p: Option<Period> :: SegmentPlaced(v, p) && after.previous == if NoUsage(p) then None else p
  }

  lemma ArchivedThen(v: Window, u: Window, after: Window)
    requires u.current == v.current && SegmentPlaced(v, u.previous)
    requires SameHead(u, v) && after.previous == WithoutEmptyArchive(u).previous
    requires after == u.(previous := after.previous, hidden := after.hidden, updatedAt := after.updatedAt)
    ensures Archiving(v, after)
  {
    hide SegmentPlaced;
    EmptyIff(u.previous);
  }

  lemma EmptyIff(p: Option<Period>)
    ensures p.Some? ==> (EmptyArchive(p.value) <==> NoUsage(p))
  {
    if p.Some? && Consumed(p.value.samples) {
      var i :| 0 <= i < |p.value.samples| && p.value.samples[i].used > 0.0;
      assert p.value.samples[i] in p.value.samples;
    }
  }

  method ApplyUsage(existing: Option<Window>, o: Observation, started: int)
      returns (result: Option<Window>, accepted: bool, ghost recorded: Window)
    requires ValidObservation(o) && !o.revoked
    requires existing.Some? ==> Kept(existing.value, o.key)
    ensures Heeded(existing, result, o, accepted)
    ensures accepted ==> Kept(result.value, o.key)
    ensures accepted ==> Recording(Before(existing, o), recorded, o) && Archiving(recorded, result.value)
  {
    hide PeriodOk, Recorded, LateChange, InOrderChange, RolledOver, Archiving, FitsLate, HoldsSegment, ArchiveDue, ResetSegment,
         WindowObservedAt;
    var w := if existing.Some? then existing.value
             else Window(o.key, o.name, o.model, o.unmapped, o.seconds, false, 0, None, None);
    var revokedAt := 0;
    if w.hidden && o.observedAt <= w.updatedAt {
      revokedAt, w := w.updatedAt, w.(updatedAt := WindowObservedAt(w));
    }
    ghost var before := w;
    if o.observedAt < w.updatedAt || (w.hidden && o.observedAt == w.updatedAt) {
      w, accepted := ApplyLate(w, o, started);
    } else {
      RollsOver(w, o);
      w, accepted := ApplyInOrder(w, o, started);
    }
    if !accepted {
      return existing, false, before;
    }
    recorded := w;
    assert Recording(before, recorded, o);
    var changed;
    w, changed := Archived(w);
    ghost var archived := w;
    w := WithoutEmptyArchive(w);
    if revokedAt != 0 {
      w := w.(hidden := true, updatedAt := revokedAt);
    }
    ArchivedThen(recorded, archived, w);
    result := Some(w);
  }

  method Archived(w: Window) returns (v: Window, changed: bool)
    requires WindowOk(w)
    ensures WindowOk(v) && SameHead(v, w) && v.current == w.current
    ensures if changed then w.current.Some? && HoldsSegment(w, v.previous) else v == w
    ensures ArchiveDue(w) && !changed ==>
      w.previous.Some? && w.previous.value.endedByReset && w.previous.value.end == ResetSegment(w).end
  {
    v, changed := ArchiveReset(w);
  }

  lemma OtherWindows(w: Option<Window>, heard: seq<Observation>, o: Observation, key: Key)
    requires ShowsNewest(w, heard, key) && o.key != key
    ensures ShowsNewest(w, heard + [o], key)
  {
    var more := heard + [o];
    forall i | 0 <= i < |more| && more[i].key == key ensures w.Some? && i < |heard| && more[i] == heard[i] {
    }
    if w.Some? {
      var i :| 0 <= i < |heard| && heard[i].key == key && heard[i].observedAt == w.value.updatedAt != 0
               && heard[i].revoked == w.value.hidden;
      assert more[i] == heard[i];
    }
  }

  // ----- expiry -----

  predicate Contains(p: Option<Period>, at: int) {
    p.Some? && p.value.start <= at < p.value.end
  }

  predicate Covers(w: Window, at: int) {
    Contains(w.current, at) || Contains(w.previous, at)
  }

  predicate HasStart(w: Window) {
    w.current.Some? || w.previous.Some?
  }

  function Start(w: Window): int
    requires HasStart(w)
  {
    if w.current == None then w.previous.value.start
    else if w.previous.Some? && w.previous.value.start < w.current.value.start then w.previous.value.start
    else w.current.value.start
  }

  ghost predicate FactNeeded(windows: map<Key, Window>, f: Fact, retention: int, now: int) {
    retention <= 0 || f.timestamp >= now - retention
    || exists key :: key in windows && CredentialOf(key) == f.credential && Covers(windows[key], f.timestamp)
  }

  ghost predicate TombstoneNeeded(windows: map<Key, Window>, at: int, retention: int, now: int) {
    retention <= 0 || at >= now - retention || exists key :: key in windows && HasStart(windows[key]) && Start(windows[key]) <= at
  }

  /** What expiry leaves of a window. */
  function Pruned(w: Window, now: int): Option<Window> {
    var recent := now <= w.updatedAt + REVOCATION_RETENTION;
    if !w.hidden then Some(w)
    else if !HasStart(w) then if recent then Some(w) else None
    else if now <= (if w.current.Some? then w.current else w.previous).value.end + w.seconds * SECOND then Some(w)
    else if recent then Some(w.(current := None, previous := None, seconds := 0))
    else None
  }

  lemma PrunedOk(w: Window, key: Key, now: int)
    requires Kept(w, key) && now > REVOCATION_RETENTION
    ensures Pruned(w, now).Some? ==> Kept(Pruned(w, now).value, key)
  {
    hide PeriodOk;
  }

  lemma AllAdvanced(before: map<Key, Window>, after: map<Key, Window>, now: int)
    requires before.Keys == after.Keys && forall key | key in after :: Advanced(before[key], after[key], now)
    ensures forall key | key in after :: after[key].updatedAt == before[key].updatedAt && after[key].hidden == before[key].hidden
  {
  }

  class QuotaState {
    const retention: int
    var startedAt: int
    var facts: map<string, Fact>
    var deleted: map<string, int>
    var windows: map<Key, Window>
    var version: nat
    var nextPrune: int
    // All revocations, and the usage that was accepted, since the state began.
    ghost var heard: seq<Observation>

    ghost predicate FactsOk()
      reads this
    {
      && (forall id | id in facts :: facts[id].id == id && ValidFact(facts[id]) && id !in deleted)
      && (forall id | id in deleted :: ValidTombstone(id, deleted[id]))
    }

    ghost predicate WindowsOk()
      reads this
    {
      forall key | key in windows :: Kept(windows[key], key)
    }

    ghost predicate Valid()
      reads this
    {
      FactsOk() && WindowsOk()
    }

    /** Without pruning and merging, every window shows the newest of what was heard about it. */
    ghost predicate NewestShown()
      reads this
    {
      forall key :: ShowsNewest(Lookup(windows, key), heard, key)
    }

    constructor (startedAt: int, retention: int)
      ensures Valid() && NewestShown() && facts == map[] && windows == map[] && deleted == map[]
    {
      this.startedAt, this.retention := startedAt, retention;
      facts, deleted, windows, version, nextPrune, heard := map[], map[], map[], 0, 0, [];
    }

    method AddFact(f: Fact)
      requires Valid()
      modifies this`facts, this`version
      ensures Valid()
      ensures facts == if f.id in deleted || !ValidFact(f) then old(facts) else old(facts)[f.id := f]
      ensures facts != old(facts) ==> version > old(version)
    {
      if f.id in deleted || !ValidFact(f) || (f.id in facts && facts[f.id] == f) {
        assert f.id in facts && facts[f.id] == f ==> facts == facts[f.id := f];
        return;
      }
      facts, version := facts[f.id := f], version + 1;
    }

    /** The record of a fact is deleted: the fact goes, and its identity never holds one again. */
    method RemoveFact(id: string, timestamp: int)
      requires Valid()
      modifies this`facts, this`deleted, this`version
      ensures Valid() && facts == old(facts) - {id} && (facts != old(facts) ==> version > old(version))
      ensures deleted == if ValidTombstone(id, timestamp) then old(deleted)[id := timestamp] else old(deleted)
    {
      if id == "" {
        assert "" !in facts;
        return;
      }
      facts, version := facts - {id}, version + 1;
      if |id| > 256 || timestamp == 0 {
        return;
      }
      deleted := deleted[id := timestamp];
    }

    /** What is heard about a window. Accepted usage is recorded in one of its periods, an early reset is
        archived, and the window shows the newest word; a revocation leaves the periods alone. */
    method Observe(observed: Observation) returns (accepted: bool, ghost recorded: Window)
      requires Valid()
      modifies this`windows, this`version, this`heard
      ensures Valid() && (old(NewestShown()) ==> NewestShown())
      ensures Heeded(Lookup(old(windows), observed.key), Lookup(windows, observed.key), observed, accepted)
      ensures forall key | key != observed.key :: Lookup(windows, key) == Lookup(old(windows), key)
      ensures windows != old(windows) ==> version > old(version)
      ensures accepted && !observed.revoked ==>
        var o := Filled(observed, startedAt);
        && Recording(Before(Lookup(old(windows), o.key), o), recorded, o)
        && o.key in windows && Archiving(recorded, windows[o.key])
      ensures accepted && observed.revoked && observed.key in old(windows) ==>
        && windows[observed.key].current == old(windows)[observed.key].current
        && windows[observed.key].previous == old(windows)[observed.key].previous
      ensures heard == if ValidObservation(observed) && (accepted || observed.revoked) then old(heard) + [observed] else old(heard)
    {
      hide Kept, Heeded, ShowsNewest, Recording, Archiving;
      accepted := false;
      recorded := Before(Lookup(windows, observed.key), observed);
      if !ValidObservation(observed) {
        Unheeded(Lookup(windows, observed.key), observed);
        return;
      }
      var filled := Filled(observed, startedAt);
      ghost var before := Lookup(windows, observed.key);
      var after;
      after, accepted, recorded := ApplyOne(Lookup(windows, observed.key), filled, filled.collectionStartedAt);
      FilledHeeded(before, after, observed, startedAt, accepted);
      if accepted {
        windows, version := windows[observed.key := after.value], version + 1;
      }
      if accepted || observed.revoked {
        heard := heard + [observed];
        if old(NewestShown()) {
          forall key ensures ShowsNewest(Lookup(windows, key), heard, key) {
            assert ShowsNewest(Lookup(old(windows), key), old(heard), key);
            if key == observed.key {
              HeededShowsNewest(before, after, old(heard), observed, accepted);
            } else {
              OtherWindows(Lookup(windows, key), old(heard), observed, key);
            }
          }
        }
      }
    }

    method Advance(now: int)
      requires Valid()
      modifies this`windows, this`version
      ensures Valid() && (old(NewestShown()) ==> NewestShown())
      ensures windows.Keys == old(windows).Keys && forall key | key in windows :: Advanced(old(windows)[key], windows[key], now)
      ensures windows != old(windows) ==> version > old(version)
    {
      hide Kept, ShowsNewest, Advanced;
      var rest, changed := windows.Keys, false;
      while rest != {}
        invariant rest <= windows.Keys == old(windows).Keys && WindowsOk()
        invariant forall key | key in rest :: windows[key] == old(windows)[key]
        invariant forall key | key in windows && key !in rest :: Advanced(old(windows)[key], windows[key], now)
        invariant version == old(version) && (windows != old(windows) ==> changed)
        decreases rest
      {
        var key :| key in rest;
        KeyOf(windows[key], key);
        var w, moved := AdvanceOne(windows[key], now);
        windows, changed := windows[key := w], changed || moved;
        rest := rest - {key};
      }
      if changed {
        version := version + 1;
      }
      AdvancedShow(old(windows), windows, heard, now);
    }

    /** Expiry. A fact or a tombstone goes only if it is older than the retention and no period that is
        left needs it; a hidden window whose periods are long over keeps its revocation. */
    method Prune(now: int) returns (ghost advanced: map<Key, Window>)
      requires Valid() && now > REVOCATION_RETENTION
      modifies this`windows, this`version, this`nextPrune, this`facts, this`deleted
      ensures Valid()
      ensures advanced.Keys == old(windows).Keys && forall key | key in advanced :: Advanced(old(windows)[key], advanced[key], now)
      ensures if now < old(nextPrune) then windows == advanced
              else forall key :: Lookup(windows, key) == if key in advanced then Pruned(advanced[key], now) else None
      ensures now >= old(nextPrune) ==>
        && facts == (map id | id in old(facts) && FactNeeded(windows, old(facts)[id], retention, now) :: old(facts)[id])
        && deleted == (map id | id in old(deleted) && TombstoneNeeded(windows, old(deleted)[id], retention, now) :: old(deleted)[id])
      ensures now < old(nextPrune) ==> facts == old(facts) && deleted == old(deleted)
      ensures forall key | key in windows :: key in old(windows) && windows[key].updatedAt == old(windows)[key].updatedAt
                                             && windows[key].hidden == old(windows)[key].hidden
      ensures forall key | key in old(windows) && key !in windows ::
        old(windows)[key].hidden && now > old(windows)[key].updatedAt + REVOCATION_RETENTION
    {
      hide Kept, Advanced;
      Advance(now);
      advanced := windows;
      if now < nextPrune {
        AllAdvanced(old(windows), windows, now);
        return;
      }
      nextPrune := now + MINUTE;
      AllAdvanced(old(windows), windows, now);
      PruneWindows(now);
      PruneFacts(now);
      PruneTombstones(now);
    }

    method PruneWindows(now: int)
      requires WindowsOk() && now > REVOCATION_RETENTION
      modifies this`windows, this`version
      ensures WindowsOk()
      ensures forall key :: Lookup(windows, key) == if key in old(windows) then Pruned(old(windows)[key], now) else None
    {
      hide Kept, Pruned;
      ghost var before := windows;
      var rest := windows.Keys;
      while rest != {}
        invariant rest <= before.Keys && windows.Keys <= before.Keys && WindowsOk()
        invariant forall key | key in rest :: key in windows && windows[key] == before[key]
        invariant forall key | key in before && key !in rest :: Lookup(windows, key) == Pruned(before[key], now)
        decreases rest
      {
        var key :| key in rest;
        var w := Pruned(windows[key], now);
        PrunedOk(windows[key], key, now);
        if w == None {
          windows, version := windows - {key}, version + 1;
        } else if w.value != windows[key] {
          windows, version := windows[key := w.value], version + 1;
        }
        rest := rest - {key};
      }
    }

    method PruneFacts(now: int)
      requires FactsOk()
      modifies this`facts, this`version
      ensures FactsOk()
      ensures facts == map id | id in old(facts) && FactNeeded(windows, old(facts)[id], retention, now) :: old(facts)[id]
    {
      hide FactNeeded;
      ghost var before := facts;
      var rest := facts.Keys;
      while rest != {}
        invariant rest <= before.Keys && FactsOk() && forall id | id in facts :: id in before && facts[id] == before[id]
        invariant forall id | id in before :: id in facts <==> id in rest || FactNeeded(windows, before[id], retention, now)
        decreases rest
      {
        var id :| id in rest;
        var needed := NeedsFact(facts[id], now);
        if !needed {
          facts, version := facts - {id}, version + 1;
        }
        rest := rest - {id};
      }
    }

    method NeedsFact(f: Fact, now: int) returns (needed: bool)
      ensures needed <==> FactNeeded(windows, f, retention, now)
    {
      if retention <= 0 || f.timestamp >= now - retention {
        return true;
      }
      var rest := windows.Keys;
      while rest != {}
        invariant rest <= windows.Keys
        invariant forall key | key in windows && key !in rest :: !(CredentialOf(key) == f.credential && Covers(windows[key], f.timestamp))
        decreases rest
      {
        var key :| key in rest;
        if CredentialOf(key) == f.credential && Covers(windows[key], f.timestamp) {
          return true;
        }
        rest := rest - {key};
      }
      needed := false;
    }

    method PruneTombstones(now: int)
      requires FactsOk()
      modifies this`deleted
      ensures FactsOk()
      ensures deleted == map id | id in old(deleted) && TombstoneNeeded(windows, old(deleted)[id], retention, now) :: old(deleted)[id]
    {
      hide TombstoneNeeded;
      ghost var before := deleted;
      var keepAfter := KeepAfter(now);
      var rest := deleted.Keys;
      while rest != {}
        invariant rest <= before.Keys && FactsOk() && forall id | id in deleted :: id in before && deleted[id] == before[id]
        invariant forall id | id in before :: id in deleted <==> id in rest || TombstoneNeeded(windows, before[id], retention, now)
        decreases rest
      {
        var id :| id in rest;
        if retention > 0 && deleted[id] < keepAfter {
          deleted := deleted - {id};
        }
        rest := rest - {id};
      }
    }

    method KeepAfter(now: int) returns (at: int)
      ensures forall t: int :: retention > 0 ==> (t >= at <==> TombstoneNeeded(windows, t, retention, now))
      ensures forall t: int :: retention <= 0 ==> TombstoneNeeded(windows, t, retention, now)
    {
      at := now - retention;
      var rest := windows.Keys;
      while rest != {}
        invariant rest <= windows.Keys && at <= now - retention
        invariant forall key | key in windows && key !in rest && HasStart(windows[key]) :: at <= Start(windows[key])
        invariant at < now - retention ==> exists key :: key in windows && HasStart(windows[key]) && Start(windows[key]) == at
        decreases rest
      {
        var key :| key in rest;
        if HasStart(windows[key]) && Start(windows[key]) < at {
          at := Start(windows[key]);
        }
        rest := rest - {key};
      }
    }
  }

  /** A current period that is over becomes the previous one. Otherwise it stays, and only what an early
      reset of it ended may have taken the previous place. */
  ghost predicate Advanced(before: Window, after: Window, now: int) {
    && SameHead(after, before)
    && if before.current.Some? && now >= before.current.value.end
       then after.current == None && after.previous == before.current
       else after.current == before.current && (after.previous == before.previous || HoldsSegment(before, after.previous))
  }

  lemma AdvancedShow(before: map<Key, Window>, after: map<Key, Window>, heard: seq<Observation>, now: int)
    requires before.Keys == after.Keys && forall key | key in after :: Advanced(before[key], after[key], now)
    ensures (forall key :: ShowsNewest(Lookup(before, key), heard, key)) ==> forall key :: ShowsNewest(Lookup(after, key), heard, key)
  {
    hide ShowsNewest;
    if forall key :: ShowsNewest(Lookup(before, key), heard, key) {
      forall key ensures ShowsNewest(Lookup(after, key), heard, key) {
        SameDate(Lookup(before, key), Lookup(after, key), heard, key);
      }
    }
  }

  lemma KeyOf(w: Window, key: Key)
    requires Kept(w, key)
    ensures w.key == key
  {
  }

  lemma Unheeded(w: Option<Window>, o: Observation)
    requires !ValidObservation(o)
    ensures Heeded(w, w, o, false)
  {
  }

  lemma SameDate(v: Option<Window>, w: Option<Window>, heard: seq<Observation>, key: Key)
    requires ShowsNewest(v, heard, key) && (v.Some? <==> w.Some?) && (v.Some? ==> SameHead(w.value, v.value))
    ensures ShowsNewest(w, heard, key)
  {
  }

  /** An observation without a start of the collection gets that of the state. */
  function Filled(o: Observation, startedAt: int): Observation {
    if o.collectionStartedAt == 0 then o.(collectionStartedAt := startedAt) else o
  }

  lemma FilledHeeded(before: Option<Window>, after: Option<Window>, o: Observation, startedAt: int, accepted: bool)
    requires Heeded(before, after, Filled(o, startedAt), accepted)
    ensures Heeded(before, after, o, accepted)
  {
  }

  method ApplyOne(existing: Option<Window>, o: Observation, started: int)
      returns (result: Option<Window>, accepted: bool, ghost recorded: Window)
    requires ValidObservation(o) && (existing.Some? ==> Kept(existing.value, o.key))
    ensures Heeded(existing, result, o, accepted)
    ensures accepted ==> Kept(result.value, o.key)
    ensures accepted && !o.revoked ==> Recording(Before(existing, o), recorded, o) && Archiving(recorded, result.value)
    ensures accepted && o.revoked && existing.Some? ==>
      result.value.current == existing.value.current && result.value.previous == existing.value.previous
  {
    hide Recording, Archiving;
    recorded := Before(existing, o);
    if !o.revoked {
      result, accepted, recorded := ApplyUsage(existing, o, started);
    } else if existing == None {
      // A revocation is remembered before the first usage arrives.
      result, accepted := Some(Marker(o)), true;
    } else {
      var w := existing.value;
      if o.observedAt < w.updatedAt || (w.hidden && o.observedAt == w.updatedAt) {
        return existing, false, recorded;
      }
      result, accepted := Some(w.(hidden := true, updatedAt := o.observedAt)), true;
    }
  }

  /** Archives what a reset ended; a current period that is over becomes the previous one. */
  method AdvanceOne(w: Window, now: int) returns (v: Window, changed: bool)
    requires Kept(w, w.key)
    ensures Kept(v, w.key) && Advanced(w, v, now) && (!changed ==> v == w)
  {
    hide PeriodOk, HoldsSegment, ArchiveDue, ResetSegment;
    v, changed := Archived(w);
    if v.current.Some? && now >= v.current.value.end {
      v, changed := v.(previous := v.current, current := None), true;
    }
  }
}
