/** The bounded cache of request metadata. It enriches a usage record only if all executions that may have
    made it agree, and it forgets executions only when they cannot have made any record to come. */
module RequestMetadata {
  import opened Sequences
  import opened Wrappers
  import opened Text

  const MINUTE := 60_000_000_000
  const TTL := 30 * MINUTE
  const MAX_OBSERVATIONS := 4096

  /** An execution that was observed. Its request and credential never change. */
  datatype Execution = Execution(number: nat, id: string, authId: string)

  datatype Observation = Observation(authIndex: string, model: string, alias: string, endpoint: string, serviceTier: string,
                                     stream: bool, start: int, end: int, endExclusive: bool)

  datatype Usage = Usage(authId: string, authIndex: string, model: string, alias: string, endpoint: string,
                         serviceTier: string, stream: bool, streamPresent: bool, requestedAt: int)

  type History = map<Execution, Observation>

  // ----- what an unbounded history would answer -----

  /** The execution may have made the record. */
  predicate Candidate(e: Execution, o: Observation, record: Usage) {
    && e.authId == TrimSpace(record.authId)
    && record.requestedAt >= o.start
    && (o.end == 0 || record.requestedAt < o.end || (record.requestedAt == o.end && !o.endExclusive))
    && (o.authIndex == "" || record.authIndex == "" || o.authIndex == record.authIndex)
    && (o.model == record.model || (o.alias != "" && record.alias != "" && o.alias == record.alias))
    && (o.alias == "" || record.alias == "" || o.alias == record.alias)
    && (record.endpoint == "" || record.endpoint == o.endpoint)
  }

  predicate Agree(a: Observation, b: Observation) {
    a.endpoint == b.endpoint && a.stream == b.stream
  }

  function Filled(record: Usage, o: Observation, sameTier: bool): Usage {
    record.(endpoint := if record.endpoint == "" then o.endpoint else record.endpoint,
            stream := if record.streamPresent then record.stream else o.stream,
            serviceTier := if TrimSpace(record.serviceTier) == "" && sameTier then o.serviceTier else record.serviceTier)
  }

  /** What a record has is never overwritten, and what it lacks it gets; a service tier only if the
      executions agree on it. */
  lemma FillsGapsOnly(record: Usage, o: Observation, sameTier: bool)
    ensures var r := Filled(record, o, sameTier);
      && r == record.(endpoint := r.endpoint, stream := r.stream, serviceTier := r.serviceTier)
      && (record.endpoint != "" ==> r.endpoint == record.endpoint) && (record.endpoint == "" ==> r.endpoint == o.endpoint)
      && (record.streamPresent ==> r.stream == record.stream) && (!record.streamPresent ==> r.stream == o.stream)
      && (TrimSpace(record.serviceTier) != "" || !sameTier ==> r.serviceTier == record.serviceTier)
      && (TrimSpace(record.serviceTier) == "" && sameTier ==> r.serviceTier == o.serviceTier)
  {
  }

  /** The record was requested while the execution ran. */
  ghost predicate Ran(o: Observation, at: int) {
    o.start <= at && (o.end != 0 ==> at <= o.end && (o.endExclusive ==> at != o.end))
  }

  /** Two labels contradict each other if both are known and differ. */
  ghost predicate Contradict(a: string, b: string) {
    a != "" && b != "" && a != b
  }

  /** A candidate ran then under the record's credential; index, alias and endpoint do not contradict it, and
      it has the record's model or its alias. */
  lemma CandidateIff(e: Execution, o: Observation, record: Usage)
    ensures Candidate(e, o, record) <==>
      && TrimSpace(record.authId) == e.authId && Ran(o, record.requestedAt)
      && !Contradict(o.authIndex, record.authIndex) && !Contradict(o.alias, record.alias)
      && (record.model == o.model || (record.alias == o.alias && record.alias != ""))
      && (record.endpoint != "" ==> o.endpoint == record.endpoint)
  {
  }

  ghost function Candidates(h: History, among: set<Execution>, record: Usage): set<Execution> {
    set e | e in among && e in h && Candidate(e, h[e], record)
  }

  ghost predicate AllAgree(h: History, found: set<Execution>)
      requires found <= h.Keys
  {
    forall a, b | a in found && b in found :: Agree(h[a], h[b])
  }

  ghost predicate SameTier(h: History, found: set<Execution>)
      requires found <= h.Keys
  {
    forall a, b | a in found && b in found :: h[a].serviceTier == h[b].serviceTier
  }

  /** Nothing is filled in unless there is a candidate and all agree; then it does not matter which of them
      the values are taken from, nor in which order they were looked at. */
  ghost predicate Enriched(h: History, among: set<Execution>, record: Usage, result: Usage) {
    var found := Candidates(h, among, record);
    if found == {} || !AllAgree(h, found) then result == record
    else forall e | e in found :: result == Filled(record, h[e], SameTier(h, found))
  }

  /** A new execution of a request ends the ones before it. */
  function Observed(h: History, e: Execution, o: Observation): History {
    Closed(h, h.Keys, e.id, o.start)[e := o]
  }

  function Closed(h: History, among: set<Execution>, id: string, now: int): History {
    map e | e in h :: if e in among && e.id == id && Open(h[e]) then h[e].(end := now, endExclusive := true) else h[e]
  }

  function Completed(h: History, among: set<Execution>, id: string, end: int): History {
    map e | e in h :: if e in among && e.id == id && Open(h[e]) && end >= h[e].start then h[e].(end := end) else h[e]
  }

  // ----- the lists of the cache -----

  type Lists = map<string, seq<Execution>>

  function Listed(lists: Lists, key: string): seq<Execution> {
    if key in lists then lists[key] else []
  }

  ghost predicate ByAuth(lists: Lists, live: set<Execution>) {
    && (forall key, e :: e in Listed(lists, key) <==> e in live && e.authId == key)
    && (forall key :: Distinct(Listed(lists, key)))
  }

  ghost predicate ById(lists: Lists, live: set<Execution>) {
    && (forall key, e :: e in Listed(lists, key) <==> e in live && e.id == key)
    && (forall key :: Distinct(Listed(lists, key)))
  }

  function Added(lists: Lists, key: string, e: Execution): (r: Lists)
    ensures Listed(r, key) == Listed(lists, key) + [e]
    ensures forall k | k != key :: Listed(r, k) == Listed(lists, k)
  {
    lists[key := Listed(lists, key) + [e]]
  }

  lemma AddedByAuth(lists: Lists, live: set<Execution>, e: Execution)
    requires ByAuth(lists, live) && e !in live
    ensures ByAuth(Added(lists, e.authId, e), live + {e})
  {
    var r := Added(lists, e.authId, e);
    forall key, x ensures x in Listed(r, key) <==> x in live + {e} && x.authId == key {
      assert x in Listed(lists, key) <==> x in live && x.authId == key;
    }
    assert e !in Listed(lists, e.authId);
  }

  lemma AddedById(lists: Lists, live: set<Execution>, e: Execution)
    requires ById(lists, live) && e !in live
    ensures ById(Added(lists, e.id, e), live + {e})
  {
    var r := Added(lists, e.id, e);
    forall key, x ensures x in Listed(r, key) <==> x in live + {e} && x.id == key {
      assert x in Listed(lists, key) <==> x in live && x.id == key;
    }
    assert e !in Listed(lists, e.id);
  }

  // ----- expiry -----

  predicate Open(o: Observation) {
    o.end == 0
  }

  predicate Recent(o: Observation, cutoff: int) {
    Open(o) || o.end >= cutoff
  }

  predicate TooLong(o: Observation, cutoff: int) {
    Open(o) && o.start < cutoff
  }

  ghost function StillRecent(h: History, live: set<Execution>, cutoff: int): set<Execution>
    requires live <= h.Keys
  {
    set e | e in live && Recent(h[e], cutoff)
  }

  /** Filters one list, unless it has an execution that has been open for too long. */
  method FilterList(h: History, items: seq<Execution>, cutoff: int) returns (kept: seq<Execution>, tooLong: bool)
    requires Distinct(items) && forall e | e in items :: e in h
    ensures tooLong <==> exists e :: e in items && TooLong(h[e], cutoff)
    ensures !tooLong ==> Distinct(kept) && forall e :: e in kept <==> e in items && Recent(h[e], cutoff)
  {
    kept, tooLong := [], false;
    var i := 0;
    while i < |items|
      invariant 0 <= i <= |items| && Distinct(kept) && !tooLong
      invariant forall e :: e in kept <==> e in items[..i] && Recent(h[e], cutoff)
      invariant forall e | e in items[..i] :: !TooLong(h[e], cutoff)
    {
      var e := items[i];
      assert items[..i + 1] == items[..i] + [e] && e !in items[..i] && e in items;
      if TooLong(h[e], cutoff) {
        return kept, true;
      }
      if Recent(h[e], cutoff) {
        kept := kept + [e];
      }
      i := i + 1;
    }
    assert items[..i] == items;
  }

  function Replaced(lists: Lists, key: string, items: seq<Execution>): (r: Lists)
    ensures Listed(r, key) == items
    ensures forall k | k != key :: Listed(r, k) == Listed(lists, k)
  {
    if items == [] then lists - {key} else lists[key := items]
  }

  /** The lists outside `rest` are filtered. */
  ghost predicate Partly(h: History, kept: Lists, live: set<Execution>, cutoff: int, rest: set<string>)
    requires live <= h.Keys
  {
    && (forall key, e :: e in Listed(kept, key) <==> e in live && e.authId == key && (key in rest || Recent(h[e], cutoff)))
    && (forall key :: Distinct(Listed(kept, key)))
  }

  lemma OneMoreList(h: History, kept: Lists, live: set<Execution>, cutoff: int, rest: set<string>, key: string,
                    items: seq<Execution>)
    requires live <= h.Keys && Partly(h, kept, live, cutoff, rest) && key in rest && Distinct(items)
    requires forall e :: e in items <==> e in Listed(kept, key) && Recent(h[e], cutoff)
    ensures Partly(h, Replaced(kept, key, items), live, cutoff, rest - {key})
  {
    var now := Replaced(kept, key, items);
    forall k, e ensures e in Listed(now, k) <==> e in live && e.authId == k && (k in rest - {key} || Recent(h[e], cutoff)) {
      assert e in Listed(kept, k) <==> e in live && e.authId == k && (k in rest || Recent(h[e], cutoff));
    }
    forall k ensures Distinct(Listed(now, k)) {
      assert Distinct(Listed(kept, k));
    }
  }

  method FilterAll(h: History, lists: Lists, cutoff: int, ghost live: set<Execution>) returns (kept: Lists, tooLong: bool)
    requires ByAuth(lists, live) && live <= h.Keys
    ensures tooLong <==> exists e :: e in live && TooLong(h[e], cutoff)
    ensures !tooLong ==> ByAuth(kept, StillRecent(h, live, cutoff))
  {
    kept, tooLong := lists, false;
    var rest := lists.Keys;
    NoneFiltered(h, lists, live, cutoff);
    while rest != {}
      invariant rest <= lists.Keys && Partly(h, kept, live, cutoff, rest) && !tooLong
      invariant forall e | e in live && e.authId !in rest :: !TooLong(h[e], cutoff)
      decreases rest
    {
      hide ByAuth;
      var key :| key in rest;
      ListHolds(h, kept, live, cutoff, rest, key);
      var items, open := FilterList(h, Listed(kept, key), cutoff);
      if open {
        return kept, true;
      }
      OneMoreList(h, kept, live, cutoff, rest, key, items);
      kept := Replaced(kept, key, items);
      rest := rest - {key};
    }
  }

  lemma NoneFiltered(h: History, lists: Lists, live: set<Execution>, cutoff: int)
    requires ByAuth(lists, live) && live <= h.Keys
    ensures Partly(h, lists, live, cutoff, lists.Keys)
  {
    forall key, e ensures e in Listed(lists, key) <==> e in live && e.authId == key && (key in lists || Recent(h[e], cutoff)) {
      OneList(lists, live, key);
    }
    forall key ensures Distinct(Listed(lists, key)) {
      OneList(lists, live, key);
    }
  }

  lemma ListHolds(h: History, kept: Lists, live: set<Execution>, cutoff: int, rest: set<string>, key: string)
    requires live <= h.Keys && Partly(h, kept, live, cutoff, rest) && key in rest
    ensures Distinct(Listed(kept, key)) && forall e :: e in Listed(kept, key) <==> e in live && e.authId == key
  {
    assert Distinct(Listed(kept, key));
  }

  method AddList(byId: Lists, count: nat, items: seq<Execution>, ghost done: set<Execution>)
      returns (more: Lists, counted: nat, ghost all: set<Execution>)
    requires ById(byId, done) && count == |done| && Distinct(items) && forall e | e in items :: e !in done
    ensures ById(more, all) && counted == |all| && forall e :: e in all <==> e in done || e in items
  {
    more, counted, all := byId, count, done;
    var i := 0;
    while i < |items|
      invariant 0 <= i <= |items| && ById(more, all) && counted == |all|
      invariant forall e :: e in all <==> e in done || e in items[..i]
    {
      hide ById;
      assert items[..i + 1] == items[..i] + [items[i]] && items[i] !in items[..i] && items[i] in items;
      AddedById(more, all, items[i]);
      more := Added(more, items[i].id, items[i]);
      all, counted := all + {items[i]}, counted + 1;
      i := i + 1;
    }
    assert items[..i] == items;
  }

  lemma OneList(lists: Lists, live: set<Execution>, key: string)
    requires ByAuth(lists, live)
    ensures Distinct(Listed(lists, key)) && forall e :: e in Listed(lists, key) <==> e in live && e.authId == key
  {
  }

  lemma OneIdList(lists: Lists, live: set<Execution>, key: string)
    requires ById(lists, live)
    ensures forall e :: e in Listed(lists, key) <==> e in live && e.id == key
  {
  }

  method CloseList(h: History, items: seq<Execution>, now: int) returns (r: History)
    requires (forall e | e in items :: e in h) && now != 0
    ensures r.Keys == h.Keys
    ensures forall e | e in h :: r[e] == if e in items && Open(h[e]) then h[e].(end := now, endExclusive := true) else h[e]
  {
    r := h;
    var i := 0;
    while i < |items|
      invariant 0 <= i <= |items| && r.Keys == h.Keys
      invariant forall e | e in h :: r[e] == if e in items[..i] && Open(h[e]) then h[e].(end := now, endExclusive := true) else h[e]
    {
      assert items[..i + 1] == items[..i] + [items[i]] && items[i] in items;
      if Open(r[items[i]]) {
        r := r[items[i] := r[items[i]].(end := now, endExclusive := true)];
      }
      i := i + 1;
    }
    assert items[..i] == items;
  }

  method EndList(h: History, items: seq<Execution>, end: int) returns (r: History)
    requires (forall e | e in items :: e in h) && end != 0
    ensures r.Keys == h.Keys
    ensures forall e | e in h :: r[e] == if e in items && Open(h[e]) && end >= h[e].start then h[e].(end := end) else h[e]
  {
    r := h;
    var i := 0;
    while i < |items|
      invariant 0 <= i <= |items| && r.Keys == h.Keys
      invariant forall e | e in h ::
        r[e] == if e in items[..i] && Open(h[e]) && end >= h[e].start then h[e].(end := end) else h[e]
    {
      assert items[..i + 1] == items[..i] + [items[i]] && items[i] in items;
      if Open(r[items[i]]) && end >= r[items[i]].start {
        r := r[items[i] := r[items[i]].(end := end)];
      }
      i := i + 1;
    }
    assert items[..i] == items;
  }

  /** Rebuilds the lists by request, and counts. */
  method Rebuild(lists: Lists, ghost live: set<Execution>) returns (byId: Lists, count: nat)
    requires ByAuth(lists, live)
    ensures ById(byId, live) && count == |live|
  {
    byId, count := map[], 0;
    ghost var done: set<Execution> := {};
    var rest := lists.Keys;
    while rest != {}
      invariant rest <= lists.Keys && ById(byId, done) && count == |done|
      invariant forall e :: e in done <==> e in live && e.authId in lists && e.authId !in rest
      decreases rest
    {
      hide ById, ByAuth;
      var key :| key in rest;
      OneList(lists, live, key);
      byId, count, done := AddList(byId, count, Listed(lists, key), done);
      rest := rest - {key};
    }
    forall e ensures e in done <==> e in live {
      assert e in live ==> e in Listed(lists, e.authId);
    }
    assert done == live;
  }

  // ----- the cache -----

  class RequestMetadataCache {
    var byAuth: Lists
    var byId: Lists
    var count: nat
    var nextCleanup: int
    var unsafeUntil: int
    var next: nat
    // All executions ever observed, with what became of them. The lists refer to it.
    var history: History
    ghost var live: set<Execution>
    // How often the cache was reset, and the latest time it was told.
    ghost var resets: nat
    ghost var clock: int

    ghost predicate Indexed()
      reads `byAuth, `byId, `live
    {
      ByAuth(byAuth, live) && ById(byId, live)
    }

    ghost predicate Valid()
      reads this
    {
      && Indexed() && live <= history.Keys && count == |live| <= MAX_OBSERVATIONS
      && (forall e | e in history :: e.number < next)
      && Remembers() && (resets == 0 ==> unsafeUntil == 0) && clock >= 0
    }

    /** What was forgotten ended before any record that is still accepted began. */
    ghost predicate Remembers()
      reads `history, `live, `resets, `clock
    {
      resets == 0 ==> forall e | e in history && e !in live :: history[e].end != 0 && history[e].end < clock - TTL
    }

    constructor ()
      ensures Valid() && resets == 0 && history == map[] && unsafeUntil == 0 && clock == 0
    {
      byAuth, byId, count, nextCleanup, unsafeUntil, next, history := map[], map[], 0, 0, 0, 0, map[];
      live, resets, clock := {}, 0, 0;
    }

    method Reset(now: int)
      requires Valid()
      modifies `byAuth, `byId, `count, `unsafeUntil, `live, `resets
      ensures Valid() && unsafeUntil == now + TTL && resets == old(resets) + 1 && live == {}
    {
      byAuth, byId, count, unsafeUntil, live, resets := map[], map[], 0, now + TTL, {}, resets + 1;
    }

    /** An execution has been open for more than half an hour, and it is time to look. */
    ghost predicate Overdue(now: int)
      reads `history, `live, `nextCleanup
    {
      now >= nextCleanup && exists e :: e in live && e in history && history[e].end == 0 && history[e].start < now - 30 * MINUTE
    }

    method Cleanup(now: int)
      requires Valid() && now >= clock
      modifies `byAuth, `byId, `count, `nextCleanup, `unsafeUntil, `live, `resets, `clock
      ensures Valid() && clock == now && live <= old(live)
      ensures if old(Overdue(now)) then resets == old(resets) + 1 && unsafeUntil == now + TTL && live == {}
              else resets == old(resets) && unsafeUntil == old(unsafeUntil)
      ensures nextCleanup == if now >= old(nextCleanup) then now + MINUTE else old(nextCleanup)
      ensures !old(Overdue(now)) ==> forall e | e in old(live) ::
        e in live || (history[e].end != 0 && history[e].end < now - 30 * MINUTE)
    {
      hide ByAuth, ById;
      clock := now;
      if now < nextCleanup {
        return;
      }
      nextCleanup := now + MINUTE;
      var kept, tooLong := FilterAll(history, byAuth, now - TTL, live);
      if tooLong {
        Reset(now);
        return;
      }
      byAuth := kept;
      live := StillRecent(history, live, now - TTL);
      SubsetCount(live, old(live));
      byId, count := Rebuild(byAuth, live);
    }

    /** An execution begins. With no reset so far, the history is what an unbounded one would be. */
    method Observe(id: string, authId: string, authIndex: string, model: string, alias: string, endpoint: string,
                   serviceTier: string, stream: bool, now: int)
      requires Valid() && now >= clock && now > 0
      modifies this
      ensures Valid() && clock <= now
      ensures resets == 0 ==>
        var e := Execution(old(next), TrimSpace(id), authId);
        var o := Observation(authIndex, TrimSpace(model), TrimSpace(alias), endpoint, serviceTier, stream, now, 0, false);
        history == if e.id == "" || authId == "" || o.model == "" then old(history) else Observed(old(history), e, o)
      ensures now < unsafeUntil ==> history == old(history)
      ensures resets > old(resets) ==> old(Overdue(now)) || |old(live)| >= 4096
      ensures now >= unsafeUntil && TrimSpace(id) != "" && authId != "" && TrimSpace(model) != "" ==>
        var e := Execution(old(next), TrimSpace(id), authId);
        && e in history && e in live
        && history[e] == Observation(authIndex, TrimSpace(model), TrimSpace(alias), endpoint, serviceTier, stream, now, 0, false)
    {
      hide ByAuth, ById;
      var e := Execution(next, TrimSpace(id), authId);
      var o := Observation(authIndex, TrimSpace(model), TrimSpace(alias), endpoint, serviceTier, stream, now, 0, false);
      if e.id == "" || authId == "" || o.model == "" {
        return;
      }
      Cleanup(now);
      SubsetCount(live, old(live));
      if now < unsafeUntil {
        return;
      }
      if count >= MAX_OBSERVATIONS {
        Reset(now);
        return;
      }
      NoneForgottenIsOpen();
      CloseOpen(e.id, now);
      Insert(e, o);
    }

    /** With no reset so far, what was forgotten is not open. */
    lemma NoneForgottenIsOpen()
      requires Valid()
      ensures resets == 0 ==> forall id, now :: Closed(history, live, id, now) == Closed(history, history.Keys, id, now)
      ensures resets == 0 ==> forall id, end :: Completed(history, live, id, end) == Completed(history, history.Keys, id, end)
    {
    }

    method CloseOpen(id: string, now: int)
      requires Valid() && now > 0
      modifies `history
      ensures Valid() && history == Closed(old(history), live, id, now)
    {
      var items := Listed(byId, id);
      OneIdList(byId, live, id);
      hide RequestMetadataCache.Indexed;
      history := CloseList(history, items, now);
      assert history == Closed(old(history), live, id, now);
    }

    method Insert(e: Execution, o: Observation)
      requires Valid() && e.number == next && count < MAX_OBSERVATIONS && unsafeUntil <= o.start
      modifies `history, `live, `byAuth, `byId, `count, `next
      ensures Valid() && history == old(history)[e := o] && e in live
    {
      hide RequestMetadataCache.Indexed;
      assert e !in history && e !in live;
      PutLists(e);
      history, count, next := history[e := o], count + 1, next + 1;
    }

    method PutLists(e: Execution)
      requires Indexed() && e !in live
      modifies `byAuth, `byId, `live
      ensures Indexed() && live == old(live) + {e}
    {
      hide ByAuth, ById;
      AddedByAuth(byAuth, live, e);
      AddedById(byId, live, e);
      byAuth, byId, live := Added(byAuth, e.authId, e), Added(byId, e.id, e), live + {e};
    }

    /** An execution is complete. */
    method Complete(id: string, end: int, now: int)
      requires Valid() && now >= clock
      modifies this
      ensures Valid() && clock == now && (resets > old(resets) ==> old(Overdue(now)))
      ensures resets == 0 ==> history == if end == 0 || end > now then old(history)
                                          else Completed(old(history), old(history).Keys, TrimSpace(id), end)
    {
      hide ByAuth, ById;
      Cleanup(now);
      if end == 0 || end > now {
        return;
      }
      NoneForgottenIsOpen();
      EndOpen(TrimSpace(id), end);
    }

    method EndOpen(id: string, end: int)
      requires Valid() && end != 0
      modifies `history
      ensures Valid() && history == Completed(old(history), live, id, end)
    {
      var items := Listed(byId, id);
      OneIdList(byId, live, id);
      hide RequestMetadataCache.Indexed;
      history := EndList(history, items, end);
      assert history == Completed(old(history), live, id, end);
    }

    /** With no reset so far, a record that is not too old is enriched just as an unbounded history would do
        it; any other is left alone, and so are all until a suspension ends. */
    method Enrich(record: Usage, now: int) returns (result: Usage)
      requires Valid() && now >= clock
      modifies `byAuth, `byId, `count, `nextCleanup, `unsafeUntil, `live, `resets, `clock
      ensures Valid() && clock == now && (resets > old(resets) ==> old(Overdue(now)))
      ensures now < unsafeUntil || record.requestedAt == 0 || !(now - TTL <= record.requestedAt <= now) ==> result == record
      ensures resets == 0 && record.requestedAt != 0 && now - TTL <= record.requestedAt <= now && now >= unsafeUntil ==>
        Enriched(history, history.Keys, record, result)
      ensures record.requestedAt != 0 && now - TTL <= record.requestedAt <= now && now >= unsafeUntil ==>
        Enriched(history, live, record, result)
    {
      hide ByAuth, ById;
      Cleanup(now);
      if now < unsafeUntil || record.requestedAt == 0 || record.requestedAt < now - TTL || record.requestedAt > now {
        return record;
      }
      ForgottenDoNotMatter(record);
      result := EnrichLive(record);
    }

    lemma ForgottenDoNotMatter(record: Usage)
      requires Valid() && record.requestedAt >= clock - TTL
      ensures resets == 0 ==> Candidates(history, history.Keys, record) == Candidates(history, live, record)
    {
    }

    method EnrichLive(record: Usage) returns (result: Usage)
      requires Valid()
      ensures Enriched(history, live, record, result)
    {
      hide ById;
      var items := Listed(byAuth, TrimSpace(record.authId));
      OneList(byAuth, live, TrimSpace(record.authId));
      hide ByAuth;
      var matched, ambiguous, clash := Match(history, items, record);
      SameCandidates(history, items, live, record);
      hide Filled, Candidates, AllAgree, SameTier;
      result := record;
      if matched.Some? && !clash {
        result := Filled(record, history[matched.value], !ambiguous);
        SameForAll(history, Candidates(history, live, record), record, matched.value);
      }
    }
  }

  ghost function Members(s: seq<Execution>): set<Execution> {
    set e | e in s
  }

  lemma SameCandidates(h: History, items: seq<Execution>, live: set<Execution>, record: Usage)
    requires forall e :: e in items <==> e in live && e.authId == TrimSpace(record.authId)
    ensures Candidates(h, Members(items), record) == Candidates(h, live, record)
  {
  }

  /** Looks at the executions one by one, and stops at the first that disagrees with the one before. */
  method Match(h: History, items: seq<Execution>, record: Usage)
      returns (matched: Option<Execution>, ambiguous: bool, clash: bool)
    requires forall e | e in items :: e in h
    ensures var found := Candidates(h, Members(items), record);
            && clash == !AllAgree(h, found)
            && (!clash ==> (matched == None <==> found == {}) && (matched.Some? ==> matched.value in found)
                           && ambiguous == !SameTier(h, found))
  {
    hide Candidate;
    ghost var found: set<Execution> := {};
    matched, ambiguous, clash := None, false, false;
    var i := 0;
    while i < |items|
      invariant 0 <= i <= |items| && found == Candidates(h, Members(items[..i]), record)
      invariant !clash && AllAgree(h, found) && (matched == None <==> found == {}) && (matched.Some? ==> matched.value in found)
      invariant ambiguous == !SameTier(h, found)
    {
      var e := items[i];
      OneCandidate(h, items, i, record);
      if Candidate(e, h[e], record) {
        if matched.Some? && !Agree(h[matched.value], h[e]) {
          Clash(h, items, record, matched.value, e);
          return matched, ambiguous, true;
        }
        if matched.Some? && h[matched.value].serviceTier != h[e].serviceTier {
          ambiguous := true;
        }
        OneMore(h, found, matched, e);
        matched, found := Some(e), found + {e};
      }
      i := i + 1;
    }
    assert items[..i] == items;
  }

  lemma OneCandidate(h: History, items: seq<Execution>, i: nat, record: Usage)
    requires i < |items| && items[i] in h
    ensures Candidates(h, Members(items[..i + 1]), record)
         == Candidates(h, Members(items[..i]), record) + if Candidate(items[i], h[items[i]], record) then {items[i]} else {}
  {
    assert items[..i + 1] == items[..i] + [items[i]];
  }

  lemma Clash(h: History, items: seq<Execution>, record: Usage, a: Execution, b: Execution)
    requires a in items && b in items && a in h && b in h && Candidate(a, h[a], record) && Candidate(b, h[b], record)
    requires !Agree(h[a], h[b])
    ensures !AllAgree(h, Candidates(h, Members(items), record))
  {
    assert a in Candidates(h, Members(items), record) && b in Candidates(h, Members(items), record);
  }

  lemma {:induction false} SubsetCount(a: set<Execution>, b: set<Execution>)
    requires a <= b
    ensures |a| <= |b|
  {
    if a != {} {
      var x :| x in a;
      SubsetCount(a - {x}, b - {x});
    }
  }

  lemma OneMore(h: History, found: set<Execution>, matched: Option<Execution>, e: Execution)
    requires found <= h.Keys && e in h && (matched == None <==> found == {})
    requires matched.Some? ==> matched.value in found && AllAgree(h, found) && Agree(h[matched.value], h[e])
    ensures AllAgree(h, found + {e})
    ensures SameTier(h, found + {e})
      <==> SameTier(h, found) && (matched.Some? ==> h[matched.value].serviceTier == h[e].serviceTier)
  {
  }

  lemma SameForAll(h: History, found: set<Execution>, record: Usage, m: Execution)
    requires found <= h.Keys && m in found && AllAgree(h, found)
    ensures forall e | e in found :: Filled(record, h[e], SameTier(h, found)) == Filled(record, h[m], SameTier(h, found))
  {
  }
}
