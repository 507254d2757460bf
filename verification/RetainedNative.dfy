/** A reconciliation that loses what a fallback knew: the native had moved to the retained part. */
module RetainedNative {
  import opened Wrappers
  import opened Text
  import opened BlockList
  import opened SlidingWindow
  import opened RangeBlocks
  import opened StableOrder
  import opened RecordBuckets
  import opened ProtocolEdge
  import opened CandidateBuckets
  import opened CandidateSearch
  import opened CandidateMatching
  import opened FallbackPairing
  import opened Reconciliation
  import opened RecordedChanges
  import opened ModelHistory
  import opened Histories
  import opened RecordedReconciliation

  const MODEL := Owner("api", "s")

  const NATIVE := Record(SECOND, Stored(false, "/v1/responses", "s", None, "", false, Role.Native))
  const FALLBACK := Record(SECOND, Stored(false, "/v1/responses", "s", None, "", true, Role.Fallback))

  const WHOLE: Role -> Role := role => role

  function Watch(r: Record<Stored<Role>>, p: Place): Observation {
    Observe(LongSRecord(r.data.rest, "s", SECOND, if r.data.rest == Role.Native then 500 else 0), p.index)
  }

  lemma EdgeOfExample(f: nat, n: nat)
    ensures var o, q := Watch(FALLBACK, Place(MODEL, f)), Watch(NATIVE, Place(MODEL, n));
      EdgeBetween(o, q).Some? && SameIdentity(o, q)
  {
    var o, q := Watch(FALLBACK, Place(MODEL, f)), Watch(NATIVE, Place(MODEL, n));
    assert TrimSpace(o.model) == "s" && TrimSpace(o.client) == "client";
    assert BestShared(o.tokens.shapes, q.tokens.shapes, -1) == 180;
  }

  lemma BestNotEmpty(matched: map<Ref, Ref>, ranked: seq<seq<Ref>>, fallbacks: seq<Ref>, natives: seq<Ref>,
                     edges: map<Ref, map<Ref, Edge>>, f: Ref, n: Ref)
    requires |ranked| == |fallbacks| && IsBest(matched, ranked, fallbacks, natives, edges)
    requires f in fallbacks && n in natives && f in edges && n in edges[f]
    ensures matched != map[]
  {
    hide AssignmentCost;
    var a := map[f := n];
    assert IsAssignment(a, fallbacks, natives, edges);
    assert |a| == 1;
  }

  /** Where two alike records have an edge, there is a pair. */
  lemma SomePair(obs: seq<Observation>, pairs: seq<Pair>, plan: Plan, f: Ref, n: Ref)
    requires AllEdges(plan.edges, RecordsOf(obs)) && plan.Decided(pairs, OrdersOf(obs))
    requires RecordsOf(obs).Between(f, n).Some? && AlikeNames(RecordsOf(obs), f, n)
    ensures pairs != []
  {
    hide IsBest, RecordsOf, OrdersOf, AlikeNames, Records.Between;
    assert f in plan.edges && n in plan.edges[f];
    assert n in NativesOf(plan.edges);
    BestNotEmpty(plan.matched, plan.ranked, plan.fallbacks, plan.natives, plan.edges, f, n);
    var g :| g in plan.matched;
    assert PairFor(g, plan.matched, plan.edges) in pairs;
  }

  // ----- the run -----

  lemma ArchivingSettles()
    ensures Settles(Archiving(WHOLE)) && Retained(Archiving(WHOLE), NATIVE) == NATIVE
    ensures Retained(Archiving(WHOLE), NATIVE.(data := Enrich(NATIVE.data, FALLBACK.data))) == NATIVE
    ensures Enrich(NATIVE.data, FALLBACK.data).stream
  {
  }

  method FillRetained(h: ModelHistory<Stored<Role>>, r: Record<Stored<Role>>)
    requires h.Valid() && PartsOf(h) == Parts([], []) && Retained(h.keep, r) == r
    modifies h.Repr()
    ensures h.Valid() && PartsOf(h) == Parts([], [r]) && fresh(h.Repr() - old(h.Repr()))
  {
    hide BlockList.Valid, BlockList.Contents, RangeBlocks.Describes, Settles, Reduced, Retained, InsertAt, SortedByTime;
    h.Append(r, true);
  }

  method FillVisible(h: ModelHistory<Stored<Role>>, r: Record<Stored<Role>>)
    requires h.Valid() && PartsOf(h).visible == []
    modifies h.Repr()
    ensures h.Valid() && PartsOf(h) == Parts([r], old(PartsOf(h)).retained) && fresh(h.Repr() - old(h.Repr()))
  {
    hide BlockList.Valid, BlockList.Contents, RangeBlocks.Describes, Settles, Reduced, Retained, SortedByTime;
    h.Append(r, false);
  }

  method FillFirst(m: Histories<Stored<Role>>, r: Record<Stored<Role>>)
    requires AllValid(m) && MODEL in m && Table(m)[MODEL] == Parts([], []) && Retained(m[MODEL].keep, r) == r
    modifies m[MODEL].Repr()
    ensures AllValid(m) && Table(m) == old(Table(m))[MODEL := Parts([], [r])]
    ensures forall o | o in Objects(m) && o !in old(Objects(m)) :: fresh(o)
  {
    hide ModelHistory.Valid, ModelHistory.Repr, PartsOf, Roots, Objects, AllValid, Table, Retained, MODEL;
    EachValid(m, MODEL);
    VisibleOf(m, MODEL);
    FillRetained(m[MODEL], r);
    OneChanged(m, MODEL);
  }

  method FillSecond(m: Histories<Stored<Role>>, r: Record<Stored<Role>>)
    requires AllValid(m) && MODEL in m && Table(m)[MODEL].visible == []
    modifies m[MODEL].Repr()
    ensures AllValid(m) && Table(m) == old(Table(m))[MODEL := Parts([r], old(Table(m))[MODEL].retained)]
    ensures forall o | o in Objects(m) && o !in old(Objects(m)) :: fresh(o)
  {
    hide ModelHistory.Valid, ModelHistory.Repr, PartsOf, Roots, Objects, AllValid, Table, MODEL;
    EachValid(m, MODEL);
    VisibleOf(m, MODEL);
    FillVisible(m[MODEL], r);
    OneChanged(m, MODEL);
  }

  lemma NoHistories(m: Histories<Stored<Role>>)
    requires m == map[]
    ensures AllValid(m) && Table(m) == map[] && Objects(m) == {}
  {
  }

  method Begin() returns (m: Histories<Stored<Role>>)
    ensures AllValid(m) && forall o | o in Objects(m) :: fresh(o)
    ensures Table(m) == map[MODEL := Parts([FALLBACK], [NATIVE])] && Keeping(m, Archiving(WHOLE))
  {
    hide ModelHistory.Valid, ModelHistory.Repr, PartsOf, AllValid, Table, Objects, Roots, NATIVE, FALLBACK, Archiving, Settles,
         Retained, MODEL;
    ArchivingSettles();
    m := map[];
    NoHistories(m);
    m := Create(m, MODEL, NATIVE, Archiving(WHOLE));
    EachValid(m, MODEL);
    FillFirst(m, NATIVE);
    EachValid(m, MODEL);
    FillSecond(m, FALLBACK);
  }

  // ----- its pairs -----

  ghost predicate BothPlaces(places: seq<Place>, records: seq<Record<Stored<Role>>>, f: nat, n: nat) {
    && |places| == |records| == 2 && {f, n} == {0, 1}
    && places[f] == Place(MODEL, 0) && records[f] == FALLBACK && places[n] == Place(MODEL, 1) && records[n] == NATIVE
  }

  lemma PlacesOfExample(l: Lists<Stored<Role>>, places: seq<Place>, records: seq<Record<Stored<Role>>>) returns (f: nat, n: nat)
    requires l == map[MODEL := [FALLBACK, NATIVE]] && Placed(places, l) && ReadFrom(records, places, l)
    ensures BothPlaces(places, records, f, n)
  {
    hide NATIVE, FALLBACK;
    assert Holds(l, Place(MODEL, 0)) && Holds(l, Place(MODEL, 1));
    f :| f < |places| && places[f] == Place(MODEL, 0);
    n :| n < |places| && places[n] == Place(MODEL, 1);
    var both := {Place(MODEL, 0), Place(MODEL, 1)};
    forall k | 0 <= k < |places| ensures places[k] in both {
      assert Holds(l, places[k]) && places[k].owner == MODEL;
    }
    ListsSize(places, both);
  }

  lemma EdgeOfPlaces(obs: seq<Observation>, f: nat, n: nat)
    requires f < |obs| && n < |obs| && EdgeBetween(obs[f], obs[n]).Some? && SameIdentity(obs[f], obs[n])
    ensures RecordsOf(obs).Between(Ref(f), Ref(n)).Some? && AlikeNames(RecordsOf(obs), Ref(f), Ref(n))
  {
    hide EdgeBetween, SameIdentity;
  }

  /** The fallback and the native are the only pair. */
  lemma PairOfExample(places: seq<Place>, records: seq<Record<Stored<Role>>>, f: nat, n: nat, pairs: seq<Pair>, plan: Plan)
    requires BothPlaces(places, records, f, n)
    requires var obs := ObserveRecords(records, places, Watch);
      AllEdges(plan.edges, RecordsOf(obs)) && plan.Decided(pairs, OrdersOf(obs))
    ensures |pairs| == 1 && pairs[0].fallback == Ref(f) && pairs[0].native == Ref(n)
  {
    hide Watch, AllEdges, Plan.Decided, RecordsOf, OrdersOf, NATIVE, FALLBACK, EdgeBetween, SameIdentity, Records.Between, AlikeNames;
    var obs := ObserveRecords(records, places, Watch);
    assert obs[f] == Watch(FALLBACK, Place(MODEL, 0)) && obs[n] == Watch(NATIVE, Place(MODEL, 1));
    EdgeOfExample(0, 1);
    EdgeOfPlaces(obs, f, n);
    SomePair(obs, pairs, plan, Ref(f), Ref(n));
    RolesOfExample();
    forall k | 0 <= k < |pairs| ensures pairs[k].fallback == Ref(f) && pairs[k].native == Ref(n) {
      PairRoles(obs, pairs, plan, k);
    }
    if |pairs| > 1 {
      PairsApart(obs, pairs, plan, 0, 1);
    }
  }

  lemma RolesOfExample()
    ensures Watch(FALLBACK, Place(MODEL, 0)).role == Role.Fallback && Watch(NATIVE, Place(MODEL, 1)).role == Role.Native
  {
  }

  /** What the links do to the records of the example. */
  lemma ReconciledExample(l: Lists<Stored<Role>>, layout: Layout<Role>, reconciled: Lists<Stored<Role>>,
                          improved: Lists<Stored<Role>>, links: seq<PlaceLink>)
    requires l == map[MODEL := [FALLBACK, NATIVE]] && layout == Layout(map[MODEL := 1], WHOLE)
    requires links == [PlaceLink(Place(MODEL, 0), Place(MODEL, 1))] && PlacesUsedOnce(links, l)
    requires Reconciled(l, layout, reconciled, improved, links)
    ensures reconciled == map[MODEL := [NATIVE]]
  {
    hide NATIVE, FALLBACK, Archiving, Enrich;
    ArchivingSettles();
    assert RecordAt(improved, links[0].native) == NATIVE;
    assert Holds(l, Place(MODEL, 0)) && !NativeAmong(links, 1, Place(MODEL, 0));
    assert improved[MODEL] == [FALLBACK, NATIVE];
    assert RemovedAt(links, MODEL) == {Ref(0)};
    DropFirst(FALLBACK, NATIVE);
  }

  lemma DropFirst<T>(a: T, b: T)
    ensures Without([a, b], {Ref(0)}, 0) == [b]
  {
    assert [a, b][1..] == [b];
    assert Without([b], {Ref(0)}, 1) == [b] + Without([], {Ref(0)}, 2);
  }

  lemma StartOfExample(m: Histories<Stored<Role>>)
    requires AllValid(m) && Table(m) == map[MODEL := Parts([FALLBACK], [NATIVE])] && Keeping(m, Archiving(WHOLE))
    ensures RecordedReconciliation.Records(m) == map[MODEL := [FALLBACK, NATIVE]]
    ensures LaidOut(m, Layout(map[MODEL := 1], WHOLE))
  {
    hide AllValid, Objects, Roots, NATIVE, FALLBACK, Archiving;
    assert Parts([FALLBACK], [NATIVE]).All() == [FALLBACK, NATIVE];
  }

  /** The fallback knew that the request was a stream. The native is retained: it is found where it was,
      the fallback is gone, and nothing says any more that there was a stream. */
  method StreamIsLost() returns (m: Histories<Stored<Role>>, removed: nat, ghost before: Lists<Stored<Role>>)
    ensures AllValid(m) && before == map[MODEL := [FALLBACK, NATIVE]] && FALLBACK.data.stream
    ensures removed == 1 && RecordedReconciliation.Records(m) == map[MODEL := [NATIVE]] && !NATIVE.data.stream
  {
    hide AllValid, Table, Objects, Roots, Keeping, AllEdges, Plan.Decided, RecordsOf, OrdersOf, Placed, Reconciled, PlacesUsedOnce,
         Watch, ReadFrom, LaidOut, RecordedReconciliation.Records, Observed;
    m := Begin();
    before := RecordedReconciliation.Records(m);
    StartOfExample(m);
    WatchIsObserved();
    ghost var layout := Layout(map[MODEL := 1], WHOLE);
    ghost var places, records, pairs, plan, improved;
    removed, places, records, pairs, plan, improved := ReconcileRecorded(m, Watch, layout);
    ghost var f, n := PlacesOfExample(before, places, records);
    PairOfExample(places, records, f, n, pairs, plan);
    ReconciledExample(before, layout, RecordedReconciliation.Records(m), improved, PlaceLinks(pairs, places));
  }

  lemma WatchIsObserved()
    ensures forall r, p :: Observed(Watch(r, p))
  {
  }
}
