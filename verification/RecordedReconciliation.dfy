/** Reconciling the recorded histories of all models: fallbacks are paired with natives across models,
    natives take over what their fallback knew, and fallbacks leave by descending index. */
module RecordedReconciliation {
  import opened Wrappers
  import opened Text
  import opened RangeBlocks
  import opened RecordBuckets
  import opened ProtocolEdge
  import opened CandidateBuckets
  import opened CandidateSearch
  import opened CandidateMatching
  import opened FallbackPairing
  import opened Reconciliation
  import opened RecordedChanges
  import opened ModelHistory
  import opened Histories

  // ----- the records of all models -----

  type Lists<D> = map<Owner, seq<Record<D>>>

  ghost function Flat<D>(t: map<Owner, Parts<D>>): Lists<D> {
    map k | k in t :: t[k].All()
  }

  ghost function Records<D(0,!new)>(m: Histories<D>): Lists<D>
    requires AllValid(m)
    reads Roots(m), Objects(m)
  {
    Flat(Table(m))
  }

  datatype Place = Place(owner: Owner, index: nat)

  ghost predicate Holds<D>(l: Lists<D>, p: Place) {
    p.owner in l && p.index < |l[p.owner]|
  }

  ghost function RecordAt<D>(l: Lists<D>, p: Place): Record<D>
    requires Holds(l, p)
  {
    l[p.owner][p.index]
  }

  /** How many records of each model are visible, and what the retained parts keep of the rest of a record. */
  datatype Layout<!R> = Layout(shown: map<Owner, nat>, keep: R -> R)
  {
    predicate Shows(p: Place) {
      p.owner in shown && p.index < shown[p.owner]
    }

    /** What storing a record at its place leaves of it. */
    function Stores(p: Place, r: Record<Stored<R>>): Record<Stored<R>> {
      if Shows(p) then r else Retained(Archiving(keep), r)
    }
  }

  ghost function ShownIn<D>(t: map<Owner, Parts<D>>): map<Owner, nat> {
    map k | k in t :: |t[k].visible|
  }

  /** The histories are laid out like this. */
  ghost predicate LaidOut<R(0,!new)>(m: Histories<Stored<R>>, layout: Layout<R>)
    requires AllValid(m)
    reads Roots(m), Objects(m)
  {
    layout.shown == ShownIn(Table(m)) && Keeping(m, Archiving(layout.keep))
  }

  /** The place of each record of the models in `done`, once. */
  ghost predicate PlacedIn<D>(places: seq<Place>, l: Lists<D>, done: set<Owner>) {
    && (forall i | 0 <= i < |places| :: Holds(l, places[i]) && places[i].owner in done)
    && (forall i, j | 0 <= i < j < |places| :: places[i] != places[j])
    && (forall p | Holds(l, p) && p.owner in done :: p in places)
  }

  ghost predicate Placed<D>(places: seq<Place>, l: Lists<D>) {
    PlacedIn(places, l, l.Keys)
  }

  function PlacesOf(k: Owner, n: nat): seq<Place> {
    seq(n, i requires 0 <= i < n => Place(k, i))
  }

  lemma PlacedMore<D>(places: seq<Place>, l: Lists<D>, done: set<Owner>, k: Owner)
    requires PlacedIn(places, l, done) && k in l && k !in done
    ensures PlacedIn(places + PlacesOf(k, |l[k]|), l, done + {k})
  {
    var more := PlacesOf(k, |l[k]|);
    var all := places + more;
    forall i | 0 <= i < |all| ensures Holds(l, all[i]) && all[i].owner in done + {k} {
      if i >= |places| {
        assert all[i] == Place(k, i - |places|);
      }
    }
    forall i, j | 0 <= i < j < |all| ensures all[i] != all[j] {
      if j >= |places| {
        assert all[j] == more[j - |places|];
        assert i < |places| ==> all[i] == places[i];
      }
    }
    forall p | Holds(l, p) && p.owner in done + {k} ensures p in all {
      if p.owner == k {
        assert more[p.index] == p;
      } else {
        assert p in places;
      }
    }
  }

  /** The records in the order of their places. */
  ghost predicate ReadFrom<D>(records: seq<Record<D>>, places: seq<Place>, l: Lists<D>) {
    |records| == |places| && forall i | 0 <= i < |places| :: Holds(l, places[i]) && records[i] == RecordAt(l, places[i])
  }

  lemma ReadMore<D>(records: seq<Record<D>>, places: seq<Place>, l: Lists<D>, k: Owner)
    requires ReadFrom(records, places, l) && k in l
    ensures ReadFrom(records + l[k], places + PlacesOf(k, |l[k]|), l)
  {
  }

  lemma ListAt<D(0,!new)>(m: Histories<D>, k: Owner)
    requires AllValid(m) && k in m
    ensures Records(m).Keys == m.Keys && m[k].Valid() && Records(m)[k] == m[k].All()
  {
    hide ModelHistory.Valid, ModelHistory.All, PartsOf;
    EachValid(m, k);
    PartsAll(m[k]);
  }

  method CollectAll<D(0,!new)>(m: Histories<D>) returns (places: seq<Place>, records: seq<Record<D>>)
    requires AllValid(m)
    ensures Placed(places, old(Records(m))) && ReadFrom(records, places, old(Records(m)))
  {
    hide AllValid, Records, Roots, Objects, ModelHistory.Valid, ModelHistory.All, PlacedIn, ReadFrom;
    PartsAllocated(m);
    ghost var l := Records(m);
    NoPlaces(l);
    FlatKeys(m);
    places, records := [], [];
    var rest := m.Keys;
    assert m.Keys - rest == {};
    while rest != {}
      invariant rest <= m.Keys && AllValid(m) && Records(m) == l
      invariant PlacedIn(places, l, m.Keys - rest) && ReadFrom(records, places, l)
      decreases rest
    {
      var k :| k in rest;
      ListAt(m, k);
      var s := ReadAll(m[k]);
      PlacedMore(places, l, m.Keys - rest, k);
      ReadMore(records, places, l, k);
      assert m.Keys - rest + {k} == m.Keys - (rest - {k});
      places, records := places + PlacesOf(k, |s|), records + s;
      rest := rest - {k};
    }
    assert m.Keys - rest == m.Keys;
  }

  lemma FlatKeys<D(0,!new)>(m: Histories<D>)
    requires AllValid(m)
    ensures Records(m).Keys == m.Keys
  {
    hide AllValid;
  }

  lemma NoPlaces<D>(l: Lists<D>)
    ensures PlacedIn([], l, {}) && ReadFrom([], [], l)
  {
  }

  // ----- the pairs -----

  /** A pair by the places of its records. */
  datatype PlaceLink = PlaceLink(fallback: Place, native: Place)

  ghost function PlaceLinks(pairs: seq<Pair>, places: seq<Place>): (links: seq<PlaceLink>)
    requires PairsUsedOnce(pairs, |places|)
    ensures |links| == |pairs|
  {
    seq(|pairs|, k requires 0 <= k < |pairs| => PlaceLink(places[pairs[k].fallback.index], places[pairs[k].native.index]))
  }

  /** Each record is used at most once, and a fallback is never also a native. */
  ghost predicate PlacesUsedOnce<D>(links: seq<PlaceLink>, l: Lists<D>) {
    && (forall k | 0 <= k < |links| :: Holds(l, links[k].fallback) && Holds(l, links[k].native))
    && (forall k, j | 0 <= k < j < |links| :: links[k].fallback != links[j].fallback && links[k].native != links[j].native)
    && (forall k, j | 0 <= k < |links| && 0 <= j < |links| :: links[k].fallback != links[j].native)
  }

  lemma DistinctPlaces<D>(places: seq<Place>, l: Lists<D>, i: nat, j: nat)
    requires Placed(places, l) && i < |places| && j < |places| && i != j
    ensures places[i] != places[j]
  {
  }

  lemma LinkedOnce<D>(pairs: seq<Pair>, places: seq<Place>, l: Lists<D>)
    requires PairsUsedOnce(pairs, |places|) && Placed(places, l)
    ensures PlacesUsedOnce(PlaceLinks(pairs, places), l)
  {
    hide Placed;
    var links := PlaceLinks(pairs, places);
    forall k | 0 <= k < |links| ensures Holds(l, links[k].fallback) && Holds(l, links[k].native) {
      PlaceHolds(places, l, pairs[k].fallback.index);
      PlaceHolds(places, l, pairs[k].native.index);
    }
    forall k, j | 0 <= k < j < |links| ensures links[k].fallback != links[j].fallback && links[k].native != links[j].native {
      assert pairs[k].fallback != pairs[j].fallback && pairs[k].native != pairs[j].native;
      DistinctPlaces(places, l, pairs[k].fallback.index, pairs[j].fallback.index);
      DistinctPlaces(places, l, pairs[k].native.index, pairs[j].native.index);
    }
    forall k, j | 0 <= k < |links| && 0 <= j < |links| ensures links[k].fallback != links[j].native {
      assert pairs[k].fallback != pairs[j].native;
      DistinctPlaces(places, l, pairs[k].fallback.index, pairs[j].native.index);
    }
  }

  lemma PlaceHolds<D>(places: seq<Place>, l: Lists<D>, i: nat)
    requires Placed(places, l) && i < |places|
    ensures Holds(l, places[i])
  {
  }

  // ----- enriching -----

  /** The native of a link with all that its fallback knew. */
  ghost function EnrichedAt<R>(l: Lists<Stored<R>>, link: PlaceLink): Record<Stored<R>>
    requires Holds(l, link.native) && Holds(l, link.fallback)
  {
    var r := RecordAt(l, link.native);
    r.(data := Enrich(r.data, RecordAt(l, link.fallback).data))
  }

  /** What of that is stored. */
  ghost function ImprovedAt<R>(l: Lists<Stored<R>>, layout: Layout<R>, link: PlaceLink): Record<Stored<R>>
    requires Holds(l, link.native) && Holds(l, link.fallback)
  {
    layout.Stores(link.native, EnrichedAt(l, link))
  }

  ghost predicate NativeAmong(links: seq<PlaceLink>, n: nat, p: Place) {
    exists k :: 0 <= k < n && k < |links| && links[k].native == p
  }

  /** The natives of the first `n` links carry what is stored of what their fallback knew; all other records
      are as before. */
  ghost predicate EnrichedFirst<R>(l: Lists<Stored<R>>, layout: Layout<R>, improved: Lists<Stored<R>>, links: seq<PlaceLink>, n: nat)
    requires PlacesUsedOnce(links, l) && n <= |links|
  {
    && improved.Keys == l.Keys && (forall k | k in l :: |improved[k]| == |l[k]|)
    && (forall k | 0 <= k < n :: RecordAt(improved, links[k].native) == ImprovedAt(l, layout, links[k]))
    && (forall p | Holds(l, p) && !NativeAmong(links, n, p) :: RecordAt(improved, p) == RecordAt(l, p))
  }

  lemma EnrichNext<R>(l: Lists<Stored<R>>, layout: Layout<R>, improved: Lists<Stored<R>>, links: seq<PlaceLink>, k: nat)
    requires PlacesUsedOnce(links, l) && k < |links| && EnrichedFirst(l, layout, improved, links, k)
    ensures var p := links[k].native;
      && Holds(improved, p) && RecordAt(improved, p) == RecordAt(l, p)
      && EnrichedFirst(l, layout, improved[p.owner := improved[p.owner][p.index := ImprovedAt(l, layout, links[k])]], links, k + 1)
  {
    hide ImprovedAt;
    var p := links[k].native;
    assert !NativeAmong(links, k, p) && NativeAmong(links, k + 1, p);
    forall q | Holds(l, q) && !NativeAmong(links, k + 1, q) ensures !NativeAmong(links, k, q) && q != p {
    }
    forall j | 0 <= j < k ensures links[j].native != p {
    }
  }

  lemma FlatAt<D>(t: map<Owner, Parts<D>>, k: Owner, p: Parts<D>)
    ensures Flat(t[k := p]) == Flat(t)[k := p.All()]
    ensures k in t && |t[k].visible| == |p.visible| ==> ShownIn(t[k := p]) == ShownIn(t)
  {
  }

  lemma VisibleOf<D(0,!new)>(m: Histories<D>, k: Owner)
    requires AllValid(m) && k in m
    ensures m[k].Valid() && k in Table(m) && Table(m)[k] == PartsOf(m[k])
    ensures k in ShownIn(Table(m)) && ShownIn(Table(m))[k] == |PartsOf(m[k]).visible|
    ensures m[k].window.details.InBounds() && PartsOf(m[k]).visible == m[k].window.Contents()
  {
    hide ModelHistory.Valid, PartsOf;
    EachValid(m, k);
    PartsVisible(m[k]);
  }

  method EnrichPlace<R(0,!new)>(m: Histories<Stored<R>>, p: Place, fallback: Stored<R>, ghost layout: Layout<R>)
    requires AllValid(m) && Holds(Records(m), p) && LaidOut(m, layout)
    modifies Objects(m)
    ensures AllValid(m) && forall o | o in Objects(m) && o !in old(Objects(m)) :: fresh(o)
    ensures LaidOut(m, layout)
    ensures var r := RecordAt(old(Records(m)), p);
      Records(m) == old(Records(m))[p.owner := old(Records(m))[p.owner][p.index :=
        layout.Stores(p, r.(data := Enrich(r.data, fallback)))]]
  {
    hide AllValid, Table, Flat, ShownIn, Objects, Roots, ModelHistory.Valid, ModelHistory.All, ModelHistory.Repr, PartsOf,
         Enrich, Retained;
    var k := p.owner;
    FlatKeys(m);
    ListAt(m, k);
    EachValid(m, k);
    VisibleOf(m, k);
    EnrichOne(m[k], p.index, fallback);
    OneChanged(m, k);
    PartsAll(m[k]);
    VisibleOf(m, k);
    FlatAt(old(Table(m)), k, PartsOf(m[k]));
  }

  method EnrichAll<R(0,!new)>(m: Histories<Stored<R>>, pairs: seq<Pair>, places: seq<Place>, records: seq<Record<Stored<R>>>,
                              ghost links: seq<PlaceLink>, ghost layout: Layout<R>)
    requires AllValid(m) && ReadFrom(records, places, Records(m)) && LaidOut(m, layout)
    requires PairsUsedOnce(pairs, |places|) && links == PlaceLinks(pairs, places) && PlacesUsedOnce(links, Records(m))
    modifies Objects(m)
    ensures AllValid(m) && forall o | o in Objects(m) && o !in old(Objects(m)) :: fresh(o)
    ensures EnrichedFirst(old(Records(m)), layout, Records(m), links, |links|)
  {
    hide AllValid, Records, Objects, Roots, Enrich, EnrichedFirst, PlacesUsedOnce, LaidOut, Layout.Stores;
    ghost var l := Records(m);
    EnrichedNone(l, layout, links);
    for i := 0 to |pairs|
      invariant AllValid(m) && forall o | o in Objects(m) && o !in old(Objects(m)) :: fresh(o)
      invariant EnrichedFirst(l, layout, Records(m), links, i) && LaidOut(m, layout)
    {
      var native, fallback := places[pairs[i].native.index], records[pairs[i].fallback.index].data;
      EnrichNext(l, layout, Records(m), links, i);
      EnrichPlace(m, native, fallback, layout);
    }
  }

  lemma EnrichedNone<R>(l: Lists<Stored<R>>, layout: Layout<R>, links: seq<PlaceLink>)
    requires PlacesUsedOnce(links, l)
    ensures EnrichedFirst(l, layout, l, links, 0)
  {
  }

  // ----- removals, by model -----

  /** How many records there are in all lists together. */
  ghost function Total<T>(l: map<Owner, seq<T>>): nat
    decreases |l|
  {
    if l == map[] then 0
    else
      var k :| k in l;
      |l[k]| + Total(l - {k})
  }

  lemma {:induction false} TotalWithout<T>(l: map<Owner, seq<T>>, k: Owner)
    requires k in l
    ensures Total(l) == |l[k]| + Total(l - {k})
    decreases |l|
  {
    var c :| c in l && Total(l) == |l[c]| + Total(l - {c});
    if c != k {
      TotalWithout(l - {c}, k);
      TotalWithout(l - {k}, c);
      assert l - {c} - {k} == l - {k} - {c};
    }
  }

  lemma TotalWith<T>(l: map<Owner, seq<T>>, k: Owner, s: seq<T>)
    ensures Total(l[k := s]) == Total(l) - (if k in l then |l[k]| else 0) + |s|
  {
    TotalWithout(l[k := s], k);
    assert l[k := s] - {k} == l - {k};
    if k in l {
      TotalWithout(l, k);
    } else {
      assert l - {k} == l;
    }
  }

  /** The positions in the list of `k` that hold a paired fallback. */
  ghost function RemovedAt(links: seq<PlaceLink>, k: Owner): set<Ref> {
    set link | link in links && link.fallback.owner == k :: Ref(link.fallback.index)
  }

  ghost function Members<T>(s: seq<T>): set<T> {
    set x | x in s
  }

  lemma MembersMore<T>(s: seq<T>, x: T)
    ensures Members(s + [x]) == Members(s) + {x}
  {
  }

  ghost predicate Different(refs: seq<Ref>) {
    forall i, j | 0 <= i < j < |refs| :: refs[i].index != refs[j].index
  }

  /** The paired fallbacks of each model, once. */
  ghost predicate Grouped(groups: map<Owner, seq<Ref>>, links: seq<PlaceLink>) {
    && (forall k | k in groups :: Different(groups[k]) && Members(groups[k]) == RemovedAt(links, k))
    && (forall k | k !in groups :: RemovedAt(links, k) == {})
    && (forall k | k in groups :: groups[k] != [])
    && Total(groups) == |links|
  }

  function GroupOf(groups: map<Owner, seq<Ref>>, k: Owner): seq<Ref> {
    if k in groups then groups[k] else []
  }

  lemma RemovedMore(links: seq<PlaceLink>, link: PlaceLink)
    requires forall i | 0 <= i < |links| :: links[i].fallback != link.fallback
    ensures forall k | k != link.fallback.owner :: RemovedAt(links + [link], k) == RemovedAt(links, k)
    ensures var k, r := link.fallback.owner, Ref(link.fallback.index);
      r !in RemovedAt(links, k) && RemovedAt(links + [link], k) == RemovedAt(links, k) + {r}
  {
  }

  lemma GroupedMore(groups: map<Owner, seq<Ref>>, links: seq<PlaceLink>, link: PlaceLink)
    requires Grouped(groups, links) && forall i | 0 <= i < |links| :: links[i].fallback != link.fallback
    ensures var k, r := link.fallback.owner, Ref(link.fallback.index);
      Grouped(groups[k := GroupOf(groups, k) + [r]], links + [link])
  {
    var k, r := link.fallback.owner, Ref(link.fallback.index);
    var refs := GroupOf(groups, k);
    RemovedMore(links, link);
    hide RemovedAt;
    MembersMore(refs, r);
    forall i | 0 <= i < |refs| ensures refs[i].index != r.index {
      assert refs[i] in Members(refs);
    }
    TotalWith(groups, k, refs + [r]);
  }

  method GroupByModel(pairs: seq<Pair>, places: seq<Place>, ghost links: seq<PlaceLink>) returns (groups: map<Owner, seq<Ref>>)
    requires PairsUsedOnce(pairs, |places|) && links == PlaceLinks(pairs, places)
    requires forall i, j | 0 <= i < j < |links| :: links[i].fallback != links[j].fallback
    ensures Grouped(groups, links)
  {
    hide Grouped;
    groups := map[];
    assert Grouped(groups, []) by {
      NoneGrouped();
    }
    for i := 0 to |pairs|
      invariant Grouped(groups, links[..i])
    {
      var removal := places[pairs[i].fallback.index];
      GroupedMore(groups, links[..i], links[i]);
      assert links[..i] + [links[i]] == links[..i + 1];
      groups := groups[removal.owner := GroupOf(groups, removal.owner) + [Ref(removal.index)]];
    }
    assert links[..|pairs|] == links;
  }

  lemma NoneGrouped()
    ensures Grouped(map[], [])
  {
  }

  lemma Inserted(a: seq<Ref>, r: Ref, b: seq<Ref>)
    requires Descending(a + b)
    requires (forall i | 0 <= i < |a| :: a[i].index > r.index) && (forall i | 0 <= i < |b| :: b[i].index < r.index)
    ensures Descending(a + [r] + b) && Members(a + [r] + b) == Members(a + b) + {r}
  {
    var s, t := a + b, a + [r] + b;
    forall k, l | 0 <= k < l < |t| ensures t[k].index > t[l].index {
      var i, j := if k < |a| then k else k - 1, if l < |a| then l else l - 1;
      assert k < |a| ==> t[k] == s[k] == a[k];
      assert k > |a| ==> t[k] == s[k - 1] == b[k - |a| - 1];
      assert l < |a| ==> t[l] == s[l];
      assert l > |a| ==> t[l] == s[l - 1] == b[l - |a| - 1];
      if k != |a| && l != |a| {
        assert s[i].index > s[j].index;
      }
    }
    MembersOfSum(a, b);
    MembersOfSum(a + [r], b);
    MembersOfSum(a, [r]);
  }

  lemma MembersOfSum<T>(s: seq<T>, t: seq<T>)
    ensures Members(s + t) == Members(s) + Members(t)
  {
    forall x | x in Members(s) + Members(t) ensures x in s + t {
    }
  }

  method InsertDescending(sorted: seq<Ref>, r: Ref) returns (longer: seq<Ref>)
    requires Descending(sorted) && r !in Members(sorted)
    ensures Descending(longer) && Members(longer) == Members(sorted) + {r} && |longer| == |sorted| + 1
  {
    var at := 0;
    while at < |sorted| && sorted[at].index > r.index
      invariant 0 <= at <= |sorted| && forall i | 0 <= i < at :: sorted[i].index > r.index
    {
      at := at + 1;
    }
    assert sorted == sorted[..at] + sorted[at..];
    forall i | at <= i < |sorted| ensures sorted[i].index < r.index {
      assert sorted[at] in Members(sorted);
    }
    Inserted(sorted[..at], r, sorted[at..]);
    longer := sorted[..at] + [r] + sorted[at..];
  }

  method SortDescending(refs: seq<Ref>) returns (sorted: seq<Ref>)
    requires Different(refs)
    ensures Descending(sorted) && Members(sorted) == Members(refs) && |sorted| == |refs|
  {
    sorted := [];
    for i := 0 to |refs|
      invariant Descending(sorted) && Members(sorted) == Members(refs[..i]) && |sorted| == i
    {
      assert refs[..i + 1] == refs[..i] + [refs[i]];
      MembersMore(refs[..i], refs[i]);
      sorted := InsertDescending(sorted, refs[i]);
    }
    assert refs[..|refs|] == refs;
  }

  lemma AllRefs(refs: seq<Ref>)
    ensures FirstRefs(refs, |refs|) == Members(refs)
  {
  }

  method RemoveSorted<D(0,!new)>(m: Histories<D>, k: Owner, refs: seq<Ref>)
    requires AllValid(m) && k in Records(m) && Descending(refs)
    requires forall i | 0 <= i < |refs| :: refs[i].index < |Records(m)[k]|
    modifies Objects(m)
    ensures AllValid(m) && forall o | o in Objects(m) && o !in old(Objects(m)) :: fresh(o)
    ensures Records(m) == old(Records(m))[k := Without(old(Records(m))[k], Members(refs), 0)]
    ensures |Records(m)[k]| == |old(Records(m))[k]| - |refs|
  {
    hide AllValid, Table, Flat, Objects, Roots, ModelHistory.Valid, ModelHistory.All, ModelHistory.Repr, PartsOf, Without,
         Descending;
    FlatKeys(m);
    ListAt(m, k);
    EachValid(m, k);
    AllRefs(refs);
    RemovalsShorten(Records(m)[k], refs);
    RemoveDescending(m[k], refs);
    OneChanged(m, k);
    PartsAll(m[k]);
    FlatAt(old(Table(m)), k, PartsOf(m[k]));
  }

  method RemoveGroup<D(0,!new)>(m: Histories<D>, k: Owner, refs: seq<Ref>)
    requires AllValid(m) && k in Records(m) && Different(refs)
    requires forall r | r in Members(refs) :: r.index < |Records(m)[k]|
    modifies Objects(m)
    ensures AllValid(m) && forall o | o in Objects(m) && o !in old(Objects(m)) :: fresh(o)
    ensures Records(m) == old(Records(m))[k := Without(old(Records(m))[k], Members(refs), 0)]
    ensures |Records(m)[k]| == |old(Records(m))[k]| - |refs|
  {
    hide AllValid, Records, Objects, Roots, Without, Descending, Different, Members;
    PartsAllocated(m);
    var sorted := SortDescending(refs);
    EachMember(sorted);
    RemoveSorted(m, k, sorted);
  }

  lemma EachMember<T>(s: seq<T>)
    ensures forall i | 0 <= i < |s| :: s[i] in Members(s)
  {
  }

  /** The paired fallbacks of the models in `done` are gone. */
  ghost function RemovedIn<D>(l: Lists<D>, links: seq<PlaceLink>, done: set<Owner>): Lists<D> {
    map k | k in l :: if k in done then Without(l[k], RemovedAt(links, k), 0) else l[k]
  }

  lemma RemovedNext<D>(l: Lists<D>, links: seq<PlaceLink>, done: set<Owner>, k: Owner)
    requires k in l && k !in done
    ensures k in RemovedIn(l, links, done) && RemovedIn(l, links, done)[k] == l[k]
    ensures RemovedIn(l, links, done)[k := Without(l[k], RemovedAt(links, k), 0)] == RemovedIn(l, links, done + {k})
  {
    hide Without;
  }

  lemma GroupFits<D>(groups: map<Owner, seq<Ref>>, links: seq<PlaceLink>, l: Lists<D>, k: Owner)
    requires Grouped(groups, links) && PlacesUsedOnce(links, l) && k in groups
    ensures k in l && Different(groups[k]) && Members(groups[k]) == RemovedAt(links, k)
    ensures forall r | r in Members(groups[k]) :: r.index < |l[k]|
  {
    assert groups[k][0] in Members(groups[k]);
  }

  /** Nothing leaves where no fallback was paired. */
  lemma OthersKept<D>(groups: map<Owner, seq<Ref>>, links: seq<PlaceLink>, l: Lists<D>)
    requires Grouped(groups, links)
    ensures RemovedIn(l, links, groups.Keys) == RemovedIn(l, links, l.Keys)
  {
    forall k | k in l && k !in groups ensures Without(l[k], RemovedAt(links, k), 0) == l[k] {
      WithoutNothing(l[k], 0);
    }
  }

  lemma NoneRemoved<D>(l: Lists<D>, links: seq<PlaceLink>, groups: map<Owner, seq<Ref>>)
    ensures RemovedIn(l, links, {}) == l && groups - groups.Keys == map[] && Total(groups - groups.Keys) == 0
  {
  }

  lemma TotalOfGroup(groups: map<Owner, seq<Ref>>, rest: set<Owner>, k: Owner)
    requires k in rest && rest <= groups.Keys
    ensures Total(groups - (rest - {k})) == Total(groups - rest) + |groups[k]|
  {
    assert groups - (rest - {k}) == (groups - rest)[k := groups[k]];
    TotalWith(groups - rest, k, groups[k]);
  }

  lemma TotalChanged<T>(l: map<Owner, seq<T>>, m: map<Owner, seq<T>>, k: Owner)
    requires k in l && k in m && m == l[k := m[k]]
    ensures Total(m) == Total(l) - |l[k]| + |m[k]|
  {
    TotalWith(l, k, m[k]);
  }

  method RemoveAll<D(0,!new)>(m: Histories<D>, groups: map<Owner, seq<Ref>>, ghost links: seq<PlaceLink>)
    requires AllValid(m) && Grouped(groups, links) && PlacesUsedOnce(links, Records(m))
    modifies Objects(m)
    ensures AllValid(m) && forall o | o in Objects(m) && o !in old(Objects(m)) :: fresh(o)
    ensures Records(m) == RemovedIn(old(Records(m)), links, old(Records(m)).Keys)
    ensures Total(Records(m)) == Total(old(Records(m))) - |links|
  {
    hide AllValid, Records, Objects, Roots, RemovedAt, RemovedIn, Without, PlacesUsedOnce, Total, Grouped;
    ghost var l := Records(m);
    NoneRemoved(l, links, groups);
    var rest := groups.Keys;
    assert groups.Keys - rest == {};
    while rest != {}
      invariant rest <= groups.Keys && AllValid(m)
      invariant forall o | o in Objects(m) && o !in old(Objects(m)) :: fresh(o)
      invariant Records(m) == RemovedIn(l, links, groups.Keys - rest)
      invariant Total(Records(m)) + Total(groups - rest) == Total(l)
      decreases rest
    {
      var k :| k in rest;
      GroupFits(groups, links, l, k);
      RemovedNext(l, links, groups.Keys - rest, k);
      TotalOfGroup(groups, rest, k);
      ghost var before := Records(m);
      RemoveGroup(m, k, groups[k]);
      TotalChanged(before, Records(m), k);
      assert groups.Keys - rest + {k} == groups.Keys - (rest - {k});
      rest := rest - {k};
    }
    AllGrouped(groups, links, l);
  }

  lemma AllGrouped<D>(groups: map<Owner, seq<Ref>>, links: seq<PlaceLink>, l: Lists<D>)
    requires Grouped(groups, links)
    ensures groups.Keys - {} == groups.Keys && Total(groups - {}) == |links|
    ensures RemovedIn(l, links, groups.Keys - {}) == RemovedIn(l, links, l.Keys)
  {
    assert groups - {} == groups && groups.Keys - {} == groups.Keys;
    OthersKept(groups, links, l);
  }

  // ----- the reconciliation -----

  function ObserveRecords<R>(records: seq<Record<Stored<R>>>, places: seq<Place>,
                                   observe: (Record<Stored<R>>, Place) -> Observation): (obs: seq<Observation>)
    requires |records| == |places|
  {
    seq(|places|, i requires 0 <= i < |places| => observe(records[i], places[i]))
  }

  /** What a reconciliation along the links makes of the records. */
  ghost predicate Reconciled<R>(l: Lists<Stored<R>>, layout: Layout<R>, reconciled: Lists<Stored<R>>,
                                improved: Lists<Stored<R>>, links: seq<PlaceLink>)
    requires PlacesUsedOnce(links, l)
  {
    && EnrichedFirst(l, layout, improved, links, |links|) && reconciled == RemovedIn(improved, links, improved.Keys)
    && Total(reconciled) == Total(l) - |links|
  }

  lemma {:induction false} SameTotal<S, T>(l: map<Owner, seq<S>>, m: map<Owner, seq<T>>)
    requires l.Keys == m.Keys && forall k | k in l :: |l[k]| == |m[k]|
    ensures Total(l) == Total(m)
    decreases |l|
  {
    if l != map[] {
      var k :| k in l;
      assert k in m;
      SameTotal(l - {k}, m - {k});
      TotalWithout(l, k);
      TotalWithout(m, k);
    } else {
      assert m == map[];
    }
  }

  lemma SameUses<R>(l: Lists<Stored<R>>, layout: Layout<R>, improved: Lists<Stored<R>>, links: seq<PlaceLink>)
    requires PlacesUsedOnce(links, l) && EnrichedFirst(l, layout, improved, links, |links|)
    ensures PlacesUsedOnce(links, improved) && Total(improved) == Total(l)
  {
    SameTotal(l, improved);
  }

  method Apply<R(0,!new)>(m: Histories<Stored<R>>, pairs: seq<Pair>, places: seq<Place>, records: seq<Record<Stored<R>>>,
                          ghost links: seq<PlaceLink>, ghost layout: Layout<R>) returns (ghost improved: Lists<Stored<R>>)
    requires AllValid(m) && ReadFrom(records, places, Records(m)) && LaidOut(m, layout)
    requires PairsUsedOnce(pairs, |places|) && links == PlaceLinks(pairs, places) && PlacesUsedOnce(links, Records(m))
    modifies Objects(m)
    ensures AllValid(m) && forall o | o in Objects(m) && o !in old(Objects(m)) :: fresh(o)
    ensures Reconciled(old(Records(m)), layout, Records(m), improved, links)
  {
    hide AllValid, Records, Objects, Roots, RemovedIn, Total, EnrichedFirst, Grouped, LaidOut;
    EnrichAll(m, pairs, places, records, links, layout);
    improved := Records(m);
    SameUses(old(Records(m)), layout, improved, links);
    PartsAllocated(m);
    var groups := GroupByModel(pairs, places, links);
    RemoveAll(m, groups, links);
  }

  lemma NothingReconciled<R>(l: Lists<Stored<R>>, layout: Layout<R>)
    ensures Reconciled(l, layout, l, l, [])
  {
    forall k | k in l ensures Without(l[k], RemovedAt([], k), 0) == l[k] {
      assert RemovedAt([], k) == {};
      WithoutNothing(l[k], 0);
    }
  }

  /** Natives are no fallbacks, so none of them leaves, and each is found with what is stored of what its
      fallback knew: all of it where the native is visible, what the retained part stores where it is not. */
  lemma NativesStay<R>(l: Lists<Stored<R>>, layout: Layout<R>, reconciled: Lists<Stored<R>>, improved: Lists<Stored<R>>,
                       links: seq<PlaceLink>, i: nat)
    requires PlacesUsedOnce(links, l) && Reconciled(l, layout, reconciled, improved, links) && i < |links|
    ensures Ref(links[i].native.index) !in RemovedAt(links, links[i].native.owner)
    ensures links[i].native.owner in reconciled && ImprovedAt(l, layout, links[i]) in reconciled[links[i].native.owner]
  {
    var p := links[i].native;
    KeptInOrder(improved[p.owner], RemovedAt(links, p.owner), p.index);
  }

  /** The retained records have nothing that the retained part does not store. */
  ghost predicate RetainedReduced<R>(l: Lists<Stored<R>>, layout: Layout<R>) {
    forall p | Holds(l, p) && !layout.Shows(p) :: Retained(Archiving(layout.keep), RecordAt(l, p)) == RecordAt(l, p)
  }

  lemma LaidOutReduced<R(0,!new)>(m: Histories<Stored<R>>, layout: Layout<R>)
    requires AllValid(m) && LaidOut(m, layout)
    ensures RetainedReduced(Records(m), layout)
  {
    forall p | Holds(Records(m), p) && !layout.Shows(p)
      ensures Retained(Archiving(layout.keep), RecordAt(Records(m), p)) == RecordAt(Records(m), p)
    {
      hide AllValid, Objects, Roots;
      FlatKeys(m);
      ListAt(m, p.owner);
      VisibleOf(m, p.owner);
      OneReduced(m[p.owner], p.index);
    }
  }

  lemma OneReduced<D(0,!new)>(h: ModelHistory<D>, i: nat)
    requires h.Valid() && |h.window.Contents()| <= i < |h.All()|
    ensures Retained(h.keep, h.All()[i]) == h.All()[i]
  {
    assert h.All()[i] == h.archive.Contents()[i - |h.window.Contents()|];
  }

  /** The fallback knows a thinking, a tier or a stream that the native lacks. */
  predicate KnowsMore<R>(native: Stored<R>, fallback: Stored<R>) {
    || (native.thinking == None && fallback.thinking != None)
    || (native.serviceTier == "" && TrimSpace(fallback.serviceTier) != "")
    || (!native.stream && fallback.stream)
  }

  /** A native carries all that its fallback knew if and only if it is visible, or the fallback knew nothing
      of what the retained part does not store. */
  lemma CarriesAllIff<R>(l: Lists<Stored<R>>, layout: Layout<R>, link: PlaceLink)
    requires Holds(l, link.native) && Holds(l, link.fallback) && RetainedReduced(l, layout)
    ensures ImprovedAt(l, layout, link) == EnrichedAt(l, link) <==>
      layout.Shows(link.native) || !KnowsMore(RecordAt(l, link.native).data, RecordAt(l, link.fallback).data)
  {
  }

  /** Reconciling recorded histories removes exactly the fallbacks of an optimal pairing among the records
      of all models. Natives stay and are enriched in place, whichever model they belong to and as far as
      their place stores it, every other record stays as it is, in order, and as many records leave as there
      are pairs. */
  method ReconcileRecorded<R(0,!new)>(m: Histories<Stored<R>>, observe: (Record<Stored<R>>, Place) -> Observation,
                                      ghost layout: Layout<R>)
      returns (removed: nat, ghost places: seq<Place>, ghost records: seq<Record<Stored<R>>>, ghost pairs: seq<Pair>,
               ghost plan: Plan, ghost improved: Lists<Stored<R>>)
    requires AllValid(m) && LaidOut(m, layout) && forall r, p :: Observed(observe(r, p))
    modifies Objects(m)
    ensures AllValid(m) && forall o | o in Objects(m) && o !in old(Objects(m)) :: fresh(o)
    ensures Placed(places, old(Records(m))) && ReadFrom(records, places, old(Records(m)))
    ensures var obs := ObserveRecords(records, places, observe);
            AllEdges(plan.edges, RecordsOf(obs)) && plan.Decided(pairs, OrdersOf(obs))
    ensures PairsUsedOnce(pairs, |places|) && PlacesUsedOnce(PlaceLinks(pairs, places), old(Records(m)))
    ensures Reconciled(old(Records(m)), layout, Records(m), improved, PlaceLinks(pairs, places)) && removed == |pairs|
    ensures RetainedReduced(old(Records(m)), layout)
  {
    hide AllValid, Records, Objects, Roots, AllEdges, Plan.Decided, RecordsOf, OrdersOf, Placed, Reconciled,
         PairsUsedOnce, PlacesUsedOnce, LaidOut, RetainedReduced;
    PartsAllocated(m);
    ghost var l := Records(m);
    LaidOutReduced(m, layout);
    var at, values := CollectAll(m);
    var found;
    found, plan := PairDetails(ObserveRecords(values, at, observe));
    PlanUsesOnce(ObserveRecords(values, at, observe), found, plan);
    LinkedOnce(found, at, l);
    places, records, pairs, removed := at, values, found, |found|;
    if found == [] {
      improved := l;
      NothingReconciled(l, layout);
      return;
    }
    improved := Apply(m, found, at, values, PlaceLinks(found, at), layout);
  }
}
