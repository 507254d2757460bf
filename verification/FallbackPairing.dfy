/** Pairing fallbacks with natives over all partitions. */
module FallbackPairing {
  import opened Sequences
  import opened Wrappers
  import opened StableOrder
  import opened ProtocolEdge
  import opened CandidateBuckets
  import opened RecordBuckets
  import opened CandidateSearch
  import opened CandidateMatching
  import opened PartitionUnion

  // ----- from observations to candidates -----

  ghost predicate AllObserved(obs: seq<Observation>) {
    forall i | 0 <= i < |obs| :: Observed(obs[i])
  }

  function RecordsOf(obs: seq<Observation>): Records {
    Records(obs, seq(|obs|, i requires 0 <= i < |obs| => PartitionKey(obs[i])),
            seq(|obs|, i requires 0 <= i < |obs| => obs[i].order.completion))
  }

  function EntriesOf(obs: seq<Observation>): seq<Entry> {
    seq(|obs|, i requires 0 <= i < |obs| => Entry(obs[i].role, ShapeKeys(obs[i])))
  }

  ghost predicate AlikeNames(rs: Records, f: Ref, n: Ref) {
    f.index < |rs.obs| && n.index < |rs.obs| && SameIdentity(rs.obs[f.index], rs.obs[n.index])
  }

  /** What a search of the full product of all records would find: the edges between records whose
      lower-cased names agree. */
  ghost predicate IsProduct(c: Candidates, rs: Records) {
    forall p, f, n :: Has(c, p, f, n) <==> rs.EdgeOf(p, f, n) && AlikeNames(rs, f, n)
  }

  lemma MeetIffAlike(obs: seq<Observation>, fallbacks: Buckets, natives: Buckets, p: string, f: Ref, n: Ref)
    requires AllObserved(obs) && RecordsOf(obs).EdgeOf(p, f, n)
    requires FilledOnly(fallbacks, EntriesOf(obs), |obs|, Fallback) && FilledAll(fallbacks, EntriesOf(obs), |obs|, Fallback)
    requires FilledOnly(natives, EntriesOf(obs), |obs|, Native) && FilledAll(natives, EntriesOf(obs), |obs|, Native)
    ensures (exists key :: key in fallbacks.Keys && Meet(fallbacks, natives, key, f, n)) <==> AlikeNames(RecordsOf(obs), f, n)
  {
    EdgeInBucket(obs[f.index], obs[n.index]);
    MeetIffShared(fallbacks, natives, EntriesOf(obs), f, n);
  }

  method AllCandidates(obs: seq<Observation>) returns (c: Candidates)
    requires AllObserved(obs)
    ensures Exact(c, RecordsOf(obs)) && NoneEmpty(c) && IsProduct(c, RecordsOf(obs))
  {
    var fallbacks, natives := FillBuckets(EntriesOf(obs));
    var rs := RecordsOf(obs);
    c := CollectEdges(rs, fallbacks, natives);
    forall p, f, n | rs.EdgeOf(p, f, n) ensures Has(c, p, f, n) <==> AlikeNames(rs, f, n) {
      MeetIffAlike(obs, fallbacks, natives, p, f, n);
    }
  }

  // ----- the pairs -----

  datatype Pair = Pair(fallback: Ref, native: Ref, distance: int)

  function PairFor(f: Ref, matched: map<Ref, Ref>, edges: map<Ref, map<Ref, Edge>>): Pair
    requires f in matched && f in edges && matched[f] in edges[f]
  {
    Pair(f, matched[f], edges[f][matched[f]].distance)
  }

  ghost predicate Within(matched: map<Ref, Ref>, edges: map<Ref, map<Ref, Edge>>) {
    forall f | f in matched :: f in edges && matched[f] in edges[f]
  }

  /** The pairs are those of the assignment, each fallback's once, with the distance of its edge. */
  ghost predicate Listed(pairs: seq<Pair>, matched: map<Ref, Ref>, edges: map<Ref, map<Ref, Edge>>)
    requires Within(matched, edges)
  {
    && (forall pair | pair in pairs :: pair.fallback in matched && pair == PairFor(pair.fallback, matched, edges))
    && (forall f | f in matched :: PairFor(f, matched, edges) in pairs)
    && (forall i, j | 0 <= i < j < |pairs| :: pairs[i].fallback != pairs[j].fallback)
  }

  method ListPairs(fallbacks: seq<Ref>, matched: map<Ref, Ref>, edges: map<Ref, map<Ref, Edge>>) returns (pairs: seq<Pair>)
    requires Within(matched, edges) && Distinct(fallbacks) && forall f | f in matched :: f in fallbacks
    ensures Listed(pairs, matched, edges)
  {
    pairs := [];
    var k := 0;
    while k < |fallbacks|
      invariant 0 <= k <= |fallbacks|
      invariant forall pair | pair in pairs ::
        pair.fallback in matched && pair == PairFor(pair.fallback, matched, edges) && pair.fallback in fallbacks[..k]
      invariant forall f | f in matched && f in fallbacks[..k] :: PairFor(f, matched, edges) in pairs
      invariant forall i, j | 0 <= i < j < |pairs| :: pairs[i].fallback != pairs[j].fallback
    {
      assert fallbacks[..k + 1] == fallbacks[..k] + [fallbacks[k]];
      assert fallbacks[k] !in fallbacks[..k];
      if fallbacks[k] in matched {
        pairs := pairs + [PairFor(fallbacks[k], matched, edges)];
      }
      k := k + 1;
    }
    assert fallbacks[..k] == fallbacks;
  }

  lemma ListedUnion(pairs: seq<Pair>, matched: map<Ref, Ref>, edges: map<Ref, map<Ref, Edge>>,
                    more: seq<Pair>, matchedMore: map<Ref, Ref>, edgesMore: map<Ref, map<Ref, Edge>>)
    requires Within(matched, edges) && Within(matchedMore, edgesMore)
    requires Listed(pairs, matched, edges) && Listed(more, matchedMore, edgesMore)
    requires edges.Keys !! edgesMore.Keys
    ensures Within(matched + matchedMore, edges + edgesMore)
    ensures Listed(pairs + more, matched + matchedMore, edges + edgesMore)
  {
  }

  // ----- partition by partition -----

  function OrdersOf(obs: seq<Observation>): map<Ref, Order> {
    map i | 0 <= i < |obs| :: Ref(i) := obs[i].order
  }

  function NativesOf(edges: map<Ref, map<Ref, Edge>>): set<Ref> {
    set f, n | f in edges && n in edges[f] :: n
  }

  /** An assignment, with what it was chosen from: the records in order, their edges, and the natives
      of each fallback as ranked. */
  datatype Plan = Plan(matched: map<Ref, Ref>, ranked: seq<seq<Ref>>, fallbacks: seq<Ref>, natives: seq<Ref>,
                       edges: map<Ref, map<Ref, Edge>>)
  {
    ghost predicate Decided(pairs: seq<Pair>, orders: map<Ref, Order>) {
      && Lists(fallbacks, edges.Keys) && Lists(natives, NativesOf(edges))
      && IsRanking(ranked, fallbacks, natives, edges, orders)
      && IsBest(matched, ranked, fallbacks, natives, edges)
      && Within(matched, edges) && Listed(pairs, matched, edges)
    }

    /** No assignment of as many pairs is stronger, or as strong and closer in time, or both and of earlier
        ranks; and none has more pairs. */
    ghost predicate Strongest() {
      && |ranked| == |fallbacks| && IsAssignment(matched, fallbacks, natives, edges)
      && IsStrongest(matched, ranked, fallbacks, natives, edges)
      && forall a | IsAssignment(a, fallbacks, natives, edges) :: |a| <= |matched|
    }

    lemma DecidedIsStrongest(pairs: seq<Pair>, orders: map<Ref, Order>)
      requires Decided(pairs, orders)
      ensures Strongest()
    {
      hide IsStrongest, AssignmentCost;
      BestIsStrongest(matched, ranked, fallbacks, natives, edges);
    }

    ghost function Join(other: Plan): Plan {
      Plan(matched + other.matched, ranked + other.ranked, fallbacks + other.fallbacks, natives + other.natives,
           edges + other.edges)
    }
  }

  method PairPartition(edges: map<Ref, map<Ref, Edge>>, orders: map<Ref, Order>) returns (pairs: seq<Pair>, ghost plan: Plan)
    requires forall f | f in edges :: f in orders
    requires forall n | n in NativesOf(edges) :: n in orders
    ensures plan.Decided(pairs, orders) && plan.edges == edges
  {
    var fs := Sort(edges.Keys, orders);
    var ns := Sort(NativesOf(edges), orders);
    var m, rank := MatchCandidates(fs, ns, edges, orders);
    pairs := ListPairs(fs, m, edges);
    plan := Plan(m, rank, fs, ns, edges);
  }

  lemma ListsUnion(s: seq<Ref>, a: set<Ref>, t: seq<Ref>, b: set<Ref>)
    requires Lists(s, a) && Lists(t, b) && a !! b
    ensures Lists(s + t, a + b) && Apart(s, t)
  {
    forall x | x in a + b ensures x in s + t {
    }
  }

  lemma NativesOfUnion(edges: map<Ref, map<Ref, Edge>>, more: map<Ref, map<Ref, Edge>>)
    requires edges.Keys !! more.Keys
    ensures NativesOf(edges + more) == NativesOf(edges) + NativesOf(more)
  {
    var all := edges + more;
    forall n | n in NativesOf(edges) ensures n in NativesOf(all) {
      var f :| f in edges && n in edges[f];
      assert f in all && n in all[f];
    }
    forall n | n in NativesOf(more) ensures n in NativesOf(all) {
      var f :| f in more && n in more[f];
      assert f in all && n in all[f];
    }
  }

  lemma ClosedByLists(fallbacks: seq<Ref>, natives: seq<Ref>, edges: map<Ref, map<Ref, Edge>>)
    requires Lists(fallbacks, edges.Keys) && Lists(natives, NativesOf(edges))
    ensures Closed(fallbacks, natives, edges)
  {
  }

  lemma RecordsUnion(a: Plan, b: Plan)
    requires Lists(a.fallbacks, a.edges.Keys) && Lists(a.natives, NativesOf(a.edges))
    requires Lists(b.fallbacks, b.edges.Keys) && Lists(b.natives, NativesOf(b.edges))
    requires a.edges.Keys !! b.edges.Keys && NativesOf(a.edges) !! NativesOf(b.edges)
    ensures Closed(a.fallbacks, a.natives, a.edges) && Closed(b.fallbacks, b.natives, b.edges)
    ensures Apart(a.fallbacks, b.fallbacks) && Apart(a.natives, b.natives)
    ensures Lists(a.fallbacks + b.fallbacks, (a.edges + b.edges).Keys)
    ensures Lists(a.natives + b.natives, NativesOf(a.edges + b.edges))
  {
    ListsUnion(a.fallbacks, a.edges.Keys, b.fallbacks, b.edges.Keys);
    ListsUnion(a.natives, NativesOf(a.edges), b.natives, NativesOf(b.edges));
    assert (a.edges + b.edges).Keys == a.edges.Keys + b.edges.Keys;
    NativesOfUnion(a.edges, b.edges);
    ClosedByLists(a.fallbacks, a.natives, a.edges);
    ClosedByLists(b.fallbacks, b.natives, b.edges);
  }

  /** Plans for record sets that share nothing join into a plan for all of their records. */
  lemma JoinDecided(a: Plan, pairs: seq<Pair>, b: Plan, more: seq<Pair>, orders: map<Ref, Order>)
    requires a.Decided(pairs, orders) && b.Decided(more, orders)
    requires a.edges.Keys !! b.edges.Keys && NativesOf(a.edges) !! NativesOf(b.edges)
    ensures a.Join(b).Decided(pairs + more, orders)
  {
    RecordsUnion(a, b);
    UnionOfBest(a.matched, a.ranked, a.fallbacks, a.natives, a.edges, b.matched, b.ranked, b.fallbacks, b.natives, b.edges);
    RankingOfUnion(a.ranked, a.fallbacks, a.natives, a.edges, b.ranked, b.fallbacks, b.natives, b.edges, orders);
    ListedUnion(pairs, a.matched, a.edges, more, b.matched, b.edges);
  }

  // ----- all partitions -----

  /** Both records of an edge belong to its partition. */
  ghost predicate Separated(c: Candidates, partitions: seq<string>) {
    forall p, f, n | Has(c, p, f, n) ::
      f.index < |partitions| && n.index < |partitions| && partitions[f.index] == p && partitions[n.index] == p
  }

  lemma ProductSeparated(c: Candidates, obs: seq<Observation>)
    requires IsProduct(c, RecordsOf(obs))
    ensures Separated(c, RecordsOf(obs).partitions)
  {
  }

  /** The edges of the partitions in `done`, over all their fallbacks. */
  ghost predicate Merged(edges: map<Ref, map<Ref, Edge>>, c: Candidates, partitions: seq<string>, done: set<string>) {
    && (forall f | f in edges :: f.index < |partitions| && partitions[f.index] in done
          && partitions[f.index] in c && f in c[partitions[f.index]] && edges[f] == c[partitions[f.index]][f])
    && (forall p, f | p in done && p in c && f in c[p] :: f in edges)
  }

  lemma PartitionRecords(c: Candidates, partitions: seq<string>, p: string)
    requires NoneEmpty(c) && Separated(c, partitions) && p in c
    ensures forall f | f in c[p] :: f.index < |partitions| && partitions[f.index] == p
    ensures forall n | n in NativesOf(c[p]) :: n.index < |partitions| && partitions[n.index] == p
  {
    forall f | f in c[p] ensures f.index < |partitions| && partitions[f.index] == p {
      assert c[p][f] != map[];
      var n :| n in c[p][f];
      assert Has(c, p, f, n);
    }
    forall n | n in NativesOf(c[p]) ensures n.index < |partitions| && partitions[n.index] == p {
      var f :| f in c[p] && n in c[p][f];
      assert Has(c, p, f, n);
    }
  }

  lemma MergedRecords(c: Candidates, partitions: seq<string>, edges: map<Ref, map<Ref, Edge>>, done: set<string>)
    requires Separated(c, partitions) && Merged(edges, c, partitions, done)
    ensures forall n | n in NativesOf(edges) :: n.index < |partitions| && partitions[n.index] in done
  {
    forall n | n in NativesOf(edges) ensures n.index < |partitions| && partitions[n.index] in done {
      var f :| f in edges && n in edges[f];
      assert Has(c, partitions[f.index], f, n);
    }
  }

  /** The next partition shares no record with those already decided. */
  lemma PartitionApart(c: Candidates, partitions: seq<string>, edges: map<Ref, map<Ref, Edge>>, done: set<string>, p: string)
    requires NoneEmpty(c) && Separated(c, partitions) && Merged(edges, c, partitions, done) && p in c && p !in done
    ensures edges.Keys !! c[p].Keys && NativesOf(edges) !! NativesOf(c[p])
    ensures Merged(edges + c[p], c, partitions, done + {p})
  {
    PartitionRecords(c, partitions, p);
    MergedRecords(c, partitions, edges, done);
  }

  method PairNext(c: Candidates, orders: map<Ref, Order>, ghost partitions: seq<string>, p: string, pairs: seq<Pair>,
                  ghost plan: Plan, ghost done: set<string>) returns (all: seq<Pair>, ghost whole: Plan)
    requires NoneEmpty(c) && Separated(c, partitions) && p in c && p !in done
    requires forall r: Ref | r.index < |partitions| :: r in orders
    requires Merged(plan.edges, c, partitions, done) && plan.Decided(pairs, orders)
    ensures Merged(whole.edges, c, partitions, done + {p}) && whole.Decided(all, orders)
  {
    PartitionApart(c, partitions, plan.edges, done, p);
    PartitionRecords(c, partitions, p);
    var more;
    ghost var next;
    more, next := PairPartition(c[p], orders);
    JoinDecided(plan, pairs, next, more, orders);
    all, whole := pairs + more, plan.Join(next);
  }

  lemma EmptyPlan(orders: map<Ref, Order>) returns (plan: Plan)
    ensures plan.Decided([], orders) && plan.edges == map[]
  {
    plan := Plan(map[], [], [], [], map[]);
  }

  method SortNames(names: set<string>) returns (s: seq<string>)
    ensures Lists(s, names)
  {
    s := Sort(names, map p | p in names :: Order(0, 0, p, "", "", "", "", 0));
  }

  method PairPartitions(c: Candidates, orders: map<Ref, Order>, ghost partitions: seq<string>)
      returns (pairs: seq<Pair>, ghost plan: Plan)
    requires NoneEmpty(c) && Separated(c, partitions)
    requires forall r: Ref | r.index < |partitions| :: r in orders
    ensures plan.Decided(pairs, orders) && Merged(plan.edges, c, partitions, c.Keys)
  {
    var names := SortNames(c.Keys);
    ghost var done: set<string> := {};
    plan := EmptyPlan(orders);
    pairs := [];
    var k := 0;
    while k < |names|
      invariant 0 <= k <= |names| && done <= c.Keys
      invariant forall i | 0 <= i < |names| :: names[i] in done <==> i < k
      invariant Merged(plan.edges, c, partitions, done)
      invariant plan.Decided(pairs, orders)
    {
      pairs, plan := PairNext(c, orders, partitions, names[k], pairs, plan, done);
      done := done + {names[k]};
      k := k + 1;
    }
    assert done == c.Keys;
  }

  /** Every edge between records with alike names, and no other. */
  ghost predicate AllEdges(edges: map<Ref, map<Ref, Edge>>, rs: Records) {
    && (forall f, n :: f in edges && n in edges[f] <==> rs.Between(f, n).Some? && AlikeNames(rs, f, n))
    && (forall f, n | f in edges && n in edges[f] :: rs.Between(f, n) == Some(edges[f][n]))
  }

  lemma MergedIsAll(c: Candidates, rs: Records, edges: map<Ref, map<Ref, Edge>>)
    requires |rs.partitions| == |rs.obs|
    requires Exact(c, rs) && IsProduct(c, rs) && Merged(edges, c, rs.partitions, c.Keys)
    ensures AllEdges(edges, rs)
  {
    forall f, n | f in edges && n in edges[f]
      ensures rs.Between(f, n) == Some(edges[f][n]) && AlikeNames(rs, f, n)
    {
      assert Has(c, rs.partitions[f.index], f, n);
    }
    forall f, n | rs.Between(f, n).Some? && AlikeNames(rs, f, n) ensures f in edges && n in edges[f] {
      assert rs.EdgeOf(rs.partitions[f.index], f, n);
      assert Has(c, rs.partitions[f.index], f, n);
    }
  }

  predicate HasFallback(obs: seq<Observation>) {
    exists i | 0 <= i < |obs| :: obs[i].role == Fallback
  }

  /** Said of the observations: the edges are those between alike ones. */
  ghost predicate EdgesAre(edges: map<Ref, map<Ref, Edge>>, obs: seq<Observation>) {
    && (forall f: Ref, n: Ref :: f in edges && n in edges[f] <==>
          f.index < |obs| && n.index < |obs| && EdgeBetween(obs[f.index], obs[n.index]).Some? && SameIdentity(obs[f.index], obs[n.index]))
    && (forall f: Ref, n: Ref | f.index < |obs| && n.index < |obs| && f in edges && n in edges[f] ::
          EdgeBetween(obs[f.index], obs[n.index]) == Some(edges[f][n]))
  }

  /** The pairs are those of the assignment, each with the distance of its edge. */
  ghost predicate PairsAre(pairs: seq<Pair>, matched: map<Ref, Ref>, edges: map<Ref, map<Ref, Edge>>) {
    && (forall pair | pair in pairs ::
          && pair.fallback in matched && matched[pair.fallback] == pair.native
          && pair.fallback in edges && pair.native in edges[pair.fallback]
          && edges[pair.fallback][pair.native].distance == pair.distance)
    && (forall f | f in matched :: exists pair :: pair in pairs && pair.fallback == f)
  }

  /** And natives are ranked by the order of their observations. */
  ghost predicate RankedByOrder(ranked: seq<seq<Ref>>, obs: seq<Observation>) {
    forall i, k, l | 0 <= i < |ranked| && 0 <= k < l < |ranked[i]| ::
      && ranked[i][k].index < |obs| && ranked[i][l].index < |obs|
      && !obs[ranked[i][l].index].order.Less(obs[ranked[i][k].index].order)
  }

  lemma NoEdges(obs: seq<Observation>)
    requires !HasFallback(obs)
    ensures AllEdges(map[], RecordsOf(obs))
  {
  }

  lemma AllEdgesAre(edges: map<Ref, map<Ref, Edge>>, obs: seq<Observation>)
    requires AllEdges(edges, RecordsOf(obs))
    ensures EdgesAre(edges, obs)
  {
    hide EdgeBetween, SameIdentity;
    assert forall f: Ref, n: Ref ::
      RecordsOf(obs).Between(f, n)
      == if f.index < |obs| && n.index < |obs| then EdgeBetween(obs[f.index], obs[n.index]) else None;
  }

  lemma ListedAre(pairs: seq<Pair>, matched: map<Ref, Ref>, edges: map<Ref, map<Ref, Edge>>)
    requires Within(matched, edges) && Listed(pairs, matched, edges)
    ensures PairsAre(pairs, matched, edges)
  {
    forall f | f in matched ensures exists pair :: pair in pairs && pair.fallback == f {
      assert PairFor(f, matched, edges) in pairs;
    }
  }

  lemma RankingIsByOrder(ranked: seq<seq<Ref>>, fallbacks: seq<Ref>, natives: seq<Ref>, edges: map<Ref, map<Ref, Edge>>,
                         obs: seq<Observation>)
    requires IsRanking(ranked, fallbacks, natives, edges, OrdersOf(obs))
    ensures RankedByOrder(ranked, obs)
  {
    hide Order.Less;
    forall i, k, l | 0 <= i < |ranked| && 0 <= k < l < |ranked[i]|
      ensures ranked[i][k].index < |obs| && ranked[i][l].index < |obs|
      ensures !obs[ranked[i][l].index].order.Less(obs[ranked[i][k].index].order)
    {
      var r := ranked[i];
      assert r[k] in OrdersOf(obs) && r[l] in OrdersOf(obs);
      OrderIs(obs, r[k]);
      OrderIs(obs, r[l]);
      assert !OrdersOf(obs)[r[l]].Less(OrdersOf(obs)[r[k]]);
    }
  }

  lemma OrderIs(obs: seq<Observation>, r: Ref)
    requires r in OrdersOf(obs)
    ensures r.index < |obs| && OrdersOf(obs)[r] == obs[r.index].order
  {
  }

  /** Over all partitions together the pairs are a largest assignment among all edges between records
      with alike names, and one of least cost: no pairing of the whole graph is better. */
  method PairDetails(obs: seq<Observation>) returns (pairs: seq<Pair>, ghost plan: Plan)
    requires AllObserved(obs)
    ensures AllEdges(plan.edges, RecordsOf(obs)) && plan.Decided(pairs, OrdersOf(obs)) && plan.Strongest()
    ensures EdgesAre(plan.edges, obs) && PairsAre(pairs, plan.matched, plan.edges) && RankedByOrder(plan.ranked, obs)
  {
    hide Plan.Strongest, EdgesAre, PairsAre, RankedByOrder, IsRanking, IsBest, Within, Listed, AllEdges, AllObserved;
    if !HasFallback(obs) {
      plan := EmptyPlan(OrdersOf(obs));
      pairs := [];
      plan.DecidedIsStrongest(pairs, OrdersOf(obs));
      NoEdges(obs);
      AllEdgesAre(plan.edges, obs);
      ListedAre(pairs, plan.matched, plan.edges);
      RankingIsByOrder(plan.ranked, plan.fallbacks, plan.natives, plan.edges, obs);
      return;
    }
    var c := AllCandidates(obs);
    ProductSeparated(c, obs);
    pairs, plan := PairPartitions(c, OrdersOf(obs), RecordsOf(obs).partitions);
    MergedIsAll(c, RecordsOf(obs), plan.edges);
    plan.DecidedIsStrongest(pairs, OrdersOf(obs));
    AllEdgesAre(plan.edges, obs);
    ListedAre(pairs, plan.matched, plan.edges);
    RankingIsByOrder(plan.ranked, plan.fallbacks, plan.natives, plan.edges, obs);
  }
}
