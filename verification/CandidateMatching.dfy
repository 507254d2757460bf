/** Choosing the pairs of one partition: from record ids and their candidate edges to an optimal
    assignment of fallbacks to natives. */
module CandidateMatching {
  import opened Sequences
  import opened FlowCost
  import opened AssignmentDuality
  import opened MatchingNetwork
  import opened FlowMatching
  import opened MinimumCostMatching
  import opened StableOrder
  import ProtocolEdge

  type Edge = ProtocolEdge.Edge

  function IndexOf<K(==)>(s: seq<K>, x: K): (i: int)
    ensures x in s ==> 0 <= i < |s| && s[i] == x
    ensures x !in s ==> i == |s|
  {
    if s == [] then 0 else if s[0] == x then 0 else 1 + IndexOf(s[1..], x)
  }

  lemma IndexOfUnique<K>(s: seq<K>, i: nat)
    requires Distinct(s) && i < |s|
    ensures IndexOf(s, s[i]) == i
  {
  }

  // ----- what is wanted -----

  /** Pairs of candidates only, each fallback and each native at most once. */
  ghost predicate IsAssignment<K>(a: map<K, K>, fallbacks: seq<K>, natives: seq<K>, candidates: map<K, map<K, Edge>>) {
    && (forall f | f in a :: f in fallbacks && a[f] in natives && f in candidates && a[f] in candidates[f])
    && (forall f, g | f in a && g in a && f != g :: a[f] != a[g])
  }

  /** For every fallback its candidate natives, in the stable order that ranks them. */
  ghost predicate IsRanking<K>(ranked: seq<seq<K>>, fallbacks: seq<K>, natives: seq<K>, candidates: map<K, map<K, Edge>>,
                               orders: map<K, Order>)
  {
    && |ranked| == |fallbacks|
    && forall i | 0 <= i < |fallbacks| ::
         && Lists(ranked[i], CandidatesOf(fallbacks[i], natives, candidates))
         && (forall k | 0 <= k < |ranked[i]| :: ranked[i][k] in orders)
         && Sorted(ranked[i], orders)
  }

  function CandidatesOf<K(==)>(f: K, natives: seq<K>, candidates: map<K, map<K, Edge>>): set<K> {
    if f in candidates then set n | n in natives && n in candidates[f] else {}
  }

  function PairCost(edge: Edge, rank: int): Cost {
    Cost(-edge.strength, edge.distance, rank)
  }

  ghost function AssignmentCosts<K>(a: map<K, K>, fallbacks: seq<K>, candidates: map<K, map<K, Edge>>, ranked: seq<seq<K>>): (s: seq<Cost>)
    requires |ranked| == |fallbacks|
    requires forall f | f in a :: f in candidates && a[f] in candidates[f]
    ensures |s| == |fallbacks|
  {
    seq(|fallbacks|, i requires 0 <= i < |fallbacks| =>
      if fallbacks[i] in a then PairCost(candidates[fallbacks[i]][a[fallbacks[i]]], IndexOf(ranked[i], a[fallbacks[i]]))
      else Cost(0, 0, 0))
  }

  ghost function AssignmentCost<K>(a: map<K, K>, fallbacks: seq<K>, candidates: map<K, map<K, Edge>>, ranked: seq<seq<K>>): Cost
    requires |ranked| == |fallbacks|
    requires forall f | f in a :: f in candidates && a[f] in candidates[f]
  {
    Sum(AssignmentCosts(a, fallbacks, candidates, ranked), |fallbacks|)
  }

  // ----- positions in the network -----

  ghost function Positions<K>(a: map<K, K>, fallbacks: seq<K>, natives: seq<K>): (m: seq<int>)
    ensures |m| == |fallbacks|
  {
    seq(|fallbacks|, i requires 0 <= i < |fallbacks| =>
      if fallbacks[i] in a then IndexOf(natives, a[fallbacks[i]]) else -1)
  }

  function ListOf<K(==)>(ranked: seq<K>, natives: seq<K>, edges: map<K, Edge>): (list: seq<(int, Cost)>)
    requires forall k | 0 <= k < |ranked| :: ranked[k] in edges
    ensures |list| == |ranked|
  {
    seq(|ranked|, k requires 0 <= k < |ranked| => (IndexOf(natives, ranked[k]), PairCost(edges[ranked[k]], k)))
  }

  ghost predicate ListsMatch<K>(lists: CandidateLists, ranked: seq<seq<K>>, fallbacks: seq<K>, natives: seq<K>,
                                candidates: map<K, map<K, Edge>>)
  {
    && |lists| == |ranked| == |fallbacks|
    && forall i | 0 <= i < |fallbacks| ::
         var edges := if fallbacks[i] in candidates then candidates[fallbacks[i]] else map[];
         (forall k | 0 <= k < |ranked[i]| :: ranked[i][k] in edges) && lists[i] == ListOf(ranked[i], natives, edges)
  }

  ghost predicate Setting<K(!new)>(lists: CandidateLists, ranked: seq<seq<K>>, fallbacks: seq<K>, natives: seq<K>,
                             candidates: map<K, map<K, Edge>>, orders: map<K, Order>)
  {
    && Distinct(fallbacks) && Distinct(natives)
    && IsRanking(ranked, fallbacks, natives, candidates, orders)
    && ListsMatch(lists, ranked, fallbacks, natives, candidates)
  }

  lemma ListsWellFormed<K(!new)>(lists: CandidateLists, ranked: seq<seq<K>>, fallbacks: seq<K>, natives: seq<K>,
                           candidates: map<K, map<K, Edge>>, orders: map<K, Order>)
    requires Setting(lists, ranked, fallbacks, natives, candidates, orders)
    ensures WellFormed(lists, |natives|)
  {
    forall f, k | 0 <= f < |lists| && 0 <= k < |lists[f]| ensures 0 <= lists[f][k].0 < |natives| {
      assert ranked[f][k] in CandidatesOf(fallbacks[f], natives, candidates);
    }
    forall f, k, l | 0 <= f < |lists| && 0 <= k < l < |lists[f]| ensures lists[f][k].0 != lists[f][l].0 {
      assert ranked[f][k] in CandidatesOf(fallbacks[f], natives, candidates);
      assert ranked[f][l] in CandidatesOf(fallbacks[f], natives, candidates);
    }
  }

  /** Every candidate pair is an arc of the network, at its own cost. */
  lemma PairIsArc<K(!new)>(lists: CandidateLists, ranked: seq<seq<K>>, fallbacks: seq<K>, natives: seq<K>,
                     candidates: map<K, map<K, Edge>>, orders: map<K, Order>, i: nat, n: K)
    requires Setting(lists, ranked, fallbacks, natives, candidates, orders) && WellFormed(lists, |natives|)
    requires i < |fallbacks| && fallbacks[i] in candidates && n in candidates[fallbacks[i]] && n in natives
    ensures var arcs := ArcsOf(lists, |natives|, false);
            && (i, IndexOf(natives, n)) in arcs && n in ranked[i]
            && arcs[(i, IndexOf(natives, n))] == PairCost(candidates[fallbacks[i]][n], IndexOf(ranked[i], n))
  {
    assert n in CandidatesOf(fallbacks[i], natives, candidates);
    ArcCost(lists, |natives|, false, i, IndexOf(ranked[i], n));
  }

  /** And every arc of the network is a candidate pair. */
  lemma ArcIsPair<K(!new)>(lists: CandidateLists, ranked: seq<seq<K>>, fallbacks: seq<K>, natives: seq<K>,
                     candidates: map<K, map<K, Edge>>, orders: map<K, Order>, a: (int, int))
    requires Setting(lists, ranked, fallbacks, natives, candidates, orders) && WellFormed(lists, |natives|)
    requires a in ArcsOf(lists, |natives|, false)
    ensures 0 <= a.0 < |fallbacks| && 0 <= a.1 < |natives|
    ensures fallbacks[a.0] in candidates && natives[a.1] in candidates[fallbacks[a.0]]
  {
    var f, k :| 0 <= f < |lists| && 0 <= k < |lists[f]| && a == (f, lists[f][k].0);
    assert ranked[f][k] in CandidatesOf(fallbacks[f], natives, candidates);
  }

  lemma AssignmentIsMatching<K(!new)>(lists: CandidateLists, ranked: seq<seq<K>>, fallbacks: seq<K>, natives: seq<K>,
                                candidates: map<K, map<K, Edge>>, orders: map<K, Order>, a: map<K, K>)
    requires Setting(lists, ranked, fallbacks, natives, candidates, orders) && WellFormed(lists, |natives|)
    requires IsAssignment(a, fallbacks, natives, candidates)
    ensures IsMatching(|natives|, ArcsOf(lists, |natives|, false), Positions(a, fallbacks, natives))
    ensures TotalCost(ArcsOf(lists, |natives|, false), Positions(a, fallbacks, natives))
         == AssignmentCost(a, fallbacks, candidates, ranked)
  {
    var m, arcs := Positions(a, fallbacks, natives), ArcsOf(lists, |natives|, false);
    forall i: nat | i < |m| ensures m[i] == -1 || (0 <= m[i] < |natives| && (i, m[i]) in arcs) {
      if fallbacks[i] in a {
        PairIsArc(lists, ranked, fallbacks, natives, candidates, orders, i, a[fallbacks[i]]);
      }
    }
    forall i | 0 <= i < |m| ensures Costs(arcs, m)[i] == AssignmentCosts(a, fallbacks, candidates, ranked)[i] {
      if fallbacks[i] in a {
        PairIsArc(lists, ranked, fallbacks, natives, candidates, orders, i, a[fallbacks[i]]);
      }
    }
    SumPrefix(Costs(arcs, m), AssignmentCosts(a, fallbacks, candidates, ranked), |m|);
  }

  ghost function AssignedAmong<K>(a: map<K, K>, fallbacks: seq<K>, k: nat): set<K>
    requires k <= |fallbacks|
  {
    set f | f in fallbacks[..k] && f in a
  }

  lemma {:induction false} AssignmentSize<K>(a: map<K, K>, fallbacks: seq<K>, natives: seq<K>, k: nat)
    requires Distinct(fallbacks) && k <= |fallbacks|
    ensures Size(Positions(a, fallbacks, natives)[..k]) == |AssignedAmong(a, fallbacks, k)|
  {
    if k > 0 {
      AssignmentSize(a, fallbacks, natives, k - 1);
      var m, f := Positions(a, fallbacks, natives), fallbacks[k - 1];
      assert m[..k][..k - 1] == m[..k - 1];
      assert fallbacks[..k] == fallbacks[..k - 1] + [f];
      assert f !in fallbacks[..k - 1];
      if f in a {
        assert AssignedAmong(a, fallbacks, k) == AssignedAmong(a, fallbacks, k - 1) + {f};
      } else {
        assert AssignedAmong(a, fallbacks, k) == AssignedAmong(a, fallbacks, k - 1);
      }
    }
  }

  lemma WholeAssignmentSize<K>(a: map<K, K>, fallbacks: seq<K>, natives: seq<K>)
    requires Distinct(fallbacks) && forall f | f in a :: f in fallbacks
    ensures Size(Positions(a, fallbacks, natives)) == |a|
  {
    AssignmentSize(a, fallbacks, natives, |fallbacks|);
    assert Positions(a, fallbacks, natives)[..|fallbacks|] == Positions(a, fallbacks, natives);
    assert fallbacks[..|fallbacks|] == fallbacks;
    assert AssignedAmong(a, fallbacks, |fallbacks|) == a.Keys;
  }

  // ----- the matching -----

  method Rank<K(==,!new)>(fallbacks: seq<K>, natives: seq<K>, candidates: map<K, map<K, Edge>>, orders: map<K, Order>)
      returns (ranked: seq<seq<K>>, lists: CandidateLists)
    requires forall n | n in natives :: n in orders
    ensures IsRanking(ranked, fallbacks, natives, candidates, orders)
    ensures ListsMatch(lists, ranked, fallbacks, natives, candidates)
  {
    ranked, lists := [], [];
    var i := 0;
    while i < |fallbacks|
      invariant 0 <= i <= |fallbacks|
      invariant IsRanking(ranked, fallbacks[..i], natives, candidates, orders)
      invariant ListsMatch(lists, ranked, fallbacks[..i], natives, candidates)
    {
      var edges := if fallbacks[i] in candidates then candidates[fallbacks[i]] else map[];
      var sorted := Sort(CandidatesOf(fallbacks[i], natives, candidates), orders);
      ranked, lists := ranked + [sorted], lists + [ListOf(sorted, natives, edges)];
      i := i + 1;
    }
    assert fallbacks[..i] == fallbacks;
  }

  method Pair<K(==)>(fallbacks: seq<K>, natives: seq<K>, m: seq<int>) returns (matched: map<K, K>)
    requires Distinct(fallbacks) && Distinct(natives) && |m| == |fallbacks|
    requires forall i | 0 <= i < |m| :: -1 <= m[i] < |natives|
    ensures forall f | f in matched :: f in fallbacks
    ensures forall i | 0 <= i < |m| ::
      (fallbacks[i] in matched <==> m[i] != -1) && (m[i] != -1 ==> matched[fallbacks[i]] == natives[m[i]])
  {
    matched := map[];
    var i := 0;
    while i < |fallbacks|
      invariant 0 <= i <= |fallbacks|
      invariant forall f | f in matched :: f in fallbacks[..i]
      invariant forall j | 0 <= j < i ::
        (fallbacks[j] in matched <==> m[j] != -1) && (m[j] != -1 ==> matched[fallbacks[j]] == natives[m[j]])
    {
      if m[i] != -1 {
        matched := matched[fallbacks[i] := natives[m[i]]];
      }
      i := i + 1;
    }
  }

  lemma PairedPositions<K>(fallbacks: seq<K>, natives: seq<K>, m: seq<int>, matched: map<K, K>)
    requires Distinct(fallbacks) && Distinct(natives) && |m| == |fallbacks|
    requires forall i | 0 <= i < |m| :: -1 <= m[i] < |natives|
    requires forall f | f in matched :: f in fallbacks
    requires forall i | 0 <= i < |m| ::
      (fallbacks[i] in matched <==> m[i] != -1) && (m[i] != -1 ==> matched[fallbacks[i]] == natives[m[i]])
    ensures Positions(matched, fallbacks, natives) == m
  {
    forall i | 0 <= i < |m| ensures Positions(matched, fallbacks, natives)[i] == m[i] {
      if m[i] != -1 { IndexOfUnique(natives, m[i]); }
    }
  }

  lemma MatchingIsAssignment<K(!new)>(lists: CandidateLists, ranked: seq<seq<K>>, fallbacks: seq<K>, natives: seq<K>,
                                candidates: map<K, map<K, Edge>>, orders: map<K, Order>, m: seq<int>, matched: map<K, K>)
    requires Setting(lists, ranked, fallbacks, natives, candidates, orders) && WellFormed(lists, |natives|)
    requires IsMatching(|natives|, ArcsOf(lists, |natives|, false), m)
    requires |m| == |fallbacks| && Positions(matched, fallbacks, natives) == m
    requires forall f | f in matched :: f in fallbacks && matched[f] in natives
    ensures IsAssignment(matched, fallbacks, natives, candidates)
  {
    forall f | f in matched ensures f in candidates && matched[f] in candidates[f] {
      var i := IndexOf(fallbacks, f);
      ArcIsPair(lists, ranked, fallbacks, natives, candidates, orders, (i, m[i]));
    }
    forall f, g | f in matched && g in matched && f != g ensures matched[f] != matched[g] {
      var i, j := IndexOf(fallbacks, f), IndexOf(fallbacks, g);
      assert m[i] == IndexOf(natives, matched[f]) && m[j] == IndexOf(natives, matched[g]);
      assert i != j;
      if i < j { assert m[i] != m[j]; } else { assert m[j] != m[i]; }
    }
  }

  /** The reconciliation's optimum: no assignment of candidate pairs is larger, and none of the same
      size has a better total of strength, then distance, then rank. */
  ghost predicate IsBest<K(!new)>(matched: map<K, K>, ranked: seq<seq<K>>, fallbacks: seq<K>, natives: seq<K>,
                                  candidates: map<K, map<K, Edge>>)
    requires |ranked| == |fallbacks|
  {
    && IsAssignment(matched, fallbacks, natives, candidates)
    && forall a | IsAssignment(a, fallbacks, natives, candidates) ::
         && |a| <= |matched|
         && (|a| == |matched| ==>
              AssignmentCost(matched, fallbacks, candidates, ranked).AtMost(AssignmentCost(a, fallbacks, candidates, ranked)))
  }

  lemma BestFromOptimal<K(!new)>(lists: CandidateLists, ranked: seq<seq<K>>, fallbacks: seq<K>, natives: seq<K>,
                           candidates: map<K, map<K, Edge>>, orders: map<K, Order>, m: seq<int>, matched: map<K, K>)
    requires Setting(lists, ranked, fallbacks, natives, candidates, orders) && WellFormed(lists, |natives|)
    requires |m| == |fallbacks| && IsOptimal(|natives|, ArcsOf(lists, |natives|, false), m)
    requires Positions(matched, fallbacks, natives) == m
    requires forall f | f in matched :: f in fallbacks && matched[f] in natives
    ensures IsBest(matched, ranked, fallbacks, natives, candidates)
  {
    MatchingIsAssignment(lists, ranked, fallbacks, natives, candidates, orders, m, matched);
    AssignmentIsMatching(lists, ranked, fallbacks, natives, candidates, orders, matched);
    WholeAssignmentSize(matched, fallbacks, natives);
    forall a | IsAssignment(a, fallbacks, natives, candidates)
      ensures |a| <= |matched|
      ensures |a| == |matched| ==>
        AssignmentCost(matched, fallbacks, candidates, ranked).AtMost(AssignmentCost(a, fallbacks, candidates, ranked))
    {
      AssignmentIsMatching(lists, ranked, fallbacks, natives, candidates, orders, a);
      WholeAssignmentSize(a, fallbacks, natives);
    }
  }

  // ----- what the best costs mean -----

  /** The strengths of the pairs, added up. */
  ghost function StrengthSum<K>(a: map<K, K>, fallbacks: seq<K>, candidates: map<K, map<K, Edge>>): int
    requires forall f | f in a :: f in candidates && a[f] in candidates[f]
  {
    if fallbacks == [] then 0
    else
      var f := fallbacks[|fallbacks| - 1];
      StrengthSum(a, fallbacks[..|fallbacks| - 1], candidates) + if f in a then candidates[f][a[f]].strength else 0
  }

  /** Their distances in time. */
  ghost function DistanceSum<K>(a: map<K, K>, fallbacks: seq<K>, candidates: map<K, map<K, Edge>>): int
    requires forall f | f in a :: f in candidates && a[f] in candidates[f]
  {
    if fallbacks == [] then 0
    else
      var f := fallbacks[|fallbacks| - 1];
      DistanceSum(a, fallbacks[..|fallbacks| - 1], candidates) + if f in a then candidates[f][a[f]].distance else 0
  }

  /** And the ranks of the natives among the candidates of their fallbacks. */
  ghost function RankSum<K>(a: map<K, K>, fallbacks: seq<K>, ranked: seq<seq<K>>): int
    requires |ranked| == |fallbacks|
  {
    if fallbacks == [] then 0
    else
      var n := |fallbacks| - 1;
      RankSum(a, fallbacks[..n], ranked[..n]) + if fallbacks[n] in a then IndexOf(ranked[n], a[fallbacks[n]]) else 0
  }

  /** Of all assignments of the same size none is stronger in total; of those as strong, none is closer
      in time; of those as close, none has earlier ranks. */
  ghost predicate IsStrongest<K(!new)>(matched: map<K, K>, ranked: seq<seq<K>>, fallbacks: seq<K>, natives: seq<K>,
                                       candidates: map<K, map<K, Edge>>)
    requires |ranked| == |fallbacks| && IsAssignment(matched, fallbacks, natives, candidates)
  {
    forall a | IsAssignment(a, fallbacks, natives, candidates) && |a| == |matched| ::
      Outdoes(matched, a, ranked, fallbacks, candidates)
  }

  ghost predicate Outdoes<K>(a: map<K, K>, b: map<K, K>, ranked: seq<seq<K>>, fallbacks: seq<K>, candidates: map<K, map<K, Edge>>)
    requires |ranked| == |fallbacks|
    requires forall f | f in a :: f in candidates && a[f] in candidates[f]
    requires forall f | f in b :: f in candidates && b[f] in candidates[f]
  {
    var stronger := StrengthSum(a, fallbacks, candidates) - StrengthSum(b, fallbacks, candidates);
    var closer := DistanceSum(b, fallbacks, candidates) - DistanceSum(a, fallbacks, candidates);
    var earlier := RankSum(b, fallbacks, ranked) - RankSum(a, fallbacks, ranked);
    stronger >= 0 && (stronger == 0 ==> closer >= 0 && (closer == 0 ==> earlier >= 0))
  }

  lemma {:induction false} CostSums<K>(a: map<K, K>, fallbacks: seq<K>, candidates: map<K, map<K, Edge>>, ranked: seq<seq<K>>)
    requires |ranked| == |fallbacks|
    requires forall f | f in a :: f in candidates && a[f] in candidates[f]
    ensures var c := AssignmentCost(a, fallbacks, candidates, ranked);
            && c.strength == -StrengthSum(a, fallbacks, candidates) && c.distance == DistanceSum(a, fallbacks, candidates)
            && c.tie == RankSum(a, fallbacks, ranked)
    decreases |fallbacks|
  {
    if fallbacks != [] {
      var n := |fallbacks| - 1;
      CostSums(a, fallbacks[..n], candidates, ranked[..n]);
      SumPrefix(AssignmentCosts(a, fallbacks[..n], candidates, ranked[..n]), AssignmentCosts(a, fallbacks, candidates, ranked), n);
    }
  }

  lemma BestIsStrongest<K(!new)>(matched: map<K, K>, ranked: seq<seq<K>>, fallbacks: seq<K>, natives: seq<K>,
                                 candidates: map<K, map<K, Edge>>)
    requires |ranked| == |fallbacks| && IsBest(matched, ranked, fallbacks, natives, candidates)
    ensures IsStrongest(matched, ranked, fallbacks, natives, candidates)
  {
    hide AssignmentCost;
    CostSums(matched, fallbacks, candidates, ranked);
    forall a | IsAssignment(a, fallbacks, natives, candidates) && |a| == |matched|
      ensures Outdoes(matched, a, ranked, fallbacks, candidates)
    {
      CostSums(a, fallbacks, candidates, ranked);
    }
  }

  method MatchCandidates<K(==,!new)>(fallbacks: seq<K>, natives: seq<K>, candidates: map<K, map<K, Edge>>, orders: map<K, Order>)
      returns (matched: map<K, K>, ranked: seq<seq<K>>)
    requires Distinct(fallbacks) && Distinct(natives) && forall n | n in natives :: n in orders
    ensures IsRanking(ranked, fallbacks, natives, candidates, orders)
    ensures IsBest(matched, ranked, fallbacks, natives, candidates)
    ensures IsStrongest(matched, ranked, fallbacks, natives, candidates)
  {
    hide AssignmentCost, IsStrongest;
    var lists;
    ranked, lists := Rank(fallbacks, natives, candidates, orders);
    ListsWellFormed(lists, ranked, fallbacks, natives, candidates, orders);
    if |fallbacks| == 0 || |natives| == 0 {
      matched := map[];
      BestIsStrongest(matched, ranked, fallbacks, natives, candidates);
      return;
    }
    var m;
    ghost var rounds;
    m, rounds := Match(|fallbacks|, |natives|, lists);
    matched := Pair(fallbacks, natives, m);
    PairedPositions(fallbacks, natives, m, matched);
    forall f | f in matched ensures matched[f] in natives {
      var i := IndexOf(fallbacks, f);
      assert matched[fallbacks[i]] == natives[m[i]];
    }
    BestFromOptimal(lists, ranked, fallbacks, natives, candidates, orders, m, matched);
    BestIsStrongest(matched, ranked, fallbacks, natives, candidates);
  }
}
