/** The successive-shortest-path matching of one partition. */
module MinimumCostMatching {
  import opened FlowCost
  import opened FlowNetwork
  import opened AssignmentDuality
  import opened LabelCorrecting
  import opened Augmentation
  import opened MatchingNetwork
  import opened FlowMatching

  /** As many pairs as any matching of the candidates, and among those with as many the least cost. */
  ghost predicate IsOptimal(natives: nat, arcs: Arcs, m: seq<int>) {
    && IsMatching(natives, arcs, m)
    && forall other | |other| == |m| && IsMatching(natives, arcs, other) ::
         Size(other) <= Size(m) && (Size(other) == Size(m) ==> TotalCost(arcs, m).AtMost(TotalCost(arcs, other)))
  }

  // ----- before the first round -----

  ghost function StartPrices(fallbacks: nat, natives: nat, origin: Cost, low: Cost): seq<Cost> {
    seq(SinkOf(fallbacks, natives) + 1, v requires v >= 0 => if v <= fallbacks then origin else low.Add(origin))
  }

  lemma StartFeasible(g: Graph, fallbacks: nat, natives: nat, lists: CandidateLists, origin: Cost, low: Cost)
    requires Under(g) && WellFormed(lists, natives) && Layout(g, fallbacks, natives, lists)
    requires forall c | c in EdgeCosts(g) :: low.AtMost(c)
    ensures Feasible(g, StartPrices(fallbacks, natives, origin, low))
  {
    var prices := StartPrices(fallbacks, natives, origin, low);
    forall u, i | HasEdge(g, u, i) && g[u][i].capacity > 0
      ensures 0 <= g[u][i].to < |g| && prices[g[u][i].to].AtMost(prices[u].Add(g[u][i].cost))
    {
      assert Twinned(g, u, i) && FlowOn(u, g[u][i]) == 0;
      assert g[u][i].cost in EdgeCosts(g);
      ResidualStep(g, fallbacks, natives, lists, u, i);
      StartStep(origin, low, g[u][i].cost);
    }
  }

  lemma StartStep(origin: Cost, low: Cost, cost: Cost)
    requires low.AtMost(cost)
    ensures low.Add(origin).AtMost(origin.Add(cost))
    ensures cost.IsFree() ==> origin.AtMost(origin.Add(cost)) && low.Add(origin).AtMost(low.Add(origin).Add(cost))
  {
  }

  /** Without flow the residual edges are the forward edges, layer by layer. */
  lemma ResidualStep(g: Graph, fallbacks: nat, natives: nat, lists: CandidateLists, u: int, i: int)
    requires Under(g) && Layout(g, fallbacks, natives, lists) && WellFormed(lists, natives)
    requires HasEdge(g, u, i) && g[u][i].capacity > 0
    ensures u < g[u][i].to < |g|
    ensures g[u][i].to <= fallbacks || u > fallbacks ==> g[u][i].cost.IsFree()
  {
    assert Twinned(g, u, i) && FlowOn(u, g[u][i]) == 0;
    if u == 0 {
      assert FallbackNode(g, fallbacks, lists[i], i);
    } else if u <= fallbacks {
      assert FallbackNode(g, fallbacks, lists[u - 1], u - 1);
      if i > 0 { assert CandidateEdge(g[1 + (u - 1)][1 + (i - 1)], fallbacks, lists[u - 1][i - 1]); }
    } else if u < SinkOf(fallbacks, natives) {
      assert NativeNode(g, fallbacks, natives, u - 1 - fallbacks);
    } 
  }

  // ----- every round adds one pair -----

  lemma {:induction false} OutflowBound(u: int, edges: seq<FlowEdge>, k: nat)
    requires k <= |edges| && forall i | 0 <= i < k :: 0 <= edges[i].capacity <= 1
    ensures Net(u, edges, k) <= k
  {
    if k > 0 { OutflowBound(u, edges, k - 1); }
  }

  lemma SourceOutflowBound(g: Graph)
    requires Paired(g) && |g| > 0
    ensures Outflow(g, 0) <= |g[0]|
  {
    forall i | 0 <= i < |g[0]| ensures 0 <= g[0][i].capacity <= 1 {
      assert HasEdge(g, 0, i) && Twinned(g, 0, i);
    }
    OutflowBound(0, g[0], |g[0]|);
  }

  lemma {:induction false} SizeIsOutflow(g: Graph, fallbacks: nat, natives: nat, lists: CandidateLists, k: nat)
    requires IsFlow(g, fallbacks, natives, lists) && k <= fallbacks
    ensures Size(MatchingOf(g, fallbacks)[..k]) == Net(0, g[0], k)
  {
    if k > 0 {
      SizeIsOutflow(g, fallbacks, natives, lists, k - 1);
      var m := MatchingOf(g, fallbacks);
      assert m[..k][..k - 1] == m[..k - 1];
      AtFallback(g, fallbacks, natives, lists, k - 1);
      assert HasEdge(g, 0, k - 1) && Twinned(g, 0, k - 1);
    }
  }

  // ----- after the last round -----

  ghost function CutPrices(s: Search, near: Cost, far: Cost): (p: seq<Cost>)
    ensures |p| == |s.have|
  {
    seq(|s.have|, v requires 0 <= v < |s.have| => if s.have[v] then near else far)
  }

  /** No residual edge leaves the reached nodes. */
  lemma CutPriced(g: Graph, prices: seq<Cost>, origin: Cost, s: Search, near: Cost, far: Cost)
    requires Paired(g) && Finished(g, prices, origin, s) && near.AtMost(far)
    ensures Priced(g, CutPrices(s, near, far), true)
  {
    forall u, i | HasEdge(g, u, i) && g[u][i].capacity > 0
      ensures 0 <= g[u][i].to < |g|
      ensures CutPrices(s, near, far)[g[u][i].to].AtMost(CutPrices(s, near, far)[u].Add(Weight(true, g[u][i].cost)))
    {
      assert Twinned(g, u, i);
      if s.have[u] { assert Settled(g, s, u, |g[u]|); }
    }
  }

  lemma FlatMatching(lists: CandidateLists, natives: nat, m: seq<int>)
    requires WellFormed(lists, natives) && IsMatching(natives, ArcsOf(lists, natives, false), m)
    ensures IsMatching(natives, ArcsOf(lists, natives, true), m)
  {
    FlatArcs(lists, natives);
  }

  lemma Largest(g: Graph, fallbacks: nat, natives: nat, lists: CandidateLists, prices: seq<Cost>, origin: Cost, s: Search,
                unit: Cost, other: seq<int>)
    requires IsFlow(g, fallbacks, natives, lists) && Finished(g, prices, origin, s)
    requires !s.have[SinkOf(fallbacks, natives)]
    requires unit.strength == origin.strength + 1 && unit.distance == origin.distance && unit.tie == origin.tie
    requires IsMatching(natives, ArcsOf(lists, natives, false), other) && |other| == fallbacks
    ensures Size(other) <= Size(MatchingOf(g, fallbacks))
  {
    CutPriced(g, prices, origin, s, origin, unit);
    FlowCertified(g, fallbacks, natives, lists, CutPrices(s, origin, unit), true);
    FlowIsMatching(g, fallbacks, natives, lists, true);
    FlatMatching(lists, natives, other);
    FlatArcs(lists, natives);
    Maximum(natives, ArcsOf(lists, natives, true), MatchingOf(g, fallbacks),
            PricesOf(CutPrices(s, origin, unit), fallbacks, natives), other);
  }

  lemma Cheapest(g: Graph, fallbacks: nat, natives: nat, lists: CandidateLists, prices: seq<Cost>, other: seq<int>)
    requires IsFlow(g, fallbacks, natives, lists) && Feasible(g, prices)
    requires IsMatching(natives, ArcsOf(lists, natives, false), other) && |other| == fallbacks
    requires Size(other) == Size(MatchingOf(g, fallbacks))
    ensures IsMatching(natives, ArcsOf(lists, natives, false), MatchingOf(g, fallbacks))
    ensures TotalCost(ArcsOf(lists, natives, false), MatchingOf(g, fallbacks))
              .AtMost(TotalCost(ArcsOf(lists, natives, false), other))
  {
    FlowCertified(g, fallbacks, natives, lists, prices, false);
    FlowIsMatching(g, fallbacks, natives, lists, false);
    Optimal(natives, ArcsOf(lists, natives, false), MatchingOf(g, fallbacks), PricesOf(prices, fallbacks, natives), other);
  }

  lemma FlowOptimal(g: Graph, fallbacks: nat, natives: nat, lists: CandidateLists, prices: seq<Cost>, s: Search)
    requires IsFlow(g, fallbacks, natives, lists) && Feasible(g, prices) && Finished(g, prices, Cost(0, 0, 0), s)
    requires !s.have[SinkOf(fallbacks, natives)]
    ensures IsOptimal(natives, ArcsOf(lists, natives, false), MatchingOf(g, fallbacks))
  {
    FlowIsMatching(g, fallbacks, natives, lists, false);
    var m, arcs := MatchingOf(g, fallbacks), ArcsOf(lists, natives, false);
    forall other | |other| == |m| && IsMatching(natives, arcs, other)
      ensures Size(other) <= Size(m) && (Size(other) == Size(m) ==> TotalCost(arcs, m).AtMost(TotalCost(arcs, other)))
    {
      Largest(g, fallbacks, natives, lists, prices, Cost(0, 0, 0), s, Cost(1, 0, 0), other);
      if Size(other) == Size(m) {
        Cheapest(g, fallbacks, natives, lists, prices, other);
      }
    }
  }

  // ----- the algorithm -----

  method Extract(graph: array<seq<FlowEdge>>, fallbacks: nat) returns (m: seq<int>)
    requires graph.Length > fallbacks
    ensures m == MatchingOf(graph[..], fallbacks)
  {
    m := [];
    var f := 0;
    while f < fallbacks
      invariant 0 <= f <= fallbacks && m == MatchingOf(graph[..], fallbacks)[..f]
    {
      var edges := graph[1 + f];
      var i, native := 0, -1;
      while i < |edges|
        invariant 0 <= i <= |edges| && native == -1 && Picked(edges, 0) == Picked(edges, i)
      {
        if edges[i].nativePos >= 0 && edges[i].capacity == 0 {
          native := edges[i].nativePos;
          break;
        }
        i := i + 1;
      }
      assert native == Picked(edges, 0);
      m := m + [native];
      f := f + 1;
    }
  }

  /** Finds an optimal matching; the ghost result counts the augmentations, one per matched pair. */
  method Match(fallbacks: nat, natives: nat, lists: CandidateLists) returns (m: seq<int>, ghost rounds: nat)
    requires |lists| == fallbacks && WellFormed(lists, natives)
    ensures |m| == fallbacks && IsOptimal(natives, ArcsOf(lists, natives, false), m)
    ensures rounds == Size(m)
  {
    var graph := Build(fallbacks, natives, lists);
    var sink := SinkOf(fallbacks, natives);
    ghost var low, high := Bounds(EdgeCosts(graph[..]));
    ghost var prices := StartPrices(fallbacks, natives, Cost(0, 0, 0), low);
    StartFeasible(graph[..], fallbacks, natives, lists, Cost(0, 0, 0), low);
    StartsBalanced(graph[..], sink);
    rounds := 0;
    while true
      invariant graph.Length == sink + 1 && fresh(graph)
      invariant IsFlow(graph[..], fallbacks, natives, lists) && Feasible(graph[..], prices)
      invariant rounds == Outflow(graph[..], 0)
      decreases fallbacks - rounds
    {
      ghost var before := graph[..];
      var haveDistance, previousNode, previousEdge;
      ghost var s;
      haveDistance, previousNode, previousEdge, s := CheapestPaths(graph, prices);
      if !haveDistance[sink] {
        FlowOptimal(graph[..], fallbacks, natives, lists, prices, s);
        SizeIsOutflow(graph[..], fallbacks, natives, lists, fallbacks);
        break;
      }
      prices := Augment(graph, previousNode, previousEdge, sink, prices, Cost(0, 0, 0), s);
      SameShapeKeepsLayout(before, graph[..], fallbacks, natives, lists);
      SourceOutflowBound(graph[..]);
      rounds := rounds + 1;
    }
    m := Extract(graph, fallbacks);
    assert MatchingOf(graph[..], fallbacks)[..fallbacks] == m;
  }
}
