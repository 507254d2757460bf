/** Sending one more unit along the cheapest path. The new labels are the node prices of the next
    residual network: every edge of the path is tight under them, so flipping it keeps them feasible. */
module Augmentation {
  import opened FlowCost
  import opened FlowNetwork
  import opened LabelCorrecting

  ghost function Gains(prices: seq<Cost>, s: Search): set<Cost>
    requires |s.have| == |s.dist| == |prices|
  {
    set v | 0 <= v < |s.have| && s.have[v] :: Gain(prices, s, v)
  }

  /** Labels where the search arrived; elsewhere the old price, raised by at least every gain. */
  ghost function NextPrices(prices: seq<Cost>, s: Search, raise: Cost): (next: seq<Cost>)
    requires |s.have| == |s.dist| == |prices|
    ensures |next| == |prices|
  {
    seq(|prices|, v requires 0 <= v < |prices| => if s.have[v] then s.dist[v] else prices[v].Add(raise))
  }

  lemma NextStep(prices: seq<Cost>, s: Search, raise: Cost, u: int, v: int, cost: Cost)
    requires |s.have| == |s.dist| == |prices| && 0 <= u < |prices| && 0 <= v < |prices|
    requires prices[v].AtMost(prices[u].Add(cost))
    requires s.have[u] ==> s.have[v] && s.dist[v].AtMost(s.dist[u].Add(cost))
    requires s.have[v] ==> Gain(prices, s, v).AtMost(raise)
    ensures NextPrices(prices, s, raise)[v].AtMost(NextPrices(prices, s, raise)[u].Add(cost))
  {
  }

  lemma NextFeasible(g: Graph, prices: seq<Cost>, origin: Cost, s: Search, raise: Cost)
    requires Paired(g) && Feasible(g, prices) && Finished(g, prices, origin, s)
    requires forall c | c in Gains(prices, s) :: c.AtMost(raise)
    ensures Feasible(g, NextPrices(prices, s, raise))
  {
    var next := NextPrices(prices, s, raise);
    forall u, i | HasEdge(g, u, i) && g[u][i].capacity > 0
      ensures 0 <= g[u][i].to < |g| && next[g[u][i].to].AtMost(next[u].Add(g[u][i].cost))
    {
      assert Twinned(g, u, i);
      var v := g[u][i].to;
      if s.have[u] {
        assert Settled(g, s, u, |g[u]|);
      }
      if s.have[v] {
        assert Gain(prices, s, v) in Gains(prices, s);
      }
      NextStep(prices, s, raise, u, v, g[u][i].cost);
    }
  }

  /** The predecessor edge of a reached node is tight, and its tail was labelled earlier. */
  lemma TreeEdgeTight(g: Graph, prices: seq<Cost>, origin: Cost, s: Search, raise: Cost, v: int)
    requires Finished(g, prices, origin, s) && 0 < v < |g| && s.have[v]
    ensures TreeEdge(g, s, v) && Tight(g, NextPrices(prices, s, raise), s.prev[v], s.prevEdge[v])
    ensures s.stamp[s.prev[v]] < s.stamp[v]
  {
    assert TreeEdge(g, s, v);
    assert Settled(g, s, s.prev[v], |g[s.prev[v]]|);
  }

  /** The path still to be flipped: the predecessor edges of nodes labelled no later than this one. */
  ghost predicate Open(g: Graph, s: Search, node: int)
    requires Sized(g, s) && 0 <= node < |g|
  {
    forall x | 0 < x < |g| && s.have[x] && s.stamp[x] <= s.stamp[node] ::
      HasEdge(g, s.prev[x], s.prevEdge[x]) && g[s.prev[x]][s.prevEdge[x]].capacity > 0
  }

  lemma FlipKeepsOpen(start: Graph, prices: seq<Cost>, origin: Cost, s: Search, g: Graph, v: int)
    requires Finished(start, prices, origin, s) && SameShape(start, g) && Paired(g)
    requires 0 < v < |start| && s.have[v] && Sized(g, s) && Open(g, s, v)
    ensures TreeEdge(start, s, v) && HasEdge(g, s.prev[v], s.prevEdge[v])
    ensures g[s.prev[v]][s.prevEdge[v]].capacity > 0 && Twinned(g, s.prev[v], s.prevEdge[v])
    ensures var h := Flip(g, s.prev[v], s.prevEdge[v]); Sized(h, s) && Open(h, s, s.prev[v])
  {
    TreeEdgeTight(start, prices, origin, s, Cost(0, 0, 0), v);
    var u, i := s.prev[v], s.prevEdge[v];
    FlipEffect(g, u, i);
    var h := Flip(g, u, i);
    forall x | 0 < x < |g| && s.have[x] && s.stamp[x] <= s.stamp[u]
      ensures HasEdge(h, s.prev[x], s.prevEdge[x]) && h[s.prev[x]][s.prevEdge[x]].capacity > 0
    {
      TreeEdgeTight(start, prices, origin, s, Cost(0, 0, 0), x);
      assert start[s.prev[x]][s.prevEdge[x]].to == x;
    }
  }

  /** Halfway through the path: one unit has been moved from `node` to the sink. */
  ghost predicate Halfway(start: Graph, g: Graph, next: seq<Cost>, s: Search, node: int, sink: int) {
    && SameShape(start, g) && Paired(g) && Feasible(g, next)
    && Sized(g, s) && 0 <= node < |g| && s.have[node] && Open(g, s, node)
    && forall v | 0 <= v < |g| ::
         Outflow(g, v) == Outflow(start, v) + (if v == node then 1 else 0) - (if v == sink then 1 else 0)
  }

  lemma FlipStep(start: Graph, prices: seq<Cost>, origin: Cost, raise: Cost, s: Search, g: Graph, node: int, sink: int)
    requires Finished(start, prices, origin, s)
    requires Halfway(start, g, NextPrices(prices, s, raise), s, node, sink) && node != 0
    ensures HasEdge(g, s.prev[node], s.prevEdge[node])
    ensures Twinned(g, s.prev[node], s.prevEdge[node]) && g[s.prev[node]][s.prevEdge[node]].to == node
    ensures Halfway(start, Flip(g, s.prev[node], s.prevEdge[node]), NextPrices(prices, s, raise), s, s.prev[node], sink)
    ensures s.stamp[s.prev[node]] < s.stamp[node]
  {
    var from, i := s.prev[node], s.prevEdge[node];
    FlipKeepsOpen(start, prices, origin, s, g, node);
    TreeEdgeTight(start, prices, origin, s, raise, node);
    FlipEffect(g, from, i);
    FlipMovesOneUnit(g, from, i);
    FlipKeepsFeasible(g, NextPrices(prices, s, raise), from, i);
    SameShapeTransitive(start, g, Flip(g, from, i));
  }

  method FlipEdge(graph: array<seq<FlowEdge>>, from: int, i: int)
    requires HasEdge(graph[..], from, i) && Twinned(graph[..], from, i)
    modifies graph
    ensures graph[..] == Flip(old(graph[..]), from, i)
  {
    var edge := graph[from][i];
    graph[from] := graph[from][i := edge.(capacity := edge.capacity - 1)];
    var back := graph[edge.to][edge.rev];
    graph[edge.to] := graph[edge.to][edge.rev := back.(capacity := back.capacity + 1)];
  }

  /** Flips the edges of the predecessor path from the sink back to the source. */
  method Augment(graph: array<seq<FlowEdge>>, previousNode: array<int>, previousEdge: array<int>, sink: int,
                 ghost prices: seq<Cost>, ghost origin: Cost, ghost s: Search)
      returns (ghost next: seq<Cost>)
    requires Paired(graph[..]) && Feasible(graph[..], prices) && Finished(graph[..], prices, origin, s)
    requires previousNode[..] == s.prev && previousEdge[..] == s.prevEdge
    requires 0 < sink < graph.Length && s.have[sink]
    modifies graph
    ensures SameShape(old(graph[..]), graph[..]) && Paired(graph[..]) && Feasible(graph[..], next)
    ensures forall v | 0 <= v < graph.Length ::
      Outflow(graph[..], v) == Outflow(old(graph[..]), v) + (if v == 0 then 1 else if v == sink then -1 else 0)
  {
    ghost var start := graph[..];
    ghost var low, raise := Bounds(Gains(prices, s));
    next := NextPrices(prices, s, raise);
    NextFeasible(start, prices, origin, s, raise);
    OpenAtStart(start, prices, origin, s, sink);
    var node := sink;
    while node != 0 && previousNode[node] >= 0
      invariant 0 <= node < graph.Length == |start| && Halfway(start, graph[..], next, s, node, sink)
      decreases s.stamp[node]
    {
      FlipStep(start, prices, origin, raise, s, graph[..], node, sink);
      FlipEdge(graph, previousNode[node], previousEdge[node]);
      node := previousNode[node];
    }
    if node != 0 {
      TreeEdgeTight(start, prices, origin, s, raise, node);
      assert false;
    }
  }

  lemma OpenAtStart(g: Graph, prices: seq<Cost>, origin: Cost, s: Search, sink: int)
    requires Finished(g, prices, origin, s) && 0 < sink < |g|
    ensures Open(g, s, sink)
  {
    forall x | 0 < x < |g| && s.have[x]
      ensures HasEdge(g, s.prev[x], s.prevEdge[x]) && g[s.prev[x]][s.prevEdge[x]].capacity > 0
    {
      assert TreeEdge(g, s, x);
    }
  }
}
