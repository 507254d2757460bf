/** The residual network of the reconciliation flow: adjacency lists whose edges come in pairs, a
    forward edge of capacity one and its reverse, each holding the other's index. */
module FlowNetwork {
  import opened FlowCost

  datatype FlowEdge = FlowEdge(to: int, rev: int, capacity: int, cost: Cost, nativePos: int)

  type Graph = seq<seq<FlowEdge>>

  predicate HasEdge(g: Graph, u: int, i: int) {
    0 <= u < |g| && 0 <= i < |g[u]|
  }

  /** Edge i of node u and the edge it names as its reverse are each other's reverse, and the unit
      of capacity of the pair sits on exactly one of them. */
  ghost predicate Twinned(g: Graph, u: int, i: int)
    requires HasEdge(g, u, i)
  {
    var e := g[u][i];
    && e.to != u && HasEdge(g, e.to, e.rev)
    && 0 <= e.capacity <= 1
    && var r := g[e.to][e.rev];
       && r.to == u && r.rev == i && e.capacity + r.capacity == 1
       && e.cost.strength == -r.cost.strength && e.cost.distance == -r.cost.distance && e.cost.tie == -r.cost.tie
  }

  ghost predicate Paired(g: Graph) {
    forall u, i | HasEdge(g, u, i) :: Twinned(g, u, i)
  }

  /** Same network, possibly with other capacities. */
  ghost predicate SameShape(g: Graph, h: Graph) {
    && |g| == |h|
    && (forall u | 0 <= u < |g| :: |g[u]| == |h[u]|)
    && (forall u, i | HasEdge(g, u, i) :: h[u][i] == g[u][i].(capacity := h[u][i].capacity))
  }

  lemma SameShapeTransitive(g: Graph, h: Graph, k: Graph)
    requires SameShape(g, h) && SameShape(h, k)
    ensures SameShape(g, k)
  {
    forall u, i | HasEdge(g, u, i) ensures k[u][i] == g[u][i].(capacity := k[u][i].capacity) {
      assert HasEdge(h, u, i);
    }
  }

  // ----- adding an edge -----

  function Reversed(c: Cost): Cost {
    Cost(-c.strength, -c.distance, -c.tie)
  }

  function WithEdge(g: Graph, from: int, to: int, cost: Cost, nativePos: int): (h: Graph)
    requires 0 <= from < |g| && 0 <= to < |g| && from != to
    ensures |h| == |g|
  {
    g[from := g[from] + [FlowEdge(to, |g[to]|, 1, cost, nativePos)]]
     [to := g[to] + [FlowEdge(from, |g[from]|, 0, Reversed(cost), -1)]]
  }

  method AddFlowEdge(graph: array<seq<FlowEdge>>, from: int, to: int, cost: Cost, nativePos: int)
    requires 0 <= from < graph.Length && 0 <= to < graph.Length && from != to
    modifies graph
    ensures graph[..] == WithEdge(old(graph[..]), from, to, cost, nativePos)
  {
    var forward := FlowEdge(to, |graph[to]|, 1, cost, nativePos);
    var backward := FlowEdge(from, |graph[from]|, 0, Reversed(cost), -1);
    graph[from] := graph[from] + [forward];
    graph[to] := graph[to] + [backward];
  }

  lemma WithEdgeKeepsPaired(g: Graph, from: int, to: int, cost: Cost, nativePos: int)
    requires 0 <= from < |g| && 0 <= to < |g| && from != to && Paired(g)
    ensures Paired(WithEdge(g, from, to, cost, nativePos))
  {
    var h := WithEdge(g, from, to, cost, nativePos);
    forall u, i | HasEdge(h, u, i) ensures Twinned(h, u, i) {
      if HasEdge(g, u, i) {
        assert Twinned(g, u, i);
      }
    }
  }

  // ----- moving the unit of a pair -----

  function Flip(g: Graph, u: int, i: int): (h: Graph)
    requires HasEdge(g, u, i) && g[u][i].to != u && HasEdge(g, g[u][i].to, g[u][i].rev)
    ensures |h| == |g|
  {
    var e := g[u][i];
    var r := g[e.to][e.rev];
    g[u := g[u][i := e.(capacity := e.capacity - 1)]]
     [e.to := g[e.to][e.rev := r.(capacity := r.capacity + 1)]]
  }

  lemma FlipEffect(g: Graph, u: int, i: int)
    requires Paired(g) && HasEdge(g, u, i) && g[u][i].capacity > 0
    ensures Twinned(g, u, i)
    ensures SameShape(g, Flip(g, u, i)) && Paired(Flip(g, u, i))
    ensures forall v, k | HasEdge(g, v, k) ::
      Flip(g, u, i)[v][k].capacity ==
        (if v == u && k == i then 0 else if v == g[u][i].to && k == g[u][i].rev then 1 else g[v][k].capacity)
  {
    assert Twinned(g, u, i);
    var h := Flip(g, u, i);
    forall v, k | HasEdge(h, v, k) ensures Twinned(h, v, k) {
      assert HasEdge(g, v, k);
      assert Twinned(g, v, k);
    }
  }

  // ----- net outflow of a node -----

  /** What an edge adds to the outflow of node u. Nodes are numbered so that a forward edge leads to
      a larger number: its flow is the capacity it lost; on a reverse edge it is what it gained. */
  function FlowOn(u: int, e: FlowEdge): int {
    if u < e.to then 1 - e.capacity else -e.capacity
  }

  ghost function Net(u: int, edges: seq<FlowEdge>, k: nat): int
    requires k <= |edges|
  {
    if k == 0 then 0 else Net(u, edges, k - 1) + FlowOn(u, edges[k - 1])
  }

  ghost function Outflow(g: Graph, u: int): int
    requires 0 <= u < |g|
  {
    Net(u, g[u], |g[u]|)
  }

  lemma {:induction false} NetUpdate(u: int, edges: seq<FlowEdge>, i: nat, e: FlowEdge, k: nat)
    requires i < |edges| && k <= |edges|
    ensures Net(u, edges[i := e], k) ==
      if i < k then Net(u, edges, k) - FlowOn(u, edges[i]) + FlowOn(u, e) else Net(u, edges, k)
  {
    if k > 0 { NetUpdate(u, edges, i, e, k - 1); }
  }

  lemma {:induction false} NetPrefix(u: int, edges: seq<FlowEdge>, more: seq<FlowEdge>, k: nat)
    requires k <= |edges| && k <= |more| && edges[..k] == more[..k]
    ensures Net(u, edges, k) == Net(u, more, k)
  {
    if k > 0 {
      assert edges[..k][k - 1] == more[..k][k - 1];
      assert edges[..k - 1] == edges[..k][..k - 1] == more[..k - 1];
      NetPrefix(u, edges, more, k - 1);
    }
  }

  lemma FlipMovesOneUnit(g: Graph, u: int, i: int)
    requires Paired(g) && HasEdge(g, u, i) && g[u][i].capacity > 0
    ensures Twinned(g, u, i)
    ensures forall v | 0 <= v < |g| ::
      Outflow(Flip(g, u, i), v) == Outflow(g, v) + (if v == u then 1 else if v == g[u][i].to then -1 else 0)
  {
    FlipEffect(g, u, i);
    var e, h := g[u][i], Flip(g, u, i);
    var r := g[e.to][e.rev];
    assert h[u] == g[u][i := e.(capacity := e.capacity - 1)];
    assert h[e.to] == g[e.to][e.rev := r.(capacity := r.capacity + 1)];
    NetUpdate(u, g[u], i, e.(capacity := e.capacity - 1), |g[u]|);
    NetUpdate(e.to, g[e.to], e.rev, r.(capacity := r.capacity + 1), |g[e.to]|);
  }

  // ----- node prices -----

  /** Node prices under which no residual edge has a negative reduced cost. Such prices exist only
      when the residual network has no cycle of negative total cost. */
  ghost predicate Feasible(g: Graph, prices: seq<Cost>) {
    && |prices| == |g|
    && forall u, i | HasEdge(g, u, i) && g[u][i].capacity > 0 ::
         0 <= g[u][i].to < |g| && prices[g[u][i].to].AtMost(prices[u].Add(g[u][i].cost))
  }

  ghost predicate Tight(g: Graph, prices: seq<Cost>, u: int, i: int)
    requires HasEdge(g, u, i) && 0 <= g[u][i].to < |g| == |prices|
  {
    prices[g[u][i].to] == prices[u].Add(g[u][i].cost)
  }

  lemma FlipKeepsFeasible(g: Graph, prices: seq<Cost>, u: int, i: int)
    requires Paired(g) && HasEdge(g, u, i) && g[u][i].capacity > 0
    requires Feasible(g, prices) && Twinned(g, u, i) && Tight(g, prices, u, i)
    ensures Feasible(Flip(g, u, i), prices)
  {
    FlipEffect(g, u, i);
    var h := Flip(g, u, i);
    forall v, k | HasEdge(h, v, k) && h[v][k].capacity > 0
      ensures 0 <= h[v][k].to < |h| && prices[h[v][k].to].AtMost(prices[v].Add(h[v][k].cost))
    {
      assert HasEdge(g, v, k);
      assert Twinned(g, v, k);
    }
  }
}
