/** The label-correcting search for a cheapest residual path from the source, node 0. The queue
    holds the nodes whose outgoing edges have to be looked at again. */
module LabelCorrecting {
  import opened FlowCost
  import opened FlowNetwork

  /** The labels of the search, with the evidence its termination and its paths rest on: the nodes of
      the walk that produced each label, and the moment the label was last lowered. */
  datatype Search = Search(
    dist: seq<Cost>, have: seq<bool>, prev: seq<int>, prevEdge: seq<int>,
    queue: seq<int>, inQueue: seq<bool>,
    walk: seq<set<int>>, stamp: seq<int>, clock: int)

  ghost predicate Sized(g: Graph, s: Search) {
    && |g| > 0
    && |s.dist| == |s.have| == |s.prev| == |s.prevEdge| == |s.inQueue| == |s.walk| == |s.stamp| == |g|
    && s.have[0] && s.prev[0] == -1
  }

  ghost predicate QueueOk(g: Graph, s: Search)
    requires Sized(g, s)
  {
    && (forall v | v in s.queue :: 0 <= v < |g| && s.have[v] && s.inQueue[v])
    && (forall v | 0 <= v < |g| && s.inQueue[v] :: v in s.queue)
    && (forall i, j | 0 <= i < j < |s.queue| :: s.queue[i] != s.queue[j])
  }

  // ----- finitely many labels -----

  /** The costs of walks of k edges. */
  ghost function WalkCosts(origin: Cost, costs: set<Cost>, k: nat): set<Cost> {
    if k == 0 then {origin}
    else
      var shorter := WalkCosts(origin, costs, k - 1);
      shorter + set a, c | a in shorter && c in costs :: a.Add(c)
  }

  lemma {:induction false} WalkCostsGrow(origin: Cost, costs: set<Cost>, k: nat, m: nat)
    requires k <= m
    ensures WalkCosts(origin, costs, k) <= WalkCosts(origin, costs, m)
    decreases m
  {
    if k < m { WalkCostsGrow(origin, costs, k, m - 1); }
  }

  ghost function EdgeCosts(g: Graph): set<Cost> {
    set u, i | 0 <= u < |g| && 0 <= i < |g[u]| :: g[u][i].cost
  }

  lemma {:induction false} NodeSetSize(nodes: set<int>, n: nat)
    requires forall v | v in nodes :: 0 <= v < n
    ensures |nodes| <= n
  {
    if n == 0 {
      assert forall v :: v !in nodes;
      assert nodes == {};
    } else {
      var rest := nodes - {n - 1};
      assert forall v | v in rest :: 0 <= v < n - 1;
      NodeSetSize(rest, n - 1);
      assert nodes <= rest + {n - 1};
    }
  }

  /** The labels still below the current ones; every correction removes some. */
  ghost function Below(universe: set<Cost>, s: Search): set<(int, Cost)>
    requires |s.have| == |s.dist|
  {
    set v, c | 0 <= v < |s.have| && c in universe && (!s.have[v] || c.Less(s.dist[v])) :: (v, c)
  }

  // ----- what the labels mean -----

  ghost function Gain(prices: seq<Cost>, s: Search, v: int): Cost
    requires 0 <= v < |prices| && v < |s.dist|
  {
    s.dist[v].Sub(prices[v])
  }

  /** Labels grow along the walk that produced them, measured against the node prices; so a walk
      never meets a node twice. */
  ghost predicate WalkOk(g: Graph, prices: seq<Cost>, origin: Cost, s: Search, v: int)
    requires Sized(g, s) && |prices| == |g| && 0 <= v < |g|
  {
    && v in s.walk[v] && 0 in s.walk[v]
    && (forall x | x in s.walk[v] :: 0 <= x < |g| && s.have[x] && Gain(prices, s, x).AtMost(Gain(prices, s, v)))
    && s.dist[v] in WalkCosts(origin, EdgeCosts(g), |s.walk[v]| - 1)
  }

  ghost predicate WalksOk(g: Graph, prices: seq<Cost>, origin: Cost, s: Search)
    requires Sized(g, s) && |prices| == |g|
  {
    forall v | 0 <= v < |g| && s.have[v] :: WalkOk(g, prices, origin, s, v)
  }

  ghost predicate TreeEdge(g: Graph, s: Search, v: int)
    requires Sized(g, s) && 0 <= v < |g|
  {
    var u, i := s.prev[v], s.prevEdge[v];
    && HasEdge(g, u, i) && s.have[u]
    && g[u][i].to == v && g[u][i].capacity > 0
    && s.dist[u].Add(g[u][i].cost).AtMost(s.dist[v])
    && (s.dist[v] == s.dist[u].Add(g[u][i].cost) ==> s.stamp[u] < s.stamp[v])
  }

  ghost predicate TreeOk(g: Graph, s: Search)
    requires Sized(g, s)
  {
    && (forall v | 0 <= v < |g| :: 0 <= s.stamp[v] < s.clock)
    && (forall v | 0 < v < |g| && s.have[v] :: TreeEdge(g, s, v))
  }

  /** The first k residual edges of u cannot lower another label. */
  ghost predicate Settled(g: Graph, s: Search, u: int, k: int)
    requires Sized(g, s) && 0 <= u < |g| && k <= |g[u]|
  {
    forall i | 0 <= i < k && g[u][i].capacity > 0 ::
      0 <= g[u][i].to < |g| && s.have[g[u][i].to] && s.dist[g[u][i].to].AtMost(s.dist[u].Add(g[u][i].cost))
  }

  ghost predicate SettledExcept(g: Graph, s: Search, current: int)
    requires Sized(g, s)
  {
    forall u | 0 <= u < |g| && s.have[u] && !s.inQueue[u] && u != current :: Settled(g, s, u, |g[u]|)
  }

  ghost predicate SearchOk(g: Graph, prices: seq<Cost>, origin: Cost, s: Search) {
    && Sized(g, s) && |prices| == |g|
    && QueueOk(g, s) && WalksOk(g, prices, origin, s) && TreeOk(g, s)
  }

  // ----- one correction -----

  ghost predicate Improves(s: Search, v: int, candidate: Cost)
    requires 0 <= v < |s.have| == |s.dist|
  {
    !s.have[v] || candidate.Less(s.dist[v])
  }

  ghost function Corrected(s: Search, u: int, i: int, v: int, candidate: Cost): Search
    requires |s.dist| == |s.have| == |s.prev| == |s.prevEdge| == |s.inQueue| == |s.walk| == |s.stamp|
    requires 0 <= u < |s.dist| && 0 <= v < |s.dist|
  {
    Search(s.dist[v := candidate], s.have[v := true], s.prev[v := u], s.prevEdge[v := i],
           if s.inQueue[v] then s.queue else s.queue + [v], s.inQueue[v := true],
           s.walk[v := s.walk[u] + {v}], s.stamp[v := s.clock], s.clock + 1)
  }

  /** Edge i of the reached node u leads to v and is residual. */
  ghost predicate Leads(g: Graph, s: Search, u: int, i: int, v: int) {
    && HasEdge(g, u, i) && 0 <= v < |g| && |s.have| == |s.dist| == |g|
    && s.have[u] && g[u][i].to == v && g[u][i].capacity > 0
  }

  lemma GainGrows(g: Graph, prices: seq<Cost>, s: Search, u: int, i: int, v: int)
    requires Leads(g, s, u, i, v) && Feasible(g, prices)
    ensures Gain(prices, s, u).AtMost(s.dist[u].Add(g[u][i].cost).Sub(prices[v]))
  {
    assert prices[v].AtMost(prices[u].Add(g[u][i].cost));
  }

  /** A corrected node was not on the walk before: otherwise prices would show a negative cycle. */
  lemma NewOnWalk(g: Graph, prices: seq<Cost>, origin: Cost, s: Search, u: int, i: int, v: int)
    requires Sized(g, s) && Feasible(g, prices) && Leads(g, s, u, i, v)
    requires WalkOk(g, prices, origin, s, u)
    requires Improves(s, v, s.dist[u].Add(g[u][i].cost))
    ensures v !in s.walk[u] && v != 0 && v != u
  {
    GainGrows(g, prices, s, u, i, v);
    if v in s.walk[u] {
      assert false;
    }
  }

  lemma CorrectedWalk(g: Graph, prices: seq<Cost>, origin: Cost, s: Search, u: int, i: int, v: int)
    requires Sized(g, s) && Feasible(g, prices) && Leads(g, s, u, i, v)
    requires WalkOk(g, prices, origin, s, u) && v !in s.walk[u] && v != 0
    ensures var t := Corrected(s, u, i, v, s.dist[u].Add(g[u][i].cost));
            Sized(g, t) && WalkOk(g, prices, origin, t, v)
  {
    GainGrows(g, prices, s, u, i, v);
    var candidate := s.dist[u].Add(g[u][i].cost);
    var t := Corrected(s, u, i, v, candidate);
    assert |t.walk[v]| == |s.walk[u]| + 1;
    assert g[u][i].cost in EdgeCosts(g);
    forall x | x in t.walk[v]
      ensures 0 <= x < |g| && t.have[x] && Gain(prices, t, x).AtMost(Gain(prices, t, v))
    {
      if x != v {
        assert Gain(prices, s, x).AtMost(Gain(prices, s, u));
      }
    }
  }

  lemma OtherWalk(g: Graph, prices: seq<Cost>, origin: Cost, s: Search, u: int, i: int, v: int, candidate: Cost, x: int)
    requires Sized(g, s) && |prices| == |g| && 0 <= u < |g| && 0 < v < |g| && 0 <= x < |g| && x != v
    requires Improves(s, v, candidate) && WalkOk(g, prices, origin, s, x)
    ensures Sized(g, Corrected(s, u, i, v, candidate)) && WalkOk(g, prices, origin, Corrected(s, u, i, v, candidate), x)
  {
    var t := Corrected(s, u, i, v, candidate);
    forall y | y in t.walk[x]
      ensures 0 <= y < |g| && t.have[y] && Gain(prices, t, y).AtMost(Gain(prices, t, x))
    {
      assert Gain(prices, s, y).AtMost(Gain(prices, s, x));
    }
  }

  lemma CorrectionKeepsQueue(g: Graph, s: Search, u: int, i: int, v: int, candidate: Cost)
    requires Sized(g, s) && QueueOk(g, s) && 0 <= u < |g| && 0 < v < |g|
    ensures var t := Corrected(s, u, i, v, candidate); Sized(g, t) && QueueOk(g, t)
  {
  }

  lemma CorrectionKeepsTree(g: Graph, s: Search, u: int, i: int, v: int)
    requires Sized(g, s) && TreeOk(g, s)
    requires Leads(g, s, u, i, v) && v != 0 && v != u && Improves(s, v, s.dist[u].Add(g[u][i].cost))
    ensures var t := Corrected(s, u, i, v, s.dist[u].Add(g[u][i].cost));
            Sized(g, t) && TreeOk(g, t)
  {
    var t := Corrected(s, u, i, v, s.dist[u].Add(g[u][i].cost));
    forall x | 0 < x < |g| && t.have[x] ensures TreeEdge(g, t, x) {
      if x != v {
        assert TreeEdge(g, s, x);
      }
    }
  }

  lemma SettledStays(g: Graph, s: Search, u: int, i: int, v: int, candidate: Cost, x: int, k: nat)
    requires Sized(g, s) && 0 <= u < |g| && 0 < v < |g| && 0 <= x < |g| && x != v && k <= |g[x]|
    requires Improves(s, v, candidate) && Settled(g, s, x, k)
    ensures Sized(g, Corrected(s, u, i, v, candidate)) && Settled(g, Corrected(s, u, i, v, candidate), x, k)
  {
  }

  ghost function Universe(g: Graph, origin: Cost): set<Cost> {
    WalkCosts(origin, EdgeCosts(g), |g|)
  }

  lemma CorrectionLowers(g: Graph, prices: seq<Cost>, origin: Cost, s: Search, u: int, i: int, v: int, candidate: Cost)
    requires Sized(g, s) && |prices| == |g| && 0 <= u < |g| && 0 < v < |g| && Improves(s, v, candidate)
    requires Sized(g, Corrected(s, u, i, v, candidate)) && WalkOk(g, prices, origin, Corrected(s, u, i, v, candidate), v)
    ensures Below(Universe(g, origin), Corrected(s, u, i, v, candidate)) < Below(Universe(g, origin), s)
  {
    var t := Corrected(s, u, i, v, candidate);
    NodeSetSize(t.walk[v], |g|);
    WalkCostsGrow(origin, EdgeCosts(g), |t.walk[v]| - 1, |g|);
    assert (v, candidate) in Below(Universe(g, origin), s) && (v, candidate) !in Below(Universe(g, origin), t);
  }

  /** A correction keeps everything the labels mean, settles the edge it used, and lowers the measure. */
  lemma Correction(g: Graph, prices: seq<Cost>, origin: Cost, s: Search, u: int, i: int, v: int)
    requires SearchOk(g, prices, origin, s) && Feasible(g, prices)
    requires Leads(g, s, u, i, v) && Improves(s, v, s.dist[u].Add(g[u][i].cost))
    requires SettledExcept(g, s, u) && Settled(g, s, u, i)
    ensures v != 0 && v != u
    ensures var t := Corrected(s, u, i, v, s.dist[u].Add(g[u][i].cost));
            && SearchOk(g, prices, origin, t) && SettledExcept(g, t, u) && Settled(g, t, u, i + 1)
            && Below(Universe(g, origin), t) < Below(Universe(g, origin), s)
  {
    var candidate := s.dist[u].Add(g[u][i].cost);
    var t := Corrected(s, u, i, v, candidate);
    assert WalkOk(g, prices, origin, s, u);
    NewOnWalk(g, prices, origin, s, u, i, v);
    CorrectedWalk(g, prices, origin, s, u, i, v);
    forall x | 0 <= x < |g| && t.have[x] ensures WalkOk(g, prices, origin, t, x) {
      if x != v {
        assert WalkOk(g, prices, origin, s, x);
        OtherWalk(g, prices, origin, s, u, i, v, candidate, x);
      }
    }
    CorrectionKeepsQueue(g, s, u, i, v, candidate);
    CorrectionKeepsTree(g, s, u, i, v);
    forall x | 0 <= x < |g| && t.have[x] && !t.inQueue[x] && x != u ensures Settled(g, t, x, |g[x]|) {
      assert Settled(g, s, x, |g[x]|);
      SettledStays(g, s, u, i, v, candidate, x, |g[x]|);
    }
    SettledStays(g, s, u, i, v, candidate, u, i);
    CorrectionLowers(g, prices, origin, s, u, i, v, candidate);
  }

  // ----- the search -----

  ghost function Start(n: nat, origin: Cost): Search
    requires n > 0
  {
    Search(seq(n, _ => origin), seq(n, _ => false)[0 := true], seq(n, _ => -1), seq(n, _ => -1),
           [0], seq(n, _ => false)[0 := true], seq(n, _ => {})[0 := {0}], seq(n, _ => 0), 1)
  }

  lemma StartOk(g: Graph, prices: seq<Cost>, origin: Cost)
    requires |g| > 0 && |prices| == |g|
    ensures SearchOk(g, prices, origin, Start(|g|, origin)) && SettledExcept(g, Start(|g|, origin), -1)
  {
    var s := Start(|g|, origin);
    forall v | 0 <= v < |g| && s.have[v] ensures WalkOk(g, prices, origin, s, v) {
      assert s.walk[v] == {0};
    }
  }

  /** Every residual edge out of a reached node leads to a reached node and cannot lower its label. */
  ghost predicate Finished(g: Graph, prices: seq<Cost>, origin: Cost, s: Search) {
    && SearchOk(g, prices, origin, s)
    && forall u | 0 <= u < |g| && s.have[u] :: Settled(g, s, u, |g[u]|)
  }

  /** The arrays of the search hold the labels. */
  ghost predicate Holds(dist: array<Cost>, have: array<bool>, prev: array<int>, prevEdge: array<int>, inQueue: array<bool>, s: Search)
    reads dist, have, prev, prevEdge, inQueue
  {
    && have != inQueue && prev != prevEdge
    && dist[..] == s.dist && have[..] == s.have && prev[..] == s.prev
    && prevEdge[..] == s.prevEdge && inQueue[..] == s.inQueue
  }

  method Plus(left: Cost, right: Cost) returns (sum: Cost)
    ensures sum == left.Add(right)
  {
    sum := Cost(left.strength + right.strength, left.distance + right.distance, left.tie + right.tie);
  }

  method Correct(node: int, i: int, to: int, candidate: Cost, dist: array<Cost>, have: array<bool>, prev: array<int>,
                 prevEdge: array<int>, inQueue: array<bool>, queue: seq<int>, ghost s: Search)
      returns (longer: seq<int>)
    requires |s.dist| == |s.have| == |s.prev| == |s.prevEdge| == |s.inQueue| == |s.walk| == |s.stamp|
    requires 0 <= node < |s.dist| && 0 <= to < |s.dist|
    requires Holds(dist, have, prev, prevEdge, inQueue, s) && queue == s.queue
    modifies dist, have, prev, prevEdge, inQueue
    ensures Holds(dist, have, prev, prevEdge, inQueue, Corrected(s, node, i, to, candidate))
    ensures longer == Corrected(s, node, i, to, candidate).queue
  {
    assert dist.Length == have.Length == prev.Length == prevEdge.Length == inQueue.Length == |s.dist|;
    dist[to] := candidate;
    have[to] := true;
    prev[to] := node;
    prevEdge[to] := i;
    longer := queue;
    if !inQueue[to] {
      longer := queue + [to];
      inQueue[to] := true;
    }
    assert inQueue[..] == s.inQueue[to := true];
  }

  /** Looks at edge i of a reached node and corrects the label it leads to if that is an improvement. */
  method Relax(edges: seq<FlowEdge>, node: int, i: int, dist: array<Cost>, have: array<bool>, prev: array<int>,
               prevEdge: array<int>, inQueue: array<bool>, queue: seq<int>,
               ghost g: Graph, ghost prices: seq<Cost>, ghost origin: Cost, ghost s: Search)
      returns (longer: seq<int>, ghost t: Search)
    requires HasEdge(g, node, i) && edges == g[node] && Paired(g) && Feasible(g, prices)
    requires SearchOk(g, prices, origin, s) && SettledExcept(g, s, node) && s.have[node] && Settled(g, s, node, i)
    requires Holds(dist, have, prev, prevEdge, inQueue, s) && queue == s.queue
    modifies dist, have, prev, prevEdge, inQueue
    ensures Holds(dist, have, prev, prevEdge, inQueue, t) && longer == t.queue
    ensures SearchOk(g, prices, origin, t) && SettledExcept(g, t, node) && t.have[node] && Settled(g, t, node, i + 1)
    ensures Below(Universe(g, origin), t) < Below(Universe(g, origin), s) || t == s
  {
    var edge := edges[i];
    longer, t := queue, s;
    assert Twinned(g, node, i);
    if edge.capacity > 0 {
      var candidate := Plus(dist[node], edge.cost);
      if !have[edge.to] || candidate.Less(dist[edge.to]) {
        Correction(g, prices, origin, s, node, i, edge.to);
        t := Corrected(s, node, i, edge.to, candidate);
        longer := Correct(node, i, edge.to, candidate, dist, have, prev, prevEdge, inQueue, queue, s);
      }
    }
  }

  method ScanNode(edges: seq<FlowEdge>, node: int, dist: array<Cost>, have: array<bool>, prev: array<int>,
                  prevEdge: array<int>, inQueue: array<bool>, queue: seq<int>,
                  ghost g: Graph, ghost prices: seq<Cost>, ghost origin: Cost, ghost s: Search)
      returns (longer: seq<int>, ghost t: Search)
    requires 0 <= node < |g| && edges == g[node] && Paired(g) && Feasible(g, prices)
    requires SearchOk(g, prices, origin, s) && SettledExcept(g, s, node) && s.have[node]
    requires Holds(dist, have, prev, prevEdge, inQueue, s) && queue == s.queue
    modifies dist, have, prev, prevEdge, inQueue
    ensures Holds(dist, have, prev, prevEdge, inQueue, t) && longer == t.queue
    ensures SearchOk(g, prices, origin, t) && SettledExcept(g, t, -1)
    ensures Below(Universe(g, origin), t) < Below(Universe(g, origin), s) || t == s
  {
    var edgeIndex := 0;
    longer, t := queue, s;
    while edgeIndex < |edges|
      invariant 0 <= edgeIndex <= |edges|
      invariant SearchOk(g, prices, origin, t) && SettledExcept(g, t, node)
      invariant t.have[node] && Settled(g, t, node, edgeIndex)
      invariant Holds(dist, have, prev, prevEdge, inQueue, t) && longer == t.queue
      invariant Below(Universe(g, origin), t) < Below(Universe(g, origin), s) || t == s
    {
      longer, t := Relax(edges, node, edgeIndex, dist, have, prev, prevEdge, inQueue, longer, g, prices, origin, t);
      edgeIndex := edgeIndex + 1;
    }
  }

  method Begin(n: nat, ghost origin: Cost)
      returns (dist: array<Cost>, have: array<bool>, prev: array<int>, prevEdge: array<int>, inQueue: array<bool>)
    requires n > 0 && origin == Cost(0, 0, 0)
    ensures fresh(dist) && fresh(have) && fresh(prev) && fresh(prevEdge) && fresh(inQueue)
    ensures Holds(dist, have, prev, prevEdge, inQueue, Start(n, origin))
  {
    dist := new Cost[n](_ => Cost(0, 0, 0));
    have := new bool[n](_ => false);
    prev := new int[n](_ => -1);
    prevEdge := new int[n](_ => -1);
    inQueue := new bool[n](_ => false);
    have[0] := true;
    inQueue[0] := true;
  }

  method CheapestPaths(graph: array<seq<FlowEdge>>, ghost prices: seq<Cost>)
      returns (haveDistance: array<bool>, previousNode: array<int>, previousEdge: array<int>, ghost s: Search)
    requires graph.Length > 0 && Paired(graph[..]) && Feasible(graph[..], prices)
    ensures Finished(graph[..], prices, Cost(0, 0, 0), s)
    ensures haveDistance[..] == s.have && previousNode[..] == s.prev && previousEdge[..] == s.prevEdge
    ensures fresh(haveDistance) && fresh(previousNode) && fresh(previousEdge)
  {
    hide Paired, WalksOk, TreeOk, Below, Universe;
    ghost var g, origin := graph[..], Cost(0, 0, 0);
    var dist, inQueue;
    dist, haveDistance, previousNode, previousEdge, inQueue := Begin(graph.Length, origin);
    var queue := [0];
    s := Start(graph.Length, origin);
    StartOk(g, prices, origin);
    while |queue| > 0
      invariant graph[..] == g && SearchOk(g, prices, origin, s) && SettledExcept(g, s, -1)
      invariant Holds(dist, haveDistance, previousNode, previousEdge, inQueue, s) && queue == s.queue
      decreases Below(Universe(g, origin), s), |queue|
    {
      var node := queue[0];
      PopOk(g, prices, origin, s);
      queue := queue[1..];
      inQueue[node] := false;
      s := Popped(s);
      queue, s := ScanNode(graph[node], node, dist, haveDistance, previousNode, previousEdge, inQueue,
                           queue, g, prices, origin, s);
    }
  }

  ghost function Popped(s: Search): Search
    requires |s.queue| > 0 && 0 <= s.queue[0] < |s.inQueue|
  {
    s.(queue := s.queue[1..], inQueue := s.inQueue[s.queue[0] := false])
  }

  lemma PopKeepsQueue(g: Graph, s: Search)
    requires Sized(g, s) && QueueOk(g, s) && |s.queue| > 0
    ensures 0 <= s.queue[0] < |g| && s.have[s.queue[0]] && QueueOk(g, Popped(s))
  {
    assert s.queue[0] in s.queue;
    assert s.queue == [s.queue[0]] + s.queue[1..];
    var t := Popped(s);
    forall v | v in t.queue ensures v in s.queue && v != s.queue[0] {
      var i :| 0 <= i < |t.queue| && t.queue[i] == v;
      assert s.queue[i + 1] == v;
    }
  }

  lemma PopKeepsLabels(g: Graph, prices: seq<Cost>, origin: Cost, s: Search)
    requires Sized(g, s) && |prices| == |g| && WalksOk(g, prices, origin, s) && TreeOk(g, s)
    requires |s.queue| > 0 && 0 <= s.queue[0] < |g|
    ensures Sized(g, Popped(s)) && WalksOk(g, prices, origin, Popped(s)) && TreeOk(g, Popped(s))
  {
    var t := Popped(s);
    forall v | 0 <= v < |g| && t.have[v] ensures WalkOk(g, prices, origin, t, v) {
      assert WalkOk(g, prices, origin, s, v);
      forall x | x in t.walk[v] ensures Gain(prices, t, x).AtMost(Gain(prices, t, v)) {
        assert Gain(prices, s, x).AtMost(Gain(prices, s, v));
      }
    }
    forall v | 0 < v < |g| && t.have[v] ensures TreeEdge(g, t, v) {
      assert TreeEdge(g, s, v);
    }
  }

  lemma PopOk(g: Graph, prices: seq<Cost>, origin: Cost, s: Search)
    requires SearchOk(g, prices, origin, s) && SettledExcept(g, s, -1) && |s.queue| > 0
    ensures 0 <= s.queue[0] < |g| && s.have[s.queue[0]]
    ensures SearchOk(g, prices, origin, Popped(s)) && SettledExcept(g, Popped(s), s.queue[0])
    ensures Below(Universe(g, origin), Popped(s)) == Below(Universe(g, origin), s)
  {
    PopKeepsQueue(g, s);
    PopKeepsLabels(g, prices, origin, s);
    var t := Popped(s);
    forall u | 0 <= u < |g| && t.have[u] && !t.inQueue[u] && u != s.queue[0] ensures Settled(g, t, u, |g[u]|) {
      assert Settled(g, s, u, |g[u]|);
    }
  }
}
