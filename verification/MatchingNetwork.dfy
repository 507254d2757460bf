/** The network built for one partition: source 0, then a node per fallback, a node per native, and
    the sink. `lists[f]` holds the candidate natives of fallback f, in rank order, with their costs. */
module MatchingNetwork {
  import opened FlowCost
  import opened FlowNetwork
  import opened AssignmentDuality

  type CandidateLists = seq<seq<(int, Cost)>>

  ghost predicate WellFormed(lists: CandidateLists, natives: nat) {
    && (forall f, k | 0 <= f < |lists| && 0 <= k < |lists[f]| :: 0 <= lists[f][k].0 < natives)
    && (forall f, k, l | 0 <= f < |lists| && 0 <= k < l < |lists[f]| :: lists[f][k].0 != lists[f][l].0)
  }

  function SinkOf(fallbacks: nat, natives: nat): int {
    fallbacks + natives + 1
  }

  ghost predicate FallbackLinked(g: Graph, f: int) {
    && |g| > 0 && 0 <= f < |g[0]| && 1 + f < |g| && |g[1 + f]| > 0
    && g[0][f].to == 1 + f && g[0][f].rev == 0 && g[0][f].cost.IsFree()
    && g[1 + f][0].to == 0 && g[1 + f][0].rev == f && g[1 + f][0].nativePos == -1
  }

  ghost predicate CandidateEdge(e: FlowEdge, fallbacks: nat, candidate: (int, Cost)) {
    e.to == 1 + fallbacks + candidate.0 && e.nativePos == candidate.0 && e.cost == candidate.1
  }

  ghost predicate FallbackNode(g: Graph, fallbacks: nat, candidates: seq<(int, Cost)>, f: int)
    requires |g| > 0
  {
    && FallbackLinked(g, f) && |g[1 + f]| == 1 + |candidates|
    && forall k | 0 <= k < |candidates| :: CandidateEdge(g[1 + f][1 + k], fallbacks, candidates[k])
  }

  ghost predicate NativeLinked(g: Graph, fallbacks: nat, natives: nat, n: int) {
    var node, sink := 1 + fallbacks + n, SinkOf(fallbacks, natives);
    && 0 <= n < natives && sink < |g| && |g[node]| > 0
    && g[node][0].to == sink && g[node][0].rev == n && g[node][0].cost.IsFree()
  }

  ghost predicate NativeNode(g: Graph, fallbacks: nat, natives: nat, n: int) {
    && NativeLinked(g, fallbacks, natives, n)
    && var edges := g[1 + fallbacks + n];
       forall j | 1 <= j < |edges| :: 1 <= edges[j].to <= fallbacks
  }

  ghost predicate Layout(g: Graph, fallbacks: nat, natives: nat, lists: CandidateLists) {
    && |g| == SinkOf(fallbacks, natives) + 1 && |lists| == fallbacks
    && |g[0]| == fallbacks && |g[SinkOf(fallbacks, natives)]| == natives
    && (forall f | 0 <= f < fallbacks :: FallbackNode(g, fallbacks, lists[f], f))
    && (forall n | 0 <= n < natives :: NativeNode(g, fallbacks, natives, n))
  }

  lemma SameShapeKeepsLayout(g: Graph, h: Graph, fallbacks: nat, natives: nat, lists: CandidateLists)
    requires Layout(g, fallbacks, natives, lists) && SameShape(g, h)
    ensures Layout(h, fallbacks, natives, lists)
  {
    forall f | 0 <= f < fallbacks ensures FallbackNode(h, fallbacks, lists[f], f) {
      assert FallbackNode(g, fallbacks, lists[f], f);
      assert HasEdge(g, 0, f) && HasEdge(g, 1 + f, 0);
      forall k | 0 <= k < |lists[f]| ensures CandidateEdge(h[1 + f][1 + k], fallbacks, lists[f][k]) {
        assert HasEdge(g, 1 + f, 1 + k) && CandidateEdge(g[1 + f][1 + k], fallbacks, lists[f][k]);
      }
    }
    forall n | 0 <= n < natives ensures NativeNode(h, fallbacks, natives, n) {
      assert NativeNode(g, fallbacks, natives, n);
      var node := 1 + fallbacks + n;
      assert HasEdge(g, node, 0);
      forall j | 1 <= j < |h[node]| ensures 1 <= h[node][j].to <= fallbacks {
        assert HasEdge(g, node, j);
      }
    }
  }

  // ----- before any flow -----

  ghost predicate Untouched(g: Graph) {
    forall u, i | HasEdge(g, u, i) :: FlowOn(u, g[u][i]) == 0
  }

  lemma {:induction false} UntouchedOutflow(u: int, edges: seq<FlowEdge>, k: nat)
    requires k <= |edges| && forall i | 0 <= i < k :: FlowOn(u, edges[i]) == 0
    ensures Net(u, edges, k) == 0
  {
    if k > 0 { UntouchedOutflow(u, edges, k - 1); }
  }

  ghost predicate Balanced(g: Graph, sink: int) {
    forall v | 0 < v < sink && v < |g| :: Outflow(g, v) == 0
  }

  lemma StartsBalanced(g: Graph, sink: int)
    requires Untouched(g)
    ensures forall v | 0 <= v < |g| :: Outflow(g, v) == 0
  {
    forall v | 0 <= v < |g| ensures Outflow(g, v) == 0 {
      forall i | 0 <= i < |g[v]| ensures FlowOn(v, g[v][i]) == 0 {
        assert HasEdge(g, v, i);
      }
      UntouchedOutflow(v, g[v], |g[v]|);
    }
  }

  // ----- building it -----

  ghost predicate Under(g: Graph) {
    Paired(g) && Untouched(g)
  }

  lemma WithEdgeKeepsUnder(g: Graph, from: int, to: int, cost: Cost, nativePos: int)
    requires 0 <= from < to < |g| && Under(g)
    ensures Under(WithEdge(g, from, to, cost, nativePos))
  {
    WithEdgeKeepsPaired(g, from, to, cost, nativePos);
    var h := WithEdge(g, from, to, cost, nativePos);
    forall u, i | HasEdge(h, u, i) ensures FlowOn(u, h[u][i]) == 0 {
      if HasEdge(g, u, i) {
        assert FlowOn(u, g[u][i]) == 0;
      }
    }
  }

  /** The first `k` fallbacks are linked to the source, and nothing else is linked. */
  ghost predicate SourceLinked(g: Graph, fallbacks: nat, natives: nat, k: nat) {
    && |g| == SinkOf(fallbacks, natives) + 1 && k <= fallbacks && |g[0]| == k
    && (forall f | 0 <= f < k :: FallbackNode(g, fallbacks, [], f))
    && (forall v | k < v < |g| :: g[v] == [])
  }

  /** All fallbacks are linked to the source, and the first `k` natives to the sink. */
  ghost predicate SinkLinked(g: Graph, fallbacks: nat, natives: nat, k: nat) {
    && |g| == SinkOf(fallbacks, natives) + 1 && k <= natives
    && |g[0]| == fallbacks && |g[SinkOf(fallbacks, natives)]| == k
    && (forall f | 0 <= f < fallbacks :: FallbackNode(g, fallbacks, [], f))
    && (forall n | 0 <= n < k :: NativeNode(g, fallbacks, natives, n))
    && (forall v | fallbacks + k < v < SinkOf(fallbacks, natives) :: g[v] == [])
  }

  lemma SourceLink(g: Graph, fallbacks: nat, natives: nat, k: nat)
    requires SourceLinked(g, fallbacks, natives, k) && k < fallbacks
    ensures SourceLinked(WithEdge(g, 0, 1 + k, Cost(0, 0, 0), -1), fallbacks, natives, k + 1)
  {
    var h := WithEdge(g, 0, 1 + k, Cost(0, 0, 0), -1);
    forall f | 0 <= f <= k ensures FallbackNode(h, fallbacks, [], f) {
      if f < k { assert FallbackNode(g, fallbacks, [], f); }
    }
  }

  lemma SinkLink(g: Graph, fallbacks: nat, natives: nat, k: nat)
    requires SinkLinked(g, fallbacks, natives, k) && k < natives
    ensures SinkLinked(WithEdge(g, 1 + fallbacks + k, SinkOf(fallbacks, natives), Cost(0, 0, 0), -1), fallbacks, natives, k + 1)
  {
    var h := WithEdge(g, 1 + fallbacks + k, SinkOf(fallbacks, natives), Cost(0, 0, 0), -1);
    forall f | 0 <= f < fallbacks ensures FallbackNode(h, fallbacks, [], f) {
      assert FallbackNode(g, fallbacks, [], f);
    }
    forall n | 0 <= n <= k ensures NativeNode(h, fallbacks, natives, n) {
      if n < k { assert NativeNode(g, fallbacks, natives, n); }
    }
  }

  method LinkSource(graph: array<seq<FlowEdge>>, fallbacks: nat, natives: nat)
    requires graph.Length == SinkOf(fallbacks, natives) + 1
    requires forall v | 0 <= v < graph.Length :: graph[v] == []
    modifies graph
    ensures Under(graph[..]) && SourceLinked(graph[..], fallbacks, natives, fallbacks)
  {
    var f := 0;
    while f < fallbacks
      invariant 0 <= f <= fallbacks
      invariant Under(graph[..]) && SourceLinked(graph[..], fallbacks, natives, f)
    {
      SourceLink(graph[..], fallbacks, natives, f);
      WithEdgeKeepsUnder(graph[..], 0, 1 + f, Cost(0, 0, 0), -1);
      AddFlowEdge(graph, 0, 1 + f, Cost(0, 0, 0), -1);
      f := f + 1;
    }
  }

  method LinkSink(graph: array<seq<FlowEdge>>, fallbacks: nat, natives: nat)
    requires graph.Length == SinkOf(fallbacks, natives) + 1
    requires Under(graph[..]) && SinkLinked(graph[..], fallbacks, natives, 0)
    modifies graph
    ensures Under(graph[..]) && SinkLinked(graph[..], fallbacks, natives, natives)
  {
    var n := 0;
    while n < natives
      invariant 0 <= n <= natives
      invariant Under(graph[..]) && SinkLinked(graph[..], fallbacks, natives, n)
    {
      SinkLink(graph[..], fallbacks, natives, n);
      WithEdgeKeepsUnder(graph[..], 1 + fallbacks + n, SinkOf(fallbacks, natives), Cost(0, 0, 0), -1);
      AddFlowEdge(graph, 1 + fallbacks + n, SinkOf(fallbacks, natives), Cost(0, 0, 0), -1);
      n := n + 1;
    }
  }

  lemma CandidateKeepsLayout(g: Graph, fallbacks: nat, natives: nat, lists: CandidateLists, f: nat, candidate: (int, Cost))
    requires Layout(g, fallbacks, natives, lists) && f < fallbacks && 0 <= candidate.0 < natives
    ensures Layout(WithEdge(g, 1 + f, 1 + fallbacks + candidate.0, candidate.1, candidate.0), fallbacks, natives,
                   lists[f := lists[f] + [candidate]])
  {
    var h := WithEdge(g, 1 + f, 1 + fallbacks + candidate.0, candidate.1, candidate.0);
    var more := lists[f := lists[f] + [candidate]];
    assert FallbackNode(g, fallbacks, lists[f], f);
    forall x | 0 <= x < fallbacks ensures FallbackNode(h, fallbacks, more[x], x) {
      assert FallbackNode(g, fallbacks, lists[x], x);
      forall k | 0 <= k < |more[x]| ensures CandidateEdge(h[1 + x][1 + k], fallbacks, more[x][k]) {
        if k < |lists[x]| {
          assert CandidateEdge(g[1 + x][1 + k], fallbacks, lists[x][k]);
        }
      }
    }
    forall n | 0 <= n < natives ensures NativeNode(h, fallbacks, natives, n) {
      assert NativeNode(g, fallbacks, natives, n);
    }
  }

  method LinkCandidates(graph: array<seq<FlowEdge>>, fallbacks: nat, natives: nat, ghost lists: CandidateLists,
                        f: nat, candidates: seq<(int, Cost)>)
    requires Under(graph[..]) && Layout(graph[..], fallbacks, natives, lists) && f < fallbacks && lists[f] == []
    requires forall k | 0 <= k < |candidates| :: 0 <= candidates[k].0 < natives
    modifies graph
    ensures Under(graph[..]) && Layout(graph[..], fallbacks, natives, lists[f := candidates])
  {
    var rank := 0;
    assert lists[f := candidates[..0]] == lists;
    while rank < |candidates|
      invariant 0 <= rank <= |candidates|
      invariant Under(graph[..]) && Layout(graph[..], fallbacks, natives, lists[f := candidates[..rank]])
    {
      var candidate := candidates[rank];
      CandidateKeepsLayout(graph[..], fallbacks, natives, lists[f := candidates[..rank]], f, candidate);
      WithEdgeKeepsUnder(graph[..], 1 + f, 1 + fallbacks + candidate.0, candidate.1, candidate.0);
      AddFlowEdge(graph, 1 + f, 1 + fallbacks + candidate.0, candidate.1, candidate.0);
      rank := rank + 1;
      assert candidates[..rank] == candidates[..rank - 1] + [candidate];
      assert lists[f := candidates[..rank - 1]][f := candidates[..rank]] == lists[f := candidates[..rank]];
    }
    assert candidates[..rank] == candidates;
  }

  ghost function FirstLists(lists: CandidateLists, k: nat): (first: CandidateLists)
    requires k <= |lists|
    ensures |first| == |lists|
  {
    seq(|lists|, f requires 0 <= f < |lists| => if f < k then lists[f] else [])
  }

  lemma SourceThenSink(g: Graph, fallbacks: nat, natives: nat)
    requires SourceLinked(g, fallbacks, natives, fallbacks)
    ensures SinkLinked(g, fallbacks, natives, 0)
  {
  }

  lemma SinkThenCandidates(g: Graph, fallbacks: nat, natives: nat, lists: CandidateLists)
    requires SinkLinked(g, fallbacks, natives, natives) && |lists| == fallbacks
    requires forall f | 0 <= f < fallbacks :: lists[f] == []
    ensures Layout(g, fallbacks, natives, lists)
  {
    forall f | 0 <= f < fallbacks ensures FallbackNode(g, fallbacks, lists[f], f) {
      assert FallbackNode(g, fallbacks, [], f);
    }
  }

  method BuildFrame(fallbacks: nat, natives: nat) returns (graph: array<seq<FlowEdge>>)
    ensures fresh(graph) && Under(graph[..]) && SinkLinked(graph[..], fallbacks, natives, natives)
  {
    graph := new seq<FlowEdge>[SinkOf(fallbacks, natives) + 1](_ => []);
    LinkSource(graph, fallbacks, natives);
    SourceThenSink(graph[..], fallbacks, natives);
    LinkSink(graph, fallbacks, natives);
  }

  lemma NextList(lists: CandidateLists, f: nat)
    requires f < |lists|
    ensures FirstLists(lists, f)[f] == [] && FirstLists(lists, f)[f := lists[f]] == FirstLists(lists, f + 1)
  {
  }

  lemma AllLists(lists: CandidateLists)
    ensures FirstLists(lists, |lists|) == lists
  {
  }

  method Build(fallbacks: nat, natives: nat, lists: CandidateLists) returns (graph: array<seq<FlowEdge>>)
    requires |lists| == fallbacks && WellFormed(lists, natives)
    ensures fresh(graph) && Under(graph[..]) && Layout(graph[..], fallbacks, natives, lists)
  {
    graph := BuildFrame(fallbacks, natives);
    SinkThenCandidates(graph[..], fallbacks, natives, FirstLists(lists, 0));
    var f := 0;
    while f < fallbacks
      invariant 0 <= f <= fallbacks && fresh(graph)
      invariant Under(graph[..]) && Layout(graph[..], fallbacks, natives, FirstLists(lists, f))
    {
      NextList(lists, f);
      LinkCandidates(graph, fallbacks, natives, FirstLists(lists, f), f, lists[f]);
      f := f + 1;
    }
    AllLists(lists);
  }
}
