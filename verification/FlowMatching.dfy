/** A balanced flow of the matching network is a matching, and feasible node prices of its residual
    network certify it. */
module FlowMatching {
  import opened FlowCost
  import opened FlowNetwork
  import opened AssignmentDuality
  import opened MatchingNetwork

  // ----- counting the saturated pairs at one node -----

  /** The pair of this edge carries the unit. */
  predicate Carries(u: int, e: FlowEdge) {
    if u < e.to then e.capacity == 0 else e.capacity == 1
  }

  ghost function Carried(u: int, edges: seq<FlowEdge>, k: nat): nat
    requires k <= |edges|
  {
    if k <= 1 then 0 else Carried(u, edges, k - 1) + if Carries(u, edges[k - 1]) then 1 else 0
  }

  lemma {:induction false} CarriedOnce(u: int, edges: seq<FlowEdge>, k: nat, i: nat)
    requires 1 <= i < k <= |edges| && Carries(u, edges[i])
    ensures Carried(u, edges, k) >= 1
    decreases k
  {
    if i < k - 1 { CarriedOnce(u, edges, k - 1, i); }
  }

  lemma {:induction false} CarriedTwice(u: int, edges: seq<FlowEdge>, k: nat, i: nat, j: nat)
    requires 1 <= i < j < k <= |edges| && Carries(u, edges[i]) && Carries(u, edges[j])
    ensures Carried(u, edges, k) >= 2
    decreases k
  {
    if j < k - 1 { CarriedTwice(u, edges, k - 1, i, j); } else { CarriedOnce(u, edges, k - 1, i); }
  }

  lemma {:induction false} CarrierExists(u: int, edges: seq<FlowEdge>, k: nat) returns (i: nat)
    requires k <= |edges| && Carried(u, edges, k) >= 1
    ensures 1 <= i < k && Carries(u, edges[i])
    decreases k
  {
    if Carries(u, edges[k - 1]) { i := k - 1; } else { i := CarrierExists(u, edges, k - 1); }
  }

  lemma {:induction false} NetOfFallback(u: int, edges: seq<FlowEdge>, k: nat)
    requires 1 <= k <= |edges|
    requires forall i | 1 <= i < k :: u < edges[i].to && 0 <= edges[i].capacity <= 1
    ensures Net(u, edges, k) == FlowOn(u, edges[0]) + Carried(u, edges, k)
    decreases k
  {
    if k > 1 { NetOfFallback(u, edges, k - 1); }
  }

  lemma {:induction false} NetOfNative(u: int, edges: seq<FlowEdge>, k: nat)
    requires 1 <= k <= |edges|
    requires forall i | 1 <= i < k :: edges[i].to < u && 0 <= edges[i].capacity <= 1
    ensures Net(u, edges, k) == FlowOn(u, edges[0]) - Carried(u, edges, k)
    decreases k
  {
    if k > 1 { NetOfNative(u, edges, k - 1); }
  }

  // ----- the matching a flow stands for -----

  /** The native position of the first saturated candidate edge from index i on, or -1. */
  function Picked(edges: seq<FlowEdge>, i: nat): int
    requires i <= |edges|
    decreases |edges| - i
  {
    if i == |edges| then -1
    else if edges[i].nativePos >= 0 && edges[i].capacity == 0 then edges[i].nativePos
    else Picked(edges, i + 1)
  }

  lemma {:induction false} PickedIs(edges: seq<FlowEdge>, i: nat, j: nat)
    requires i <= j < |edges| && edges[j].nativePos >= 0 && edges[j].capacity == 0
    requires forall k | i <= k < |edges| && k != j :: edges[k].nativePos < 0 || edges[k].capacity != 0
    ensures Picked(edges, i) == edges[j].nativePos
    decreases |edges| - i
  {
    if i < j { PickedIs(edges, i + 1, j); }
  }

  lemma {:induction false} PickedNone(edges: seq<FlowEdge>, i: nat)
    requires i <= |edges|
    requires forall k | i <= k < |edges| :: edges[k].nativePos < 0 || edges[k].capacity != 0
    ensures Picked(edges, i) == -1
    decreases |edges| - i
  {
    if i < |edges| { PickedNone(edges, i + 1); }
  }

  ghost predicate IsFlow(g: Graph, fallbacks: nat, natives: nat, lists: CandidateLists) {
    && WellFormed(lists, natives) && Layout(g, fallbacks, natives, lists)
    && Paired(g) && Balanced(g, SinkOf(fallbacks, natives))
  }

  ghost function MatchingOf(g: Graph, fallbacks: nat): (m: seq<int>)
    requires |g| > fallbacks
    ensures |m| == fallbacks
  {
    seq(fallbacks, f requires 0 <= f < fallbacks => Picked(g[1 + f], 0))
  }

  /** The edges of a fallback node, apart from the graph they belong to. */
  ghost predicate FallbackEdges(u: int, edges: seq<FlowEdge>, candidates: seq<(int, Cost)>) {
    && |edges| == 1 + |candidates| && edges[0].to < u && edges[0].nativePos == -1
    && (forall i | 0 <= i < |edges| :: 0 <= edges[i].capacity <= 1)
    && (forall i | 1 <= i < |edges| :: u < edges[i].to && edges[i].nativePos == candidates[i - 1].0)
    && (forall k | 0 <= k < |candidates| :: 0 <= candidates[k].0)
    && (forall k, l | 0 <= k < l < |candidates| :: candidates[k].0 != candidates[l].0)
  }

  lemma FallbackEdgesOf(g: Graph, fallbacks: nat, natives: nat, lists: CandidateLists, f: nat)
    requires IsFlow(g, fallbacks, natives, lists) && f < fallbacks
    ensures FallbackNode(g, fallbacks, lists[f], f) && FallbackEdges(1 + f, g[1 + f], lists[f])
  {
    assert FallbackNode(g, fallbacks, lists[f], f);
    var edges := g[1 + f];
    forall i | 0 <= i < |edges|
      ensures 0 <= edges[i].capacity <= 1
      ensures i > 0 ==> 1 + f < edges[i].to && edges[i].nativePos == lists[f][i - 1].0
    {
      assert HasEdge(g, 1 + f, i) && Twinned(g, 1 + f, i);
      if i > 0 { assert CandidateEdge(edges[1 + (i - 1)], fallbacks, lists[f][i - 1]); }
    }
  }

  /** A fallback sends on exactly the unit it receives. */
  lemma OneSaturated(u: int, edges: seq<FlowEdge>, candidates: seq<(int, Cost)>)
    requires FallbackEdges(u, edges, candidates) && Net(u, edges, |edges|) == 0
    ensures edges[0].capacity == 0 ==>
      Picked(edges, 0) == -1 && forall i | 1 <= i < |edges| :: edges[i].capacity != 0
    ensures edges[0].capacity == 1 ==>
      exists j :: 1 <= j < |edges| && Picked(edges, 0) == candidates[j - 1].0 && edges[j].capacity == 0
                  && forall i | 1 <= i < |edges| && i != j :: edges[i].capacity != 0
  {
    NetOfFallback(u, edges, |edges|);
    if edges[0].capacity == 0 {
      forall i | 1 <= i < |edges| ensures edges[i].capacity != 0 {
        if edges[i].capacity == 0 { CarriedOnce(u, edges, |edges|, i); }
      }
      PickedNone(edges, 0);
    } else {
      var j := CarrierExists(u, edges, |edges|);
      forall i | 1 <= i < |edges| && i != j ensures edges[i].capacity != 0 {
        if edges[i].capacity == 0 { CarriedTwice(u, edges, |edges|, if i < j then i else j, if i < j then j else i); }
      }
      PickedIs(edges, 0, j);
    }
  }

  lemma AtFallback(g: Graph, fallbacks: nat, natives: nat, lists: CandidateLists, f: nat)
    requires IsFlow(g, fallbacks, natives, lists) && f < fallbacks
    ensures FallbackNode(g, fallbacks, lists[f], f)
    ensures (Picked(g[1 + f], 0) == -1) == (g[1 + f][0].capacity == 0)
    ensures forall k | 0 <= k < |lists[f]| :: (g[1 + f][1 + k].capacity == 0) == (Picked(g[1 + f], 0) == lists[f][k].0)
    ensures Picked(g[1 + f], 0) != -1 ==>
      exists k :: 0 <= k < |lists[f]| && Picked(g[1 + f], 0) == lists[f][k].0
  {
    FallbackEdgesOf(g, fallbacks, natives, lists, f);
    assert Outflow(g, 1 + f) == 0;
    OneSaturated(1 + f, g[1 + f], lists[f]);
  }

  /** The candidate edge that matches fallback f, seen from its native. */
  lemma MatchedTwin(g: Graph, fallbacks: nat, natives: nat, lists: CandidateLists, f: nat) returns (j: nat)
    requires IsFlow(g, fallbacks, natives, lists) && f < fallbacks && Picked(g[1 + f], 0) != -1
    ensures 0 <= Picked(g[1 + f], 0) < natives
    ensures var n := Picked(g[1 + f], 0); var edges := g[1 + fallbacks + n];
            1 <= j < |edges| && edges[j].to == 1 + f && Carries(1 + fallbacks + n, edges[j])
  {
    AtFallback(g, fallbacks, natives, lists, f);
    var n := Picked(g[1 + f], 0);
    var k :| 0 <= k < |lists[f]| && n == lists[f][k].0;
    assert CandidateEdge(g[1 + f][1 + k], fallbacks, lists[f][k]);
    assert HasEdge(g, 1 + f, 1 + k) && Twinned(g, 1 + f, 1 + k);
    assert NativeNode(g, fallbacks, natives, n);
    j := g[1 + f][1 + k].rev;
  }

  /** A native receives at most the unit it passes to the sink. */
  lemma AtNative(g: Graph, fallbacks: nat, natives: nat, lists: CandidateLists, n: nat)
    requires IsFlow(g, fallbacks, natives, lists) && n < natives
    ensures NativeNode(g, fallbacks, natives, n)
    ensures 0 <= g[1 + fallbacks + n][0].capacity <= 1
    ensures Carried(1 + fallbacks + n, g[1 + fallbacks + n], |g[1 + fallbacks + n]|)
         == 1 - g[1 + fallbacks + n][0].capacity
  {
    var u := 1 + fallbacks + n;
    assert NativeNode(g, fallbacks, natives, n);
    forall i | 0 <= i < |g[u]| ensures 0 <= g[u][i].capacity <= 1 {
      assert HasEdge(g, u, i) && Twinned(g, u, i);
    }
    NetOfNative(u, g[u], |g[u]|);
    assert Outflow(g, u) == 0;
  }

  lemma MatchedNative(g: Graph, fallbacks: nat, natives: nat, lists: CandidateLists, n: nat)
    requires IsFlow(g, fallbacks, natives, lists) && n < natives
    ensures NativeNode(g, fallbacks, natives, n)
    ensures n in MatchingOf(g, fallbacks) <==> g[1 + fallbacks + n][0].capacity == 0
  {
    var m := MatchingOf(g, fallbacks);
    var u := 1 + fallbacks + n;
    AtNative(g, fallbacks, natives, lists, n);
    if n in m {
      var f :| 0 <= f < |m| && m[f] == n;
      var j := MatchedTwin(g, fallbacks, natives, lists, f);
      CarriedOnce(u, g[u], |g[u]|, j);
    }
    if g[u][0].capacity == 0 {
      var j := CarrierExists(u, g[u], |g[u]|);
      assert HasEdge(g, u, j) && Twinned(g, u, j);
      var f := g[u][j].to - 1;
      AtFallback(g, fallbacks, natives, lists, f);
      var k := g[u][j].rev - 1;
      assert CandidateEdge(g[1 + f][1 + k], fallbacks, lists[f][k]);
      assert m[f] == n;
    }
  }

  lemma Injective(g: Graph, fallbacks: nat, natives: nat, lists: CandidateLists, f: nat, h: nat)
    requires IsFlow(g, fallbacks, natives, lists) && f < h < fallbacks && Picked(g[1 + f], 0) != -1
    ensures Picked(g[1 + f], 0) != Picked(g[1 + h], 0)
  {
    if Picked(g[1 + f], 0) == Picked(g[1 + h], 0) {
      var n := Picked(g[1 + f], 0);
      var i := MatchedTwin(g, fallbacks, natives, lists, f);
      var j := MatchedTwin(g, fallbacks, natives, lists, h);
      var u := 1 + fallbacks + n;
      CarriedTwice(u, g[u], |g[u]|, if i < j then i else j, if i < j then j else i);
      AtNative(g, fallbacks, natives, lists, n);
      assert false;
    }
  }

  // ----- costs and certificates -----

  /** The cost that counts: the real one, or none at all when only the number of pairs matters. */
  ghost function Weight(flat: bool, c: Cost): Cost {
    if flat then c.Sub(c) else c
  }

  ghost function ArcsOf(lists: CandidateLists, natives: nat, flat: bool): Arcs
    requires WellFormed(lists, natives)
  {
    map f, k | 0 <= f < |lists| && 0 <= k < |lists[f]| :: (f, lists[f][k].0) := Weight(flat, lists[f][k].1)
  }

  lemma ArcCost(lists: CandidateLists, natives: nat, flat: bool, f: nat, k: nat)
    requires WellFormed(lists, natives) && f < |lists| && k < |lists[f]|
    ensures (f, lists[f][k].0) in ArcsOf(lists, natives, flat)
    ensures ArcsOf(lists, natives, flat)[(f, lists[f][k].0)] == Weight(flat, lists[f][k].1)
  {
  }

  /** Counting pairs only: the same arcs, all free. */
  lemma FlatArcs(lists: CandidateLists, natives: nat)
    requires WellFormed(lists, natives)
    ensures ArcsOf(lists, natives, true).Keys == ArcsOf(lists, natives, false).Keys
    ensures forall a | a in ArcsOf(lists, natives, true) :: ArcsOf(lists, natives, true)[a].IsFree()
  {
  }

  lemma PickedIsArc(g: Graph, fallbacks: nat, natives: nat, lists: CandidateLists, flat: bool, f: nat)
    requires IsFlow(g, fallbacks, natives, lists) && f < fallbacks && Picked(g[1 + f], 0) != -1
    ensures 0 <= Picked(g[1 + f], 0) < natives && (f, Picked(g[1 + f], 0)) in ArcsOf(lists, natives, flat)
  {
    AtFallback(g, fallbacks, natives, lists, f);
    var k :| 0 <= k < |lists[f]| && Picked(g[1 + f], 0) == lists[f][k].0;
    ArcCost(lists, natives, flat, f, k);
  }

  lemma FlowIsMatching(g: Graph, fallbacks: nat, natives: nat, lists: CandidateLists, flat: bool)
    requires IsFlow(g, fallbacks, natives, lists)
    ensures IsMatching(natives, ArcsOf(lists, natives, flat), MatchingOf(g, fallbacks))
  {
    var m, arcs := MatchingOf(g, fallbacks), ArcsOf(lists, natives, flat);
    forall f | 0 <= f < fallbacks ensures m[f] == -1 || (0 <= m[f] < natives && (f, m[f]) in arcs) {
      if m[f] != -1 { PickedIsArc(g, fallbacks, natives, lists, flat, f); }
    }
    forall f, h | 0 <= f < h < fallbacks ensures m[f] == -1 || m[f] != m[h] {
      if m[f] != -1 { Injective(g, fallbacks, natives, lists, f, h); }
    }
  }

  /** Node prices that are feasible when every residual edge counts with its weight. */
  ghost predicate Priced(g: Graph, prices: seq<Cost>, flat: bool) {
    && |prices| == |g|
    && forall u, i | HasEdge(g, u, i) && g[u][i].capacity > 0 ::
         0 <= g[u][i].to < |g| && prices[g[u][i].to].AtMost(prices[u].Add(Weight(flat, g[u][i].cost)))
  }

  ghost function PricesOf(prices: seq<Cost>, fallbacks: nat, natives: nat): Prices
    requires |prices| == SinkOf(fallbacks, natives) + 1
  {
    Prices(prices[0], prices[1..1 + fallbacks], prices[1 + fallbacks..1 + fallbacks + natives], prices[SinkOf(fallbacks, natives)])
  }

  lemma FreeStep(x: Cost, y: Cost, flat: bool, c: Cost)
    requires c.IsFree() && x.AtMost(y.Add(Weight(flat, c)))
    ensures x.AtMost(y)
  {
  }

  lemma EntryPriced(g: Graph, prices: seq<Cost>, flat: bool, f: nat)
    requires Paired(g) && FallbackLinked(g, f) && Priced(g, prices, flat)
    ensures g[1 + f][0].capacity == 0 ==> prices[1 + f].AtMost(prices[0])
    ensures g[1 + f][0].capacity != 0 ==> prices[0].AtMost(prices[1 + f])
  {
    assert HasEdge(g, 1 + f, 0) && Twinned(g, 1 + f, 0);
    if g[1 + f][0].capacity != 0 {
      FreeStep(prices[0], prices[1 + f], flat, g[1 + f][0].cost);
    } else {
      assert HasEdge(g, 0, f);
      FreeStep(prices[1 + f], prices[0], flat, g[0][f].cost);
    }
  }

  lemma FallbackPriced(g: Graph, fallbacks: nat, natives: nat, lists: CandidateLists, prices: seq<Cost>, flat: bool, f: nat)
    requires IsFlow(g, fallbacks, natives, lists) && Priced(g, prices, flat) && f < fallbacks
    ensures MatchingOf(g, fallbacks)[f] == -1 ==> prices[1 + f].AtMost(prices[0])
    ensures MatchingOf(g, fallbacks)[f] != -1 ==> prices[0].AtMost(prices[1 + f])
  {
    AtFallback(g, fallbacks, natives, lists, f);
    EntryPriced(g, prices, flat, f);
  }

  lemma ExitPriced(g: Graph, fallbacks: nat, natives: nat, prices: seq<Cost>, flat: bool, n: nat)
    requires |g| == SinkOf(fallbacks, natives) + 1 && |g[SinkOf(fallbacks, natives)]| == natives && Paired(g)
    requires NativeLinked(g, fallbacks, natives, n) && Priced(g, prices, flat)
    ensures g[1 + fallbacks + n][0].capacity != 0 ==> prices[SinkOf(fallbacks, natives)].AtMost(prices[1 + fallbacks + n])
    ensures g[1 + fallbacks + n][0].capacity == 0 ==> prices[1 + fallbacks + n].AtMost(prices[SinkOf(fallbacks, natives)])
  {
    var u, sink := 1 + fallbacks + n, SinkOf(fallbacks, natives);
    assert HasEdge(g, u, 0) && Twinned(g, u, 0);
    if g[u][0].capacity != 0 {
      FreeStep(prices[sink], prices[u], flat, g[u][0].cost);
    } else {
      assert HasEdge(g, sink, n);
      FreeStep(prices[u], prices[sink], flat, g[sink][n].cost);
    }
  }

  lemma NativePriced(g: Graph, fallbacks: nat, natives: nat, lists: CandidateLists, prices: seq<Cost>, flat: bool, n: nat)
    requires IsFlow(g, fallbacks, natives, lists) && Priced(g, prices, flat) && n < natives
    ensures n !in MatchingOf(g, fallbacks) ==> prices[SinkOf(fallbacks, natives)].AtMost(prices[1 + fallbacks + n])
    ensures n in MatchingOf(g, fallbacks) ==> prices[1 + fallbacks + n].AtMost(prices[SinkOf(fallbacks, natives)])
  {
    MatchedNative(g, fallbacks, natives, lists, n);
    ExitPriced(g, fallbacks, natives, prices, flat, n);
  }

  lemma CandidatePriced(g: Graph, fallbacks: nat, natives: nat, lists: CandidateLists, prices: seq<Cost>, flat: bool, f: nat, k: nat)
    requires IsFlow(g, fallbacks, natives, lists) && Priced(g, prices, flat) && f < fallbacks && k < |lists[f]|
    ensures 0 <= lists[f][k].0 < natives
    ensures var c := prices[1 + f].Add(Weight(flat, lists[f][k].1));
            if Picked(g[1 + f], 0) == lists[f][k].0 then c.AtMost(prices[1 + fallbacks + lists[f][k].0])
            else prices[1 + fallbacks + lists[f][k].0].AtMost(c)
  {
    AtFallback(g, fallbacks, natives, lists, f);
    assert CandidateEdge(g[1 + f][1 + k], fallbacks, lists[f][k]);
    assert HasEdge(g, 1 + f, 1 + k) && Twinned(g, 1 + f, 1 + k);
    var e := g[1 + f][1 + k];
    assert HasEdge(g, e.to, e.rev);
  }

  lemma CandidateOk(g: Graph, fallbacks: nat, natives: nat, lists: CandidateLists, prices: seq<Cost>, flat: bool, f: nat, k: nat)
    requires IsFlow(g, fallbacks, natives, lists) && Priced(g, prices, flat) && f < fallbacks && k < |lists[f]|
    ensures ArcOk(MatchingOf(g, fallbacks), PricesOf(prices, fallbacks, natives), (f, lists[f][k].0), Weight(flat, lists[f][k].1))
  {
    CandidatePriced(g, fallbacks, natives, lists, prices, flat, f, k);
    var p := PricesOf(prices, fallbacks, natives);
    assert p.fallback[f] == prices[1 + f] && p.native[lists[f][k].0] == prices[1 + fallbacks + lists[f][k].0];
  }

  lemma ArcPriced(g: Graph, fallbacks: nat, natives: nat, lists: CandidateLists, prices: seq<Cost>, flat: bool, a: (int, int))
    requires IsFlow(g, fallbacks, natives, lists) && Priced(g, prices, flat) && a in ArcsOf(lists, natives, flat)
    ensures ArcOk(MatchingOf(g, fallbacks), PricesOf(prices, fallbacks, natives), a, ArcsOf(lists, natives, flat)[a])
  {
    var f, k :| 0 <= f < |lists| && 0 <= k < |lists[f]| && a == (f, lists[f][k].0);
    ArcCost(lists, natives, flat, f, k);
    CandidateOk(g, fallbacks, natives, lists, prices, flat, f, k);
  }

  lemma FlowCertified(g: Graph, fallbacks: nat, natives: nat, lists: CandidateLists, prices: seq<Cost>, flat: bool)
    requires IsFlow(g, fallbacks, natives, lists) && Priced(g, prices, flat)
    ensures Certifies(natives, ArcsOf(lists, natives, flat), MatchingOf(g, fallbacks), PricesOf(prices, fallbacks, natives))
  {
    var m, p, arcs := MatchingOf(g, fallbacks), PricesOf(prices, fallbacks, natives), ArcsOf(lists, natives, flat);
    forall f | 0 <= f < |m| ensures FallbackOk(m, p, f) {
      FallbackPriced(g, fallbacks, natives, lists, prices, flat, f);
    }
    forall n | 0 <= n < natives ensures NativeOk(m, p, n) {
      NativePriced(g, fallbacks, natives, lists, prices, flat, n);
    }
    forall a | a in arcs ensures ArcOk(m, p, a, arcs[a]) {
      ArcPriced(g, fallbacks, natives, lists, prices, flat, a);
    }
  }
}
