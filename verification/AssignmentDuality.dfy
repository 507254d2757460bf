/** Bipartite matchings with lexicographic costs, and the dual certificate that proves one optimal.
    A matching is a sequence that gives each fallback position its native position, or -1. */
module AssignmentDuality {
  import opened FlowCost

  type Arcs = map<(int, int), Cost>

  ghost predicate IsMatching(natives: nat, arcs: Arcs, m: seq<int>) {
    && (forall f | 0 <= f < |m| :: m[f] == -1 || (0 <= m[f] < natives && (f, m[f]) in arcs))
    && (forall f, g | 0 <= f < g < |m| :: m[f] == -1 || m[f] != m[g])
  }

  ghost function Size(m: seq<int>): nat {
    if m == [] then 0 else Size(m[..|m| - 1]) + if m[|m| - 1] == -1 then 0 else 1
  }

  ghost function Costs(arcs: Arcs, m: seq<int>): seq<Cost>
    requires forall f | 0 <= f < |m| :: m[f] == -1 || (f, m[f]) in arcs
  {
    seq(|m|, f requires 0 <= f < |m| => if m[f] == -1 then Cost(0, 0, 0) else arcs[(f, m[f])])
  }

  ghost function TotalCost(arcs: Arcs, m: seq<int>): Cost
    requires forall f | 0 <= f < |m| :: m[f] == -1 || (f, m[f]) in arcs
  {
    Sum(Costs(arcs, m), |m|)
  }

  /** Node prices of the residual network of a matching: no residual arc has a negative reduced
      cost. Unmatched fallbacks can still be reached from the source, matched ones lead back to it;
      unmatched natives still lead to the sink, matched ones are reached back from it. */
  datatype Prices = Prices(source: Cost, fallback: seq<Cost>, native: seq<Cost>, sink: Cost)

  ghost predicate FallbackOk(m: seq<int>, p: Prices, f: int)
    requires 0 <= f < |m| == |p.fallback|
  {
    if m[f] == -1 then p.fallback[f].AtMost(p.source) else p.source.AtMost(p.fallback[f])
  }

  ghost predicate NativeOk(m: seq<int>, p: Prices, n: int)
    requires 0 <= n < |p.native|
  {
    if n in m then p.native[n].AtMost(p.sink) else p.sink.AtMost(p.native[n])
  }

  ghost predicate ArcOk(m: seq<int>, p: Prices, a: (int, int), cost: Cost)
    requires |m| == |p.fallback|
  {
    && 0 <= a.0 < |m| && 0 <= a.1 < |p.native|
    && if m[a.0] == a.1 then p.fallback[a.0].Add(cost).AtMost(p.native[a.1])
       else p.native[a.1].AtMost(p.fallback[a.0].Add(cost))
  }

  ghost predicate Certifies(natives: nat, arcs: Arcs, m: seq<int>, p: Prices) {
    && |p.fallback| == |m| && |p.native| == natives
    && (forall f | 0 <= f < |m| :: FallbackOk(m, p, f))
    && (forall n | 0 <= n < natives :: NativeOk(m, p, n))
    && (forall a | a in arcs :: ArcOk(m, p, a, arcs[a]))
  }

  /** The share of a matched arc that depends on its fallback side. */
  ghost function FallbackShare(arcs: Arcs, m: seq<int>, p: Prices, f: int): Cost
    requires 0 <= f < |m| == |p.fallback|
    requires m[f] == -1 || ((f, m[f]) in arcs && 0 <= m[f] < |p.native|)
  {
    if m[f] == -1 then Cost(0, 0, 0)
    else arcs[(f, m[f])].Add(p.fallback[f]).Sub(p.native[m[f]]).Add(p.source).Sub(p.fallback[f])
  }

  ghost function NativeShare(m: seq<int>, p: Prices, n: int): Cost
    requires 0 <= n < |p.native|
  {
    if n in m then p.native[n].Sub(p.sink) else Cost(0, 0, 0)
  }

  ghost function MatchedNativeShare(m: seq<int>, p: Prices, f: int): Cost
    requires 0 <= f < |m|
    requires m[f] == -1 || 0 <= m[f] < |p.native|
  {
    if m[f] == -1 then Cost(0, 0, 0) else p.native[m[f]].Sub(p.sink)
  }

  ghost function FallbackShares(arcs: Arcs, m: seq<int>, p: Prices): (s: seq<Cost>)
    requires |p.fallback| == |m|
    requires forall f | 0 <= f < |m| && m[f] != -1 :: (f, m[f]) in arcs && 0 <= m[f] < |p.native|
    ensures |s| == |m|
  {
    seq(|m|, f requires 0 <= f < |m| => FallbackShare(arcs, m, p, f))
  }

  ghost function NativeShares(m: seq<int>, p: Prices): (s: seq<Cost>)
    ensures |s| == |p.native|
  {
    seq(|p.native|, n requires 0 <= n < |p.native| => NativeShare(m, p, n))
  }

  ghost function MatchedNativeShares(m: seq<int>, p: Prices): (s: seq<Cost>)
    requires forall f | 0 <= f < |m| :: m[f] == -1 || 0 <= m[f] < |p.native|
    ensures |s| == |m|
  {
    seq(|m|, f requires 0 <= f < |m| => MatchedNativeShare(m, p, f))
  }

  ghost function PerPair(m: seq<int>, c: Cost): (s: seq<Cost>)
    ensures |s| == |m|
  {
    seq(|m|, f requires 0 <= f < |m| => if m[f] == -1 then Cost(0, 0, 0) else c)
  }

  lemma {:induction false} SumPrefix(a: seq<Cost>, b: seq<Cost>, k: nat)
    requires k <= |a| && k <= |b|
    requires forall i | 0 <= i < k :: a[i] == b[i]
    ensures Sum(a, k) == Sum(b, k)
  {
    if k > 0 { SumPrefix(a, b, k - 1); }
  }

  /** Counting the native shares by fallback or by native is the same. */
  lemma {:induction false} Reindex(natives: nat, arcs: Arcs, m: seq<int>, p: Prices)
    requires IsMatching(natives, arcs, m) && |p.native| == natives
    ensures Sum(MatchedNativeShares(m, p), |m|) == Sum(NativeShares(m, p), natives)
    decreases |m|
  {
    if m == [] {
      SumOfFree(NativeShares(m, p), natives);
    } else {
      var k := |m| - 1;
      var rest := m[..k];
      Reindex(natives, arcs, rest, p);
      SumPrefix(MatchedNativeShares(rest, p), MatchedNativeShares(m, p), k);
      assert m == rest + [m[k]];
      if m[k] == -1 {
        SumPrefix(NativeShares(rest, p), NativeShares(m, p), natives);
      } else {
        assert m[k] !in rest;
        var share := p.native[m[k]].Sub(p.sink);
        SumUpdate(NativeShares(rest, p), m[k], share, natives);
        SumPrefix(NativeShares(rest, p)[m[k] := share], NativeShares(m, p), natives);
      }
    }
  }

  lemma {:induction false} ConstantShares(m: seq<int>, c: Cost)
    ensures Sum(PerPair(m, c), |m|) == Times(Size(m), c)
    decreases |m|
  {
    if m != [] {
      var k := |m| - 1;
      ConstantShares(m[..k], c);
      SumPrefix(PerPair(m[..k], c), PerPair(m, c), k);
    }
  }

  ghost function PairShares(arcs: Arcs, m: seq<int>, p: Prices): (s: seq<Cost>)
    requires |p.fallback| == |m|
    requires forall f | 0 <= f < |m| && m[f] != -1 :: (f, m[f]) in arcs && 0 <= m[f] < |p.native|
    requires forall f | 0 <= f < |m| :: m[f] >= -1
    ensures |s| == |m|
  {
    seq(|m|, f requires 0 <= f < |m| => FallbackShare(arcs, m, p, f).Add(MatchedNativeShare(m, p, f)))
  }

  lemma SplitPair(arcs: Arcs, m: seq<int>, p: Prices, f: nat)
    requires f < |m| == |p.fallback|
    requires forall f | 0 <= f < |m| :: m[f] == -1 || ((f, m[f]) in arcs && 0 <= m[f] < |p.native|)
    ensures Costs(arcs, m)[f] == PairShares(arcs, m, p)[f].Add(PerPair(m, p.sink.Sub(p.source))[f])
  {
  }

  /** The cost of any matching, split along the node prices. */
  lemma Split(natives: nat, arcs: Arcs, m: seq<int>, p: Prices)
    requires IsMatching(natives, arcs, m) && |p.fallback| == |m| && |p.native| == natives
    ensures TotalCost(arcs, m)
         == Sum(FallbackShares(arcs, m, p), |m|).Add(Sum(NativeShares(m, p), natives))
              .Add(Times(Size(m), p.sink.Sub(p.source)))
  {
    SumOfSums(FallbackShares(arcs, m, p), MatchedNativeShares(m, p), PairShares(arcs, m, p), |m|);
    forall f | 0 <= f < |m| {
      SplitPair(arcs, m, p, f);
    }
    SumOfSums(PairShares(arcs, m, p), PerPair(m, p.sink.Sub(p.source)), Costs(arcs, m), |m|);
    Reindex(natives, arcs, m, p);
    ConstantShares(m, p.sink.Sub(p.source));
  }

  lemma FallbackShareLeast(natives: nat, arcs: Arcs, m: seq<int>, p: Prices, other: seq<int>, f: nat)
    requires IsMatching(natives, arcs, m) && Certifies(natives, arcs, m, p)
    requires IsMatching(natives, arcs, other) && |other| == |m| && f < |m|
    ensures FallbackShare(arcs, m, p, f).AtMost(FallbackShare(arcs, other, p, f))
  {
    assert FallbackOk(m, p, f);
    if m[f] != -1 {
      assert (f, m[f]) in arcs && ArcOk(m, p, (f, m[f]), arcs[(f, m[f])]);
    }
    if other[f] != -1 && other[f] != m[f] {
      assert (f, other[f]) in arcs && ArcOk(m, p, (f, other[f]), arcs[(f, other[f])]);
    }
  }

  /** Weak duality, in the form the algorithm needs: a certified matching is cheapest once every
      matched pair is charged the price difference between source and sink. */
  lemma Optimal(natives: nat, arcs: Arcs, m: seq<int>, p: Prices, other: seq<int>)
    requires IsMatching(natives, arcs, m) && Certifies(natives, arcs, m, p)
    requires IsMatching(natives, arcs, other) && |other| == |m|
    ensures TotalCost(arcs, m).Sub(Times(Size(m), p.sink.Sub(p.source)))
              .AtMost(TotalCost(arcs, other).Sub(Times(Size(other), p.sink.Sub(p.source))))
  {
    Split(natives, arcs, m, p);
    Split(natives, arcs, other, p);
    forall f | 0 <= f < |m|
      ensures FallbackShares(arcs, m, p)[f].AtMost(FallbackShares(arcs, other, p)[f])
    {
      FallbackShareLeast(natives, arcs, m, p, other, f);
    }
    SumMonotone(FallbackShares(arcs, m, p), FallbackShares(arcs, other, p), |m|);
    forall n | 0 <= n < natives ensures NativeShares(m, p)[n].AtMost(NativeShares(other, p)[n]) {
      assert NativeOk(m, p, n);
    }
    SumMonotone(NativeShares(m, p), NativeShares(other, p), natives);
  }

  lemma {:induction false} TimesUnit(k: nat, unit: Cost)
    requires unit.strength == 1 && unit.distance == 0 && unit.tie == 0
    ensures Times(k, unit).strength == k && Times(k, unit).distance == 0 && Times(k, unit).tie == 0
  {
    if k > 0 { TimesUnit(k - 1, unit); }
  }

  /** A cut: if free arcs leave one unit between the prices of source and sink, and the prices still
      certify the matching, then no matching is larger. */
  lemma Maximum(natives: nat, free: Arcs, m: seq<int>, p: Prices, other: seq<int>)
    requires forall a | a in free :: free[a].IsFree()
    requires IsMatching(natives, free, m) && IsMatching(natives, free, other) && |other| == |m|
    requires p.sink.strength == p.source.strength + 1
    requires p.sink.distance == p.source.distance && p.sink.tie == p.source.tie
    requires Certifies(natives, free, m, p)
    ensures Size(other) <= Size(m)
  {
    Optimal(natives, free, m, p, other);
    SumOfFree(Costs(free, m), |m|);
    SumOfFree(Costs(free, other), |m|);
    TimesUnit(Size(m), p.sink.Sub(p.source));
    TimesUnit(Size(other), p.sink.Sub(p.source));
  }
}
