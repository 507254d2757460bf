/** Best assignments of partitions that share no record add up to a best assignment of their union. */
module PartitionUnion {
  import opened FlowCost
  import opened AssignmentDuality
  import opened StableOrder
  import opened CandidateMatching

  /** A partition's records and candidate edges are its own. */
  ghost predicate Closed<K(!new)>(fallbacks: seq<K>, natives: seq<K>, candidates: map<K, map<K, Edge>>) {
    && (forall f | f in candidates :: f in fallbacks)
    && (forall f, n | f in candidates && n in candidates[f] :: n in natives)
  }

  ghost predicate Apart<K(!new)>(s: seq<K>, t: seq<K>) {
    forall x | x in s :: x !in t
  }

  ghost function Part<K>(a: map<K, K>, fallbacks: seq<K>): map<K, K> {
    map f | f in a && f in fallbacks :: a[f]
  }

  lemma PartIsAssignment<K(!new)>(a: map<K, K>, fallbacks: seq<K>, natives: seq<K>, candidates: map<K, map<K, Edge>>,
                                  allFallbacks: seq<K>, allNatives: seq<K>, all: map<K, map<K, Edge>>)
    requires IsAssignment(a, allFallbacks, allNatives, all) && Closed(fallbacks, natives, candidates)
    requires forall f | f in fallbacks && f in all :: f in candidates && candidates[f] == all[f]
    ensures IsAssignment(Part(a, fallbacks), fallbacks, natives, candidates)
  {
  }

  lemma {:induction false} SumOfConcat(a: seq<Cost>, b: seq<Cost>, k: nat)
    requires k <= |b|
    ensures Sum(a + b, |a| + k) == Sum(a, |a|).Add(Sum(b, k))
  {
    if k == 0 {
      SumPrefix(a + b, a, |a|);
    } else {
      SumOfConcat(a, b, k - 1);
    }
  }

  lemma CostOfUnion<K(!new)>(a: map<K, K>, f1: seq<K>, f2: seq<K>, c1: map<K, map<K, Edge>>, c2: map<K, map<K, Edge>>,
                       r1: seq<seq<K>>, r2: seq<seq<K>>)
    requires |r1| == |f1| && |r2| == |f2| && Apart(f1, f2)
    requires (forall f | f in c1 :: f in f1) && (forall f | f in c2 :: f in f2)
    requires forall f | f in a :: f in c1 + c2 && a[f] in (c1 + c2)[f] && f in f1 + f2
    ensures forall f | f in Part(a, f1) :: f in c1 && a[f] in c1[f]
    ensures forall f | f in Part(a, f2) :: f in c2 && a[f] in c2[f]
    ensures AssignmentCost(a, f1 + f2, c1 + c2, r1 + r2)
         == AssignmentCost(Part(a, f1), f1, c1, r1).Add(AssignmentCost(Part(a, f2), f2, c2, r2))
  {
    var s1 := AssignmentCosts(Part(a, f1), f1, c1, r1);
    var s2 := AssignmentCosts(Part(a, f2), f2, c2, r2);
    var s := AssignmentCosts(a, f1 + f2, c1 + c2, r1 + r2);
    forall i | 0 <= i < |s| ensures s[i] == (s1 + s2)[i] {
      var f := (f1 + f2)[i];
      if i < |f1| {
        assert f == f1[i] && f in f1;
      } else {
        assert f == f2[i - |f1|] && f in f2;
      }
    }
    SumPrefix(s, s1 + s2, |s|);
    SumOfConcat(s1, s2, |s2|);
  }

  lemma SizeOfUnion<K(!new)>(a: map<K, K>, f1: seq<K>, f2: seq<K>)
    requires Apart(f1, f2) && forall f | f in a :: f in f1 + f2
    ensures |a| == |Part(a, f1)| + |Part(a, f2)|
  {
    var k1, k2 := Part(a, f1).Keys, Part(a, f2).Keys;
    assert a.Keys == k1 + k2;
    assert k1 !! k2;
  }

  lemma UnionIsAssignment<K(!new)>(m1: map<K, K>, f1: seq<K>, n1: seq<K>, c1: map<K, map<K, Edge>>,
                                   m2: map<K, K>, f2: seq<K>, n2: seq<K>, c2: map<K, map<K, Edge>>)
    requires IsAssignment(m1, f1, n1, c1) && IsAssignment(m2, f2, n2, c2)
    requires Apart(f1, f2) && Apart(n1, n2)
    requires (forall f | f in c1 :: f in f1) && (forall f | f in c2 :: f in f2)
    ensures IsAssignment(m1 + m2, f1 + f2, n1 + n2, c1 + c2)
    ensures Part(m1 + m2, f1) == m1 && Part(m1 + m2, f2) == m2
  {
  }

  lemma PartBeats<K(!new)>(m: map<K, K>, r: seq<seq<K>>, f: seq<K>, n: seq<K>, c: map<K, map<K, Edge>>,
                           allF: seq<K>, allN: seq<K>, all: map<K, map<K, Edge>>, a: map<K, K>)
    requires |r| == |f| && IsBest(m, r, f, n, c) && Closed(f, n, c) && IsAssignment(a, allF, allN, all)
    requires forall x | x in f && x in all :: x in c && c[x] == all[x]
    ensures forall x | x in Part(a, f) :: x in c && a[x] in c[x]
    ensures |Part(a, f)| <= |m|
    ensures |Part(a, f)| == |m| ==> AssignmentCost(m, f, c, r).AtMost(AssignmentCost(Part(a, f), f, c, r))
  {
    PartIsAssignment(a, f, n, c, allF, allN, all);
  }

  lemma CostBeats<K(!new)>(x: Cost, y: Cost, a: map<K, K>, f1: seq<K>, f2: seq<K>, c1: map<K, map<K, Edge>>,
                           c2: map<K, map<K, Edge>>, r1: seq<seq<K>>, r2: seq<seq<K>>)
    requires |r1| == |f1| && |r2| == |f2| && Apart(f1, f2)
    requires (forall f | f in c1 :: f in f1) && (forall f | f in c2 :: f in f2)
    requires forall f | f in a :: f in c1 + c2 && a[f] in (c1 + c2)[f] && f in f1 + f2
    requires forall f | f in Part(a, f1) :: f in c1 && a[f] in c1[f]
    requires forall f | f in Part(a, f2) :: f in c2 && a[f] in c2[f]
    requires x.AtMost(AssignmentCost(Part(a, f1), f1, c1, r1)) && y.AtMost(AssignmentCost(Part(a, f2), f2, c2, r2))
    ensures x.Add(y).AtMost(AssignmentCost(a, f1 + f2, c1 + c2, r1 + r2))
  {
    CostOfUnion(a, f1, f2, c1, c2, r1, r2);
  }

  lemma PartsAgree<K(!new)>(f1: seq<K>, n1: seq<K>, c1: map<K, map<K, Edge>>, f2: seq<K>, n2: seq<K>, c2: map<K, map<K, Edge>>)
    requires Closed(f1, n1, c1) && Closed(f2, n2, c2) && Apart(f1, f2)
    ensures forall x | x in f1 && x in c1 + c2 :: x in c1 && c1[x] == (c1 + c2)[x]
    ensures forall x | x in f2 && x in c1 + c2 :: x in c2 && c2[x] == (c1 + c2)[x]
  {
  }

  lemma UnionBeats<K(!new)>(m1: map<K, K>, r1: seq<seq<K>>, f1: seq<K>, n1: seq<K>, c1: map<K, map<K, Edge>>,
                            m2: map<K, K>, r2: seq<seq<K>>, f2: seq<K>, n2: seq<K>, c2: map<K, map<K, Edge>>, a: map<K, K>)
    requires |r1| == |f1| && |r2| == |f2| && IsBest(m1, r1, f1, n1, c1) && IsBest(m2, r2, f2, n2, c2)
    requires Closed(f1, n1, c1) && Closed(f2, n2, c2) && Apart(f1, f2) && IsAssignment(a, f1 + f2, n1 + n2, c1 + c2)
    ensures |a| <= |m1| + |m2|
    ensures |a| == |m1| + |m2| ==>
      AssignmentCost(m1, f1, c1, r1).Add(AssignmentCost(m2, f2, c2, r2)).AtMost(AssignmentCost(a, f1 + f2, c1 + c2, r1 + r2))
  {
    PartsAgree(f1, n1, c1, f2, n2, c2);
    PartBeats(m1, r1, f1, n1, c1, f1 + f2, n1 + n2, c1 + c2, a);
    PartBeats(m2, r2, f2, n2, c2, f1 + f2, n1 + n2, c1 + c2, a);
    SizeOfUnion(a, f1, f2);
    if |a| == |m1| + |m2| {
      hide IsBest, AssignmentCost, Part;
      CostBeats(AssignmentCost(m1, f1, c1, r1), AssignmentCost(m2, f2, c2, r2), a, f1, f2, c1, c2, r1, r2);
    }
  }

  lemma UnionOfBest<K(!new)>(m1: map<K, K>, r1: seq<seq<K>>, f1: seq<K>, n1: seq<K>, c1: map<K, map<K, Edge>>,
                             m2: map<K, K>, r2: seq<seq<K>>, f2: seq<K>, n2: seq<K>, c2: map<K, map<K, Edge>>)
    requires |r1| == |f1| && |r2| == |f2| && IsBest(m1, r1, f1, n1, c1) && IsBest(m2, r2, f2, n2, c2)
    requires Closed(f1, n1, c1) && Closed(f2, n2, c2) && Apart(f1, f2) && Apart(n1, n2)
    ensures IsBest(m1 + m2, r1 + r2, f1 + f2, n1 + n2, c1 + c2)
  {
    var m := m1 + m2;
    UnionIsAssignment(m1, f1, n1, c1, m2, f2, n2, c2);
    CostOfUnion(m, f1, f2, c1, c2, r1, r2);
    SizeOfUnion(m, f1, f2);
    forall a | IsAssignment(a, f1 + f2, n1 + n2, c1 + c2)
      ensures |a| <= |m|
      ensures |a| == |m| ==> AssignmentCost(m, f1 + f2, c1 + c2, r1 + r2).AtMost(AssignmentCost(a, f1 + f2, c1 + c2, r1 + r2))
    {
      UnionBeats(m1, r1, f1, n1, c1, m2, r2, f2, n2, c2, a);
    }
  }

  lemma CandidatesOfUnion<K(!new)>(f: K, n1: seq<K>, n2: seq<K>, c1: map<K, map<K, Edge>>, c2: map<K, map<K, Edge>>)
    requires forall n | f in c1 && n in c1[f] :: n in n1
    requires forall n | f in c2 && n in c2[f] :: n in n2
    ensures CandidatesOf(f, n1 + n2, c1 + c2)
         == if f in c2 then CandidatesOf(f, n2, c2) else CandidatesOf(f, n1, c1)
  {
  }

  lemma RankingOfUnion<K(!new)>(r1: seq<seq<K>>, f1: seq<K>, n1: seq<K>, c1: map<K, map<K, Edge>>,
                                r2: seq<seq<K>>, f2: seq<K>, n2: seq<K>, c2: map<K, map<K, Edge>>, orders: map<K, Order>)
    requires IsRanking(r1, f1, n1, c1, orders) && IsRanking(r2, f2, n2, c2, orders)
    requires Closed(f1, n1, c1) && Closed(f2, n2, c2) && Apart(f1, f2)
    ensures IsRanking(r1 + r2, f1 + f2, n1 + n2, c1 + c2, orders)
  {
    forall i | 0 <= i < |f1 + f2|
      ensures Lists((r1 + r2)[i], CandidatesOf((f1 + f2)[i], n1 + n2, c1 + c2))
      ensures forall k | 0 <= k < |(r1 + r2)[i]| :: (r1 + r2)[i][k] in orders
      ensures Sorted((r1 + r2)[i], orders)
    {
      var f := (f1 + f2)[i];
      CandidatesOfUnion(f, n1, n2, c1, c2);
      if i < |f1| {
        assert f == f1[i] && f in f1 && f !in c2;
      } else {
        assert f == f2[i - |f1|] && f in f2;
        if f !in c2 {
          assert CandidatesOf(f, n2, c2) == {} == CandidatesOf(f, n1, c1);
        }
      }
    }
  }
}
