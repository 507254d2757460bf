/** The candidate edges of all records: buckets by shape key, then a binary search for the completion
    window inside each bucket, instead of the full product of fallbacks and natives. */
module CandidateSearch {
  import opened Wrappers
  import opened ProtocolEdge
  import opened CandidateBuckets
  import opened RecordBuckets

  /** For each partition and fallback the natives it may be paired with. */
  type Candidates = map<string, map<Ref, map<Ref, Edge>>>

  predicate Has(c: Candidates, p: string, f: Ref, n: Ref) {
    p in c && f in c[p] && n in c[p][f]
  }

  /** Partitions and fallbacks are entered only together with an edge. */
  ghost predicate NoneEmpty(c: Candidates) {
    && (forall p | p in c :: c[p] != map[])
    && (forall p, f | p in c && f in c[p] :: c[p][f] != map[])
  }

  /** The records with their partitions and completion times. */
  datatype Records = Records(obs: seq<Observation>, partitions: seq<string>, times: seq<int>)
  {
    ghost predicate Valid() {
      && |obs| == |partitions| == |times|
      && forall i | 0 <= i < |obs| :: Observed(obs[i]) && times[i] == obs[i].order.completion
    }

    function Between(f: Ref, n: Ref): Option<Edge> {
      if f.index < |obs| && n.index < |obs| then EdgeBetween(obs[f.index], obs[n.index]) else None
    }

    /** There is an edge between the two records, and `p` is the partition it belongs to. */
    predicate EdgeOf(p: string, f: Ref, n: Ref) {
      Between(f, n).Some? && f.index < |partitions| && p == partitions[f.index]
    }
  }

  ghost predicate Exact(c: Candidates, rs: Records) {
    forall p, f, n | Has(c, p, f, n) :: rs.EdgeOf(p, f, n) && rs.Between(f, n) == Some(c[p][f][n])
  }

  // ----- collecting the edges -----

  ghost predicate Adds(c: Candidates, d: Candidates, rs: Records, fallbacks: seq<Ref>, natives: seq<Ref>) {
    forall p, f, n :: Has(d, p, f, n) <==> Has(c, p, f, n) || (f in fallbacks && n in natives && rs.EdgeOf(p, f, n))
  }

  function Put(c: Candidates, p: string, f: Ref, n: Ref, edge: Edge): Candidates {
    var partition := if p in c then c[p] else map[];
    var edges := if f in partition then partition[f] else map[];
    if n !in edges || edge.strength > edges[n].strength
       || (edge.strength == edges[n].strength && edge.distance < edges[n].distance)
    then c[p := partition[f := edges[n := edge]]]
    else c
  }

  lemma PutAt(c: Candidates, p: string, f: Ref, n: Ref, edge: Edge, q: string, x: Ref, y: Ref)
    requires Has(c, p, f, n) ==> c[p][f][n] == edge
    ensures Has(Put(c, p, f, n, edge), q, x, y) <==> Has(c, q, x, y) || (q == p && x == f && y == n)
    ensures Has(c, q, x, y) ==> Put(c, p, f, n, edge)[q][x][y] == c[q][x][y]
    ensures Put(c, p, f, n, edge)[p][f][n] == edge
  {
  }

  lemma PutNoneEmpty(c: Candidates, p: string, f: Ref, n: Ref, edge: Edge)
    requires NoneEmpty(c)
    ensures NoneEmpty(Put(c, p, f, n, edge))
  {
    var d := Put(c, p, f, n, edge);
    assert f in d[p] && n in d[p][f];
  }

  lemma PutEdge(c: Candidates, rs: Records, p: string, f: Ref, n: Ref, edge: Edge)
    requires Exact(c, rs) && rs.EdgeOf(p, f, n) && rs.Between(f, n) == Some(edge)
    ensures Exact(Put(c, p, f, n, edge), rs) && Adds(c, Put(c, p, f, n, edge), rs, [f], [n])
  {
    forall q, x, y
      ensures Has(Put(c, p, f, n, edge), q, x, y) <==> Has(c, q, x, y) || (q == p && x == f && y == n)
      ensures Has(c, q, x, y) ==> Put(c, p, f, n, edge)[q][x][y] == c[q][x][y]
    {
      PutAt(c, p, f, n, edge, q, x, y);
    }
    PutAt(c, p, f, n, edge, p, f, n);
  }

  lemma AddsNative(c: Candidates, d: Candidates, e: Candidates, rs: Records, fallbacks: seq<Ref>, a: seq<Ref>, n: Ref)
    requires Adds(c, d, rs, fallbacks, a) && Adds(d, e, rs, fallbacks, [n])
    ensures Adds(c, e, rs, fallbacks, a + [n])
  {
  }

  lemma AddsNothing(c: Candidates, rs: Records, fallbacks: seq<Ref>)
    ensures Adds(c, c, rs, fallbacks, [])
  {
  }

  method ScanOne(c: Candidates, rs: Records, f: Ref, n: Ref) returns (d: Candidates)
    requires rs.Valid() && Exact(c, rs) && NoneEmpty(c) && f.index < |rs.obs|
    ensures Exact(d, rs) && NoneEmpty(d) && Adds(c, d, rs, [f], [n])
  {
    d := c;
    var edge := rs.Between(f, n);
    if edge.Some? {
      hide Exact, NoneEmpty, Adds;
      PutEdge(c, rs, rs.partitions[f.index], f, n, edge.value);
      PutNoneEmpty(c, rs.partitions[f.index], f, n, edge.value);
      d := Put(c, rs.partitions[f.index], f, n, edge.value);
    }
  }

  method ScanWindow(c: Candidates, rs: Records, f: Ref, window: seq<Ref>) returns (d: Candidates)
    requires rs.Valid() && Exact(c, rs) && NoneEmpty(c) && f.index < |rs.obs| && InRange(rs.times, window)
    ensures Exact(d, rs) && NoneEmpty(d) && Adds(c, d, rs, [f], window)
  {
    hide Exact, NoneEmpty, Adds, Records.Valid;
    AddsNothing(c, rs, [f]);
    d := c;
    var k := 0;
    while k < |window|
      invariant 0 <= k <= |window| && Exact(d, rs) && NoneEmpty(d) && Adds(c, d, rs, [f], window[..k])
    {
      ghost var before := d;
      d := ScanOne(d, rs, f, window[k]);
      AddsNative(c, before, d, rs, [f], window[..k], window[k]);
      assert window[..k + 1] == window[..k] + [window[k]];
      k := k + 1;
    }
    assert window[..k] == window;
  }

  /** No edge of a fallback lies outside its window. */
  lemma EdgesInWindow(rs: Records, p: string, f: Ref, n: Ref)
    requires rs.Valid() && rs.EdgeOf(p, f, n)
    ensures rs.obs[f.index].timestamp != 0 && InWindow(rs.times, n, rs.obs[f.index].timestamp)
  {
    EdgeNeeds(rs.obs[f.index], rs.obs[n.index]);
  }

  method ScanFallback(c: Candidates, rs: Records, f: Ref, natives: seq<Ref>) returns (d: Candidates)
    requires rs.Valid() && Exact(c, rs) && NoneEmpty(c) && f.index < |rs.obs|
    requires InRange(rs.times, natives) && ByCompletion(natives, rs.times)
    ensures Exact(d, rs) && NoneEmpty(d) && Adds(c, d, rs, [f], natives)
  {
    forall p, n | rs.EdgeOf(p, f, n)
      ensures rs.obs[f.index].timestamp != 0 && InWindow(rs.times, n, rs.obs[f.index].timestamp)
    {
      EdgesInWindow(rs, p, f, n);
    }
    if rs.obs[f.index].timestamp == 0 {
      d := c;
      return;
    }
    var window := Window(natives, rs.times, rs.obs[f.index].timestamp);
    d := ScanWindow(c, rs, f, window);
  }

  lemma AddsFallback(c: Candidates, d: Candidates, e: Candidates, rs: Records, a: seq<Ref>, f: Ref, natives: seq<Ref>)
    requires Adds(c, d, rs, a, natives) && Adds(d, e, rs, [f], natives)
    ensures Adds(c, e, rs, a + [f], natives)
  {
  }

  method ScanBucket(c: Candidates, rs: Records, fallbacks: seq<Ref>, natives: seq<Ref>) returns (d: Candidates)
    requires rs.Valid() && Exact(c, rs) && NoneEmpty(c) && InRange(rs.times, fallbacks) && InRange(rs.times, natives)
    ensures Exact(d, rs) && NoneEmpty(d) && Adds(c, d, rs, fallbacks, natives)
  {
    var sorted := SortByCompletion(natives, rs.times);
    d := c;
    var k := 0;
    while k < |fallbacks|
      invariant 0 <= k <= |fallbacks| && Exact(d, rs) && NoneEmpty(d) && Adds(c, d, rs, fallbacks[..k], sorted)
    {
      ghost var before := d;
      d := ScanFallback(d, rs, fallbacks[k], sorted);
      AddsFallback(c, before, d, rs, fallbacks[..k], fallbacks[k], sorted);
      assert fallbacks[..k + 1] == fallbacks[..k] + [fallbacks[k]];
      k := k + 1;
    }
    assert fallbacks[..k] == fallbacks;
  }

  // ----- all buckets -----

  ghost predicate Collected(c: Candidates, rs: Records, fallbacks: Buckets, natives: Buckets, keys: set<string>) {
    && (forall p, f, n, key | rs.EdgeOf(p, f, n) && key in keys && Meet(fallbacks, natives, key, f, n) :: Has(c, p, f, n))
    && (forall p, f, n | Has(c, p, f, n) :: exists key :: key in keys && Meet(fallbacks, natives, key, f, n))
  }

  lemma BucketCollected(c: Candidates, d: Candidates, rs: Records, fallbacks: Buckets, natives: Buckets, keys: set<string>,
                        key: string)
    requires Collected(c, rs, fallbacks, natives, keys)
    requires Adds(c, d, rs, Members(fallbacks, key), Members(natives, key))
    ensures Collected(d, rs, fallbacks, natives, keys + {key})
  {
    forall p, f, n | Has(d, p, f, n)
      ensures exists other :: other in keys + {key} && Meet(fallbacks, natives, other, f, n)
    {
      if Has(c, p, f, n) {
        var other :| other in keys && Meet(fallbacks, natives, other, f, n);
        assert other in keys + {key};
      } else {
        assert key in keys + {key} && Meet(fallbacks, natives, key, f, n);
      }
    }
  }

  method CollectEdges(rs: Records, fallbacks: Buckets, natives: Buckets) returns (c: Candidates)
    requires rs.Valid()
    requires forall key :: InRange(rs.times, Members(fallbacks, key)) && InRange(rs.times, Members(natives, key))
    ensures Exact(c, rs) && NoneEmpty(c) && Collected(c, rs, fallbacks, natives, fallbacks.Keys)
  {
    c := map[];
    var rest := fallbacks.Keys;
    while rest != {}
      invariant rest <= fallbacks.Keys && Exact(c, rs) && NoneEmpty(c)
      invariant Collected(c, rs, fallbacks, natives, fallbacks.Keys - rest)
      decreases rest
    {
      var key :| key in rest;
      ghost var before := c;
      if Members(natives, key) != [] {
        c := ScanBucket(c, rs, Members(fallbacks, key), Members(natives, key));
      }
      BucketCollected(before, c, rs, fallbacks, natives, fallbacks.Keys - rest, key);
      assert fallbacks.Keys - rest + {key} == fallbacks.Keys - (rest - {key});
      rest := rest - {key};
    }
    assert fallbacks.Keys - rest == fallbacks.Keys;
  }
}
