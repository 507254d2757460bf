/** Removing paired fallbacks from stored records. */
module Reconciliation {
  import opened Wrappers
  import opened Text
  import opened StableOrder
  import opened ProtocolEdge
  import opened RecordBuckets
  import opened CandidateMatching
  import opened FallbackPairing

  // ----- what a native record takes over from its fallback -----

  datatype Stored<R> = Stored(excluded: bool, endpoint: string, requestedModel: string, thinking: Option<string>,
                              serviceTier: string, stream: bool, rest: R)

  function Enrich<R>(native: Stored<R>, fallback: Stored<R>): Stored<R> {
    native.(
      endpoint := if native.endpoint == "" && TrimSpace(fallback.endpoint) != "" then TrimSpace(fallback.endpoint)
                  else native.endpoint,
      requestedModel := if TrimSpace(native.requestedModel) == "" && TrimSpace(fallback.requestedModel) != ""
                        then TrimSpace(fallback.requestedModel) else native.requestedModel,
      thinking := if native.thinking == None then fallback.thinking else native.thinking,
      serviceTier := if native.serviceTier == "" && TrimSpace(fallback.serviceTier) != ""
                     then TrimSpace(fallback.serviceTier) else native.serviceTier,
      stream := native.stream || fallback.stream)
  }

  /** What a native has stays: a text that is not blank, a thinking, a stream. */
  lemma NativeKeepsItsOwn<R>(native: Stored<R>, fallback: Stored<R>)
    ensures var r := Enrich(native, fallback);
            && r.excluded == native.excluded && r.rest == native.rest
            && (native.endpoint != "" ==> r.endpoint == native.endpoint)
            && (TrimSpace(native.requestedModel) != "" ==> r.requestedModel == native.requestedModel)
            && (native.thinking != None ==> r.thinking == native.thinking)
            && (native.serviceTier != "" ==> r.serviceTier == native.serviceTier)
            && (native.stream ==> r.stream)
  {
  }

  /** What it lacks the fallback gives, if it has it. */
  lemma FallbackFillsGaps<R>(native: Stored<R>, fallback: Stored<R>)
    ensures var r := Enrich(native, fallback);
            && (native.endpoint == "" ==> r.endpoint == TrimSpace(fallback.endpoint))
            && (TrimSpace(native.requestedModel) == "" && TrimSpace(fallback.requestedModel) != "" ==>
                  r.requestedModel == TrimSpace(fallback.requestedModel))
            && (TrimSpace(native.requestedModel) == TrimSpace(fallback.requestedModel) == "" ==>
                  r.requestedModel == native.requestedModel)
            && (native.thinking == None ==> r.thinking == fallback.thinking)
            && (native.serviceTier == "" ==> r.serviceTier == TrimSpace(fallback.serviceTier))
            && (!native.stream ==> r.stream == fallback.stream)
  {
  }

  // ----- dropping positions from a sequence -----

  /** The elements of `s`, which starts at position `from`, that are not dropped. */
  function Without<T>(s: seq<T>, dropped: set<Ref>, from: nat): (r: seq<T>) {
    if s == [] then []
    else (if Ref(from) in dropped then [] else [s[0]]) + Without(s[1..], dropped, from + 1)
  }

  ghost function DroppedWithin(dropped: set<Ref>, from: nat, to: nat): set<Ref> {
    set r | r in dropped && from <= r.index < to
  }

  lemma {:induction false} WithoutLength<T>(s: seq<T>, dropped: set<Ref>, from: nat)
    ensures |Without(s, dropped, from)| == |s| - |DroppedWithin(dropped, from, from + |s|)|
  {
    if s == [] {
      assert DroppedWithin(dropped, from, from) == {};
    } else {
      WithoutLength(s[1..], dropped, from + 1);
      var here, rest := DroppedWithin(dropped, from, from + |s|), DroppedWithin(dropped, from + 1, from + |s|);
      if Ref(from) in dropped {
        assert here == rest + {Ref(from)};
      } else {
        assert here == rest;
      }
    }
  }

  lemma {:induction false} WithoutConcat<T>(s: seq<T>, t: seq<T>, dropped: set<Ref>, from: nat)
    ensures Without(s + t, dropped, from) == Without(s, dropped, from) + Without(t, dropped, from + |s|)
  {
    if s == [] {
      assert s + t == t;
    } else {
      assert (s + t)[1..] == s[1..] + t;
      WithoutConcat(s[1..], t, dropped, from + 1);
    }
  }

  /** What is kept stays in order: the kept element at `i` stands after exactly the kept ones before it. */
  lemma KeptInOrder<T>(s: seq<T>, dropped: set<Ref>, i: nat)
    requires i < |s| && Ref(i) !in dropped
    ensures var at := |Without(s[..i], dropped, 0)|; at < |Without(s, dropped, 0)| && Without(s, dropped, 0)[at] == s[i]
  {
    assert s == s[..i] + s[i..];
    WithoutConcat(s[..i], s[i..], dropped, 0);
  }

  // ----- stored records -----

  /** The positions, in order, of the records that take part. */
  ghost predicate Participants<R>(at: seq<nat>, records: seq<Stored<R>>, n: nat) {
    && n <= |records|
    && (forall k | 0 <= k < |at| :: at[k] < n && !records[at[k]].excluded)
    && (forall k, l | 0 <= k < l < |at| :: at[k] < at[l])
    && (forall i | 0 <= i < n && !records[i].excluded :: exists k :: 0 <= k < |at| && at[k] == i)
  }

  method Collect<R>(records: seq<Stored<R>>) returns (at: seq<nat>)
    ensures Participants(at, records, |records|)
  {
    at := [];
    var i := 0;
    while i < |records|
      invariant 0 <= i <= |records| && Participants(at, records, i)
    {
      if !records[i].excluded {
        ghost var before := at;
        at := at + [i];
        assert at[|before|] == i;
        forall j | 0 <= j < i && !records[j].excluded ensures exists k :: 0 <= k < |at| && at[k] == j {
          var k :| 0 <= k < |before| && before[k] == j;
          assert at[k] == j;
        }
      }
      i := i + 1;
    }
  }

  function ObserveAll<R>(records: seq<Stored<R>>, at: seq<nat>, observe: (Stored<R>, nat) -> Observation): (obs: seq<Observation>)
    requires forall k | 0 <= k < |at| :: at[k] < |records|
  {
    seq(|at|, k requires 0 <= k < |at| => observe(records[at[k]], at[k]))
  }

  /** A pair by the positions of its records. */
  datatype Link = Link(fallback: Ref, native: Ref)

  function LinksOf(pairs: seq<Pair>, at: seq<nat>): (links: seq<Link>)
    requires forall k | 0 <= k < |pairs| :: pairs[k].fallback.index < |at| && pairs[k].native.index < |at|
  {
    seq(|pairs|, k requires 0 <= k < |pairs| => Link(Ref(at[pairs[k].fallback.index]), Ref(at[pairs[k].native.index])))
  }

  /** Each record is used at most once, and a fallback is never also a native. */
  ghost predicate UsedOnce(links: seq<Link>, n: nat) {
    && (forall k | 0 <= k < |links| :: links[k].fallback.index < n && links[k].native.index < n)
    && (forall k, l | 0 <= k < l < |links| :: links[k].fallback != links[l].fallback && links[k].native != links[l].native)
    && (forall k, l | 0 <= k < |links| && 0 <= l < |links| :: links[k].fallback != links[l].native)
  }

  lemma PairRoles(obs: seq<Observation>, pairs: seq<Pair>, plan: Plan, k: nat)
    requires AllEdges(plan.edges, RecordsOf(obs)) && plan.Decided(pairs, OrdersOf(obs)) && k < |pairs|
    ensures pairs[k].fallback.index < |obs| && pairs[k].native.index < |obs|
    ensures obs[pairs[k].fallback.index].role == Fallback && obs[pairs[k].native.index].role == Native
    ensures pairs[k].fallback in plan.matched && plan.matched[pairs[k].fallback] == pairs[k].native
  {
    var f, n := pairs[k].fallback, pairs[k].native;
    assert pairs[k] in pairs;
    assert f in plan.edges && n in plan.edges[f];
    assert RecordsOf(obs).Between(f, n).Some?;
  }

  lemma PairsApart(obs: seq<Observation>, pairs: seq<Pair>, plan: Plan, k: nat, l: nat)
    requires AllEdges(plan.edges, RecordsOf(obs)) && plan.Decided(pairs, OrdersOf(obs)) && k < l < |pairs|
    ensures pairs[k].fallback != pairs[l].fallback && pairs[k].native != pairs[l].native
  {
    PairRoles(obs, pairs, plan, k);
    PairRoles(obs, pairs, plan, l);
  }

  ghost predicate PairsUsedOnce(pairs: seq<Pair>, n: nat) {
    && (forall k | 0 <= k < |pairs| :: pairs[k].fallback.index < n && pairs[k].native.index < n)
    && (forall k, l | 0 <= k < l < |pairs| :: pairs[k].fallback != pairs[l].fallback && pairs[k].native != pairs[l].native)
    && (forall k, l | 0 <= k < |pairs| && 0 <= l < |pairs| :: pairs[k].fallback != pairs[l].native)
  }

  lemma PlanUsesOnce(obs: seq<Observation>, pairs: seq<Pair>, plan: Plan)
    requires AllEdges(plan.edges, RecordsOf(obs)) && plan.Decided(pairs, OrdersOf(obs))
    ensures PairsUsedOnce(pairs, |obs|)
  {
    forall k | 0 <= k < |pairs|
      ensures pairs[k].fallback.index < |obs| && pairs[k].native.index < |obs|
      ensures obs[pairs[k].fallback.index].role == Fallback && obs[pairs[k].native.index].role == Native
    {
      PairRoles(obs, pairs, plan, k);
    }
    forall k, l | 0 <= k < l < |pairs|
      ensures pairs[k].fallback != pairs[l].fallback && pairs[k].native != pairs[l].native
    {
      PairsApart(obs, pairs, plan, k, l);
    }
  }

  lemma LinksUsedOnce(pairs: seq<Pair>, at: seq<nat>, n: nat)
    requires PairsUsedOnce(pairs, |at|)
    requires (forall k | 0 <= k < |at| :: at[k] < n) && (forall k, l | 0 <= k < l < |at| :: at[k] < at[l])
    ensures UsedOnce(LinksOf(pairs, at), n)
  {
    forall i: nat, j: nat | i < |at| && j < |at| && at[i] == at[j] ensures i == j {
    }
    forall k, l | 0 <= k < l < |pairs|
      ensures at[pairs[k].fallback.index] != at[pairs[l].fallback.index] && at[pairs[k].native.index] != at[pairs[l].native.index]
    {
      assert pairs[k].fallback.index != pairs[l].fallback.index && pairs[k].native.index != pairs[l].native.index;
    }
    forall k, l | 0 <= k < |pairs| && 0 <= l < |pairs| ensures at[pairs[k].fallback.index] != at[pairs[l].native.index] {
      assert pairs[k].fallback.index != pairs[l].native.index;
    }
  }

  // ----- the repair -----

  function Natives(links: seq<Link>): (refs: seq<Ref>)
    ensures |refs| == |links|
  {
    seq(|links|, k requires 0 <= k < |links| => links[k].native)
  }

  ghost predicate Among(refs: seq<Ref>, n: nat, i: int) {
    exists k :: 0 <= k < n && k < |refs| && refs[k].index == i
  }

  /** Different positions of a list of `m` records. */
  ghost predicate Positions(refs: seq<Ref>, m: nat) {
    && (forall k | 0 <= k < |refs| :: refs[k].index < m)
    && (forall k, l | 0 <= k < l < |refs| :: refs[k].index != refs[l].index)
  }

  /** The first `n` of the positions have their new values; all other records are as before. */
  ghost predicate Replaced<T>(records: seq<T>, improved: seq<T>, refs: seq<Ref>, values: seq<T>, n: nat)
    requires Positions(refs, |records|) && n <= |refs| == |values|
  {
    && |improved| == |records|
    && (forall k | 0 <= k < n :: improved[refs[k].index] == values[k])
    && (forall i | 0 <= i < |records| && !Among(refs, n, i) :: improved[i] == records[i])
  }

  function Enrichments<R>(records: seq<Stored<R>>, links: seq<Link>): (values: seq<Stored<R>>)
    requires UsedOnce(links, |records|)
    ensures |values| == |links|
  {
    seq(|links|, k requires 0 <= k < |links| => Enrich(records[links[k].native.index], records[links[k].fallback.index]))
  }

  lemma NativesAreApart(links: seq<Link>, n: nat)
    requires UsedOnce(links, n)
    ensures Positions(Natives(links), n)
  {
    forall k, l | 0 <= k < l < |links| ensures links[k].native.index != links[l].native.index {
      assert links[k].native != links[l].native;
    }
  }

  /** Natives carry what their fallback knew; all other records are as before. */
  ghost predicate Improved<R>(records: seq<Stored<R>>, improved: seq<Stored<R>>, links: seq<Link>)
    requires UsedOnce(links, |records|)
  {
    NativesAreApart(links, |records|);
    Replaced(records, improved, Natives(links), Enrichments(records, links), |links|)
  }

  function Removed(links: seq<Link>): set<Ref> {
    set link | link in links :: link.fallback
  }

  lemma {:induction false} RemovedSize(links: seq<Link>, n: nat)
    requires UsedOnce(links, n)
    ensures |Removed(links)| == |links|
  {
    if links != [] {
      var rest, last := links[..|links| - 1], links[|links| - 1];
      RemovedSize(rest, n);
      assert links == rest + [last];
      assert Removed(links) == Removed(rest) + {last.fallback};
      assert last.fallback !in Removed(rest);
    }
  }

  lemma ReplaceOne<T>(records: seq<T>, improved: seq<T>, refs: seq<Ref>, values: seq<T>, k: nat)
    requires Positions(refs, |records|) && k < |refs| == |values| && Replaced(records, improved, refs, values, k)
    ensures improved[refs[k].index] == records[refs[k].index]
    ensures Replaced(records, improved[refs[k].index := values[k]], refs, values, k + 1)
  {
    var n := refs[k].index;
    assert !Among(refs, k, n) && Among(refs, k + 1, n);
    forall i | 0 <= i < |records| && !Among(refs, k + 1, i) ensures !Among(refs, k, i) && i != n {
    }
  }

  method ImproveNatives<R>(records: seq<Stored<R>>, links: seq<Link>) returns (improved: seq<Stored<R>>)
    requires UsedOnce(links, |records|)
    ensures Improved(records, improved, links)
  {
    NativesAreApart(links, |records|);
    ghost var refs, values := Natives(links), Enrichments(records, links);
    improved := records;
    var k := 0;
    while k < |links|
      invariant 0 <= k <= |links| && Replaced(records, improved, refs, values, k)
    {
      ReplaceOne(records, improved, refs, values, k);
      var n, f := links[k].native.index, links[k].fallback.index;
      improved := improved[n := Enrich(improved[n], records[f])];
      k := k + 1;
    }
  }

  method Drop<T>(s: seq<T>, dropped: set<Ref>) returns (kept: seq<T>)
    ensures kept == Without(s, dropped, 0)
  {
    kept := [];
    var i := 0;
    while i < |s|
      invariant 0 <= i <= |s| && kept == Without(s[..i], dropped, 0)
    {
      assert s[..i + 1] == s[..i] + [s[i]];
      WithoutConcat(s[..i], [s[i]], dropped, 0);
      if Ref(i) !in dropped {
        kept := kept + [s[i]];
      }
      i := i + 1;
    }
    assert s[..i] == s;
  }

  lemma {:induction false} WithoutNothing<T>(s: seq<T>, from: nat)
    ensures Without(s, {}, from) == s
  {
    if s != [] {
      WithoutNothing(s[1..], from + 1);
      assert s == [s[0]] + s[1..];
    }
  }

  /** Dropping the fallbacks of the links shortens the records by one each and spares every native. */
  lemma DropsFallbacksOnly<T>(s: seq<T>, links: seq<Link>)
    requires UsedOnce(links, |s|)
    ensures |Without(s, Removed(links), 0)| == |s| - |links|
    ensures forall k | 0 <= k < |links| :: links[k].native !in Removed(links)
  {
    RemovedSize(links, |s|);
    WithoutLength(s, Removed(links), 0);
    assert DroppedWithin(Removed(links), 0, |s|) == Removed(links);
  }

  method Repair<R>(records: seq<Stored<R>>, links: seq<Link>) returns (kept: seq<Stored<R>>, ghost improved: seq<Stored<R>>)
    requires UsedOnce(links, |records|)
    ensures Improved(records, improved, links) && kept == Without(improved, Removed(links), 0)
  {
    if links == [] {
      kept, improved := records, records;
      assert Removed(links) == {};
      WithoutNothing(records, 0);
      return;
    }
    var result := ImproveNatives(records, links);
    improved := result;
    kept := Drop(result, Removed(links));
  }

  /** Said of the pairs: their fallbacks are the records that leave, their natives are enriched by them, and
      every record that is no native is as before. */
  ghost predicate Settled<R>(records: seq<Stored<R>>, improved: seq<Stored<R>>, gone: set<Ref>, at: seq<nat>, pairs: seq<Pair>) {
    && |improved| == |records|
    && (forall k | 0 <= k < |pairs| :: pairs[k].fallback.index < |at| && pairs[k].native.index < |at|)
    && gone == (set k | 0 <= k < |pairs| :: Ref(at[pairs[k].fallback.index]))
    && (forall k | 0 <= k < |pairs| ::
          var f, n := at[pairs[k].fallback.index], at[pairs[k].native.index];
          f < |records| && n < |records| && improved[n] == Enrich(records[n], records[f]))
    && (forall i | 0 <= i < |records| && (forall k | 0 <= k < |pairs| :: at[pairs[k].native.index] != i) :: improved[i] == records[i])
  }

  lemma ImprovedSettles<R>(records: seq<Stored<R>>, improved: seq<Stored<R>>, at: seq<nat>, pairs: seq<Pair>)
    requires forall k | 0 <= k < |pairs| :: pairs[k].fallback.index < |at| && pairs[k].native.index < |at|
    requires UsedOnce(LinksOf(pairs, at), |records|) && Improved(records, improved, LinksOf(pairs, at))
    ensures Settled(records, improved, Removed(LinksOf(pairs, at)), at, pairs)
  {
    hide Enrich;
    var links := LinksOf(pairs, at);
    var refs, values := Natives(links), Enrichments(records, links);
    forall r ensures r in Removed(links) <==> r in set k | 0 <= k < |pairs| :: Ref(at[pairs[k].fallback.index]) {
      if k :| 0 <= k < |pairs| && r == Ref(at[pairs[k].fallback.index]) {
        assert links[k] in links && links[k].fallback == r;
      }
    }
    forall k | 0 <= k < |pairs|
      ensures at[pairs[k].fallback.index] < |records| && at[pairs[k].native.index] < |records|
      ensures improved[at[pairs[k].native.index]] == Enrich(records[at[pairs[k].native.index]], records[at[pairs[k].fallback.index]])
    {
      assert links[k].native == refs[k];
      assert improved[refs[k].index] == values[k];
    }
    forall i | 0 <= i < |records| && (forall k | 0 <= k < |pairs| :: at[pairs[k].native.index] != i) ensures improved[i] == records[i] {
      assert !Among(refs, |links|, i);
    }
  }

  /** Reconciling stored records removes exactly the fallbacks of an optimal pairing: natives stay, in
      order and enriched, every other record stays as it is, and the length falls by the pair count. */
  method ReconcilePersisted<R(!new)>(records: seq<Stored<R>>, observe: (Stored<R>, nat) -> Observation)
      returns (kept: seq<Stored<R>>, removed: nat, ghost at: seq<nat>, ghost pairs: seq<Pair>, ghost plan: Plan,
               ghost improved: seq<Stored<R>>)
    requires forall s, i :: Observed(observe(s, i))
    ensures Participants(at, records, |records|)
    ensures var obs := ObserveAll(records, at, observe);
            AllEdges(plan.edges, RecordsOf(obs)) && plan.Decided(pairs, OrdersOf(obs))
    ensures forall k | 0 <= k < |pairs| :: pairs[k].fallback.index < |at| && pairs[k].native.index < |at|
    ensures UsedOnce(LinksOf(pairs, at), |records|) && Improved(records, improved, LinksOf(pairs, at))
    ensures kept == Without(improved, Removed(LinksOf(pairs, at)), 0)
    ensures removed == |pairs| && |kept| == |records| - removed
    ensures Settled(records, improved, Removed(LinksOf(pairs, at)), at, pairs)
    ensures forall k | 0 <= k < |at| :: ObserveAll(records, at, observe)[k] == observe(records[at[k]], at[k])
  {
    hide Settled;
    var positions := Collect(records);
    var found;
    found, plan := PairDetails(ObserveAll(records, positions, observe));
    PlanUsesOnce(ObserveAll(records, positions, observe), found, plan);
    LinksUsedOnce(found, positions, |records|);
    var links := LinksOf(found, positions);
    kept, improved := Repair(records, links);
    DropsFallbacksOnly(improved, links);
    removed := |Removed(links)|;
    RemovedSize(links, |records|);
    at, pairs := positions, found;
    ImprovedSettles(records, improved, at, pairs);
  }
}
