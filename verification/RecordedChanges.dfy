/** Changes of the recorded history of one model: removal by descending index, and enrichment in place. */
module RecordedChanges {
  import opened Wrappers
  import opened BlockList
  import opened RangeBlocks
  import opened RecordBuckets
  import opened Reconciliation
  import opened ModelHistory

  lemma {:induction false} WithoutLater<T>(s: seq<T>, dropped: set<Ref>, from: nat)
    requires forall r | r in dropped :: r.index >= from + |s|
    ensures Without(s, dropped, from) == s
  {
    if s != [] {
      WithoutLater(s[1..], dropped, from + 1);
      assert s == [s[0]] + s[1..];
    }
  }

  lemma {:induction false} WithoutEarlier<T>(s: seq<T>, dropped: set<Ref>, r: Ref, from: nat)
    requires r.index < from
    ensures Without(s, dropped + {r}, from) == Without(s, dropped, from)
  {
    if s != [] {
      WithoutEarlier(s[1..], dropped, r, from + 1);
    }
  }

  /** Removals behind position `i` leave it where it was. */
  lemma RemoveNext<T>(s: seq<T>, dropped: set<Ref>, i: nat)
    requires i < |s| && forall r | r in dropped :: r.index > i
    ensures var t := Without(s, dropped, 0);
            i < |t| && t[i] == s[i] && t[..i] + t[i + 1..] == Without(s, dropped + {Ref(i)}, 0)
  {
    hide Without;
    var more := dropped + {Ref(i)};
    SplitAt(s, dropped, i);
    SplitAt(s, more, i);
    WithoutLater(s[..i], dropped, 0);
    WithoutLater(s[..i], more, 0);
    WithoutEarlier(s[i + 1..], dropped, Ref(i), i + 1);
    var t := Without(s, dropped, 0);
    assert t == s[..i] + ([s[i]] + Without(s[i + 1..], dropped, i + 1));
    assert t[..i] == s[..i] && t[i + 1..] == Without(s[i + 1..], dropped, i + 1);
  }

  lemma SplitAt<T>(s: seq<T>, dropped: set<Ref>, i: nat)
    requires i < |s|
    ensures Without(s, dropped, 0)
      == Without(s[..i], dropped, 0) + ((if Ref(i) in dropped then [] else [s[i]]) + Without(s[i + 1..], dropped, i + 1))
  {
    assert s == s[..i] + s[i..];
    WithoutConcat(s[..i], s[i..], dropped, 0);
    assert s[i..][0] == s[i] && s[i..][1..] == s[i + 1..];
  }

  ghost predicate Descending(refs: seq<Ref>) {
    forall k, l | 0 <= k < l < |refs| :: refs[k].index > refs[l].index
  }

  ghost function FirstRefs(refs: seq<Ref>, k: nat): set<Ref> {
    set i | 0 <= i < k && i < |refs| :: refs[i]
  }

  lemma FirstRefsGrow(refs: seq<Ref>, k: nat)
    requires Descending(refs) && k < |refs|
    ensures FirstRefs(refs, k + 1) == FirstRefs(refs, k) + {Ref(refs[k].index)}
    ensures forall r | r in FirstRefs(refs, k) :: r.index > refs[k].index
  {
  }

  method RemoveRef<D(0,!new)>(h: ModelHistory<D>, r: Ref, ghost s: seq<Record<D>>, ghost dropped: set<Ref>)
    requires h.Valid() && h.All() == Without(s, dropped, 0)
    requires r.index < |s| && forall x | x in dropped :: x.index > r.index
    modifies h.Repr()
    ensures h.Valid() && fresh(h.Repr() - old(h.Repr()))
    ensures h.All() == Without(s, dropped + {Ref(r.index)}, 0)
  {
    hide Accurate, Elements, Shape, Without;
    RemoveNext(s, dropped, r.index);
    h.RemoveAt(r.index);
  }

  /** Removing by descending index removes exactly the records that had these indices at the start. */
  method RemoveDescending<D(0,!new)>(h: ModelHistory<D>, refs: seq<Ref>)
    requires h.Valid() && Descending(refs) && forall k | 0 <= k < |refs| :: refs[k].index < |h.All()|
    modifies h.Repr()
    ensures h.Valid() && fresh(h.Repr() - old(h.Repr()))
    ensures h.All() == Without(old(h.All()), FirstRefs(refs, |refs|), 0)
  {
    hide BlockList.Valid, BlockList.Contents, RangeBlocks.Describes, Without;
    ghost var s := h.All();
    WithoutLater(s, {}, 0);
    assert FirstRefs(refs, 0) == {};
    var k := 0;
    while k < |refs|
      invariant 0 <= k <= |refs| && h.Valid() && fresh(h.Repr() - old(h.Repr()))
      invariant h.All() == Without(s, FirstRefs(refs, k), 0)
    {
      FirstRefsGrow(refs, k);
      RemoveRef(h, refs[k], s, FirstRefs(refs, k));
      k := k + 1;
    }
  }

  lemma {:induction false} FirstRefsSize(refs: seq<Ref>, k: nat)
    requires Descending(refs) && k <= |refs|
    ensures |FirstRefs(refs, k)| == k
  {
    if k == 0 {
      assert FirstRefs(refs, 0) == {};
    } else {
      FirstRefsSize(refs, k - 1);
      FirstRefsGrow(refs, k - 1);
    }
  }

  lemma RemovalsShorten<T>(s: seq<T>, refs: seq<Ref>)
    requires Descending(refs) && forall k | 0 <= k < |refs| :: refs[k].index < |s|
    ensures |Without(s, FirstRefs(refs, |refs|), 0)| == |s| - |refs|
  {
    var dropped := FirstRefs(refs, |refs|);
    WithoutLength(s, dropped, 0);
    FirstRefsSize(refs, |refs|);
    assert DroppedWithin(dropped, 0, |s|) == dropped;
  }

  /** What the retained part stores of a record: no thinking, no tier, not whether it was a stream, and of
      the rest what `keep` keeps. */
  function Archived<R>(keep: R -> R, s: Stored<R>): Stored<R> {
    s.(thinking := None, serviceTier := "", stream := false, rest := keep(s.rest))
  }

  function Archiving<R>(keep: R -> R): Stored<R> -> Stored<R> {
    (s: Stored<R>) => Archived(keep, s)
  }

  /** Enriching a visible record stores all of it, enriching a retained one what the retained part stores. */
  method EnrichOne<R(0,!new)>(h: ModelHistory<Stored<R>>, i: nat, fallback: Stored<R>)
    requires h.Valid() && i < |h.All()|
    modifies h.Repr()
    ensures h.Valid() && fresh(h.Repr() - old(h.Repr()))
    ensures |h.window.Contents()| == |old(h.window.Contents())|
    ensures var r := old(h.All())[i]; var better := r.(data := Enrich(r.data, fallback));
      h.All() == old(h.All())[i := if i < |old(h.window.Contents())| then better else Retained(h.keep, better)]
  {
    hide Accurate, Elements, Shape, Enrich, Retained;
    var r := h.At(i);
    h.SetAt(i, r.(data := Enrich(r.data, fallback)));
  }

  method ReadAll<D(0,!new)>(h: ModelHistory<D>) returns (s: seq<Record<D>>)
    requires h.Valid()
    ensures s == old(h.All())
  {
    hide Accurate, Elements, Shape;
    var n := h.Count();
    s := [];
    for i := 0 to n
      invariant s == h.All()[..i]
    {
      s := s + [h.At(i)];
    }
  }
}
