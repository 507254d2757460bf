/** The records of one model: the visible details followed by the retained history. */
module ModelHistory {
  import opened BlockList
  import opened RangeBlocks
  import opened AccountingBlocks
  import opened SlidingWindow
  import opened DetailWindow

  // ----- what the retained part stores -----

  /** The retained part stores a record without what accounting does not need. */
  function Retained<D>(keep: D -> D, r: Record<D>): Record<D> {
    Record(r.time, keep(r.data))
  }

  function RetainedAll<D>(keep: D -> D, s: seq<Record<D>>): (t: seq<Record<D>>)
    ensures |t| == |s|
  {
    seq(|s|, i requires 0 <= i < |s| => Retained(keep, s[i]))
  }

  /** These records have nothing left that the retained part would not store. */
  ghost predicate Reduced<D>(keep: D -> D, s: seq<Record<D>>) {
    forall i | 0 <= i < |s| :: Retained(keep, s[i]) == s[i]
  }

  /** What was left away once is not there a second time. */
  ghost predicate Settles<D(!new)>(keep: D -> D) {
    forall r :: Retained(keep, Retained(keep, r)) == Retained(keep, r)
  }

  lemma ReducedMore<D(!new)>(keep: D -> D, s: seq<Record<D>>, r: Record<D>)
    requires Settles(keep) && Reduced(keep, s)
    ensures Reduced(keep, s + [Retained(keep, r)])
  {
  }

  lemma ReducedSet<D(!new)>(keep: D -> D, s: seq<Record<D>>, i: nat, r: Record<D>)
    requires Settles(keep) && Reduced(keep, s) && i < |s|
    ensures Reduced(keep, s[i := Retained(keep, r)])
  {
  }

  lemma RetainedMore<D>(keep: D -> D, s: seq<Record<D>>, i: nat)
    requires i < |s|
    ensures RetainedAll(keep, s[..i + 1]) == RetainedAll(keep, s[..i]) + [Retained(keep, s[i])]
  {
  }

  lemma NoneRetained<D>(keep: D -> D)
    ensures Reduced(keep, []) && RetainedAll(keep, []) == []
  {
  }

  lemma ReducedLess<D>(keep: D -> D, s: seq<Record<D>>, i: nat)
    requires Reduced(keep, s) && i < |s|
    ensures Reduced(keep, s[..i] + s[i + 1..])
  {
  }

  lemma {:induction false} ReducedFilter<D>(keep: D -> D, s: seq<Record<D>>, survives: Record<D> -> bool)
    requires Reduced(keep, s)
    ensures Reduced(keep, Filter(s, survives))
  {
    if s != [] {
      ReducedFilter(keep, s[..|s| - 1], survives);
    }
  }

  class ModelHistory<D(0,!new)> {
    const keep: D -> D
    const window: DetailWindow<D>
    const archive: AccountingBlocks<D>

    ghost function Roots(): set<object> {
      {window.details, window.ranges, archive.list, archive.ranges}
    }

    ghost function Repr(): set<object>
      reads Roots()
    {
      window.Repr() + archive.Repr()
    }

    ghost predicate Valid()
      reads Roots(), Repr()
    {
      && window.Valid() && archive.Valid() && window.Repr() !! archive.Repr()
      && window.ranges.owner == archive.ranges.owner
      && Settles(keep) && Reduced(keep, archive.Contents())
    }

    /** All records under one numbering: first the visible ones, then the retained ones. */
    function All(): seq<Record<D>>
      requires window.details.InBounds() && archive.list.Valid()
      reads window.details, window.details.data, archive.list, archive.list.Arrays()
    {
      window.Contents() + archive.Contents()
    }

    constructor (zero: Record<D>, keep: D -> D, ghost owner: Owner)
      requires Settles(keep)
      ensures Valid() && All() == [] && fresh(Repr())
      ensures window.ranges.owner == owner && this.keep == keep
    {
      hide Accurate, Elements, Shape, BlockList.Valid, BlockList.Contents, RangeBlocks.Describes, Settles, Reduced, Retained;
      NoneRetained(keep);
      this.keep := keep;
      window := new DetailWindow<D>(zero, owner);
      archive := new AccountingBlocks<D>(zero, owner);
    }

    function Count(): (n: nat)
      requires Valid()
      reads Roots(), Repr()
      ensures n == |All()|
    {
      window.details.len + archive.list.count
    }

    function At(i: nat): (r: Record<D>)
      requires Valid() && i < |All()|
      reads Roots(), Repr()
      ensures r == All()[i]
    {
      if i < window.details.len then window.details.data[window.details.start + i] else archive.At(i - window.details.len)
    }

    method SetVisible(i: nat, r: Record<D>)
      requires Valid() && i < window.details.len
      modifies window.Repr()
      ensures Valid() && fresh(Repr() - old(Repr()))
      ensures window.Contents() == old(window.Contents())[i := r] && archive.Contents() == old(archive.Contents())
    {
      hide Accurate, Elements, Shape, BlockList.Valid, BlockList.Contents, RangeBlocks.Describes, Settles, Reduced, Retained;
      window.Set(i, r);
    }

    method SetRetained(i: nat, r: Record<D>)
      requires Valid() && i < |archive.Contents()|
      modifies archive.Repr()
      ensures Valid() && fresh(Repr() - old(Repr()))
      ensures window.Contents() == old(window.Contents()) && archive.Contents() == old(archive.Contents())[i := Retained(keep, r)]
    {
      hide Accurate, Elements, Shape, BlockList.Valid, BlockList.Contents, RangeBlocks.Describes, Settles, Reduced, Retained;
      ReducedSet(keep, archive.Contents(), i, r);
      archive.Set(i, Retained(keep, r));
    }

    method SetAt(i: nat, r: Record<D>)
      requires Valid() && i < |All()|
      modifies Repr()
      ensures Valid() && fresh(Repr() - old(Repr()))
      ensures All() == old(All())[i := if i < |old(window.Contents())| then r else Retained(keep, r)]
      ensures var n := |old(window.Contents())|;
        && window.Contents() == (if i < n then old(window.Contents())[i := r] else old(window.Contents()))
        && archive.Contents() == if i < n then old(archive.Contents()) else old(archive.Contents())[i - n := Retained(keep, r)]
    {
      hide Accurate, Elements, Shape, BlockList.Valid, BlockList.Contents, RangeBlocks.Describes, Settles, Reduced, Retained;
      if i < window.details.len {
        SetVisible(i, r);
      } else {
        SetRetained(i - window.details.len, r);
      }
    }

    method RemoveVisible(i: nat)
      requires Valid() && i < window.details.len
      modifies window.Repr()
      ensures Valid() && fresh(Repr() - old(Repr())) && archive.Contents() == old(archive.Contents())
      ensures window.Contents() == old(window.Contents())[..i] + old(window.Contents())[i + 1..]
    {
      hide Accurate, Elements, Shape, BlockList.Valid, BlockList.Contents, RangeBlocks.Describes, Settles, Reduced, Retained;
      window.Remove(i);
    }

    method RemoveRetained(i: nat)
      requires Valid() && i < |archive.Contents()|
      modifies archive.Repr()
      ensures Valid() && fresh(Repr() - old(Repr())) && window.Contents() == old(window.Contents())
      ensures archive.Contents() == old(archive.Contents())[..i] + old(archive.Contents())[i + 1..]
    {
      hide Accurate, Elements, Shape, BlockList.Valid, BlockList.Contents, RangeBlocks.Describes, Settles, Reduced, Retained;
      ReducedLess(keep, archive.Contents(), i);
      archive.Remove(i);
    }

    method RemoveAt(i: nat)
      requires Valid() && i < |All()|
      modifies Repr()
      ensures Valid() && All() == old(All())[..i] + old(All())[i + 1..] && fresh(Repr() - old(Repr()))
      ensures var w, a, n := old(window.Contents()), old(archive.Contents()), |old(window.Contents())|;
        && window.Contents() == (if i < n then w[..i] + w[i + 1..] else w)
        && archive.Contents() == if i < n then a else a[..i - n] + a[i - n + 1..]
    {
      hide Accurate, Elements, Shape, BlockList.Valid, BlockList.Contents, RangeBlocks.Describes, Settles, Reduced, Retained;
      if i < window.details.len {
        RemovedFromFirst(window.Contents(), archive.Contents(), i);
        RemoveVisible(i);
      } else {
        RemovedFromSecond(window.Contents(), archive.Contents(), i);
        RemoveRetained(i - window.details.len);
      }
    }

    method Append(r: Record<D>, archived: bool)
      requires Valid()
      modifies Repr()
      ensures Valid() && fresh(Repr() - old(Repr()))
      ensures archived ==>
        window.Contents() == old(window.Contents()) && archive.Contents() == old(archive.Contents()) + [Retained(keep, r)]
      ensures !archived ==> archive.Contents() == old(archive.Contents())
      ensures !archived ==>
        exists at :: 0 <= at <= |old(window.Contents())| && window.Contents() == InsertAt(old(window.Contents()), at, r)
      ensures SortedByTime(old(window.Contents())) ==> SortedByTime(window.Contents())
    {
      hide Accurate, Elements, Shape, BlockList.Valid, BlockList.Contents, RangeBlocks.Describes, Settles, Reduced, Retained;
      if archived {
        ArchiveOne(r);
      } else {
        window.Append(r);
      }
    }

    method ArchiveOne(r: Record<D>)
      requires Valid()
      modifies archive.Repr()
      ensures Valid() && window.details.InBounds() && archive.list.Valid()
      ensures window.Repr() == old(window.Repr()) && forall o | o in archive.Repr() && o !in old(archive.Repr()) :: fresh(o)
      ensures window.Contents() == old(window.Contents()) && archive.Contents() == old(archive.Contents()) + [Retained(keep, r)]
    {
      hide Accurate, Elements, Shape, BlockList.Valid, BlockList.Contents, RangeBlocks.Describes, Settles, Reduced, Retained;
      ReducedMore(keep, archive.Contents(), r);
      archive.Append(Retained(keep, r));
    }

    method ArchiveAll(s: seq<Record<D>>)
      requires Valid() && window.details.InBounds() && archive.list.Valid()
      modifies archive.Repr()
      ensures Valid() && window.details.InBounds() && archive.list.Valid()
      ensures window.Repr() == old(window.Repr()) && forall o | o in archive.Repr() && o !in old(archive.Repr()) :: fresh(o)
      ensures window.Contents() == old(window.Contents())
      ensures archive.Contents() == old(archive.Contents()) + RetainedAll(keep, s)
    {
      hide ModelHistory.Valid, DetailWindow.Contents, AccountingBlocks.Contents, DetailWindow.Repr, AccountingBlocks.Repr,
           BlockList.Valid, Retained, RetainedAll;
      NoneRetained(keep);
      var i := 0;
      while i < |s|
        invariant 0 <= i <= |s| && Valid() && window.details.InBounds() && archive.list.Valid()
        invariant window.Repr() == old(window.Repr()) && forall o | o in archive.Repr() && o !in old(archive.Repr()) :: fresh(o)
        invariant window.Contents() == old(window.Contents())
        invariant archive.Contents() == old(archive.Contents()) + RetainedAll(keep, s[..i])
      {
        ArchiveOne(s[i]);
        RetainedMore(keep, s, i);
        i := i + 1;
      }
      assert s[..i] == s;
    }

    /** The oldest visible details beyond the limit become retained ones: none is lost or doubled, though
        the retained part stores less of each. */
    method Trim(limit: nat)
      requires Valid()
      modifies Repr()
      ensures Valid() && fresh(Repr() - old(Repr()))
      ensures var k := if |old(window.Contents())| <= limit then 0 else |old(window.Contents())| - limit;
              && window.Contents() == old(window.Contents())[k..]
              && archive.Contents() == old(archive.Contents()) + RetainedAll(keep, old(window.Contents())[..k])
    {
      hide Accurate, Elements, Shape, BlockList.Valid, BlockList.Contents, RangeBlocks.Describes, Settles, Reduced, Retained;
      var evicted := window.Trim(limit);
      ArchiveAll(evicted);
    }

    method PruneArchive(cutoff: int) returns (expired: seq<Record<D>>)
      requires Valid()
      modifies archive.Repr()
      ensures Valid() && fresh(Repr() - old(Repr())) && window.Contents() == old(window.Contents())
      ensures archive.Contents() == Filter(old(archive.Contents()), Survivor(cutoff))
      ensures |expired| + |archive.Contents()| == |old(archive.Contents())|
    {
      hide Accurate, Elements, Shape, BlockList.Valid, BlockList.Contents, RangeBlocks.Describes, Filter, Rejected, Settles, Reduced;
      FilterLength(archive.Contents(), Survivor(cutoff));
      ReducedFilter(keep, archive.Contents(), Survivor(cutoff));
      expired := archive.Prune(cutoff);
    }

    method PruneWindow(cutoff: int) returns (expired: seq<Record<D>>)
      requires Valid()
      modifies window.Repr()
      ensures Valid() && fresh(Repr() - old(Repr())) && archive.Contents() == old(archive.Contents())
      ensures window.Contents() == Filter(old(window.Contents()), Survivor(cutoff))
      ensures |expired| + |window.Contents()| == |old(window.Contents())|
    {
      hide Accurate, Elements, Shape, BlockList.Valid, BlockList.Contents, RangeBlocks.Describes, Filter, Rejected, Settles, Reduced;
      FilterLength(window.Contents(), Survivor(cutoff));
      expired := window.Prune(cutoff);
    }

    /** Expiry over both parts: an order-preserving filter of all records. */
    method Prune(cutoff: int) returns (expired: seq<Record<D>>)
      requires Valid()
      modifies Repr()
      ensures Valid() && fresh(Repr() - old(Repr()))
      ensures All() == Filter(old(All()), Survivor(cutoff))
      ensures window.Contents() == Filter(old(window.Contents()), Survivor(cutoff))
      ensures archive.Contents() == Filter(old(archive.Contents()), Survivor(cutoff))
      ensures |expired| + |All()| == |old(All())|
    {
      hide Accurate, Elements, Shape, BlockList.Valid, BlockList.Contents, RangeBlocks.Describes, Filter, Rejected, Settles, Reduced;
      FilterConcat(window.Contents(), archive.Contents(), Survivor(cutoff));
      var archived := PruneArchive(cutoff);
      var visible := PruneWindow(cutoff);
      expired := archived + visible;
    }
  }

  lemma {:induction false} FilterConcat<T>(s: seq<T>, t: seq<T>, keep: T -> bool)
    ensures Filter(s + t, keep) == Filter(s, keep) + Filter(t, keep)
  {
    if t == [] {
      assert s + t == s;
    } else {
      assert (s + t)[..|s + t| - 1] == s + t[..|t| - 1];
      FilterConcat(s, t[..|t| - 1], keep);
    }
  }

  lemma RemovedFromFirst<T>(s: seq<T>, t: seq<T>, i: nat)
    requires i < |s|
    ensures s[..i] + s[i + 1..] + t == (s + t)[..i] + (s + t)[i + 1..]
  {
  }

  lemma RemovedFromSecond<T>(s: seq<T>, t: seq<T>, i: nat)
    requires |s| <= i < |s + t|
    ensures s + (t[..i - |s|] + t[i - |s| + 1..]) == (s + t)[..i] + (s + t)[i + 1..]
  {
  }
}
