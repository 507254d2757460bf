/** Retained history: the block list together with the descriptors of its aggregate blocks, which every
    change keeps truthful. */
module AccountingBlocks {
  import opened BlockList
  import opened RangeBlocks

  class AccountingBlocks<D(0)> {
    const list: BlockList<Record<D>>
    const ranges: RangeBlocks<D>

    ghost function Repr(): set<object>
      reads list, ranges
    {
      list.Repr() + {ranges} + ranges.Identities()
    }

    function Contents(): seq<Record<D>>
      requires list.Valid()
      reads list, list.Arrays()
    {
      list.Contents()
    }

    ghost predicate Valid()
      reads list, ranges, Repr()
    {
      list.Valid() && ranges.Describes(0, Contents())
    }

    twostate predicate SnapshotsKept()
      reads list, list.frozen.Keys
    {
      list.SnapshotsKept()
    }

    constructor (zero: Record<D>, ghost owner: Owner)
      ensures Valid() && Contents() == [] && fresh(Repr()) && list.frozen == map[] && ranges.owner == owner
    {
      list := new BlockList<Record<D>>(zero);
      ranges := new RangeBlocks<D>(owner);
    }

    function At(i: nat): (r: Record<D>)
      requires list.Valid() && i < |Contents()|
      reads list, list.Arrays()
      ensures r == Contents()[i]
    {
      list.At(i)
    }

    method Set(i: nat, r: Record<D>)
      requires Valid() && i < |Contents()|
      modifies Repr()
      ensures Valid() && Contents() == old(Contents())[i := r] && fresh(Repr() - old(Repr()))
      ensures SnapshotsKept() && list.frozen == old(list.frozen)
    {
      hide Elements, Shape;
      ghost var s := Contents();
      ranges.Invalidate(i / BLOCK_RECORDS, 0, s, s[i := r]);
      list.Set(i, r);
    }

    method Freeze() returns (view: seq<Slice<Record<D>>>)
      requires Valid()
      modifies list`shared, list`frozen
      ensures Valid() && Contents() == old(Contents()) && view == list.blocks
      ensures old(list.frozen).Keys <= list.frozen.Keys && SnapshotsKept()
      ensures forall i | 0 <= i < |view| :: view[i].data in list.frozen && view[i].len == list.frozen[view[i].data]
    {
      view := list.Freeze();
    }

    method Append(r: Record<D>)
      requires Valid()
      modifies Repr()
      ensures Valid() && Contents() == old(Contents()) + [r] && fresh(Repr() - old(Repr()))
      ensures SnapshotsKept() && list.frozen == old(list.frozen)
    {
      hide Elements, Shape;
      ghost var s := Contents();
      ranges.Invalidate(list.count / BLOCK_RECORDS, 0, s, s + [r]);
      list.Append(r);
    }

    method ShrinkRanges(n: nat)
      requires Valid() && n == |Contents()|
      modifies ranges
      ensures Valid() && Contents() == old(Contents()) && Repr() <= old(Repr())
    {
      ghost var s := Contents();
      if n == 0 {
        ranges.Clear();
      } else {
        ranges.Shrink((n + BLOCK_RECORDS - 1) / BLOCK_RECORDS);
      }
    }

    method Truncate(n: nat)
      requires Valid() && n <= |Contents()|
      modifies Repr()
      ensures Valid() && Contents() == old(Contents())[..n] && fresh(Repr() - old(Repr()))
      ensures SnapshotsKept() && list.frozen == old(list.frozen)
    {
      hide Elements, Shape;
      ghost var s := Contents();
      ranges.InvalidateFrom(n, 0, s, s[..n]);
      list.Truncate(n);
      ShrinkRanges(n);
    }

    /** Every record behind position `i` moves down by one, so no aggregate from its block on survives. */
    method Remove(i: nat)
      requires Valid() && i < |Contents()|
      modifies Repr()
      ensures Valid() && Contents() == old(Contents())[..i] + old(Contents())[i + 1..] && fresh(Repr() - old(Repr()))
      ensures SnapshotsKept() && list.frozen == old(list.frozen)
    {
      hide Elements, Shape;
      ghost var s := Contents();
      ranges.InvalidateFrom(i, 0, s, s[..i] + s[i + 1..]);
      list.Remove(i);
      ShrinkRanges(|Contents()|);
    }

    /** Expiry: the records before the cutoff leave, all others stay in order. */
    method Prune(cutoff: int) returns (expired: seq<Record<D>>)
      requires Valid()
      modifies Repr()
      ensures Valid() && fresh(Repr() - old(Repr()))
      ensures Contents() == Filter(old(Contents()), Survivor(cutoff))
      ensures expired == Rejected(old(Contents()), Survivor(cutoff))
      ensures SnapshotsKept() && list.frozen == old(list.frozen)
    {
      hide BlockList.Valid, BlockList.Contents, RangeBlocks.Describes, Filter, Rejected;
      ghost var s := Contents();
      if cutoff == 0 || list.count == 0 {
        expired := [];
        NoneFiltered(s, Survivor(cutoff));
        return;
      }
      expired := list.Retain(Survivor(cutoff));
      FilterLength(s, Survivor(cutoff));
      if expired != [] {
        ranges.InvalidateFrom(0, 0, s, Contents());
        ShrinkRanges(|Contents()|);
      } else {
        NoneRejected(s, Survivor(cutoff));
      }
    }
  }

  // ----- any interleaving of operations -----

  datatype Operation<D> = Append(r: Record<D>) | Set(i: nat, r: Record<D>) | Remove(i: nat) | Truncate(n: nat)
                        | Prune(cutoff: int) | Freeze

  /** What an operation does to the plain sequence of records. */
  function Step<D>(s: seq<Record<D>>, op: Operation<D>): seq<Record<D>> {
    match op
    case Append(r) => s + [r]
    case Set(i, r) => if i < |s| then s[i := r] else s
    case Remove(i) => if i < |s| then s[..i] + s[i + 1..] else s
    case Truncate(n) => if n <= |s| then s[..n] else s
    case Prune(cutoff) => Filter(s, Survivor(cutoff))
    case Freeze => s
  }

  ghost function Steps<D>(s: seq<Record<D>>, ops: seq<Operation<D>>): seq<Record<D>>
    decreases |ops|
  {
    if ops == [] then s else Steps(Step(s, ops[0]), ops[1..])
  }

  /** The sequence at each point where a snapshot is taken. */
  ghost function FrozenStates<D>(s: seq<Record<D>>, ops: seq<Operation<D>>): seq<seq<Record<D>>>
    decreases |ops|
  {
    if ops == [] then []
    else (if ops[0].Freeze? then [s] else []) + FrozenStates(Step(s, ops[0]), ops[1..])
  }

  /** A snapshot shows the records `s`. */
  ghost predicate Shows<D>(view: seq<Slice<Record<D>>>, s: seq<Record<D>>)
    reads set b | b in view :: b.data
  {
    Shape(view, |s|) && Elements(view, |s|) == s
  }

  /** The list protects what the snapshot reads. */
  ghost predicate Protects<D(0)>(h: AccountingBlocks<D>, view: seq<Slice<Record<D>>>)
    reads h.list
  {
    forall i | 0 <= i < |view| :: view[i].data in h.list.frozen && view[i].len <= h.list.frozen[view[i].data] <= view[i].data.Length
  }

  /** What the snapshot shows depends on nothing but the protected parts of the arrays. */
  ghost predicate ReadsFrom<D>(kept: map<array<Record<D>>, seq<Record<D>>>, view: seq<Slice<Record<D>>>, s: seq<Record<D>>) {
    && Shape(view, |s|)
    && forall j | 0 <= j < |s| ::
         j / BLOCK < |view| && view[j / BLOCK].data in kept && j % BLOCK < |kept[view[j / BLOCK].data]|
         && kept[view[j / BLOCK].data][j % BLOCK] == s[j]
  }

  ghost function Kept<D(0)>(h: AccountingBlocks<D>): (kept: map<array<Record<D>>, seq<Record<D>>>)
    requires h.list.Valid()
    reads h.list, h.list.frozen.Keys
  {
    map a | a in h.list.frozen :: a[..h.list.frozen[a]]
  }

  lemma ShownIsRead<D(0)>(h: AccountingBlocks<D>, view: seq<Slice<Record<D>>>, s: seq<Record<D>>)
    requires h.list.Valid() && Protects(h, view) && Shows(view, s)
    ensures ReadsFrom(Kept(h), view, s)
  {
    forall j | 0 <= j < |s|
      ensures j / BLOCK < |view| && view[j / BLOCK].data in Kept(h) && j % BLOCK < |Kept(h)[view[j / BLOCK].data]|
      ensures Kept(h)[view[j / BLOCK].data][j % BLOCK] == s[j]
    {
      Position(|s|, j);
      assert Elements(view, |s|)[j] == s[j];
    }
  }

  lemma ReadIsShown<D>(kept: map<array<Record<D>>, seq<Record<D>>>, view: seq<Slice<Record<D>>>, s: seq<Record<D>>)
    requires ReadsFrom(kept, view, s)
    requires forall a | a in kept :: |kept[a]| <= a.Length && a[..|kept[a]|] == kept[a]
    ensures Shows(view, s)
  {
    forall j | 0 <= j < |s| ensures Elements(view, |s|)[j] == s[j] {
      Position(|s|, j);
      var a := view[j / BLOCK].data;
      assert a[..|kept[a]|][j % BLOCK] == s[j];
    }
  }

  method Apply<D(0)>(h: AccountingBlocks<D>, op: Operation<D>) returns (view: seq<Slice<Record<D>>>)
    requires h.Valid()
    modifies h.Repr()
    ensures h.Valid() && h.Contents() == Step(old(h.Contents()), op) && fresh(h.Repr() - old(h.Repr()))
    ensures h.SnapshotsKept() && old(h.list.frozen).Keys <= h.list.frozen.Keys
    ensures op.Freeze? ==> Protects(h, view) && Shows(view, h.Contents())
  {
    view := [];
    match op {
      case Append(r) => h.Append(r);
      case Set(i, r) =>
        if i < h.list.count { h.Set(i, r); }
      case Remove(i) =>
        if i < h.list.count { h.Remove(i); }
      case Truncate(n) =>
        if n <= h.list.count { h.Truncate(n); }
      case Prune(cutoff) => var _ := h.Prune(cutoff);
      case Freeze => view := h.Freeze();
    }
  }

  /** All snapshots show what they showed when they were taken, and are protected. */
  ghost predicate AllShow<D(0)>(h: AccountingBlocks<D>, views: seq<seq<Slice<Record<D>>>>, shown: seq<seq<Record<D>>>)
    reads h.list, set v, b | v in views && b in v :: b.data
  {
    |views| == |shown| && forall k | 0 <= k < |views| :: Protects(h, views[k]) && ShowsAt(views, k, shown[k])
  }

  ghost predicate ShowsAt<D>(views: seq<seq<Slice<Record<D>>>>, k: nat, s: seq<Record<D>>)
    requires k < |views|
    reads set v, b | v in views && b in v :: b.data
  {
    assert views[k] in views;
    Shows(views[k], s)
  }

  method Proceed<D(0)>(h: AccountingBlocks<D>, op: Operation<D>, ghost views: seq<seq<Slice<Record<D>>>>,
                       ghost shown: seq<seq<Record<D>>>) returns (view: seq<Slice<Record<D>>>)
    requires h.Valid() && AllShow(h, views, shown)
    modifies h.Repr()
    ensures h.Valid() && h.Contents() == Step(old(h.Contents()), op) && fresh(h.Repr() - old(h.Repr()))
    ensures AllShow(h, views, shown)
    ensures op.Freeze? ==> Protects(h, view) && Shows(view, h.Contents())
  {
    hide Elements, Shape, Step;
    ghost var kept := Kept(h);
    forall k | 0 <= k < |views| ensures ReadsFrom(kept, views[k], shown[k]) {
      assert ShowsAt(views, k, shown[k]);
      ShownIsRead(h, views[k], shown[k]);
    }
    view := Apply(h, op);
    forall k | 0 <= k < |views| ensures Protects(h, views[k]) && ShowsAt(views, k, shown[k]) {
      ReadIsShown(kept, views[k], shown[k]);
    }
  }

  /** Whatever the order of operations, the list holds what the plain sequence would hold, and every
      snapshot shows at the end what it showed when it was taken. */
  method Run<D(0)>(h: AccountingBlocks<D>, ops: seq<Operation<D>>)
      returns (views: seq<seq<Slice<Record<D>>>>, ghost shown: seq<seq<Record<D>>>)
    requires h.Valid()
    modifies h.Repr()
    ensures h.Valid() && h.Contents() == Steps(old(h.Contents()), ops) && fresh(h.Repr() - old(h.Repr()))
    ensures shown == FrozenStates(old(h.Contents()), ops) && AllShow(h, views, shown)
  {
    hide Elements, Shape, Step, Steps, FrozenStates, Protects, Shows, AllShow, BlockList.Valid, BlockList.Contents, RangeBlocks.Describes;
    views, shown := [], [];
    NoneShow(h);
    ghost var s := h.Contents();
    assert ops[0..] == ops;
    var i := 0;
    while i < |ops|
      invariant 0 <= i <= |ops| && h.Valid() && fresh(h.Repr() - old(h.Repr()))
      invariant Steps(h.Contents(), ops[i..]) == Steps(s, ops)
      invariant shown + FrozenStates(h.Contents(), ops[i..]) == FrozenStates(s, ops)
      invariant AllShow(h, views, shown)
    {
      ghost var before := h.Contents();
      OneStep(before, ops, i);
      var view := Proceed(h, ops[i], views, shown);
      if ops[i].Freeze? {
        MoreShow(h, views, shown, view, before);
        views, shown := views + [view], shown + [before];
      }
      i := i + 1;
    }
    NoSteps(h.Contents(), ops[i..]);
  }

  lemma OneStep<D>(s: seq<Record<D>>, ops: seq<Operation<D>>, i: nat)
    requires i < |ops|
    ensures Steps(s, ops[i..]) == Steps(Step(s, ops[i]), ops[i + 1..])
    ensures FrozenStates(s, ops[i..]) == (if ops[i].Freeze? then [s] else []) + FrozenStates(Step(s, ops[i]), ops[i + 1..])
    ensures ops[i].Freeze? ==> Step(s, ops[i]) == s
  {
    assert ops[i..][1..] == ops[i + 1..];
  }

  lemma NoSteps<D>(s: seq<Record<D>>, ops: seq<Operation<D>>)
    requires ops == []
    ensures Steps(s, ops) == s && FrozenStates(s, ops) == []
  {
  }

  lemma NoneShow<D(0)>(h: AccountingBlocks<D>)
    ensures AllShow(h, [], [])
  {
  }

  lemma MoreShow<D(0)>(h: AccountingBlocks<D>, views: seq<seq<Slice<Record<D>>>>, shown: seq<seq<Record<D>>>,
                       view: seq<Slice<Record<D>>>, s: seq<Record<D>>)
    requires AllShow(h, views, shown) && Protects(h, view) && Shows(view, s)
    ensures AllShow(h, views + [view], shown + [s])
  {
    forall k | 0 <= k < |views| ensures ShowsAt(views + [view], k, shown[k]) {
      assert ShowsAt(views, k, shown[k]);
    }
  }
}
