/** The visible details of a model and the aggregate blocks over them. Positions of blocks count from
    the beginning of the allocation. */
module DetailWindow {
  import opened RangeBlocks
  import opened BlockList
  import opened SlidingWindow

  class DetailWindow<D(0)> {
    const details: SlidingWindow<D>
    const ranges: RangeBlocks<D>

    ghost function Repr(): set<object>
      reads details, ranges
    {
      {details, details.data, ranges} + ranges.Identities()
    }

    function Contents(): (s: seq<Record<D>>)
      requires details.InBounds()
      reads details, details.data
      ensures |s| == details.len
    {
      details.Contents()
    }

    ghost predicate Valid()
      reads details, details.data, ranges, ranges.Identities()
    {
      && details.InBounds() && (details.known <==> details.len > 0)
      && (details.len > 0 ==> ranges.Describes(details.Offset(), Contents()))
    }

    constructor (zero: Record<D>, ghost owner: Owner)
      ensures Valid() && Contents() == [] && fresh(Repr()) && ranges.owner == owner
    {
      details := new SlidingWindow<D>(zero);
      ranges := new RangeBlocks<D>(owner);
    }

    static lemma InsertAgrees(offset: nat, s: seq<Record<D>>, at: nat, d: Record<D>)
      requires at <= |s|
      ensures AgreeBelow((offset + at) / BLOCK_RECORDS * BLOCK_RECORDS, offset, s, InsertAt(s, at, d))
    {
    }

    method InvalidateInserted(moved: bool, at: nat, ghost s: seq<Record<D>>, ghost d: Record<D>)
      requires details.InBounds() && details.known && at <= |s| && Contents() == InsertAt(s, at, d)
      requires moved || s == [] ==> details.Offset() == 0
      requires !moved && s != [] ==> ranges.Describes(details.Offset(), s)
      modifies ranges, ranges.Identities()
      ensures Valid() && ranges.Identities() <= old(ranges.Identities())
    {
      InsertAgrees(details.Offset(), s, at, d);
      ranges.InvalidateFrom(if moved then 0 else details.Offset() + at, details.Offset(), s, Contents());
    }

    method Append(d: Record<D>)
      requires Valid()
      modifies Repr()
      ensures Valid() && fresh(Repr() - old(Repr())) && details.len == old(details.len) + 1
      ensures exists at :: 0 <= at <= |old(Contents())| && Contents() == InsertAt(old(Contents()), at, d)
      ensures SortedByTime(old(Contents())) ==> SortedByTime(Contents())
    {
      hide Accurate, AgreeBelow;
      ghost var s := Contents();
      var at, moved := details.Add(d);
      assert !moved && s != [] ==> ranges.Describes(details.Offset(), s);
      InvalidateInserted(moved, at, s, d);
    }

    static lemma UpdateAgrees(offset: nat, s: seq<Record<D>>, i: nat, t: seq<Record<D>>)
      requires i < |s| && i <= |t| && forall j | 0 <= j < i :: s[j] == t[j]
      ensures AgreeBelow((offset + i) / BLOCK_RECORDS * BLOCK_RECORDS, offset, s, t)
    {
    }

    method Set(i: nat, d: Record<D>)
      requires Valid() && i < details.len
      modifies Repr()
      ensures Valid() && Contents() == old(Contents())[i := d] && fresh(Repr() - old(Repr()))
    {
      ghost var s := Contents();
      UpdateAgrees(details.Offset(), s, i, s[i := d]);
      ranges.InvalidateFrom(details.Offset() + i, details.Offset(), s, s[i := d]);
      details.data[details.start + i] := d;
      assert Contents() == s[i := d];
    }

    method Remove(i: nat)
      requires Valid() && i < details.len
      modifies Repr()
      ensures Valid() && Contents() == old(Contents())[..i] + old(Contents())[i + 1..] && fresh(Repr() - old(Repr()))
    {
      hide AgreeBelow;
      ghost var s := Contents();
      UpdateAgrees(details.Offset(), s, i, s[..i] + s[i + 1..]);
      ranges.InvalidateFrom(details.Offset() + i, details.Offset(), s, s[..i] + s[i + 1..]);
      hide Accurate;
      details.Take(i);
    }

    method DropBlocks()
      requires details.InBounds()
      modifies ranges, ranges.Identities()
      ensures ranges.blocks == []
    {
      ranges.InvalidateFrom(0, 0, [], []);
      ranges.Clear();
    }

    /** After much was evicted, the window moves to an allocation of its own size. */
    method Compact(previousCapacity: nat)
      requires details.InBounds()
      requires details.len > 0 ==> ranges.Describes(details.Offset(), Contents())
      modifies Repr()
      ensures Valid() && Contents() == old(Contents()) && fresh(Repr() - old(Repr()))
    {
      hide Accurate;
      var underused := details.Underused(previousCapacity);
      if details.len == 0 {
        DropBlocks();
        details.Release();
      } else if underused {
        DropBlocks();
        details.MoveOut();
      }
    }

    static lemma TailDescribed(ranges: RangeBlocks<D>, offset: nat, s: seq<Record<D>>, k: nat)
      requires k <= |s| && ranges.Describes(offset, s)
      ensures ranges.Describes(offset + k, s[k..])
    {
      forall i | 0 <= i < |ranges.blocks| ensures Accurate(ranges.blocks[i], i, offset + k, s[k..]) {
        var b := ranges.blocks[i];
        assert Accurate(b, i, offset, s);
        if b.RangeBlock? && b.identity.valid && b.from >= offset + k {
          assert s[k..][b.from - (offset + k)..b.end - (offset + k)] == s[b.from - offset..b.end - offset];
        }
      }
    }

    /** Evicts the oldest details beyond `limit`, without moving the others. */
    method Trim(limit: nat) returns (evicted: seq<Record<D>>)
      requires Valid()
      modifies Repr()
      ensures Valid() && fresh(Repr() - old(Repr()))
      ensures evicted + Contents() == old(Contents())
      ensures details.len == if old(details.len) <= limit then old(details.len) else limit
    {
      hide Accurate, AgreeBelow;
      if details.len <= limit {
        evicted := [];
        return;
      }
      var removed, previousCapacity := details.len - limit, details.data.Length - details.start;
      evicted := details.data[details.start..details.start + removed];
      TailDescribed(ranges, details.Offset(), Contents(), removed);
      details.Advance(removed);
      Compact(previousCapacity);
    }

    method FilterBy(keep: Record<D> -> bool) returns (expired: seq<Record<D>>)
      requires Valid()
      modifies Repr()
      ensures details.InBounds() && fresh(Repr() - old(Repr()))
      ensures details.len > 0 ==> ranges.Describes(details.Offset(), Contents())
      ensures Contents() == Filter(old(Contents()), keep) && expired == Rejected(old(Contents()), keep)
    {
      hide Accurate, AgreeBelow, Filter, Rejected, Compacted, KeptCount, RejectedBefore;
      ghost var s := Contents();
      var kept;
      kept, expired := details.FilterInPlace(keep);
      CompactedAll(s, keep);
      details.CutTo(kept);
      if expired != [] {
        DropBlocks();
      } else {
        NoneRejected(s, keep);
      }
    }

    /** Expiry: the details before the cutoff leave, all others stay in order. */
    method Prune(cutoff: int) returns (expired: seq<Record<D>>)
      requires Valid()
      modifies Repr()
      ensures Valid() && fresh(Repr() - old(Repr()))
      ensures Contents() == Filter(old(Contents()), Survivor(cutoff))
      ensures expired == Rejected(old(Contents()), Survivor(cutoff))
    {
      hide Accurate, AgreeBelow, Filter, Rejected;
      var capacity := details.data.Length - details.start;
      FilterLength(Contents(), Survivor<D>(cutoff));
      expired := [];
      if cutoff == 0 {
        NoneFiltered(Contents(), Survivor<D>(cutoff));
      } else {
        expired := FilterBy(Survivor(cutoff));
      }
      Compact(capacity);
    }
  }
}
