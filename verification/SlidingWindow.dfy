/** A list of details that slides through one allocation. Evicting the oldest moves it forward; a full
    allocation is reused from its beginning. Positions count from the beginning of the allocation. */
module SlidingWindow {
  import opened RangeBlocks
  import opened BlockList

  function InsertAt<T>(s: seq<T>, at: nat, x: T): seq<T>
    requires at <= |s|
  {
    s[..at] + [x] + s[at..]
  }

  ghost predicate SortedByTime<D>(s: seq<Record<D>>) {
    forall i, j | 0 <= i < j < |s| :: s[i].time <= s[j].time
  }

  class SlidingWindow<D(0)> {
    const zero: Record<D>
    var data: array<Record<D>>
    // The allocation begins at `base` if it is known, and the window at `start`.
    var base: nat
    var start: nat
    var len: nat
    var known: bool

    /** The position of the first detail in the allocation. */
    function Offset(): nat
      requires base <= start
      reads this
    {
      if known then start - base else 0
    }

    ghost predicate InBounds()
      reads this
    {
      base <= start <= start + len <= data.Length && (len > 0 ==> known)
    }

    function Contents(): (s: seq<Record<D>>)
      requires InBounds()
      reads this, data
      ensures |s| == len
    {
      data[start..start + len]
    }

    constructor (zero: Record<D>)
      ensures InBounds() && Contents() == [] && !known && fresh(data)
    {
      this.zero := zero;
      data := new Record<D>[0];
      base, start, len, known := 0, 0, 0, false;
    }

    /** Makes room for one more detail behind the window: from the front of the allocation, or in a
        larger one. */
    method Room() returns (moved: bool)
      requires InBounds()
      modifies this`data, this`base, this`start, this`known, data
      ensures InBounds() && start + len < data.Length && Contents() == old(Contents()) && len == old(len)
      ensures moved ==> known && Offset() == 0
      ensures !moved ==> data == old(data) && start == old(start) && base == old(base) && known == old(known)
      ensures data == old(data) || fresh(data)
    {
      moved := false;
      if start + len == data.Length && known && data.Length - base > len {
        Rebase();
        moved := true;
      }
      if start + len == data.Length {
        Reallocate();
        moved := true;
      }
    }

    static method CopyDown(a: array<Record<D>>, to: nat, from: nat, n: nat)
      requires to <= from && from + n <= a.Length
      modifies a
      ensures a[to..to + n] == old(a[from..from + n])
    {
      forall i | to <= i < to + n {
        a[i] := a[i + (from - to)];
      }
    }

    method Rebase()
      requires InBounds() && known && start + len == data.Length && data.Length - base > len
      modifies this`start, data
      ensures InBounds() && start == base && start + len < data.Length && Contents() == old(Contents())
    {
      CopyDown(data, base, start, len);
      ClearBehind(base, len);
      start := base;
    }

    method ClearBehind(from: nat, n: nat)
      requires from + n <= data.Length
      modifies data
      ensures data[from..from + n] == old(data[from..from + n])
    {
      forall i | from + n <= i < data.Length {
        data[i] := zero;
      }
    }

    method Reallocate()
      requires InBounds() && start + len == data.Length
      modifies this`data, this`base, this`start, this`known
      ensures InBounds() && start == base == 0 && start + len < data.Length && Contents() == old(Contents())
      ensures fresh(data) && known
    {
      var extra: nat :| extra >= 0;
      var grown := new Record<D>[len + 1 + extra];
      forall i | 0 <= i < len {
        grown[i] := data[start + i];
      }
      data, base, start, known := grown, 0, 0, true;
    }

    /** The first detail, by binary search, that is later than `time`. */
    method FirstAfter(n: nat, time: int) returns (at: nat)
      requires InBounds() && n <= len
      ensures at <= n
      ensures SortedByTime(Contents()[..n]) ==>
        (forall i | 0 <= i < at :: Contents()[i].time <= time) && (forall i | at <= i < n :: Contents()[i].time > time)
    {
      at := 0;
      var high := n;
      while at < high
        invariant at <= high <= n
        invariant SortedByTime(Contents()[..n]) ==>
          (forall i | 0 <= i < at :: Contents()[i].time <= time) && (forall i | high <= i < n :: Contents()[i].time > time)
      {
        var mid := (at + high) / 2;
        if data[start + mid].time > time {
          AllAfter(Contents()[..n], mid, time);
          high := mid;
        } else {
          AllBefore(Contents()[..n], mid, time);
          at := mid + 1;
        }
      }
    }

    static lemma AllAfter(s: seq<Record<D>>, mid: nat, time: int)
      requires mid < |s| && s[mid].time > time
      ensures SortedByTime(s) ==> forall i | mid <= i < |s| :: s[i].time > time
    {
    }

    static lemma AllBefore(s: seq<Record<D>>, mid: nat, time: int)
      requires mid < |s| && s[mid].time <= time
      ensures SortedByTime(s) ==> forall i | 0 <= i <= mid :: s[i].time <= time
    {
    }

    static method MoveUp(a: array<Record<D>>, from: nat, to: nat)
      requires from <= to < a.Length
      modifies a
      ensures forall i | 0 <= i < from :: a[i] == old(a[i])
      ensures forall i | from < i <= to :: a[i] == old(a[i - 1])
    {
      forall i | from < i <= to {
        a[i] := a[i - 1];
      }
    }

    /** Moves the details from `at` on up by one and stores `d` there. */
    method Shift(at: nat, d: Record<D>)
      requires InBounds() && start + len < data.Length && at <= len
      modifies data
      ensures data[start..start + len + 1] == InsertAt(old(Contents()), at, d)
    {
      ghost var s := Contents();
      MoveUp(data, start + at, start + len);
      data[start + at] := d;
      forall i | 0 <= i <= len ensures data[start..start + len + 1][i] == InsertAt(s, at, d)[i] {
        if i < at {
          assert data[start + i] == old(data[start + i]) == s[i];
        } else if i > at {
          assert data[start + i] == old(data[start + i - 1]) == s[i - 1];
        }
      }
    }

    static lemma InsertKeepsOrder(s: seq<Record<D>>, at: nat, d: Record<D>)
      requires at <= |s| && SortedByTime(s)
      requires (forall i | 0 <= i < at :: s[i].time <= d.time) && (forall i | at <= i < |s| :: s[i].time > d.time)
      ensures SortedByTime(InsertAt(s, at, d))
    {
    }

    /** Puts the detail behind the window and, if it came late, moves it forward to its place. */
    method Insert(d: Record<D>) returns (at: nat)
      requires InBounds() && start + len < data.Length && known
      modifies this`len, data
      ensures InBounds() && at <= |old(Contents())| && Contents() == InsertAt(old(Contents()), at, d)
      ensures SortedByTime(old(Contents())) ==> SortedByTime(Contents())
    {
      ghost var s := Contents();
      at := len;
      if len > 0 && data[start + len - 1].time > d.time {
        at := FirstAfter(len, d.time);
      }
      assert s[..len] == s;
      Shift(at, d);
      len := len + 1;
      if SortedByTime(s) {
        assert at == |s| && s != [] ==> s[|s| - 1].time <= d.time;
        InsertKeepsOrder(s, at, d);
      }
    }

    /** Adds a detail in time order. Unless everything moved, the details before it stay where they are. */
    method Add(d: Record<D>) returns (at: nat, moved: bool)
      requires InBounds()
      modifies this, data
      ensures InBounds() && known && (data == old(data) || fresh(data))
      ensures at <= |old(Contents())| && Contents() == InsertAt(old(Contents()), at, d)
      ensures SortedByTime(old(Contents())) ==> SortedByTime(Contents())
      ensures moved ==> Offset() == 0
      ensures !moved ==> data == old(data) && start == old(start) && (old(known) ==> base == old(base)) && (!old(known) ==> base == start)
    {
      moved := Room();
      if !known {
        base, known := start, true;
      }
      at := Insert(d);
    }

    method MoveDown(i: nat)
      requires InBounds() && i < len
      modifies data
      ensures data[start..start + len - 1] == old(Contents())[..i] + old(Contents())[i + 1..]
    {
      ghost var s := Contents();
      forall j | start + i <= j < start + len - 1 {
        data[j] := data[j + 1];
      }
      ghost var t := s[..i] + s[i + 1..];
      forall j | 0 <= j < len - 1 ensures t[j] == data[start + j] {
        if j >= i {
          assert data[start + j] == old(data[start + j + 1]) == s[j + 1];
        } else {
          assert data[start + j] == old(data[start + j]) == s[j];
        }
      }
      data[start + len - 1] := zero;
      assert data[start..start + len - 1] == t;
    }

    method Take(i: nat)
      requires InBounds() && i < len
      modifies this`len, this`known, data
      ensures InBounds() && Contents() == old(Contents())[..i] + old(Contents())[i + 1..]
      ensures known == (old(known) && len > 0)
    {
      MoveDown(i);
      len := len - 1;
      if len == 0 {
        known := false;
      }
    }

    method Release()
      requires InBounds() && len == 0
      modifies this
      ensures InBounds() && Contents() == [] && !known && fresh(data)
    {
      data := new Record<D>[0];
      base, start, known := 0, 0, false;
    }

    /** Moves the details to an allocation of their own size, with some room to grow. */
    method MoveOut()
      requires InBounds() && len > 0
      modifies this
      ensures InBounds() && Contents() == old(Contents()) && known && Offset() == 0 && fresh(data)
    {
      var compact := new Record<D>[len + if len / 4 > 1 then len / 4 else 1];
      forall i | 0 <= i < len {
        compact[i] := data[start + i];
      }
      data, base, start, known := compact, 0, 0, true;
    }

    /** Whether much of the allocation is unused. */
    method Underused(previousCapacity: nat) returns (much: bool)
      requires InBounds()
      ensures much <==>
        (previousCapacity >= 1024 && len <= previousCapacity / 4) || (data.Length - base >= 1024 && len <= (data.Length - base) / 4)
    {
      var capacity := if previousCapacity > data.Length - base then previousCapacity else data.Length - base;
      much := !(capacity < 1024 || len > capacity / 4);
    }

    /** Moves the window forward and clears what it leaves. */
    method Advance(removed: nat)
      requires InBounds() && removed <= len
      modifies this`start, this`len, data
      ensures InBounds() && start == old(start) + removed && len == old(len) - removed
      ensures Contents() == old(Contents())[removed..]
    {
      ghost var s := Contents();
      forall i | start <= i < start + removed {
        data[i] := zero;
      }
      start, len := start + removed, len - removed;
      forall i | 0 <= i < len ensures Contents()[i] == s[removed..][i] {
        assert data[start + i] == s[removed + i];
      }
    }

    /** Filters the window in place: `kept` runs behind the position being read. */
    method FilterInPlace(keep: Record<D> -> bool) returns (kept: nat, expired: seq<Record<D>>)
      requires InBounds()
      modifies data
      ensures kept == KeptCount(old(Contents()), keep, len) && Contents() == Compacted(old(Contents()), keep, len)
      ensures expired == RejectedBefore(old(Contents()), keep, len)
    {
      hide Compacted, KeptCount, RejectedBefore;
      ghost var s := Contents();
      CompactedNone(s, keep);
      kept, expired := 0, [];
      var n := 0;
      while n < len
        invariant n <= len && kept == KeptCount(s, keep, n) && Contents() == Compacted(s, keep, n)
        invariant expired == RejectedBefore(s, keep, n)
      {
        CompactedTail(s, keep, n);
        CompactOne(s, keep, n);
        var d := data[start + n];
        assert d == Contents()[n] == s[n];
        if keep(d) {
          data[start + kept] := d;
          assert Contents() == Compacted(s, keep, n)[kept := d];
          kept := kept + 1;
        } else {
          expired := expired + [d];
        }
        n := n + 1;
      }
    }

    method CutTo(kept: nat)
      requires InBounds() && kept <= len
      modifies this`len, this`known, data
      ensures InBounds() && len == kept && Contents() == old(Contents())[..kept]
      ensures known == (old(known) && len > 0)
    {
      forall i | start + kept <= i < start + len {
        data[i] := zero;
      }
      len := kept;
      if len == 0 {
        known := false;
      }
    }
  }
}
