/** A growing list in bounded blocks. Snapshots share the block arrays: only slice headers are copied,
    and a block that a snapshot may still read is copied before it is overwritten. */
module BlockList {

  const BLOCK := 256

  /** A slice header: the first `len` elements of an array, whose length is the capacity. */
  datatype Slice<T> = Slice(data: array<T>, len: nat)

  function BlockCount(count: nat): nat { (count + BLOCK - 1) / BLOCK }

  /** How many of `count` records are in block `i`. */
  function BlockLength(count: nat, i: nat): int {
    if i + 1 < BlockCount(count) then BLOCK else count - (BlockCount(count) - 1) * BLOCK
  }

  lemma Position(count: nat, i: nat)
    requires i < count
    ensures i / BLOCK < BlockCount(count) && i % BLOCK < BlockLength(count, i / BLOCK)
  {
  }

  lemma NextPosition(count: nat)
    ensures BlockCount(count + 1) == count / BLOCK + 1 && BlockLength(count + 1, count / BLOCK) == count % BLOCK + 1
    ensures count % BLOCK == 0 ==> BlockCount(count) == count / BLOCK
    ensures count % BLOCK != 0 ==> BlockCount(count) == count / BLOCK + 1 && BlockLength(count, count / BLOCK) == count % BLOCK
    ensures forall i: nat | i < count / BLOCK :: BlockLength(count, i) == BLOCK == BlockLength(count + 1, i)
  {
    assert count == count / BLOCK * BLOCK + count % BLOCK;
    forall i: nat | i < count / BLOCK ensures BlockLength(count, i) == BLOCK == BlockLength(count + 1, i) {
      if i + 1 >= BlockCount(count) {
        assert i + 1 == count / BLOCK && count % BLOCK == 0;
      }
    }
  }

  function Min(a: int, b: int): int { if a <= b then a else b }

  function Max(a: int, b: int): int { if a >= b then a else b }

  ghost predicate Shape<T>(bs: seq<Slice<T>>, count: nat) {
    && |bs| == BlockCount(count)
    && (forall i | 0 <= i < |bs| :: bs[i].len == BlockLength(count, i) && bs[i].len <= bs[i].data.Length)
    && (forall i, j | 0 <= i < j < |bs| :: bs[i].data != bs[j].data)
  }

  /** The elements of the blocks, in order. */
  function Elements<T>(bs: seq<Slice<T>>, count: nat): (s: seq<T>)
    requires Shape(bs, count)
    reads set s | s in bs :: s.data
    ensures |s| == count
  {
    seq(count, i requires 0 <= i < count && Shape(bs, count) reads set s | s in bs :: s.data =>
      Position(count, i); assert bs[i / BLOCK] in bs; bs[i / BLOCK].data[i % BLOCK])
  }

  /** `bs` has room for one more element than `from` holds, in the last block. */
  ghost predicate HasRoom<T>(bs: seq<Slice<T>>, last: nat, from: seq<Slice<T>>, count: nat) {
    && |bs| == BlockCount(count + 1) == last + 1 && |from| <= |bs|
    && (forall i | 0 <= i < last :: i < |from| && bs[i] == from[i])
    && (forall i | 0 <= i < last :: bs[i].data != bs[last].data)
    && bs[last].len == count % BLOCK < bs[last].data.Length
    && (last < |from| ==> from[last].len == bs[last].len)
  }

  lemma ExtendedShape<T>(bs: seq<Slice<T>>, last: nat, from: seq<Slice<T>>, count: nat)
    requires Shape(from, count) && HasRoom(bs, last, from, count)
    ensures Shape(bs[last := Slice(bs[last].data, bs[last].len + 1)], count + 1)
  {
    NextPosition(count);
  }

  lemma ExtendedElements<T>(bs: seq<Slice<T>>, last: nat, from: seq<Slice<T>>, count: nat)
    requires Shape(from, count) && HasRoom(bs, last, from, count)
    requires last < |from| ==> bs[last].data[..bs[last].len] == from[last].data[..bs[last].len]
    ensures var next := bs[last := Slice(bs[last].data, bs[last].len + 1)];
            Shape(next, count + 1) && Elements(next, count + 1) == Elements(from, count) + [bs[last].data[bs[last].len]]
  {
    NextPosition(count);
    ExtendedShape(bs, last, from, count);
    var next := bs[last := Slice(bs[last].data, bs[last].len + 1)];
    forall j | 0 <= j < count ensures Elements(next, count + 1)[j] == Elements(from, count)[j] {
      Position(count, j);
      Position(count + 1, j);
      var i, k := j / BLOCK, j % BLOCK;
      if i == last {
        assert bs[last].data[..bs[last].len][k] == from[last].data[..bs[last].len][k];
      }
    }
  }

  lemma TruncatedElements<T>(bs: seq<Slice<T>>, count: nat, cut: seq<Slice<T>>, n: nat)
    requires Shape(bs, count) && 0 < n <= count
    requires |cut| == BlockCount(n) <= |bs| && forall i | 0 <= i < |cut| - 1 :: cut[i] == bs[i]
    requires cut[|cut| - 1].data == bs[|cut| - 1].data && cut[|cut| - 1].len == n - (BlockCount(n) - 1) * BLOCK
    ensures Shape(cut, n) && Elements(cut, n) == Elements(bs, count)[..n]
  {
    var last := BlockCount(n) - 1;
    assert cut[last].len == BlockLength(n, last) <= BlockLength(count, last);
    forall j | 0 <= j < n ensures Elements(cut, n)[j] == Elements(bs, count)[j] {
      Position(n, j);
      Position(count, j);
    }
  }

  /** The elements that `keep` accepts, in order. */
  function Filter<T>(s: seq<T>, keep: T -> bool): seq<T> {
    if s == [] then []
    else Filter(s[..|s| - 1], keep) + if keep(s[|s| - 1]) then [s[|s| - 1]] else []
  }

  /** The others, in order. */
  function Rejected<T>(s: seq<T>, keep: T -> bool): seq<T> {
    if s == [] then []
    else Rejected(s[..|s| - 1], keep) + if keep(s[|s| - 1]) then [] else [s[|s| - 1]]
  }

  /** A filter keeps just the elements to keep, each as often as it was there; the rejected ones are the
      others. */
  lemma {:induction false} FilterParts<T>(s: seq<T>, keep: T -> bool)
    ensures multiset(Filter(s, keep)) + multiset(Rejected(s, keep)) == multiset(s)
  {
    if s != [] {
      var front, last := s[..|s| - 1], [s[|s| - 1]];
      FilterParts(front, keep);
      LastPart(Filter(front, keep), Rejected(front, keep), front, last);
      assert s == front + last;
      assert if keep(last[0]) then Filter(s, keep) == Filter(front, keep) + last && Rejected(s, keep) == Rejected(front, keep)
             else Filter(s, keep) == Filter(front, keep) && Rejected(s, keep) == Rejected(front, keep) + last;
    }
  }

  lemma LastPart<T>(a: seq<T>, b: seq<T>, s: seq<T>, last: seq<T>)
    requires multiset(a) + multiset(b) == multiset(s)
    ensures multiset(a + last) + multiset(b) == multiset(s + last) == multiset(a) + multiset(b + last)
  {
  }

  lemma {:induction false} FilterKeeps<T>(s: seq<T>, keep: T -> bool)
    ensures (forall x | x in Filter(s, keep) :: keep(x)) && (forall x | x in Rejected(s, keep) :: !keep(x))
  {
    if s != [] {
      FilterKeeps(s[..|s| - 1], keep);
    }
  }

  /** And it keeps their order: what is kept of a part comes first. */
  lemma {:induction false} FilterOfStart<T>(s: seq<T>, keep: T -> bool, n: nat)
    requires n <= |s|
    ensures Filter(s[..n], keep) <= Filter(s, keep)
  {
    if n < |s| {
      FilterOfStart(s[..|s| - 1], keep, n);
      assert s[..n] == s[..|s| - 1][..n];
    } else {
      assert s[..n] == s;
    }
  }

  lemma {:induction false} FilterLength<T>(s: seq<T>, keep: T -> bool)
    ensures |Filter(s, keep)| <= |s| && |Filter(s, keep)| + |Rejected(s, keep)| == |s|
  {
    if s != [] {
      FilterLength(s[..|s| - 1], keep);
    }
  }

  lemma {:induction false} NoneFiltered<T>(s: seq<T>, keep: T -> bool)
    requires forall i | 0 <= i < |s| :: keep(s[i])
    ensures Filter(s, keep) == s && Rejected(s, keep) == []
  {
    if s != [] {
      NoneFiltered(s[..|s| - 1], keep);
      assert s == s[..|s| - 1] + [s[|s| - 1]];
    }
  }

  lemma {:induction false} NoneRejected<T>(s: seq<T>, keep: T -> bool)
    requires Rejected(s, keep) == []
    ensures Filter(s, keep) == s
  {
    if s != [] {
      NoneRejected(s[..|s| - 1], keep);
      assert s == s[..|s| - 1] + [s[|s| - 1]];
    }
  }

  /** `s` with its first `n` elements filtered to the front, in place. */
  ghost function Compacted<T>(s: seq<T>, keep: T -> bool, n: nat): (r: seq<T>)
    requires n <= |s|
    ensures |r| == |s|
  {
    FilterLength(s[..n], keep);
    Filter(s[..n], keep) + s[|Filter(s[..n], keep)|..]
  }

  lemma KeptBound<T>(s: seq<T>, keep: T -> bool, n: nat)
    requires n <= |s|
    ensures KeptCount(s, keep, n) <= n
  {
  }

  ghost function KeptCount<T>(s: seq<T>, keep: T -> bool, n: nat): (k: nat)
    requires n <= |s|
    ensures k <= n
  {
    FilterLength(s[..n], keep);
    |Filter(s[..n], keep)|
  }

  ghost function RejectedBefore<T>(s: seq<T>, keep: T -> bool, n: nat): seq<T>
    requires n <= |s|
  {
    Rejected(s[..n], keep)
  }

  lemma CompactedTail<T>(s: seq<T>, keep: T -> bool, n: nat)
    requires n <= |s|
    ensures forall j | n <= j < |s| :: Compacted(s, keep, n)[j] == s[j]
  {
    FilterLength(s[..n], keep);
  }

  lemma CompactOne<T>(s: seq<T>, keep: T -> bool, n: nat)
    requires n < |s|
    ensures keep(s[n]) ==> KeptCount(s, keep, n + 1) == KeptCount(s, keep, n) + 1
    ensures keep(s[n]) ==> Compacted(s, keep, n + 1) == Compacted(s, keep, n)[KeptCount(s, keep, n) := s[n]]
    ensures !keep(s[n]) ==> KeptCount(s, keep, n + 1) == KeptCount(s, keep, n)
    ensures !keep(s[n]) ==> Compacted(s, keep, n + 1) == Compacted(s, keep, n)
    ensures RejectedBefore(s, keep, n + 1) == RejectedBefore(s, keep, n) + if keep(s[n]) then [] else [s[n]]
  {
    assert s[..n + 1][..n] == s[..n];
  }

  lemma CompactedNone<T>(s: seq<T>, keep: T -> bool)
    ensures Compacted(s, keep, 0) == s && KeptCount(s, keep, 0) == 0 && RejectedBefore(s, keep, 0) == []
  {
    assert s[..0] == [];
  }

  lemma CompactedAll<T>(s: seq<T>, keep: T -> bool)
    ensures Compacted(s, keep, |s|)[..KeptCount(s, keep, |s|)] == Filter(s, keep)
    ensures RejectedBefore(s, keep, |s|) == Rejected(s, keep)
  {
    assert s[..|s|] == s;
  }

  /** `s` with the elements behind position `i` moved down by one, up to position `to`. */
  ghost function Shifted<T>(s: seq<T>, i: nat, to: nat): (r: seq<T>)
    requires to < |s|
    ensures |r| == |s|
  {
    seq(|s|, j requires 0 <= j < |s| => if i <= j < to then s[j + 1] else s[j])
  }

  lemma ShiftedAll<T>(s: seq<T>, i: nat)
    requires i < |s|
    ensures Shifted(s, i, |s| - 1)[..|s| - 1] == s[..i] + s[i + 1..] && Shifted(s, i, i) == s
  {
  }

  lemma ShiftMore<T>(s: seq<T>, i: nat, to: nat)
    requires i <= to && to + 1 < |s|
    ensures Shifted(s, i, to)[to + 1] == s[to + 1]
    ensures Shifted(s, i, to)[to := s[to + 1]] == Shifted(s, i, to + 1)
  {
  }

  class BlockList<T(0)> {
    const zero: T
    var blocks: seq<Slice<T>>
    var shared: seq<bool>
    var count: nat
    // How many elements of an array some snapshot may read.
    ghost var frozen: map<array<T>, nat>

    ghost function Arrays(): set<array<T>>
      reads this
    {
      set s | s in blocks :: s.data
    }

    ghost function Repr(): set<object>
      reads this
    {
      {this} + Arrays()
    }

    /** A block whose array a snapshot reads is marked, and the snapshot ends before the free part. */
    ghost predicate Guarded()
      reads this
    {
      && (forall a | a in frozen :: frozen[a] <= a.Length)
      && (forall i | 0 <= i < |blocks| && blocks[i].data in frozen ::
            i < |shared| && shared[i] && frozen[blocks[i].data] <= blocks[i].len)
    }

    ghost predicate Valid()
      reads this
    {
      Shape(blocks, count) && |shared| <= |blocks| && Guarded()
    }

    ghost predicate Covers(i: nat)
      reads this
    {
      i / BLOCK < |blocks| && i % BLOCK < blocks[i / BLOCK].data.Length
    }

    /** The elements, in order. */
    function Contents(): (s: seq<T>)
      requires Shape(blocks, count)
      reads this, Arrays()
      ensures |s| == count
    {
      Elements(blocks, count)
    }

    /** Snapshots see what they saw before. */
    twostate predicate SnapshotsKept()
      reads this, frozen.Keys
    {
      forall a | a in old(frozen) && a in frozen && old(frozen[a]) <= a.Length ::
        old(frozen[a]) <= frozen[a] && a[..old(frozen[a])] == old(a[..frozen[a]])
    }

    constructor (zero: T)
      ensures Valid() && Contents() == [] && frozen == map[]
    {
      this.zero := zero;
      blocks, shared, count, frozen := [], [], 0, map[];
    }

    function At(i: nat): (r: T)
      requires Valid() && i < count
      reads this, Arrays()
      ensures r == Contents()[i]
    {
      Position(count, i);
      blocks[i / BLOCK].data[i % BLOCK]
    }

    /** Makes block `index` safe to write: afterwards no snapshot reads its array. */
    method WritableBlock(index: nat)
      requires Valid() && index < |blocks|
      modifies this`blocks, this`shared
      ensures Valid() && Contents() == old(Contents())
      ensures |blocks| == |old(blocks)| && blocks[index].len == old(blocks)[index].len
      ensures blocks[index].data !in frozen
      ensures blocks[index] == old(blocks)[index] || fresh(blocks[index].data)
      ensures forall i | 0 <= i < |blocks| && i != index :: blocks[i] == old(blocks)[i]
      ensures fresh(Repr() - old(Repr()))
    {
      ghost var before := blocks;
      if index < |shared| && shared[index] {
        var block := blocks[index];
        var copy := new T[block.data.Length];
        forall k | 0 <= k < block.len {
          copy[k] := block.data[k];
        }
        blocks := blocks[index := Slice(copy, block.len)];
        shared := shared[index := false];
        ArraysOf(before, index);
      }
    }

    lemma ArraysOf(before: seq<Slice<T>>, index: nat)
      requires index < |blocks|
      requires forall i | 0 <= i < |blocks| && i != index :: i < |before| && blocks[i].data == before[i].data
      ensures forall a | a in Arrays() :: a == blocks[index].data || a in set s | s in before :: s.data
    {
      forall a | a in Arrays() ensures a == blocks[index].data || a in set s | s in before :: s.data {
        var s :| s in blocks && s.data == a;
        var i :| 0 <= i < |blocks| && blocks[i] == s;
        if i != index {
          assert before[i] in before;
        }
      }
    }

    method Set(i: nat, r: T)
      requires Valid() && i < count
      modifies Repr()
      ensures Valid() && Contents() == old(Contents())[i := r] && fresh(Repr() - old(Repr()))
      ensures SnapshotsKept() && frozen == old(frozen) && count == old(count)
      ensures |blocks| == |old(blocks)| && i / BLOCK < |blocks|
      ensures forall k | 0 <= k < |blocks| && k != i / BLOCK :: blocks[k] == old(blocks)[k]
      ensures blocks[i / BLOCK].len == old(blocks)[i / BLOCK].len
      ensures blocks[i / BLOCK] == old(blocks)[i / BLOCK] || fresh(blocks[i / BLOCK].data)
      ensures forall a | a in old(Arrays()) && a != blocks[i / BLOCK].data :: a[..] == old(a[..])
    {
      Position(count, i);
      WritableBlock(i / BLOCK);
      assert blocks[i / BLOCK] in blocks;
      assert blocks[i / BLOCK].data !in frozen;
      Write(i, r);
    }

    method Write(i: nat, r: T)
      requires Valid() && i < count && Covers(i) && blocks[i / BLOCK].data !in frozen
      modifies blocks[i / BLOCK].data
      ensures Contents() == old(Contents())[i := r]
    {
      ghost var s := Contents();
      blocks[i / BLOCK].data[i % BLOCK] := r;
      forall j | 0 <= j < count ensures Contents()[j] == s[i := r][j] {
        Position(count, j);
        if j / BLOCK == i / BLOCK && j % BLOCK == i % BLOCK {
          assert j == i;
        }
      }
    }

    ghost function LengthIn(a: array<T>): nat
      requires a in Arrays()
      reads this
    {
      var s :| s in blocks && s.data == a;
      s.len
    }

    lemma LengthInIs(i: nat)
      requires Shape(blocks, count) && i < |blocks|
      ensures blocks[i].data in Arrays() && LengthIn(blocks[i].data) == blocks[i].len
    {
      assert blocks[i] in blocks;
      var s :| s in blocks && s.data == blocks[i].data && LengthIn(blocks[i].data) == s.len;
      var j :| 0 <= j < |blocks| && blocks[j] == s;
    }

    /** What snapshots read, once the whole list is among them. */
    ghost function FrozenWithAll(): (f: map<array<T>, nat>)
      requires Valid()
      reads this
      ensures f.Keys == frozen.Keys + Arrays()
      ensures forall i | 0 <= i < |blocks| :: blocks[i].data in Arrays() && f[blocks[i].data] == blocks[i].len
      ensures forall a | a in frozen :: frozen[a] <= f[a] <= a.Length
    {
      var f := map a | a in frozen.Keys + Arrays() :: if a in Arrays() then LengthIn(a) else frozen[a];
      assert forall i | 0 <= i < |blocks| :: blocks[i].data in Arrays() && f[blocks[i].data] == blocks[i].len by {
        forall i: nat | i < |blocks| ensures blocks[i].data in Arrays() && f[blocks[i].data] == blocks[i].len {
          LengthInIs(i);
        }
      }
      assert forall a | a in frozen :: frozen[a] <= f[a] <= a.Length by {
        forall a | a in frozen && a in Arrays() ensures frozen[a] <= f[a] <= a.Length {
          var s :| s in blocks && s.data == a;
          var i :| 0 <= i < |blocks| && blocks[i] == s;
          LengthInIs(i);
        }
      }
      f
    }

    /** A snapshot of the whole list: headers are copied, the arrays are shared. */
    method Freeze() returns (view: seq<Slice<T>>)
      requires Valid()
      modifies this`shared, this`frozen
      ensures Valid() && Contents() == old(Contents()) && view == blocks
      ensures old(frozen).Keys <= frozen.Keys && SnapshotsKept()
      ensures forall i | 0 <= i < |view| :: view[i].data in frozen && view[i].len == frozen[view[i].data]
    {
      view := blocks;
      if count == 0 {
        return;
      }
      shared := seq(|blocks|, _ => true);
      frozen := FrozenWithAll();
    }

    /** The blocks with room for one more element in the last one, which is a new array if `moved`. */
    method Room() returns (bs: seq<Slice<T>>, last: nat, moved: bool)
      requires Valid()
      ensures HasRoom(bs, last, blocks, count)
      ensures if moved then fresh(bs[last].data) else last < |blocks| && bs[last] == blocks[last]
      ensures last < |blocks| ==> bs[last].data[..bs[last].len] == blocks[last].data[..bs[last].len]
    {
      NextPosition(count);
      bs, moved := blocks, false;
      if |bs| == 0 {
        var first := new T[1];
        bs, moved := [Slice(first, 0)], true;
      }
      last := |bs| - 1;
      var block := bs[last];
      if block.len == BLOCK {
        var next := new T[BLOCK];
        bs, moved := bs + [Slice(next, 0)], true;
        last := last + 1;
      } else if block.len == block.data.Length {
        var grown := new T[Min(BLOCK, Max(1, block.data.Length * 2))];
        forall k | 0 <= k < block.len {
          grown[k] := block.data[k];
        }
        bs, moved := bs[last := Slice(grown, block.len)], true;
      }
    }

    /** Writes behind the last element, where neither the list nor a snapshot looks. */
    method WriteSpare(bs: seq<Slice<T>>, last: nat, r: T)
      requires Valid() && HasRoom(bs, last, blocks, count)
      requires bs[last].data in frozen ==> last < |blocks| && bs[last] == blocks[last]
      modifies bs[last].data
      ensures Contents() == old(Contents()) && SnapshotsKept()
      ensures bs[last].data[..bs[last].len + 1] == old(bs[last].data[..bs[last].len]) + [r]
    {
      NextPosition(count);
      bs[last].data[bs[last].len] := r;
      forall j | 0 <= j < count ensures Contents()[j] == old(Contents())[j] {
        Position(count, j);
        assert j / BLOCK < last ==> bs[j / BLOCK] == blocks[j / BLOCK];
      }
    }

    method Extend(bs: seq<Slice<T>>, last: nat, moved: bool, r: T)
      requires Valid() && HasRoom(bs, last, blocks, count)
      requires bs[last].data[bs[last].len] == r
      requires last < |blocks| ==> bs[last].data[..bs[last].len] == blocks[last].data[..bs[last].len]
      requires if moved then bs[last].data !in frozen else last < |blocks| && bs[last] == blocks[last]
      modifies this`blocks, this`count, this`shared
      ensures Valid() && Contents() == old(Contents()) + [r]
      ensures blocks == bs[last := Slice(bs[last].data, bs[last].len + 1)]
    {
      ExtendedElements(bs, last, blocks, count);
      NextPosition(count);
      if moved && last < |shared| {
        shared := shared[last := false];
      }
      blocks := bs[last := Slice(bs[last].data, bs[last].len + 1)];
      count := count + 1;
    }

    method Append(r: T)
      requires Valid()
      modifies Repr()
      ensures Valid() && Contents() == old(Contents()) + [r] && fresh(Repr() - old(Repr()))
      ensures SnapshotsKept() && frozen == old(frozen)
    {
      hide Elements;
      ghost var before := blocks;
      var bs, last, moved := Room();
      if !moved { assert bs[last] in blocks; }
      WriteSpare(bs, last, r);
      Extend(bs, last, moved, r);
      ArraysOf(before, last);
    }

    method ClearTail(data: array<T>, from: nat, to: nat)
      requires from <= to <= data.Length
      modifies data
      ensures data[..from] == old(data[..from])
    {
      forall k | from <= k < to {
        data[k] := zero;
      }
    }

    /** Overwrites the elements from `n` on in the last block that stays. */
    method ClearBehind(n: nat)
      requires Valid() && 0 < n <= count && blocks[BlockCount(n) - 1].data !in frozen
      modifies blocks[BlockCount(n) - 1].data
      ensures Contents()[..n] == old(Contents())[..n]
    {
      var m := BlockCount(n);
      var last, end := blocks[m - 1], n - (m - 1) * BLOCK;
      ClearTail(last.data, end, last.len);
      forall j | 0 <= j < n ensures Contents()[j] == old(Contents())[j] {
        Position(count, j);
        Position(n, j);
        if j / BLOCK == m - 1 {
          assert last.data[..end][j % BLOCK] == old(last.data[..end])[j % BLOCK];
        }
      }
    }

    method CutTo(n: nat)
      requires Valid() && 0 < n <= count
      requires blocks[BlockCount(n) - 1].data !in frozen
      modifies this`blocks, this`shared, this`count
      ensures Valid() && Contents() == old(Contents())[..n] && Arrays() <= old(Arrays())
    {
      var m := BlockCount(n);
      var last := Slice(blocks[m - 1].data, n - (m - 1) * BLOCK);
      ghost var before := blocks;
      TruncatedElements(blocks, count, blocks[..m][m - 1 := last], n);
      blocks := blocks[..m][m - 1 := last];
      if |shared| > m {
        shared := shared[..m];
      }
      count := n;
      ArraysOf(before, m - 1);
      assert before[m - 1] in before;
    }

    /** Keeps the first `n` elements. Whole blocks behind them are let go untouched. */
    method Truncate(n: nat)
      requires Valid() && n <= count
      modifies Repr()
      ensures Valid() && Contents() == old(Contents())[..n] && fresh(Repr() - old(Repr()))
      ensures SnapshotsKept() && frozen == old(frozen) && count == n
    {
      if n == 0 {
        blocks, shared, count := [], [], 0;
        return;
      }
      WritableBlock(BlockCount(n) - 1);
      assert blocks[BlockCount(n) - 1] in blocks;
      ClearBehind(n);
      CutTo(n);
    }

    method Remove(i: nat)
      requires Valid() && i < count
      modifies Repr()
      ensures Valid() && Contents() == old(Contents())[..i] + old(Contents())[i + 1..] && fresh(Repr() - old(Repr()))
      ensures SnapshotsKept() && frozen == old(frozen)
    {
      hide Shape, Guarded, Elements, Shifted;
      ghost var s := Contents();
      ShiftedAll(s, i);
      var next := i + 1;
      while next < count
        invariant i < next <= count == |s| && Valid() && frozen == old(frozen) && SnapshotsKept()
        invariant Contents() == Shifted(s, i, next - 1)
        invariant fresh(Repr() - old(Repr()))
      {
        var r := At(next);
        ShiftMore(s, i, next - 1);
        Set(next - 1, r);
        next := next + 1;
      }
      Truncate(count - 1);
    }

    /** What the expiry scan still has to read of the block it is in: the array it started on, which a
        write to the list may meanwhile have replaced. */
    ghost predicate StillReads(block: Slice<T>, index: nat, from: nat, s: seq<T>)
      requires Shape(blocks, count)
      reads this, Arrays(), block.data
    {
      && index < |blocks| && count == |s| && block.len <= block.data.Length && block.len == blocks[index].len
      && (block == blocks[index] || block.data !in Arrays())
      && (forall k | from <= k < block.len :: index * BLOCK + k < |s| && block.data[k] == s[index * BLOCK + k])
    }

    lemma InBlock(index: nat, j: nat)
      requires Valid() && index < |blocks| && j < blocks[index].len
      ensures index * BLOCK + j < count && j < blocks[index].data.Length
      ensures Contents()[index * BLOCK + j] == blocks[index].data[j]
    {
    }

    /** Writing a record at a position before the one just read leaves what is still to be read alone. */
    method Keep(kept: nat, ghost block: Slice<T>, ghost index: nat, ghost k: nat, ghost s: seq<T>, r: T)
      requires Valid() && StillReads(block, index, k, s) && k < block.len && kept < index * BLOCK + k < count
      requires forall j | index * BLOCK + k <= j < count :: Contents()[j] == s[j]
      modifies Repr()
      ensures Valid() && Contents() == old(Contents())[kept := r] && fresh(Repr() - old(Repr()))
      ensures SnapshotsKept() && frozen == old(frozen) && count == old(count)
      ensures StillReads(block, index, k + 1, s)
    {
      hide Elements, Guarded;
      Set(kept, r);
      if block.data == blocks[kept / BLOCK].data {
        forall j | k + 1 <= j < block.len ensures block.data[j] == s[index * BLOCK + j] {
          InBlock(index, j);
        }
      } else {
        assert block.data[..] == old(block.data[..]);
        forall j | k + 1 <= j < block.len ensures block.data[j] == s[index * BLOCK + j] {
          assert block.data[..][j] == old(block.data[..])[j];
        }
      }
    }

    method RetainOne(kept: nat, block: Slice<T>, ghost index: nat, k: nat, ghost s: seq<T>, position: nat)
      requires Valid() && StillReads(block, index, k, s) && k < block.len && position == index * BLOCK + k < count == |s|
      requires kept <= position && forall j | position <= j < count :: Contents()[j] == s[j]
      modifies Repr()
      ensures Valid() && fresh(Repr() - old(Repr())) && SnapshotsKept() && frozen == old(frozen) && count == old(count)
      ensures StillReads(block, index, k + 1, s)
      ensures Contents() == old(Contents())[kept := s[position]]
    {
      hide Elements, Shape, Guarded, StillReads;
      ReadOn(block, index, k, s, position);
      if kept != position {
        Keep(kept, block, index, k, s, block.data[k]);
      }
    }

    /** A record that stays where it is. */
    lemma ReadOn(block: Slice<T>, index: nat, k: nat, s: seq<T>, position: nat)
      requires Valid() && StillReads(block, index, k, s) && k < block.len && position == index * BLOCK + k < count == |s|
      ensures StillReads(block, index, k + 1, s) && k < block.data.Length && block.data[k] == s[position]
    {
      hide Elements, Guarded;
    }

    /** The scan has dealt with the first `n` records. */
    ghost predicate ScannedTo(n: nat, kept: nat, expired: seq<T>, s: seq<T>, keep: T -> bool)
      requires Shape(blocks, count)
      reads this, Arrays()
    {
      && n <= |s| == count
      && Contents() == Compacted(s, keep, n) && kept == KeptCount(s, keep, n) && expired == RejectedBefore(s, keep, n)
    }

    method RetainNext(kept0: nat, expired0: seq<T>, block: Slice<T>, index: nat, k: nat, ghost s: seq<T>, keep: T -> bool)
        returns (kept: nat, expired: seq<T>)
      requires Valid() && StillReads(block, index, k, s) && k < block.len && index * BLOCK + k < count
      requires ScannedTo(index * BLOCK + k, kept0, expired0, s, keep)
      modifies Repr()
      ensures Valid() && fresh(Repr() - old(Repr())) && SnapshotsKept() && frozen == old(frozen) && count == old(count)
      ensures StillReads(block, index, k + 1, s)
      ensures ScannedTo(index * BLOCK + k + 1, kept, expired, s, keep)
    {
      hide Elements, Shape, Guarded, StillReads, Compacted, KeptCount, RejectedBefore;
      CompactOne(s, keep, index * BLOCK + k);
      CompactedTail(s, keep, index * BLOCK + k);
      ReadOn(block, index, k, s, index * BLOCK + k);
      KeptBound(s, keep, index * BLOCK + k);
      kept, expired := kept0, expired0;
      if keep(block.data[k]) {
        RetainOne(kept, block, index, k, s, index * BLOCK + k);
        kept := kept + 1;
      } else {
        expired := expired + [block.data[k]];
      }
    }

    lemma StartsReading(index: nat, kept: nat, expired: seq<T>, s: seq<T>, keep: T -> bool)
      requires Valid() && index < |blocks| && ScannedTo(index * BLOCK, kept, expired, s, keep)
      ensures StillReads(blocks[index], index, 0, s)
      ensures index * BLOCK + blocks[index].len == Min((index + 1) * BLOCK, count)
    {
      CompactedTail(s, keep, index * BLOCK);
      assert blocks[index] in blocks;
      forall k | 0 <= k < blocks[index].len
        ensures index * BLOCK + k < |s| && blocks[index].data[k] == s[index * BLOCK + k]
      {
        assert (index * BLOCK + k) / BLOCK == index && (index * BLOCK + k) % BLOCK == k;
        assert Contents()[index * BLOCK + k] == blocks[index].data[k];
      }
    }

    method RetainBlock(kept0: nat, expired0: seq<T>, index: nat, ghost s: seq<T>, keep: T -> bool)
        returns (kept: nat, expired: seq<T>)
      requires Valid() && index < |blocks| && ScannedTo(index * BLOCK, kept0, expired0, s, keep)
      modifies Repr()
      ensures Valid() && fresh(Repr() - old(Repr())) && SnapshotsKept() && frozen == old(frozen) && count == old(count)
      ensures ScannedTo(Min((index + 1) * BLOCK, count), kept, expired, s, keep)
    {
      hide Shape, Guarded, Elements, Compacted, KeptCount, RejectedBefore, StillReads, ScannedTo;
      kept, expired := kept0, expired0;
      var block := blocks[index];
      StartsReading(index, kept, expired, s, keep);
      var k := 0;
      while k < block.len
        invariant k <= block.len && Valid() && frozen == old(frozen) && SnapshotsKept() && count == old(count)
        invariant index * BLOCK + block.len == Min((index + 1) * BLOCK, count)
        invariant fresh(Repr() - old(Repr())) && StillReads(block, index, k, s)
        invariant ScannedTo(index * BLOCK + k, kept, expired, s, keep)
      {
        kept, expired := RetainNext(kept, expired, block, index, k, s, keep);
        k := k + 1;
      }
    }

    /** Stores every element again, as re-interning its strings does. */
    method Rewrite()
      requires Valid()
      modifies Repr()
      ensures Valid() && Contents() == old(Contents()) && fresh(Repr() - old(Repr()))
      ensures SnapshotsKept() && frozen == old(frozen)
    {
      var i := 0;
      while i < count
        invariant i <= count && Valid() && Contents() == old(Contents()) && fresh(Repr() - old(Repr()))
        invariant SnapshotsKept() && frozen == old(frozen)
      {
        var r := At(i);
        Set(i, r);
        i := i + 1;
      }
    }

    lemma NoneScanned(s: seq<T>, keep: T -> bool)
      requires Valid() && s == Contents()
      ensures ScannedTo(0, 0, [], s, keep)
    {
      CompactedNone(s, keep);
    }

    method RetainAll(ghost s: seq<T>, keep: T -> bool) returns (kept: nat, expired: seq<T>)
      requires Valid() && s == Contents()
      modifies Repr()
      ensures Valid() && fresh(Repr() - old(Repr())) && SnapshotsKept() && frozen == old(frozen) && count == old(count)
      ensures ScannedTo(count, kept, expired, s, keep)
    {
      hide Guarded, Elements, Compacted, KeptCount, RejectedBefore, ScannedTo;
      NoneScanned(s, keep);
      kept, expired := 0, [];
      var index := 0;
      while index < |blocks|
        invariant index <= |blocks| && Valid() && count == old(count) && frozen == old(frozen) && SnapshotsKept()
        invariant fresh(Repr() - old(Repr())) && ScannedTo(Min(index * BLOCK, count), kept, expired, s, keep)
      {
        kept, expired := RetainBlock(kept, expired, index, s, keep);
        index := index + 1;
      }
    }

    /** Removes, in place, the elements that `keep` rejects, and returns those. The scan walks the
        blocks as they are when it reaches them. */
    method Retain(keep: T -> bool) returns (expired: seq<T>)
      requires Valid()
      modifies Repr()
      ensures Valid() && Contents() == Filter(old(Contents()), keep) && fresh(Repr() - old(Repr()))
      ensures expired == Rejected(old(Contents()), keep)
      ensures SnapshotsKept() && frozen == old(frozen)
    {
      hide Elements, Compacted, KeptCount, RejectedBefore;
      ghost var s := Contents();
      var kept;
      kept, expired := RetainAll(s, keep);
      CompactedAll(s, keep);
      if kept != count {
        Truncate(kept);
        Rewrite();
      }
    }
  }
}
