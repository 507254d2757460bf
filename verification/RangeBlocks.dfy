/** Descriptors of the 2048-record blocks of a record list, and the identities under which aggregates
    of those blocks are cached. Times are nanoseconds; the zero time is 0. */
module RangeBlocks {

  const BLOCK_RECORDS := 2048
  const MIN_RECORDS := 128

  datatype Record<D> = Record(time: int, data: D)

  /** What expiry keeps: records without a time, and those not before the cutoff. */
  predicate Survives<D>(r: Record<D>, cutoff: int) {
    cutoff == 0 || r.time == 0 || r.time >= cutoff
  }

  function Survivor<D>(cutoff: int): Record<D> -> bool {
    r => Survives(r, cutoff)
  }

  /** Expiry takes just the records that have a time before the cutoff. */
  lemma ExpiresIff<D>(r: Record<D>, cutoff: int)
    requires cutoff != 0
    ensures !Survivor(cutoff)(r) <==> r.time != 0 && r.time < cutoff
    ensures Survivor(0)(r)
  {
  }

  /** The API and model whose records a block holds. */
  datatype Owner = Owner(api: string, model: string)

  /** A cache identity. It never points at records; what it stands for is known to the proof only. */
  class Identity<D> {
    var valid: bool
    ghost const owner: Owner
    ghost const records: seq<Record<D>>

    constructor (ghost owner: Owner, ghost records: seq<Record<D>>)
      ensures valid && this.owner == owner && this.records == records
    {
      valid := true;
      this.owner, this.records := owner, records;
    }
  }

  datatype RangeBlock<D> = NoBlock | RangeBlock(identity: Identity<D>, from: nat, end: nat, minimum: int, maximum: int,
                                               allNonZero: bool, summaryBytes: int)

  // ----- the bounds of a block -----

  ghost predicate Bounds<D>(s: seq<Record<D>>, minimum: int, maximum: int, allNonZero: bool) {
    && (forall i | 0 <= i < |s| :: minimum <= s[i].time <= maximum)
    && (s != [] ==> (exists i :: 0 <= i < |s| && s[i].time == minimum) && (exists i :: 0 <= i < |s| && s[i].time == maximum))
    && (allNonZero <==> forall i | 0 <= i < |s| :: s[i].time != 0)
  }

  method ScanBounds<D>(s: seq<Record<D>>) returns (minimum: int, maximum: int, allNonZero: bool)
    ensures Bounds(s, minimum, maximum, allNonZero)
  {
    minimum, maximum, allNonZero := 0, 0, true;
    var i := 0;
    while i < |s|
      invariant 0 <= i <= |s| && Bounds(s[..i], minimum, maximum, allNonZero)
    {
      ghost var low, high := minimum, maximum;
      if s[i].time == 0 {
        allNonZero := false;
      }
      if i == 0 || s[i].time < minimum {
        minimum := s[i].time;
      }
      if i == 0 || s[i].time > maximum {
        maximum := s[i].time;
      }
      assert s[..i + 1] == s[..i] + [s[i]];
      assert s[..i + 1][i] == s[i];
      if i > 0 {
        ghost var a :| 0 <= a < i && s[..i][a].time == low;
        ghost var b :| 0 <= b < i && s[..i][b].time == high;
        assert s[..i + 1][a].time == low && s[..i + 1][b].time == high;
      }
      i := i + 1;
    }
    assert s[..i] == s;
  }

  // ----- the descriptors of one record list -----

  /** Position `p` of the storage holds `s[p - start]`. */
  ghost predicate Accurate<D>(b: RangeBlock<D>, index: nat, start: nat, s: seq<Record<D>>)
    reads if b.RangeBlock? then {b.identity} else {}
  {
    b.RangeBlock? && b.identity.valid && b.from >= start ==>
      && b.from / BLOCK_RECORDS == index && b.from < b.end <= start + |s| && b.end <= (index + 1) * BLOCK_RECORDS
      && b.identity.records == s[b.from - start..b.end - start]
      && Bounds(b.identity.records, b.minimum, b.maximum, b.allNonZero)
  }

  /** The two lists hold the same records at all positions below `limit`. */
  ghost predicate AgreeBelow<D>(limit: int, start: nat, s: seq<Record<D>>, t: seq<Record<D>>) {
    forall i | 0 <= i < |s| && start + i < limit :: i < |t| && t[i] == s[i]
  }

  ghost predicate AgreeOutside<D>(group: nat, start: nat, s: seq<Record<D>>, t: seq<Record<D>>) {
    forall i | 0 <= i < |s| && (start + i) / BLOCK_RECORDS != group :: i < |t| && t[i] == s[i]
  }

  lemma SliceAgrees<D>(s: seq<Record<D>>, t: seq<Record<D>>, from: nat, end: nat)
    requires from <= end <= |s| && end <= |t| && forall i | from <= i < end :: s[i] == t[i]
    ensures s[from..end] == t[from..end]
  {
  }

  lemma StaysAccurateBelow<D>(b: RangeBlock<D>, index: nat, limit: int, start: nat, s: seq<Record<D>>, t: seq<Record<D>>)
    requires Accurate(b, index, start, s) && AgreeBelow(limit, start, s, t) && (index + 1) * BLOCK_RECORDS <= limit
    ensures Accurate(b, index, start, t)
  {
    if b.RangeBlock? && b.identity.valid && b.from >= start {
      var last := s[b.end - 1 - start];
      assert last == t[b.end - 1 - start];
      SliceAgrees(s, t, b.from - start, b.end - start);
    }
  }

  lemma StaysAccurateOutside<D>(b: RangeBlock<D>, index: nat, group: nat, start: nat, s: seq<Record<D>>, t: seq<Record<D>>)
    requires Accurate(b, index, start, s) && AgreeOutside(group, start, s, t) && index != group
    ensures Accurate(b, index, start, t)
  {
    if b.RangeBlock? && b.identity.valid && b.from >= start {
      forall i | b.from - start <= i < b.end - start ensures i < |t| && s[i] == t[i] {
        var r := s[i];
        assert (start + i) / BLOCK_RECORDS == index && r == t[i];
      }
      var last := s[b.end - 1 - start];
      assert last == t[b.end - 1 - start];
      SliceAgrees(s, t, b.from - start, b.end - start);
    }
  }

  class RangeBlocks<D> {
    ghost const owner: Owner
    var blocks: seq<RangeBlock<D>>

    constructor (ghost owner: Owner)
      ensures blocks == [] && this.owner == owner
    {
      this.owner := owner;
      blocks := [];
    }

    ghost function Identities(): set<Identity<D>>
      reads this
    {
      set b | b in blocks && b.RangeBlock? :: b.identity
    }

    /** Every descriptor with a valid identity is about the records now at its positions. Descriptors
        that begin before the window say nothing. */
    ghost predicate Describes(start: nat, s: seq<Record<D>>)
      reads this, Identities()
    {
      && (forall i | 0 <= i < |blocks| :: Accurate(blocks[i], i, start, s))
      && (forall i | 0 <= i < |blocks| && blocks[i].RangeBlock? :: blocks[i].identity.owner == owner)
    }

    method Invalidate(group: nat, ghost start: nat, ghost s: seq<Record<D>>, ghost t: seq<Record<D>>)
      requires Describes(start, s) && AgreeOutside(group, start, s, t)
      modifies this, Identities()
      ensures Describes(start, t) && |blocks| == |old(blocks)| && Identities() <= old(Identities())
      ensures group < |blocks| ==> blocks[group] == NoBlock
    {
      if group < |blocks| {
        if blocks[group].RangeBlock? {
          assert blocks[group] in blocks;
          blocks[group].identity.valid := false;
        }
        forall i | 0 <= i < |blocks| && i != group ensures Accurate(blocks[i], i, start, t) {
          assert old(Accurate(blocks[i], i, start, s));
          assert Accurate(blocks[i], i, start, s);
          StaysAccurateOutside(blocks[i], i, group, start, s, t);
        }
        blocks := blocks[group := NoBlock];
      } else {
        forall i | 0 <= i < |blocks| ensures Accurate(blocks[i], i, start, t) {
          StaysAccurateOutside(blocks[i], i, group, start, s, t);
        }
      }
    }

    /** Invalidates the blocks from position `from` on: what is left describes any list that agrees with
        the described one before these blocks. */
    method InvalidateFrom(from: nat, ghost start: nat, ghost s: seq<Record<D>>, ghost t: seq<Record<D>>)
      modifies this, Identities()
      ensures from < BLOCK_RECORDS ==> Describes(start, t)
      ensures old(Describes(start, s)) && AgreeBelow(from / BLOCK_RECORDS * BLOCK_RECORDS, start, s, t) ==> Describes(start, t)
      ensures |blocks| == |old(blocks)| && Identities() <= old(Identities())
      ensures forall i | from / BLOCK_RECORDS <= i < |blocks| :: blocks[i] == NoBlock
    {
      var first := from / BLOCK_RECORDS;
      ghost var before := blocks;
      var i := first;
      while i < |blocks|
        invariant first <= i && |blocks| == |before|
        invariant forall j | 0 <= j < |blocks| :: if first <= j < i then blocks[j] == NoBlock else blocks[j] == before[j]
        invariant Identities() <= old(Identities())
        invariant forall id | id in old(Identities()) :: id.valid ==> old(id.valid)
      {
        if blocks[i].RangeBlock? {
          assert blocks[i] in blocks;
          blocks[i].identity.valid := false;
        }
        blocks := blocks[i := NoBlock];
        i := i + 1;
      }
      if old(Describes(start, s)) && AgreeBelow(first * BLOCK_RECORDS, start, s, t) {
        forall j | 0 <= j < |blocks| ensures Accurate(blocks[j], j, start, t) {
          if j < first {
            assert blocks[j] == before[j] && old(Accurate(before[j], j, start, s));
            if blocks[j].RangeBlock? { assert blocks[j] in before; }
            assert Accurate(blocks[j], j, start, s);
            StaysAccurateBelow(blocks[j], j, first * BLOCK_RECORDS, start, s, t);
          }
        }
      }
    }

    method Clear()
      modifies this
      ensures blocks == []
    {
      blocks := [];
    }

    method Shrink(groups: nat)
      modifies this
      ensures blocks == if groups < |old(blocks)| then old(blocks)[..groups] else old(blocks)
    {
      if groups < |blocks| {
        blocks := blocks[..groups];
      }
    }

    method Grow(index: nat, ghost start: nat, ghost s: seq<Record<D>>)
      requires Describes(start, s)
      modifies this
      ensures Describes(start, s) && index < |blocks| && Identities() == old(Identities())
    {
      if index >= |blocks| {
        ghost var before := blocks;
        blocks := blocks + seq(index - |blocks| + 1, _ => NoBlock);
        forall i | 0 <= i < |blocks| ensures Accurate(blocks[i], i, start, s) {
          if i < |before| {
            assert blocks[i] == before[i];
          }
        }
        forall b | b in blocks && b.RangeBlock? ensures b in before {
        }
      }
    }

    /** The descriptor of the records from `from` to `end`: the one at hand if it is still valid, or a
        new one under a new identity. */
    method Prepare(index: nat, from: nat, end: nat, start: nat, s: seq<Record<D>>)
      requires Describes(start, s) && start <= from < end <= start + |s|
      requires from / BLOCK_RECORDS == index && end <= (index + 1) * BLOCK_RECORDS
      modifies this, Identities()
      ensures Describes(start, s) && index < |blocks|
      ensures blocks[index].RangeBlock? && blocks[index].identity.valid && blocks[index].from == from && blocks[index].end == end
      ensures fresh(Identities() - old(Identities()))
    {
      Grow(index, start, s);
      var b := blocks[index];
      if b.RangeBlock? && b.identity.valid && b.from == from && b.end == end {
        return;
      }
      Invalidate(index, start, s, s);
      Describe(index, from, end, start, s);
    }

    method Describe(index: nat, from: nat, end: nat, start: nat, s: seq<Record<D>>)
      requires Describes(start, s) && start <= from < end <= start + |s| && index < |blocks|
      requires from / BLOCK_RECORDS == index && end <= (index + 1) * BLOCK_RECORDS
      modifies this
      ensures Describes(start, s) && index < |blocks|
      ensures blocks[index].RangeBlock? && blocks[index].identity.valid && blocks[index].from == from && blocks[index].end == end
      ensures fresh(Identities() - old(Identities()))
    {
      var records := s[from - start..end - start];
      var minimum, maximum, allNonZero := ScanBounds(records);
      var identity := new Identity<D>(owner, records);
      ghost var before := blocks;
      blocks := blocks[index := RangeBlock(identity, from, end, minimum, maximum, allNonZero, 0)];
      forall i | 0 <= i < |blocks| && i != index ensures Accurate(blocks[i], i, start, s) {
        assert blocks[i] == before[i];
      }
      forall id | id in Identities() ensures id == identity || id in old(Identities()) {
        var b :| b in blocks && b.RangeBlock? && b.identity == id;
        assert b == blocks[index] || b in before;
      }
    }
  }
}
