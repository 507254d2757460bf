/** A bounded cache of block aggregates. An entry stays right whatever happens to the history, because
    it is about the records its identity was made for; the history drops the identity instead. */
module RangeCache {
  import opened RangeBlocks
  import opened RangeSummary

  const CACHE_BYTES := 0x80_0000
  const CACHE_ENTRIES := 4096

  datatype Key = Key(block: Identity<Usage>, client: string)

  datatype Entry = Entry(data: Accumulator, bytes: nat)

  type Entries = map<Key, Entry>

  // ----- the bytes of all entries -----

  ghost function TotalBytes(m: Entries): nat
    decreases |m|
  {
    if m == map[] then 0
    else
      var k :| k in m;
      m[k].bytes + TotalBytes(m - {k})
  }

  lemma {:induction false} TotalWithout(m: Entries, k: Key)
    requires k in m
    ensures TotalBytes(m) == m[k].bytes + TotalBytes(m - {k})
    decreases |m|
  {
    var c :| c in m && TotalBytes(m) == m[c].bytes + TotalBytes(m - {c});
    if c != k {
      TotalWithout(m - {c}, k);
      TotalWithout(m - {k}, c);
      assert m - {c} - {k} == m - {k} - {c};
    }
  }

  lemma OneFewer(m: Entries, k: Key)
    requires k in m
    ensures |m - {k}| == |m| - 1
  {
    assert (m - {k}).Keys == m.Keys - {k};
  }

  lemma TotalWith(m: Entries, k: Key, e: Entry)
    requires k !in m
    ensures TotalBytes(m[k := e]) == TotalBytes(m) + e.bytes
  {
    TotalWithout(m[k := e], k);
    assert m[k := e] - {k} == m;
  }

  class RangeAggregateCache {
    var entries: Entries
    var bytes: nat
    var priceVersion: int
    var hits: nat
    var misses: nat
    var evictions: nat
    var sweeps: nat
    var swept: bool
    const parse: string -> Selector
    const sizeOf: Summary -> nat

    ghost function Aggregates(): set<Accumulator>
      reads `entries
    {
      set k | k in entries :: entries[k].data
    }

    /** The entry is the aggregate of all records its identity stands for, for its client. */
    ghost predicate Right(k: Key, data: Accumulator)
      reads data
    {
      data.Value() == Scan(EMPTY, k.block.owner.api, k.block.owner.model, k.block.records, 0, parse(k.client))
    }

    /** Cached bytes are exactly those of the entries, and within the budget. */
    ghost predicate WithinBudget()
      reads `bytes, `entries
    {
      && bytes == TotalBytes(entries) <= CACHE_BYTES && |entries| <= CACHE_ENTRIES
      && forall k | k in entries :: entries[k].bytes <= CACHE_BYTES / 4
    }

    ghost predicate Valid()
      reads `bytes, `entries, Aggregates()
    {
      WithinBudget() && forall k | k in entries :: Right(k, entries[k].data)
    }

    constructor (parse: string -> Selector, sizeOf: Summary -> nat)
      ensures Valid() && entries == map[] && this.parse == parse && this.sizeOf == sizeOf
    {
      entries, bytes, priceVersion, hits, misses, evictions, sweeps, swept := map[], 0, 0, 0, 0, 0, 0, false;
      this.parse, this.sizeOf := parse, sizeOf;
    }

    method Clear()
      modifies this
      ensures entries == map[] && bytes == 0 && !swept && WithinBudget()
    {
      evictions := evictions + |entries|;
      entries, bytes, swept := map[], 0, false;
    }

    /** A query starts: what was invalidated since the last one may be swept again. */
    method Start(version: int)
      requires Valid()
      modifies this
      ensures Valid() && Aggregates() <= old(Aggregates())
    {
      swept := false;
      if priceVersion != version {
        Clear();
        priceVersion := version;
      }
    }

    method Evict(k: Key)
      requires Valid() && k in entries
      modifies this`entries, this`bytes, this`evictions
      ensures Valid() && entries == old(entries) - {k} && bytes <= old(bytes) && |entries| <= |old(entries)|
    {
      hide RangeAggregateCache.Right, TotalBytes;
      TotalWithout(entries, k);
      OneFewer(entries, k);
      bytes := bytes - entries[k].bytes;
      entries := entries - {k};
      evictions := evictions + 1;
    }

    method SweepInvalid()
      requires Valid()
      modifies this
      ensures Valid() && swept && bytes <= old(bytes) && |entries| <= |old(entries)|
      ensures entries == map k | k in old(entries) && k.block.valid :: old(entries)[k]
    {
      hide RangeAggregateCache.Right, RangeAggregateCache.WithinBudget;
      ghost var before := entries;
      sweeps := sweeps + 1;
      swept := true;
      var rest := entries.Keys;
      while rest != {}
        invariant rest <= before.Keys && Valid() && swept && bytes <= old(bytes) && |entries| <= |before|
        invariant forall k :: k in entries <==> k in before && (k in rest || k.block.valid)
        invariant forall k | k in entries :: entries[k] == before[k]
        decreases rest
      {
        var k :| k in rest;
        if !k.block.valid {
          Evict(k);
        }
        rest := rest - {k};
      }
    }

    /** Whether one more entry fits, after a sweep if there was none in this query. Nothing that may
        still be used is evicted for it. */
    method CanRetain(size: nat) returns (fits: bool)
      requires Valid()
      modifies this
      ensures Valid() && forall k | k in entries :: k in old(entries) && entries[k] == old(entries)[k]
      ensures forall k | k in old(entries) && k.block.valid :: k in entries
      ensures fits <==> size <= CACHE_BYTES / 4 && bytes + size <= CACHE_BYTES && |entries| < CACHE_ENTRIES
    {
      if size > CACHE_BYTES / 4 {
        return false;
      }
      if !swept && (bytes + size > CACHE_BYTES || |entries| >= CACHE_ENTRIES) {
        SweepInvalid();
      }
      if bytes + size > CACHE_BYTES || |entries| >= CACHE_ENTRIES {
        return false;
      }
      return true;
    }

    method Retain(key: Key, data: Accumulator, estimated: nat) returns (kept: bool)
      requires Valid() && Right(key, data)
      modifies this
      ensures Valid() && Aggregates() <= old(Aggregates()) + {data}
      ensures kept <==> key in entries
    {
      hide RangeAggregateCache.Right, TotalBytes;
      if key in entries {
        return true;
      }
      var size := estimated + |key.client| + 128;
      kept := CanRetain(size);
      if kept {
        TotalWith(entries, key, Entry(data, size));
        entries := entries[key := Entry(data, size)];
        bytes := bytes + size;
      }
    }
  }
}
