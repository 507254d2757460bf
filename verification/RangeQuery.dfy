/** Range summaries over the history of a model, block by block: from the cache where a whole block lies
    in the range, by scanning otherwise. */
module RangeQuery {
  import opened BlockList
  import opened RangeBlocks
  import opened RangeSummary
  import opened RangeCache
  import opened AccountingBlocks
  import opened SlidingWindow
  import opened DetailWindow
  import opened ModelHistory
  import opened Histories

  const MAX_CLIENT := 4096

  // ----- one block -----

  /** A complete block contributes the same with or without the cutoff; an older one nothing. */
  lemma BlockInRange(s: seq<Record<Usage>>, minimum: int, maximum: int, allNonZero: bool, cutoff: int, api: string,
                     model: string, a: Summary, who: Selector)
    requires Bounds(s, minimum, maximum, allNonZero)
    ensures cutoff != 0 && maximum < cutoff ==> Scan(a, api, model, s, cutoff, who) == a
    ensures cutoff == 0 || (allNonZero && minimum >= cutoff) ==>
      Scan(a, api, model, s, cutoff, who) == Scan(a, api, model, s, 0, who)
  {
    hide Scan;
    if cutoff != 0 && maximum < cutoff {
      ScanNone(a, api, model, s, cutoff, who);
    }
    if cutoff == 0 || (allNonZero && minimum >= cutoff) {
      ScanAll(a, api, model, s, cutoff, who);
    }
  }

  lemma BlockFacts<D>(ranges: RangeBlocks<D>, index: nat, start: nat, s: seq<Record<D>>)
    requires ranges.Describes(start, s) && index < |ranges.blocks|
    requires var b := ranges.blocks[index]; b.RangeBlock? && b.identity.valid && b.from >= start
    ensures var b := ranges.blocks[index];
            && start <= b.from < b.end <= start + |s| && b.identity.records == s[b.from - start..b.end - start]
            && b.identity.owner == ranges.owner && Bounds(b.identity.records, b.minimum, b.maximum, b.allNonZero)
  {
    assert Accurate(ranges.blocks[index], index, start, s);
  }

  /** Merges the cached aggregate, if there is one. */
  method MergeCached(result: Accumulator, cache: RangeAggregateCache, key: Key) returns (hit: bool)
    requires cache.Valid() && result !in cache.Aggregates()
    modifies result, cache`hits, cache`misses
    ensures cache.Valid() && cache.entries == old(cache.entries)
    ensures hit <==> key in cache.entries
    ensures result.Value() == if hit then ScanBlock(old(result.Value()), key, cache.parse(key.client)) else old(result.Value())
  {
    hide Scan, MergeSummaries, Accumulator.Value, TotalBytes;
    hit := key in cache.entries;
    if hit {
      cache.hits := cache.hits + 1;
      var data := cache.entries[key].data;
      assert data in cache.Aggregates() && cache.Right(key, data);
      MergeScan(result.Value(), key.block.owner.api, key.block.owner.model, key.block.records, 0, cache.parse(key.client));
      result.Merge(data);
    } else {
      cache.misses := cache.misses + 1;
    }
  }

  /** What a scan of all records behind an identity adds. */
  ghost function ScanBlock(a: Summary, key: Key, who: Selector): Summary {
    Scan(a, key.block.owner.api, key.block.owner.model, key.block.records, 0, who)
  }

  /** Scans a whole block, keeps the aggregate if there is room, and merges it. */
  method MergeScanned(result: Accumulator, cache: RangeAggregateCache, key: Key, api: string, model: string,
                      records: seq<Record<Usage>>) returns (estimated: nat)
    requires cache.Valid() && result !in cache.Aggregates()
    requires key.block.owner == Owner(api, model) && key.block.records == records
    modifies result, cache
    ensures cache.Valid() && result !in cache.Aggregates() && fresh(cache.Aggregates() - old(cache.Aggregates()))
    ensures result.Value() == ScanBlock(old(result.Value()), key, cache.parse(key.client))
  {
    hide Scan, MergeSummaries, Accumulator.Value, RangeAggregateCache.WithinBudget;
    var data := new Accumulator();
    data.ScanInto(api, model, records, 0, cache.parse(key.client));
    estimated := cache.sizeOf(data.Value());
    MergeScan(result.Value(), api, model, records, 0, cache.parse(key.client));
    var _ := cache.Retain(key, data, estimated);
    result.Merge(data);
  }

  /** Whether the remembered size of a block's aggregate says that it cannot be kept. */
  method NoRoomFor(cache: RangeAggregateCache, client: string, summaryBytes: int) returns (full: bool)
    requires cache.Valid()
    modifies cache
    ensures cache.Valid() && cache.Aggregates() <= old(cache.Aggregates())
    ensures full ==> client == "" && summaryBytes > 0
  {
    hide RangeAggregateCache.WithinBudget, RangeAggregateCache.Right;
    full := false;
    if client == "" && summaryBytes > 0 {
      var fits := cache.CanRetain(summaryBytes + 128);
      full := !fits;
    }
  }

  method MergeMissing(result: Accumulator, cache: RangeAggregateCache, ranges: RangeBlocks<Usage>, index: nat,
                      start: nat, s: seq<Record<Usage>>, client: string, api: string, model: string,
                      records: seq<Record<Usage>>)
    requires cache.Valid() && result !in cache.Aggregates()
    requires ranges.Describes(start, s) && index < |ranges.blocks| && ranges.blocks[index].RangeBlock?
    requires var id := ranges.blocks[index].identity; id.owner == Owner(api, model) && id.records == records
    modifies result, cache, ranges
    ensures cache.Valid() && result !in cache.Aggregates() && fresh(cache.Aggregates() - old(cache.Aggregates()))
    ensures ranges.Describes(start, s) && ranges.Identities() == old(ranges.Identities())
    ensures result.Value() == ScanBlock(old(result.Value()), Key(old(ranges.blocks[index].identity), client), cache.parse(client))
  {
    hide Scan, Accurate, Accumulator.Value, RangeAggregateCache.WithinBudget, RangeAggregateCache.Right;
    var full := NoRoomFor(cache, client, ranges.blocks[index].summaryBytes);
    if full {
      result.ScanInto(api, model, records, 0, cache.parse(client));
      return;
    }
    MergeAndRemember(result, cache, ranges, index, start, s, client, api, model, records);
  }

  method MergeAndRemember(result: Accumulator, cache: RangeAggregateCache, ranges: RangeBlocks<Usage>, index: nat,
                          start: nat, s: seq<Record<Usage>>, client: string, api: string, model: string,
                          records: seq<Record<Usage>>)
    requires cache.Valid() && result !in cache.Aggregates()
    requires ranges.Describes(start, s) && index < |ranges.blocks| && ranges.blocks[index].RangeBlock?
    requires var id := ranges.blocks[index].identity; id.owner == Owner(api, model) && id.records == records
    modifies result, cache, ranges
    ensures cache.Valid() && result !in cache.Aggregates() && fresh(cache.Aggregates() - old(cache.Aggregates()))
    ensures ranges.Describes(start, s) && ranges.Identities() == old(ranges.Identities())
    ensures result.Value() == ScanBlock(old(result.Value()), Key(old(ranges.blocks[index].identity), client), cache.parse(client))
  {
    hide Scan, Accurate, Accumulator.Value, RangeAggregateCache.WithinBudget, RangeAggregateCache.Right, ScanBlock;
    var estimated := MergeScanned(result, cache, Key(ranges.blocks[index].identity, client), api, model, records);
    if client == "" {
      Remember(ranges, index, start, s, estimated);
    }
  }

  /** The aggregate of a block that is wanted whole, from the cache or scanned and then cached. */
  method MergeWholeBlock(result: Accumulator, cache: RangeAggregateCache, ranges: RangeBlocks<Usage>, index: nat,
                         start: nat, s: seq<Record<Usage>>, client: string, api: string, model: string,
                         records: seq<Record<Usage>>)
    requires cache.Valid() && result !in cache.Aggregates()
    requires ranges.Describes(start, s) && index < |ranges.blocks| && ranges.blocks[index].RangeBlock?
    requires var id := ranges.blocks[index].identity; id.owner == Owner(api, model) && id.records == records
    modifies result, cache, ranges
    ensures cache.Valid() && result !in cache.Aggregates() && fresh(cache.Aggregates() - old(cache.Aggregates()))
    ensures ranges.Describes(start, s) && ranges.Identities() == old(ranges.Identities())
    ensures result.Value() == Scan(old(result.Value()), api, model, records, 0, cache.parse(client))
  {
    hide Scan, Accurate, Accumulator.Value, RangeAggregateCache.WithinBudget, RangeAggregateCache.Right;
    var hit := MergeCached(result, cache, Key(ranges.blocks[index].identity, client));
    if !hit {
      MergeMissing(result, cache, ranges, index, start, s, client, api, model, records);
    }
  }

  /** The cached size estimate is part of the descriptor, and says nothing about records. */
  method Remember<D>(ranges: RangeBlocks<D>, index: nat, start: nat, s: seq<Record<D>>, estimated: nat)
    requires ranges.Describes(start, s) && index < |ranges.blocks| && ranges.blocks[index].RangeBlock?
    modifies ranges
    ensures ranges.Describes(start, s) && ranges.Identities() == old(ranges.Identities())
  {
    ghost var before := ranges.blocks;
    var b := ranges.blocks[index].(summaryBytes := estimated);
    ranges.blocks := ranges.blocks[index := b];
    forall i | 0 <= i < |before| ensures Accurate(ranges.blocks[i], i, start, s) {
      assert Accurate(before[i], i, start, s);
    }
    forall id | id in ranges.Identities() ensures id in old(ranges.Identities()) {
      var c :| c in ranges.blocks && c.RangeBlock? && c.identity == id;
      assert c == b || c in before;
      assert before[index] in before;
    }
    forall id | id in old(ranges.Identities()) ensures id in ranges.Identities() {
      var c :| c in before && c.RangeBlock? && c.identity == id;
      var i :| 0 <= i < |before| && before[i] == c;
      assert ranges.blocks[i] in ranges.blocks;
    }
  }

  /** A described block: nothing of it, all of it, or a scan, as its time bounds tell. */
  method MergeRangeBlock(result: Accumulator, cache: RangeAggregateCache, ranges: RangeBlocks<Usage>, index: nat,
                         start: nat, s: seq<Record<Usage>>, cutoff: int, client: string, api: string, model: string,
                         records: seq<Record<Usage>>)
    requires cache.Valid() && result !in cache.Aggregates()
    requires ranges.Describes(start, s) && index < |ranges.blocks| && ranges.blocks[index].RangeBlock?
    requires var id := ranges.blocks[index].identity; id.owner == Owner(api, model) && id.records == records
    requires var b := ranges.blocks[index]; Bounds(records, b.minimum, b.maximum, b.allNonZero)
    modifies result, cache, ranges
    ensures cache.Valid() && result !in cache.Aggregates() && fresh(cache.Aggregates() - old(cache.Aggregates()))
    ensures ranges.Describes(start, s) && ranges.Identities() == old(ranges.Identities())
    ensures result.Value() == Scan(old(result.Value()), api, model, records, cutoff, cache.parse(client))
  {
    hide Scan, Bounds, Accurate, Accumulator.Value, RangeAggregateCache.WithinBudget, RangeAggregateCache.Right;
    var b := ranges.blocks[index];
    BlockInRange(records, b.minimum, b.maximum, b.allNonZero, cutoff, api, model, result.Value(), cache.parse(client));
    if cutoff != 0 && b.maximum < cutoff {
      return;
    }
    var complete := cutoff == 0 || (b.allNonZero && b.minimum >= cutoff);
    if !complete || |client| > MAX_CLIENT {
      result.ScanInto(api, model, records, cutoff, cache.parse(client));
      return;
    }
    MergeWholeBlock(result, cache, ranges, index, start, s, client, api, model, records);
  }

  /** The records at the positions from `from` to `end`, which lie in one block. */
  method VisitBlock(result: Accumulator, cache: RangeAggregateCache, ranges: RangeBlocks<Usage>, from: nat, end: nat,
                    start: nat, s: seq<Record<Usage>>, cutoff: int, client: string, api: string, model: string)
    requires cache.Valid() && result !in cache.Aggregates()
    requires ranges.Describes(start, s) && ranges.owner == Owner(api, model)
    requires start <= from < end <= start + |s| && end <= (from / BLOCK_RECORDS + 1) * BLOCK_RECORDS
    modifies result, cache, ranges, ranges.Identities()
    ensures cache.Valid() && result !in cache.Aggregates() && fresh(cache.Aggregates() - old(cache.Aggregates()))
    ensures ranges.Describes(start, s) && fresh(ranges.Identities() - old(ranges.Identities()))
    ensures result.Value()
         == Scan(old(result.Value()), api, model, s[from - start..end - start], cutoff, cache.parse(client))
  {
    hide Scan, Bounds, Accurate, Accumulator.Value, RangeAggregateCache.WithinBudget, RangeAggregateCache.Right;
    var records := s[from - start..end - start];
    if end - from >= MIN_RECORDS {
      ranges.Prepare(from / BLOCK_RECORDS, from, end, start, s);
      BlockFacts(ranges, from / BLOCK_RECORDS, start, s);
      MergeRangeBlock(result, cache, ranges, from / BLOCK_RECORDS, start, s, cutoff, client, api, model, records);
    } else {
      result.ScanInto(api, model, records, cutoff, cache.parse(client));
    }
  }

  /** All records of a list, block by block: the same sums as one plain scan. */
  method VisitBlocks(result: Accumulator, cache: RangeAggregateCache, ranges: RangeBlocks<Usage>, start: nat,
                     s: seq<Record<Usage>>, cutoff: int, client: string, api: string, model: string)
    requires cache.Valid() && result !in cache.Aggregates()
    requires ranges.Describes(start, s) && ranges.owner == Owner(api, model)
    modifies result, cache, ranges, ranges.Identities()
    ensures cache.Valid() && result !in cache.Aggregates() && fresh(cache.Aggregates() - old(cache.Aggregates()))
    ensures ranges.Describes(start, s) && fresh(ranges.Identities() - old(ranges.Identities()))
    ensures result.Value() == Scan(old(result.Value()), api, model, s, cutoff, cache.parse(client))
  {
    hide Scan, Accurate, Accumulator.Value, RangeAggregateCache.WithinBudget, RangeAggregateCache.Right;
    var from := start;
    ScanEmpty(result.Value(), api, model, cutoff, cache.parse(client));
    while from < start + |s|
      invariant start <= from <= start + |s|
      invariant cache.Valid() && result !in cache.Aggregates() && fresh(cache.Aggregates() - old(cache.Aggregates()))
      invariant ranges.Describes(start, s) && fresh(ranges.Identities() - old(ranges.Identities()))
      invariant result.Value() == Scan(old(result.Value()), api, model, s[..from - start], cutoff, cache.parse(client))
    {
      var end := Min((from / BLOCK_RECORDS + 1) * BLOCK_RECORDS, start + |s|);
      assert s[..end - start] == s[..from - start] + s[from - start..end - start];
      ScanConcat(old(result.Value()), api, model, s[..from - start], s[from - start..end - start], cutoff, cache.parse(client));
      VisitBlock(result, cache, ranges, from, end, start, s, cutoff, client, api, model);
      from := end;
    }
    assert s[..from - start] == s;
  }

  lemma ScanEmpty(a: Summary, api: string, model: string, cutoff: int, who: Selector)
    ensures Scan(a, api, model, [], cutoff, who) == a
  {
  }

  // ----- a model -----

  /** Adds the records of one model to a result that several models share. */
  method VisitModel(result: Accumulator, cache: RangeAggregateCache, h: ModelHistory<Usage>, cutoff: int, client: string, k: Owner)
    requires h.Valid() && cache.Valid() && result !in cache.Aggregates() && h.window.ranges.owner == k
    modifies result, cache, h.Repr()
    ensures h.Valid() && PartsOf(h) == old(PartsOf(h)) && forall o | o in h.Repr() && o !in old(h.Repr()) :: fresh(o)
    ensures cache.Valid() && result !in cache.Aggregates()
    ensures forall a | a in cache.Aggregates() && a !in old(cache.Aggregates()) :: fresh(a)
    ensures result.Value() == Scan(old(result.Value()), k.api, k.model, old(PartsOf(h)).All(), cutoff, cache.parse(client))
  {
    hide Scan, ModelHistory.Valid, ModelHistory.Repr, PartsOf, Accumulator.Value, RangeAggregateCache.Valid;
    ghost var p := PartsOf(h);
    ScanConcat(result.Value(), k.api, k.model, p.visible, p.retained, cutoff, cache.parse(client));
    VisitWindow(result, cache, h, cutoff, client, k);
    VisitArchive(result, cache, h, cutoff, client, k);
  }

  method VisitWindow(result: Accumulator, cache: RangeAggregateCache, h: ModelHistory<Usage>, cutoff: int, client: string, k: Owner)
    requires h.Valid() && cache.Valid() && result !in cache.Aggregates() && h.window.ranges.owner == k
    modifies result, cache, h.Repr()
    ensures h.Valid() && PartsOf(h) == old(PartsOf(h)) && forall o | o in h.Repr() && o !in old(h.Repr()) :: fresh(o)
    ensures cache.Valid() && result !in cache.Aggregates()
    ensures forall a | a in cache.Aggregates() && a !in old(cache.Aggregates()) :: fresh(a)
    ensures result.Value() == Scan(old(result.Value()), k.api, k.model, old(PartsOf(h)).visible, cutoff, cache.parse(client))
  {
    hide Scan, BlockList.Valid, BlockList.Contents, RangeBlocks.Describes, Accumulator.Value, RangeAggregateCache.WithinBudget,
         RangeAggregateCache.Right;
    if h.window.details.len == 0 {
      ScanEmpty(result.Value(), k.api, k.model, cutoff, cache.parse(client));
      return;
    }
    VisitBlocks(result, cache, h.window.ranges, h.window.details.Offset(), h.window.Contents(), cutoff, client, k.api, k.model);
  }

  method VisitArchive(result: Accumulator, cache: RangeAggregateCache, h: ModelHistory<Usage>, cutoff: int, client: string, k: Owner)
    requires h.Valid() && cache.Valid() && result !in cache.Aggregates() && h.window.ranges.owner == k
    modifies result, cache, h.Repr()
    ensures h.Valid() && PartsOf(h) == old(PartsOf(h)) && forall o | o in h.Repr() && o !in old(h.Repr()) :: fresh(o)
    ensures cache.Valid() && result !in cache.Aggregates()
    ensures forall a | a in cache.Aggregates() && a !in old(cache.Aggregates()) :: fresh(a)
    ensures result.Value() == Scan(old(result.Value()), k.api, k.model, old(PartsOf(h)).retained, cutoff, cache.parse(client))
  {
    hide Scan, BlockList.Valid, BlockList.Contents, RangeBlocks.Describes, DetailWindow.Valid, Accumulator.Value,
         RangeAggregateCache.WithinBudget, RangeAggregateCache.Right;
    VisitBlocks(result, cache, h.archive.ranges, 0, h.archive.Contents(), cutoff, client, k.api, k.model);
  }
}
