/** Summing records over a time range. An accumulator takes records one by one, or the finished
    accumulator of a whole block at once. */
module RangeSummary {
  import opened Wrappers
  import opened Text
  import opened RangeBlocks
  import opened RangeCounters
  import opened RangeGroups

  datatype ClientKey = ClientKey(hash: string, name: string)

  datatype ClientName = ClientName(key: string, hash: string)

  /** The fields of a record that a summary uses; days and hours are in the zone of its timestamp. */
  datatype Usage = Usage(model: string, provider: string, source: string, credential: string, apiKey: string,
                         apiKeyHash: string, failed: bool, totalTokens: int, inputTokens: int, outputTokens: int,
                         cachedTokens: int, cacheWriteTokens: int, reasoningTokens: int, latencyMs: int,
                         day: string, hour: string)
  {
    /** The counters of this one record. */
    function Counts(): Counters {
      Counters(1, if failed then 0 else 1, if failed then 1 else 0, AddCounts(0, totalTokens), AddCounts(0, inputTokens),
               AddCounts(0, outputTokens), AddCounts(0, cachedTokens), AddCounts(0, cacheWriteTokens),
               AddCounts(0, reasoningTokens), AddCounts(0, latencyMs), if latencyMs > 0 then 1 else 0)
    }

    function WithoutLatency(): Counters {
      Counts().(latencySum := 0, latencyCount := 0)
    }

    /** Requests, outcome and total tokens only. */
    function Brief(): Counters {
      Counters(1, if failed then 0 else 1, if failed then 1 else 0, AddCounts(0, totalTokens), 0, 0, 0, 0, 0, 0, 0)
    }

    function OverTime(): Counters {
      Counters(1, 0, 0, AddCounts(0, totalTokens), 0, 0, 0, 0, 0, 0, 0)
    }

    function Credential(): string { if credential == "" then "(空)" else credential }

    function Client(): ClientKey {
      if TrimSpace(apiKeyHash) != "" then ClientKey(TrimSpace(apiKeyHash), "") else ClientKey("", TrimSpace(apiKey))
    }

    function ClientLabel(): ClientName {
      ClientName(if TrimSpace(apiKey) == "" then "未知 API" else TrimSpace(apiKey), apiKeyHash)
    }

    function ModelOf(modelName: string): string { if model != "" then model else modelName }

    function ShareWith(sum: Counters): Share {
      Share(sum, ToLower(TrimSpace(provider)), TrimSpace(provider), WithoutLatency())
    }
  }

  /** The value of an accumulator. Hours are sparse: an hour without requests is absent. */
  datatype Summary = Summary(total: Counters, days: Leaves, hours: Leaves, models: Models, sources: Leaves,
                             credentials: Leaves, clients: Groups<ClientKey, ClientName>, apis: Groups<string, string>)

  const EMPTY := Summary(NOTHING, map[], map[], map[], map[], map[], map[], map[])

  function AddUsage(a: Summary, api: string, modelName: string, u: Usage): Summary {
    var model := u.ModelOf(modelName);
    Summary(a.total.Plus(u.Counts()),
            AddTo(a.days, u.day, "", u.OverTime(), false),
            AddTo(a.hours, u.hour, "", u.OverTime(), false),
            AddToModels(a.models, model, u.ShareWith(u.Counts())),
            AddTo(a.sources, u.source, u.provider, u.Brief(), true),
            AddTo(a.credentials, u.Credential(), u.Credential(), u.Brief(), false),
            AddToGroups(a.clients, u.Client(), u.ClientLabel(), u.WithoutLatency(), model, u.ShareWith(u.WithoutLatency())),
            AddToGroups(a.apis, api, "", u.Counts(), model, u.ShareWith(u.Counts())))
  }

  function MergeSummaries(a: Summary, b: Summary): Summary {
    Summary(a.total.Plus(b.total), MergeLeaves(a.days, b.days, false), MergeLeaves(a.hours, b.hours, false),
            MergeModels(a.models, b.models), MergeLeaves(a.sources, b.sources, true),
            MergeLeaves(a.credentials, b.credentials, false), MergeGroups(a.clients, b.clients), MergeGroups(a.apis, b.apis))
  }

  lemma MergeEmpty(a: Summary)
    ensures MergeSummaries(a, EMPTY) == a
  {
    hide Counters.Plus;
    PlusNothing(a.total);
    MergeNoLeaves(a.days, false);
    MergeNoLeaves(a.hours, false);
    MergeNoLeaves(a.sources, true);
    MergeNoLeaves(a.credentials, false);
    MergeNoModels(a.models);
    assert MergeGroups(a.clients, map[]) == a.clients;
    assert MergeGroups(a.apis, map[]) == a.apis;
  }

  /** Adding one more record to the block and merging it is merging the block and adding the record. */
  lemma MergeAdd(a: Summary, b: Summary, api: string, modelName: string, u: Usage)
    ensures MergeSummaries(a, AddUsage(b, api, modelName, u)) == AddUsage(MergeSummaries(a, b), api, modelName, u)
  {
    hide Counters.Plus, MergeLeaves, MergeModels, MergeGroups, AddTo, AddToModels, AddToGroups, Usage.Counts,
         Usage.WithoutLatency, Usage.Brief, Usage.OverTime, Usage.ShareWith, Usage.Client, Usage.ClientLabel;
    var model := u.ModelOf(modelName);
    PlusAssociative(a.total, b.total, u.Counts());
    MergeAddTo(a.days, b.days, u.day, "", u.OverTime(), false);
    MergeAddTo(a.hours, b.hours, u.hour, "", u.OverTime(), false);
    MergeAddToModels(a.models, b.models, model, u.ShareWith(u.Counts()));
    MergeAddTo(a.sources, b.sources, u.source, u.provider, u.Brief(), true);
    MergeAddTo(a.credentials, b.credentials, u.Credential(), u.Credential(), u.Brief(), false);
    MergeAddToGroups(a.clients, b.clients, u.Client(), u.ClientLabel(), u.WithoutLatency(), model, u.ShareWith(u.WithoutLatency()));
    MergeAddToGroups(a.apis, b.apis, api, "", u.Counts(), model, u.ShareWith(u.Counts()));
  }

  // ----- a list of records -----

  /** Which records a query is about. */
  datatype Selector = Everyone | Nobody | NoKey | ByName(name: string) | ByNameOnly(name: string) | ByHash(hash: string)
                    | ByHashOrName(hash: string, name: string)
  {
    predicate Matches(u: Usage) {
      var name, hash := TrimSpace(u.apiKey), TrimSpace(u.apiKeyHash);
      match this
      case Everyone => true
      case Nobody => false
      case NoKey => name == "" && hash == ""
      case ByName(n) => name == n
      case ByNameOnly(n) => hash == "" && name == n
      case ByHash(h) => hash == h
      case ByHashOrName(h, n) => hash == h || (hash == "" && name == n)
    }
  }

  /** Since the cutoff, if there is one: records without a time are then left out. */
  predicate InRange(r: Record<Usage>, cutoff: int) {
    cutoff == 0 || (r.time != 0 && r.time >= cutoff)
  }

  predicate Counted(r: Record<Usage>, cutoff: int, who: Selector) {
    InRange(r, cutoff) && who.Matches(r.data)
  }

  function AddRecord(a: Summary, api: string, model: string, r: Record<Usage>, cutoff: int, who: Selector): Summary {
    if Counted(r, cutoff, who) then AddUsage(a, api, model, r.data) else a
  }

  /** The plain scan of a record list. */
  function Scan(a: Summary, api: string, model: string, s: seq<Record<Usage>>, cutoff: int, who: Selector): Summary {
    if s == [] then a
    else AddRecord(Scan(a, api, model, s[..|s| - 1], cutoff, who), api, model, s[|s| - 1], cutoff, who)
  }

  /** Merging the scan of a block is scanning on through the block. */
  lemma {:induction false} MergeScan(a: Summary, api: string, model: string, s: seq<Record<Usage>>, cutoff: int, who: Selector)
    ensures MergeSummaries(a, Scan(EMPTY, api, model, s, cutoff, who)) == Scan(a, api, model, s, cutoff, who)
  {
    hide MergeSummaries, AddUsage, Counted, EMPTY;
    if s == [] {
      MergeEmpty(a);
    } else {
      var rest, last := s[..|s| - 1], s[|s| - 1];
      MergeScan(a, api, model, rest, cutoff, who);
      if Counted(last, cutoff, who) {
        MergeAdd(a, Scan(EMPTY, api, model, rest, cutoff, who), api, model, last.data);
      }
    }
  }

  lemma {:induction false} ScanConcat(a: Summary, api: string, model: string, s: seq<Record<Usage>>, t: seq<Record<Usage>>,
                                      cutoff: int, who: Selector)
    ensures Scan(a, api, model, s + t, cutoff, who)
         == Scan(Scan(a, api, model, s, cutoff, who), api, model, t, cutoff, who)
    decreases |t|
  {
    hide AddRecord;
    if t == [] {
      assert s + t == s;
    } else {
      assert (s + t)[..|s + t| - 1] == s + t[..|t| - 1];
      ScanConcat(a, api, model, s, t[..|t| - 1], cutoff, who);
    }
  }

  /** Where every record lies in the range, the cutoff makes no difference. */
  lemma {:induction false} ScanAll(a: Summary, api: string, model: string, s: seq<Record<Usage>>, cutoff: int, who: Selector)
    requires forall i | 0 <= i < |s| :: InRange(s[i], cutoff)
    ensures Scan(a, api, model, s, cutoff, who) == Scan(a, api, model, s, 0, who)
  {
    hide AddUsage;
    if s != [] {
      ScanAll(a, api, model, s[..|s| - 1], cutoff, who);
    }
  }

  /** And where none does, nothing is counted. */
  lemma {:induction false} ScanNone(a: Summary, api: string, model: string, s: seq<Record<Usage>>, cutoff: int, who: Selector)
    requires forall i | 0 <= i < |s| :: !InRange(s[i], cutoff)
    ensures Scan(a, api, model, s, cutoff, who) == a
  {
    hide AddUsage;
    if s != [] {
      ScanNone(a, api, model, s[..|s| - 1], cutoff, who);
    }
  }

  // ----- the accumulator -----

  class Accumulator {
    var total: Counters
    var days: Leaves
    var hours: Leaves
    var models: Models
    var sources: Leaves
    var credentials: Leaves
    var clients: Groups<ClientKey, ClientName>
    var apis: Groups<string, string>

    function Value(): Summary
      reads this
    {
      Summary(total, days, hours, models, sources, credentials, clients, apis)
    }

    constructor ()
      ensures Value() == EMPTY
    {
      total, days, hours, models, sources, credentials, clients, apis := NOTHING, map[], map[], map[], map[], map[], map[], map[];
    }

    method Add(api: string, modelName: string, u: Usage)
      modifies this
      ensures Value() == AddUsage(old(Value()), api, modelName, u)
    {
      hide Counters.Plus, AddTo, AddToModels, AddToGroups;
      var model := u.ModelOf(modelName);
      total := total.Plus(u.Counts());
      days := AddTo(days, u.day, "", u.OverTime(), false);
      hours := AddTo(hours, u.hour, "", u.OverTime(), false);
      apis := AddToGroups(apis, api, "", u.Counts(), model, u.ShareWith(u.Counts()));
      models := AddToModels(models, model, u.ShareWith(u.Counts()));
      sources := AddTo(sources, u.source, u.provider, u.Brief(), true);
      credentials := AddTo(credentials, u.Credential(), u.Credential(), u.Brief(), false);
      clients := AddToGroups(clients, u.Client(), u.ClientLabel(), u.WithoutLatency(), model, u.ShareWith(u.WithoutLatency()));
    }

    /** Takes in another accumulator, which stays as it is. */
    method Merge(b: Accumulator)
      requires b != this
      modifies this
      ensures Value() == MergeSummaries(old(Value()), b.Value())
    {
      hide Counters.Plus, MergeLeaves, MergeModels, MergeGroups;
      total := total.Plus(b.total);
      days := MergeLeavesInto(days, b.days, false);
      hours := MergeLeavesInto(hours, b.hours, false);
      apis := MergeGroupsInto(apis, b.apis);
      models := MergeModelsInto(models, b.models);
      sources := MergeLeavesInto(sources, b.sources, true);
      credentials := MergeLeavesInto(credentials, b.credentials, false);
      clients := MergeGroupsInto(clients, b.clients);
    }

    /** The loop over some records, for a cutoff and a selection. */
    method ScanInto(api: string, model: string, s: seq<Record<Usage>>, cutoff: int, who: Selector)
      modifies this
      ensures Value() == Scan(old(Value()), api, model, s, cutoff, who)
    {
      hide AddUsage, Accumulator.Value;
      var i := 0;
      while i < |s|
        invariant 0 <= i <= |s| && Value() == Scan(old(Value()), api, model, s[..i], cutoff, who)
      {
        assert s[..i + 1][..i] == s[..i];
        if InRange(s[i], cutoff) {
          if who.Matches(s[i].data) {
            Add(api, model, s[i].data);
          }
        }
        i := i + 1;
      }
      assert s[..i] == s;
    }
  }
}
