/** What a summary counts, said of the records it was made from: each counter is the capped number or sum
    over the records of its group, and no group is there without a record. */
module RangeTotals {
  import opened Wrappers
  import opened Text
  import opened RangeBlocks
  import opened RangeCounters
  import opened RangeGroups
  import opened RangeSummary

  /** A record that counts, with the API and the model it was recorded under. */
  datatype Item = Item(api: string, model: string, usage: Usage)

  // ----- capped numbers and sums -----

  ghost function Capped(n: nat): Count {
    if n > MAX_COUNT then MAX_COUNT else n
  }

  ghost function HowMany(items: seq<Item>, p: Usage -> bool): nat {
    if items == [] then 0
    else HowMany(items[..|items| - 1], p) + if p(items[|items| - 1].usage) then 1 else 0
  }

  /** Negative amounts count as nothing. */
  ghost function Amount(items: seq<Item>, of: Usage -> int): nat {
    if items == [] then 0
    else Amount(items[..|items| - 1], of) + if of(items[|items| - 1].usage) > 0 then of(items[|items| - 1].usage) else 0
  }

  const FAILED: Usage -> bool := (u: Usage) => u.failed
  const SUCCEEDED: Usage -> bool := (u: Usage) => !u.failed
  const TIMED: Usage -> bool := (u: Usage) => u.latencyMs > 0
  const TOTAL: Usage -> int := (u: Usage) => u.totalTokens
  const INPUT: Usage -> int := (u: Usage) => u.inputTokens
  const OUTPUT: Usage -> int := (u: Usage) => u.outputTokens
  const CACHED: Usage -> int := (u: Usage) => u.cachedTokens
  const CACHE_WRITE: Usage -> int := (u: Usage) => u.cacheWriteTokens
  const REASONING: Usage -> int := (u: Usage) => u.reasoningTokens
  const LATENCY: Usage -> int := (u: Usage) => u.latencyMs

  /** Which counters a group has. */
  datatype Kind = Full | NoLatency | Brief | Timeline

  ghost predicate Outcomes(c: Counters, items: seq<Item>) {
    c.successes == Capped(HowMany(items, SUCCEEDED)) && c.failures == Capped(HowMany(items, FAILED))
  }

  ghost predicate Tokens(c: Counters, items: seq<Item>) {
    && c.inputTokens == Capped(Amount(items, INPUT)) && c.outputTokens == Capped(Amount(items, OUTPUT))
    && c.cachedTokens == Capped(Amount(items, CACHED)) && c.cacheWriteTokens == Capped(Amount(items, CACHE_WRITE))
    && c.reasoningTokens == Capped(Amount(items, REASONING))
  }

  ghost predicate NoTokens(c: Counters) {
    c.inputTokens == c.outputTokens == c.cachedTokens == c.cacheWriteTokens == c.reasoningTokens == 0
  }

  ghost predicate Latency(c: Counters, items: seq<Item>) {
    c.latencySum == Capped(Amount(items, LATENCY)) && c.latencyCount == Capped(HowMany(items, TIMED))
  }

  /** The counters are those of the records. */
  ghost predicate Right(kind: Kind, c: Counters, items: seq<Item>) {
    && c.requests == Capped(|items|) && c.totalTokens == Capped(Amount(items, TOTAL))
    && (if kind == Timeline then c.successes == c.failures == 0 else Outcomes(c, items))
    && (if kind == Full || kind == NoLatency then Tokens(c, items) else NoTokens(c))
    && (if kind == Full then Latency(c, items) else c.latencySum == c.latencyCount == 0)
  }

  ghost function CountsOf(kind: Kind, u: Usage): Counters {
    match kind
    case Full => u.Counts()
    case NoLatency => u.WithoutLatency()
    case Brief => u.Brief()
    case Timeline => u.OverTime()
  }

  lemma CappedPlus(a: nat, x: int)
    ensures AddCounts(Capped(a), AddCounts(0, x)) == Capped(a + if x > 0 then x else 0)
    ensures AddCounts(Capped(a), 1) == Capped(a + 1) && AddCounts(Capped(a), 0) == Capped(a)
  {
  }

  lemma OneMore(items: seq<Item>, i: Item, p: Usage -> bool, of: Usage -> int)
    ensures HowMany(items + [i], p) == HowMany(items, p) + if p(i.usage) then 1 else 0
    ensures Amount(items + [i], of) == Amount(items, of) + if of(i.usage) > 0 then of(i.usage) else 0
  {
    assert (items + [i])[..|items|] == items;
  }

  lemma OutcomesGrow(c: Counters, items: seq<Item>, i: Item, d: Counters)
    requires Outcomes(c, items) && d.successes == (if i.usage.failed then 0 else 1) && d.failures == (if i.usage.failed then 1 else 0)
    ensures Outcomes(c.Plus(d), items + [i])
  {
    OneMore(items, i, SUCCEEDED, TOTAL);
    OneMore(items, i, FAILED, TOTAL);
    CappedPlus(HowMany(items, SUCCEEDED), 0);
    CappedPlus(HowMany(items, FAILED), 0);
  }

  lemma AmountGrows(c: Count, items: seq<Item>, i: Item, of: Usage -> int)
    requires c == Capped(Amount(items, of))
    ensures AddCounts(c, AddCounts(0, of(i.usage))) == Capped(Amount(items + [i], of))
  {
    OneMore(items, i, SUCCEEDED, of);
    CappedPlus(Amount(items, of), of(i.usage));
  }

  lemma TokensGrow(c: Counters, items: seq<Item>, i: Item, d: Counters)
    requires Tokens(c, items)
    requires d.inputTokens == AddCounts(0, i.usage.inputTokens) && d.outputTokens == AddCounts(0, i.usage.outputTokens)
    requires d.cachedTokens == AddCounts(0, i.usage.cachedTokens) && d.cacheWriteTokens == AddCounts(0, i.usage.cacheWriteTokens)
    requires d.reasoningTokens == AddCounts(0, i.usage.reasoningTokens)
    ensures Tokens(c.Plus(d), items + [i])
  {
    hide AddCounts, Capped;
    AmountGrows(c.inputTokens, items, i, INPUT);
    AmountGrows(c.outputTokens, items, i, OUTPUT);
    AmountGrows(c.cachedTokens, items, i, CACHED);
    AmountGrows(c.cacheWriteTokens, items, i, CACHE_WRITE);
    AmountGrows(c.reasoningTokens, items, i, REASONING);
  }

  lemma LatencyGrows(c: Counters, items: seq<Item>, i: Item, d: Counters)
    requires Latency(c, items)
    requires d.latencySum == AddCounts(0, i.usage.latencyMs) && d.latencyCount == (if i.usage.latencyMs > 0 then 1 else 0)
    ensures Latency(c.Plus(d), items + [i])
  {
    hide AddCounts, Capped;
    AmountGrows(c.latencySum, items, i, LATENCY);
    OneMore(items, i, TIMED, LATENCY);
    CappedPlus(HowMany(items, TIMED), 0);
  }

  lemma NothingIsRight(kind: Kind)
    ensures Right(kind, NOTHING, [])
  {
  }

  /** One more record. */
  lemma RightGrows(kind: Kind, c: Counters, items: seq<Item>, i: Item)
    requires Right(kind, c, items)
    ensures Right(kind, c.Plus(CountsOf(kind, i.usage)), items + [i])
  {
    hide AddCounts, Capped, Outcomes, Tokens, Latency;
    var d := CountsOf(kind, i.usage);
    CappedPlus(|items|, 0);
    AmountGrows(c.totalTokens, items, i, TOTAL);
    ZeroPlusZero();
    if kind != Timeline {
      OutcomesGrow(c, items, i, d);
    }
    if kind == Full || kind == NoLatency {
      TokensGrow(c, items, i, d);
    }
    if kind == Full {
      LatencyGrows(c, items, i, d);
    }
  }

  lemma ZeroPlusZero()
    ensures AddCounts(0, 0) == 0
  {
  }

  // ----- groups -----

  /** The records of one group, in order. */
  ghost function Those<K>(items: seq<Item>, key: Item -> K, k: K): seq<Item> {
    if items == [] then []
    else
      var i := items[|items| - 1];
      Those(items[..|items| - 1], key, k) + if key(i) == k then [i] else []
  }

  lemma ThoseGrow<K>(items: seq<Item>, i: Item, key: Item -> K, k: K)
    ensures Those(items + [i], key, k) == Those(items, key, k) + if key(i) == k then [i] else []
  {
    assert (items + [i])[..|items|] == items;
  }

  /** The name of the first record, or with `fill` the first name that is not empty. */
  ghost function Label(items: seq<Item>, name: Item -> string, fill: bool): string {
    if items == [] then ""
    else if !fill || name(items[0]) != "" then name(items[0])
    else Label(items[1..], name, fill)
  }

  lemma {:induction false} LabelGrows(items: seq<Item>, i: Item, name: Item -> string, fill: bool)
    ensures Label(items + [i], name, fill)
         == if items == [] then name(i) else FirstName(Label(items, name, fill), name(i), fill)
  {
    if items == [] {
      assert ([] + [i])[1..] == [];
    } else {
      assert (items + [i])[0] == items[0] && (items + [i])[1..] == items[1..] + [i];
      if fill && name(items[0]) == "" {
        LabelGrows(items[1..], i, name, fill);
      }
    }
  }

  /** A key has a group just when a record has the key; the group counts these records and has their name. */
  ghost predicate LeavesRight(m: Leaves, items: seq<Item>, key: Item -> string, name: Item -> string, fill: bool, kind: Kind) {
    forall k :: LeafRight(At(m, k), Those(items, key, k), name, fill, kind)
  }

  ghost predicate LeafRight(leaf: Option<Leaf>, items: seq<Item>, name: Item -> string, fill: bool, kind: Kind) {
    && (leaf == None <==> items == [])
    && (leaf.Some? ==> Right(kind, leaf.value.sum, items) && leaf.value.name == Label(items, name, fill))
  }

  lemma LeafGrows(leaf: Option<Leaf>, items: seq<Item>, i: Item, name: Item -> string, fill: bool, kind: Kind)
    requires LeafRight(leaf, items, name, fill, kind)
    ensures LeafRight(Some(AddLeaf(leaf, name(i), CountsOf(kind, i.usage), fill)), items + [i], name, fill, kind)
  {
    hide Right, CountsOf;
    LabelGrows(items, i, name, fill);
    if leaf.Some? {
      RightGrows(kind, leaf.value.sum, items, i);
    } else {
      NothingIsRight(kind);
      RightGrows(kind, NOTHING, [], i);
    }
  }

  lemma LeavesGrow(m: Leaves, items: seq<Item>, i: Item, key: Item -> string, name: Item -> string, fill: bool, kind: Kind)
    requires LeavesRight(m, items, key, name, fill, kind)
    ensures LeavesRight(AddTo(m, key(i), name(i), CountsOf(kind, i.usage), fill), items + [i], key, name, fill, kind)
  {
    hide LeafRight, CountsOf, AddLeaf, Those;
    var after := AddTo(m, key(i), name(i), CountsOf(kind, i.usage), fill);
    forall k ensures LeafRight(At(after, k), Those(items + [i], key, k), name, fill, kind) {
      ThoseGrow(items, i, key, k);
      assert LeafRight(At(m, k), Those(items, key, k), name, fill, kind);
      if k == key(i) {
        LeafGrows(At(m, k), Those(items, key, k), i, name, fill, kind);
      } else {
        assert Those(items, key, k) + [] == Those(items, key, k);
      }
    }
  }

  // ----- models and their providers -----

  const PROVIDER_KEY: Item -> string := (i: Item) => ToLower(TrimSpace(i.usage.provider))
  const PROVIDER: Item -> string := (i: Item) => TrimSpace(i.usage.provider)

  /** The model that a record names, or the one it was recorded under. */
  const MODEL: Item -> string := (i: Item) => if i.usage.model != "" then i.usage.model else i.model

  ghost predicate ModelRight(m: Option<Model>, items: seq<Item>, kind: Kind) {
    && (m == None <==> items == [])
    && (m.Some? ==>
          Right(kind, m.value.sum, items) && LeavesRight(m.value.providers, items, PROVIDER_KEY, PROVIDER, false, NoLatency))
  }

  ghost predicate ModelsRight(m: Models, items: seq<Item>, kind: Kind) {
    forall k :: ModelRight(At(m, k), Those(items, MODEL, k), kind)
  }

  lemma NoLeavesRight(key: Item -> string, name: Item -> string, fill: bool, kind: Kind)
    ensures LeavesRight(map[], [], key, name, fill, kind)
  {
  }

  lemma ModelGrows(m: Option<Model>, items: seq<Item>, i: Item, kind: Kind)
    requires ModelRight(m, items, kind)
    ensures ModelRight(Some(AddModel(m, i.usage.ShareWith(CountsOf(kind, i.usage)))), items + [i], kind)
  {
    hide Right, CountsOf, LeavesRight, AddTo;
    var before := if m == None then Model(NOTHING, map[]) else m.value;
    if m == None {
      NothingIsRight(kind);
      NoLeavesRight(PROVIDER_KEY, PROVIDER, false, NoLatency);
    }
    RightGrows(kind, before.sum, items, i);
    LeavesGrow(before.providers, items, i, PROVIDER_KEY, PROVIDER, false, NoLatency);
    ShareIs(i, kind);
  }

  lemma ShareIs(i: Item, kind: Kind)
    ensures var s := i.usage.ShareWith(CountsOf(kind, i.usage));
            s.sum == CountsOf(kind, i.usage) && s.providerKey == PROVIDER_KEY(i) && s.providerName == PROVIDER(i)
            && s.providerSum == CountsOf(NoLatency, i.usage)
  {
  }

  lemma ModelsGrow(m: Models, items: seq<Item>, i: Item, kind: Kind)
    requires ModelsRight(m, items, kind)
    ensures ModelsRight(AddToModels(m, MODEL(i), i.usage.ShareWith(CountsOf(kind, i.usage))), items + [i], kind)
  {
    hide ModelRight, CountsOf, AddModel, Those, MODEL;
    var after := AddToModels(m, MODEL(i), i.usage.ShareWith(CountsOf(kind, i.usage)));
    forall k ensures ModelRight(At(after, k), Those(items + [i], MODEL, k), kind) {
      ThoseGrow(items, i, MODEL, k);
      assert ModelRight(At(m, k), Those(items, MODEL, k), kind);
      if k == MODEL(i) {
        ModelGrows(At(m, k), Those(items, MODEL, k), i, kind);
      } else {
        assert Those(items, MODEL, k) + [] == Those(items, MODEL, k);
      }
    }
  }

  // ----- clients and APIs with their models -----

  ghost predicate GroupRight<L>(g: Option<Group<L>>, items: seq<Item>, called: Item -> L, kind: Kind) {
    && (g == None <==> items == [])
    && (g.Some? ==>
          g.value.name == called(items[0]) && Right(kind, g.value.sum, items) && ModelsRight(g.value.models, items, kind))
  }

  ghost predicate GroupsRight<K(!new), L>(m: Groups<K, L>, items: seq<Item>, key: Item -> K, called: Item -> L, kind: Kind) {
    forall k :: GroupRight(At(m, k), Those(items, key, k), called, kind)
  }

  lemma NoModelsRight(kind: Kind)
    ensures ModelsRight(map[], [], kind)
  {
  }

  lemma GroupGrows<L>(g: Option<Group<L>>, items: seq<Item>, i: Item, called: Item -> L, kind: Kind)
    requires GroupRight(g, items, called, kind)
    ensures GroupRight(Some(AddGroup(g, called(i), CountsOf(kind, i.usage), MODEL(i), i.usage.ShareWith(CountsOf(kind, i.usage)))),
                       items + [i], called, kind)
  {
    hide Right, CountsOf, ModelsRight, AddToModels;
    var before := if g == None then Group(called(i), NOTHING, map[]) else g.value;
    if g == None {
      NothingIsRight(kind);
      NoModelsRight(kind);
    }
    RightGrows(kind, before.sum, items, i);
    ModelsGrow(before.models, items, i, kind);
  }

  lemma GroupsGrow<K(!new), L>(m: Groups<K, L>, items: seq<Item>, i: Item, key: Item -> K, called: Item -> L, kind: Kind)
    requires GroupsRight(m, items, key, called, kind)
    ensures GroupsRight(AddToGroups(m, key(i), called(i), CountsOf(kind, i.usage), MODEL(i), i.usage.ShareWith(CountsOf(kind, i.usage))),
                        items + [i], key, called, kind)
  {
    hide GroupRight, CountsOf, AddGroup, Those, MODEL;
    var after := AddToGroups(m, key(i), called(i), CountsOf(kind, i.usage), MODEL(i), i.usage.ShareWith(CountsOf(kind, i.usage)));
    forall k ensures GroupRight(At(after, k), Those(items + [i], key, k), called, kind) {
      ThoseGrow(items, i, key, k);
      assert GroupRight(At(m, k), Those(items, key, k), called, kind);
      if k == key(i) {
        GroupGrows(At(m, k), Those(items, key, k), i, called, kind);
      } else {
        assert Those(items, key, k) + [] == Those(items, key, k);
      }
    }
  }

  // ----- the whole summary -----

  const DAY: Item -> string := (i: Item) => i.usage.day
  const HOUR: Item -> string := (i: Item) => i.usage.hour
  const SOURCE: Item -> string := (i: Item) => i.usage.source
  const SOURCE_PROVIDER: Item -> string := (i: Item) => i.usage.provider
  const CREDENTIAL: Item -> string := (i: Item) => if i.usage.credential == "" then "(空)" else i.usage.credential
  const API: Item -> string := (i: Item) => i.api
  const UNNAMED: Item -> string := (i: Item) => ""

  /** A client is its key's hash, or without one its key. */
  const CLIENT: Item -> ClientKey := (i: Item) =>
    if TrimSpace(i.usage.apiKeyHash) == "" then ClientKey("", TrimSpace(i.usage.apiKey))
    else ClientKey(TrimSpace(i.usage.apiKeyHash), "")

  const CLIENT_NAME: Item -> ClientName := (i: Item) =>
    if TrimSpace(i.usage.apiKey) == "" then ClientName("未知 API", i.usage.apiKeyHash)
    else ClientName(TrimSpace(i.usage.apiKey), i.usage.apiKeyHash)

  ghost predicate SummaryRight(a: Summary, items: seq<Item>) {
    && Right(Full, a.total, items)
    && LeavesRight(a.days, items, DAY, UNNAMED, false, Timeline) && LeavesRight(a.hours, items, HOUR, UNNAMED, false, Timeline)
    && ModelsRight(a.models, items, Full)
    && LeavesRight(a.sources, items, SOURCE, SOURCE_PROVIDER, true, Brief)
    && LeavesRight(a.credentials, items, CREDENTIAL, CREDENTIAL, false, Brief)
    && GroupsRight(a.clients, items, CLIENT, CLIENT_NAME, NoLatency)
    && GroupsRight(a.apis, items, API, UNNAMED, Full)
  }

  lemma EmptyIsRight()
    ensures SummaryRight(EMPTY, [])
  {
  }

  /** One more record. */
  lemma SummaryGrows(a: Summary, items: seq<Item>, i: Item)
    requires SummaryRight(a, items)
    ensures SummaryRight(AddUsage(a, i.api, i.model, i.usage), items + [i])
  {
    hide Right, LeavesRight, ModelsRight, GroupsRight, AddTo, AddToModels, AddToGroups, Usage.Counts, Usage.WithoutLatency,
         Usage.Brief, Usage.OverTime, Usage.ShareWith, Counters.Plus;
    RightGrows(Full, a.total, items, i);
    LeavesGrow(a.days, items, i, DAY, UNNAMED, false, Timeline);
    LeavesGrow(a.hours, items, i, HOUR, UNNAMED, false, Timeline);
    ModelsGrow(a.models, items, i, Full);
    LeavesGrow(a.sources, items, i, SOURCE, SOURCE_PROVIDER, true, Brief);
    LeavesGrow(a.credentials, items, i, CREDENTIAL, CREDENTIAL, false, Brief);
    GroupsGrow(a.clients, items, i, CLIENT, CLIENT_NAME, NoLatency);
    GroupsGrow(a.apis, items, i, API, UNNAMED, Full);
  }

  // ----- the records that a query is about -----

  /** Since the cutoff, where there is one; a record without a time then does not count. */
  ghost predicate Since(r: Record<Usage>, cutoff: int) {
    cutoff != 0 ==> r.time != 0 && cutoff <= r.time
  }

  /** Whose records they are: of a key, told by its hash or its name, of none, of all or of nobody. */
  ghost predicate Asked(who: Selector, key: string, hash: string) {
    && who != Nobody
    && (who == NoKey ==> key == hash == "")
    && (who.ByName? || who.ByNameOnly? ==> key == who.name)
    && (who.ByNameOnly? ==> hash == "")
    && (who.ByHash? ==> hash == who.hash)
    && (who.ByHashOrName? ==> hash == who.hash || (hash == "" && key == who.name))
  }

  ghost function Picked(api: string, model: string, s: seq<Record<Usage>>, cutoff: int, who: Selector): seq<Item> {
    if s == [] then []
    else
      var r := s[|s| - 1];
      Picked(api, model, s[..|s| - 1], cutoff, who)
      + if Since(r, cutoff) && Asked(who, TrimSpace(r.data.apiKey), TrimSpace(r.data.apiKeyHash)) then [Item(api, model, r.data)] else []
  }

  lemma CountedIff(r: Record<Usage>, cutoff: int, who: Selector)
    ensures Counted(r, cutoff, who) <==> Since(r, cutoff) && Asked(who, TrimSpace(r.data.apiKey), TrimSpace(r.data.apiKeyHash))
  {
  }

  /** A scan counts just the records that it is about. */
  lemma {:induction false} ScanIsRight(a: Summary, items: seq<Item>, api: string, model: string, s: seq<Record<Usage>>,
                                       cutoff: int, who: Selector)
    requires SummaryRight(a, items)
    ensures SummaryRight(Scan(a, api, model, s, cutoff, who), items + Picked(api, model, s, cutoff, who))
  {
    hide SummaryRight, AddUsage, Counted, Since, Asked;
    if s == [] {
      assert items + [] == items;
    } else {
      var front, r := s[..|s| - 1], s[|s| - 1];
      ScanIsRight(a, items, api, model, front, cutoff, who);
      CountedIff(r, cutoff, who);
      var before := items + Picked(api, model, front, cutoff, who);
      if Counted(r, cutoff, who) {
        SummaryGrows(Scan(a, api, model, front, cutoff, who), before, Item(api, model, r.data));
        assert before + [Item(api, model, r.data)] == items + Picked(api, model, s, cutoff, who);
      } else {
        assert before == items + Picked(api, model, s, cutoff, who);
      }
    }
  }
}
