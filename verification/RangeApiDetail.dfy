/** The detail page of one API over a time range: counters, models, sources and errors, summed record by
    record or block by block. */
module RangeApiDetail {
  import opened Wrappers
  import opened Text
  import opened RangeBlocks
  import opened RangeCounters
  import opened RangeGroups
  import opened RangeSummary
  import opened RangeTotals
  import opened StatTables

  const NO_SOURCE := "\U{672A}\U{77E5}\U{6765}\U{6E90}"
  const NO_FAILURE := "\U{672A}\U{8FD4}\U{56DE}\U{9519}\U{8BEF}\U{5185}\U{5BB9}"

  datatype ErrorKey = ErrorKey(statusCode: int, failure: string)

  /** A record with what it says about a failure. */
  datatype Call = Call(usage: Usage, statusCode: int, failure: string)
  {
    function Source(): string {
      if TrimSpace(usage.source) == "" then NO_SOURCE else TrimSpace(usage.source)
    }

    function Error(): ErrorKey {
      ErrorKey(statusCode, if TrimSpace(failure) == "" then NO_FAILURE else TrimSpace(failure))
    }
  }

  type Errors = map<ErrorKey, int>

  datatype ApiDetail = ApiDetail(total: Counters, events: int, models: Models, sources: Leaves, errors: Errors)

  const NO_DETAIL := ApiDetail(NOTHING, 0, map[], map[], map[])

  function AddError(m: Errors, c: Call): Errors {
    if c.usage.failed then m[c.Error() := (if c.Error() in m then m[c.Error()] else 0) + 1] else m
  }

  function AddCall(a: ApiDetail, modelName: string, c: Call): ApiDetail {
    var u := c.usage;
    ApiDetail(a.total.Plus(u.Counts()), a.events + 1,
              AddToModels(a.models, u.ModelOf(modelName), u.ShareWith(u.Counts())),
              AddTo(a.sources, c.Source(), u.provider, u.Brief(), false),
              AddError(a.errors, c))
  }

  // ----- merging -----

  function JoinModel(a: Model, b: Model): Model {
    Model(a.sum.Plus(b.sum), MergeLeaves(a.providers, b.providers, false))
  }

  function JoinSource(a: Leaf, b: Leaf): Leaf {
    Leaf(a.name, a.sum.Plus(b.sum))
  }

  function MergeDetails(a: ApiDetail, b: ApiDetail): ApiDetail {
    ApiDetail(a.total.Plus(b.total), a.events + b.events, Joined(a.models, b.models, JoinModel),
              Joined(a.sources, b.sources, JoinSource), Joined(a.errors, b.errors, (m, n) => m + n))
  }

  lemma JoinedModels(a: Models, b: Models)
    ensures Joined(a, b, JoinModel) == MergeModels(a, b)
  {
    hide Counters.Plus, MergeLeaves;
  }

  lemma JoinedSources(a: Leaves, b: Leaves)
    ensures Joined(a, b, JoinSource) == MergeLeaves(a, b, false)
  {
    hide Counters.Plus;
  }

  lemma JoinedErrors(a: Errors, b: Errors, c: Call)
    ensures Joined(a, AddError(b, c), (m, n) => m + n) == AddError(Joined(a, b, (m, n) => m + n), c)
  {
    hide Call.Error;
    var l, r := Joined(a, AddError(b, c), (m, n) => m + n), AddError(Joined(a, b, (m, n) => m + n), c);
    assert l.Keys == r.Keys;
  }

  /** Adding one more record to the block and merging it is merging the block and adding the record. */
  lemma MergeCall(a: ApiDetail, b: ApiDetail, modelName: string, c: Call)
    ensures MergeDetails(a, AddCall(b, modelName, c)) == AddCall(MergeDetails(a, b), modelName, c)
  {
    hide Counters.Plus, Joined, MergeModels, MergeLeaves, AddToModels, AddTo, AddError, Usage.Counts, Usage.Brief,
         Usage.ShareWith, Usage.ModelOf, Call.Source;
    var u := c.usage;
    var name, share := u.ModelOf(modelName), u.ShareWith(u.Counts());
    PlusAssociative(a.total, b.total, u.Counts());
    JoinedModels(a.models, b.models);
    JoinedModels(a.models, AddToModels(b.models, name, share));
    MergeAddToModels(a.models, b.models, name, share);
    JoinedSources(a.sources, b.sources);
    JoinedSources(a.sources, AddTo(b.sources, c.Source(), u.provider, u.Brief(), false));
    MergeAddTo(a.sources, b.sources, c.Source(), u.provider, u.Brief(), false);
    JoinedErrors(a.errors, b.errors, c);
  }

  lemma MergeNothing(a: ApiDetail)
    ensures MergeDetails(a, NO_DETAIL) == a
  {
    PlusNothing(a.total);
    assert Joined(a.models, map[], JoinModel) == a.models;
    assert Joined(a.sources, map[], JoinSource) == a.sources;
    assert Joined(a.errors, map[], (m, n) => m + n) == a.errors;
  }

  predicate CallCounted(r: Record<Call>, cutoff: int, who: Selector) {
    (cutoff == 0 || (r.time != 0 && r.time >= cutoff)) && who.Matches(r.data.usage)
  }

  /** The plain scan of a record list. */
  function ScanCalls(a: ApiDetail, model: string, s: seq<Record<Call>>, cutoff: int, who: Selector): ApiDetail {
    if s == [] then a
    else
      var b := ScanCalls(a, model, s[..|s| - 1], cutoff, who);
      if CallCounted(s[|s| - 1], cutoff, who) then AddCall(b, model, s[|s| - 1].data) else b
  }

  /** Merging the sums of a block is scanning on through the block. */
  lemma {:induction false} MergeCalls(a: ApiDetail, model: string, s: seq<Record<Call>>, cutoff: int, who: Selector)
    ensures MergeDetails(a, ScanCalls(NO_DETAIL, model, s, cutoff, who)) == ScanCalls(a, model, s, cutoff, who)
  {
    hide MergeDetails, AddCall, CallCounted;
    if s == [] {
      MergeNothing(a);
    } else {
      MergeCalls(a, model, s[..|s| - 1], cutoff, who);
      MergeCall(a, ScanCalls(NO_DETAIL, model, s[..|s| - 1], cutoff, who), model, s[|s| - 1].data);
    }
  }

  // ----- what is counted -----

  ghost function ItemsOf(model: string, cs: seq<Call>): seq<Item> {
    if cs == [] then [] else ItemsOf(model, cs[..|cs| - 1]) + [Item("", model, cs[|cs| - 1].usage)]
  }

  const CALL_SOURCE: Item -> string := (i: Item) => if TrimSpace(i.usage.source) != "" then TrimSpace(i.usage.source) else NO_SOURCE

  /** How often calls failed with this status and this text. */
  ghost function FailedWith(cs: seq<Call>, k: ErrorKey): nat {
    if cs == [] then 0
    else
      var c := cs[|cs| - 1];
      var text := if TrimSpace(c.failure) != "" then TrimSpace(c.failure) else NO_FAILURE;
      FailedWith(cs[..|cs| - 1], k) + if c.usage.failed && c.statusCode == k.statusCode && text == k.failure then 1 else 0
  }

  ghost predicate ErrorsRight(m: Errors, cs: seq<Call>) {
    forall k :: (k in m <==> FailedWith(cs, k) > 0) && (k in m ==> m[k] == FailedWith(cs, k))
  }

  /** Every number is that of the calls of its group. */
  ghost predicate DetailRight(a: ApiDetail, model: string, cs: seq<Call>) {
    && a.events == |cs| && Right(Full, a.total, ItemsOf(model, cs)) && ModelsRight(a.models, ItemsOf(model, cs), Full)
    && LeavesRight(a.sources, ItemsOf(model, cs), CALL_SOURCE, SOURCE_PROVIDER, false, Brief) && ErrorsRight(a.errors, cs)
  }

  lemma ErrorsGrow(m: Errors, cs: seq<Call>, c: Call)
    requires ErrorsRight(m, cs)
    ensures ErrorsRight(AddError(m, c), cs + [c])
  {
    assert (cs + [c])[..|cs|] == cs;
    forall k ensures FailedWith(cs + [c], k) == FailedWith(cs, k) + if c.usage.failed && c.Error() == k then 1 else 0 {
    }
  }

  lemma DetailGrows(a: ApiDetail, model: string, cs: seq<Call>, c: Call)
    requires DetailRight(a, model, cs)
    ensures DetailRight(AddCall(a, model, c), model, cs + [c])
  {
    hide Right, LeavesRight, ModelsRight, ErrorsRight, AddTo, AddToModels, AddError, Counters.Plus, Usage.Counts, Usage.Brief,
         Usage.ShareWith;
    var items, i := ItemsOf(model, cs), Item("", model, c.usage);
    assert (cs + [c])[..|cs|] == cs;
    RightGrows(Full, a.total, items, i);
    ModelsGrow(a.models, items, i, Full);
    LeavesGrow(a.sources, items, i, CALL_SOURCE, SOURCE_PROVIDER, false, Brief);
    ErrorsGrow(a.errors, cs, c);
  }

  ghost function PickedCalls(s: seq<Record<Call>>, cutoff: int, who: Selector): seq<Call> {
    if s == [] then []
    else
      var r, u := s[|s| - 1], s[|s| - 1].data.usage;
      PickedCalls(s[..|s| - 1], cutoff, who)
      + if (cutoff != 0 ==> r.time != 0 && cutoff <= r.time) && Asked(who, TrimSpace(u.apiKey), TrimSpace(u.apiKeyHash))
        then [r.data] else []
  }

  lemma NoDetailIsRight(model: string)
    ensures DetailRight(NO_DETAIL, model, [])
  {
  }

  lemma AskedIff(who: Selector, u: Usage)
    ensures who.Matches(u) <==> Asked(who, TrimSpace(u.apiKey), TrimSpace(u.apiKeyHash))
  {
  }

  /** A scan counts just the calls that it is about. */
  lemma {:induction false} ScanCallsIsRight(a: ApiDetail, model: string, cs: seq<Call>, s: seq<Record<Call>>, cutoff: int, who: Selector)
    requires DetailRight(a, model, cs)
    ensures DetailRight(ScanCalls(a, model, s, cutoff, who), model, cs + PickedCalls(s, cutoff, who))
  {
    hide DetailRight, AddCall, Asked;
    if s == [] {
      assert cs + [] == cs;
    } else {
      var front, r := s[..|s| - 1], s[|s| - 1];
      ScanCallsIsRight(a, model, cs, front, cutoff, who);
      AskedIff(who, r.data.usage);
      var before := cs + PickedCalls(front, cutoff, who);
      if CallCounted(r, cutoff, who) {
        DetailGrows(ScanCalls(a, model, front, cutoff, who), model, before, r.data);
        assert before + [r.data] == cs + PickedCalls(s, cutoff, who);
      } else {
        assert before == cs + PickedCalls(s, cutoff, who);
      }
    }
  }

  // ----- the accumulator -----

  class ApiDetailAccumulator {
    var total: Counters
    var events: int
    const models: StatTable<string, Model>
    const sources: StatTable<string, Leaf>
    const errors: StatTable<ErrorKey, int>

    ghost function Repr(): set<object>
      reads models, sources, errors
    {
      {this} + models.Repr() + sources.Repr() + errors.Repr()
    }

    ghost predicate Valid()
      reads models, sources, errors
    {
      && models.Valid() && sources.Valid() && errors.Valid()
      && models.Repr() !! sources.Repr() && models.Repr() !! errors.Repr() && sources.Repr() !! errors.Repr()
      && this !in models.Repr() + sources.Repr() + errors.Repr()
    }

    function Value(): ApiDetail
      reads this, models, sources, errors, models.Entries(), sources.Entries(), errors.Entries()
    {
      ApiDetail(total, events, models.Value(), sources.Value(), errors.Value())
    }

    constructor ()
      ensures Valid() && Value() == NO_DETAIL && fresh(Repr())
    {
      total, events := NOTHING, 0;
      models := new StatTable();
      sources := new StatTable();
      errors := new StatTable();
    }

    method AddToModel(name: string, s: Share)
      requires Valid()
      modifies models.Repr()
      ensures Valid() && sources.Repr() == old(sources.Repr()) && errors.Repr() == old(errors.Repr())
      ensures forall o | o in models.Repr() && o !in old(models.Repr()) :: fresh(o)
      ensures Value() == old(Value()).(models := AddToModels(old(Value()).models, name, s))
    {
      hide AddModel;
      models.Put(name, AddModel(At(models.Value(), name), s));
    }

    method AddToSource(name: string, provider: string, d: Counters)
      requires Valid()
      modifies sources.Repr()
      ensures Valid() && models.Repr() == old(models.Repr()) && errors.Repr() == old(errors.Repr())
      ensures forall o | o in sources.Repr() && o !in old(sources.Repr()) :: fresh(o)
      ensures Value() == old(Value()).(sources := AddTo(old(Value()).sources, name, provider, d, false))
    {
      hide AddLeaf;
      sources.Put(name, AddLeaf(At(sources.Value(), name), provider, d, false));
    }

    method AddToError(c: Call)
      requires Valid()
      modifies errors.Repr()
      ensures Valid() && models.Repr() == old(models.Repr()) && sources.Repr() == old(sources.Repr())
      ensures forall o | o in errors.Repr() && o !in old(errors.Repr()) :: fresh(o)
      ensures Value() == old(Value()).(errors := AddError(old(Value()).errors, c))
    {
      hide Call.Error;
      if c.usage.failed {
        var key := c.Error();
        errors.Put(key, (if key in errors.stats then errors.stats[key].value else 0) + 1);
      }
    }

    method Add(modelName: string, c: Call)
      requires Valid()
      modifies Repr()
      ensures Valid() && forall o | o in Repr() && o !in old(Repr()) :: fresh(o)
      ensures Value() == AddCall(old(Value()), modelName, c)
    {
      hide Counters.Plus, AddToModels, AddTo, AddError, Usage.Counts, Usage.Brief, Usage.ShareWith, Usage.ModelOf, Call.Source,
           Call.Error, StatTable.Valid, StatTable.Value;
      var u := c.usage;
      CountAll(u.Counts(), 1);
      AddToModel(u.ModelOf(modelName), u.ShareWith(u.Counts()));
      AddToSource(c.Source(), u.provider, u.Brief());
      AddToError(c);
    }

    method MergeModels(b: ApiDetailAccumulator)
      requires Valid() && b.Valid() && Repr() !! b.Repr()
      modifies models.Repr()
      ensures Valid() && sources.Repr() == old(sources.Repr()) && errors.Repr() == old(errors.Repr())
      ensures forall o | o in models.Repr() && o !in old(models.Repr()) :: fresh(o)
      ensures Repr() !! old(b.Repr())
      ensures Value() == old(Value()).(models := Joined(old(Value()).models, old(b.Value()).models, JoinModel))
    {
      hide Joined, StatTable.Valid, StatTable.Value;
      models.Merge(b.models, JoinModel);
    }

    method MergeSources(b: ApiDetailAccumulator)
      requires Valid() && b.Valid() && Repr() !! b.Repr()
      modifies sources.Repr()
      ensures Valid() && models.Repr() == old(models.Repr()) && errors.Repr() == old(errors.Repr())
      ensures forall o | o in sources.Repr() && o !in old(sources.Repr()) :: fresh(o)
      ensures Repr() !! old(b.Repr())
      ensures Value() == old(Value()).(sources := Joined(old(Value()).sources, old(b.Value()).sources, JoinSource))
    {
      hide Joined, StatTable.Valid, StatTable.Value;
      sources.Merge(b.sources, JoinSource);
    }

    method MergeErrors(b: ApiDetailAccumulator)
      requires Valid() && b.Valid() && Repr() !! b.Repr()
      modifies errors.Repr()
      ensures Valid() && models.Repr() == old(models.Repr()) && sources.Repr() == old(sources.Repr())
      ensures forall o | o in errors.Repr() && o !in old(errors.Repr()) :: fresh(o)
      ensures Repr() !! old(b.Repr())
      ensures Value() == old(Value()).(errors := Joined(old(Value()).errors, old(b.Value()).errors, (m, n) => m + n))
    {
      hide Joined, StatTable.Valid, StatTable.Value;
      errors.Merge(b.errors, (m, n) => m + n);
    }

    twostate lemma OldParts(new b: ApiDetailAccumulator)
      requires old(allocated(b))
      ensures forall o | o in old(b.Repr()) :: old(allocated(o))
      ensures {b, b.models, b.sources, b.errors} <= old(b.Repr())
    {
    }

    lemma Totals()
      ensures Value().total == total && Value().events == events
    {
    }

    /** An accumulator is as it was if nothing of it was written. */
    twostate lemma Untouched(new b: ApiDetailAccumulator)
      requires old(allocated(b)) && old(b.Valid()) && forall o | o in old(b.Repr()) && old(allocated(o)) :: unchanged(o)
      ensures b.Valid() && b.Repr() == old(b.Repr()) && b.Value() == old(b.Value())
    {
      hide StatTable.Valid, StatTable.Value;
      OldParts(b);
      assert forall o | o in old(b.Repr()) :: unchanged(o);
      assert unchanged(b.models) && unchanged(b.sources) && unchanged(b.errors);
    }

    /** Takes in another accumulator. What the other one holds is neither changed nor shared: it can stay in
        the cache whatever is added here later. */
    method Merge(b: ApiDetailAccumulator)
      requires Valid() && b.Valid() && Repr() !! b.Repr()
      modifies Repr()
      ensures Valid() && forall o | o in Repr() && o !in old(Repr()) :: fresh(o)
      ensures Value() == MergeDetails(old(Value()), b.Value())
      ensures b.Valid() && b.Repr() == old(b.Repr()) && b.Value() == old(b.Value()) && Repr() !! b.Repr()
    {
      hide Counters.Plus, Joined, StatTable.Repr, ApiDetailAccumulator.Valid, ApiDetailAccumulator.Value;
      b.Totals();
      CountAll(b.total, b.events);
      Untouched(b);
      MergeModels(b);
      Untouched(b);
      MergeSources(b);
      Untouched(b);
      MergeErrors(b);
      Untouched(b);
    }

    method CountAll(d: Counters, n: int)
      requires Valid()
      modifies this`total, this`events
      ensures Valid() && Repr() == old(Repr())
      ensures Value() == old(Value()).(total := old(Value()).total.Plus(d), events := old(Value()).events + n)
    {
      hide Counters.Plus, StatTable.Value, StatTable.Valid;
      total, events := total.Plus(d), events + n;
    }

    /** The loop over some records, for a cutoff and a selection. */
    method ScanInto(model: string, s: seq<Record<Call>>, cutoff: int, who: Selector)
      requires Valid()
      modifies Repr()
      ensures Valid() && forall o | o in Repr() && o !in old(Repr()) :: fresh(o)
      ensures Value() == ScanCalls(old(Value()), model, s, cutoff, who)
    {
      hide AddCall, ApiDetailAccumulator.Value, ApiDetailAccumulator.Valid, StatTable.Repr, CallCounted;
      for i := 0 to |s|
        invariant Valid() && forall o | o in Repr() && o !in old(Repr()) :: fresh(o)
        invariant Value() == ScanCalls(old(Value()), model, s[..i], cutoff, who)
      {
        assert s[..i + 1][..i] == s[..i];
        if CallCounted(s[i], cutoff, who) {
          Add(model, s[i].data);
        }
      }
      assert s[..|s|] == s;
    }

    /** A block whose sums are in the cache counts as if its records were read now, and stays in the cache as it is. */
    method MergeBlock(cached: ApiDetailAccumulator, model: string, ghost s: seq<Record<Call>>, ghost who: Selector)
      requires Valid() && cached.Valid() && Repr() !! cached.Repr()
      requires cached.Value() == ScanCalls(NO_DETAIL, model, s, 0, who)
      modifies Repr()
      ensures Valid() && forall o | o in Repr() && o !in old(Repr()) :: fresh(o)
      ensures Value() == ScanCalls(old(Value()), model, s, 0, who)
      ensures cached.Valid() && cached.Value() == old(cached.Value()) && Repr() !! cached.Repr()
    {
      hide ApiDetailAccumulator.Value, ApiDetailAccumulator.Valid, ApiDetailAccumulator.Repr, MergeDetails, ScanCalls;
      MergeCalls(Value(), model, s, 0, who);
      Merge(cached);
    }
  }
}
