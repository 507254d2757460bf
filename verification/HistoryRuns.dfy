/** Whole runs over the histories of all APIs and models: records arrive, change, move to the retained
    part, leave and expire, while range queries over all of them fill and use one shared cache. */
module HistoryRuns {
  import opened Wrappers
  import opened BlockList
  import opened RangeBlocks
  import opened RangeSummary
  import opened RangeTotals
  import opened RangeCache
  import opened AccountingBlocks
  import opened SlidingWindow
  import opened DetailWindow
  import opened ModelHistory
  import opened RangeQuery
  import opened Histories

  type Usages = Parts<Usage>

  const NO_RECORDS: Usages := Parts([], [])

  /** Nothing that a range query reads is left away when a record is retained. */
  const EVERYTHING: Usage -> Usage := u => u

  lemma EverythingKept(s: seq<Record<Usage>>)
    ensures Settles(EVERYTHING) && RetainedAll(EVERYTHING, s) == s
    ensures forall r: Record<Usage> :: Retained(EVERYTHING, r) == r
  {
  }

  // ----- what an event does to the records -----

  datatype Change = Arrive(r: Record<Usage>, archived: bool) | Update(i: nat, r: Record<Usage>) | Delete(i: nat)
                  | Trim(limit: nat)

  datatype Event = At(model: Owner, change: Change) | Expire(cutoff: int)
                 | Query(cutoff: int, client: string, priceVersion: int)

  function Updated(p: Usages, i: nat, r: Record<Usage>): Usages {
    if i < |p.visible| then Parts(p.visible[i := r], p.retained)
    else if i < |p.All()| then Parts(p.visible, p.retained[i - |p.visible| := r])
    else p
  }

  function Deleted(p: Usages, i: nat): Usages {
    var j := i - |p.visible|;
    if i < |p.visible| then Parts(p.visible[..i] + p.visible[i + 1..], p.retained)
    else if i < |p.All()| then Parts(p.visible, p.retained[..j] + p.retained[j + 1..])
    else p
  }

  /** The oldest beyond the limit move from the visible to the retained records. */
  function Trimmed(p: Usages, limit: nat): Usages {
    var k := if |p.visible| <= limit then 0 else |p.visible| - limit;
    Parts(p.visible[k..], p.retained + p.visible[..k])
  }

  /** An arriving record is retained at the end, or shown at its place in time. */
  ghost predicate Arrived(p: Usages, q: Usages, r: Record<Usage>, archived: bool) {
    if archived then q == Parts(p.visible, p.retained + [r])
    else
      && q.retained == p.retained
      && (exists at :: 0 <= at <= |p.visible| && q.visible == InsertAt(p.visible, at, r))
      && (SortedByTime(p.visible) ==> SortedByTime(q.visible))
  }

  ghost predicate Changed(p: Usages, q: Usages, c: Change) {
    match c
    case Arrive(r, archived) => Arrived(p, q, r, archived)
    case Update(i, r) => q == Updated(p, i, r)
    case Delete(i) => q == Deleted(p, i)
    case Trim(limit) => q == Trimmed(p, limit)
  }

  function Expired(p: Usages, cutoff: int): Usages {
    Parts(Filter(p.visible, Survivor(cutoff)), Filter(p.retained, Survivor(cutoff)))
  }

  type State = map<Owner, Usages>

  function ExpiredIn(t: State, done: set<Owner>, cutoff: int): State {
    map k | k in t :: if k in done then Expired(t[k], cutoff) else t[k]
  }

  /** A change is about one model, whose history begins with the first record that arrives. */
  ghost predicate ChangedAt(t: State, u: State, k: Owner, c: Change) {
    if k in t || c.Arrive? then
      k in u && u == t[k := u[k]] && Changed(if k in t then t[k] else NO_RECORDS, u[k], c)
    else
      u == t
  }

  ghost predicate Next(t: State, u: State, e: Event) {
    match e
    case At(k, c) => ChangedAt(t, u, k, c)
    case Expire(cutoff) => u == ExpiredIn(t, t.Keys, cutoff)
    case Query(_, _, _) => u == t
  }

  /** The plain scan of all records, model by model in the given order. */
  function ScanModels(a: Summary, t: State, order: seq<Owner>, cutoff: int, who: Selector): Summary
    requires InTable(order, t)
  {
    if order == [] then a
    else
      var k := order[|order| - 1];
      Scan(ScanModels(a, t, order[..|order| - 1], cutoff, who), k.api, k.model, t[k].All(), cutoff, who)
  }

  /** The records of all models that a query is about. */
  ghost function PickedAll(t: State, order: seq<Owner>, cutoff: int, who: Selector): seq<Item>
    requires InTable(order, t)
  {
    if order == [] then []
    else
      var k := order[|order| - 1];
      PickedAll(t, order[..|order| - 1], cutoff, who) + Picked(k.api, k.model, t[k].All(), cutoff, who)
  }

  /** The plain scan counts just these, each in its groups. */
  lemma {:induction false} ScanModelsIsRight(t: State, order: seq<Owner>, cutoff: int, who: Selector)
    requires InTable(order, t)
    ensures SummaryRight(ScanModels(EMPTY, t, order, cutoff, who), PickedAll(t, order, cutoff, who))
  {
    hide SummaryRight, Scan, Picked, EMPTY;
    if order == [] {
      EmptyIsRight();
    } else {
      var front, k := order[..|order| - 1], order[|order| - 1];
      ScanModelsIsRight(t, front, cutoff, who);
      ScanIsRight(ScanModels(EMPTY, t, front, cutoff, who), PickedAll(t, front, cutoff, who), k.api, k.model, t[k].All(), cutoff, who);
    }
  }

  /** Each of the models once. */
  ghost predicate Visits(order: seq<Owner>, models: set<Owner>) {
    && (forall i | 0 <= i < |order| :: order[i] in models)
    && (forall k | k in models :: k in order)
    && (forall i, j | 0 <= i < j < |order| :: order[i] != order[j])
  }

  // ----- events in one history -----

  method ArriveIn(h: ModelHistory<Usage>, r: Record<Usage>, archived: bool)
    requires h.Valid() && h.keep == EVERYTHING
    modifies h.Repr()
    ensures h.Valid() && fresh(h.Repr() - old(h.Repr())) && Arrived(old(PartsOf(h)), PartsOf(h), r, archived)
  {
    hide Accurate, Elements, Shape, InsertAt, SortedByTime;
    EverythingKept([]);
    h.Append(r, archived);
  }

  method UpdateIn(h: ModelHistory<Usage>, i: nat, r: Record<Usage>)
    requires h.Valid() && h.keep == EVERYTHING
    modifies h.Repr()
    ensures h.Valid() && fresh(h.Repr() - old(h.Repr())) && PartsOf(h) == Updated(old(PartsOf(h)), i, r)
  {
    hide Accurate, Elements, Shape;
    var n := h.Count();
    if i < n {
      EverythingKept([]);
      h.SetAt(i, r);
    }
  }

  method DeleteIn(h: ModelHistory<Usage>, i: nat)
    requires h.Valid()
    modifies h.Repr()
    ensures h.Valid() && fresh(h.Repr() - old(h.Repr())) && PartsOf(h) == Deleted(old(PartsOf(h)), i)
  {
    hide Accurate, Elements, Shape;
    var n := h.Count();
    if i < n {
      h.RemoveAt(i);
    }
  }

  method TrimIn(h: ModelHistory<Usage>, limit: nat)
    requires h.Valid() && h.keep == EVERYTHING
    modifies h.Repr()
    ensures h.Valid() && fresh(h.Repr() - old(h.Repr())) && PartsOf(h) == Trimmed(old(PartsOf(h)), limit)
  {
    hide Accurate, Elements, Shape, ModelHistory.Valid, ModelHistory.Repr;
    EverythingKept(PartsOf(h).visible[..if |PartsOf(h).visible| <= limit then 0 else |PartsOf(h).visible| - limit]);
    h.Trim(limit);
  }

  method ExpireIn(h: ModelHistory<Usage>, cutoff: int)
    requires h.Valid()
    modifies h.Repr()
    ensures h.Valid() && fresh(h.Repr() - old(h.Repr())) && PartsOf(h) == Expired(old(PartsOf(h)), cutoff)
  {
    hide Accurate, Elements, Shape, Filter;
    var _ := h.Prune(cutoff);
  }

  method ChangeIn(h: ModelHistory<Usage>, c: Change)
    requires h.Valid() && h.keep == EVERYTHING
    modifies h.Repr()
    ensures h.Valid() && fresh(h.Repr() - old(h.Repr())) && Changed(old(PartsOf(h)), PartsOf(h), c)
  {
    hide ModelHistory.Valid, ModelHistory.Repr, PartsOf, Arrived, Updated, Deleted, Trimmed;
    match c {
      case Arrive(r, archived) => ArriveIn(h, r, archived);
      case Update(i, r) => UpdateIn(h, i, r);
      case Delete(i) => DeleteIn(h, i);
      case Trim(limit) => TrimIn(h, limit);
    }
  }

  // ----- events in the histories of all models -----

  method ChangeOne(m: Histories<Usage>, k: Owner, c: Change)
    requires AllValid(m) && k in m && m[k].keep == EVERYTHING
    modifies m[k].Repr()
    ensures forall o | o in Objects(m) && o !in old(Objects(m)) :: fresh(o)
    ensures AllValid(m)
    ensures ChangedAt(old(Table(m)), Table(m), k, c)
  {
    hide ModelHistory.Valid, ModelHistory.Repr, PartsOf, Changed, Objects, Roots, AllValid;
    EachValid(m, k);
    ChangeIn(m[k], c);
    OneChanged(m, k);
  }

  lemma FirstChange(t: State, u: State, k: Owner, c: Change)
    requires k !in t && ChangedAt(t[k := NO_RECORDS], u, k, c) && c.Arrive?
    ensures ChangedAt(t, u, k, c)
  {
    hide Changed;
  }

  lemma NoChange(t: State, k: Owner, c: Change)
    requires k !in t && !c.Arrive?
    ensures ChangedAt(t, t, k, c)
  {
  }

  method ChangeNew(m: Histories<Usage>, k: Owner, c: Change, zero: Record<Usage>) returns (n: Histories<Usage>)
    requires AllValid(m) && k !in m && c.Arrive? && Keeping(m, EVERYTHING)
    modifies Objects(m)
    ensures forall o | o in Objects(n) && o !in old(Objects(m)) :: fresh(o)
    ensures AllValid(n) && Keeping(n, EVERYTHING) && ChangedAt(old(Table(m)), Table(n), k, c)
  {
    hide ModelHistory.Valid, ModelHistory.Repr, PartsOf, AllValid, Table, Objects, Roots, ChangedAt;
    TableKeys(m);
    EverythingKept([]);
    n := Create(m, k, zero, EVERYTHING);
    EachValid(n, k);
    ChangeOne(n, k, c);
    FirstChange(old(Table(m)), Table(n), k, c);
  }

  method ChangeAt(m: Histories<Usage>, k: Owner, c: Change, zero: Record<Usage>) returns (n: Histories<Usage>)
    requires AllValid(m) && Keeping(m, EVERYTHING)
    modifies Objects(m)
    ensures forall o | o in Objects(n) && o !in old(Objects(m)) :: fresh(o)
    ensures AllValid(n) && Keeping(n, EVERYTHING) && ChangedAt(old(Table(m)), Table(n), k, c)
  {
    hide ModelHistory.Valid, ModelHistory.Repr, PartsOf, AllValid, Table, Objects, Roots, ChangedAt;
    n := m;
    TableKeys(m);
    if k in m {
      EachValid(m, k);
      ChangeOne(m, k, c);
    } else if c.Arrive? {
      n := ChangeNew(m, k, c, zero);
    } else {
      NoChange(Table(m), k, c);
    }
  }

  method ExpireOne(m: Histories<Usage>, k: Owner, cutoff: int)
    requires AllValid(m) && k in m
    modifies m[k].Repr()
    ensures forall o | o in Objects(m) && o !in old(Objects(m)) :: fresh(o)
    ensures AllValid(m)
    ensures Table(m) == old(Table(m))[k := Expired(old(Table(m))[k], cutoff)]
  {
    hide ModelHistory.Valid, ModelHistory.Repr, PartsOf, Expired, Objects, Roots, AllValid;
    EachValid(m, k);
    ExpireIn(m[k], cutoff);
    OneChanged(m, k);
  }

  method ExpireAll(m: Histories<Usage>, cutoff: int)
    requires AllValid(m)
    modifies Objects(m)
    ensures forall o | o in Objects(m) && o !in old(Objects(m)) :: fresh(o)
    ensures AllValid(m)
    ensures Table(m) == ExpiredIn(old(Table(m)), m.Keys, cutoff)
  {
    hide ModelHistory.Valid, ModelHistory.Repr, PartsOf, AllValid, Table, Objects, Roots, Expired;
    TableKeys(m);
    var rest := m.Keys;
    while rest != {}
      invariant forall o | o in Objects(m) && o !in old(Objects(m)) :: fresh(o)
      invariant rest <= m.Keys && AllValid(m)
      invariant Table(m) == ExpiredIn(old(Table(m)), m.Keys - rest, cutoff)
      decreases rest
    {
      var k :| k in rest;
      EachValid(m, k);
      ExpireOne(m, k, cutoff);
      rest := rest - {k};
    }
  }

  lemma SummariesApart(h: ModelHistory<Usage>, cache: RangeAggregateCache)
    ensures cache !in h.Repr() && forall a: Accumulator :: a !in h.Repr()
  {
  }

  /** Accumulators and the cache are no part of a history. */
  lemma CacheApart(m: Histories<Usage>, cache: RangeAggregateCache)
    ensures cache !in Objects(m) && cache.Aggregates() !! Objects(m) && forall a: Accumulator :: a !in Objects(m)
  {
    hide ModelHistory.Repr;
    forall k | k in m ensures cache !in m[k].Repr() && forall a: Accumulator :: a !in m[k].Repr() {
      SummariesApart(m[k], cache);
    }
  }

  method VisitOne(result: Accumulator, cache: RangeAggregateCache, m: Histories<Usage>, k: Owner, cutoff: int, client: string)
    requires AllValid(m) && k in m && cache.Valid() && result !in cache.Aggregates()
    modifies result, cache, m[k].Repr()
    ensures forall o | o in Objects(m) && o !in old(Objects(m)) :: fresh(o)
    ensures AllValid(m) && Table(m) == old(Table(m))
    ensures cache.Valid() && result !in cache.Aggregates()
    ensures forall a | a in cache.Aggregates() && a !in old(cache.Aggregates()) :: fresh(a)
    ensures result.Value()
         == Scan(old(result.Value()), k.api, k.model, old(Table(m))[k].All(), cutoff, cache.parse(client))
  {
    hide ModelHistory.Valid, ModelHistory.Repr, PartsOf, Objects, Roots, AllValid, Scan, Accumulator.Value,
         RangeAggregateCache.Valid;
    EachValid(m, k);
    CacheApart(m, cache);
    VisitModel(result, cache, m[k], cutoff, client, k);
    OneChanged(m, k);
  }

  lemma ScanNext(t: State, order: seq<Owner>, k: Owner, cutoff: int, who: Selector)
    requires k in t && InTable(order, t)
    ensures ScanModels(EMPTY, t, order + [k], cutoff, who)
         == Scan(ScanModels(EMPTY, t, order, cutoff, who), k.api, k.model, t[k].All(), cutoff, who)
  {
    assert (order + [k])[..|order|] == order;
  }

  lemma VisitsNext(order: seq<Owner>, models: set<Owner>, k: Owner)
    requires Visits(order, models) && k !in models
    ensures Visits(order + [k], models + {k})
  {
    assert (order + [k])[|order|] == k;
    forall l | l in models ensures l in order + [k] {
      assert l in order;
    }
  }

  /** The loop over all models, in no particular order, into one result and through one cache. */
  method VisitAll(result: Accumulator, cache: RangeAggregateCache, m: Histories<Usage>, cutoff: int, client: string)
      returns (ghost order: seq<Owner>)
    requires AllValid(m) && cache.Valid() && result !in cache.Aggregates() && result.Value() == EMPTY
    modifies result, cache, Objects(m)
    ensures AllValid(m) && Table(m) == old(Table(m)) && cache.Valid()
    ensures forall o | o in Objects(m) && o !in old(Objects(m)) :: fresh(o)
    ensures Visits(order, old(Table(m)).Keys)
    ensures result.Value() == ScanModels(EMPTY, old(Table(m)), order, cutoff, cache.parse(client))
  {
    hide AllValid, Table, Objects, Roots, Scan, ScanModels, Visits, Accumulator.Value, RangeAggregateCache.Valid,
         ModelHistory.Valid, ModelHistory.Repr, EMPTY;
    TableKeys(m);
    NoVisits(Table(m), cutoff, cache.parse(client));
    order := [];
    var rest := m.Keys;
    assert m.Keys - rest == {};
    while rest != {}
      invariant rest <= m.Keys && AllValid(m) && Table(m) == old(Table(m))
      invariant cache.Valid() && result !in cache.Aggregates()
      invariant forall o | o in Objects(m) && o !in old(Objects(m)) :: fresh(o)
      invariant Visits(order, m.Keys - rest) && InTable(order, old(Table(m)))
      invariant result.Value() == ScanModels(EMPTY, old(Table(m)), order, cutoff, cache.parse(client))
      decreases rest
    {
      var k :| k in rest;
      EachValid(m, k);
      VisitOne(result, cache, m, k, cutoff, client);
      ScanNext(old(Table(m)), order, k, cutoff, cache.parse(client));
      VisitsNext(order, m.Keys - rest, k);
      assert m.Keys - rest + {k} == m.Keys - (rest - {k});
      order := order + [k];
      rest := rest - {k};
    }
    assert m.Keys - rest == m.Keys;
  }

  ghost predicate InTable(order: seq<Owner>, t: State) {
    forall i | 0 <= i < |order| :: order[i] in t
  }

  lemma NoVisits(t: State, cutoff: int, who: Selector)
    ensures Visits([], {}) && InTable([], t) && ScanModels(EMPTY, t, [], cutoff, who) == EMPTY
  {
  }

  /** A range summary over all models: what one scan of all their records gives, whatever is cached. */
  method Summarize(m: Histories<Usage>, cache: RangeAggregateCache, cutoff: int, client: string, priceVersion: int)
      returns (answer: Summary, ghost order: seq<Owner>)
    requires AllValid(m) && cache.Valid()
    modifies cache, Objects(m)
    ensures AllValid(m) && Table(m) == old(Table(m)) && cache.Valid()
    ensures forall o | o in Objects(m) && o !in old(Objects(m)) :: fresh(o)
    ensures Visits(order, old(Table(m)).Keys) && answer == ScanModels(EMPTY, old(Table(m)), order, cutoff, cache.parse(client))
    ensures SummaryRight(answer, PickedAll(old(Table(m)), order, cutoff, cache.parse(client)))
  {
    hide AllValid, Table, Objects, Roots, Scan, ScanModels, Visits, Accumulator.Value, RangeAggregateCache.Valid,
         ModelHistory.Valid, ModelHistory.Repr, EMPTY, SummaryRight, PickedAll;
    CacheApart(m, cache);
    RootsIn(m);
    PartsAllocated(m);
    cache.Start(priceVersion);
    var result := new Accumulator();
    order := VisitAll(result, cache, m, cutoff, client);
    answer := result.Value();
    VisitsAreThere(order, old(Table(m)));
    ScanModelsIsRight(old(Table(m)), order, cutoff, cache.parse(client));
  }

  lemma VisitsAreThere(order: seq<Owner>, t: State)
    requires Visits(order, t.Keys)
    ensures InTable(order, t)
  {
  }

  // ----- runs -----

  /** The histories of all models and the cache that answers about them. */
  class TrackedHistories {
    var models: Histories<Usage>
    const cache: RangeAggregateCache
    const zero: Record<Usage>

    ghost function Repr(): set<object>
      reads this, Roots(models)
    {
      {this, cache} + Objects(models)
    }

    ghost predicate Ready()
      reads this, cache, cache.Aggregates(), Roots(models), Objects(models)
    {
      AllValid(models) && Keeping(models, EVERYTHING) && cache.Valid() && this !in Objects(models)
    }

    ghost function Records(): State
      requires Ready()
      reads this, cache, cache.Aggregates(), Roots(models), Objects(models)
    {
      Table(models)
    }

    constructor (zero: Record<Usage>, parse: string -> Selector, sizeOf: Summary -> nat)
      ensures Ready() && Records() == map[] && fresh(Repr()) && cache.parse == parse
    {
      this.zero := zero;
      models := map[];
      cache := new RangeAggregateCache(parse, sizeOf);
    }

    method Change(k: Owner, c: Change)
      requires Ready()
      modifies Repr()
      ensures Ready() && ChangedAt(old(Records()), Records(), k, c)
      ensures forall o | o in Repr() && o !in old(Repr()) :: fresh(o)
    {
      hide AllValid, Table, Objects, Roots, ChangedAt, RangeAggregateCache.Valid;
      CacheApart(models, cache);
      RootsIn(models);
      var n := ChangeAt(models, k, c, zero);
      RootsIn(n);
      assert this !in Objects(n);
      models := n;
    }

    method Expire(cutoff: int)
      requires Ready()
      modifies Repr()
      ensures Ready() && Records() == ExpiredIn(old(Records()), old(Records()).Keys, cutoff)
      ensures forall o | o in Repr() && o !in old(Repr()) :: fresh(o)
    {
      hide AllValid, Table, Objects, Roots, ExpiredIn, RangeAggregateCache.Valid;
      CacheApart(models, cache);
      RootsIn(models);
      TableKeys(models);
      ExpireAll(models, cutoff);
    }

    method Answering(cutoff: int, client: string, priceVersion: int) returns (answer: Summary, ghost order: seq<Owner>)
      requires Ready()
      modifies Repr()
      ensures Ready() && Records() == old(Records())
      ensures forall o | o in Repr() && o !in old(Repr()) :: fresh(o)
      ensures Visits(order, Records().Keys) && answer == ScanModels(EMPTY, Records(), order, cutoff, cache.parse(client))
      ensures SummaryRight(answer, PickedAll(Records(), order, cutoff, cache.parse(client)))
    {
      hide AllValid, Table, Objects, Roots, ScanModels, Visits, EMPTY, RangeAggregateCache.Valid, SummaryRight, PickedAll;
      CacheApart(models, cache);
      RootsIn(models);
      answer, order := Summarize(models, cache, cutoff, client, priceVersion);
    }

    /** A query gets what a plain scan of all records of all models would give, in some order of models: the
        counts of just the records that it is about. */
    ghost predicate Answers(e: Event, t: State, answer: Option<Summary>) {
      e.Query? ==> exists order ::
        && Visits(order, t.Keys) && answer == Some(ScanModels(EMPTY, t, order, e.cutoff, cache.parse(e.client)))
        && SummaryRight(answer.value, PickedAll(t, order, e.cutoff, cache.parse(e.client)))
    }

    method Handle(e: Event) returns (answer: Option<Summary>)
      requires Ready()
      modifies Repr()
      ensures Ready() && Next(old(Records()), Records(), e) && Answers(e, old(Records()), answer)
      ensures forall o | o in Repr() && o !in old(Repr()) :: fresh(o)
    {
      hide TrackedHistories.Ready, TrackedHistories.Records, TrackedHistories.Repr, ChangedAt, ExpiredIn, ScanModels, Visits,
           SummaryRight, PickedAll;
      answer := None;
      match e {
        case At(k, c) => Change(k, c);
        case Expire(cutoff) => Expire(cutoff);
        case Query(cutoff, client, priceVersion) =>
          var summary, _ := Answering(cutoff, client, priceVersion);
          answer := Some(summary);
      }
    }

    /** Each event leads from one state to the next, and each query is answered in its state. */
    ghost predicate Trace(events: seq<Event>, states: seq<State>, answers: seq<Option<Summary>>) {
      |answers| <= |events| && |states| == |answers| + 1
      && forall i | 0 <= i < |answers| ::
           Next(states[i], states[i + 1], events[i]) && Answers(events[i], states[i], answers[i])
    }

    lemma TraceGrows(events: seq<Event>, states: seq<State>, answers: seq<Option<Summary>>, t: State,
                     answer: Option<Summary>)
      requires Trace(events, states, answers) && |answers| < |events|
      requires Next(states[|answers|], t, events[|answers|]) && Answers(events[|answers|], states[|answers|], answer)
      ensures Trace(events, states + [t], answers + [answer])
    {
      hide Next, TrackedHistories.Answers;
    }

    /** In every state that a run reaches, a range query answers what a plain scan of the records that all
        models then hold would. */
    method Run(events: seq<Event>) returns (answers: seq<Option<Summary>>, ghost states: seq<State>)
      requires Ready()
      modifies Repr()
      ensures Ready() && forall o | o in Repr() && o !in old(Repr()) :: fresh(o)
      ensures |answers| == |events| && Trace(events, states, answers)
      ensures states[0] == old(Records()) && states[|events|] == Records()
    {
      hide TrackedHistories.Ready, TrackedHistories.Records, TrackedHistories.Repr, TrackedHistories.Answers, Next;
      answers, states := [], [Records()];
      var n := 0;
      while n < |events|
        invariant n == |answers| <= |events| && Ready()
        invariant forall o | o in Repr() && o !in old(Repr()) :: fresh(o)
        invariant Trace(events, states, answers) && states[0] == old(Records()) && states[n] == Records()
      {
        hide TrackedHistories.Trace;
        var answer := Handle(events[n]);
        TraceGrows(events, states, answers, Records(), answer);
        answers, states := answers + [answer], states + [Records()];
        n := n + 1;
      }
    }
  }
}
