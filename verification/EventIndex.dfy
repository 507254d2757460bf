/** Cached indexes of the visible events, newest first. An index is not rebuilt when a record arrives or is
    evicted: dead references are dropped and the arrivals merged in when it is next asked for. */
module EventIndex {
  import opened Sequences
  import opened BlockList
  import opened StableOrder

  const PENDING_MAX := 4096
  const MAX_KEYS := 32
  const UNKNOWN_SOURCE := "\U{672A}\U{77E5}\U{6765}\U{6E90}"

  /** A reference to an event. Where it leads, and whether its record is still visible, is in `Details`. */
  datatype Event = Event(api: string, model: string, sequence: int)

  datatype Detail = Detail(time: int, model: string, source: string, auth: string)

  type Details = map<Event, Detail>

  datatype Key = AllEvents | OfApi(name: string) | OfModel(name: string) | OfSource(name: string) | OfAuth(name: string)

  predicate Matches(key: Key, e: Event, d: Detail) {
    match key
    case AllEvents => true
    case OfApi(name) => e.api == name
    case OfModel(name) => (if d.model != "" then d.model else e.model) == name
    case OfSource(name) => (if d.source != "" then d.source else UNKNOWN_SOURCE) == name
    case OfAuth(name) => d.auth == name
  }

  /** Later events come first; then the API, the model and the number decide. */
  function Rank(details: Details, e: Event): Order {
    Order(if e in details then -details[e].time else 0, 0, e.api, e.model, "", "", "", e.sequence)
  }

  function Ranks(details: Details, members: set<Event>): map<Event, Order> {
    map e | e in members :: Rank(details, e)
  }

  /** The events that an index is to list. */
  function Wanted(details: Details, key: Key): set<Event> {
    set e | e in details && Matches(key, e, details[e])
  }

  /** What an index must be: the sorted list of the visible events that match its key. */
  ghost predicate Right(events: seq<Event>, details: Details, key: Key) {
    Lists(events, Wanted(details, key)) && Sorted(events, Ranks(details, Wanted(details, key)))
  }

  /** Of two records of one time the one with the lesser API comes first, then that with the lesser model,
      then that with the lesser number. */
  ghost predicate NameAndNumberBefore(a: Event, b: Event) {
    || StringLess(a.api, b.api)
    || (a.api == b.api && (StringLess(a.model, b.model) || (a.model == b.model && a.sequence < b.sequence)))
  }

  lemma RankBefore(details: Details, a: Event, b: Event)
    requires a in details && b in details && Rank(details, a).Less(Rank(details, b))
    ensures details[a].time >= details[b].time && (details[a].time == details[b].time ==> NameAndNumberBefore(a, b))
  {
    var s, t := Rank(details, a).Labels(), Rank(details, b).Labels();
    if details[a].time == details[b].time {
      EarlierIsLess(Rank(details, a), Rank(details, b));
      if k: nat :| LabelDecides(s, t, k) {
        assert k > 0 ==> s[..k][0] == t[..k][0];
        assert k > 1 ==> s[..k][1] == t[..k][1];
        StringTrichotomy("", "");
      } else {
        assert s[0] == t[0] && s[1] == t[1];
      }
    }
  }

  /** An index lists just the visible events of its key, and a later one is never newer. */
  lemma NewestFirst(events: seq<Event>, details: Details, key: Key)
    requires Right(events, details, key)
    ensures forall e :: e in events <==> e in details && match key
      case AllEvents => true
      case OfApi(name) => name == e.api
      case OfModel(name) => details[e].model == name != "" || (details[e].model == "" && name == e.model)
      case OfSource(name) => details[e].source == name != "" || (details[e].source == "" && name == "\U{672A}\U{77E5}\U{6765}\U{6E90}")
      case OfAuth(name) => name == details[e].auth
    ensures forall i, j | 0 <= i < j < |events| ::
      && details[events[i]].time >= details[events[j]].time
      && (details[events[i]].time == details[events[j]].time ==> NameAndNumberBefore(events[i], events[j]))
  {
    var orders := Ranks(details, Wanted(details, key));
    forall i, j | 0 <= i < j < |events|
      ensures details[events[i]].time >= details[events[j]].time
      ensures details[events[i]].time == details[events[j]].time ==> NameAndNumberBefore(events[i], events[j])
    {
      assert events[i] in Wanted(details, key) && events[j] in Wanted(details, key);
      Trichotomy(orders[events[i]], orders[events[j]]);
      hide Order.Less;
      RankBefore(details, events[i], events[j]);
    }
  }

  /** There is just one such list. */
  lemma RightIsUnique(a: seq<Event>, b: seq<Event>, details: Details, key: Key)
    requires Right(a, details, key) && Right(b, details, key)
    ensures a == b
  {
    var orders := Ranks(details, Wanted(details, key));
    forall x, y | x in Wanted(details, key) && y in Wanted(details, key) && x != y ensures orders[x] != orders[y] {
    }
    SortedUnique(a, b, Wanted(details, key), orders);
  }

  // ----- merging two sorted lists from the back -----

  ghost predicate Before(orders: map<Event, Order>, a: Event, b: Event) {
    a in orders && b in orders && orders[a].Less(orders[b])
  }

  /** The list that the backward merge leaves. */
  ghost function Merge(s: seq<Event>, t: seq<Event>, orders: map<Event, Order>): (m: seq<Event>)
    ensures |m| == |s| + |t|
  {
    if t == [] then s
    else if s != [] && Before(orders, t[|t| - 1], s[|s| - 1]) then Merge(s[..|s| - 1], t, orders) + [s[|s| - 1]]
    else Merge(s, t[..|t| - 1], orders) + [t[|t| - 1]]
  }

  lemma Grown(s: seq<Event>)
    requires s != []
    ensures multiset(s) == multiset(s[..|s| - 1]) + multiset{s[|s| - 1]}
  {
    assert s == s[..|s| - 1] + [s[|s| - 1]];
  }

  lemma {:induction false} MergeMembers(s: seq<Event>, t: seq<Event>, orders: map<Event, Order>)
    ensures multiset(Merge(s, t, orders)) == multiset(s) + multiset(t)
  {
    if t != [] {
      Grown(t);
      var m := Merge(s, t, orders);
      if s != [] && Before(orders, t[|t| - 1], s[|s| - 1]) {
        MergeMembers(s[..|s| - 1], t, orders);
        Grown(s);
        assert m == Merge(s[..|s| - 1], t, orders) + [s[|s| - 1]];
      } else {
        MergeMembers(s, t[..|t| - 1], orders);
        assert m == Merge(s, t[..|t| - 1], orders) + [t[|t| - 1]];
      }
    }
  }

  ghost predicate Ordered(s: seq<Event>, orders: map<Event, Order>) {
    (forall i {:trigger s[i]} | 0 <= i < |s| :: s[i] in orders) && Sorted(s, orders)
  }

  ghost predicate Above(x: Event, s: seq<Event>, orders: map<Event, Order>) {
    x in orders && forall i {:trigger s[i]} | 0 <= i < |s| :: s[i] in orders && !orders[x].Less(orders[s[i]])
  }

  lemma {:induction false} MergeOrdered(s: seq<Event>, t: seq<Event>, orders: map<Event, Order>)
    requires Ordered(s, orders) && Ordered(t, orders)
    ensures Ordered(Merge(s, t, orders), orders)
  {
    if t == [] {
    } else if s != [] && Before(orders, t[|t| - 1], s[|s| - 1]) {
      MergeOrdered(s[..|s| - 1], t, orders);
      LastAbove(s, t, orders);
      MergeAbove(s[|s| - 1], s[..|s| - 1], t, orders);
    } else {
      MergeOrdered(s, t[..|t| - 1], orders);
      if s != [] {
        LastIsAbove(s, t[|t| - 1], orders);
      }
      MergeAbove(t[|t| - 1], s, t[..|t| - 1], orders);
    }
  }

  /** If the last of `t` comes before the last of `s`, so do all of `t`. */
  lemma LastAbove(s: seq<Event>, t: seq<Event>, orders: map<Event, Order>)
    requires Ordered(s, orders) && Ordered(t, orders) && s != [] && t != [] && Before(orders, t[|t| - 1], s[|s| - 1])
    ensures Above(s[|s| - 1], t, orders)
  {
    var x, y := s[|s| - 1], t[|t| - 1];
    forall i {:trigger t[i]} | 0 <= i < |t| ensures !orders[x].Less(orders[t[i]]) {
      if orders[x].Less(orders[t[i]]) {
        Transitive(orders[y], orders[x], orders[t[i]]);
        Trichotomy(orders[y], orders[y]);
      }
    }
  }

  lemma LastIsAbove(s: seq<Event>, x: Event, orders: map<Event, Order>)
    requires Ordered(s, orders) && s != [] && x in orders && !Before(orders, x, s[|s| - 1])
    ensures Above(x, s, orders)
  {
    var y := s[|s| - 1];
    forall i {:trigger s[i]} | 0 <= i < |s| ensures !orders[x].Less(orders[s[i]]) {
      if orders[x].Less(orders[s[i]]) {
        Trichotomy(orders[x], orders[y]);
        if orders[x] != orders[y] {
          Transitive(orders[y], orders[x], orders[s[i]]);
        }
        Trichotomy(orders[y], orders[y]);
      }
    }
  }

  lemma MergeAbove(x: Event, s: seq<Event>, t: seq<Event>, orders: map<Event, Order>)
    requires Above(x, s, orders) && Above(x, t, orders)
    ensures Above(x, Merge(s, t, orders), orders)
  {
    MergeMembers(s, t, orders);
    var m := Merge(s, t, orders);
    forall i {:trigger m[i]} | 0 <= i < |m| ensures m[i] in orders && !orders[x].Less(orders[m[i]]) {
      assert m[i] in multiset(m);
      assert m[i] in multiset(s) || m[i] in multiset(t);
    }
  }

  lemma {:induction false} ListsCounts(s: seq<Event>, members: set<Event>)
    requires Lists(s, members)
    ensures multiset(s) == multiset(members)
    decreases |s|
  {
    if s == [] {
      assert members == {};
    } else {
      TailLists(s, members);
      ListsCounts(s[1..], members - {s[0]});
      assert s == [s[0]] + s[1..] && s[0] in members;
    }
  }

  lemma CountsList(s: seq<Event>, members: set<Event>)
    requires multiset(s) == multiset(members)
    ensures Lists(s, members)
  {
    forall i {:trigger s[i]} | 0 <= i < |s| ensures s[i] in members {
      assert s[i] in multiset(s);
    }
    forall x | x in members ensures x in s {
      assert x in multiset(s);
    }
    forall i, j | 0 <= i < j < |s| ensures s[i] != s[j] {
      Twice(s, i, j);
    }
  }

  lemma Twice(s: seq<Event>, i: nat, j: nat)
    requires i < j < |s|
    ensures s[i] == s[j] ==> multiset(s)[s[i]] >= 2
  {
    assert s == s[..i] + [s[i]] + s[i + 1..j] + [s[j]] + s[j + 1..];
  }

  lemma MergeLists(s: seq<Event>, a: set<Event>, t: seq<Event>, b: set<Event>, orders: map<Event, Order>)
    requires Lists(s, a) && Lists(t, b) && a !! b
    ensures Lists(Merge(s, t, orders), a + b)
  {
    ListsCounts(s, a);
    ListsCounts(t, b);
    MergeMembers(s, t, orders);
    CountsList(Merge(s, t, orders), a + b);
  }

  /** Merges `added` into the first `n` events of the array, from the back, in place. */
  method MergeBackward(a: array<Event>, n: nat, added: seq<Event>, orders: map<Event, Order>)
    requires a.Length == n + |added|
    requires forall i {:trigger a[i]} | 0 <= i < n :: a[i] in orders
    requires forall i {:trigger added[i]} | 0 <= i < |added| :: added[i] in orders
    modifies a
    ensures a[..] == Merge(old(a[..n]), added, orders)
  {
    hide Merge;
    ghost var s, m := a[..n], Merge(a[..n], added, orders);
    var i, j := n, |added|;
    assert s[..i] == s && added[..j] == added && m[..i + j] == m;
    while j > 0
      invariant 0 <= i <= n && 0 <= j <= |added| && m[..i + j] == Merge(s[..i], added[..j], orders)
      invariant forall k | 0 <= k < i :: a[k] == s[k]
      invariant forall k | i + j <= k < a.Length :: a[k] == m[k]
      decreases i + j
    {
      MergeStep(s, i, added, j, orders, m);
      if i > 0 && orders[added[j - 1]].Less(orders[a[i - 1]]) {
        a[i + j - 1] := a[i - 1];
        i := i - 1;
      } else {
        a[i + j - 1] := added[j - 1];
        j := j - 1;
      }
    }
    MergeNone(s[..i], added[..j], orders);
    forall k | 0 <= k < i ensures a[k] == m[k] {
      assert m[..i + j][k] == s[..i][k];
    }
    assert a[..] == m;
  }

  lemma MergeNone(s: seq<Event>, t: seq<Event>, orders: map<Event, Order>)
    requires t == []
    ensures Merge(s, t, orders) == s
  {
  }

  lemma MergeStep(s: seq<Event>, i: nat, t: seq<Event>, j: nat, orders: map<Event, Order>, m: seq<Event>)
    requires i <= |s| && 0 < j <= |t| && i + j <= |m| && m[..i + j] == Merge(s[..i], t[..j], orders)
    ensures if i > 0 && Before(orders, t[j - 1], s[i - 1])
            then m[i + j - 1] == s[i - 1] && m[..i + j - 1] == Merge(s[..i - 1], t[..j], orders)
            else m[i + j - 1] == t[j - 1] && m[..i + j - 1] == Merge(s[..i], t[..j - 1], orders)
  {
    assert t[..j][..j - 1] == t[..j - 1];
    assert i > 0 ==> s[..i][..i - 1] == s[..i - 1];
    assert m[..i + j - 1] == m[..i + j][..i + j - 1] && m[i + j - 1] == m[..i + j][i + j - 1];
  }

  // ----- filtering a sorted list -----

  lemma {:induction false} FilterMembers(s: seq<Event>, keep: Event -> bool)
    ensures forall e :: e in Filter(s, keep) <==> e in s && keep(e)
  {
    if s != [] {
      FilterMembers(s[..|s| - 1], keep);
      assert s == s[..|s| - 1] + [s[|s| - 1]];
    }
  }

  lemma {:induction false} FilterDistinct(s: seq<Event>, keep: Event -> bool)
    requires Distinct(s)
    ensures Distinct(Filter(s, keep))
  {
    if s != [] {
      var front := s[..|s| - 1];
      FilterDistinct(front, keep);
      FilterMembers(front, keep);
      var f, g := Filter(front, keep), Filter(s, keep);
      forall i, j | 0 <= i < j < |g| ensures g[i] != g[j] {
        if j == |f| {
          assert g[i] == f[i] && f[i] in front;
          var k :| 0 <= k < |front| && front[k] == f[i];
          assert s[k] != s[|s| - 1];
        } else {
          assert g[i] == f[i] && g[j] == f[j];
        }
      }
    }
  }

  lemma FilterLists(s: seq<Event>, members: set<Event>, keep: Event -> bool)
    requires Lists(s, members)
    ensures Lists(Filter(s, keep), set e | e in members && keep(e))
  {
    FilterMembers(s, keep);
    FilterDistinct(s, keep);
    var f, kept := Filter(s, keep), set e | e in members && keep(e);
    forall i {:trigger f[i]} | 0 <= i < |f| ensures f[i] in kept {
      assert f[i] in f;
    }
    forall x | x in kept ensures x in f {
      assert x in s;
    }
    assert Distinct(f);
  }

  lemma {:induction false} FilterOrdered(s: seq<Event>, orders: map<Event, Order>, keep: Event -> bool)
    requires Ordered(s, orders)
    ensures Ordered(Filter(s, keep), orders)
  {
    if s != [] {
      var last := s[|s| - 1];
      FilterOrdered(s[..|s| - 1], orders, keep);
      FilterMembers(s[..|s| - 1], keep);
      var f := Filter(s[..|s| - 1], keep);
      forall i | 0 <= i < |f| ensures !orders[last].Less(orders[f[i]]) {
        assert f[i] in s[..|s| - 1];
      }
    }
  }

  lemma {:induction false} FilterTwice(s: seq<Event>, keep: Event -> bool, keepMore: Event -> bool)
    requires forall e | e in s && keepMore(e) :: keep(e)
    ensures Filter(Filter(s, keep), keepMore) == Filter(s, keepMore)
  {
    if s != [] {
      var last := s[|s| - 1];
      var front := s[..|s| - 1];
      assert last in s && forall e | e in front :: e in s;
      FilterTwice(front, keep, keepMore);
      var f := Filter(front, keep);
      if keep(last) {
        assert Filter(s, keep) == f + [last] && (f + [last])[..|f + [last]| - 1] == f;
      } else {
        assert Filter(s, keep) == f && !keepMore(last);
      }
    }
  }

  lemma {:induction false} FilterAlike(s: seq<Event>, keep: Event -> bool, same: Event -> bool)
    requires forall e | e in s :: keep(e) == same(e)
    ensures Filter(s, keep) == Filter(s, same)
  {
    if s != [] {
      assert s[|s| - 1] in s && forall e | e in s[..|s| - 1] :: e in s;
      FilterAlike(s[..|s| - 1], keep, same);
    }
  }

  // ----- bringing an index up to date -----

  function Visible(details: Details): Event -> bool {
    e => e in details
  }

  function Arrived(details: Details, key: Key): Event -> bool {
    e => e in details && Matches(key, e, details[e])
  }

  function AllRanks(details: Details, events: set<Event>): map<Event, Order> {
    Ranks(details, details.Keys + events)
  }

  function Members(s: seq<Event>): set<Event> {
    set e | e in s
  }

  /** An index that lacks nothing but what is pending, and has dead references at most. */
  ghost predicate Stale(events: seq<Event>, pending: seq<Event>, details: Details, key: Key) {
    && Lists(Filter(events, Visible(details)), Wanted(details, key) - Members(pending))
    && Ordered(Filter(events, Visible(details)), AllRanks(details, {}))
  }

  method KeepIf(s: seq<Event>, keep: Event -> bool) returns (kept: seq<Event>)
    ensures kept == Filter(s, keep)
  {
    kept := [];
    var i := 0;
    while i < |s|
      invariant 0 <= i <= |s| && kept == Filter(s[..i], keep)
    {
      assert s[..i + 1][..i] == s[..i];
      if keep(s[i]) {
        kept := kept + [s[i]];
      }
      i := i + 1;
    }
    assert s[..i] == s;
  }

  lemma OrderedElsewhere(s: seq<Event>, orders: map<Event, Order>, others: map<Event, Order>)
    requires Ordered(s, orders) && forall e | e in s :: e in others && others[e] == orders[e]
    ensures Ordered(s, others)
  {
    forall i {:trigger s[i]} | 0 <= i < |s| ensures s[i] in others && others[s[i]] == orders[s[i]] {
      assert s[i] in s;
    }
  }

  lemma MergedIsRight(kept: seq<Event>, added: seq<Event>, pending: set<Event>, details: Details, key: Key)
    requires Lists(kept, Wanted(details, key) - pending) && Ordered(kept, AllRanks(details, {}))
    requires Lists(added, Wanted(details, key) * pending) && Ordered(added, AllRanks(details, {}))
    ensures Right(Merge(kept, added, AllRanks(details, {})), details, key)
  {
    var orders, merged := AllRanks(details, {}), Merge(kept, added, AllRanks(details, {}));
    MergeLists(kept, Wanted(details, key) - pending, added, Wanted(details, key) * pending, orders);
    assert Wanted(details, key) - pending + Wanted(details, key) * pending == Wanted(details, key);
    MergeOrdered(kept, added, orders);
    OrderedElsewhere(merged, orders, Ranks(details, Wanted(details, key)));
  }

  /** Drops the dead references of an index and merges in the pending events that match. */
  method MergeIndex(events: seq<Event>, pending: seq<Event>, details: Details, key: Key) returns (merged: seq<Event>)
    requires Stale(events, pending, details, key)
    requires Lists(pending, Members(pending)) && Ordered(pending, AllRanks(details, Members(pending)))
    ensures Right(merged, details, key) && forall e | e in merged :: e in events || e in pending
  {
    hide Lists, Ordered, Merge;
    var kept := KeepIf(events, Visible(details));
    var added := KeepIf(pending, Arrived(details, key));
    AddedFit(pending, details, key);
    var orders := AllRanks(details, {});
    MergedIsRight(kept, added, Members(pending), details, key);
    AllRanked(kept, orders);
    AllRanked(added, orders);
    var all := kept + added;
    var a := new Event[|all|](i requires 0 <= i < |all| => all[i]);
    assert a[..|kept|] == kept;
    MergeBackward(a, |kept|, added, orders);
    merged := a[..];
    FromEither(kept, added, orders);
    FilterMembers(events, Visible(details));
    FilterMembers(pending, Arrived(details, key));
  }

  lemma FromEither(s: seq<Event>, t: seq<Event>, orders: map<Event, Order>)
    ensures forall e | e in Merge(s, t, orders) :: e in s || e in t
  {
    MergeMembers(s, t, orders);
    forall e | e in Merge(s, t, orders) ensures e in s || e in t {
      assert e in multiset(Merge(s, t, orders));
    }
  }

  lemma AllRanked(s: seq<Event>, orders: map<Event, Order>)
    requires Ordered(s, orders)
    ensures forall i {:trigger s[i]} | 0 <= i < |s| :: s[i] in orders
  {
  }

  lemma AddedFit(pending: seq<Event>, details: Details, key: Key)
    requires Lists(pending, Members(pending)) && Ordered(pending, AllRanks(details, Members(pending)))
    ensures var added := Filter(pending, Arrived(details, key));
            Lists(added, Wanted(details, key) * Members(pending)) && Ordered(added, AllRanks(details, {}))
  {
    var keep := Arrived(details, key);
    FilterLists(pending, Members(pending), keep);
    assert (set e | e in Members(pending) && keep(e)) == Wanted(details, key) * Members(pending);
    FilterOrdered(pending, AllRanks(details, Members(pending)), keep);
    FilterMembers(pending, keep);
    OrderedElsewhere(Filter(pending, keep), AllRanks(details, Members(pending)), AllRanks(details, {}));
  }

  // ----- all indexes -----

  lemma ArrivalKeepsStale(events: seq<Event>, pending: seq<Event>, details: Details, key: Key, e: Event, d: Detail)
    requires Stale(events, pending, details, key) && e !in events && e !in details && e !in pending
    ensures Stale(events, pending + [e], details[e := d], key)
  {
    var now := details[e := d];
    FilterAlike(events, Visible(details), Visible(now));
    FilterMembers(events, Visible(details));
    assert Wanted(now, key) - Members(pending + [e]) == Wanted(details, key) - Members(pending);
    OrderedElsewhere(Filter(events, Visible(now)), AllRanks(details, {}), AllRanks(now, {}));
  }

  lemma EvictionKeepsStale(events: seq<Event>, pending: seq<Event>, details: Details, key: Key, gone: set<Event>)
    requires Stale(events, pending, details, key)
    ensures Stale(events, pending, details - gone, key)
  {
    hide Lists, Ordered, Filter;
    var now := details - gone;
    var kept := Filter(events, Visible(details));
    FilterTwice(events, Visible(details), Visible(now));
    FilterLists(kept, Wanted(details, key) - Members(pending), Visible(now));
    assert (set e | e in Wanted(details, key) - Members(pending) && Visible(now)(e)) == Wanted(now, key) - Members(pending);
    FilterOrdered(kept, AllRanks(details, {}), Visible(now));
    FilterMembers(kept, Visible(now));
    OrderedElsewhere(Filter(events, Visible(now)), AllRanks(details, {}), AllRanks(now, {}));
  }

  lemma RightIsStale(events: seq<Event>, details: Details, key: Key)
    requires Right(events, details, key)
    ensures Stale(events, [], details, key)
  {
    WantedOnly(events, details, key);
    AllKept(events, Visible(details));
    assert Wanted(details, key) - Members([]) == Wanted(details, key);
    OrderedElsewhere(events, Ranks(details, Wanted(details, key)), AllRanks(details, {}));
  }

  lemma WantedOnly(events: seq<Event>, details: Details, key: Key)
    requires Right(events, details, key)
    ensures forall e | e in events :: e in details
  {
  }

  lemma StaleIsRight(events: seq<Event>, details: Details, key: Key)
    requires Stale(events, [], details, key) && forall e | e in events :: e in details
    ensures Right(events, details, key)
  {
    AllKept(events, Visible(details));
    assert Wanted(details, key) - Members([]) == Wanted(details, key);
    OrderedElsewhere(events, AllRanks(details, {}), Ranks(details, Wanted(details, key)));
  }

  lemma {:induction false} AllKept(s: seq<Event>, keep: Event -> bool)
    requires forall e | e in s :: keep(e)
    ensures Filter(s, keep) == s
  {
    if s != [] {
      assert s[|s| - 1] in s && forall e | e in s[..|s| - 1] :: e in s;
      AllKept(s[..|s| - 1], keep);
    }
  }

  predicate FewKeys(indexes: map<Key, seq<Event>>) {
    |indexes.Keys - {AllEvents}| < MAX_KEYS
  }

  lemma NonEmpty(m: map<Key, seq<Event>>, n: map<Key, seq<Event>>)
    requires m.Keys == n.Keys && m != map[]
    ensures n != map[]
  {
    var key :| key in m;
    assert key in n;
  }

  lemma FewKeysIff(indexes: map<Key, seq<Event>>)
    ensures FewKeys(indexes) <==> |set key | key in indexes && key != AllEvents| < 32
  {
    assert indexes.Keys - {AllEvents} == set key | key in indexes && key != AllEvents;
  }

  class EventIndexes {
    // The visible records, as references lead to them.
    var details: Details
    // Events whose record carries a reference; all events ever seen.
    var referenced: set<Event>
    ghost var seen: set<Event>
    var indexes: map<Key, seq<Event>>
    var pending: seq<Event>
    var dirty: bool
    var summaryVersion: nat
    var indexVersion: nat

    ghost predicate Known(s: seq<Event>)
      reads `details, `referenced, `seen
    {
      forall e | e in s :: e in seen && (e in details ==> e in referenced)
    }

    ghost predicate Valid()
      reads this
    {
      && details.Keys <= seen && Known(pending) && Distinct(pending) && |pending| <= PENDING_MAX
      && (forall key | key in indexes :: Known(indexes[key]) && Stale(indexes[key], pending, details, key))
      && (!dirty ==> pending == [] && forall key, e | key in indexes && e in indexes[key] :: e in details)
      && (indexes == map[] ==> pending == [])
      && (indexes != map[] ==> indexVersion == summaryVersion)
    }

    lemma NoneKnown()
      ensures Known([])
    {
    }

    constructor ()
      ensures Valid() && details == map[] && referenced == {} && seen == {}
    {
      details, referenced, seen, indexes, pending, dirty := map[], {}, {}, map[], [], false;
      summaryVersion, indexVersion := 0, 0;
    }

    method Clear()
      modifies this`indexVersion, this`indexes, this`pending, this`dirty
      ensures indexes == map[] && pending == [] && !dirty
    {
      indexVersion, indexes, pending, dirty := 0, map[], [], false;
    }

    /** Responses are stale, but no record moved and no key changed. */
    method InvalidateResponses()
      modifies this`summaryVersion, this`indexVersion
      ensures indexes != map[] && old(indexVersion) == old(summaryVersion) ==> indexVersion == summaryVersion
    {
      summaryVersion := summaryVersion + 1;
      if indexes != map[] {
        indexVersion := summaryVersion;
      }
    }

    lemma ArrivalInAll(e: Event, d: Detail)
      requires Valid() && e !in seen
      ensures forall key | key in indexes :: Stale(indexes[key], pending + [e], details[e := d], key)
    {
      hide Stale;
      forall key | key in indexes ensures Stale(indexes[key], pending + [e], details[e := d], key) {
        ArrivalKeepsStale(indexes[key], pending, details, key, e, d);
      }
    }

    /** A record arrives: it joins the indexes when they are next asked for. */
    method Record(e: Event, d: Detail, overBudget: bool)
      requires Valid() && e !in seen
      modifies this
      ensures Valid() && details == old(details)[e := d] && seen == old(seen) + {e}
      ensures referenced == if old(indexes) == map[] then old(referenced) else old(referenced) + {e}
    {
      hide Stale;
      ArrivalInAll(e, d);
      details, seen := details[e := d], seen + {e};
      if indexes != map[] {
        referenced := referenced + {e};
      }
      InvalidateResponses();
      if indexes == map[] {
        return;
      }
      if |pending| >= PENDING_MAX || overBudget {
        Clear();
        return;
      }
      pending, dirty := pending + [e], true;
    }

    /** Visible records become retained ones. Their references die; the indexes still hold them. */
    method Evict(gone: set<Event>)
      requires Valid()
      modifies this`details, this`dirty
      ensures Valid() && details == old(details) - gone
    {
      hide Stale;
      forall key | key in indexes ensures Stale(indexes[key], pending, details - gone, key) {
        EvictionKeepsStale(indexes[key], pending, details, key, gone);
      }
      if gone * details.Keys * referenced != {} {
        dirty := true;
      }
      if !dirty {
        forall key, e | key in indexes && e in indexes[key] ensures e in details - gone {
          assert e in gone ==> e in gone * details.Keys * referenced;
        }
      }
      details := details - gone;
    }

    /** Removal, expiry and rewriting of records drop all indexes. */
    method Replace(now: Details)
      requires Valid() && now.Keys <= details.Keys
      modifies this`details, this`indexes, this`pending, this`dirty, this`summaryVersion, this`indexVersion
      ensures Valid() && details == now
    {
      InvalidateResponses();
      Clear();
      details := now;
    }

    method MergeOne(key: Key, sorted: seq<Event>)
      requires key in indexes && Known(pending) && Known(indexes[key]) && Stale(indexes[key], pending, details, key)
      requires Members(sorted) == Members(pending) && Lists(sorted, Members(sorted))
      requires Ordered(sorted, AllRanks(details, Members(pending)))
      modifies this`indexes
      ensures key in indexes && indexes == old(indexes)[key := indexes[key]]
      ensures Right(indexes[key], details, key) && Known(indexes[key])
    {
      hide Stale, Right;
      SameStale(indexes[key], pending, sorted, details, key);
      var merged := MergeIndex(indexes[key], sorted, details, key);
      forall e | e in merged ensures e in seen && (e in details ==> e in referenced) {
        assert e in indexes[key] || e in Members(sorted);
      }
      indexes := indexes[key := merged];
    }

    /** The loop over all indexes. */
    method MergePending(sorted: seq<Event>)
      requires Known(pending) && forall key | key in indexes :: Known(indexes[key]) && Stale(indexes[key], pending, details, key)
      requires Members(sorted) == Members(pending) && Lists(sorted, Members(sorted))
      requires Ordered(sorted, AllRanks(details, Members(pending)))
      modifies this`indexes
      ensures indexes.Keys == old(indexes).Keys
      ensures forall key | key in indexes :: Right(indexes[key], details, key) && Known(indexes[key])
    {
      hide Stale, Right, Lists, Ordered, EventIndexes.Known;
      var rest := indexes.Keys;
      while rest != {}
        invariant rest <= indexes.Keys == old(indexes).Keys
        invariant forall key | key in rest :: indexes[key] == old(indexes)[key]
        invariant forall key | key in indexes && key !in rest :: Right(indexes[key], details, key) && Known(indexes[key])
        decreases rest
      {
        var key :| key in rest;
        MergeOne(key, sorted);
        rest := rest - {key};
      }
    }

    method SortAndMerge()
      requires Known(pending) && forall key | key in indexes :: Known(indexes[key]) && Stale(indexes[key], pending, details, key)
      modifies this`indexes
      ensures indexes.Keys == old(indexes).Keys
      ensures forall key | key in indexes :: Right(indexes[key], details, key) && Known(indexes[key])
    {
      hide Stale, Right, Lists, Ordered, Sorted, Members, EventIndexes.Known;
      var sorted := Sort(Members(pending), AllRanks(details, Members(pending)));
      SameMembers(sorted, pending, details);
      MergePending(sorted);
    }

    method Apply(overBudget: bool)
      requires Valid()
      modifies this`indexVersion, this`indexes, this`pending, this`dirty
      ensures Valid() && !dirty
    {
      hide Stale, Right, Lists, Ordered, EventIndexes.Known;
      if !dirty {
        return;
      }
      SortAndMerge();
      forall key | key in indexes
        ensures Stale(indexes[key], [], details, key) && forall e | e in indexes[key] :: e in details
      {
        RightIsStale(indexes[key], details, key);
        WantedOnly(indexes[key], details, key);
      }
      pending, dirty := [], false;
      NoneKnown();
      if indexes != map[] {
        NonEmpty(indexes, old(indexes));
      }
      if overBudget {
        Clear();
        indexVersion := summaryVersion;
      }
    }

    /** The index for a key: the sorted list of all visible events that match, built or brought up to date. */
    method Query(key: Key, overBudget: bool, fits: bool) returns (events: seq<Event>)
      requires Valid()
      modifies this`referenced, this`indexes, this`pending, this`dirty, this`indexVersion
      ensures Valid() && Right(events, details, key) && referenced == old(referenced) + Members(events)
    {
      hide Stale, Right;
      if indexVersion != summaryVersion {
        Clear();
        indexVersion := summaryVersion;
      }
      Apply(overBudget);
      if key in indexes {
        StaleIsRight(indexes[key], details, key);
        assert old(referenced) + Members(indexes[key]) == old(referenced);
        return indexes[key];
      }
      events := Build(key, fits);
    }

    /** A new index is kept if it fits and fewer than 32 keys have one. */
    method Build(key: Key, fits: bool) returns (events: seq<Event>)
      requires Valid() && !dirty && key !in indexes
      modifies this`referenced, this`indexes, this`indexVersion
      ensures Valid() && Right(events, details, key) && referenced == old(referenced) + Members(events)
      ensures indexes == if fits && FewKeys(old(indexes)) then old(indexes)[key := events] else old(indexes)
    {
      hide Stale, Right, Lists, Sorted, Wanted, FewKeys;
      events := Sort(Wanted(details, key), Ranks(details, Wanted(details, key)));
      SortedIsRight(events, details, key);
      referenced := referenced + Wanted(details, key);
      if fits && FewKeys(indexes) {
        RightIsStale(events, details, key);
        indexVersion := summaryVersion;
        indexes := indexes[key := events];
      }
    }
  }

  lemma SameMembers(sorted: seq<Event>, pending: seq<Event>, details: Details)
    requires Lists(sorted, Members(pending)) && Sorted(sorted, AllRanks(details, Members(pending)))
    ensures Members(sorted) == Members(pending) && Lists(sorted, Members(sorted))
    ensures Ordered(sorted, AllRanks(details, Members(pending)))
  {
  }

  lemma SameStale(events: seq<Event>, pending: seq<Event>, sorted: seq<Event>, details: Details, key: Key)
    requires Stale(events, pending, details, key) && Members(sorted) == Members(pending)
    ensures Stale(events, sorted, details, key)
  {
  }

  lemma SortedIsRight(events: seq<Event>, details: Details, key: Key)
    requires Lists(events, Wanted(details, key)) && Sorted(events, Ranks(details, Wanted(details, key)))
    ensures Right(events, details, key) && Members(events) == Wanted(details, key)
    ensures forall e | e in events :: e in Wanted(details, key) && e in details
  {
  }
}
