/** Indexes of usage reports: lists by key, without empty lists, and the choice of the best candidate. */
module OccurrenceIndex {
  import opened Sequences
  import opened Wrappers
  import opened StableOrder

  /** A usage report that was made once. `key` is its fingerprint, and `keys` are its shape keys. */
  datatype Report = Report(id: nat, key: string, keys: seq<string>)

  datatype Occurrence = Occurrence(report: Report, observedAt: int)

  type Index = map<string, seq<Occurrence>>

  datatype Score = Score(strength: int, distance: int)

  function Listed(index: Index, key: string): seq<Occurrence> {
    if key in index then index[key] else []
  }

  /** The index lists each occurrence of `live` once under its fingerprint, and nothing else. */
  ghost predicate ByKey(index: Index, live: set<Occurrence>) {
    && (forall key, o :: o in Listed(index, key) <==> o in live && o.report.key == key)
    && (forall key :: Distinct(Listed(index, key)))
  }

  /** The same for the shape keys. */
  ghost predicate ByKeys(index: Index, live: set<Occurrence>) {
    && (forall key, o :: o in Listed(index, key) <==> o in live && key in o.report.keys)
    && (forall key :: Distinct(Listed(index, key)))
  }

  function Added(index: Index, key: string, o: Occurrence): (r: Index)
    ensures Listed(r, key) == Listed(index, key) + [o]
    ensures forall k | k != key :: Listed(r, k) == Listed(index, k)
  {
    index[key := Listed(index, key) + [o]]
  }

  /** Takes the occurrence out of one list. */
  method RemoveFrom(index: Index, key: string, target: Occurrence) returns (r: Index)
    requires Distinct(Listed(index, key))
    ensures forall k | k != key :: Listed(r, k) == Listed(index, k)
    ensures forall o :: o in Listed(r, key) <==> o in Listed(index, key) && o != target
    ensures Distinct(Listed(r, key))
  {
    r := index;
    var items := Listed(index, key);
    var i := 0;
    while i < |items|
      invariant 0 <= i <= |items| && target !in items[..i]
    {
      if items[i] == target {
        var rest := items[..i] + items[i + 1..];
        forall o ensures o in rest <==> o in items && o != target {
          Without(items, i, o);
        }
        r := if rest == [] then index - {key} else index[key := rest];
        return;
      }
      i := i + 1;
    }
    assert items[..i] == items;
  }

  lemma Without(s: seq<Occurrence>, i: nat, o: Occurrence)
    requires i < |s| && Distinct(s)
    ensures o in s[..i] + s[i + 1..] <==> o in s && o != s[i]
  {
    var t := s[..i] + s[i + 1..];
    if o in s && o != s[i] {
      var j :| 0 <= j < |s| && s[j] == o;
      assert t[if j < i then j else j - 1] == o;
    }
  }

  // ----- one occurrence more or less -----

  lemma AddedByKey(index: Index, live: set<Occurrence>, o: Occurrence)
    requires ByKey(index, live) && o !in live
    ensures ByKey(Added(index, o.report.key, o), live + {o})
  {
    var r := Added(index, o.report.key, o);
    forall key, x ensures x in Listed(r, key) <==> x in live + {o} && x.report.key == key {
      assert x in Listed(index, key) <==> x in live && x.report.key == key;
    }
    assert o !in Listed(index, o.report.key);
  }

  method RemoveByKey(index: Index, o: Occurrence, ghost live: set<Occurrence>) returns (r: Index)
    requires ByKey(index, live)
    ensures ByKey(r, live - {o})
  {
    r := RemoveFrom(index, o.report.key, o);
    forall key, x ensures x in Listed(r, key) <==> x in live - {o} && x.report.key == key {
      assert x in Listed(index, key) <==> x in live && x.report.key == key;
    }
    forall key ensures Distinct(Listed(r, key)) {
      assert Distinct(Listed(index, key));
    }
  }

  /** The first `n` shape keys have the occurrence, the others do not have it yet. */
  ghost predicate PartlyAdded(index: Index, live: set<Occurrence>, o: Occurrence, n: nat)
    requires n <= |o.report.keys|
  {
    && (forall key, x :: x in Listed(index, key) <==>
          (x in live && key in x.report.keys) || (x == o && key in o.report.keys[..n]))
    && (forall key :: Distinct(Listed(index, key)))
  }

  method AddByKeys(index: Index, o: Occurrence, ghost live: set<Occurrence>) returns (r: Index)
    requires ByKeys(index, live) && o !in live && Distinct(o.report.keys)
    ensures ByKeys(r, live + {o})
  {
    r := index;
    var keys, n := o.report.keys, 0;
    while n < |keys|
      invariant 0 <= n <= |keys| && PartlyAdded(r, live, o, n)
    {
      AddOneMore(r, live, o, n);
      r := Added(r, keys[n], o);
      n := n + 1;
    }
    assert keys[..n] == keys;
  }

  lemma AddOneMore(index: Index, live: set<Occurrence>, o: Occurrence, n: nat)
    requires n < |o.report.keys| && Distinct(o.report.keys) && o !in live && PartlyAdded(index, live, o, n)
    ensures PartlyAdded(Added(index, o.report.keys[n], o), live, o, n + 1)
  {
    var keys := o.report.keys;
    var r := Added(index, keys[n], o);
    assert keys[..n + 1] == keys[..n] + [keys[n]];
    assert keys[n] !in keys[..n];
    forall key, x ensures x in Listed(r, key) <==>
        (x in live && key in x.report.keys) || (x == o && key in keys[..n + 1])
    {
      assert x in Listed(index, key) <==> (x in live && key in x.report.keys) || (x == o && key in keys[..n]);
    }
    assert o !in Listed(index, keys[n]);
    forall key ensures Distinct(Listed(r, key)) {
      assert Distinct(Listed(index, key));
    }
  }

  /** The first `n` shape keys have lost the occurrence. */
  ghost predicate PartlyRemoved(index: Index, live: set<Occurrence>, o: Occurrence, n: nat)
    requires n <= |o.report.keys|
  {
    && (forall key, x :: x in Listed(index, key) <==>
          x in live && key in x.report.keys && !(x == o && key in o.report.keys[..n]))
    && (forall key :: Distinct(Listed(index, key)))
  }

  method RemoveByKeys(index: Index, o: Occurrence, ghost live: set<Occurrence>) returns (r: Index)
    requires ByKeys(index, live)
    ensures ByKeys(r, live - {o})
  {
    r := index;
    var keys, n := o.report.keys, 0;
    while n < |keys|
      invariant 0 <= n <= |keys| && PartlyRemoved(r, live, o, n)
    {
      ghost var before := r;
      r := RemoveFrom(r, keys[n], o);
      RemovedOneMore(before, r, live, o, n);
      n := n + 1;
    }
    assert keys[..n] == keys;
  }

  lemma RemovedOneMore(index: Index, r: Index, live: set<Occurrence>, o: Occurrence, n: nat)
    requires n < |o.report.keys| && PartlyRemoved(index, live, o, n)
    requires forall k | k != o.report.keys[n] :: Listed(r, k) == Listed(index, k)
    requires forall x :: x in Listed(r, o.report.keys[n]) <==> x in Listed(index, o.report.keys[n]) && x != o
    requires Distinct(Listed(r, o.report.keys[n]))
    ensures PartlyRemoved(r, live, o, n + 1)
  {
    var keys := o.report.keys;
    assert keys[..n + 1] == keys[..n] + [keys[n]];
    forall key, x ensures x in Listed(r, key) <==>
        x in live && key in x.report.keys && !(x == o && key in keys[..n + 1])
    {
      assert x in Listed(index, key) <==> x in live && key in x.report.keys && !(x == o && key in keys[..n]);
    }
    forall key ensures Distinct(Listed(r, key)) {
      assert Distinct(Listed(index, key));
    }
  }

  // ----- the best candidate -----

  ghost function Members(s: seq<Occurrence>): set<Occurrence> {
    set o | o in s
  }

  predicate Better(a: Score, x: Order, b: Score, y: Order) {
    if a.strength != b.strength then a.strength > b.strength
    else if a.distance != b.distance then a.distance < b.distance
    else x.Less(y)
  }

  /** The first one is stronger; or as strong and closer; or both as much, and the other is not earlier. */
  ghost predicate NotBehind(a: Score, x: Order, b: Score, y: Order) {
    && a.strength >= b.strength
    && (a.strength == b.strength ==> a.distance <= b.distance)
    && (a == b ==> !y.Less(x))
  }

  /** The candidate is one of those looked at, and is behind none of them. */
  ghost predicate Best(chosen: Option<Occurrence>, among: set<Occurrence>, score: Occurrence -> Option<Score>,
                       order: Report -> Order)
  {
    if chosen == None then forall o | o in among :: score(o) == None
    else
      chosen.value in among && score(chosen.value).Some?
      && forall o | o in among && score(o).Some? ::
           NotBehind(score(chosen.value).value, order(chosen.value.report), score(o).value, order(o.report))
  }

  lemma BestOfMore(chosen: Option<Occurrence>, among: set<Occurrence>, o: Occurrence, score: Occurrence -> Option<Score>,
                   order: Report -> Order)
    requires Best(chosen, among, score, order)
    ensures score(o) == None ==> Best(chosen, among + {o}, score, order)
    ensures score(o).Some? && (chosen == None || Better(score(o).value, order(o.report), score(chosen.value).value, order(chosen.value.report)))
            ==> Best(Some(o), among + {o}, score, order)
    ensures score(o).Some? && chosen.Some? && !Better(score(o).value, order(o.report), score(chosen.value).value, order(chosen.value.report))
            ==> Best(chosen, among + {o}, score, order)
  {
    if score(o).Some? {
      Trichotomy(order(o.report), order(o.report));
      if chosen.Some? && Better(score(o).value, order(o.report), score(chosen.value).value, order(chosen.value.report)) {
        var a, c := score(o).value, score(chosen.value).value;
        forall x | x in among && score(x).Some? ensures NotBehind(a, order(o.report), score(x).value, order(x.report)) {
          if score(x).value == a == c && order(x.report).Less(order(o.report)) {
            Transitive(order(x.report), order(o.report), order(chosen.value.report));
          }
        }
      }
    }
  }

  /** Looks at one more list. */
  method BestOf(items: seq<Occurrence>, chosen: Option<Occurrence>, ghost among: set<Occurrence>,
                score: Occurrence -> Option<Score>, order: Report -> Order) returns (best: Option<Occurrence>)
    requires Best(chosen, among, score, order)
    ensures Best(best, among + Members(items), score, order)
  {
    best := chosen;
    ghost var looked := among;
    var i := 0;
    while i < |items|
      invariant 0 <= i <= |items| && looked == among + Members(items[..i]) && Best(best, looked, score, order)
    {
      var o := items[i];
      BestOfMore(best, looked, o, score, order);
      if score(o).Some?
         && (best == None || Better(score(o).value, order(o.report), score(best.value).value, order(best.value.report))) {
        best := Some(o);
      }
      assert items[..i + 1] == items[..i] + [o];
      looked := looked + {o};
      i := i + 1;
    }
    assert items[..i] == items;
  }

  ghost function Sharing(live: set<Occurrence>, keys: seq<string>): set<Occurrence> {
    set o | o in live && exists k :: k in keys && k in o.report.keys
  }

  /** The best of the occurrences that share a shape key. */
  method BestByKeys(index: Index, keys: seq<string>, ghost live: set<Occurrence>, score: Occurrence -> Option<Score>,
                    order: Report -> Order) returns (best: Option<Occurrence>)
    requires ByKeys(index, live)
    ensures Best(best, Sharing(live, keys), score, order)
  {
    best := None;
    ghost var looked: set<Occurrence> := {};
    var n := 0;
    while n < |keys|
      invariant 0 <= n <= |keys| && Best(best, looked, score, order)
      invariant forall o :: o in looked <==> o in live && exists k :: k in keys[..n] && k in o.report.keys
    {
      best := BestOf(Listed(index, keys[n]), best, looked, score, order);
      assert keys[..n + 1] == keys[..n] + [keys[n]];
      ghost var more := looked + Members(Listed(index, keys[n]));
      forall o ensures o in more <==> o in live && exists k :: k in keys[..n + 1] && k in o.report.keys {
        assert o in Listed(index, keys[n]) <==> o in live && keys[n] in o.report.keys;
      }
      looked := more;
      n := n + 1;
    }
    assert keys[..n] == keys;
    assert looked == Sharing(live, keys);
  }

  // ----- expiry -----

  ghost predicate WellKeyed(live: set<Occurrence>) {
    forall o | o in live :: Distinct(o.report.keys)
  }

  ghost function Kept(live: set<Occurrence>, keep: Occurrence -> bool): set<Occurrence> {
    set o | o in live && keep(o)
  }

  lemma KeptSome(live: set<Occurrence>, keep: Occurrence -> bool)
    ensures Kept(live, keep) <= live && (WellKeyed(live) ==> WellKeyed(Kept(live, keep)))
  {
  }

  /** What is kept of one list; the shape keys get it, too. */
  method RetainList(items: seq<Occurrence>, shapes: Index, keep: Occurrence -> bool, ghost done: set<Occurrence>)
      returns (kept: seq<Occurrence>, more: Index, ghost all: set<Occurrence>)
    requires Distinct(items) && ByKeys(shapes, done) && forall o | o in items :: o !in done && Distinct(o.report.keys)
    ensures Distinct(kept) && forall o :: o in kept <==> o in items && keep(o)
    ensures all == done + Members(kept) && ByKeys(more, all)
  {
    kept, more, all := [], shapes, done;
    var i := 0;
    while i < |items|
      invariant 0 <= i <= |items| && Distinct(kept) && forall o :: o in kept <==> o in items[..i] && keep(o)
      invariant all == done + Members(kept) && ByKeys(more, all)
    {
      var o := items[i];
      assert items[..i + 1] == items[..i] + [o] && o !in items[..i] && o in items;
      if keep(o) {
        more := AddByKeys(more, o, all);
        kept, all := kept + [o], all + {o};
      }
      i := i + 1;
    }
    assert items[..i] == items;
  }

  /** The lists outside `rest` have been filtered, and `done` holds what is left of them. */
  ghost predicate PartlyKept(index: Index, kept: Index, done: set<Occurrence>, live: set<Occurrence>,
                             keep: Occurrence -> bool, rest: set<string>)
  {
    && (forall o :: o in done <==> o in live && keep(o) && o.report.key in index && o.report.key !in rest)
    && (forall key | key in rest || key !in index :: Listed(kept, key) == Listed(index, key))
    && (forall key | key in index && key !in rest :: Filtered(Listed(index, key), Listed(kept, key), keep))
    && (forall key :: Distinct(Listed(kept, key)))
  }

  ghost predicate Filtered(items: seq<Occurrence>, kept: seq<Occurrence>, keep: Occurrence -> bool) {
    forall o :: o in kept <==> o in items && keep(o)
  }

  function Replaced(index: Index, key: string, items: seq<Occurrence>): (r: Index)
    ensures Listed(r, key) == items
    ensures forall k | k != key :: Listed(r, k) == Listed(index, k)
  {
    if items == [] then index - {key} else index[key := items]
  }

  lemma DoneOneMore(index: Index, done: set<Occurrence>, live: set<Occurrence>, keep: Occurrence -> bool, rest: set<string>,
                    key: string, items: seq<Occurrence>)
    requires ByKey(index, live) && key in rest && key in index
    requires forall o :: o in done <==> o in live && keep(o) && o.report.key in index && o.report.key !in rest
    requires forall o :: o in items <==> o in index[key] && keep(o)
    ensures forall o ::
      o in done + Members(items) <==> o in live && keep(o) && o.report.key in index && o.report.key !in rest - {key}
  {
    forall o ensures o in done + Members(items)
      <==> o in live && keep(o) && o.report.key in index && o.report.key !in rest - {key}
    {
      assert Listed(index, key) == index[key];
      assert o in Listed(index, key) <==> o in live && o.report.key == key;
    }
  }

  lemma KeptOneMore(index: Index, kept: Index, done: set<Occurrence>, live: set<Occurrence>, keep: Occurrence -> bool,
                    rest: set<string>, key: string, items: seq<Occurrence>)
    requires ByKey(index, live) && PartlyKept(index, kept, done, live, keep, rest) && key in rest && key in index
    requires Distinct(items) && forall o :: o in items <==> o in index[key] && keep(o)
    ensures PartlyKept(index, Replaced(kept, key, items), done + Members(items), live, keep, rest - {key})
  {
    DoneOneMore(index, done, live, keep, rest, key, items);
    hide Replaced, ByKey, Distinct, Members;
    var now, less := Replaced(kept, key, items), rest - {key};
    forall k | k in index && k !in less ensures Filtered(Listed(index, k), Listed(now, k), keep) {
      if k == key {
        assert Listed(index, key) == index[key];
      } else {
        assert Filtered(Listed(index, k), Listed(kept, k), keep);
      }
    }
    forall k ensures Distinct(Listed(now, k)) {
      assert Distinct(Listed(kept, k));
    }
  }

  lemma AllKept(index: Index, kept: Index, done: set<Occurrence>, live: set<Occurrence>, keep: Occurrence -> bool)
    requires ByKey(index, live) && PartlyKept(index, kept, done, live, keep, {})
    ensures done == Kept(live, keep) && ByKey(kept, Kept(live, keep))
  {
    forall o ensures o in done <==> o in Kept(live, keep) {
      assert o in live ==> o in Listed(index, o.report.key);
    }
    assert done == Kept(live, keep);
    forall key, o ensures o in Listed(kept, key) <==> o in Kept(live, keep) && o.report.key == key {
      assert o in Listed(index, key) <==> o in live && o.report.key == key;
    }
  }

  /** Keeps some occurrences and rebuilds the index by shape keys from them. */
  method Retain(index: Index, keep: Occurrence -> bool, ghost live: set<Occurrence>)
      returns (kept: Index, shapes: Index)
    requires ByKey(index, live) && WellKeyed(live)
    ensures ByKey(kept, Kept(live, keep)) && ByKeys(shapes, Kept(live, keep))
  {
    kept, shapes := index, map[];
    ghost var done: set<Occurrence> := {};
    var rest := index.Keys;
    while rest != {}
      invariant rest <= index.Keys && ByKeys(shapes, done) && PartlyKept(index, kept, done, live, keep, rest)
      decreases rest
    {
      hide PartlyKept, ByKeys;
      var key :| key in rest;
      NotDone(index, kept, done, live, keep, rest, key);
      ghost var before := done;
      var items;
      items, shapes, done := RetainList(index[key], shapes, keep, done);
      KeptOneMore(index, kept, before, live, keep, rest, key, items);
      kept := Replaced(kept, key, items);
      rest := rest - {key};
    }
    AllKept(index, kept, done, live, keep);
  }

  lemma NotDone(index: Index, kept: Index, done: set<Occurrence>, live: set<Occurrence>, keep: Occurrence -> bool,
                rest: set<string>, key: string)
    requires ByKey(index, live) && WellKeyed(live) && PartlyKept(index, kept, done, live, keep, rest)
    requires key in rest && key in index
    ensures Distinct(index[key]) && forall o | o in index[key] :: o !in done && Distinct(o.report.keys)
  {
    assert Distinct(Listed(index, key));
    forall o | o in index[key] ensures o !in done && Distinct(o.report.keys) {
      assert o in Listed(index, key);
    }
  }
}
