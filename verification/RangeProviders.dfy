/** The providers of one client and model. Up to eight are kept in a list that is searched; more move
    into a map. Either way they are the same groups of counters. */
module RangeProviders {
  import opened Wrappers
  import opened Text
  import opened RangeCounters
  import opened RangeGroups

  const LIST_MAX := 8

  function KeyOf(provider: string): string {
    ToLower(TrimSpace(provider))
  }

  // ----- trimming twice -----

  lemma {:induction false} TrimLeftStops(s: string)
    ensures TrimLeft(s) == "" || !IsSpace(TrimLeft(s)[0])
  {
    if s != "" && IsSpace(s[0]) {
      TrimLeftStops(s[1..]);
    }
  }

  lemma {:induction false} TrimRightStops(s: string)
    ensures TrimRight(s) == "" || !IsSpace(TrimRight(s)[|TrimRight(s)| - 1])
    ensures TrimRight(s) <= s
  {
    if s != "" && IsSpace(s[|s| - 1]) {
      TrimRightStops(s[..|s| - 1]);
    }
  }

  lemma TrimTwice(s: string)
    ensures TrimSpace(TrimSpace(s)) == TrimSpace(s)
  {
    TrimLeftStops(s);
    TrimRightStops(TrimLeft(s));
  }

  // ----- a list as a map -----

  ghost predicate DistinctKeys(s: seq<Leaf>) {
    forall i, j | 0 <= i < j < |s| :: KeyOf(s[i].name) != KeyOf(s[j].name)
  }

  function AsMap(s: seq<Leaf>): Leaves {
    if s == [] then map[] else AsMap(s[..|s| - 1])[KeyOf(s[|s| - 1].name) := s[|s| - 1]]
  }

  lemma {:induction false} AsMapAt(s: seq<Leaf>)
    requires DistinctKeys(s)
    ensures forall i | 0 <= i < |s| :: KeyOf(s[i].name) in AsMap(s) && AsMap(s)[KeyOf(s[i].name)] == s[i]
    ensures forall k | k in AsMap(s) :: exists i :: 0 <= i < |s| && KeyOf(s[i].name) == k
  {
    hide KeyOf;
    if s != [] {
      var n := |s| - 1;
      AsMapAt(s[..n]);
      forall k | k in AsMap(s) ensures exists i :: 0 <= i < |s| && KeyOf(s[i].name) == k {
        if k != KeyOf(s[n].name) {
          var i :| 0 <= i < n && KeyOf(s[..n][i].name) == k;
          assert s[i] == s[..n][i];
        }
      }
    }
  }

  /** Changing the counters of one entry changes that entry of the map. */
  lemma AsMapUpdate(s: seq<Leaf>, i: nat, leaf: Leaf)
    requires DistinctKeys(s) && i < |s| && KeyOf(leaf.name) == KeyOf(s[i].name)
    ensures DistinctKeys(s[i := leaf]) && AsMap(s[i := leaf]) == AsMap(s)[KeyOf(leaf.name) := leaf]
  {
    hide KeyOf, AsMap;
    AsMapAt(s);
    AsMapAt(s[i := leaf]);
    var l, r := AsMap(s[i := leaf]), AsMap(s)[KeyOf(leaf.name) := leaf];
    forall k ensures (k in l <==> k in r) && (k in l ==> l[k] == r[k]) {
      if k in l {
        var j :| 0 <= j < |s| && KeyOf(s[i := leaf][j].name) == k;
        assert KeyOf(s[j].name) == k;
      }
      if k in r && k != KeyOf(leaf.name) {
        var j :| 0 <= j < |s| && KeyOf(s[j].name) == k;
        assert s[i := leaf][j] == s[j];
      }
      assert s[i := leaf][i] == leaf;
    }
  }

  lemma AsMapAppend(s: seq<Leaf>, leaf: Leaf)
    requires DistinctKeys(s) && forall i | 0 <= i < |s| :: KeyOf(s[i].name) != KeyOf(leaf.name)
    ensures DistinctKeys(s + [leaf]) && AsMap(s + [leaf]) == AsMap(s)[KeyOf(leaf.name) := leaf]
    ensures KeyOf(leaf.name) !in AsMap(s)
  {
    hide KeyOf;
    AsMapAt(s);
    assert (s + [leaf])[..|s|] == s;
  }

  // ----- the provider counters of a model -----

  class ClientModel {
    var providers: seq<Leaf>
    var stats: Option<Leaves>

    ghost predicate Valid()
      reads this
    {
      DistinctKeys(providers) && |providers| <= LIST_MAX && (stats.Some? ==> providers == [])
    }

    /** The groups, in whichever form they are. */
    function Value(): Leaves
      reads this
    {
      if stats.Some? then stats.value else AsMap(providers)
    }

    constructor ()
      ensures Valid() && Value() == map[]
    {
      providers, stats := [], None;
    }

    /** The position of a provider in the list, or the length of the list. */
    method Find(key: string) returns (i: nat)
      requires Valid()
      ensures i < |providers| ==> KeyOf(providers[i].name) == key
      ensures i >= |providers| ==> i == |providers| && forall j | 0 <= j < |providers| :: KeyOf(providers[j].name) != key
    {
      i := |providers|;
      while i > 0
        invariant i <= |providers|
        invariant forall j | i <= j < |providers| :: KeyOf(providers[j].name) != key
      {
        if KeyOf(providers[i - 1].name) == key {
          i := i - 1;
          return;
        }
        i := i - 1;
      }
      i := |providers|;
    }

    method ListToMap()
      requires Valid() && stats.None?
      modifies this
      ensures Valid() && stats.Some? && Value() == old(Value())
    {
      var m: Leaves := map[];
      var i := 0;
      while i < |providers|
        invariant 0 <= i <= |providers| && m == AsMap(providers[..i])
      {
        assert providers[..i + 1][..i] == providers[..i];
        m := m[KeyOf(providers[i].name) := providers[i]];
        i := i + 1;
      }
      assert providers[..i] == providers;
      providers, stats := [], Some(m);
    }

    lemma ListHas(i: nat)
      requires Valid() && i < |providers|
      ensures At(AsMap(providers), KeyOf(providers[i].name)) == Some(providers[i])
    {
      AsMapAt(providers);
    }

    lemma ListLacks(key: string)
      requires Valid() && forall j | 0 <= j < |providers| :: KeyOf(providers[j].name) != key
      ensures At(AsMap(providers), key) == None
    {
      AsMapAt(providers);
    }

    method AddAt(i: nat, d: Counters)
      requires Valid() && i < |providers|
      modifies this
      ensures Valid() && stats == old(stats)
      ensures Value() == AddTo(old(Value()), KeyOf(old(providers)[i].name), "", d, false)
    {
      hide KeyOf, AsMap, Counters.Plus;
      ListHas(i);
      var leaf := providers[i];
      AsMapUpdate(providers, i, Leaf(leaf.name, leaf.sum.Plus(d)));
      providers := providers[i := Leaf(leaf.name, leaf.sum.Plus(d))];
    }

    lemma NameKept(m: Leaves, key: string, d: Counters, a: string, b: string)
      requires key in m
      ensures AddTo(m, key, a, d, false) == AddTo(m, key, b, d, false)
    {
    }

    lemma KeyOfTrimmed(provider: string)
      ensures KeyOf(TrimSpace(provider)) == KeyOf(provider)
    {
      TrimTwice(provider);
    }

    /** One more record of a provider. */
    method Increment(provider: string, d: Counters)
      requires Valid()
      modifies this
      ensures Valid() && Value() == AddTo(old(Value()), KeyOf(provider), TrimSpace(provider), d, false)
    {
      hide KeyOf, AsMap, AddTo, Counters.Plus;
      var key := KeyOf(provider);
      if stats.Some? {
        stats := Some(AddTo(stats.value, key, TrimSpace(provider), d, false));
        return;
      }
      var i := |providers| - 1;
      if i < 0 || providers[i].name != provider {
        i := Find(key);
      }
      if i < |providers| {
        ListHas(i);
        NameKept(Value(), key, d, "", TrimSpace(provider));
        AddAt(i, d);
        return;
      }
      if |providers| == LIST_MAX {
        ListToMap();
        stats := Some(AddTo(stats.value, key, TrimSpace(provider), d, false));
        return;
      }
      AppendNew(provider, d);
    }

    method AppendNew(provider: string, d: Counters)
      requires Valid() && stats.None? && |providers| < LIST_MAX
      requires forall j | 0 <= j < |providers| :: KeyOf(providers[j].name) != KeyOf(provider)
      modifies this
      ensures Valid() && Value() == AddTo(old(Value()), KeyOf(provider), TrimSpace(provider), d, false)
    {
      hide KeyOf, AsMap, Counters.Plus;
      KeyOfTrimmed(provider);
      ListLacks(KeyOf(provider));
      var leaf := Leaf(TrimSpace(provider), NOTHING.Plus(d));
      AsMapAppend(providers, leaf);
      providers := providers + [leaf];
    }

    /** Merges one entry of another model's list. */
    method MergeEntry(value: Leaf)
      requires Valid()
      modifies this
      ensures Valid() && Value() == old(Value())[KeyOf(value.name) := MergeLeaf(At(old(Value()), KeyOf(value.name)), Some(value), false).value]
    {
      hide KeyOf, AsMap, Counters.Plus;
      var key := KeyOf(value.name);
      if stats.Some? {
        stats := Some(stats.value[key := MergeLeaf(At(stats.value, key), Some(value), false).value]);
        return;
      }
      var i := Find(key);
      if i < |providers| {
        ListHas(i);
        var leaf := providers[i];
        AsMapUpdate(providers, i, Leaf(leaf.name, leaf.sum.Plus(value.sum)));
        providers := providers[i := Leaf(leaf.name, leaf.sum.Plus(value.sum))];
      } else {
        ListLacks(key);
        if |providers| < LIST_MAX {
          AsMapAppend(providers, value);
          providers := providers + [value];
        } else {
          ListToMap();
          stats := Some(stats.value[key := value]);
        }
      }
    }

    /** Takes in the providers of another model, which keeps its own. */
    method Merge(source: ClientModel)
      requires Valid() && source.Valid() && source != this
      modifies this
      ensures Valid() && Value() == MergeLeaves(old(Value()), source.Value(), false)
    {
      hide KeyOf, Counters.Plus;
      if source.stats.Some? {
        if stats.None? && |providers| > 0 {
          ListToMap();
        }
        if source.stats.value != map[] {
          var merged := MergeLeavesInto(if stats.Some? then stats.value else map[], source.stats.value, false);
          stats := Some(merged);
        }
        return;
      }
      ghost var a := Value();
      var i := 0;
      MergeNoLeaves(a, false);
      while i < |source.providers|
        invariant 0 <= i <= |source.providers| && Valid() && Value() == MergeLeaves(a, AsMap(source.providers[..i]), false)
      {
        MergeNext(a, source.providers, i);
        MergeEntry(source.providers[i]);
        i := i + 1;
      }
      assert source.providers[..i] == source.providers;
    }
  }

  lemma MergeNext(a: Leaves, s: seq<Leaf>, i: nat)
    requires DistinctKeys(s) && i < |s|
    ensures var b, key := AsMap(s[..i]), KeyOf(s[i].name);
            MergeLeaves(a, AsMap(s[..i + 1]), false)
              == MergeLeaves(a, b, false)[key := MergeLeaf(At(MergeLeaves(a, b, false), key), Some(s[i]), false).value]
  {
    hide KeyOf, AsMap, Counters.Plus;
    assert s[..i + 1] == s[..i] + [s[i]];
    AsMapAppend(s[..i], s[i]);
  }
}
