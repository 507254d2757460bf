/** Tables of statistics that are updated in place. Taking in another table copies what is new, so the two
    never share an entry, and the other one stays as it is. */
module StatTables {

  class Stat<V> {
    var value: V

    constructor (value: V)
      ensures this.value == value
    {
      this.value := value;
    }
  }

  /** The entries of both; where both have one, they are joined. */
  function Joined<K, V>(a: map<K, V>, b: map<K, V>, join: (V, V) -> V): map<K, V> {
    map k | k in a.Keys + b.Keys :: if k in a && k in b then join(a[k], b[k]) else if k in a then a[k] else b[k]
  }

  class StatTable<K(==), V> {
    var stats: map<K, Stat<V>>

    ghost function Entries(): set<Stat<V>>
      reads this
    {
      set k | k in stats :: stats[k]
    }

    ghost function Repr(): set<object>
      reads this
    {
      {this} + Entries()
    }

    /** No entry stands under two keys. */
    ghost predicate Valid()
      reads this
    {
      forall k, l | k in stats && l in stats && k != l :: stats[k] != stats[l]
    }

    function Value(): map<K, V>
      reads this, Entries()
    {
      map k | k in stats :: stats[k].value
    }

    constructor ()
      ensures Valid() && Value() == map[] && Entries() == {}
    {
      stats := map[];
    }

    /** Writes an entry, in place if there is one. */
    method Put(k: K, v: V)
      requires Valid()
      modifies this, Entries()
      ensures Valid() && Value() == old(Value())[k := v] && fresh(Entries() - old(Entries()))
    {
      if k in stats {
        stats[k].value := v;
      } else {
        var s := new Stat(v);
        stats := stats[k := s];
      }
    }

    /** Takes in the other table, which stays as it is and shares nothing with this one. */
    method Merge(b: StatTable<K, V>, join: (V, V) -> V)
      requires Valid() && b != this && Entries() !! b.Entries()
      modifies this, Entries()
      ensures Valid() && Value() == Joined(old(Value()), b.Value(), join)
      ensures fresh(Entries() - old(Entries())) && Entries() !! b.Entries()
      ensures b.stats == old(b.stats) && b.Value() == old(b.Value())
    {
      hide Joined;
      ghost var a, c := Value(), b.Value();
      var rest := b.stats.Keys;
      assert rest == c.Keys;
      NoneJoined(a, c, join);
      while rest != {}
        invariant rest <= b.stats.Keys && Valid() && fresh(Entries() - old(Entries())) && Entries() !! b.Entries()
        invariant b.stats == old(b.stats) && b.Value() == c
        invariant Value() == Joined(a, c - rest, join)
        decreases rest
      {
        var k :| k in rest;
        JoinedNext(a, c, rest, k, join);
        MergeOne(k, b, join);
        rest := rest - {k};
      }
      assert c - rest == c;
    }

    static lemma NoneJoined(a: map<K, V>, b: map<K, V>, join: (V, V) -> V)
      ensures Joined(a, b - b.Keys, join) == a
    {
    }

    static lemma JoinedNext(a: map<K, V>, b: map<K, V>, rest: set<K>, k: K, join: (V, V) -> V)
      requires k in rest && rest <= b.Keys
      ensures var m := Joined(a, b - rest, join);
        Joined(a, b - (rest - {k}), join) == m[k := if k in m then join(m[k], b[k]) else b[k]]
    {
    }

    method MergeOne(k: K, b: StatTable<K, V>, join: (V, V) -> V)
      requires Valid() && b != this && k in b.stats && Entries() !! b.Entries()
      modifies this, Entries()
      ensures Valid() && fresh(Entries() - old(Entries())) && Entries() !! b.Entries()
      ensures b.stats == old(b.stats) && b.Value() == old(b.Value())
      ensures var m, n := old(Value()), b.Value(); Value() == m[k := if k in m then join(m[k], n[k]) else n[k]]
    {
      if k in stats {
        Put(k, join(stats[k].value, b.stats[k].value));
      } else {
        Put(k, b.stats[k].value);
      }
    }
  }
}
