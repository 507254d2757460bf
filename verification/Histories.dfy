/** The recorded histories of all APIs and models. No two of them share anything that changes. */
module Histories {
  import opened BlockList
  import opened RangeBlocks
  import opened ModelHistory

  /** The visible and the retained records of one model. */
  datatype Parts<D> = Parts(visible: seq<Record<D>>, retained: seq<Record<D>>)
  {
    function All(): seq<Record<D>> { visible + retained }
  }

  ghost function PartsOf<D(0,!new)>(h: ModelHistory<D>): Parts<D>
    requires h.Valid()
    reads h.Roots(), h.Repr()
  {
    Parts(h.window.Contents(), h.archive.Contents())
  }

  lemma PartsAll<D(0,!new)>(h: ModelHistory<D>)
    requires h.Valid()
    ensures PartsOf(h).All() == h.All()
  {
  }

  lemma PartsVisible<D(0,!new)>(h: ModelHistory<D>)
    requires h.Valid()
    ensures h.window.details.InBounds() && PartsOf(h).visible == h.window.Contents()
  {
  }

  lemma NoParts<D(0,!new)>(h: ModelHistory<D>)
    requires h.Valid() && h.All() == []
    ensures PartsOf(h) == Parts([], [])
  {
  }

  type Histories<D(0,!new)> = map<Owner, ModelHistory<D>>

  ghost function Roots<D(0,!new)>(m: Histories<D>): set<object> {
    set k, o | k in m && o in m[k].Roots() :: o
  }

  ghost function Objects<D(0,!new)>(m: Histories<D>): set<object>
    reads Roots(m)
  {
    set k, o | k in m && o in m[k].Repr() :: o
  }

  ghost predicate Separate<D(0,!new)>(m: Histories<D>)
    reads Roots(m)
  {
    forall k, l | k in m && l in m && k != l :: m[k].Repr() !! m[l].Repr()
  }

  ghost predicate AllValid<D(0,!new)>(m: Histories<D>)
    reads Roots(m), Objects(m)
  {
    (forall k | k in m :: m[k].Valid() && m[k].window.ranges.owner == k) && Separate(m)
  }

  /** The retained parts of all models store the same of a record. */
  ghost predicate Keeping<D(0,!new)>(m: Histories<D>, keep: D -> D) {
    forall k | k in m :: m[k].keep == keep
  }

  /** All records, by API and model. */
  ghost function Table<D(0,!new)>(m: Histories<D>): map<Owner, Parts<D>>
    requires AllValid(m)
    reads Roots(m), Objects(m)
  {
    map k | k in m :: PartsOf(m[k])
  }

  lemma EachValid<D(0,!new)>(m: Histories<D>, k: Owner)
    requires AllValid(m) && k in m
    ensures m[k].Valid() && m[k].window.ranges.owner == k && m[k].Repr() <= Objects(m)
  {
    hide ModelHistory.Valid, ModelHistory.Repr;
  }

  lemma RootsOfOne<D(0,!new)>(h: ModelHistory<D>)
    ensures h.Roots() <= h.Repr()
  {
  }

  lemma RootsIn<D(0,!new)>(m: Histories<D>)
    ensures Roots(m) <= Objects(m)
  {
    hide ModelHistory.Repr, ModelHistory.Roots;
    forall k | k in m ensures m[k].Roots() <= m[k].Repr() {
      RootsOfOne(m[k]);
    }
  }

  lemma TableKeys<D(0,!new)>(m: Histories<D>)
    requires AllValid(m)
    ensures Table(m).Keys == m.Keys
  {
    hide AllValid;
  }

  // ----- a change of one history -----

  twostate lemma OldParts<D(0,!new)>(new h: ModelHistory<D>)
    requires old(allocated(h))
    ensures forall o | o in old(h.Repr()) :: old(allocated(o))
  {
  }

  twostate lemma StaySeparate<D(0,!new)>(new m: Histories<D>, k: Owner)
    requires old(allocated(m)) && old(AllValid(m)) && k in m
    requires m[k].Valid() && forall o | o in m[k].Repr() && o !in old(m[k].Repr()) :: fresh(o)
    requires forall l | l in m && l != k ::
      m[l].Valid() && m[l].Repr() == old(m[l].Repr()) && PartsOf(m[l]) == old(PartsOf(m[l]))
    ensures Separate(m)
  {
    hide ModelHistory.Valid, ModelHistory.Repr, PartsOf;
    forall l | l in m && l != k ensures m[k].Repr() !! m[l].Repr() {
      OldParts(m[l]);
    }
    forall l, n | l in m && n in m && l != k && n != k && l != n ensures m[l].Repr() !! m[n].Repr() {
    }
  }

  twostate lemma StayFresh<D(0,!new)>(new m: Histories<D>, k: Owner)
    requires old(allocated(m)) && old(AllValid(m)) && k in m
    requires m[k].Valid() && forall o | o in m[k].Repr() && o !in old(m[k].Repr()) :: fresh(o)
    requires forall l | l in m && l != k ::
      m[l].Valid() && m[l].Repr() == old(m[l].Repr()) && PartsOf(m[l]) == old(PartsOf(m[l]))
    ensures forall o | o in Objects(m) && o !in old(Objects(m)) :: fresh(o)
  {
    hide ModelHistory.Valid, ModelHistory.Repr, PartsOf, Separate;
    forall o | o in Objects(m) && o !in old(Objects(m)) ensures fresh(o) {
      var l :| l in m && o in m[l].Repr();
    }
  }

  /** Nothing but the history of `k` was changed. */
  twostate predicate OnlyTouched<D(0,!new)>(new m: Histories<D>, k: Owner)
    requires old(allocated(m)) && k in m
    reads *
  {
    forall o | old(allocated(o)) && o in old(Objects(m)) && o !in old(m[k].Repr()) :: unchanged(o)
  }

  twostate lemma UntouchedStays<D(0,!new)>(new h: ModelHistory<D>)
    requires old(allocated(h)) && old(h.Valid())
    requires forall o | old(allocated(o)) && o in old(h.Repr()) :: unchanged(o)
    ensures h.Valid() && h.Repr() == old(h.Repr()) && PartsOf(h) == old(PartsOf(h))
  {
    hide ModelHistory.Valid, PartsOf;
    OldParts(h);
    assert forall o | o in old(h.Repr()) :: unchanged(o);
    assert h.Repr() == old(h.Repr());
    RootsOfOne(h);
    assert forall o | o in h.Roots() :: unchanged(o);
  }

  twostate lemma OtherStays<D(0,!new)>(new m: Histories<D>, new k: Owner, new l: Owner)
    requires old(allocated(m)) && old(AllValid(m)) && k in m && l in m && l != k && OnlyTouched(m, k)
    ensures m[l].Valid() && m[l].Repr() == old(m[l].Repr()) && PartsOf(m[l]) == old(PartsOf(m[l]))
  {
    hide ModelHistory.Valid, ModelHistory.Repr, PartsOf;
    UntouchedStays(m[l]);
  }

  /** A change of one history leaves all others as they are. */
  twostate lemma OneChanged<D(0,!new)>(new m: Histories<D>, k: Owner)
    requires old(allocated(m)) && old(AllValid(m)) && k in m && OnlyTouched(m, k)
    requires m[k].Valid() && forall o | o in m[k].Repr() && o !in old(m[k].Repr()) :: fresh(o)
    ensures forall o | o in Objects(m) && o !in old(Objects(m)) :: fresh(o)
    ensures AllValid(m)
    ensures Table(m) == old(Table(m))[k := PartsOf(m[k])]
  {
    hide ModelHistory.Valid, ModelHistory.Repr, PartsOf, Separate, Roots, Objects, OnlyTouched;
    forall l | l in m && l != k
      ensures m[l].Valid() && m[l].Repr() == old(m[l].Repr()) && PartsOf(m[l]) == old(PartsOf(m[l]))
    {
      OtherStays(m, k, l);
    }
    StaySeparate(m, k);
    StayFresh(m, k);
  }

  lemma OneAdded<D(0,!new)>(m: Histories<D>, k: Owner, h: ModelHistory<D>)
    requires AllValid(m) && k !in m && h.Valid() && h.window.ranges.owner == k && h.Repr() !! Objects(m)
    ensures AllValid(m[k := h]) && Objects(m[k := h]) == Objects(m) + h.Repr()
    ensures Table(m[k := h]) == Table(m)[k := PartsOf(h)]
  {
    hide ModelHistory.Valid, ModelHistory.Repr, PartsOf, Roots;
    var g := m[k := h];
    forall o | o in Objects(m) + h.Repr() ensures o in Objects(g) {
      if o in Objects(m) {
        var l :| l in m && o in m[l].Repr();
        assert g[l] == m[l];
      } else {
        assert o in g[k].Repr();
      }
    }
  }

  lemma PartsAllocated<D(0,!new)>(m: Histories<D>)
    ensures forall o | o in Objects(m) :: allocated(o)
    ensures forall o | o in Roots(m) :: allocated(o)
  {
  }

  /** A new history shares nothing with those there are. */
  method Create<D(0,!new)>(m: Histories<D>, k: Owner, zero: Record<D>, keep: D -> D) returns (grown: Histories<D>)
    requires AllValid(m) && k !in m && Settles(keep) && Keeping(m, keep)
    ensures forall o | o in Objects(grown) && o !in old(Objects(m)) :: fresh(o)
    ensures AllValid(grown) && grown.Keys == m.Keys + {k}
    ensures Keeping(grown, keep) && Table(grown) == old(Table(m))[k := Parts([], [])]
  {
    hide ModelHistory.Valid, PartsOf, Separate, Roots, Objects, AllValid, Table;
    PartsAllocated(m);
    var h := new ModelHistory<D>(zero, keep, k);
    NoParts(h);
    OneAdded(m, k, h);
    grown := m[k := h];
  }
}
