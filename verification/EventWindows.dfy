/** The detail windows of all APIs and models, with their references. No two of them share anything. */
module EventWindows {
  import opened RangeBlocks
  import opened EventRefs

  type Windows<B(0)> = map<Owner, EventWindow<B>>

  ghost function Roots<B(0)>(m: Windows<B>): set<object> {
    set k, o | k in m && o in m[k].Roots() :: o
  }

  ghost function Objects<B(0)>(m: Windows<B>): set<object>
    reads Roots(m)
  {
    set k, o | k in m && o in m[k].Repr() :: o
  }

  ghost predicate Separate<B(0)>(m: Windows<B>)
    reads Roots(m)
  {
    forall k, l | k in m && l in m && k != l :: m[k].Repr() !! m[l].Repr()
  }

  ghost predicate AllValid<B(0)>(m: Windows<B>)
    reads Roots(m), Objects(m)
  {
    (forall k | k in m :: m[k].Valid()) && Separate(m)
  }

  /** What a window holds, and the last number it gave. */
  datatype Content<B> = Content(slots: Slots<B>, last: nat)

  ghost function ContentOf<B(0)>(w: EventWindow<B>): Content<B>
    requires w.Valid()
    reads w.Roots(), w.Repr()
  {
    Content(w.details.Contents(), w.nextSequence)
  }

  ghost function Contents<B(0)>(m: Windows<B>): map<Owner, Content<B>>
    requires AllValid(m)
    reads Roots(m), Objects(m)
  {
    map k | k in m :: ContentOf(m[k])
  }

  lemma EachValid<B(0)>(m: Windows<B>, k: Owner)
    requires AllValid(m) && k in m
    ensures m[k].Valid() && m[k].Repr() <= Objects(m) && Contents(m).Keys == m.Keys && Contents(m)[k] == ContentOf(m[k])
  {
    hide EventWindow.Valid, EventWindow.Repr, ContentOf;
  }

  lemma RootsOfOne<B(0)>(w: EventWindow<B>)
    ensures w.Roots() <= w.Repr()
  {
  }

  lemma PartsAllocated<B(0)>(m: Windows<B>)
    ensures forall o | o in Objects(m) :: allocated(o)
    ensures forall o | o in Roots(m) :: allocated(o)
  {
  }

  twostate lemma OldParts<B(0)>(new w: EventWindow<B>)
    requires old(allocated(w))
    ensures forall o | o in old(w.Repr()) :: old(allocated(o))
  {
  }

  /** Nothing but the window of `k` was changed. */
  twostate predicate OnlyTouched<B(0)>(new m: Windows<B>, k: Owner)
    requires old(allocated(m)) && k in m
    reads *
  {
    forall o | old(allocated(o)) && o in old(Objects(m)) && o !in old(m[k].Repr()) :: unchanged(o)
  }

  twostate lemma UntouchedStays<B(0)>(new w: EventWindow<B>)
    requires old(allocated(w)) && old(w.Valid())
    requires forall o | old(allocated(o)) && o in old(w.Repr()) :: unchanged(o)
    ensures w.Valid() && w.Repr() == old(w.Repr()) && ContentOf(w) == old(ContentOf(w))
  {
    hide EventWindow.Valid, ContentOf;
    OldParts(w);
    assert forall o | o in old(w.Repr()) :: unchanged(o);
    assert w.Repr() == old(w.Repr());
    RootsOfOne(w);
    assert forall o | o in w.Roots() :: unchanged(o);
  }

  twostate lemma OtherStays<B(0)>(new m: Windows<B>, new k: Owner, new l: Owner)
    requires old(allocated(m)) && old(AllValid(m)) && k in m && l in m && l != k && OnlyTouched(m, k)
    ensures m[l].Valid() && m[l].Repr() == old(m[l].Repr()) && ContentOf(m[l]) == old(ContentOf(m[l]))
  {
    hide EventWindow.Valid, EventWindow.Repr, ContentOf;
    UntouchedStays(m[l]);
  }

  twostate lemma StaySeparate<B(0)>(new m: Windows<B>, k: Owner)
    requires old(allocated(m)) && old(AllValid(m)) && k in m && m[k].Valid()
    requires forall o | o in m[k].Repr() && o !in old(m[k].Repr()) :: fresh(o)
    requires forall l | l in m && l != k :: m[l].Repr() == old(m[l].Repr())
    ensures Separate(m) && forall o | o in Objects(m) && o !in old(Objects(m)) :: fresh(o)
  {
    hide EventWindow.Valid, EventWindow.Repr;
    forall l | l in m && l != k ensures m[k].Repr() !! m[l].Repr() {
      OldParts(m[l]);
    }
    forall l, n | l in m && n in m && l != k && n != k && l != n ensures m[l].Repr() !! m[n].Repr() {
      assert old(m[l].Repr() !! m[n].Repr());
    }
  }

  /** A change of one window leaves all others as they are. */
  twostate lemma OneChanged<B(0)>(new m: Windows<B>, k: Owner)
    requires old(allocated(m)) && old(AllValid(m)) && k in m && OnlyTouched(m, k)
    requires m[k].Valid() && forall o | o in m[k].Repr() && o !in old(m[k].Repr()) :: fresh(o)
    ensures AllValid(m) && forall o | o in Objects(m) && o !in old(Objects(m)) :: fresh(o)
    ensures Contents(m) == old(Contents(m))[k := ContentOf(m[k])]
  {
    hide EventWindow.Valid, EventWindow.Repr, ContentOf, Separate, Roots, Objects, OnlyTouched;
    forall l | l in m && l != k
      ensures m[l].Valid() && m[l].Repr() == old(m[l].Repr()) && ContentOf(m[l]) == old(ContentOf(m[l]))
    {
      OtherStays(m, k, l);
    }
    StaySeparate(m, k);
  }

  lemma OneAdded<B(0)>(m: Windows<B>, k: Owner, w: EventWindow<B>)
    requires AllValid(m) && k !in m && w.Valid() && w.Repr() !! Objects(m)
    ensures AllValid(m[k := w]) && Objects(m[k := w]) == Objects(m) + w.Repr()
    ensures Contents(m[k := w]) == Contents(m)[k := ContentOf(w)]
  {
    hide EventWindow.Valid, EventWindow.Repr, ContentOf, Roots;
    var g := m[k := w];
    forall o | o in Objects(m) + w.Repr() ensures o in Objects(g) {
      if o in Objects(m) {
        var l :| l in m && o in m[l].Repr();
        assert g[l] == m[l];
      } else {
        assert o in g[k].Repr();
      }
    }
  }

  /** A new window shares nothing with those there are. */
  method Create<B(0)>(m: Windows<B>, k: Owner, zero: Record<EventDetail<B>>) returns (grown: Windows<B>)
    requires AllValid(m) && k !in m
    ensures AllValid(grown) && grown.Keys == m.Keys + {k}
    ensures forall o | o in Objects(grown) && o !in old(Objects(m)) :: fresh(o)
    ensures Contents(grown) == old(Contents(m))[k := Content([], 0)]
  {
    hide EventWindow.Valid, ContentOf, Separate, Roots, Objects, AllValid, Contents;
    PartsAllocated(m);
    var w := new EventWindow<B>(zero);
    NoContent(w);
    OneAdded(m, k, w);
    grown := m[k := w];
  }

  lemma NoContent<B(0)>(w: EventWindow<B>)
    requires w.Valid() && w.details.Contents() == [] && w.nextSequence == 0
    ensures ContentOf(w) == Content([], 0)
  {
  }
}
