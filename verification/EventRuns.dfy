/** Whole runs over the visible events of all models: records arrive, change, leave, are evicted and
    expire, so details move and references are rebound, while queries build indexes and bring them up to date. */
module EventRuns {
  import opened Wrappers
  import opened RangeBlocks
  import opened BlockList
  import opened SlidingWindow
  import opened EventRefs
  import opened EventIndex
  import opened EventWindows

  datatype Labels = Labels(model: string, source: string, auth: string)

  type Slot = Record<EventDetail<Labels>>

  type State = map<Owner, Content<Labels>>

  function DetailOf(r: Slot): Detail {
    Detail(r.time, r.data.body.model, r.data.body.source, r.data.body.auth)
  }

  function EventOf(k: Owner, r: Slot): Event {
    Event(k.api, k.model, r.data.sequence)
  }

  function OwnerOf(e: Event): Owner {
    Owner(e.api, e.model)
  }

  /** A record is listed under its own labels, or those of where it was recorded, at its own time and number. */
  lemma ListedByLabels(key: Key, k: Owner, r: Slot)
    ensures Matches(key, EventOf(k, r), DetailOf(r)) <==> match key
      case AllEvents => true
      case OfApi(name) => k.api == name
      case OfModel(name) => (r.data.body.model == name && name != "") || (r.data.body.model == "" && k.model == name)
      case OfSource(name) => (r.data.body.source == name && name != "") || (r.data.body.source == "" && name == UNKNOWN_SOURCE)
      case OfAuth(name) => r.data.body.auth == name
    ensures DetailOf(r).time == r.time && EventOf(k, r).sequence == r.data.sequence && OwnerOf(EventOf(k, r)) == k
  {
  }

  // ----- what the indexes know about the windows -----

  /** Record `i` is known as it is. */
  ghost predicate Told(s: seq<Slot>, i: nat, k: Owner, details: Details, referenced: set<Event>)
    requires i < |s|
  {
    var e := EventOf(k, s[i]);
    e in details && details[e] == DetailOf(s[i]) && (s[i].data.ref.Some? <==> e in referenced)
  }

  ghost predicate Among(e: Event, s: seq<Slot>) {
    exists i :: 0 <= i < |s| && s[i].data.sequence == e.sequence
  }

  ghost predicate Numbered(s: seq<Slot>) {
    forall i, j | 0 <= i < j < |s| :: s[i].data.sequence != s[j].data.sequence
  }

  /** The indexes know just the records of the window of `k`, as they are, and which of them have a reference. */
  ghost predicate Tells(c: Content<Labels>, k: Owner, details: Details, referenced: set<Event>) {
    && (forall i | 0 <= i < |c.slots| :: Told(c.slots, i, k, details, referenced))
    && (forall e | e in details && OwnerOf(e) == k :: Among(e, c.slots))
    && Numbered(c.slots)
    && (forall i | 0 <= i < |c.slots| :: c.slots[i].data.sequence <= c.last)
    && (c.last == 0 ==> c.slots == [])
  }

  ghost predicate Coupled(c: State, details: Details, referenced: set<Event>, seen: set<Event>) {
    && (forall k | k in c :: Tells(c[k], k, details, referenced))
    && (forall e | e in details :: OwnerOf(e) in c)
    && (forall e | e in seen && OwnerOf(e) in c :: e.sequence <= c[OwnerOf(e)].last)
    && referenced <= seen && details.Keys <= seen
  }

  /** What concerns the others is as before. */
  ghost predicate SameElsewhere(k: Owner, details: Details, referenced: set<Event>, now: Details, referencedNow: set<Event>) {
    && (forall e | OwnerOf(e) != k :: (e in now <==> e in details) && (e in referencedNow <==> e in referenced))
    && (forall e | e in now && OwnerOf(e) != k :: now[e] == details[e])
  }

  lemma OthersTold(c: Content<Labels>, l: Owner, k: Owner, details: Details, referenced: set<Event>, now: Details,
                   referencedNow: set<Event>)
    requires Tells(c, l, details, referenced) && l != k && SameElsewhere(k, details, referenced, now, referencedNow)
    ensures Tells(c, l, now, referencedNow)
  {
    forall i | 0 <= i < |c.slots| ensures Told(c.slots, i, l, now, referencedNow) {
      assert Told(c.slots, i, l, details, referenced) && OwnerOf(EventOf(l, c.slots[i])) == l;
    }
  }

  /** A change of one window that the indexes follow keeps everything coupled. */
  lemma StaysCoupled(c: State, k: Owner, d: Content<Labels>, details: Details, referenced: set<Event>, seen: set<Event>,
                     now: Details, referencedNow: set<Event>, seenNow: set<Event>)
    requires Coupled(c, details, referenced, seen) && k in c && Tells(d, k, now, referencedNow)
    requires SameElsewhere(k, details, referenced, now, referencedNow)
    requires seen <= seenNow && referencedNow <= seenNow && now.Keys <= seenNow && c[k].last <= d.last
    requires forall e | e in seenNow && e !in seen :: OwnerOf(e) == k && e.sequence <= d.last
    ensures Coupled(c[k := d], now, referencedNow, seenNow)
  {
    hide Tells, SameElsewhere;
    forall l | l in c && l != k ensures Tells(c[l], l, now, referencedNow) {
      OthersTold(c[l], l, k, details, referenced, now, referencedNow);
    }
    OwnersKept(c, k, details, referenced, now, referencedNow);
  }

  lemma OwnersKept(c: State, k: Owner, details: Details, referenced: set<Event>, now: Details, referencedNow: set<Event>)
    requires (forall e | e in details :: OwnerOf(e) in c) && k in c
    requires SameElsewhere(k, details, referenced, now, referencedNow)
    ensures forall e | e in now :: OwnerOf(e) in c
  {
  }

  // ----- the changes of one window -----

  lemma ArrivalTold(c: Content<Labels>, k: Owner, details: Details, referenced: set<Event>, at: nat, r: Slot, last: nat)
    requires Tells(c, k, details, referenced) && at <= |c.slots| && c.last < r.data.sequence == last
    requires EventOf(k, r) !in referenced
    ensures var e := EventOf(k, r);
      Tells(Content(InsertAt(c.slots, at, r), last), k, details[e := DetailOf(r)],
            if r.data.ref.Some? then referenced + {e} else referenced)
  {
    var e := EventOf(k, r);
    var t := InsertAt(c.slots, at, r);
    var now, referencedNow := details[e := DetailOf(r)], if r.data.ref.Some? then referenced + {e} else referenced;
    forall i | 0 <= i < |t| ensures Told(t, i, k, now, referencedNow) {
      if i != at {
        var j := if i < at then i else i - 1;
        assert t[i] == c.slots[j] && Told(c.slots, j, k, details, referenced);
      }
    }
    forall x | x in now && OwnerOf(x) == k ensures Among(x, t) {
      if x == e {
        assert t[at].data.sequence == e.sequence;
      } else {
        assert Among(x, c.slots);
        AmongInserted(x, c.slots, at, r);
      }
    }
    InsertedNumbered(c.slots, at, r);
  }

  lemma AmongInserted(e: Event, s: seq<Slot>, at: nat, r: Slot)
    requires Among(e, s) && at <= |s|
    ensures Among(e, InsertAt(s, at, r))
  {
    var i :| 0 <= i < |s| && s[i].data.sequence == e.sequence;
    assert InsertAt(s, at, r)[if i < at then i else i + 1] == s[i];
  }

  lemma InsertedNumbered(s: seq<Slot>, at: nat, r: Slot)
    requires Numbered(s) && at <= |s| && forall i | 0 <= i < |s| :: s[i].data.sequence < r.data.sequence
    ensures var t := InsertAt(s, at, r);
      Numbered(t) && forall i | 0 <= i < |t| :: t[i].data.sequence <= r.data.sequence
  {
  }

  lemma UpdateTold(c: Content<Labels>, k: Owner, details: Details, referenced: set<Event>, i: nat, r: Slot)
    requires Tells(c, k, details, referenced) && i < |c.slots|
    requires r.data.sequence == c.slots[i].data.sequence && r.data.ref == c.slots[i].data.ref
    ensures Tells(Content(c.slots[i := r], c.last), k, details[EventOf(k, r) := DetailOf(r)], referenced)
    ensures EventOf(k, r) in details
  {
    var t, now := c.slots[i := r], details[EventOf(k, r) := DetailOf(r)];
    assert Told(c.slots, i, k, details, referenced);
    forall j | 0 <= j < |t| ensures Told(t, j, k, now, referenced) {
      assert Told(c.slots, j, k, details, referenced);
    }
    forall x | x in details && OwnerOf(x) == k ensures Among(x, t) {
      assert Among(x, c.slots);
      var j :| 0 <= j < |c.slots| && c.slots[j].data.sequence == x.sequence;
      assert t[j].data.sequence == x.sequence;
    }
  }

  /** Records leave, and the indexes forget just these. */
  lemma LeavingTold(c: Content<Labels>, k: Owner, details: Details, referenced: set<Event>, t: seq<Slot>, now: Details)
    requires Tells(c, k, details, referenced) && now.Keys <= details.Keys && forall e | e in now :: now[e] == details[e]
    requires forall i | 0 <= i < |t| :: t[i] in c.slots
    requires Numbered(t)
    requires forall e | e in details && OwnerOf(e) == k :: e in now <==> Among(e, t)
    ensures Tells(Content(t, c.last), k, now, referenced)
  {
    forall i | 0 <= i < |t| ensures Told(t, i, k, now, referenced) && t[i].data.sequence <= c.last {
      assert t[i] in c.slots;
      var j :| 0 <= j < |c.slots| && c.slots[j] == t[i];
      assert Told(c.slots, j, k, details, referenced);
      assert Among(EventOf(k, t[i]), t);
    }
    if t != [] {
      assert t[0] in c.slots;
    }
  }

  lemma ReferenceTold(c: Content<Labels>, k: Owner, details: Details, referenced: set<Event>, i: nat, ref: EventRef<Labels>)
    requires Tells(c, k, details, referenced) && i < |c.slots|
    ensures var r := c.slots[i].(data := c.slots[i].data.(ref := Some(ref)));
      Tells(Content(c.slots[i := r], c.last), k, details, referenced + {EventOf(k, r)})
  {
    var r := c.slots[i].(data := c.slots[i].data.(ref := Some(ref)));
    var t := c.slots[i := r];
    forall j | 0 <= j < |t| ensures Told(t, j, k, details, referenced + {EventOf(k, r)}) {
      assert Told(c.slots, j, k, details, referenced);
    }
    forall x | x in details && OwnerOf(x) == k ensures Among(x, t) {
      assert Among(x, c.slots);
      var j :| 0 <= j < |c.slots| && c.slots[j].data.sequence == x.sequence;
      assert t[j].data.sequence == x.sequence;
    }
  }

  // ----- steps in one window -----

  method ArriveIn(w: EventWindow<Labels>, time: int, body: Labels, indexed: bool)
      returns (ref: Option<EventRef<Labels>>, ghost at: nat)
    requires w.Valid() && (ContentOf(w).last == 0 ==> ContentOf(w).slots == [])
    modifies w.Repr()
    ensures w.Valid() && fresh(w.Repr() - old(w.Repr())) && (ref.Some? <==> indexed)
    ensures at <= |old(ContentOf(w)).slots| && ContentOf(w).last > old(ContentOf(w)).last && w.nextSequence == ContentOf(w).last
    ensures ContentOf(w).slots
         == InsertAt(old(ContentOf(w)).slots, at, Record(time, EventDetail(body, ref, ContentOf(w).last)))
  {
    hide EventWindow.Valid, InsertAt;
    var place;
    ref, place := w.Append(time, body, indexed);
    at := place;
  }

  method UpdateIn(w: EventWindow<Labels>, i: nat, time: int, body: Labels) returns (r: Slot)
    requires w.Valid() && i < |ContentOf(w).slots|
    modifies w.Repr()
    ensures w.Valid() && fresh(w.Repr() - old(w.Repr()))
    ensures var d := old(ContentOf(w)).slots[i].data; r == Record(time, EventDetail(body, d.ref, d.sequence))
    ensures ContentOf(w) == Content(old(ContentOf(w)).slots[i := r], old(ContentOf(w)).last)
  {
    var d := w.details.data[w.details.start + i].data;
    r := Record(time, EventDetail(body, d.ref, d.sequence));
    hide EventWindow.Matched;
    w.Set(i, time, body);
  }

  method RemoveIn(w: EventWindow<Labels>, i: nat) returns (r: Slot)
    requires w.Valid() && i < |ContentOf(w).slots|
    modifies w.Repr()
    ensures w.Valid() && fresh(w.Repr() - old(w.Repr())) && r == old(ContentOf(w)).slots[i]
    ensures ContentOf(w) == Content(old(ContentOf(w)).slots[..i] + old(ContentOf(w)).slots[i + 1..], old(ContentOf(w)).last)
  {
    hide EventWindow.Matched;
    r := w.details.data[w.details.start + i];
    w.Remove(i);
  }

  function Trimmed(s: seq<Slot>, limit: nat): (t: seq<Slot>)
    ensures |t| <= |s|
  {
    if |s| <= limit then s else s[|s| - limit..]
  }

  method TrimIn(w: EventWindow<Labels>, limit: nat) returns (evicted: seq<Slot>)
    requires w.Valid()
    modifies w.Repr()
    ensures w.Valid() && fresh(w.Repr() - old(w.Repr())) && ContentOf(w).last == old(ContentOf(w)).last
    ensures ContentOf(w).slots == Trimmed(old(ContentOf(w)).slots, limit)
    ensures evicted + ContentOf(w).slots == old(ContentOf(w)).slots
  {
    hide EventWindow.Matched;
    var n := |Trimmed(w.details.Contents(), limit)|;
    evicted := w.details.Contents()[..w.details.len - n];
    w.Trim(limit);
  }

  method ExpireIn(w: EventWindow<Labels>, cutoff: int)
    requires w.Valid()
    modifies w.Repr()
    ensures w.Valid() && fresh(w.Repr() - old(w.Repr()))
    ensures ContentOf(w) == Content(Filter(old(ContentOf(w)).slots, Survivor(cutoff)), old(ContentOf(w)).last)
  {
    hide EventWindow.Matched, Filter;
    w.Prune(Survivor(cutoff));
  }

  /** The detail with the given number gets a reference, if it has none yet. */
  method ReferIn(w: EventWindow<Labels>, sequence: int) returns (ghost i: nat, ref: EventRef<Labels>)
    requires w.Valid() && ContentOf(w).last > 0
    requires exists j :: 0 <= j < |ContentOf(w).slots| && ContentOf(w).slots[j].data.sequence == sequence
    modifies w.Repr()
    ensures w.Valid() && fresh(w.Repr() - old(w.Repr()))
    ensures i < |old(ContentOf(w)).slots| && old(ContentOf(w)).slots[i].data.sequence == sequence
    ensures var s := old(ContentOf(w)).slots;
      ContentOf(w) == Content(s[i := s[i].(data := s[i].data.(ref := Some(ref)))], old(ContentOf(w)).last)
  {
    hide EventWindow.Matched;
    var at := 0;
    while w.details.data[w.details.start + at].data.sequence != sequence
      invariant 0 <= at < w.details.len
      invariant forall j | 0 <= j < at :: w.details.Contents()[j].data.sequence != sequence
      decreases w.details.len - at
    {
      assert w.details.Contents()[at].data.sequence != sequence;
      at := at + 1;
    }
    i := at;
    ref := w.EventAt(at);
  }

  // ----- steps over all windows and the indexes -----

  ghost predicate Ready(m: Windows<Labels>, x: EventIndexes)
    reads x, Roots(m), Objects(m)
  {
    AllValid(m) && x.Valid() && Coupled(Contents(m), x.details, x.referenced, x.seen)
  }

  lemma IndexesApartFrom(w: EventWindow<Labels>, x: EventIndexes)
    ensures x !in w.Repr()
  {
  }

  /** The indexes are no part of a window. */
  lemma IndexesApart(m: Windows<Labels>, x: EventIndexes)
    ensures x !in Objects(m) && x !in Roots(m)
    ensures forall o | o in Objects(m) :: allocated(o)
    ensures forall o | o in Roots(m) :: allocated(o)
  {
    PartsAllocated(m);
    hide EventWindow.Repr, EventWindow.Roots;
    forall k | k in m ensures x !in m[k].Repr() && m[k].Roots() <= m[k].Repr() {
      IndexesApartFrom(m[k], x);
      RootsOfOne(m[k]);
    }
  }

  ghost predicate IsArrival(d: Content<Labels>, at: nat, time: int, body: Labels) {
    at < |d.slots| && var r := d.slots[at]; r.time == time && r.data.body == body && r.data.sequence == d.last
  }

  ghost predicate ArrivedAt(c: State, d: State, k: Owner, time: int, body: Labels) {
    k in c && k in d && d == c[k := d[k]] && d[k].last > c[k].last
    && |d[k].slots| == |c[k].slots| + 1
    && exists at :: 0 <= at <= |c[k].slots| && IsArrival(d[k], at, time, body)
         && d[k].slots == InsertAt(c[k].slots, at, d[k].slots[at])
  }

  method ArriveAt(m: Windows<Labels>, x: EventIndexes, k: Owner, time: int, body: Labels, overBudget: bool)
    requires Ready(m, x) && k in m
    modifies x, Objects(m)
    ensures Ready(m, x) && forall o | o in Objects(m) && o !in old(Objects(m)) :: fresh(o)
    ensures ArrivedAt(old(Contents(m)), Contents(m), k, time, body)
  {
    hide EventWindow.Valid, EventWindow.Repr, ContentOf, AllValid, Roots, Objects, Contents, EventIndexes.Valid, Coupled, Tells, InsertAt;
    IndexesApart(m, x);
    EachValid(m, k);
    ghost var c, details, referenced, seen := Contents(m), x.details, x.referenced, x.seen;
    KnownOf(c, details, referenced, seen, k);
    var indexed := x.indexes != map[];
    var ref, at := ArriveIn(m[k], time, body, indexed);
    OneChanged(m, k);
    IndexesApart(m, x);
    ghost var d := ContentOf(m[k]);
    var e := Event(k.api, k.model, m[k].nextSequence);
    var r := Record(time, EventDetail(body, ref, m[k].nextSequence));
    x.Record(e, DetailOf(r), overBudget);
    ArrivalCoupled(c, k, details, referenced, seen, at, r, d);
    ArrivalShown(c[k].slots, d, at, r);
  }

  lemma ArrivalShown(s: seq<Slot>, d: Content<Labels>, at: nat, r: Slot)
    requires at <= |s| && d.slots == InsertAt(s, at, r) && r.data.sequence == d.last
    ensures |d.slots| == |s| + 1 && d.slots[at] == r && IsArrival(d, at, r.time, r.data.body)
  {
  }

  lemma KnownOf(c: State, details: Details, referenced: set<Event>, seen: set<Event>, k: Owner)
    requires Coupled(c, details, referenced, seen) && k in c
    ensures Tells(c[k], k, details, referenced) && (c[k].last == 0 ==> c[k].slots == [])
    ensures forall e | e in seen && OwnerOf(e) == k :: e.sequence <= c[k].last
  {
    hide Told;
  }

  lemma ArrivalCoupled(c: State, k: Owner, details: Details, referenced: set<Event>, seen: set<Event>, at: nat, r: Slot,
                       d: Content<Labels>)
    requires Coupled(c, details, referenced, seen) && k in c && at <= |c[k].slots| && c[k].last < r.data.sequence == d.last
    requires d.slots == InsertAt(c[k].slots, at, r)
    ensures var e := EventOf(k, r);
      e !in seen && Coupled(c[k := d], details[e := DetailOf(r)],
                            if r.data.ref.Some? then referenced + {e} else referenced, seen + {e})
  {
    hide Tells, Coupled, InsertAt;
    var e := EventOf(k, r);
    KnownOf(c, details, referenced, seen, k);
    assert OwnerOf(e) == k;
    WithinSeen(c, details, referenced, seen);
    ArrivalTold(c[k], k, details, referenced, at, r, d.last);
    StaysCoupled(c, k, d, details, referenced, seen, details[e := DetailOf(r)],
                 if r.data.ref.Some? then referenced + {e} else referenced, seen + {e});
  }

  lemma WithinSeen(c: State, details: Details, referenced: set<Event>, seen: set<Event>)
    requires Coupled(c, details, referenced, seen)
    ensures referenced <= seen && details.Keys <= seen
  {
    hide Tells;
  }

  method UpdateAt(m: Windows<Labels>, x: EventIndexes, k: Owner, i: nat, time: int, body: Labels)
    requires Ready(m, x) && k in m && i < |Contents(m)[k].slots|
    modifies x, Objects(m)
    ensures Ready(m, x) && forall o | o in Objects(m) && o !in old(Objects(m)) :: fresh(o)
    ensures var c := old(Contents(m)); var d := c[k].slots[i].data;
      Contents(m) == c[k := Content(c[k].slots[i := Record(time, EventDetail(body, d.ref, d.sequence))], c[k].last)]
  {
    hide EventWindow.Valid, EventWindow.Repr, ContentOf, AllValid, Roots, Objects, Contents, EventIndexes.Valid, Coupled, Tells;
    IndexesApart(m, x);
    EachValid(m, k);
    ghost var c, details, referenced, seen := Contents(m), x.details, x.referenced, x.seen;
    KnownOf(c, details, referenced, seen, k);
    var r := UpdateIn(m[k], i, time, body);
    OneChanged(m, k);
    IndexesApart(m, x);
    ghost var d := ContentOf(m[k]);
    UpdateTold(c[k], k, details, referenced, i, r);
    WithinSeen(c, details, referenced, seen);
    x.Replace(x.details[EventOf(k, r) := DetailOf(r)]);
    StaysCoupled(c, k, d, details, referenced, seen, x.details, referenced, seen);
  }

  method RemoveAt(m: Windows<Labels>, x: EventIndexes, k: Owner, i: nat)
    requires Ready(m, x) && k in m && i < |Contents(m)[k].slots|
    modifies x, Objects(m)
    ensures Ready(m, x) && forall o | o in Objects(m) && o !in old(Objects(m)) :: fresh(o)
    ensures var c := old(Contents(m)); Contents(m) == c[k := Content(c[k].slots[..i] + c[k].slots[i + 1..], c[k].last)]
  {
    hide EventWindow.Valid, EventWindow.Repr, ContentOf, AllValid, Roots, Objects, Contents, EventIndexes.Valid, Coupled, Tells;
    IndexesApart(m, x);
    EachValid(m, k);
    ghost var c, details, referenced, seen := Contents(m), x.details, x.referenced, x.seen;
    KnownOf(c, details, referenced, seen, k);
    var r := RemoveIn(m[k], i);
    OneChanged(m, k);
    IndexesApart(m, x);
    ghost var d := ContentOf(m[k]);
    WithinSeen(c, details, referenced, seen);
    var e := EventOf(k, r);
    x.Replace(x.details - {e});
    RemovalTold(c[k], k, details, referenced, i);
    StaysCoupled(c, k, d, details, referenced, seen, x.details, referenced, seen);
  }

  lemma RemovalTold(c: Content<Labels>, k: Owner, details: Details, referenced: set<Event>, i: nat)
    requires Tells(c, k, details, referenced) && i < |c.slots|
    ensures Tells(Content(c.slots[..i] + c.slots[i + 1..], c.last), k, details - {EventOf(k, c.slots[i])}, referenced)
  {
    var t, e := c.slots[..i] + c.slots[i + 1..], EventOf(k, c.slots[i]);
    forall j | 0 <= j < |t| ensures t[j] == c.slots[if j < i then j else j + 1] {
    }
    forall x | x in details && OwnerOf(x) == k ensures x != e <==> Among(x, t) {
      assert Among(x, c.slots);
      var j :| 0 <= j < |c.slots| && c.slots[j].data.sequence == x.sequence;
      if j != i {
        assert t[if j < i then j else j - 1] == c.slots[j];
      }
    }
    LeavingTold(c, k, details, referenced, t, details - {e});
  }

  function EventsOf(k: Owner, s: seq<Slot>): set<Event> {
    set i | 0 <= i < |s| :: EventOf(k, s[i])
  }

  method TrimAt(m: Windows<Labels>, x: EventIndexes, k: Owner, limit: nat)
    requires Ready(m, x) && k in m
    modifies x, Objects(m)
    ensures Ready(m, x) && forall o | o in Objects(m) && o !in old(Objects(m)) :: fresh(o)
    ensures var c := old(Contents(m)); Contents(m) == c[k := Content(Trimmed(c[k].slots, limit), c[k].last)]
  {
    hide EventWindow.Valid, EventWindow.Repr, ContentOf, AllValid, Roots, Objects, Contents, EventIndexes.Valid, Coupled, Tells;
    IndexesApart(m, x);
    EachValid(m, k);
    ghost var c, details, referenced, seen := Contents(m), x.details, x.referenced, x.seen;
    KnownOf(c, details, referenced, seen, k);
    var evicted := TrimIn(m[k], limit);
    OneChanged(m, k);
    IndexesApart(m, x);
    ghost var d := ContentOf(m[k]);
    WithinSeen(c, details, referenced, seen);
    assert c[k].slots[..|evicted|] == evicted && c[k].slots[|evicted|..] == d.slots;
    EvictionTold(c[k], k, details, referenced, |evicted|);
    x.Evict(EventsOf(k, evicted));
    StaysCoupled(c, k, d, details, referenced, seen, x.details, referenced, seen);
  }

  lemma EvictionTold(c: Content<Labels>, k: Owner, details: Details, referenced: set<Event>, n: nat)
    requires Tells(c, k, details, referenced) && n <= |c.slots|
    ensures Tells(Content(c.slots[n..], c.last), k, details - EventsOf(k, c.slots[..n]), referenced)
  {
    var t, gone := c.slots[n..], EventsOf(k, c.slots[..n]);
    assert c.slots == c.slots[..n] + t;
    forall x | x in details && OwnerOf(x) == k ensures x !in gone <==> Among(x, t) {
      assert Among(x, c.slots);
      var j :| 0 <= j < |c.slots| && c.slots[j].data.sequence == x.sequence;
      if j < n {
        assert c.slots[..n][j] == c.slots[j] && EventOf(k, c.slots[j]) == x;
      } else {
        assert t[j - n] == c.slots[j];
      }
    }
    LeavingTold(c, k, details, referenced, t, details - gone);
  }

  predicate Lasts(time: int, cutoff: int) {
    cutoff == 0 || time == 0 || time >= cutoff
  }

  lemma {:induction false} FilteredSlots(s: seq<Slot>, cutoff: int)
    ensures var t := Filter(s, Survivor(cutoff));
      && (forall i | 0 <= i < |t| :: t[i] in s && Lasts(t[i].time, cutoff))
      && (forall i | 0 <= i < |s| && Lasts(s[i].time, cutoff) :: s[i] in t)
      && (Numbered(s) ==> Numbered(t))
  {
    if s != [] {
      var front, last := s[..|s| - 1], s[|s| - 1];
      FilteredSlots(front, cutoff);
      assert s == front + [last];
      var f, t := Filter(front, Survivor(cutoff)), Filter(s, Survivor(cutoff));
      if Lasts(last.time, cutoff) {
        assert t == f + [last];
        if Numbered(s) {
          LastNumbered(front, f, last);
        }
      }
    }
  }

  lemma LastNumbered(s: seq<Slot>, f: seq<Slot>, last: Slot)
    requires Numbered(s + [last]) && Numbered(f) && forall i | 0 <= i < |f| :: f[i] in s
    ensures Numbered(f + [last])
  {
    forall i | 0 <= i < |f| ensures f[i].data.sequence != last.data.sequence {
      assert f[i] in s;
      var k :| 0 <= k < |s| && s[k] == f[i];
      assert (s + [last])[k] == f[i] && (s + [last])[|s|] == last;
    }
  }

  function Remaining(details: Details, k: Owner, cutoff: int): Details {
    map e | e in details && (OwnerOf(e) != k || Lasts(details[e].time, cutoff)) :: details[e]
  }

  lemma ExpiryTold(c: Content<Labels>, k: Owner, details: Details, referenced: set<Event>, cutoff: int)
    requires Tells(c, k, details, referenced)
    ensures Tells(Content(Filter(c.slots, Survivor(cutoff)), c.last), k, Remaining(details, k, cutoff), referenced)
  {
    hide Filter;
    var t, now := Filter(c.slots, Survivor(cutoff)), Remaining(details, k, cutoff);
    FilteredSlots(c.slots, cutoff);
    forall e | e in details && OwnerOf(e) == k ensures e in now <==> Among(e, t) {
      assert Among(e, c.slots);
      var j :| 0 <= j < |c.slots| && c.slots[j].data.sequence == e.sequence;
      assert Told(c.slots, j, k, details, referenced) && EventOf(k, c.slots[j]) == e && c.slots[j] in c.slots;
      if Among(e, t) {
        var i :| 0 <= i < |t| && t[i].data.sequence == e.sequence;
        assert t[i] in t;
        var l :| 0 <= l < |c.slots| && c.slots[l] == t[i];
      }
    }
    LeavingTold(c, k, details, referenced, t, now);
  }

  method ExpireAt(m: Windows<Labels>, x: EventIndexes, k: Owner, cutoff: int)
    requires Ready(m, x) && k in m
    modifies x, Objects(m)
    ensures Ready(m, x) && forall o | o in Objects(m) && o !in old(Objects(m)) :: fresh(o)
    ensures var c := old(Contents(m)); Contents(m) == c[k := Content(Filter(c[k].slots, Survivor(cutoff)), c[k].last)]
  {
    hide EventWindow.Valid, EventWindow.Repr, ContentOf, AllValid, Roots, Objects, Contents, EventIndexes.Valid, Coupled, Tells, Filter;
    IndexesApart(m, x);
    EachValid(m, k);
    ghost var c, details, referenced, seen := Contents(m), x.details, x.referenced, x.seen;
    KnownOf(c, details, referenced, seen, k);
    ExpireIn(m[k], cutoff);
    OneChanged(m, k);
    IndexesApart(m, x);
    ghost var d := ContentOf(m[k]);
    WithinSeen(c, details, referenced, seen);
    ExpiryTold(c[k], k, details, referenced, cutoff);
    x.Replace(Remaining(x.details, k, cutoff));
    StaysCoupled(c, k, d, details, referenced, seen, x.details, referenced, seen);
  }

  function ExpiredIn(c: State, done: set<Owner>, cutoff: int): State {
    map k | k in c :: if k in done then Content(Filter(c[k].slots, Survivor(cutoff)), c[k].last) else c[k]
  }

  method ExpireAll(m: Windows<Labels>, x: EventIndexes, cutoff: int)
    requires Ready(m, x)
    modifies x, Objects(m)
    ensures Ready(m, x) && forall o | o in Objects(m) && o !in old(Objects(m)) :: fresh(o)
    ensures Contents(m) == ExpiredIn(old(Contents(m)), m.Keys, cutoff)
  {
    hide AllValid, Roots, Objects, Contents, EventIndexes.Valid, Coupled, Filter;
    ContentKeys(m);
    var rest := m.Keys;
    while rest != {}
      invariant rest <= m.Keys && Ready(m, x) && forall o | o in Objects(m) && o !in old(Objects(m)) :: fresh(o)
      invariant Contents(m) == ExpiredIn(old(Contents(m)), m.Keys - rest, cutoff)
      decreases rest
    {
      var k :| k in rest;
      ExpireAt(m, x, k, cutoff);
      rest := rest - {k};
    }
  }

  lemma ContentKeys(m: Windows<Labels>)
    requires AllValid(m)
    ensures Contents(m).Keys == m.Keys
  {
    hide AllValid;
  }

  // ----- queries -----

  predicate SameButRef(r: Slot, s: Slot) {
    r.time == s.time && r.data.body == s.data.body && r.data.sequence == s.data.sequence
  }

  /** Queries add references, and change nothing else. */
  ghost predicate SameButRefs(c: State, d: State) {
    && c.Keys == d.Keys
    && forall k | k in c :: d[k].last == c[k].last && |d[k].slots| == |c[k].slots|
                            && forall i | 0 <= i < |c[k].slots| :: SameButRef(c[k].slots[i], d[k].slots[i])
  }

  method ReferAt(m: Windows<Labels>, e: Event, ghost details: Details, ghost referenced: set<Event>, ghost seen: set<Event>)
    requires AllValid(m) && Coupled(Contents(m), details, referenced, seen) && e in details
    modifies Objects(m)
    ensures AllValid(m) && forall o | o in Objects(m) && o !in old(Objects(m)) :: fresh(o)
    ensures Coupled(Contents(m), details, referenced + {e}, seen) && SameButRefs(old(Contents(m)), Contents(m))
  {
    hide EventWindow.Valid, EventWindow.Repr, ContentOf, AllValid, Roots, Objects, Contents, Coupled, Tells;
    var k := OwnerOf(e);
    ContentKeys(m);
    EventPlaced(Contents(m), details, referenced, seen, e);
    EachValid(m, k);
    ghost var c := Contents(m);
    var i, ref := ReferIn(m[k], e.sequence);
    OneChanged(m, k);
    ReferenceCoupled(c, k, details, referenced, seen, i, ref, e);
  }

  lemma EventPlaced(c: State, details: Details, referenced: set<Event>, seen: set<Event>, e: Event)
    requires Coupled(c, details, referenced, seen) && e in details
    ensures OwnerOf(e) in c && c[OwnerOf(e)].last > 0
    ensures exists j :: 0 <= j < |c[OwnerOf(e)].slots| && c[OwnerOf(e)].slots[j].data.sequence == e.sequence
  {
    hide Told;
    assert Among(e, c[OwnerOf(e)].slots);
  }

  lemma ReferenceCoupled(c: State, k: Owner, details: Details, referenced: set<Event>, seen: set<Event>, i: nat,
                         ref: EventRef<Labels>, e: Event)
    requires Coupled(c, details, referenced, seen) && k in c && i < |c[k].slots| && EventOf(k, c[k].slots[i]) == e && e in details
    ensures var s := c[k].slots;
      var d := c[k := Content(s[i := s[i].(data := s[i].data.(ref := Some(ref)))], c[k].last)];
      Coupled(d, details, referenced + {e}, seen) && SameButRefs(c, d)
  {
    hide Tells, Coupled;
    var s := c[k].slots;
    var d := Content(s[i := s[i].(data := s[i].data.(ref := Some(ref)))], c[k].last);
    KnownOf(c, details, referenced, seen, k);
    WithinSeen(c, details, referenced, seen);
    ReferenceTold(c[k], k, details, referenced, i, ref);
    StaysCoupled(c, k, d, details, referenced, seen, details, referenced + {e}, seen);
  }

  lemma SameButRefsTransitive(c: State, d: State, e: State)
    requires SameButRefs(c, d) && SameButRefs(d, e)
    ensures SameButRefs(c, e)
  {
  }

  /** Every listed event gets a reference to its record. */
  method ReferAll(m: Windows<Labels>, events: seq<Event>, ghost details: Details, ghost referenced: set<Event>,
                  ghost seen: set<Event>)
    requires AllValid(m) && Coupled(Contents(m), details, referenced, seen) && forall e | e in events :: e in details
    modifies Objects(m)
    ensures AllValid(m) && forall o | o in Objects(m) && o !in old(Objects(m)) :: fresh(o)
    ensures Coupled(Contents(m), details, referenced + Members(events), seen) && SameButRefs(old(Contents(m)), Contents(m))
  {
    hide AllValid, Roots, Objects, Contents, Coupled, SameButRefs;
    NothingReferred(Contents(m));
    assert referenced + Members(events[..0]) == referenced;
    for n := 0 to |events|
      invariant AllValid(m) && forall o | o in Objects(m) && o !in old(Objects(m)) :: fresh(o)
      invariant Coupled(Contents(m), details, referenced + Members(events[..n]), seen)
      invariant SameButRefs(old(Contents(m)), Contents(m))
    {
      ghost var before := Contents(m);
      ReferAt(m, events[n], details, referenced + Members(events[..n]), seen);
      SameButRefsTransitive(old(Contents(m)), before, Contents(m));
      assert events[..n + 1] == events[..n] + [events[n]];
      assert referenced + Members(events[..n + 1]) == referenced + Members(events[..n]) + {events[n]};
    }
    assert events[..|events|] == events;
  }

  lemma NothingReferred(c: State)
    ensures SameButRefs(c, c)
  {
  }

  method QueryAll(m: Windows<Labels>, x: EventIndexes, key: Key, overBudget: bool, fits: bool) returns (events: seq<Event>)
    requires Ready(m, x)
    modifies x, Objects(m)
    ensures Ready(m, x) && forall o | o in Objects(m) && o !in old(Objects(m)) :: fresh(o)
    ensures SameButRefs(old(Contents(m)), Contents(m)) && x.details == old(x.details) && Right(events, x.details, key)
  {
    hide EventWindow.Repr, AllValid, Roots, Objects, Contents, EventIndexes.Valid, Coupled, SameButRefs, Right, Members;
    IndexesApart(m, x);
    ghost var referenced := x.referenced;
    events := x.Query(key, overBudget, fits);
    IndexesApart(m, x);
    RightKnown(events, x.details, key);
    ReferAll(m, events, x.details, referenced, x.seen);
  }

  lemma RightKnown(events: seq<Event>, details: Details, key: Key)
    requires Right(events, details, key)
    ensures forall e | e in events :: e in details
  {
  }

  // ----- runs -----

  datatype Change = Arrive(time: int, body: Labels, overBudget: bool) | Update(i: nat, time: int, body: Labels) | Remove(i: nat)
                  | Trim(limit: nat)

  datatype Step = At(model: Owner, change: Change) | Expire(cutoff: int) | Query(key: Key, overBudget: bool, fits: bool)

  function Updated(c: Content<Labels>, i: nat, time: int, body: Labels): Content<Labels> {
    if i >= |c.slots| then c
    else
      var d := c.slots[i].data;
      Content(c.slots[i := Record(time, EventDetail(body, d.ref, d.sequence))], c.last)
  }

  ghost predicate Changed(c: State, d: State, k: Owner, change: Change)
    requires k in c
  {
    match change
    case Arrive(time, body, _) => ArrivedAt(c, d, k, time, body)
    case Update(i, time, body) => d == c[k := Updated(c[k], i, time, body)]
    case Remove(i) =>
      d == if i < |c[k].slots| then c[k := Content(c[k].slots[..i] + c[k].slots[i + 1..], c[k].last)] else c
    case Trim(limit) => d == c[k := Content(Trimmed(c[k].slots, limit), c[k].last)]
  }

  ghost predicate Next(c: State, d: State, step: Step) {
    match step
    case At(k, change) => if k in c then Changed(c, d, k, change) else d == c
    case Expire(cutoff) => d == ExpiredIn(c, c.Keys, cutoff)
    case Query(_, _, _) => SameButRefs(c, d)
  }

  /** The details are those of the records in the windows. */
  ghost predicate ShownBy(c: State, details: Details) {
    && (forall k, i | k in c && 0 <= i < |c[k].slots| ::
          EventOf(k, c[k].slots[i]) in details && details[EventOf(k, c[k].slots[i])] == DetailOf(c[k].slots[i]))
    && (forall e | e in details :: OwnerOf(e) in c && Among(e, c[OwnerOf(e)].slots))
  }

  lemma CoupledShown(c: State, details: Details, referenced: set<Event>, seen: set<Event>)
    requires Coupled(c, details, referenced, seen)
    ensures ShownBy(c, details)
  {
    forall k, i | k in c && 0 <= i < |c[k].slots|
      ensures EventOf(k, c[k].slots[i]) in details && details[EventOf(k, c[k].slots[i])] == DetailOf(c[k].slots[i])
    {
      assert Told(c[k].slots, i, k, details, referenced);
    }
  }

  /** A query gets the sorted list of all visible records that match. */
  ghost predicate Answers(step: Step, c: State, answer: seq<Event>) {
    step.Query? ==> exists details :: ShownBy(c, details) && Right(answer, details, step.key)
  }

  method ChangeAt(m: Windows<Labels>, x: EventIndexes, k: Owner, change: Change)
    requires Ready(m, x) && k in m
    modifies x, Objects(m)
    ensures Ready(m, x) && forall o | o in Objects(m) && o !in old(Objects(m)) :: fresh(o)
    ensures k in old(Contents(m)) && Changed(old(Contents(m)), Contents(m), k, change)
  {
    hide EventWindow.Valid, EventWindow.Repr, AllValid, Roots, Objects, Contents, EventIndexes.Valid, Coupled, ArrivedAt;
    EachValid(m, k);
    ghost var c := Contents(m);
    assert c == c[k := c[k]];
    match change {
      case Arrive(time, body, overBudget) => ArriveAt(m, x, k, time, body, overBudget);
      case Update(i, time, body) =>
        if i < m[k].details.len { UpdateAt(m, x, k, i, time, body); }
      case Remove(i) =>
        if i < m[k].details.len { RemoveAt(m, x, k, i); }
      case Trim(limit) => TrimAt(m, x, k, limit);
    }
  }

  method Handle(m: Windows<Labels>, x: EventIndexes, step: Step) returns (answer: seq<Event>)
    requires Ready(m, x)
    modifies x, Objects(m)
    ensures Ready(m, x) && forall o | o in Objects(m) && o !in old(Objects(m)) :: fresh(o)
    ensures Next(old(Contents(m)), Contents(m), step) && Answers(step, old(Contents(m)), answer)
  {
    hide AllValid, Roots, Objects, Contents, EventIndexes.Valid, Coupled, Changed, ExpiredIn, SameButRefs, ShownBy, Right;
    answer := [];
    ContentKeys(m);
    match step {
      case At(k, change) =>
        if k in m { ChangeAt(m, x, k, change); }
      case Expire(cutoff) => ExpireAll(m, x, cutoff);
      case Query(key, overBudget, fits) =>
        CoupledShown(Contents(m), x.details, x.referenced, x.seen);
        answer := QueryAll(m, x, key, overBudget, fits);
    }
  }

  ghost predicate Trace(steps: seq<Step>, states: seq<State>, answers: seq<seq<Event>>) {
    |answers| <= |steps| && |states| == |answers| + 1
    && forall i | 0 <= i < |answers| :: Next(states[i], states[i + 1], steps[i]) && Answers(steps[i], states[i], answers[i])
  }

  lemma TraceGrows(steps: seq<Step>, states: seq<State>, answers: seq<seq<Event>>, c: State, answer: seq<Event>)
    requires Trace(steps, states, answers) && |answers| < |steps|
    requires Next(states[|answers|], c, steps[|answers|]) && Answers(steps[|answers|], states[|answers|], answer)
    ensures Trace(steps, states + [c], answers + [answer])
  {
    hide Next, Answers;
  }

  /** Runs begin with windows that hold nothing. */
  method Begin(models: set<Owner>, zero: Slot) returns (m: Windows<Labels>, x: EventIndexes)
    ensures Ready(m, x) && fresh(x) && forall o | o in Objects(m) :: fresh(o)
    ensures Contents(m) == map k | k in models :: Content([], 0)
  {
    hide AllValid, Roots, Objects, Contents, EventIndexes.Valid;
    m := map[];
    NoWindows(m);
    var rest := models;
    while rest != {}
      invariant rest <= models && AllValid(m) && m.Keys == models - rest && forall o | o in Objects(m) :: fresh(o)
      invariant Contents(m) == map k | k in models - rest :: Content([], 0)
      decreases rest
    {
      var k :| k in rest;
      m := Create(m, k, zero);
      rest := rest - {k};
    }
    PartsAllocated(m);
    x := new EventIndexes();
  }

  lemma NoWindows(m: Windows<Labels>)
    requires m == map[]
    ensures AllValid(m) && Contents(m) == map[] && Objects(m) == {}
  {
  }

  /** Whatever moves, arrives and leaves in between, each query gets the sorted list of the records that the
      windows then hold and that match, and at the end the windows and the indexes agree. */
  method Run(m: Windows<Labels>, x: EventIndexes, steps: seq<Step>) returns (answers: seq<seq<Event>>, ghost states: seq<State>)
    requires Ready(m, x)
    modifies x, Objects(m)
    ensures Ready(m, x) && forall o | o in Objects(m) && o !in old(Objects(m)) :: fresh(o)
    ensures |answers| == |steps| && Trace(steps, states, answers)
    ensures states[0] == old(Contents(m)) && states[|steps|] == Contents(m)
  {
    hide AllValid, Roots, Objects, Contents, EventIndexes.Valid, Coupled, Next, Answers;
    answers, states := [], [Contents(m)];
    for n := 0 to |steps|
      invariant |answers| == n && Ready(m, x) && forall o | o in Objects(m) && o !in old(Objects(m)) :: fresh(o)
      invariant Trace(steps, states, answers) && states[0] == old(Contents(m)) && states[n] == Contents(m)
    {
      hide Trace;
      var answer := Handle(m, x, steps[n]);
      TraceGrows(steps, states, answers, Contents(m), answer);
      answers, states := answers + [answer], states + [Contents(m)];
    }
  }

  /** Where a reference leads within its window. */
  lemma LeadsTo(w: EventWindow<Labels>, r: EventRef<Labels>) returns (i: nat)
    requires w.Valid() && r in w.issued
    ensures var s := ContentOf(w).slots; r.cell.Some? <==> exists j :: 0 <= j < |s| && s[j].data.sequence == r.sequence
    ensures r.cell.Some? ==>
      && i < |ContentOf(w).slots| && ContentOf(w).slots[i].data.sequence == r.sequence
      && r.cell.value.index < r.cell.value.storage.Length && r.cell.value.storage[r.cell.value.index] == ContentOf(w).slots[i]
  {
    hide EventWindow.Matched;
    w.ResolvesToOwn(r);
    var s := ContentOf(w).slots;
    assert s == w.details.Contents();
    if j :| 0 <= j < |s| && s[j].data.sequence == r.sequence {
      assert w.details.Contents()[j].data.sequence == r.sequence;
    }
    i := if r.cell.Some? then r.cell.value.index - w.details.start else 0;
  }

  lemma KnownIffAmong(c: State, k: Owner, details: Details, referenced: set<Event>, seen: set<Event>, e: Event)
    requires Coupled(c, details, referenced, seen) && k in c && OwnerOf(e) == k
    ensures e in details <==> Among(e, c[k].slots)
    ensures forall i | 0 <= i < |c[k].slots| && c[k].slots[i].data.sequence == e.sequence ::
      e in details && details[e] == DetailOf(c[k].slots[i])
  {
    forall i | 0 <= i < |c[k].slots| && c[k].slots[i].data.sequence == e.sequence
      ensures e in details && details[e] == DetailOf(c[k].slots[i])
    {
      assert Told(c[k].slots, i, k, details, referenced) && EventOf(k, c[k].slots[i]) == e;
    }
  }

  /** In every state, each reference ever given leads to the record that the indexes know under its number,
      or its record is not visible any more. */
  lemma ReferencesLeadHome(m: Windows<Labels>, x: EventIndexes, k: Owner, r: EventRef<Labels>)
    requires Ready(m, x) && k in m && r in m[k].issued
    ensures var e := Event(k.api, k.model, r.sequence);
      && (r.cell.Some? <==> e in x.details)
      && (r.cell.Some? ==> r.cell.value.index < r.cell.value.storage.Length
                           && DetailOf(r.cell.value.storage[r.cell.value.index]) == x.details[e])
  {
    hide EventWindow.Valid, EventWindow.Repr, AllValid, Contents, ContentOf, EventIndexes.Valid, Coupled;
    EachValid(m, k);
    var i := LeadsTo(m[k], r);
    KnownIffAmong(Contents(m), k, x.details, x.referenced, x.seen, Event(k.api, k.model, r.sequence));
  }
}
