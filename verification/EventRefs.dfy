/** Stable references to the details of a sliding window. Insertion, removal, reuse of the allocation and
    retention all move details, so indexes hold references, and every move rebinds them. */
module EventRefs {
  import opened Wrappers
  import opened RangeBlocks
  import opened BlockList
  import opened SlidingWindow

  /** A place in an allocation. */
  datatype Cell<B> = Cell(storage: array<Record<EventDetail<B>>>, index: nat)

  class EventRef<B> {
    var cell: Option<Cell<B>>
    var sequence: nat

    constructor (sequence: nat)
      ensures this.sequence == sequence && cell == None
    {
      this.sequence, cell := sequence, None;
    }
  }

  datatype EventDetail<B> = EventDetail(body: B, ref: Option<EventRef<B>>, sequence: nat)

  type Slots<B> = seq<Record<EventDetail<B>>>

  class EventWindow<B(0)> {
    const details: SlidingWindow<EventDetail<B>>
    var nextSequence: nat
    var hasRefs: bool
    // All references ever handed out.
    ghost var issued: set<EventRef<B>>

    /** Details are told apart by their sequence numbers, once there are any. */
    ghost predicate Numbered(s: Slots<B>)
      reads this
    {
      if nextSequence == 0 then issued == {} && forall i | 0 <= i < |s| :: s[i].data.ref == None
      else
        && (forall i | 0 <= i < |s| :: 1 <= s[i].data.sequence <= nextSequence)
        && (forall i, j | 0 <= i < j < |s| :: s[i].data.sequence != s[j].data.sequence)
    }

    /** The references that details carry are theirs. */
    ghost predicate Owned(s: Slots<B>)
      reads this`issued, this`hasRefs, issued`sequence
    {
      forall i | 0 <= i < |s| && s[i].data.ref.Some? ::
        hasRefs && s[i].data.ref.value in issued && s[i].data.ref.value.sequence == s[i].data.sequence
    }

    /** A reference is live exactly while a detail carries it; a dead one's number is gone for good. */
    ghost predicate Live(s: Slots<B>)
      reads this`issued, issued
    {
      && (forall r | r in issued && r.cell.Some? :: exists i :: 0 <= i < |s| && s[i].data.ref == Some(r))
      && (forall r, i | r in issued && r.cell.None? && 0 <= i < |s| :: s[i].data.sequence != r.sequence)
    }

    ghost predicate Settled(s: Slots<B>)
      reads this, issued
    {
      Live(s) && forall r | r in issued :: r.sequence <= nextSequence
    }

    /** The reference of detail `i` leads to where the detail is. */
    ghost predicate Points(s: Slots<B>, i: nat, data: array<Record<EventDetail<B>>>, start: nat)
      requires i < |s|
      reads this`issued, issued`cell
    {
      s[i].data.ref.Some? && s[i].data.ref.value in issued ==> s[i].data.ref.value.cell == Some(Cell(data, start + i))
    }

    ghost predicate Bound(s: Slots<B>, n: nat, data: array<Record<EventDetail<B>>>, start: nat)
      requires n <= |s|
      reads this`issued, issued`cell
    {
      forall i | 0 <= i < n :: Points(s, i, data, start)
    }

    ghost predicate Matched(s: Slots<B>, data: array<Record<EventDetail<B>>>, start: nat)
      reads this, issued
    {
      Numbered(s) && Owned(s) && Settled(s) && Bound(s, |s|, data, start)
    }

    ghost predicate Valid()
      reads Roots(), Repr()
    {
      details.InBounds() && Matched(details.Contents(), details.data, details.start)
    }

    ghost function Roots(): set<object> {
      {this, details}
    }

    ghost function Repr(): set<object>
      reads Roots()
    {
      {this, details, details.data} + issued
    }

    /** The record that a live reference leads to. */
    function Resolve(r: EventRef<B>): EventDetail<B>
      requires r.cell.Some? && r.cell.value.index < r.cell.value.storage.Length
      reads r, if r.cell.Some? then {r.cell.value.storage} else {}
    {
      r.cell.value.storage[r.cell.value.index].data
    }

    /** Every reference ever issued leads to its own record, or its record is no longer visible. */
    lemma ResolvesToOwn(r: EventRef<B>)
      requires Valid() && r in issued
      ensures r.cell.Some? <==> exists i :: 0 <= i < details.len && details.Contents()[i].data.sequence == r.sequence
      ensures r.cell.Some? ==>
        && r.cell.value.storage == details.data && details.start <= r.cell.value.index < details.start + details.len
        && Resolve(r).sequence == r.sequence && Resolve(r).ref == Some(r)
    {
      if r.cell.Some? {
        var i :| 0 <= i < details.len && details.Contents()[i].data.ref == Some(r);
        assert Points(details.Contents(), i, details.data, details.start);
      }
    }

    constructor (zero: Record<EventDetail<B>>)
      ensures Valid() && details.Contents() == [] && issued == {} && nextSequence == 0 && fresh(details) && fresh(details.data)
    {
      details := new SlidingWindow<EventDetail<B>>(zero);
      nextSequence, hasRefs, issued := 0, false, {};
    }

    lemma RefsApart(s: Slots<B>, i: nat, j: nat)
      requires Owned(s) && Numbered(s) && i < |s| && j < |s| && i != j
      ensures s[i].data.ref.Some? ==> s[j].data.ref != s[i].data.ref
    {
    }

    /** Settled but for references of details from `from` on, which may not have been bound yet. */
    ghost predicate Settling(s: Slots<B>, from: nat)
      reads this, issued
    {
      && (forall r | r in issued && r.cell.Some? :: exists i :: 0 <= i < |s| && s[i].data.ref == Some(r))
      && (forall r | r in issued :: r.sequence <= nextSequence)
      && (forall r, i | r in issued && r.cell.None? && 0 <= i < |s| && s[i].data.sequence == r.sequence ::
            from <= i && s[i].data.ref == Some(r))
    }

    /** Points all references from `from` on to where their details are now. */
    method Rebind(from: nat, ghost s: Slots<B>)
      requires details.InBounds() && details.Contents() == s && from <= |s|
      requires Owned(s) && Numbered(s) && Bound(s, from, details.data, details.start) && Settling(s, from)
      modifies issued`cell
      ensures Matched(s, details.data, details.start)
    {
      hide EventWindow.Owned, EventWindow.Numbered, EventWindow.Bound, EventWindow.Settling, EventWindow.Settled;
      if !hasRefs {
        NothingToBind(s, from);
        return;
      }
      var i := from;
      while i < details.len
        invariant from <= i <= details.len && Owned(s) && Bound(s, i, details.data, details.start) && Settling(s, i)
      {
        var ref := details.data[details.start + i].data.ref;
        assert ref == s[i].data.ref;
        if ref.Some? {
          OwnsRef(s, i);
          BindOne(i, ref.value, s);
        } else {
          NoneToBind(s, i);
        }
        i := i + 1;
      }
      AllSettled(s);
    }

    lemma NothingToBind(s: Slots<B>, from: nat)
      requires Owned(s) && !hasRefs && Settling(s, from)
      ensures Bound(s, |s|, details.data, details.start) && Settled(s)
    {
    }

    lemma NoneToBind(s: Slots<B>, i: nat)
      requires i < |s| && s[i].data.ref == None && Bound(s, i, details.data, details.start) && Settling(s, i)
      ensures Bound(s, i + 1, details.data, details.start) && Settling(s, i + 1)
    {
    }

    lemma OwnsRef(s: Slots<B>, i: nat)
      requires Owned(s) && i < |s| && s[i].data.ref.Some?
      ensures s[i].data.ref.value in issued
    {
    }

    lemma AllSettled(s: Slots<B>)
      requires Settling(s, |s|)
      ensures Settled(s)
    {
    }

    method BindOne(i: nat, ref: EventRef<B>, ghost s: Slots<B>)
      requires details.InBounds() && i < |s| && s[i].data.ref == Some(ref)
      requires Owned(s) && Numbered(s) && Bound(s, i, details.data, details.start) && Settling(s, i)
      modifies ref`cell
      ensures Owned(s) && Bound(s, i + 1, details.data, details.start) && Settling(s, i + 1)
    {
      hide EventWindow.Owned, EventWindow.Numbered;
      ref.cell := Some(Cell(details.data, details.start + i));
      forall j | 0 <= j < i ensures Points(s, j, details.data, details.start) {
        assert old(Points(s, j, details.data, details.start));
        RefsApart(s, i, j);
      }
    }

    /** Restored details get their numbers before the first one is added or referenced. */
    function Sequenced(s: Slots<B>): (t: Slots<B>)
      ensures |t| == |s|
    {
      seq(|s|, i requires 0 <= i < |s| => s[i].(data := s[i].data.(sequence := i + 1)))
    }

    method Initialize()
      requires Valid()
      modifies this`nextSequence, details.data
      ensures Valid()
      ensures details.Contents() == if old(nextSequence) == 0 then Sequenced(old(details.Contents())) else old(details.Contents())
      ensures nextSequence == if old(nextSequence) == 0 then |old(details.Contents())| else old(nextSequence)
    {
      if nextSequence != 0 {
        return;
      }
      ghost var s := details.Contents();
      forall i | details.start <= i < details.start + details.len {
        details.data[i] := details.data[i].(data := details.data[i].data.(sequence := i - details.start + 1));
      }
      nextSequence := details.len;
      forall i | 0 <= i < |s| ensures details.Contents()[i] == Sequenced(s)[i] {
      }
    }

    /** The next number, and a reference for it if there are indexes to put it in. No detail has it yet. */
    method Issue(indexed: bool, ghost s: Slots<B>, ghost data: array<Record<EventDetail<B>>>, ghost start: nat)
        returns (ref: Option<EventRef<B>>)
      requires Matched(s, data, start) && (nextSequence == 0 ==> s == [])
      modifies this
      ensures Matched(s, data, start) && nextSequence == old(nextSequence) + 1 && (ref.Some? <==> indexed)
      ensures issued == if ref.Some? then old(issued) + {ref.value} else old(issued)
      ensures ref.Some? ==> fresh(ref.value) && ref.value.sequence == nextSequence && hasRefs
      ensures forall i | 0 <= i < |s| :: s[i].data.sequence < nextSequence
      ensures forall r | r in issued && r.sequence == nextSequence :: ref == Some(r)
    {
      NextNumber(s, data, start);
      hide EventWindow.Matched;
      ref := None;
      if indexed {
        var r := new EventRef<B>(nextSequence);
        Enlist(r, s, data, start);
        ref := Some(r);
      }
    }

    method NextNumber(ghost s: Slots<B>, ghost data: array<Record<EventDetail<B>>>, ghost start: nat)
      requires Matched(s, data, start) && (nextSequence == 0 ==> s == [])
      modifies this`nextSequence
      ensures Matched(s, data, start) && nextSequence == old(nextSequence) + 1
      ensures forall i | 0 <= i < |s| :: s[i].data.sequence < nextSequence
      ensures forall r | r in issued :: r.sequence < nextSequence
    {
      hide EventWindow.Owned, EventWindow.Bound, EventWindow.Live;
      nextSequence := nextSequence + 1;
    }

    method Enlist(r: EventRef<B>, ghost s: Slots<B>, ghost data: array<Record<EventDetail<B>>>, ghost start: nat)
      requires Matched(s, data, start) && r !in issued && r.cell == None && r.sequence == nextSequence > 0
      requires forall i | 0 <= i < |s| :: s[i].data.sequence != r.sequence
      modifies this`issued, this`hasRefs
      ensures Matched(s, data, start) && issued == old(issued) + {r} && hasRefs
    {
      issued, hasRefs := issued + {r}, true;
      forall i | 0 <= i < |s| ensures Points(s, i, data, start) {
        assert old(Points(s, i, data, start));
      }
    }

    lemma InsertedSound(s: Slots<B>, at: nat, d: Record<EventDetail<B>>, data: array<Record<EventDetail<B>>>, start: nat)
      requires at <= |s| && Matched(s, data, start) && d.data.sequence == nextSequence > 0
      requires forall i | 0 <= i < |s| :: s[i].data.sequence < nextSequence
      requires d.data.ref.Some? ==> hasRefs && d.data.ref.value in issued && d.data.ref.value.sequence == nextSequence
      ensures Owned(InsertAt(s, at, d)) && Numbered(InsertAt(s, at, d))
    {
      hide EventWindow.Settled, EventWindow.Bound;
    }

    lemma InsertedSettling(s: Slots<B>, at: nat, d: Record<EventDetail<B>>, from: nat)
      requires from <= at <= |s| && Settled(s) && d.data.sequence == nextSequence
      requires forall r | r in issued && r.sequence == nextSequence :: d.data.ref == Some(r)
      ensures Settling(InsertAt(s, at, d), from)
    {
      var t := InsertAt(s, at, d);
      forall r | r in issued && r.cell.Some? ensures exists k :: 0 <= k < |t| && t[k].data.ref == Some(r) {
        var k :| 0 <= k < |s| && s[k].data.ref == Some(r);
        assert t[if k < at then k else k + 1] == s[k];
      }
    }

    lemma InsertedBound(s: Slots<B>, at: nat, d: Record<EventDetail<B>>, data: array<Record<EventDetail<B>>>, start: nat)
      requires at <= |s| && Bound(s, |s|, data, start)
      ensures Bound(InsertAt(s, at, d), at, data, start)
    {
      forall i | 0 <= i < at ensures Points(InsertAt(s, at, d), i, data, start) {
        assert Points(s, i, data, start);
      }
    }

    lemma Inserted(s: Slots<B>, at: nat, d: Record<EventDetail<B>>, data: array<Record<EventDetail<B>>>, start: nat, from: nat)
      requires from <= at <= |s| && Matched(s, data, start) && d.data.sequence == nextSequence > 0
      requires forall i | 0 <= i < |s| :: s[i].data.sequence < nextSequence
      requires d.data.ref.Some? ==> hasRefs && d.data.ref.value in issued && d.data.ref.value.sequence == nextSequence
      requires forall r | r in issued && r.sequence == nextSequence :: d.data.ref == Some(r)
      ensures Owned(InsertAt(s, at, d)) && Numbered(InsertAt(s, at, d)) && Settling(InsertAt(s, at, d), from)
      ensures Bound(InsertAt(s, at, d), at, data, start)
    {
      hide EventWindow.Settled, EventWindow.Bound, EventWindow.Owned, EventWindow.Numbered, EventWindow.Settling, InsertAt;
      InsertedSound(s, at, d, data, start);
      InsertedSettling(s, at, d, from);
      InsertedBound(s, at, d, data, start);
    }

    lemma NoneBound(s: Slots<B>, data: array<Record<EventDetail<B>>>, start: nat)
      ensures Bound(s, 0, data, start)
    {
    }

    method Append(time: int, body: B, indexed: bool) returns (ref: Option<EventRef<B>>, at: nat)
      requires Valid()
      modifies this, details, details.data, issued
      ensures Valid() && (ref.Some? <==> indexed) && nextSequence > old(nextSequence)
      ensures issued == if ref.Some? then old(issued) + {ref.value} else old(issued)
      ensures ref.Some? ==> fresh(ref.value)
      ensures fresh(Repr() - old(Repr()))
      ensures var s := if old(nextSequence) == 0 then Sequenced(old(details.Contents())) else old(details.Contents());
              at <= |s| && details.Contents() == InsertAt(s, at, Record(time, EventDetail(body, ref, nextSequence)))
    {
      hide EventWindow.Matched, EventWindow.Sequenced;
      Initialize();
      ref, at := AppendNumbered(time, body, indexed);
    }

    method AppendNumbered(time: int, body: B, indexed: bool) returns (ref: Option<EventRef<B>>, at: nat)
      requires Valid() && (nextSequence == 0 ==> details.Contents() == [])
      modifies this, details, details.data, issued
      ensures Valid() && (ref.Some? <==> indexed) && nextSequence == old(nextSequence) + 1
      ensures issued == if ref.Some? then old(issued) + {ref.value} else old(issued)
      ensures ref.Some? ==> fresh(ref.value)
      ensures details.data == old(details.data) || fresh(details.data)
      ensures at <= |old(details.Contents())|
      ensures details.Contents() == InsertAt(old(details.Contents()), at, Record(time, EventDetail(body, ref, nextSequence)))
    {
      hide EventWindow.Matched, EventWindow.Owned, EventWindow.Numbered, EventWindow.Bound, EventWindow.Settling, EventWindow.Settled;
      ghost var s := details.Contents();
      ref := Issue(indexed, s, details.data, details.start);
      var d := Record(time, EventDetail(body, ref, nextSequence));
      var moved;
      ghost var data, start := details.data, details.start;
      at, moved := details.Add(d);
      Inserted(s, at, d, data, start, if moved then 0 else at);
      NoneBound(details.Contents(), details.data, details.start);
      Rebind(if moved then 0 else at, details.Contents());
    }

    /** Storing a detail keeps its reference and its number. */
    method Set(i: nat, time: int, body: B)
      requires Valid() && i < details.len
      modifies details.data
      ensures Valid() && Repr() == old(Repr())
      ensures var d := old(details.Contents())[i].data;
              details.Contents() == old(details.Contents())[i := Record(time, EventDetail(body, d.ref, d.sequence))]
    {
      ghost var s := details.Contents();
      var d := details.data[details.start + i].data;
      details.data[details.start + i] := Record(time, EventDetail(body, d.ref, d.sequence));
      ghost var t := s[i := Record(time, EventDetail(body, d.ref, d.sequence))];
      assert details.Contents() == t;
      SameRefs(s, t);
    }

    lemma SameRefs(s: Slots<B>, t: Slots<B>)
      requires |s| == |t| && forall i | 0 <= i < |s| :: s[i].data.ref == t[i].data.ref && s[i].data.sequence == t[i].data.sequence
      requires Matched(s, details.data, details.start)
      ensures Matched(t, details.data, details.start)
    {
      forall i | 0 <= i < |t| ensures Points(t, i, details.data, details.start) {
        assert Points(s, i, details.data, details.start);
      }
      forall r | r in issued && r.cell.Some? ensures exists k :: 0 <= k < |t| && t[k].data.ref == Some(r) {
        var k :| 0 <= k < |s| && s[k].data.ref == Some(r);
        assert t[k].data.ref == Some(r);
      }
    }

    /** Settled, if detail `i` is not looked at. */
    ghost predicate SettledBut(s: Slots<B>, i: nat)
      reads this, issued
    {
      && (forall r | r in issued && r.cell.Some? :: exists k :: 0 <= k < |s| && k != i && s[k].data.ref == Some(r))
      && (forall r | r in issued :: r.sequence <= nextSequence)
      && (forall r, k | r in issued && r.cell.None? && 0 <= k < |s| && k != i :: s[k].data.sequence != r.sequence)
    }

    lemma WithoutSettled(s: Slots<B>, i: nat)
      requires i < |s| && Owned(s) && Numbered(s) && SettledBut(s, i)
      ensures var t := s[..i] + s[i + 1..]; Owned(t) && Numbered(t) && Settled(t)
    {
      var t := s[..i] + s[i + 1..];
      forall r | r in issued && r.cell.Some? ensures exists k :: 0 <= k < |t| && t[k].data.ref == Some(r) {
        var k :| 0 <= k < |s| && k != i && s[k].data.ref == Some(r);
        assert t[if k < i then k else k - 1] == s[k];
      }
    }

    /** A detail leaves: its reference dies, and no other changes. */
    method Forget(ghost i: nat, d: EventDetail<B>, ghost s: Slots<B>)
      requires i < |s| && s[i].data == d && Owned(s) && Numbered(s) && Settled(s)
      modifies issued`cell
      ensures var t := s[..i] + s[i + 1..]; Owned(t) && Numbered(t) && Settled(t)
      ensures forall r | r in issued && d.ref != Some(r) :: r.cell == old(r.cell)
    {
      if d.ref.Some? {
        OwnsRef(s, i);
        d.ref.value.cell := None;
      }
      WithoutSettled(s, i);
    }

    /** Detail `i` leaves, and the references before it stay bound. */
    method RemoveRef(i: nat, d: EventDetail<B>, ghost s: Slots<B>)
      requires i < |s| && s[i].data == d && Matched(s, details.data, details.start)
      modifies issued`cell
      ensures var t := s[..i] + s[i + 1..];
              Owned(t) && Numbered(t) && Settling(t, i) && Bound(t, i, details.data, details.start)
    {
      hide EventWindow.Owned, EventWindow.Numbered, EventWindow.Settled, EventWindow.Settling;
      Forget(i, d, s);
      ghost var t := s[..i] + s[i + 1..];
      forall j | 0 <= j < i ensures Points(t, j, details.data, details.start) {
        assert old(Points(s, j, details.data, details.start)) && t[j] == s[j];
        RefsApart(s, i, j);
      }
      SettledSettling(t, i);
    }

    method Remove(i: nat)
      requires Valid() && i < details.len
      modifies this, details, details.data, issued`cell
      ensures Valid() && issued == old(issued) && nextSequence == old(nextSequence) && fresh(Repr() - old(Repr()))
      ensures details.Contents() == old(details.Contents())[..i] + old(details.Contents())[i + 1..]
    {
      hide EventWindow.Matched, EventWindow.Owned, EventWindow.Numbered, EventWindow.Bound, EventWindow.Settling;
      ghost var s := details.Contents();
      var d := details.data[details.start + i].data;
      RemoveRef(i, d, s);
      details.Take(i);
      Rebind(i, details.Contents());
    }

    lemma SettledSettling(s: Slots<B>, from: nat)
      requires Settled(s)
      ensures Settling(s, from)
    {
    }

    /** Forgets the first of the details that are left. */
    method ForgetFront(d: EventDetail<B>, ghost s: Slots<B>, ghost data: array<Record<EventDetail<B>>>, ghost start: nat)
      requires s != [] && s[0].data == d && Matched(s, data, start)
      modifies issued`cell
      ensures Matched(s[1..], data, start + 1)
    {
      hide EventWindow.Owned, EventWindow.Numbered, EventWindow.Settled;
      Forget(0, d, s);
      ghost var t := s[1..];
      assert s[..0] + s[1..] == t;
      ghost var second := start + 1;
      forall j | 0 <= j < |t| ensures Points(t, j, data, second) {
        assert old(Points(s, j + 1, data, start)) && t[j] == s[j + 1];
        RefsApart(s, 0, j + 1);
      }
    }

    /** Forgets the first `n` details, whose place in the allocation stays behind. */
    method ForgetFirst(n: nat, ghost s: Slots<B>)
      requires details.InBounds() && details.Contents() == s && n <= |s| && Matched(s, details.data, details.start)
      modifies issued`cell
      ensures Matched(s[n..], details.data, details.start + n)
    {
      hide EventWindow.Matched;
      assert s[0..] == s;
      var i := 0;
      while i < n
        invariant 0 <= i <= n && Matched(s[i..], details.data, details.start + i)
      {
        var d := details.data[details.start + i].data;
        assert d == s[i].data == s[i..][0].data && s[i..][1..] == s[i + 1..];
        ForgetFront(d, s[i..], details.data, details.start + i);
        i := i + 1;
      }
    }

    lemma NoneMatched(s: Slots<B>, from: array<Record<EventDetail<B>>>, i: nat, to: array<Record<EventDetail<B>>>, j: nat)
      requires s == [] && Matched(s, from, i)
      ensures Matched(s, to, j)
    {
    }

    lemma Unbound(s: Slots<B>, from: array<Record<EventDetail<B>>>, i: nat)
      requires Matched(s, from, i)
      ensures Owned(s) && Numbered(s) && Settling(s, 0) && forall a, j: nat {:trigger Bound(s, 0, a, j)} :: Bound(s, 0, a, j)
    {
    }

    method Compact(previousCapacity: nat)
      requires Valid()
      modifies details, issued`cell
      ensures Valid() && details.Contents() == old(details.Contents()) && (details.data == old(details.data) || fresh(details.data))
    {
      hide EventWindow.Matched, EventWindow.Owned, EventWindow.Numbered, EventWindow.Settled, EventWindow.Settling, EventWindow.Bound;
      ghost var s, data, start := details.Contents(), details.data, details.start;
      var underused := details.Underused(previousCapacity);
      if details.len == 0 {
        details.Release();
        NoneMatched(s, data, start, details.data, details.start);
      } else if underused {
        details.MoveOut();
        Unbound(s, data, start);
        Rebind(0, s);
      }
    }

    /** Evicts the oldest details beyond the limit: their references die, the others still lead home. */
    method Trim(limit: nat)
      requires Valid()
      modifies this, details, details.data, issued`cell
      ensures Valid() && issued == old(issued) && nextSequence == old(nextSequence) && fresh(Repr() - old(Repr()))
      ensures var n := |old(details.Contents())|;
              details.Contents() == if n <= limit then old(details.Contents()) else old(details.Contents())[n - limit..]
    {
      hide EventWindow.Matched;
      if details.len <= limit {
        return;
      }
      ghost var s := details.Contents();
      var removed, previousCapacity := details.len - limit, details.data.Length - details.start;
      ForgetFirst(removed, s);
      details.Advance(removed);
      Compact(previousCapacity);
    }

    /** What a list of details must satisfy before its references are bound. */
    ghost predicate Sound(s: Slots<B>)
      reads this, issued
    {
      Owned(s) && Numbered(s) && Settled(s)
    }

    method ForgetIf(gone: bool, d: EventDetail<B>, ghost front: Slots<B>, ghost rest: Slots<B>)
      requires rest != [] && rest[0].data == d && Sound(front + rest)
      modifies issued`cell
      ensures Sound(front + (if gone then [] else [rest[0]]) + rest[1..])
    {
      hide EventWindow.Owned, EventWindow.Numbered, EventWindow.Settled;
      ghost var s := front + rest;
      if gone {
        assert s[|front|] == rest[0];
        Forget(|front|, d, s);
        assert s[..|front|] + s[|front| + 1..] == front + [] + rest[1..];
      } else {
        assert front + [rest[0]] + rest[1..] == s;
      }
    }

    /** Forgets the details that `keep` rejects. */
    method ForgetRejected(keep: Record<EventDetail<B>> -> bool, ghost s: Slots<B>)
      requires details.InBounds() && details.Contents() == s && Sound(s)
      modifies issued`cell
      ensures Sound(Filter(s, keep))
    {
      hide EventWindow.Sound;
      var n := 0;
      assert Filter(s[..0], keep) + s[0..] == s;
      while n < details.len
        invariant 0 <= n <= |s| && Sound(Filter(s[..n], keep) + s[n..])
      {
        hide Filter;
        var d := details.data[details.start + n];
        assert d == s[n] == s[n..][0] && s[n..][1..] == s[n + 1..];
        NextFiltered(s, keep, n);
        ForgetIf(!keep(d), d.data, Filter(s[..n], keep), s[n..]);
        n := n + 1;
      }
      assert s[..n] == s && Filter(s, keep) + s[n..] == Filter(s, keep);
    }

    static lemma NextFiltered<T>(s: seq<T>, keep: T -> bool, n: nat)
      requires n < |s|
      ensures Filter(s[..n + 1], keep) == Filter(s[..n], keep) + if keep(s[n]) then [s[n]] else []
    {
      assert s[..n + 1][..n] == s[..n];
    }

    lemma MatchedSound(s: Slots<B>, data: array<Record<EventDetail<B>>>, start: nat)
      requires Matched(s, data, start)
      ensures Sound(s)
    {
    }

    /** Expiry, or any other filter that keeps the order. */
    method Prune(keep: Record<EventDetail<B>> -> bool)
      requires Valid()
      modifies this, details, details.data, issued`cell
      ensures Valid() && issued == old(issued) && nextSequence == old(nextSequence) && fresh(Repr() - old(Repr()))
      ensures details.Contents() == Filter(old(details.Contents()), keep)
    {
      hide EventWindow.Matched, EventWindow.Owned, EventWindow.Numbered, EventWindow.Settled, EventWindow.Settling, EventWindow.Bound;
      hide Filter, Compacted, KeptCount, RejectedBefore;
      ghost var s := details.Contents();
      var capacity := details.data.Length - details.start;
      MatchedSound(s, details.data, details.start);
      ForgetRejected(keep, s);
      hide EventWindow.Sound;
      FilterLength(s, keep);
      var kept, _ := details.FilterInPlace(keep);
      CompactedAll(s, keep);
      details.CutTo(kept);
      SettledSettling(details.Contents(), 0);
      NoneBound(details.Contents(), details.data, details.start);
      Rebind(0, details.Contents());
      Compact(capacity);
    }

    lemma RefPoints(s: Slots<B>, i: nat)
      requires Matched(s, details.data, details.start) && i < |s| && s[i].data.ref.Some?
      ensures var r := s[i].data.ref.value;
              r in issued && r.cell == Some(Cell(details.data, details.start + i)) && r.sequence == s[i].data.sequence
    {
      assert Points(s, i, details.data, details.start);
    }

    /** A reference to the detail at `i`, for an index that is being built. */
    method EventAt(i: nat) returns (ref: EventRef<B>)
      requires Valid() && i < details.len
      modifies this, details.data, issued`cell
      ensures Valid() && ref in issued && ref.cell == Some(Cell(details.data, details.start + i))
      ensures fresh(issued - old(issued)) && fresh(Repr() - old(Repr()))
      ensures nextSequence == if old(nextSequence) == 0 then |old(details.Contents())| else old(nextSequence)
      ensures var s := if old(nextSequence) == 0 then Sequenced(old(details.Contents())) else old(details.Contents());
              details.Contents() == s[i := s[i].(data := s[i].data.(ref := Some(ref)))] && ref.sequence == s[i].data.sequence
    {
      hide EventWindow.Matched, EventWindow.Sequenced;
      Initialize();
      ref := RefAt(i);
    }

    method RefAt(i: nat) returns (ref: EventRef<B>)
      requires Valid() && nextSequence > 0 && i < details.len
      modifies this`issued, this`hasRefs, details.data
      ensures Valid() && ref in issued && ref.cell == Some(Cell(details.data, details.start + i))
      ensures fresh(issued - old(issued)) && ref.sequence == old(details.Contents())[i].data.sequence
      ensures var s := old(details.Contents()); details.Contents() == s[i := s[i].(data := s[i].data.(ref := Some(ref)))]
    {
      hide EventWindow.Matched;
      var d := details.data[details.start + i].data;
      if d.ref.Some? {
        ref := d.ref.value;
        RefPoints(details.Contents(), i);
      } else {
        ref := FirstRef(i, d);
      }
    }

    method FirstRef(i: nat, d: EventDetail<B>) returns (ref: EventRef<B>)
      requires Valid() && nextSequence > 0 && i < details.len && details.Contents()[i].data == d && d.ref == None
      modifies this`issued, this`hasRefs, details.data
      ensures Valid() && issued == old(issued) + {ref} && fresh(ref)
      ensures ref.cell == Some(Cell(details.data, details.start + i)) && ref.sequence == d.sequence
      ensures var s := old(details.Contents()); details.Contents() == s[i := s[i].(data := d.(ref := Some(ref)))]
    {
      hide EventWindow.Matched;
      ghost var s := details.Contents();
      ref := new EventRef<B>(d.sequence);
      ref.cell := Some(Cell(details.data, details.start + i));
      Adopt(i, ref, s);
      details.data[details.start + i] := details.data[details.start + i].(data := d.(ref := Some(ref)));
      assert details.Contents() == s[i := s[i].(data := d.(ref := Some(ref)))];
    }

    method Adopt(i: nat, ref: EventRef<B>, ghost s: Slots<B>)
      requires i < |s| && Matched(s, details.data, details.start) && nextSequence > 0
      requires s[i].data.ref == None && ref !in issued && ref.sequence == s[i].data.sequence
      requires ref.cell == Some(Cell(details.data, details.start + i))
      modifies this`issued, this`hasRefs
      ensures issued == old(issued) + {ref} && hasRefs
      ensures Matched(s[i := s[i].(data := s[i].data.(ref := Some(ref)))], details.data, details.start)
    {
      ghost var t := s[i := s[i].(data := s[i].data.(ref := Some(ref)))];
      issued, hasRefs := issued + {ref}, true;
      forall j | 0 <= j < |t| ensures Points(t, j, details.data, details.start) {
        assert j != i ==> old(Points(s, j, details.data, details.start));
      }
      forall r | r in issued && r.cell.Some? ensures exists k :: 0 <= k < |t| && t[k].data.ref == Some(r) {
        if r == ref {
          assert t[i].data.ref == Some(r);
        } else {
          var k :| 0 <= k < |s| && s[k].data.ref == Some(r);
          assert t[k].data.ref == Some(r);
        }
      }
    }
  }
}
