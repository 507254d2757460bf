/** Buckets of records by key, and the records of one bucket by completion time. */
module RecordBuckets {
  import opened ProtocolEdge

  /** A record, by its position among the records to reconcile. */
  datatype Ref = Ref(index: nat)

  /** The keys of the buckets that a record belongs to. */
  datatype Entry = Entry(role: Role, keys: set<string>)

  type Buckets = map<string, seq<Ref>>

  function Members(buckets: Buckets, key: string): seq<Ref> {
    if key in buckets then buckets[key] else []
  }

  // ----- filling the buckets -----

  /** The buckets hold only records of the role, under their own keys. */
  ghost predicate FilledOnly(buckets: Buckets, entries: seq<Entry>, k: nat, role: Role) {
    forall key, r | r in Members(buckets, key) ::
      r.index < k && r.index < |entries| && entries[r.index].role == role && key in entries[r.index].keys
  }

  /** The buckets hold all of the first `k` records that have the role. */
  ghost predicate FilledAll(buckets: Buckets, entries: seq<Entry>, k: nat, role: Role) {
    forall r: Ref, key | r.index < k && r.index < |entries| && entries[r.index].role == role && key in entries[r.index].keys ::
      r in Members(buckets, key)
  }

  function Append(buckets: Buckets, key: string, r: Ref): Buckets {
    buckets[key := Members(buckets, key) + [r]]
  }

  /** `r` is now in the buckets of `keys` as well, and nothing else changed. */
  ghost predicate Extended(before: Buckets, after: Buckets, keys: set<string>, r: Ref) {
    forall key, x :: x in Members(after, key) <==> x in Members(before, key) || (key in keys && x == r)
  }

  lemma AppendExtends(before: Buckets, b: Buckets, keys: set<string>, key: string, r: Ref)
    requires Extended(before, b, keys, r)
    ensures Extended(before, Append(b, key, r), keys + {key}, r)
  {
  }

  method AppendAll(buckets: Buckets, keys: set<string>, r: Ref) returns (b: Buckets)
    ensures Extended(buckets, b, keys, r)
  {
    b := buckets;
    var rest := keys;
    while rest != {}
      invariant rest <= keys && Extended(buckets, b, keys - rest, r)
      decreases rest
    {
      var key :| key in rest;
      AppendExtends(buckets, b, keys - rest, key, r);
      assert keys - rest + {key} == keys - (rest - {key});
      b := Append(b, key, r);
      rest := rest - {key};
    }
    assert keys - rest == keys;
  }

  method FillRecord(buckets: Buckets, entries: seq<Entry>, i: nat, role: Role) returns (b: Buckets)
    requires i < |entries| && FilledOnly(buckets, entries, i, role) && FilledAll(buckets, entries, i, role)
    ensures FilledOnly(b, entries, i + 1, role) && FilledAll(b, entries, i + 1, role)
  {
    b := buckets;
    if entries[i].role == role {
      b := AppendAll(buckets, entries[i].keys, Ref(i));
    }
    forall r: Ref, key | r.index < i + 1 && entries[r.index].role == role && key in entries[r.index].keys
      ensures r in Members(b, key)
    {
      if r.index == i {
        assert r == Ref(i);
      }
    }
  }

  method FillBuckets(entries: seq<Entry>) returns (fallbacks: Buckets, natives: Buckets)
    ensures FilledOnly(fallbacks, entries, |entries|, Fallback) && FilledAll(fallbacks, entries, |entries|, Fallback)
    ensures FilledOnly(natives, entries, |entries|, Native) && FilledAll(natives, entries, |entries|, Native)
  {
    fallbacks, natives := map[], map[];
    var i := 0;
    while i < |entries|
      invariant 0 <= i <= |entries|
      invariant FilledOnly(fallbacks, entries, i, Fallback) && FilledAll(fallbacks, entries, i, Fallback)
      invariant FilledOnly(natives, entries, i, Native) && FilledAll(natives, entries, i, Native)
    {
      fallbacks := FillRecord(fallbacks, entries, i, Fallback);
      natives := FillRecord(natives, entries, i, Native);
      i := i + 1;
    }
  }

  ghost predicate Meet(fallbacks: Buckets, natives: Buckets, key: string, f: Ref, n: Ref) {
    f in Members(fallbacks, key) && n in Members(natives, key)
  }

  /** Two records meet in a bucket exactly when they have a key in common. */
  lemma MeetIffShared(fallbacks: Buckets, natives: Buckets, entries: seq<Entry>, f: Ref, n: Ref)
    requires FilledOnly(fallbacks, entries, |entries|, Fallback) && FilledAll(fallbacks, entries, |entries|, Fallback)
    requires FilledOnly(natives, entries, |entries|, Native) && FilledAll(natives, entries, |entries|, Native)
    requires f.index < |entries| && entries[f.index].role == Fallback
    requires n.index < |entries| && entries[n.index].role == Native
    ensures (exists key :: key in fallbacks.Keys && Meet(fallbacks, natives, key, f, n))
       <==> (exists key :: key in entries[f.index].keys && key in entries[n.index].keys)
  {
    if key :| key in entries[f.index].keys && key in entries[n.index].keys {
      assert f in Members(fallbacks, key) && n in Members(natives, key);
      assert key in fallbacks.Keys && Meet(fallbacks, natives, key, f, n);
    }
  }

  // ----- the completion window -----

  ghost predicate InRange(times: seq<int>, refs: seq<Ref>) {
    forall r | r in refs :: r.index < |times|
  }

  ghost predicate ByCompletion(refs: seq<Ref>, times: seq<int>)
    requires InRange(times, refs)
  {
    forall i, j | 0 <= i < j < |refs| :: times[refs[i].index] <= times[refs[j].index]
  }

  ghost predicate SameMembers(s: seq<Ref>, t: seq<Ref>) {
    forall r :: r in s <==> r in t
  }

  lemma InsertedMembers(s: seq<Ref>, at: nat, r: Ref)
    requires at <= |s|
    ensures forall x :: x in s[..at] + [r] + s[at..] <==> x in s || x == r
  {
    assert s == s[..at] + s[at..];
  }

  lemma InsertedPair(s: seq<Ref>, times: seq<int>, at: nat, r: Ref, i: nat, j: nat)
    requires at <= |s| && InRange(times, s) && r.index < |times| && ByCompletion(s, times)
    requires at > 0 ==> times[s[at - 1].index] <= times[r.index]
    requires at < |s| ==> times[r.index] < times[s[at].index]
    requires i < j <= |s| && InRange(times, s[..at] + [r] + s[at..])
    ensures var t := s[..at] + [r] + s[at..]; times[t[i].index] <= times[t[j].index]
  {
    if j < at || at < i {
      // Both were there before.
    } else if j == at {
      assert i < at - 1 ==> times[s[i].index] <= times[s[at - 1].index];
    } else if i == at {
      assert at < j - 1 ==> times[s[at].index] <= times[s[j - 1].index];
    }
  }

  lemma InsertedInRange(s: seq<Ref>, times: seq<int>, at: nat, r: Ref)
    requires at <= |s| && InRange(times, s) && r.index < |times|
    ensures InRange(times, s[..at] + [r] + s[at..])
  {
    InsertedMembers(s, at, r);
  }

  lemma InsertByCompletion(s: seq<Ref>, times: seq<int>, at: nat, r: Ref)
    requires at <= |s| && InRange(times, s) && r.index < |times| && ByCompletion(s, times)
    requires at > 0 ==> times[s[at - 1].index] <= times[r.index]
    requires at < |s| ==> times[r.index] < times[s[at].index]
    ensures InRange(times, s[..at] + [r] + s[at..])
    ensures ByCompletion(s[..at] + [r] + s[at..], times)
  {
    InsertedInRange(s, times, at, r);
    hide InRange;
    var t := s[..at] + [r] + s[at..];
    forall i, j | 0 <= i < j < |t| ensures times[t[i].index] <= times[t[j].index] {
      InsertedPair(s, times, at, r, i, j);
    }
  }

  /** Each record as often as before. */
  ghost predicate SameBag(s: seq<Ref>, t: seq<Ref>) {
    multiset(s) == multiset(t)
  }

  lemma NoneInBag()
    ensures SameBag([], [])
  {
  }

  lemma InsertedBag(s: seq<Ref>, t: seq<Ref>, at: nat, r: Ref)
    requires at <= |s| && SameBag(s, t)
    ensures SameBag(s[..at] + [r] + s[at..], t + [r])
  {
    assert s == s[..at] + s[at..];
  }

  method SortByCompletion(refs: seq<Ref>, times: seq<int>) returns (s: seq<Ref>)
    requires InRange(times, refs)
    ensures SameBag(s, refs) && SameMembers(s, refs) && InRange(times, s) && ByCompletion(s, times)
  {
    hide SameBag;
    s := [];
    var i := 0;
    NoneInBag();
    while i < |refs|
      invariant 0 <= i <= |refs| && SameBag(s, refs[..i])
      invariant SameMembers(s, refs[..i]) && InRange(times, s) && ByCompletion(s, times)
    {
      var at := |s|;
      while at > 0 && times[refs[i].index] < times[s[at - 1].index]
        invariant 0 <= at <= |s|
        invariant at < |s| ==> times[refs[i].index] < times[s[at].index]
      {
        at := at - 1;
      }
      InsertedMembers(s, at, refs[i]);
      InsertByCompletion(s, times, at, refs[i]);
      InsertedBag(s, refs[..i], at, refs[i]);
      s := s[..at] + [refs[i]] + s[at..];
      assert refs[..i + 1] == refs[..i] + [refs[i]];
      i := i + 1;
    }
    assert refs[..i] == refs;
  }

  /** The first record, by binary search, that completes at or after the time `t`. */
  method FirstFrom(refs: seq<Ref>, times: seq<int>, t: int) returns (i: nat)
    requires InRange(times, refs) && ByCompletion(refs, times)
    ensures i <= |refs|
    ensures forall k | 0 <= k < i :: times[refs[k].index] < t
    ensures forall k | i <= k < |refs| :: times[refs[k].index] >= t
  {
    i := 0;
    var j := |refs|;
    while i < j
      invariant i <= j <= |refs|
      invariant forall k | 0 <= k < i :: times[refs[k].index] < t
      invariant forall k | j <= k < |refs| :: times[refs[k].index] >= t
    {
      var h := (i + j) / 2;
      if times[refs[h].index] < t {
        i := h + 1;
      } else {
        j := h;
      }
    }
  }

  predicate InWindow(times: seq<int>, r: Ref, at: int) {
    r.index < |times| && at - TOLERANCE_MAX <= times[r.index] <= at + TOLERANCE_MAX
  }

  /** The records that complete within the largest tolerance of the time `at`. */
  method Window(refs: seq<Ref>, times: seq<int>, at: int) returns (window: seq<Ref>)
    requires InRange(times, refs) && ByCompletion(refs, times)
    ensures forall r :: r in window <==> (r in refs && InWindow(times, r, at))
  {
    var start := FirstFrom(refs, times, at - TOLERANCE_MAX);
    var end := FirstFrom(refs, times, at + TOLERANCE_MAX + 1);
    assert start > 0 ==> times[refs[start - 1].index] < at - TOLERANCE_MAX;
    window := refs[start..end];
    forall r | r in refs && InWindow(times, r, at) ensures r in window {
      var k :| 0 <= k < |refs| && refs[k] == r;
      assert window[k - start] == r;
    }
    forall r | r in window ensures r in refs && InWindow(times, r, at) {
      var k :| 0 <= k < |window| && window[k] == r;
      assert refs[start + k] == r;
    }
  }
}
