/** The coordinator of the response interceptor: usage that it saw waits a while for the native report of the
    same request. Each method is one atomic step: a section under the coordinator's lock, or one write to the
    ledger, which happens outside it. */
module UsageFallbacks {
  import opened Sequences
  import opened Wrappers
  import opened StableOrder
  import opened OccurrenceIndex

  const MILLISECOND := 1_000_000
  const LATE_NATIVE_WINDOW := 30_000 * MILLISECOND

  type Pairs = map<Report, Report>

  class UsageFallbackCoordinator {
    // Whether a fallback and a native with the same fingerprint, or with a common shape key, can be the
    // same request, and how good the pair is.
    const sameFingerprint: (Report, Report) -> Option<Score>
    const sameShape: (Report, Report) -> Option<Score>
    const order: Report -> Order
    // For how long a native report can still be matched.
    const retention: Occurrence -> int

    var pending: Index
    var pendingShapes: Index
    var natives: Index
    var nativeShapes: Index
    var fallbacks: Index
    var fallbackShapes: Index
    var cancelled: set<Report>

    // The ledger, the callers about to write to it, and the natives whose fallback is about to be removed
    // from it.
    var ledger: set<Report>
    var writing: set<Report>
    var removing: map<Report, Report>

    ghost var waiting: set<Occurrence>
    ghost var recentNatives: set<Occurrence>
    ghost var recentFallbacks: set<Occurrence>
    // Fallbacks whose timer was started: it may fire even after they were taken away.
    ghost var timers: set<Occurrence>
    ghost var scheduled: set<Report>
    ghost var arrived: set<Report>
    ghost var superseded: set<Report>
    ghost var committed: set<Report>
    // The pairs: fallbacks to natives, and back.
    ghost var nativeOf: map<Report, Report>
    ghost var fallbackOf: map<Report, Report>

    // ----- what holds between any two steps -----

    ghost predicate Indexed()
      reads `pending, `pendingShapes, `natives, `nativeShapes, `fallbacks, `fallbackShapes,
            `waiting, `recentNatives, `recentFallbacks
    {
      && ByKey(pending, waiting) && ByKeys(pendingShapes, waiting) && WellKeyed(waiting)
      && ByKey(natives, recentNatives) && ByKeys(nativeShapes, recentNatives) && WellKeyed(recentNatives)
      && ByKey(fallbacks, recentFallbacks) && ByKeys(fallbackShapes, recentFallbacks) && WellKeyed(recentFallbacks)
    }

    /** Recorded, or about to be. */
    ghost predicate Held(r: Report)
      reads `ledger, `writing
    {
      r in ledger || r in writing
    }

    ghost predicate Alike(f: Report, n: Report)
    {
      (f.key == n.key && sameFingerprint(f, n).Some?)
      || ((exists k :: k in n.keys && k in f.keys) && sameShape(f, n).Some?)
    }

    /** Pairs are one to one, of two reports that can be the same request. */
    ghost predicate PairedBy(to: Pairs, from: Pairs)
      reads `scheduled, `arrived
    {
      && (forall f | f in to :: f in scheduled && to[f] in from && from[to[f]] == f && Alike(f, to[f]))
      && (forall n | n in from :: n in arrived && from[n] in to && to[from[n]] == n)
    }

    ghost predicate Once(live: set<Occurrence>) {
      forall o, p | o in live && p in live && o.report == p.report :: o == p
    }

    /** What can still be matched has not been. */
    ghost predicate FreeBy(to: Pairs, from: Pairs)
      reads `waiting, `recentNatives, `recentFallbacks, `timers, `scheduled, `arrived, `committed, `cancelled
    {
      && Once(waiting) && Once(recentNatives) && Once(recentFallbacks)
      && (forall o | o in waiting :: o.report in scheduled && o.report !in to && o.report !in cancelled)
      && (forall o | o in timers :: o.report in scheduled && (o in waiting || o.report in cancelled))
      && (forall o | o in recentNatives :: o.report in arrived && o.report !in from)
      && (forall o | o in recentFallbacks :: o.report in committed && o.report !in to)
    }

    /** It waits, and its timer was started. */
    ghost predicate Waits(f: Report)
      reads `waiting, `timers
    {
      exists o :: o in waiting && o in timers && o.report == f
    }

    /** A fallback without a partner waits, was superseded or was committed. */
    ghost predicate ToldBy(to: Pairs)
      reads `scheduled, `arrived, `committed, `superseded, `cancelled, `waiting, `timers
    {
      && scheduled !! arrived && committed <= scheduled && superseded <= scheduled && committed !! superseded
      && committed + superseded <= cancelled <= scheduled
      && (forall f | f in cancelled && f !in committed && f !in superseded :: f in to)
      && (forall f | f in scheduled && f !in cancelled && f !in to :: Waits(f))
    }

    /** Of each pair exactly one report is held, and that is the fallback until the native has replaced it.
        Without a partner, natives and committed fallbacks are held, and no other fallback is. */
    ghost predicate ConservedBy(to: Pairs, from: Pairs, except: set<Report>)
      reads `ledger, `writing, `removing, `scheduled, `arrived, `committed
    {
      && ledger !! writing && (forall r | Held(r) :: r in scheduled || r in arrived)
      && (forall f | f in to :: Held(f) != Held(to[f]))
      && (forall n | n in removing :: n in from && from[n] == removing[n] && Held(removing[n]))
      && (forall n | n in arrived && n !in from && n !in except :: Held(n))
      && (forall f | f in scheduled && f !in to :: Held(f) <==> f in committed)
    }

    /** The same, while a fallback is being committed. */
    ghost predicate FreeBut(f: Report)
      reads `waiting, `recentNatives, `recentFallbacks, `timers, `scheduled, `arrived, `committed, `cancelled, `nativeOf, `fallbackOf
    {
      && Once(waiting) && Once(recentNatives) && Once(recentFallbacks)
      && (forall o | o in waiting :: o.report in scheduled && o.report !in nativeOf && o.report !in cancelled)
      && (forall o | o in timers :: o.report in scheduled && (o in waiting || o.report in cancelled))
      && (forall o | o in recentNatives :: o.report in arrived && o.report !in fallbackOf)
      && (forall o | o in recentFallbacks :: (o.report in committed || o.report == f) && o.report !in nativeOf)
    }

    ghost predicate Paired()
      reads `nativeOf, `fallbackOf, `scheduled, `arrived
    {
      PairedBy(nativeOf, fallbackOf)
    }

    ghost predicate Free()
      reads `waiting, `recentNatives, `recentFallbacks, `timers, `scheduled, `arrived, `committed, `cancelled, `nativeOf, `fallbackOf
    {
      FreeBy(nativeOf, fallbackOf)
    }

    ghost predicate Told()
      reads `scheduled, `arrived, `committed, `superseded, `cancelled, `waiting, `timers, `nativeOf
    {
      ToldBy(nativeOf)
    }

    ghost predicate Conserved()
      reads `ledger, `writing, `removing, `scheduled, `arrived, `committed, `nativeOf, `fallbackOf
    {
      ConservedBy(nativeOf, fallbackOf, {})
    }

    ghost predicate Valid()
      reads this
    {
      Indexed() && Paired() && Free() && Told() && Conserved()
    }

    constructor (sameFingerprint: (Report, Report) -> Option<Score>, sameShape: (Report, Report) -> Option<Score>,
                 order: Report -> Order, retention: Occurrence -> int)
      ensures Valid() && ledger == {} && writing == {}
    {
      this.sameFingerprint, this.sameShape, this.order, this.retention := sameFingerprint, sameShape, order, retention;
      pending, pendingShapes, natives, nativeShapes, fallbacks, fallbackShapes := map[], map[], map[], map[], map[], map[];
      cancelled, ledger, writing, removing := {}, {}, {}, map[];
      waiting, recentNatives, recentFallbacks, timers, scheduled, arrived := {}, {}, {}, {}, {}, {};
      superseded, committed, nativeOf, fallbackOf := {}, {}, map[], map[];
    }

    /** When all callers are done, each pair has left exactly one record, natives without a partner are
        recorded, and so are committed fallbacks without one. Once none waits, these are all that were not
        superseded: no fallback is dropped. */
    lemma OneRecordEach()
      requires Valid() && writing == {} && removing == map[]
      ensures waiting == {} ==> forall f | f in scheduled && f !in nativeOf && f !in superseded :: f in ledger
      ensures forall f | f in nativeOf :: (f in ledger) != (nativeOf[f] in ledger)
      ensures forall n | n in arrived && n !in fallbackOf :: n in ledger
      ensures forall f | f in scheduled && f !in nativeOf :: f in ledger <==> f in committed
    {
      assert forall r :: Held(r) <==> r in ledger;
    }

    // ----- inside the lock -----

    ghost function MatchableNatives(now: int): set<Occurrence>
      reads `recentNatives
    {
      Kept(recentNatives, StillMatched(retention, now))
    }

    ghost function LateFallbacks(now: int): set<Occurrence>
      reads `recentFallbacks
    {
      Kept(recentFallbacks, StillLate(now))
    }

    /** A native can be matched for its retention, a committed fallback for half a minute. */
    lemma MatchedInTime(o: Occurrence, now: int)
      ensures o in MatchableNatives(now) <==> o in recentNatives && o.observedAt >= now - retention(o)
      ensures o in LateFallbacks(now) <==> o in recentFallbacks && o.observedAt >= now - 30_000_000_000
    {
    }

    method Cleanup(now: int)
      requires Indexed() && Free()
      modifies `pending, `pendingShapes, `natives, `nativeShapes, `fallbacks, `fallbackShapes,
               `recentNatives, `recentFallbacks
      ensures Indexed() && Free()
      ensures recentNatives == old(MatchableNatives(now)) && recentFallbacks == old(LateFallbacks(now))
    {
      hide UsageFallbackCoordinator.Indexed, UsageFallbackCoordinator.Free;
      CleanNatives(now);
      CleanFallbacks(now);
      CleanPending();
    }

    method CleanPending()
      requires Indexed() && Free()
      modifies `pending, `pendingShapes
      ensures Indexed() && Free()
    {
      hide ByKey, ByKeys, WellKeyed;
      pending, pendingShapes := Retain(pending, NotIn(cancelled), waiting);
      assert Kept(waiting, NotIn(cancelled)) == waiting;
    }

    method CleanNatives(now: int)
      requires Indexed() && Free()
      modifies `natives, `nativeShapes, `recentNatives
      ensures Indexed() && Free() && recentNatives == old(MatchableNatives(now))
    {
      hide ByKey, ByKeys, WellKeyed, Kept;
      KeptSome(recentNatives, StillMatched(retention, now));
      natives, nativeShapes := Retain(natives, StillMatched(retention, now), recentNatives);
      recentNatives := Kept(recentNatives, StillMatched(retention, now));
    }

    method CleanFallbacks(now: int)
      requires Indexed() && Free()
      modifies `fallbacks, `fallbackShapes, `recentFallbacks
      ensures Indexed() && Free() && recentFallbacks == old(LateFallbacks(now))
    {
      hide ByKey, ByKeys, WellKeyed, Kept;
      KeptSome(recentFallbacks, StillLate(now));
      fallbacks, fallbackShapes := Retain(fallbacks, StillLate(now), recentFallbacks);
      recentFallbacks := Kept(recentFallbacks, StillLate(now));
    }

    method TakePending(o: Occurrence)
      requires Indexed()
      modifies `pending, `pendingShapes, `waiting
      ensures Indexed() && waiting == old(waiting) - {o}
    {
      hide ByKey, ByKeys;
      pending := RemoveByKey(pending, o, waiting);
      pendingShapes := RemoveByKeys(pendingShapes, o, waiting);
      waiting := waiting - {o};
    }

    method TakeNative(o: Occurrence)
      requires Indexed()
      modifies `natives, `nativeShapes, `recentNatives
      ensures Indexed() && recentNatives == old(recentNatives) - {o}
    {
      hide ByKey, ByKeys;
      natives := RemoveByKey(natives, o, recentNatives);
      nativeShapes := RemoveByKeys(nativeShapes, o, recentNatives);
      recentNatives := recentNatives - {o};
    }

    method TakeFallback(o: Occurrence)
      requires Indexed()
      modifies `fallbacks, `fallbackShapes, `recentFallbacks
      ensures Indexed() && recentFallbacks == old(recentFallbacks) - {o}
    {
      hide ByKey, ByKeys;
      fallbacks := RemoveByKey(fallbacks, o, recentFallbacks);
      fallbackShapes := RemoveByKeys(fallbackShapes, o, recentFallbacks);
      recentFallbacks := recentFallbacks - {o};
    }

    /** The best candidate with the fingerprint; without one, the best that shares a shape key. */
    method Choose(index: Index, shapes: Index, report: Report, byKey: Occurrence -> Option<Score>,
                  byShape: Occurrence -> Option<Score>, ghost live: set<Occurrence>) returns (chosen: Option<Occurrence>)
      requires ByKey(index, live) && ByKeys(shapes, live)
      ensures Chosen(chosen, report, byKey, byShape, live)
    {
      chosen := BestOf(Listed(index, report.key), None, {}, byKey, order);
      ghost var same := SameKey(live, report.key);
      assert {} + Members(Listed(index, report.key)) == same by {
        forall o ensures o in Members(Listed(index, report.key)) <==> o in same {
          assert o in Listed(index, report.key) <==> o in live && o.report.key == report.key;
        }
      }
      if chosen == None {
        chosen := BestByKeys(shapes, report.keys, live, byShape, order);
      }
    }

    ghost predicate Chosen(chosen: Option<Occurrence>, report: Report, byKey: Occurrence -> Option<Score>,
                           byShape: Occurrence -> Option<Score>, live: set<Occurrence>)
    {
      if exists o :: o in SameKey(live, report.key) && byKey(o).Some?
      then chosen.Some? && Best(chosen, SameKey(live, report.key), byKey, order)
      else Best(chosen, Sharing(live, report.keys), byShape, order)
    }

    /** The native that a new fallback joins: the best of those alike. */
    ghost predicate NativeChosen(chosen: Option<Occurrence>, f: Report, live: set<Occurrence>) {
      && Chosen(chosen, f, NativeFor(sameFingerprint, f), NativeFor(sameShape, f), live)
      && (chosen.Some? <==> exists o :: o in live && Alike(f, o.report))
      && (chosen.Some? ==> chosen.value in live && Alike(f, chosen.value.report))
    }

    /** The fallback that a new native joins. */
    ghost predicate FallbackChosen(chosen: Option<Occurrence>, n: Report, live: set<Occurrence>) {
      && Chosen(chosen, n, FallbackFor(sameFingerprint, n), FallbackFor(sameShape, n), live)
      && (chosen.Some? <==> exists o :: o in live && Alike(o.report, n))
      && (chosen.Some? ==> chosen.value in live && Alike(chosen.value.report, n))
    }

    lemma NativeIsAlike(chosen: Option<Occurrence>, f: Report, live: set<Occurrence>)
      requires Chosen(chosen, f, NativeFor(sameFingerprint, f), NativeFor(sameShape, f), live)
      ensures NativeChosen(chosen, f, live)
    {
      if chosen == None {
        forall o | o in live ensures !Alike(f, o.report) {
          assert o in Sharing(live, f.keys) ==> NativeFor(sameShape, f)(o) == None;
          assert o in SameKey(live, f.key) ==> NativeFor(sameFingerprint, f)(o) == None;
        }
      }
    }

    lemma FallbackIsAlike(chosen: Option<Occurrence>, n: Report, live: set<Occurrence>)
      requires Chosen(chosen, n, FallbackFor(sameFingerprint, n), FallbackFor(sameShape, n), live)
      ensures FallbackChosen(chosen, n, live)
    {
      if chosen == None {
        forall o | o in live ensures !Alike(o.report, n) {
          assert o in Sharing(live, n.keys) ==> FallbackFor(sameShape, n)(o) == None;
          assert o in SameKey(live, n.key) ==> FallbackFor(sameFingerprint, n)(o) == None;
        }
      }
    }

    // ----- the steps -----

    /** A new fallback, of which nothing is known yet. */
    ghost predicate New(f: Report)
      reads `scheduled, `cancelled, `committed, `nativeOf, `waiting, `timers
    {
      f in scheduled && f !in cancelled && f !in committed && f !in nativeOf
      && (forall o | o in waiting || o in timers :: o.report != f)
    }

    ghost method Register(f: Report)
      requires Valid() && f !in scheduled && f !in arrived
      modifies `scheduled
      ensures Indexed() && Paired() && Free() && ToldBy(nativeOf[f := f]) && Conserved()
      ensures New(f) && scheduled == old(scheduled) + {f}
    {
      hide UsageFallbackCoordinator.Indexed, UsageFallbackCoordinator.Waits;
      scheduled := scheduled + {f};
    }

    lemma JoinPaired(to: Pairs, from: Pairs, f: Report, n: Report)
      requires PairedBy(to, from) && f in scheduled && n in arrived && f !in to && n !in from && Alike(f, n)
      ensures PairedBy(to[f := n], from[n := f])
    {
    }

    lemma JoinFree(to: Pairs, from: Pairs, f: Report, n: Report)
      requires FreeBy(to, from)
      requires forall o | o in waiting || o in recentFallbacks :: o.report != f
      requires forall o | o in recentNatives :: o.report != n
      ensures FreeBy(to[f := n], from[n := f])
    {
      hide UsageFallbackCoordinator.Once;
    }

    lemma JoinConserved(to: Pairs, from: Pairs, f: Report, n: Report)
      requires PairedBy(to, from) && ConservedBy(to, from, {n}) && Held(f) != Held(n) && f !in to && n !in from && n !in removing
      ensures ConservedBy(to[f := n], from[n := f], {})
    {
      hide UsageFallbackCoordinator.Held, UsageFallbackCoordinator.Alike;
    }

    /** Joins a fallback and a native that had no partners. Just one of them must be held. */
    ghost method Join(f: Report, n: Report)
      requires Paired() && Free() && ToldBy(nativeOf[f := n]) && ConservedBy(nativeOf, fallbackOf, {n})
      requires f in scheduled && n in arrived && f !in nativeOf && n !in fallbackOf && Alike(f, n) && Held(f) != Held(n)
      requires forall o | o in waiting || o in recentFallbacks :: o.report != f
      requires forall o | o in recentNatives :: o.report != n
      requires n !in removing
      modifies `nativeOf, `fallbackOf
      ensures Paired() && Free() && Told() && Conserved()
      ensures nativeOf == old(nativeOf)[f := n] && fallbackOf == old(fallbackOf)[n := f]
    {
      hide UsageFallbackCoordinator.PairedBy, UsageFallbackCoordinator.FreeBy, UsageFallbackCoordinator.ConservedBy,
           UsageFallbackCoordinator.Held, UsageFallbackCoordinator.Alike;
      JoinPaired(nativeOf, fallbackOf, f, n);
      JoinFree(nativeOf, fallbackOf, f, n);
      JoinConserved(nativeOf, fallbackOf, f, n);
      nativeOf, fallbackOf := nativeOf[f := n], fallbackOf[n := f];
    }

    method JoinNative(f: Report, o: Occurrence)
      requires Indexed() && Paired() && Free() && ToldBy(nativeOf[f := f]) && Conserved()
      requires New(f) && o in recentNatives && Alike(f, o.report)
      modifies `natives, `nativeShapes, `recentNatives, `nativeOf, `fallbackOf
      ensures Valid() && nativeOf == old(nativeOf)[f := o.report]
    {
      hide UsageFallbackCoordinator.Indexed, UsageFallbackCoordinator.Paired, UsageFallbackCoordinator.Alike,
           UsageFallbackCoordinator.Waits;
      assert o.report in arrived && o.report !in fallbackOf && Held(o.report) && !Held(f);
      TakeNative(o);
      Join(f, o.report);
    }

    /** A fallback is reported. If a native like it was there just before, the best of them and the fallback
        are a pair, and the fallback is never recorded; otherwise it waits, and a timer starts. */
    method Schedule(f: Report, at: int, now: int) returns (ghost partner: Option<Occurrence>)
      requires Valid() && f !in scheduled && f !in arrived && Distinct(f.keys)
      modifies this
      ensures Valid() && ledger == old(ledger) && writing == old(writing)
      ensures scheduled == if f.key == "" then old(scheduled) else old(scheduled) + {f}
      ensures if f.key == "" then partner == None else NativeChosen(partner, f, old(MatchableNatives(now)))
      ensures nativeOf == if partner.Some? then old(nativeOf)[f := partner.value.report] else old(nativeOf)
      ensures var more := if f.key != "" && partner == None then {Occurrence(f, at)} else {};
              waiting == old(waiting) + more && timers == old(timers) + more
    {
      hide UsageFallbackCoordinator.Indexed, UsageFallbackCoordinator.Paired, UsageFallbackCoordinator.Free,
           UsageFallbackCoordinator.Told, UsageFallbackCoordinator.Conserved, UsageFallbackCoordinator.Alike,
           UsageFallbackCoordinator.Chosen, UsageFallbackCoordinator.ToldBy,
           UsageFallbackCoordinator.MatchableNatives, UsageFallbackCoordinator.New;
      partner := None;
      if f.key == "" {
        return;
      }
      Register(f);
      Cleanup(now);
      var chosen := ChooseNative(f);
      partner := chosen;
      if chosen.Some? {
        JoinNative(f, chosen.value);
      } else {
        Wait(Occurrence(f, at));
      }
    }

    method ChooseNative(f: Report) returns (chosen: Option<Occurrence>)
      requires Indexed()
      ensures NativeChosen(chosen, f, recentNatives)
    {
      chosen := Choose(natives, nativeShapes, f, NativeFor(sameFingerprint, f), NativeFor(sameShape, f), recentNatives);
      NativeIsAlike(chosen, f, recentNatives);
    }

    method PutPending(o: Occurrence)
      requires Indexed() && o !in waiting && Distinct(o.report.keys)
      modifies `pending, `pendingShapes, `waiting
      ensures Indexed() && waiting == old(waiting) + {o}
    {
      hide ByKey, ByKeys;
      AddedByKey(pending, waiting, o);
      pending := Added(pending, o.report.key, o);
      pendingShapes := AddByKeys(pendingShapes, o, waiting);
      waiting := waiting + {o};
    }

    method Wait(o: Occurrence)
      requires Indexed() && Paired() && Free() && ToldBy(nativeOf[o.report := o.report]) && Conserved()
      requires New(o.report) && Distinct(o.report.keys)
      modifies `pending, `pendingShapes, `waiting, `timers
      ensures Valid() && waiting == old(waiting) + {o} && timers == old(timers) + {o}
    {
      hide UsageFallbackCoordinator.Indexed, UsageFallbackCoordinator.PairedBy, UsageFallbackCoordinator.ConservedBy;
      PutPending(o);
      timers := timers + {o};
      forall f | f in scheduled && f !in cancelled && f !in nativeOf ensures Waits(f) {
        assert f != o.report ==> old(Waits(f));
        assert f == o.report ==> o in waiting && o in timers;
      }
    }

    // ----- a native arrives -----

    ghost predicate Unknown(n: Report)
      reads `scheduled, `arrived
    {
      n !in scheduled && n !in arrived
    }

    /** The caller will record the native. */
    method Accept(n: Report)
      requires Valid() && Unknown(n)
      modifies `arrived, `writing
      ensures Valid() && n in writing && arrived == old(arrived) + {n} && writing == old(writing) + {n}
      ensures n !in fallbackOf && n !in removing && forall o | o in recentNatives :: o.report != n
    {
      hide UsageFallbackCoordinator.Indexed, UsageFallbackCoordinator.Alike, UsageFallbackCoordinator.Once;
      arrived, writing := arrived + {n}, writing + {n};
    }

    /** A waiting fallback stops waiting; what becomes of it is for the caller to say. */
    method Cancel(o: Occurrence, ghost n: Report)
      requires Valid() && o in waiting
      modifies `pending, `pendingShapes, `waiting, `cancelled
      ensures Indexed() && Paired() && Free() && Conserved()
      ensures cancelled == old(cancelled) + {o.report} && waiting == old(waiting) - {o}
      ensures forall p | p in waiting || p in recentFallbacks :: p.report != o.report
      ensures o.report in scheduled && o.report !in nativeOf && o.report !in committed && o.report !in superseded && !Held(o.report)
      ensures ToldBy(nativeOf[o.report := n])
    {
      hide UsageFallbackCoordinator.Indexed, UsageFallbackCoordinator.PairedBy, UsageFallbackCoordinator.Held;
      TakePending(o);
      cancelled := cancelled + {o.report};
      forall f | f in scheduled && f !in cancelled && f !in nativeOf[o.report := n] ensures Waits(f) {
        assert old(Waits(f));
      }
    }

    /** A waiting fallback is cancelled: the native is recorded in its stead. */
    method JoinPending(o: Occurrence, n: Report)
      requires Valid() && Unknown(n) && o in waiting && Alike(o.report, n)
      modifies `arrived, `writing, `pending, `pendingShapes, `waiting, `cancelled, `nativeOf, `fallbackOf
      ensures Valid() && arrived == old(arrived) + {n} && writing == old(writing) + {n}
      ensures waiting == old(waiting) - {o} && nativeOf == old(nativeOf)[o.report := n]
    {
      hide UsageFallbackCoordinator.Indexed, UsageFallbackCoordinator.PairedBy, UsageFallbackCoordinator.FreeBy,
           UsageFallbackCoordinator.ToldBy, UsageFallbackCoordinator.Alike;
      Accept(n);
      assert Held(n);
      Cancel(o, n);
      Exempt(nativeOf, fallbackOf, n);
      hide UsageFallbackCoordinator.ConservedBy;
      Join(o.report, n);
    }

    lemma Exempt(to: Pairs, from: Pairs, n: Report)
      requires ConservedBy(to, from, {})
      ensures ConservedBy(to, from, {n})
    {
    }

    /** The native has arrived, but nobody is to record it yet. */
    method Suspend(n: Report)
      requires Valid() && Unknown(n)
      modifies `arrived
      ensures Indexed() && Paired() && Free() && Told() && ConservedBy(nativeOf, fallbackOf, {n})
      ensures arrived == old(arrived) + {n} && !Held(n) && n !in fallbackOf && n !in removing
      ensures forall o | o in recentNatives :: o.report != n
    {
      hide UsageFallbackCoordinator.Indexed, UsageFallbackCoordinator.Alike, UsageFallbackCoordinator.Once;
      arrived := arrived + {n};
    }

    method Release(o: Occurrence)
      requires Valid() && o in recentFallbacks
      modifies `fallbacks, `fallbackShapes, `recentFallbacks
      ensures Valid() && Held(o.report) && o.report in scheduled && o.report in cancelled && o.report !in nativeOf
      ensures forall p | p in waiting || p in recentFallbacks :: p.report != o.report
    {
      hide UsageFallbackCoordinator.Indexed, UsageFallbackCoordinator.PairedBy;
      TakeFallback(o);
    }

    lemma ToldMore(to: Pairs, f: Report, n: Report)
      requires ToldBy(to)
      ensures ToldBy(to[f := n])
    {
    }

    /** A committed fallback is to be removed from the ledger. Its write may still be under way. */
    method JoinCommitted(o: Occurrence, n: Report)
      requires Valid() && Unknown(n) && o in recentFallbacks && Alike(o.report, n)
      modifies `arrived, `removing, `fallbacks, `fallbackShapes, `recentFallbacks, `nativeOf, `fallbackOf
      ensures Valid() && arrived == old(arrived) + {n}
      ensures removing == old(removing)[n := o.report] && nativeOf == old(nativeOf)[o.report := n]
    {
      hide UsageFallbackCoordinator.Indexed, UsageFallbackCoordinator.PairedBy, UsageFallbackCoordinator.FreeBy,
           UsageFallbackCoordinator.ToldBy, UsageFallbackCoordinator.ConservedBy, UsageFallbackCoordinator.Alike,
           UsageFallbackCoordinator.Held;
      Release(o);
      Suspend(n);
      ToldMore(nativeOf, o.report, n);
      Join(o.report, n);
      MarkRemoval(n, o.report);
    }

    method MarkRemoval(n: Report, f: Report)
      requires Conserved() && n in fallbackOf && fallbackOf[n] == f && Held(f)
      modifies `removing
      ensures Conserved() && removing == old(removing)[n := f]
    {
      removing := removing[n := f];
    }

    method PutNative(o: Occurrence)
      requires Indexed() && o !in recentNatives && Distinct(o.report.keys)
      modifies `natives, `nativeShapes, `recentNatives
      ensures Indexed() && recentNatives == old(recentNatives) + {o}
    {
      hide ByKey, ByKeys;
      AddedByKey(natives, recentNatives, o);
      natives := Added(natives, o.report.key, o);
      nativeShapes := AddByKeys(nativeShapes, o, recentNatives);
      recentNatives := recentNatives + {o};
    }

    method Remember(n: Report, now: int)
      requires Valid() && Unknown(n) && Distinct(n.keys)
      modifies `arrived, `writing, `natives, `nativeShapes, `recentNatives
      ensures Valid() && arrived == old(arrived) + {n} && writing == old(writing) + {n}
      ensures recentNatives == old(recentNatives) + {Occurrence(n, now)}
    {
      hide UsageFallbackCoordinator.Indexed, UsageFallbackCoordinator.PairedBy;
      Accept(n);
      PutNative(Occurrence(n, now));
    }

    method ChooseFallback(index: Index, shapes: Index, n: Report, ghost live: set<Occurrence>) returns (chosen: Option<Occurrence>)
      requires ByKey(index, live) && ByKeys(shapes, live)
      ensures FallbackChosen(chosen, n, live)
    {
      chosen := Choose(index, shapes, n, FallbackFor(sameFingerprint, n), FallbackFor(sameShape, n), live);
      FallbackIsAlike(chosen, n, live);
    }

    method ChoosePending(n: Report) returns (chosen: Option<Occurrence>)
      requires Indexed()
      ensures FallbackChosen(chosen, n, waiting)
    {
      chosen := ChooseFallback(pending, pendingShapes, n, waiting);
    }

    method ChooseCommitted(n: Report) returns (chosen: Option<Occurrence>)
      requires Indexed()
      ensures FallbackChosen(chosen, n, recentFallbacks)
    {
      chosen := ChooseFallback(fallbacks, fallbackShapes, n, recentFallbacks);
    }

    /** A native arrives. It takes the place of the best waiting fallback; without one, of the best that
        was committed lately; without one, it is remembered for a fallback that may follow. */
    method Arrive(n: Report, now: int) returns (ghost joined: Option<Occurrence>)
      requires Valid() && Unknown(n) && Distinct(n.keys)
      modifies this
      ensures Valid() && ledger == old(ledger) && arrived == old(arrived) + {n} && scheduled == old(scheduled)
      ensures n.key == "" ==> joined == None && recentNatives == old(recentNatives)
      ensures n.key != "" && joined == None ==> recentNatives == old(MatchableNatives(now)) + {Occurrence(n, now)}
      ensures var early := n.key != "" && (exists o :: o in old(waiting) && Alike(o.report, n));
              && (n.key != "" ==> FallbackChosen(joined, n, if early then old(waiting) else old(LateFallbacks(now))))
              && waiting == (if early then old(waiting) - {joined.value} else old(waiting))
              && writing == (if early || joined == None then old(writing) + {n} else old(writing))
              && removing == (if early || joined == None then old(removing) else old(removing)[n := joined.value.report])
      ensures nativeOf == if joined.Some? then old(nativeOf)[joined.value.report := n] else old(nativeOf)
    {
      hide UsageFallbackCoordinator.Indexed, UsageFallbackCoordinator.Paired, UsageFallbackCoordinator.Free,
           UsageFallbackCoordinator.Told, UsageFallbackCoordinator.Conserved, UsageFallbackCoordinator.Alike,
           UsageFallbackCoordinator.Chosen,
           UsageFallbackCoordinator.MatchableNatives, UsageFallbackCoordinator.LateFallbacks;
      joined := None;
      if n.key == "" {
        Accept(n);
        return;
      }
      Cleanup(now);
      var chosen := ChoosePending(n);
      joined := chosen;
      if chosen.Some? {
        JoinPending(chosen.value, n);
        return;
      }
      chosen := ChooseCommitted(n);
      joined := chosen;
      if chosen.Some? {
        JoinCommitted(chosen.value, n);
        return;
      }
      Remember(n, now);
    }

    // ----- timers, writes and replacement -----

    method PutFallback(o: Occurrence)
      requires Indexed() && o !in recentFallbacks && Distinct(o.report.keys)
      modifies `fallbacks, `fallbackShapes, `recentFallbacks
      ensures Indexed() && recentFallbacks == old(recentFallbacks) + {o}
    {
      hide ByKey, ByKeys;
      AddedByKey(fallbacks, recentFallbacks, o);
      fallbacks := Added(fallbacks, o.report.key, o);
      fallbackShapes := AddByKeys(fallbackShapes, o, recentFallbacks);
      recentFallbacks := recentFallbacks + {o};
    }

    /** The fallback will be recorded by the caller. */
    method Commit(f: Report, now: int)
      requires Indexed() && Paired() && Free() && Conserved() && ToldBy(nativeOf[f := f])
      requires f in scheduled && f in cancelled && f !in nativeOf && f !in committed && f !in superseded && !Held(f)
      requires Distinct(f.keys)
      modifies `committed, `writing, `fallbacks, `fallbackShapes, `recentFallbacks
      ensures Valid() && writing == old(writing) + {f}
    {
      hide UsageFallbackCoordinator.Indexed, UsageFallbackCoordinator.Alike;
      PutFallback(Occurrence(f, now));
      CommitReport(f);
    }

    method CommitReport(f: Report)
      requires Paired() && FreeBut(f) && Conserved() && ToldBy(nativeOf[f := f])
      requires f in scheduled && f in cancelled && f !in nativeOf && f !in committed && f !in superseded && !Held(f)
      modifies `committed, `writing
      ensures Paired() && Free() && Told() && Conserved() && writing == old(writing) + {f}
    {
      hide UsageFallbackCoordinator.Alike, UsageFallbackCoordinator.Once;
      committed, writing := committed + {f}, writing + {f};
    }

    /** A timer fires. A fallback that no native replaced is committed; its write to the ledger follows. */
    method Fire(o: Occurrence, now: int)
      requires Valid() && o in timers
      modifies this
      ensures Valid() && ledger == old(ledger)
      ensures writing == if o.report in old(cancelled) then old(writing) else old(writing) + {o.report}
    {
      hide UsageFallbackCoordinator.Indexed, UsageFallbackCoordinator.Paired, UsageFallbackCoordinator.Told, UsageFallbackCoordinator.Conserved;
      if o.report !in cancelled {
        FireWaiting(o, now);
      }
    }

    method FireWaiting(o: Occurrence, now: int)
      requires Valid() && o in waiting
      modifies this
      ensures Valid() && ledger == old(ledger) && writing == old(writing) + {o.report}
    {
      hide UsageFallbackCoordinator.Indexed, UsageFallbackCoordinator.Paired, UsageFallbackCoordinator.Free,
           UsageFallbackCoordinator.Told, UsageFallbackCoordinator.Conserved, UsageFallbackCoordinator.ToldBy;
      KeyedApart(o);
      Cancel(o, o.report);
      Commit(o.report, now);
      Cleanup(now);
    }

    lemma KeyedApart(o: Occurrence)
      requires Indexed() && o in waiting
      ensures Distinct(o.report.keys)
    {
    }

    /** A caller writes a record to the ledger. */
    method Write(r: Report)
      requires Valid() && r in writing
      modifies `ledger, `writing
      ensures Valid() && ledger == old(ledger) + {r} && writing == old(writing) - {r}
    {
      hide UsageFallbackCoordinator.Indexed, UsageFallbackCoordinator.PairedBy, UsageFallbackCoordinator.Alike;
      ledger, writing := ledger + {r}, writing - {r};
    }

    /** The caller of a native removes the fallback from the ledger and will record the native in its stead.
        If the fallback is not there yet, the native is dropped instead. */
    method Replace(n: Report)
      requires Valid() && n in removing
      modifies `ledger, `writing, `removing
      ensures Valid()
      ensures var f := old(removing)[n];
              if f in old(ledger) then ledger == old(ledger) - {f} && writing == old(writing) + {n}
              else ledger == old(ledger) && writing == old(writing)
    {
      hide UsageFallbackCoordinator.Indexed, UsageFallbackCoordinator.Alike, UsageFallbackCoordinator.Free,
           UsageFallbackCoordinator.Waits, UsageFallbackCoordinator.Held, UsageFallbackCoordinator.PairedBy;
      var f := removing[n];
      removing := removing - {n};
      hide UsageFallbackCoordinator.ConservedBy;
      if f in ledger {
        Exchange(n, f);
      }
    }

    /** The native takes the place of its fallback. */
    method Exchange(n: Report, f: Report)
      requires scheduled !! arrived && Paired() && Conserved() && n in fallbackOf && fallbackOf[n] == f && n !in removing && f in ledger
      modifies `ledger, `writing
      ensures Conserved() && ledger == old(ledger) - {f} && writing == old(writing) + {n}
    {
      hide UsageFallbackCoordinator.Alike;
      ledger, writing := ledger - {f}, writing + {n};
    }

    /** A fresher snapshot of the same stream follows: one waiting fallback of each fingerprint goes. */
    method Supersede(keys: seq<string>) returns (ghost gone: set<Occurrence>)
      requires Valid()
      modifies this
      ensures Valid() && ledger == old(ledger) && writing == old(writing)
      ensures nativeOf == old(nativeOf) && committed == old(committed)
      ensures gone <= old(waiting) && waiting == old(waiting) - gone && superseded == old(superseded) + Reports(gone)
      ensures OneOfEach(keys, gone, waiting)
    {
      hide UsageFallbackCoordinator.Paired, UsageFallbackCoordinator.Free, UsageFallbackCoordinator.Told,
           UsageFallbackCoordinator.Conserved, UsageFallbackCoordinator.Indexed, OneOfEach;
      gone := {};
      var i := 0;
      NoneOfNone(waiting);
      while i < |keys|
        invariant 0 <= i <= |keys| && Valid() && ledger == old(ledger) && writing == old(writing)
        invariant nativeOf == old(nativeOf) && committed == old(committed)
        invariant gone <= old(waiting) && waiting == old(waiting) - gone && superseded == old(superseded) + Reports(gone)
        invariant OneOfEach(keys[..i], gone, waiting)
      {
        var items := Listed(pending, keys[i]);
        AllListed(keys[i]);
        assert keys[..i + 1] == keys[..i] + [keys[i]];
        if keys[i] != "" && items != [] {
          OneMoreOf(keys[..i], keys[i], gone, waiting, items[0]);
          SupersedeOne(items[0]);
          gone := gone + {items[0]};
        } else {
          NoMoreOf(keys[..i], keys[i], gone, waiting);
        }
        i := i + 1;
      }
      assert keys[..i] == keys;
    }

    lemma AllListed(key: string)
      requires Indexed()
      ensures forall o :: o in Listed(pending, key) <==> o in waiting && o.report.key == key
    {
    }

    method SupersedeOne(o: Occurrence)
      requires Valid() && o in waiting
      modifies `pending, `pendingShapes, `waiting, `cancelled, `superseded
      ensures Valid() && superseded == old(superseded) + {o.report} && waiting == old(waiting) - {o}
    {
      hide UsageFallbackCoordinator.Indexed, UsageFallbackCoordinator.PairedBy, UsageFallbackCoordinator.FreeBy,
           UsageFallbackCoordinator.ConservedBy;
      Cancel(o, o.report);
      superseded := superseded + {o.report};
    }
  }

  ghost function Reports(live: set<Occurrence>): set<Report> {
    set o | o in live :: o.report
  }

  /** Only occurrences of named fingerprints are gone. Of each, one is gone or none is left, and if the names
      are different, not more than one is gone. */
  ghost predicate OneOfEach(keys: seq<string>, gone: set<Occurrence>, left: set<Occurrence>) {
    && (forall o | o in gone :: o.report.key in keys && o.report.key != "")
    && (forall o | o in left && o.report.key in keys && o.report.key != "" :: SameKey(gone, o.report.key) != {})
    && (Distinct(keys) ==> forall o, p | o in gone && p in gone && o.report.key == p.report.key :: o == p)
  }

  lemma NoneOfNone(left: set<Occurrence>)
    ensures OneOfEach([], {}, left)
  {
  }

  lemma OneMoreOf(keys: seq<string>, key: string, gone: set<Occurrence>, left: set<Occurrence>, o: Occurrence)
    requires OneOfEach(keys, gone, left) && key != "" && o in left && o.report.key == key
    ensures OneOfEach(keys + [key], gone + {o}, left - {o})
  {
    var more := gone + {o};
    assert o in SameKey(more, key);
    forall p | p in left - {o} && p.report.key in keys + [key] && p.report.key != ""
      ensures SameKey(more, p.report.key) != {}
    {
      if p.report.key != key {
        assert SameKey(gone, p.report.key) <= SameKey(more, p.report.key);
      }
    }
    if Distinct(keys + [key]) {
      assert Distinct(keys) && key !in keys by {
        var all := keys + [key];
        assert all[|keys|] == key && forall i | 0 <= i < |keys| :: all[i] == keys[i];
      }
    }
  }

  lemma NoMoreOf(keys: seq<string>, key: string, gone: set<Occurrence>, left: set<Occurrence>)
    requires OneOfEach(keys, gone, left) && (key == "" || forall o | o in left :: o.report.key != key)
    ensures OneOfEach(keys + [key], gone, left)
  {
    if Distinct(keys + [key]) {
      assert Distinct(keys) by {
        var all := keys + [key];
        assert forall i | 0 <= i < |keys| :: all[i] == keys[i];
      }
    }
  }

  ghost function SameKey(live: set<Occurrence>, key: string): set<Occurrence> {
    set o | o in live && o.report.key == key
  }

  function StillMatched(retention: Occurrence -> int, now: int): Occurrence -> bool {
    (o: Occurrence) => now - o.observedAt <= retention(o)
  }

  function StillLate(now: int): Occurrence -> bool {
    (o: Occurrence) => now - o.observedAt <= LATE_NATIVE_WINDOW
  }

  function NotIn(cancelled: set<Report>): Occurrence -> bool {
    (o: Occurrence) => o.report !in cancelled
  }

  function NativeFor(score: (Report, Report) -> Option<Score>, f: Report): Occurrence -> Option<Score> {
    (o: Occurrence) => score(f, o.report)
  }

  function FallbackFor(score: (Report, Report) -> Option<Score>, n: Report): Occurrence -> Option<Score> {
    (o: Occurrence) => score(o.report, n)
  }
}
