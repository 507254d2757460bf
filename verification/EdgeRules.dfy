/** The rules of edges one by one: when two records can be one request, and how strong the pair is. */
module EdgeRules {
  import opened Wrappers
  import opened Text
  import opened StableOrder
  import opened ProtocolEdge

  // ----- shapes -----

  /** Two shapes with the same counts of input and of output. */
  ghost predicate Share(lefts: seq<Shape>, rights: seq<Shape>, i: int, j: int) {
    && 0 <= i < |lefts| && 0 <= j < |rights|
    && lefts[i].fullInput == rights[j].fullInput && lefts[i].fullOutput == rights[j].fullOutput
  }

  ghost predicate StrongestShare(lefts: seq<Shape>, rights: seq<Shape>, strength: int) {
    && (exists i, j :: Share(lefts, rights, i, j) && lefts[i].strength + rights[j].strength == strength)
    && (forall i, j | Share(lefts, rights, i, j) :: lefts[i].strength + rights[j].strength <= strength)
  }

  lemma {:induction false} BestForIsMax(left: Shape, rights: seq<Shape>, best: int)
    ensures var b := BestFor(left, rights, best);
            && b >= best && (forall j | Share([left], rights, 0, j) :: left.strength + rights[j].strength <= b)
            && (b == best || exists j :: Share([left], rights, 0, j) && left.strength + rights[j].strength == b)
  {
    if rights != [] {
      var strength := left.strength + rights[0].strength;
      var next := if SameTokens(left, rights[0]) && strength > best then strength else best;
      BestForIsMax(left, rights[1..], next);
      forall j | Share([left], rights, 0, j) ensures left.strength + rights[j].strength <= BestFor(left, rights, best) {
        assert j > 0 ==> Share([left], rights[1..], 0, j - 1);
      }
      if BestFor(left, rights, best) != next {
        var j :| Share([left], rights[1..], 0, j) && left.strength + rights[1..][j].strength == BestFor(left, rights, best);
        assert Share([left], rights, 0, j + 1);
      } else if next != best {
        assert Share([left], rights, 0, 0);
      }
    }
  }

  lemma {:induction false} BestSharedIsMax(lefts: seq<Shape>, rights: seq<Shape>, best: int)
    ensures var b := BestShared(lefts, rights, best);
            && b >= best && (forall i, j | Share(lefts, rights, i, j) :: lefts[i].strength + rights[j].strength <= b)
            && (b == best || exists i, j :: Share(lefts, rights, i, j) && lefts[i].strength + rights[j].strength == b)
  {
    if lefts != [] {
      hide BestFor;
      var next := BestFor(lefts[0], rights, best);
      BestForIsMax(lefts[0], rights, best);
      BestSharedIsMax(lefts[1..], rights, next);
      var b := BestShared(lefts, rights, best);
      forall i, j | Share(lefts, rights, i, j) ensures lefts[i].strength + rights[j].strength <= b {
        if i == 0 {
          assert Share([lefts[0]], rights, 0, j);
        } else {
          assert Share(lefts[1..], rights, i - 1, j);
        }
      }
      if b != next {
        var i, j :| Share(lefts[1..], rights, i, j) && lefts[1..][i].strength + rights[j].strength == b;
        assert Share(lefts, rights, i + 1, j);
      } else if next != best {
        var j :| Share([lefts[0]], rights, 0, j) && lefts[0].strength + rights[j].strength == next;
        assert Share(lefts, rights, 0, j);
      }
    }
  }

  lemma BestIsStrongest(lefts: seq<Shape>, rights: seq<Shape>, strength: nat)
    ensures BestShared(lefts, rights, -1) == strength <==> StrongestShare(lefts, rights, strength)
    ensures BestShared(lefts, rights, -1) < 0 <==> forall i, j :: !Share(lefts, rights, i, j)
  {
    hide BestShared;
    BestSharedIsMax(lefts, rights, -1);
  }

  // ----- reasoning and caches -----

  /** Reasoning tokens can be compared if both records know them and count them the same definite way. */
  ghost predicate ComparesReasoning(f: Evidence, n: Evidence) {
    {Reasoning} <= f.known * n.known && f.outputMode == n.outputMode != AmbiguousOutput
  }

  /** So can cache tokens, read for read, or both combined. */
  ghost predicate ComparesCache(f: Evidence, n: Evidence) {
    || (f.cacheMode == n.cacheMode == Split && {CacheRead} <= f.known * n.known)
    || (f.cacheMode == n.cacheMode == Combined && {CacheCombined} <= f.known * n.known)
  }

  /** A combined count against one that is split: they agree if the parts add up to it, within 63 bits. */
  ghost predicate AddsUp(combined: int, read: int, write: int) {
    read >= 0 && write >= 0 && combined == read + write <= MAX_DURATION
  }

  ghost predicate CacheAgrees(f: Evidence, n: Evidence) {
    && (f.cacheMode == n.cacheMode == Combined && {CacheCombined} <= f.known * n.known ==> f.cacheCombined == n.cacheCombined)
    && (f.cacheMode == n.cacheMode == Split && {CacheRead} <= f.known * n.known ==> f.cacheRead == n.cacheRead)
    && (f.cacheMode == n.cacheMode == Split && {CacheWrite} <= f.known * n.known ==> f.cacheWrite == n.cacheWrite)
    && (f.cacheMode == Combined && n.cacheMode == Split && CacheCombined in f.known && {CacheRead, CacheWrite} <= n.known ==>
          AddsUp(f.cacheCombined, n.cacheRead, n.cacheWrite))
    && (f.cacheMode == Split && n.cacheMode == Combined && {CacheRead, CacheWrite} <= f.known && CacheCombined in n.known ==>
          AddsUp(n.cacheCombined, f.cacheRead, f.cacheWrite))
  }

  lemma CompatibleIff(f: Evidence, n: Evidence)
    ensures ReasoningCompatible(f, n) <==> (ComparesReasoning(f, n) ==> f.reasoning == n.reasoning)
    ensures CacheCompatible(f, n) <==> CacheAgrees(f, n)
    ensures CacheComparable(f, n) <==> ComparesCache(f, n)
  {
  }

  /** The strength of a pair is that of its strongest common shape, and twenty more for each of reasoning and
      cache that can be compared. */
  lemma StrengthIs(f: Evidence, n: Evidence, shape: nat)
    requires StrongestShare(f.shapes, n.shapes, shape)
    requires !f.invalid && !n.invalid && (ComparesReasoning(f, n) ==> f.reasoning == n.reasoning) && CacheAgrees(f, n)
    ensures TokenStrength(f, n) == Some(shape + (if ComparesReasoning(f, n) then 20 else 0) + (if ComparesCache(f, n) then 20 else 0))
  {
    BestIsStrongest(f.shapes, n.shapes, shape);
    CompatibleIff(f, n);
    hide BestShared, StrongestShare, ReasoningCompatible, CacheCompatible, CacheAgrees, CacheComparable;
    assert f.shapes != [] && n.shapes != [] by {
      SharesNeedShapes(f.shapes, n.shapes, shape);
    }
  }

  lemma SharesNeedShapes(lefts: seq<Shape>, rights: seq<Shape>, shape: nat)
    requires StrongestShare(lefts, rights, shape)
    ensures lefts != [] && rights != []
  {
  }

  /** And there is none otherwise. */
  lemma NoStrengthUnless(f: Evidence, n: Evidence)
    requires f.invalid || n.invalid || (ComparesReasoning(f, n) && f.reasoning != n.reasoning) || !CacheAgrees(f, n)
             || forall i, j :: !Share(f.shapes, n.shapes, i, j)
    ensures TokenStrength(f, n) == None
  {
    BestIsStrongest(f.shapes, n.shapes, 0);
    CompatibleIff(f, n);
    hide BestShared, ReasoningCompatible, CacheCompatible, CacheAgrees, CacheComparable, Share;
  }

  // ----- names, outcomes and endpoints -----

  /** One of the endpoints that other endpoints are told apart from. */
  ghost predicate Distinctive(endpoint: string) {
    CanonicalEndpoint(endpoint) in {"/v1/chat/completions", "/v1/responses"}
  }

  lemma EndpointsIff(fallback: string, native: string)
    ensures EndpointsCompatible(fallback, native) <==>
      !(Distinctive(fallback) && Distinctive(native) && CanonicalEndpoint(fallback) != CanonicalEndpoint(native))
  {
  }

  /** Slashes at the end do not matter, and only they are cut off. */
  lemma {:induction false} SlashesTrimmed(s: string)
    ensures var t := TrimSlashes(s);
            t <= s && (t == "" || t[|t| - 1] != '/') && forall i | |t| <= i < |s| :: s[i] == '/'
  {
    if s != "" && s[|s| - 1] == '/' {
      SlashesTrimmed(s[..|s| - 1]);
    }
  }

  /** A name that both know, up to case and blanks around it. */
  ghost predicate SameName(a: string, b: string) {
    TrimSpace(a) != "" && TrimSpace(b) != "" && EqualFold(TrimSpace(a), TrimSpace(b))
  }

  ghost predicate SameOutcome(f: Observation, n: Observation) {
    f.failed == n.failed && (f.failed && f.statusCode > 0 && n.statusCode > 0 ==> f.statusCode == n.statusCode)
  }

  /** A fallback and a native, both with true times, the native with a latency. */
  ghost predicate Measured(f: Observation, n: Observation) {
    && f.role == Fallback && n.role == Native && !f.invalid && !n.invalid && !f.synthetic && !n.synthetic
    && f.timestamp != 0 && n.timestamp != 0 && n.latency > 0
  }

  /** What makes two observations one request, times and tokens apart. */
  ghost predicate Describes(f: Observation, n: Observation) {
    && Measured(f, n) && SameName(f.model, n.model) && !EqualFold(TrimSpace(f.model), "unknown") && SameName(f.client, n.client)
    && SameOutcome(f, n)
    && !(Distinctive(f.endpoint) && Distinctive(n.endpoint) && CanonicalEndpoint(f.endpoint) != CanonicalEndpoint(n.endpoint))
  }

  lemma StrengthIff(f: Observation, n: Observation)
    ensures Strength(f, n) == if Describes(f, n) then TokenStrength(f.tokens, n.tokens) else None
  {
    EndpointsIff(f.endpoint, n.endpoint);
    hide EndpointsCompatible, EqualFold, TrimSpace, TokenStrength, CanonicalEndpoint;
  }

  // ----- times -----

  /** A second and a two-hundredth of the latency, at most five seconds. */
  lemma ToleranceIs(latency: int)
    ensures latency <= 0 ==> Tolerance(latency) == 1_000_000_000
    ensures latency > 0 ==> var wide := 1_000_000_000 + latency / 200;
      Tolerance(latency) == if wide < 5_000_000_000 then wide else 5_000_000_000
  {
  }

  /** The distance of two times, at most the longest duration. */
  lemma DistanceIs(a: int, b: int)
    ensures var d := if a < b then b - a else a - b;
      Absolute(Between(a, b)) == if d < 0x7FFF_FFFF_FFFF_FFFF then d else 0x7FFF_FFFF_FFFF_FFFF
  {
  }

  /** A pair has an edge just when the observations describe one request, their tokens agree, and the fallback
      was reported near the completion of the native; the edge has that strength and that distance. */
  lemma EdgeIff(f: Observation, n: Observation)
    ensures var late := f.timestamp - (n.timestamp + n.latency);
            var strength := TokenStrength(f.tokens, n.tokens);
            EdgeBetween(f, n)
              == if Describes(f, n) && strength.Some? && -Tolerance(n.latency) <= late <= Tolerance(n.latency)
                 then Some(Edge(strength.value, if late < 0 then -late else late)) else None
  {
    StrengthIff(f, n);
    ToleranceIs(n.latency);
    DistanceIs(f.timestamp, n.timestamp + n.latency);
    hide Strength, Describes, TokenStrength, Tolerance, Absolute, Between;
  }

  /** Milliseconds count if they are not negative and their nanoseconds are a duration. */
  lemma MillisecondsAre(ms: int)
    ensures FromMilliseconds(ms).1 <==> 0 <= ms && ms * 1_000_000 <= 0x7FFF_FFFF_FFFF_FFFF
    ensures FromMilliseconds(ms).0 == if FromMilliseconds(ms).1 then ms * 1_000_000 else 0
  {
  }

  /** An observation has the fields of its record, the latency in nanoseconds, and the place of its record in
      the order by request and completion time. */
  lemma ObservationIs(d: Detail, index: int)
    ensures var o := Observe(d, index);
      && Observed(o) && o.role == d.role && o.model == d.model && o.client == d.client && o.failed == d.failed
      && o.statusCode == d.statusCode && o.endpoint == d.endpoint && o.timestamp == d.timestamp && o.synthetic == d.synthetic
      && o.tokens == d.tokens && o.latency == FromMilliseconds(d.latencyMs).0 && (o.invalid <==> !FromMilliseconds(d.latencyMs).1)
      && o.order.timestamp == d.timestamp && o.order.api == d.api && o.order.model == d.model && o.order.provider == d.provider
      && o.order.auth == d.auth && o.order.signature == d.signature && o.order.index == index
  {
  }
}
