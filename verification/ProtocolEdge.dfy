/** What one record tells about the request behind it, and when a fallback record and a native record
    may describe the same request. Times are nanoseconds; the zero time is 0. */
module ProtocolEdge {
  import opened Wrappers
  import opened Text
  import opened StableOrder

  const SECOND := 1_000_000_000
  const TOLERANCE := SECOND
  const TOLERANCE_MAX := 5 * SECOND
  const TOLERANCE_RATIO := 200
  const MAX_DURATION := 0x7FFF_FFFF_FFFF_FFFF

  datatype Role = Unknown | Fallback | Native

  datatype Shape = Shape(fullInput: int, fullOutput: int, total: int, strength: nat)

  datatype Field = Input | Output | Reasoning | CacheRead | CacheWrite | CacheCombined | Total

  datatype OutputMode = NoOutputMode | ReasoningSubset | ReasoningIndependent | AmbiguousOutput

  datatype CacheMode = NoCacheMode | Split | Combined | AmbiguousCache

  datatype Evidence = Evidence(reasoning: int, cacheRead: int, cacheWrite: int, cacheCombined: int, known: set<Field>,
                               outputMode: OutputMode, cacheMode: CacheMode, shapes: seq<Shape>, invalid: bool)

  /** The stored fields of a record that matter here. */
  datatype Detail = Detail(role: Role, model: string, client: string, failed: bool, statusCode: int, endpoint: string,
                           timestamp: int, latencyMs: int, synthetic: bool, tokens: Evidence,
                           api: string, provider: string, auth: string, signature: string)

  datatype Observation = Observation(role: Role, model: string, client: string, failed: bool, statusCode: int,
                                     endpoint: string, timestamp: int, latency: int, synthetic: bool, invalid: bool,
                                     tokens: Evidence, order: Order)

  function FromMilliseconds(ms: int): (int, bool) {
    if ms < 0 || ms > MAX_DURATION / 1_000_000 then (0, false) else (ms * 1_000_000, true)
  }

  function Observe(d: Detail, index: int): Observation {
    var (latency, valid) := FromMilliseconds(d.latencyMs);
    Observation(d.role, d.model, d.client, d.failed, d.statusCode, d.endpoint, d.timestamp, latency, d.synthetic,
                !valid, d.tokens,
                Order(d.timestamp, d.timestamp + latency, d.api, d.model, d.provider, d.auth, d.signature, index))
  }

  /** What every observation made from a record satisfies. */
  ghost predicate Observed(o: Observation) {
    o.order.completion == o.timestamp + o.latency
  }

  function Tolerance(latency: int): int {
    if latency <= 0 then TOLERANCE
    else
      var extra := latency / TOLERANCE_RATIO;
      if extra >= TOLERANCE_MAX - TOLERANCE then TOLERANCE_MAX else TOLERANCE + extra
  }

  lemma ToleranceBounded(latency: int)
    ensures TOLERANCE <= Tolerance(latency) <= TOLERANCE_MAX
  {
  }

  /** The difference of two times, clamped to the range of a duration. */
  function Between(later: int, earlier: int): int {
    var d := later - earlier;
    if d > MAX_DURATION then MAX_DURATION else if d < -MAX_DURATION - 1 then -MAX_DURATION - 1 else d
  }

  function Absolute(d: int): int {
    if d >= 0 then d else if d == -MAX_DURATION - 1 then MAX_DURATION else -d
  }

  function CheckedAdd(left: int, right: int): (int, bool) {
    if left < 0 || right < 0 || left > MAX_DURATION - right then (0, false) else (left + right, true)
  }

  // ----- endpoints -----

  function TrimSlashes(s: string): string {
    if s != "" && s[|s| - 1] == '/' then TrimSlashes(s[..|s| - 1]) else s
  }

  function CanonicalEndpoint(endpoint: string): string {
    TrimSlashes(ToLower(TrimSpace(endpoint)))
  }

  predicate IsOpenAIEndpoint(canonical: string) {
    canonical == "/v1/chat/completions" || canonical == "/v1/responses"
  }

  predicate EndpointsCompatible(fallback: string, native: string) {
    var f, n := CanonicalEndpoint(fallback), CanonicalEndpoint(native);
    n == "" || f == "" || !IsOpenAIEndpoint(n) || !IsOpenAIEndpoint(f) || n == f
  }

  // ----- token evidence -----

  predicate SameTokens(left: Shape, right: Shape) {
    left.fullInput == right.fullInput && left.fullOutput == right.fullOutput
  }

  function BestFor(left: Shape, rights: seq<Shape>, best: int): int {
    if rights == [] then best
    else
      var strength := left.strength + rights[0].strength;
      BestFor(left, rights[1..], if SameTokens(left, rights[0]) && strength > best then strength else best)
  }

  /** The strength of the strongest pair of shapes with the same token counts, or `best`. */
  function BestShared(lefts: seq<Shape>, rights: seq<Shape>, best: int): int {
    if lefts == [] then best else BestShared(lefts[1..], rights, BestFor(lefts[0], rights, best))
  }

  predicate ReasoningCompatible(f: Evidence, n: Evidence) {
    || Reasoning !in f.known || Reasoning !in n.known
    || f.outputMode == AmbiguousOutput || n.outputMode == AmbiguousOutput || f.outputMode != n.outputMode
    || f.reasoning == n.reasoning
  }

  predicate CacheCompatible(f: Evidence, n: Evidence) {
    if CacheCombined in f.known && CacheCombined in n.known && f.cacheMode == Combined && n.cacheMode == Combined then
      f.cacheCombined == n.cacheCombined
    else if CacheCombined in f.known && f.cacheMode == Combined && n.cacheMode == Split
            && CacheRead in n.known && CacheWrite in n.known then
      CheckedAdd(n.cacheRead, n.cacheWrite) == (f.cacheCombined, true)
    else if CacheCombined in n.known && n.cacheMode == Combined && f.cacheMode == Split
            && CacheRead in f.known && CacheWrite in f.known then
      CheckedAdd(f.cacheRead, f.cacheWrite) == (n.cacheCombined, true)
    else if f.cacheMode == Split && n.cacheMode == Split then
      && (CacheRead in f.known && CacheRead in n.known ==> f.cacheRead == n.cacheRead)
      && (CacheWrite in f.known && CacheWrite in n.known ==> f.cacheWrite == n.cacheWrite)
    else true
  }

  predicate CacheComparable(f: Evidence, n: Evidence) {
    if f.cacheMode == Split && n.cacheMode == Split then CacheRead in f.known && CacheRead in n.known
    else f.cacheMode == Combined && n.cacheMode == Combined && CacheCombined in f.known && CacheCombined in n.known
  }

  function TokenStrength(f: Evidence, n: Evidence): Option<int> {
    if f.invalid || n.invalid || f.shapes == [] || n.shapes == [] then None
    else
      var best := BestShared(f.shapes, n.shapes, -1);
      if best < 0 || !ReasoningCompatible(f, n) || !CacheCompatible(f, n) then None
      else Some(best
        + (if Reasoning in f.known && Reasoning in n.known && f.outputMode == n.outputMode
              && f.outputMode != AmbiguousOutput then 20 else 0)
        + (if CacheComparable(f, n) then 20 else 0))
  }

  function Strength(f: Observation, n: Observation): Option<int> {
    if f.role != Fallback || n.role != Native || f.invalid || n.invalid then None
    else
      var model, nativeModel := TrimSpace(f.model), TrimSpace(n.model);
      var client, nativeClient := TrimSpace(f.client), TrimSpace(n.client);
      if model == "" || nativeModel == "" || EqualFold(model, "unknown") || !EqualFold(model, nativeModel)
         || client == "" || nativeClient == "" || !EqualFold(client, nativeClient) then None
      else if f.failed != n.failed then None
      else if f.failed && f.statusCode > 0 && n.statusCode > 0 && f.statusCode != n.statusCode then None
      else if !EndpointsCompatible(f.endpoint, n.endpoint) || f.synthetic || n.synthetic
              || f.timestamp == 0 || n.timestamp == 0 || n.latency <= 0 then None
      else TokenStrength(f.tokens, n.tokens)
  }

  datatype Edge = Edge(strength: int, distance: int)

  function EdgeBetween(f: Observation, n: Observation): Option<Edge> {
    match Strength(f, n)
    case None => None
    case Some(strength) =>
      var distance := Absolute(Between(f.timestamp, n.timestamp + n.latency));
      if distance > Tolerance(n.latency) then None else Some(Edge(strength, distance))
  }

  // ----- what an edge implies -----

  lemma {:induction false} BestForShared(left: Shape, rights: seq<Shape>, best: int)
    ensures BestFor(left, rights, best) >= best
    ensures BestFor(left, rights, best) == best || exists j :: 0 <= j < |rights| && SameTokens(left, rights[j])
  {
    if rights != [] {
      var next := if SameTokens(left, rights[0]) && left.strength + rights[0].strength > best
                  then left.strength + rights[0].strength else best;
      BestForShared(left, rights[1..], next);
      if BestFor(left, rights[1..], next) != next {
        var j :| 0 <= j < |rights[1..]| && SameTokens(left, rights[1..][j]);
        assert SameTokens(left, rights[j + 1]);
      }
    }
  }

  lemma {:induction false} SharedShape(lefts: seq<Shape>, rights: seq<Shape>, best: int)
    ensures BestShared(lefts, rights, best) >= best
    ensures BestShared(lefts, rights, best) == best ||
      exists i, j :: 0 <= i < |lefts| && 0 <= j < |rights| && SameTokens(lefts[i], rights[j])
  {
    if lefts != [] {
      var next := BestFor(lefts[0], rights, best);
      BestForShared(lefts[0], rights, best);
      SharedShape(lefts[1..], rights, next);
      if BestShared(lefts[1..], rights, next) != next {
        var i, j :| 0 <= i < |lefts[1..]| && 0 <= j < |rights| && SameTokens(lefts[1..][i], rights[j]);
        assert SameTokens(lefts[i + 1], rights[j]);
      }
    }
  }

  /** An edge needs a shape that both records share and completion within five seconds. */
  lemma EdgeNeeds(f: Observation, n: Observation)
    requires EdgeBetween(f, n).Some? && Observed(n)
    ensures exists i, j :: 0 <= i < |f.tokens.shapes| && 0 <= j < |n.tokens.shapes|
                           && SameTokens(f.tokens.shapes[i], n.tokens.shapes[j])
    ensures f.timestamp - TOLERANCE_MAX <= n.order.completion <= f.timestamp + TOLERANCE_MAX
    ensures f.timestamp != 0 && EdgeBetween(f, n).value.distance <= TOLERANCE_MAX
  {
    SharedShape(f.tokens.shapes, n.tokens.shapes, -1);
    ToleranceBounded(n.latency);
  }
}
