/** Bucketing records by partition and token shape, and the completion window inside a bucket: the
    candidate edges without building the whole product of fallbacks and natives. */
module CandidateBuckets {
  import opened Wrappers
  import opened Text
  import opened ProtocolEdge

  function PartitionKey(o: Observation): string {
    ToLower(TrimSpace(o.model)) + [NUL] + ToLower(TrimSpace(o.client)) + [NUL] + FailurePart(o.failed)
  }

  function FailurePart(failed: bool): string {
    (if failed then "true" else "false") + [NUL] + "failure-status-wildcard"
  }

  function ShapeKey(partition: string, shape: Shape): string {
    partition + [NUL] + FormatInt(shape.fullInput) + [NUL] + FormatInt(shape.fullOutput)
  }

  predicate HasKeys(o: Observation) {
    && o.role != Unknown && !o.tokens.invalid
    && TrimSpace(o.model) != "" && !EqualFold(TrimSpace(o.model), "unknown")
    && TrimSpace(o.client) != ""
  }

  /** The keys of the buckets a record is put into, one for each token shape. */
  function ShapeKeys(o: Observation): set<string> {
    if HasKeys(o) then set shape | shape in o.tokens.shapes :: ShapeKey(PartitionKey(o), shape) else {}
  }

  predicate SharesBucket(f: Observation, n: Observation) {
    exists key :: key in ShapeKeys(f) && key in ShapeKeys(n)
  }

  /** Case folding and lower-casing agree on the identities of these two records. */
  predicate SameIdentity(f: Observation, n: Observation) {
    && ToLower(TrimSpace(f.model)) == ToLower(TrimSpace(n.model))
    && ToLower(TrimSpace(f.client)) == ToLower(TrimSpace(n.client))
  }

  lemma KeyTail(shape: Shape)
    ensures !HasNul(FormatInt(shape.fullInput)) && !HasNul(FormatInt(shape.fullOutput))
  {
    FormatIntHasNoNul(shape.fullInput);
    FormatIntHasNoNul(shape.fullOutput);
  }

  /** The bucket key determines the partition, whatever the names in it contain. */
  lemma KeyFixesPartition(p: string, s: Shape, q: string, t: Shape)
    requires ShapeKey(p, s) == ShapeKey(q, t)
    ensures p == q
  {
    KeyTail(s);
    KeyTail(t);
    var x, y := p + [NUL] + FormatInt(s.fullInput), q + [NUL] + FormatInt(t.fullInput);
    assert ShapeKey(p, s) == x + [NUL] + FormatInt(s.fullOutput);
    assert ShapeKey(q, t) == y + [NUL] + FormatInt(t.fullOutput);
    LastNul(x, FormatInt(s.fullOutput), y, FormatInt(t.fullOutput));
    LastNul(p, FormatInt(s.fullInput), q, FormatInt(t.fullInput));
  }

  lemma BucketSharesPartition(f: Observation, n: Observation)
    requires SharesBucket(f, n)
    ensures PartitionKey(f) == PartitionKey(n)
  {
    var key :| key in ShapeKeys(f) && key in ShapeKeys(n);
    var s :| s in f.tokens.shapes && key == ShapeKey(PartitionKey(f), s);
    var t :| t in n.tokens.shapes && key == ShapeKey(PartitionKey(n), t);
    KeyFixesPartition(PartitionKey(f), s, PartitionKey(n), t);
  }

  /** Joined texts that agree, with first and second parts of equal length, agree in those parts. */
  lemma JoinEqual(a: string, x: string, s: string, b: string, y: string, t: string)
    requires a + [NUL] + x + [NUL] + s == b + [NUL] + y + [NUL] + t && |a| == |b| && |x| == |y|
    ensures a == b && x == y
  {
    var l, r := a + [NUL] + x + [NUL] + s, b + [NUL] + y + [NUL] + t;
    assert a == l[..|a|] && b == r[..|b|];
    assert x == l[|a| + 1..|a| + 1 + |x|] && y == r[|b| + 1..|b| + 1 + |y|];
  }

  /** Where an edge exists, sharing a bucket means exactly that the lower-cased identities agree. */
  lemma EdgeInBucket(f: Observation, n: Observation)
    requires EdgeBetween(f, n).Some? && Observed(n)
    ensures SharesBucket(f, n) <==> SameIdentity(f, n)
  {
    if SharesBucket(f, n) {
      BucketSharesPartition(f, n);
      PartitionFixesIdentity(f, n);
    }
    if SameIdentity(f, n) {
      EdgeNeeds(f, n);
      var i, j :| 0 <= i < |f.tokens.shapes| && 0 <= j < |n.tokens.shapes|
                  && SameTokens(f.tokens.shapes[i], n.tokens.shapes[j]);
      KeysOfBoth(f, n);
      var key := ShapeKey(PartitionKey(f), f.tokens.shapes[i]);
      assert key in ShapeKeys(f);
      assert key == ShapeKey(PartitionKey(n), n.tokens.shapes[j]);
      assert key in ShapeKeys(n);
    }
  }

  lemma KeysOfBoth(f: Observation, n: Observation)
    requires EdgeBetween(f, n).Some?
    ensures HasKeys(f) && HasKeys(n)
  {
    if EqualFold(TrimSpace(n.model), "unknown") {
      FoldTransitive(TrimSpace(f.model), TrimSpace(n.model), "unknown");
    }
  }

  lemma PartitionFixesIdentity(f: Observation, n: Observation)
    requires PartitionKey(f) == PartitionKey(n)
    requires |TrimSpace(f.model)| == |TrimSpace(n.model)| && |TrimSpace(f.client)| == |TrimSpace(n.client)|
    ensures SameIdentity(f, n)
  {
    JoinEqual(ToLower(TrimSpace(f.model)), ToLower(TrimSpace(f.client)), FailurePart(f.failed),
              ToLower(TrimSpace(n.model)), ToLower(TrimSpace(n.client)), FailurePart(n.failed));
  }

  /** The bucketed search misses an edge: the two spellings fold together, yet lower case keeps the
      long s, so the records never meet in a bucket. */
  lemma LongSMissed(f: Observation, n: Observation)
    requires EdgeBetween(f, n).Some? && Observed(n)
    requires TrimSpace(f.model) == [LONG_S] && TrimSpace(n.model) == "s"
    ensures !SharesBucket(f, n)
  {
    EdgeInBucket(f, n);
    assert ToLower(TrimSpace(f.model))[0] == LONG_S && ToLower(TrimSpace(n.model))[0] == 's';
  }

  function LongSRecord(role: Role, model: string, timestamp: int, latencyMs: int): Detail {
    Detail(role, model, "client", false, 200, "/v1/responses", timestamp, latencyMs, false,
           Evidence(0, 0, 0, 0, {}, ReasoningSubset, Split, [Shape(10, 20, 30, 90)], false),
           "api", "provider", "auth", "signature")
  }

  /** Such records exist. */
  lemma LongSExample()
    ensures var f := Observe(LongSRecord(Fallback, [LONG_S], SECOND, 0), 0);
            var n := Observe(LongSRecord(Native, "s", SECOND, 500), 1);
            EdgeBetween(f, n).Some? && !SharesBucket(f, n)
  {
    var f := Observe(LongSRecord(Fallback, [LONG_S], SECOND, 0), 0);
    var n := Observe(LongSRecord(Native, "s", SECOND, 500), 1);
    assert TrimSpace(f.model) == [LONG_S] && TrimSpace(n.model) == "s" && TrimSpace(f.client) == "client";
    assert BestShared(f.tokens.shapes, n.tokens.shapes, -1) == 180;
    LongSMissed(f, n);
  }
}
