/** From the text of a snapshot to the tables and back. */
module ProjectionRoundTrip {
  import opened Wrappers
  import opened SnapshotDocument
  import opened SnapshotHeader
  import opened SnapshotParser
  import opened SnapshotPlaces
  import opened ProjectionBuilder
  import opened ProjectionMeaning
  import opened ProjectionResume
  import opened ProjectionWalk

  const SNAPSHOT := Child(ObjectShape, Snapshot)

  /** A projection that was begun, if at all, on a source with at least as many events. */
  ghost predicate Begun(p: Projection, decodes: (Scope, Raw) -> bool, j: Json)
    reads p
  {
    && p.Consistent() && !p.complete
    && (Interpret(decodes, SNAPSHOT, j).Some? ==> p.events <= |DocumentEvents(Interpret(decodes, SNAPSHOT, j).value)|)
  }

  /** Parsing a snapshot, projecting it, however often interrupted, and reading the tables back gives the
      value that decoding the members of the document in order gives. JSON is refused if and only if it is
      no document of the schema or its header is not accepted. Whatever the JSON holds at a path of the schema
      is delivered at this path. */
  method ProjectAndRead(p: Projection, decodes: (Scope, Raw) -> bool, rules: HeaderRules, tokens: seq<Token>, ghost j: Json,
                        limits: seq<nat>)
      returns (items: Option<seq<Projected>>)
    requires tokens == TokensOf(j) && Typed(decodes) && Begun(p, decodes, j)
    modifies p
    ensures var d := Interpret(decodes, SNAPSHOT, j);
      items.Some? <==> d.Some? && HeaderAccepted(rules, DecodeSnapshot(d.value))
    ensures items.Some? ==>
      ConsumeAll(Reader([], Absent), items.value)
      == Reader([], Visible(DecodeSnapshot(Interpret(decodes, SNAPSHOT, j).value)))
    ensures items.Some? && j.JsonObject? ==> forall path, child, v | LeadsJson(Snapshot, j.members, path, child, v) ::
      Delivered(child, v, At(ConsumeAll(Reader([], Absent), items.value).root, path))
  {
    hide LeadsJson, Delivered, At;
    hide TokensOf, Typed, Interpret, ConsumeAll, Visible, DecodeSnapshot, HeaderAccepted;
    var events, accepted := ParseSnapshot(decodes, rules, tokens, j);
    if events == None {
      return None;
    }
    InterpretFits(decodes, SNAPSHOT, j);
    ghost var d := Interpret(decodes, SNAPSHOT, j).value;
    RunUntilDone(p, events.value, accepted, d, limits);
    if !p.complete {
      return None;
    }
    var read := Walk(p.state.g, p.state.root, [], Reader([], Absent));
    items := Some(read);
    if j.JsonObject? {
      AllFound(decodes, j.members);
    }
  }

  lemma AllFound(decodes: (Scope, Raw) -> bool, ms: JsonMembers)
    requires Typed(decodes) && Interpret(decodes, SNAPSHOT, JsonObject(ms)).Some?
    ensures forall path, child, v | LeadsJson(Snapshot, ms, path, child, v) ::
      Delivered(child, v, At(Visible(DecodeSnapshot(Interpret(decodes, SNAPSHOT, JsonObject(ms)).value)), path))
  {
    hide Typed, Interpret, InterpretMembers, LeadsJson, Delivered, At, Visible, DecodeSnapshot;
    NamedObject(decodes, Snapshot, ms);
    forall path, child, v | LeadsJson(Snapshot, ms, path, child, v)
      ensures Delivered(child, v, At(Visible(DecodeSnapshot(Interpret(decodes, SNAPSHOT, JsonObject(ms)).value)), path))
    {
      JsonFoundAt(decodes, ms, path, child, v);
    }
  }

  /** JSON that is a document of the schema and is refused. */
  lemma EmptyObjectIsRefused(decodes: (Scope, Raw) -> bool, rules: HeaderRules)
    ensures Interpret(decodes, SNAPSHOT, JsonObject(NoMember)) == Some(Object(End))
    ensures Interpret(decodes, SNAPSHOT, Atomic("null")) == Some(Null)
    ensures !HeaderAccepted(rules, DecodeSnapshot(Object(End))) && !HeaderAccepted(rules, DecodeSnapshot(Null))
  {
    EmptyIsRefused(rules);
  }
}
