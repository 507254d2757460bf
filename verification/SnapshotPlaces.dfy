/** Where a member of a document is found after decoding: at its own path, with its own value. */
module SnapshotPlaces {
  import opened Wrappers
  import opened Text
  import opened SnapshotDocument
  import opened SnapshotSchema
  import opened SnapshotParser

  // ----- one field after decoding an object -----

  /** The values of the members that name a field, in order. */
  ghost function Named(scope: Scope, ms: Members, name: string): seq<Document> {
    match ms
    case End => []
    case Member(key, value, rest) => (if MemberName(scope, key) == name then [value] else []) + Named(scope, rest, name)
  }

  /** One value after the other is decoded onto the field; the elements of maps are made anew. */
  ghost function DecodeEach(scope: Scope, child: Child, v: Value, ds: seq<Document>): Value
    decreases |ds|
  {
    if ds == [] then v
    else
      var w := Decode(scope, child, if IsMap(scope) then Absent else v, ds[0]);
      DecodeEach(scope, child, if w == Absent then v else w, ds[1..])
  }

  /** A field changes by the members that name it and by no other; one that is not in the table stays. */
  lemma {:induction false} FieldAfter(scope: Scope, fields: map<string, Value>, ms: Members, name: string)
    ensures Field(DecodeMembers(scope, fields, ms), name) == match ChildOf(scope, name)
      case None => Field(fields, name)
      case Some(child) => DecodeEach(scope, child, Field(fields, name), Named(scope, ms, name))
    decreases ms
  {
    hide ChildOf, MemberName, Decode, DecodeEach, Field, WithField;
    if ms.Member? {
      var key := MemberName(scope, ms.key);
      var child := ChildOf(scope, key);
      if child == None {
        FieldAfter(scope, fields, ms.rest, name);
        if ChildOf(scope, name).Some? {
          SkippedOne(scope, ms, name);
        }
      } else {
        var v := Decode(scope, child.value, if IsMap(scope) then Absent else Field(fields, key), ms.value);
        FieldAfter(scope, WithField(fields, key, v), ms.rest, name);
        FieldSet(fields, key, v, name);
        if key == name {
          NextDecoded(scope, child.value, Field(fields, name), ms.value, Named(scope, ms.rest, name));
        } else {
          assert [] + Named(scope, ms.rest, name) == Named(scope, ms.rest, name);
        }
      }
    } else {
      NoneDecoded(scope, Field(fields, name));
    }
  }

  lemma FieldSet(fields: map<string, Value>, key: string, v: Value, name: string)
    ensures Field(WithField(fields, key, v), name) == if key == name && v != Absent then v else Field(fields, name)
  {
  }

  lemma NextDecoded(scope: Scope, child: Child, v: Value, d: Document, ds: seq<Document>)
    ensures var w := Decode(scope, child, if IsMap(scope) then Absent else v, d);
      DecodeEach(scope, child, v, [d] + ds) == DecodeEach(scope, child, if w == Absent then v else w, ds)
  {
    hide Decode;
    assert ([d] + ds)[1..] == ds;
  }

  lemma NoneDecoded(scope: Scope, v: Value)
    ensures forall child :: DecodeEach(scope, child, v, []) == v
  {
  }

  lemma SkippedOne(scope: Scope, ms: Members, name: string)
    requires ms.Member? && ChildOf(scope, MemberName(scope, ms.key)) == None && ChildOf(scope, name).Some?
    ensures Named(scope, ms, name) == Named(scope, ms.rest, name)
  {
    assert Named(scope, ms, name) == [] + Named(scope, ms.rest, name);
  }

  /** A member that the table does not have is as if it were not there. */
  lemma UnlistedIsSkipped(scope: Scope, fields: map<string, Value>, key: string, d: Document, rest: Members)
    requires forall field, child | InTable(scope, field, child) :: field != key && !EqualFold(key, field)
    ensures DecodeMembers(scope, fields, Member(key, d, rest)) == DecodeMembers(scope, fields, rest)
  {
    var name := MemberName(scope, key);
    if ChildOf(scope, name).Some? {
      hide ChildOf, InTable, MemberName, EqualFold;
      var child := ChildOf(scope, name).value;
      KeyNamesField(scope, key, child);
      TableIsSchema(scope, name, child);
      NoChildOutside(scope, name, child);
      assert false;
    }
  }

  lemma NoChildOutside(scope: Scope, name: string, child: Child)
    requires ChildOf(scope, name) == Some(child)
    ensures IsStruct(scope) || IsMap(scope)
  {
  }

  // ----- paths -----

  /** The value that is reached by fields and map keys. */
  ghost function At(v: Value, path: seq<string>): Value
    decreases |path|
  {
    if path == [] then v
    else match v
      case Struct(fields) => At(Field(fields, path[0]), path[1..])
      case Map(entries) => At(Field(entries, path[0]), path[1..])
      case _ => Absent
  }

  lemma {:induction false} VisibleAt(v: Value, path: seq<string>)
    ensures At(Visible(v), path) == Visible(At(v, path))
    decreases |path|
  {
    if path != [] {
      match v
      case Struct(fields) => VisibleAt(Field(fields, path[0]), path[1..]);
      case Map(entries) => VisibleAt(Field(entries, path[0]), path[1..]);
      case _ =>
    }
  }

  /** The members lead along the path, by one member for each step, to a member that holds `d`. */
  ghost predicate Leads(scope: Scope, ms: Members, path: seq<string>, child: Child, d: Document)
    decreases |path|
  {
    && path != []
    && if |path| == 1 then InTable(scope, path[0], child) && Named(scope, ms, path[0]) == [d]
       else exists inner: Scope, below: Members :: LeadsInto(scope, ms, path[0], inner, below) && Leads(inner, below, path[1..], child, d)
  }

  ghost predicate LeadsInto(scope: Scope, ms: Members, name: string, inner: Scope, below: Members) {
    InTable(scope, name, Child(ObjectShape, inner)) && Named(scope, ms, name) == [Object(below)]
  }

  /** Each element in a cell of its own. */
  ghost function Cells(elements: seq<Raw>): (cells: seq<seq<Raw>>)
    ensures |cells| == |elements|
  {
    if elements == [] then [] else Cells(elements[..|elements| - 1]) + [[elements[|elements| - 1]]]
  }

  lemma {:induction false} CellAt(elements: seq<Raw>, i: nat)
    requires i < |elements|
    ensures Cells(elements)[i] == [elements[i]]
  {
    if i < |elements| - 1 {
      CellAt(elements[..|elements| - 1], i);
    }
  }

  /** What a member holds that was decoded once. */
  ghost predicate Holds(v: Value, child: Child, d: Document) {
    match (child.shape, d)
    case (ValueShape, Scalar(raw)) => !raw.IsNull() ==> v == Atom([raw])
    case (ArrayShape, Array(elements)) => v == Slice(Cells(elements), |elements|)
    case (ArrayShape, Null) => v == Nil
    case (ObjectShape, Object(ms)) => if IsStruct(child.scope) then v.Struct? else v.Map?
    case _ => true
  }

  lemma DecodedOnce(scope: Scope, ms: Members, name: string, child: Child, d: Document)
    requires InTable(scope, name, child) && Named(scope, ms, name) == [d]
    ensures Field(DecodeMembers(scope, map[], ms), name) == Decode(scope, child, Absent, d)
  {
    TableIsSchema(scope, name, child);
    FieldAfter(scope, map[], ms, name);
    hide Decode, ChildOf, InTable, Named, DecodeMembers;
    assert [d][1..] == [];
  }

  lemma HeldOnce(scope: Scope, child: Child, d: Document)
    requires Fits(child, d)
    ensures Holds(Decode(scope, child, Absent, d), child, d)
  {
    if child.shape == ArrayShape && d.Array? && d.elements != [] {
      var cells := Overlay([], d.elements);
      forall i | 0 <= i < |d.elements| ensures cells[i] == Cells(d.elements)[i] {
        CellAt(d.elements, i);
      }
    }
  }

  ghost function Contents(scope: Scope, ms: Members): Value {
    if IsStruct(scope) then Struct(DecodeMembers(scope, map[], ms)) else Map(DecodeMembers(scope, map[], ms))
  }

  lemma DecodedObject(scope: Scope, inner: Scope, below: Members)
    ensures Decode(scope, Child(ObjectShape, inner), Absent, Object(below)) == Contents(inner, below)
  {
  }

  lemma AtStep(scope: Scope, ms: Members, path: seq<string>)
    requires path != []
    ensures At(Contents(scope, ms), path) == At(Field(DecodeMembers(scope, map[], ms), path[0]), path[1..])
  {
  }

  /** What a document leads to is found there when its members are decoded. */
  lemma {:induction false} FoundAt(scope: Scope, ms: Members, path: seq<string>, child: Child, d: Document)
    requires Leads(scope, ms, path, child, d) && Fits(child, d)
    ensures Holds(At(Contents(scope, ms), path), child, d)
    decreases |path|
  {
    hide Contents, Holds, Decode, DecodeMembers, InTable, Fits;
    AtStep(scope, ms, path);
    if |path| == 1 {
      DecodedOnce(scope, ms, path[0], child, d);
      HeldOnce(scope, child, d);
    } else {
      var inner: Scope, below: Members :| LeadsInto(scope, ms, path[0], inner, below) && Leads(inner, below, path[1..], child, d);
      DecodedOnce(scope, ms, path[0], Child(ObjectShape, inner), Object(below));
      DecodedObject(scope, inner, below);
      FoundAt(inner, below, path[1..], child, d);
    }
  }

  /** And only listed members that are there leave something behind. */
  lemma NothingInvented(scope: Scope, ms: Members, name: string)
    requires Field(DecodeMembers(scope, map[], ms), name) != Absent
    ensures exists child :: InTable(scope, name, child)
    ensures Named(scope, ms, name) != []
  {
    FieldAfter(scope, map[], ms, name);
    if ChildOf(scope, name).Some? {
      hide ChildOf, InTable, DecodeMembers, Named;
      TableIsSchema(scope, name, ChildOf(scope, name).value);
    }
  }

  // ----- from JSON -----

  ghost function NamedJson(scope: Scope, ms: JsonMembers, name: string): seq<Json> {
    match ms
    case NoMember => []
    case JsonMember(key, value, more) => (if MemberName(scope, key) == name then [value] else []) + NamedJson(scope, more, name)
  }

  lemma {:induction false} InterpretedNamed(decodes: (Scope, Raw) -> bool, scope: Scope, ms: JsonMembers, name: string, child: Child)
    requires InterpretMembers(decodes, scope, ms).Some? && ChildOf(scope, name) == Some(child)
    ensures var ds, js := Named(scope, InterpretMembers(decodes, scope, ms).value, name), NamedJson(scope, ms, name);
            |ds| == |js| && forall i | 0 <= i < |ds| :: Interpret(decodes, child, js[i]) == Some(ds[i])
    decreases ms
  {
    hide ChildOf, MemberName, Interpret;
    if ms.JsonMember? {
      InterpretedNamed(decodes, scope, ms.more, name, child);
    }
  }

  ghost predicate LeadsJson(scope: Scope, ms: JsonMembers, path: seq<string>, child: Child, j: Json)
    decreases |path|
  {
    && path != []
    && if |path| == 1 then InTable(scope, path[0], child) && NamedJson(scope, ms, path[0]) == [j]
       else exists inner: Scope, below: JsonMembers ::
              LeadsIntoJson(scope, ms, path[0], inner, below) && LeadsJson(inner, below, path[1..], child, j)
  }

  ghost predicate LeadsIntoJson(scope: Scope, ms: JsonMembers, name: string, inner: Scope, below: JsonMembers) {
    InTable(scope, name, Child(ObjectShape, inner)) && NamedJson(scope, ms, name) == [JsonObject(below)]
  }

  lemma NamedOnce(decodes: (Scope, Raw) -> bool, scope: Scope, ms: JsonMembers, name: string, child: Child, j: Json)
    requires InterpretMembers(decodes, scope, ms).Some? && InTable(scope, name, child) && NamedJson(scope, ms, name) == [j]
    ensures Interpret(decodes, child, j).Some?
    ensures Named(scope, InterpretMembers(decodes, scope, ms).value, name) == [Interpret(decodes, child, j).value]
  {
    hide Interpret, InterpretMembers, Named, NamedJson, InTable, ChildOf;
    TableIsSchema(scope, name, child);
    InterpretedNamed(decodes, scope, ms, name, child);
    assert NamedJson(scope, ms, name)[0] == j;
  }

  lemma NamedObject(decodes: (Scope, Raw) -> bool, inner: Scope, below: JsonMembers)
    requires Interpret(decodes, Child(ObjectShape, inner), JsonObject(below)).Some?
    ensures InterpretMembers(decodes, inner, below).Some?
    ensures Interpret(decodes, Child(ObjectShape, inner), JsonObject(below)).value
         == Document.Object(InterpretMembers(decodes, inner, below).value)
  {
  }

  lemma {:induction false} InterpretedLeads(decodes: (Scope, Raw) -> bool, scope: Scope, ms: JsonMembers, path: seq<string>,
                                            child: Child, j: Json)
    requires InterpretMembers(decodes, scope, ms).Some? && LeadsJson(scope, ms, path, child, j)
    ensures Interpret(decodes, child, j).Some?
    ensures Leads(scope, InterpretMembers(decodes, scope, ms).value, path, child, Interpret(decodes, child, j).value)
    decreases |path|
  {
    hide Interpret, InterpretMembers, InTable, Named, NamedJson;
    if |path| == 1 {
      NamedOnce(decodes, scope, ms, path[0], child, j);
    } else {
      var inner: Scope, below: JsonMembers :|
        LeadsIntoJson(scope, ms, path[0], inner, below) && LeadsJson(inner, below, path[1..], child, j);
      NamedOnce(decodes, scope, ms, path[0], Child(ObjectShape, inner), JsonObject(below));
      NamedObject(decodes, inner, below);
      InterpretedLeads(decodes, inner, below, path[1..], child, j);
      assert LeadsInto(scope, InterpretMembers(decodes, scope, ms).value, path[0], inner, InterpretMembers(decodes, inner, below).value);
    }
  }

  ghost function ElementCells(es: JsonElements): seq<seq<Raw>> {
    match es
    case NoElement => []
    case JsonElement(head, tail) => [[Raw(Render(head))]] + ElementCells(tail)
  }

  /** What a reader finds where a member was. */
  ghost predicate Delivered(child: Child, j: Json, v: Value) {
    match child.shape
    case ValueShape => TrimSpace(Render(j)) != "null" ==> v == Atom([Raw(Render(j))])
    case ArrayShape => j.JsonArray? ==> v == Slice(ElementCells(j.elements), |ElementCells(j.elements)|)
    case ObjectShape => j.JsonObject? ==> if IsStruct(child.scope) then v.Struct? else v.Map?
  }

  lemma {:induction false} CellsOfRaws(es: JsonElements)
    ensures Cells(Raws(es)) == ElementCells(es) && |ElementCells(es)| == |Raws(es)|
  {
    if es.JsonElement? {
      CellsOfRaws(es.tail);
      CellsConcat([Raw(Render(es.head))], Raws(es.tail));
      assert Cells([Raw(Render(es.head))]) == [[Raw(Render(es.head))]];
    }
  }

  lemma {:induction false} CellsConcat(a: seq<Raw>, b: seq<Raw>)
    ensures Cells(a + b) == Cells(a) + Cells(b)
    decreases |b|
  {
    if b == [] {
      assert a + b == a;
    } else {
      assert (a + b)[..|a + b| - 1] == a + b[..|b| - 1];
      CellsConcat(a, b[..|b| - 1]);
    }
  }

  lemma HeldIsDelivered(decodes: (Scope, Raw) -> bool, child: Child, j: Json, v: Value)
    requires Interpret(decodes, child, j).Some? && Holds(v, child, Interpret(decodes, child, j).value)
    ensures Delivered(child, j, Visible(v))
  {
    if child.shape == ArrayShape && j.JsonArray? {
      CellsOfRaws(j.elements);
      var cells := Cells(Raws(j.elements));
      assert cells[..|cells|] == cells;
    }
  }

  /** Whatever the JSON holds at a path of the schema, the visible part of the decoded snapshot holds at the
      same path. */
  lemma JsonFoundAt(decodes: (Scope, Raw) -> bool, ms: JsonMembers, path: seq<string>, child: Child, j: Json)
    requires Typed(decodes) && InterpretMembers(decodes, Snapshot, ms).Some? && LeadsJson(Snapshot, ms, path, child, j)
    ensures Delivered(child, j, At(Visible(DecodeSnapshot(Object(InterpretMembers(decodes, Snapshot, ms).value))), path))
  {
    hide Interpret, InterpretMembers, Leads, LeadsJson, Holds, Delivered, Visible, DecodeMembers, Typed;
    var d := InterpretMembers(decodes, Snapshot, ms).value;
    InterpretedLeads(decodes, Snapshot, ms, path, child, j);
    InterpretFits(decodes, child, j);
    FoundAt(Snapshot, d, path, child, Interpret(decodes, child, j).value);
    VisibleAt(Contents(Snapshot, d), path);
    HeldIsDelivered(decodes, child, j, At(Contents(Snapshot, d), path));
  }

  // ----- an example: the retained records of a model -----

  function One(key: string, value: Json): JsonMembers {
    JsonMember(key, value, NoMember)
  }

  lemma OneLeads(scope: Scope, key: string, child: Child, j: Json)
    requires InTable(scope, key, child) && (IsStruct(scope) || IsMap(scope))
    ensures NamedJson(scope, One(key, j), key) == [j]
  {
    hide InTable, EqualFold, ChildOf, FirstFold;
    KeyNamesField(scope, key, child);
    SameFolds(key);
  }

  lemma SameFolds(key: string)
    ensures EqualFold(key, key)
  {
  }

  lemma OneStep(scope: Scope, key: string, inner: Scope, below: JsonMembers, path: seq<string>, child: Child, j: Json)
    requires InTable(scope, key, Child(ObjectShape, inner)) && (IsStruct(scope) || IsMap(scope))
    requires LeadsJson(inner, below, path, child, j)
    ensures LeadsJson(scope, One(key, JsonObject(below)), [key] + path, child, j)
  {
    hide InTable, NamedJson, ChildOf;
    OneLeads(scope, key, Child(ObjectShape, inner), JsonObject(below));
    assert ([key] + path)[1..] == path;
    assert path != [];
    assert LeadsIntoJson(scope, One(key, JsonObject(below)), key, inner, below);
  }

  lemma OuterTable()
    ensures InTable(Snapshot, "usage", Child(ObjectShape, Usage)) && InTable(Usage, "apis", Child(ObjectShape, Apis))
    ensures InTable(Api, "models", Child(ObjectShape, Models)) && InTable(Model, "accounting", Child(ArrayShape, Detail))
    ensures forall key :: InTable(Apis, key, Child(ObjectShape, Api)) && InTable(Models, key, Child(ObjectShape, Model))
  {
    assert SNAPSHOT_FIELDS[2] == ("usage", Child(ObjectShape, Usage)) && MODEL_FIELDS[1] == ("accounting", Child(ArrayShape, Detail));
    assert (USAGE_FIELDS + FIGURES)[0] == ("apis", Child(ObjectShape, Apis));
    assert (API_FIELDS + FIGURES)[0] == ("models", Child(ObjectShape, Models));
    assert (MODEL_FIELDS + FIGURES)[1] == ("accounting", Child(ArrayShape, Detail));
    assert ELEMENTS[0] == (Apis, Child(ObjectShape, Api)) && ELEMENTS[1] == (Models, Child(ObjectShape, Model));
  }

  /** The retained records of any model of any API are on such a path. */
  lemma RetainedRecordsLead(api: string, model: string, records: Json)
    ensures var models := One("models", JsonObject(One(model, JsonObject(One("accounting", records)))));
            var members := One("usage", JsonObject(One("apis", JsonObject(One(api, JsonObject(models))))));
            var path := ["usage"] + (["apis"] + ([api] + (["models"] + ([model] + ["accounting"]))));
            LeadsJson(Snapshot, members, path, Child(ArrayShape, Detail), records)
  {
    hide InTable, LeadsJson, NamedJson;
    OuterTable();
    var e := One("accounting", records);
    LastLeads(e, records);
    OneStep(Models, model, Model, e, ["accounting"], Child(ArrayShape, Detail), records);
    var m := One(model, JsonObject(e));
    OneStep(Api, "models", Models, m, [model] + ["accounting"], Child(ArrayShape, Detail), records);
    var s := One("models", JsonObject(m));
    OneStep(Apis, api, Api, s, ["models"] + ([model] + ["accounting"]), Child(ArrayShape, Detail), records);
    var a := One(api, JsonObject(s));
    OneStep(Usage, "apis", Apis, a, [api] + (["models"] + ([model] + ["accounting"])), Child(ArrayShape, Detail), records);
    OneStep(Snapshot, "usage", Usage, One("apis", JsonObject(a)), ["apis"] + ([api] + (["models"] + ([model] + ["accounting"]))),
            Child(ArrayShape, Detail), records);
  }

  lemma LastLeads(e: JsonMembers, records: Json)
    requires e == One("accounting", records) && InTable(Model, "accounting", Child(ArrayShape, Detail))
    ensures LeadsJson(Model, e, ["accounting"], Child(ArrayShape, Detail), records)
  {
    hide InTable, NamedJson;
    OneLeads(Model, "accounting", Child(ArrayShape, Detail), records);
  }
}
