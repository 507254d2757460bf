/** The schema of snapshots as a table, what decoding makes of each of its members, and that a member is
    found again in the decoded value at its own place. */
module SnapshotSchema {
  import opened Wrappers
  import opened Text
  import opened SnapshotDocument

  // ----- the table -----

  const SNAPSHOT_FIELDS := [
    ("version", Child(ValueShape, Version)), ("generated_at", Child(ValueShape, GeneratedAt)), ("usage", Child(ObjectShape, Usage))]

  const USAGE_FIELDS := [
    ("apis", Child(ObjectShape, Apis)),
    ("cost_tokens_by_day", Child(ObjectShape, MapTokens)), ("cost_tokens_by_hour", Child(ObjectShape, MapTokens)),
    ("requests_by_day", Child(ObjectShape, MapCount)), ("requests_by_hour", Child(ObjectShape, MapCount)),
    ("tokens_by_day", Child(ObjectShape, MapCount)), ("tokens_by_hour", Child(ObjectShape, MapCount)),
    ("cost_by_day", Child(ObjectShape, MapCost)), ("cost_by_hour", Child(ObjectShape, MapCost))]

  const API_FIELDS := [("models", Child(ObjectShape, Models))]

  const MODEL_FIELDS := [
    ("details", Child(ArrayShape, Detail)), ("accounting", Child(ArrayShape, Detail)), ("providers", Child(ArrayShape, Provider))]

  /** The usage, each API and each model have these, too. */
  const FIGURES := [
    ("avg_latency_ms", Child(ValueShape, Float)),
    ("total_requests", Child(ValueShape, Count)), ("success_count", Child(ValueShape, Count)),
    ("failure_count", Child(ValueShape, Count)), ("total_tokens", Child(ValueShape, Count)),
    ("input_tokens", Child(ValueShape, Count)), ("output_tokens", Child(ValueShape, Count)),
    ("cached_tokens", Child(ValueShape, Count)), ("cache_write_tokens", Child(ValueShape, Count)),
    ("reasoning_tokens", Child(ValueShape, Count))]

  /** What the elements of the maps are, under any key. */
  const ELEMENTS := [
    (Apis, Child(ObjectShape, Api)), (Models, Child(ObjectShape, Model)), (MapTokens, Child(ArrayShape, Tokens)),
    (MapCount, Child(ValueShape, Count)), (MapCost, Child(ValueShape, Float))]

  /** The table has this member, under this very name. */
  predicate InTable(scope: Scope, field: string, child: Child) {
    || (scope == Snapshot && (field, child) in SNAPSHOT_FIELDS)
    || (scope == Usage && (field, child) in USAGE_FIELDS + FIGURES)
    || (scope == Api && (field, child) in API_FIELDS + FIGURES)
    || (scope == Model && (field, child) in MODEL_FIELDS + FIGURES)
    || (scope, child) in ELEMENTS
  }

  lemma FigureIff(field: string, child: Child)
    ensures Figure(field) == Some(child) <==> (field, child) in FIGURES
  {
    if Figure(field) == Some(child) {
      assert FIGURES[0] == ("avg_latency_ms", Child(ValueShape, Float)) && FIGURES[1].0 == "total_requests"
        && FIGURES[2].0 == "success_count" && FIGURES[3].0 == "failure_count" && FIGURES[4].0 == "total_tokens"
        && FIGURES[5].0 == "input_tokens" && FIGURES[6].0 == "output_tokens" && FIGURES[7].0 == "cached_tokens"
        && FIGURES[8].0 == "cache_write_tokens" && FIGURES[9].0 == "reasoning_tokens";
      assert forall i | 0 < i < 10 :: FIGURES[i].1 == Child(ValueShape, Count);
    }
  }

  lemma SnapshotFieldsIff(field: string, child: Child)
    ensures ChildOf(Snapshot, field) == Some(child) <==> (field, child) in SNAPSHOT_FIELDS
  {
    assert SNAPSHOT_FIELDS[0] == ("version", Child(ValueShape, Version));
    assert SNAPSHOT_FIELDS[1] == ("generated_at", Child(ValueShape, GeneratedAt));
    assert SNAPSHOT_FIELDS[2] == ("usage", Child(ObjectShape, Usage));
  }

  lemma UsageFieldsIff(field: string, child: Child)
    ensures ChildOf(Usage, field) == Some(child) <==> (field, child) in USAGE_FIELDS + FIGURES
  {
    FigureIff(field, child);
    hide Figure;
    assert USAGE_FIELDS[0] == ("apis", Child(ObjectShape, Apis));
    assert USAGE_FIELDS[1] == ("cost_tokens_by_day", Child(ObjectShape, MapTokens));
    assert USAGE_FIELDS[2] == ("cost_tokens_by_hour", Child(ObjectShape, MapTokens));
    assert USAGE_FIELDS[3] == ("requests_by_day", Child(ObjectShape, MapCount));
    assert USAGE_FIELDS[4] == ("requests_by_hour", Child(ObjectShape, MapCount));
    assert USAGE_FIELDS[5] == ("tokens_by_day", Child(ObjectShape, MapCount));
    assert USAGE_FIELDS[6] == ("tokens_by_hour", Child(ObjectShape, MapCount));
    assert USAGE_FIELDS[7] == ("cost_by_day", Child(ObjectShape, MapCost));
    assert USAGE_FIELDS[8] == ("cost_by_hour", Child(ObjectShape, MapCost));
    NoOtherFigure(field);
  }

  lemma ApiFieldsIff(field: string, child: Child)
    ensures ChildOf(Api, field) == Some(child) <==> (field, child) in API_FIELDS + FIGURES
  {
    FigureIff(field, child);
    hide Figure;
    assert API_FIELDS[0] == ("models", Child(ObjectShape, Models));
    NoOtherFigure(field);
  }

  lemma ModelFieldsIff(field: string, child: Child)
    ensures ChildOf(Model, field) == Some(child) <==> (field, child) in MODEL_FIELDS + FIGURES
  {
    FigureIff(field, child);
    hide Figure;
    assert MODEL_FIELDS[0] == ("details", Child(ArrayShape, Detail));
    assert MODEL_FIELDS[1] == ("accounting", Child(ArrayShape, Detail));
    assert MODEL_FIELDS[2] == ("providers", Child(ArrayShape, Provider));
    NoOtherFigure(field);
  }

  lemma NoOtherFigure(field: string)
    ensures forall i | 0 <= i < |USAGE_FIELDS| :: USAGE_FIELDS[i].0 == field ==> Figure(field) == None
    ensures forall i | 0 <= i < |API_FIELDS| :: API_FIELDS[i].0 == field ==> Figure(field) == None
    ensures forall i | 0 <= i < |MODEL_FIELDS| :: MODEL_FIELDS[i].0 == field ==> Figure(field) == None
  {
  }

  lemma ElementsIff(scope: Scope, field: string, child: Child)
    requires IsMap(scope)
    ensures ChildOf(scope, field) == Some(child) <==> (scope, child) in ELEMENTS
  {
    assert ELEMENTS[0] == (Apis, Child(ObjectShape, Api)) && ELEMENTS[1] == (Models, Child(ObjectShape, Model));
    assert ELEMENTS[2] == (MapTokens, Child(ArrayShape, Tokens)) && ELEMENTS[3] == (MapCount, Child(ValueShape, Count));
    assert ELEMENTS[4] == (MapCost, Child(ValueShape, Float));
  }

  lemma OnlyMapsHaveElements(scope: Scope, child: Child)
    requires (scope, child) in ELEMENTS
    ensures IsMap(scope) && !IsStruct(scope)
  {
  }

  lemma NoOtherChild(scope: Scope, field: string)
    requires !IsStruct(scope) && !IsMap(scope)
    ensures ChildOf(scope, field) == None
  {
  }

  /** The table is the schema. */
  lemma TableIsSchema(scope: Scope, field: string, child: Child)
    ensures ChildOf(scope, field) == Some(child) <==> InTable(scope, field, child)
  {
    hide ChildOf, SNAPSHOT_FIELDS, USAGE_FIELDS, API_FIELDS, MODEL_FIELDS, FIGURES, ELEMENTS;
    SnapshotFieldsIff(field, child);
    UsageFieldsIff(field, child);
    ApiFieldsIff(field, child);
    ModelFieldsIff(field, child);
    if IsMap(scope) {
      ElementsIff(scope, field, child);
    } else {
      if (scope, child) in ELEMENTS {
        OnlyMapsHaveElements(scope, child);
      }
      if !IsStruct(scope) {
        NoOtherChild(scope, field);
      }
    }
  }

  // ----- keys that name a field -----

  /** Folding leaves it as it is. */
  predicate Plain(s: string) {
    forall i | 0 <= i < |s| :: 'a' <= s[i] <= 'z' || s[i] == '_'
  }

  lemma PlainFold(a: string, b: string)
    requires Plain(a) && Plain(b) && EqualFold(a, b)
    ensures a == b
  {
    forall i | 0 <= i < |a| ensures a[i] == b[i] {
      assert FoldChar(a[i]) == FoldChar(b[i]);
    }
  }

  lemma FieldsPlain()
    ensures forall i | 0 <= i < |FIELDS| :: Plain(FIELDS[i])
  {
    hide Plain;
    OuterFieldsPlain();
    DayAndHourFieldsPlain();
    CountFieldsPlain();
    TokenFieldsPlain();
    assert |FIELDS| == 26;
  }

  lemma OuterFieldsPlain()
    ensures forall i | 0 <= i < 8 :: Plain(FIELDS[i])
  {
  }

  lemma DayAndHourFieldsPlain()
    ensures forall i | 8 <= i < 16 :: Plain(FIELDS[i])
  {
  }

  lemma CountFieldsPlain()
    ensures forall i | 16 <= i < 21 :: Plain(FIELDS[i])
  {
  }

  lemma TokenFieldsPlain()
    ensures forall i | 21 <= i < 26 :: Plain(FIELDS[i])
  {
  }

  /** Every field of the table is known to the parser by name. */
  lemma KnownFigures()
    ensures forall i | 0 <= i < |FIGURES| :: FIGURES[i].0 in FIELDS
  {
    assert FIELDS[16] == "avg_latency_ms" && FIELDS[17] == "total_requests" && FIELDS[18] == "success_count";
    assert FIELDS[19] == "failure_count" && FIELDS[20] == "total_tokens" && FIELDS[21] == "input_tokens";
    assert FIELDS[22] == "output_tokens" && FIELDS[23] == "cached_tokens" && FIELDS[24] == "cache_write_tokens";
    assert FIELDS[25] == "reasoning_tokens";
  }

  lemma KnownUsageFields()
    ensures forall i | 0 <= i < |USAGE_FIELDS| :: USAGE_FIELDS[i].0 in FIELDS
  {
    assert FIELDS[3] == "apis" && FIELDS[8] == "cost_tokens_by_day" && FIELDS[9] == "cost_tokens_by_hour";
    assert FIELDS[10] == "requests_by_day" && FIELDS[11] == "requests_by_hour" && FIELDS[12] == "tokens_by_day";
    assert FIELDS[13] == "tokens_by_hour" && FIELDS[14] == "cost_by_day" && FIELDS[15] == "cost_by_hour";
  }

  lemma KnownOtherFields()
    ensures forall i | 0 <= i < |SNAPSHOT_FIELDS| :: SNAPSHOT_FIELDS[i].0 in FIELDS
    ensures forall i | 0 <= i < |API_FIELDS| :: API_FIELDS[i].0 in FIELDS
    ensures forall i | 0 <= i < |MODEL_FIELDS| :: MODEL_FIELDS[i].0 in FIELDS
  {
    assert FIELDS[0] == "version" && FIELDS[1] == "generated_at" && FIELDS[2] == "usage" && FIELDS[4] == "models";
    assert FIELDS[5] == "details" && FIELDS[6] == "accounting" && FIELDS[7] == "providers";
  }

  lemma KnownField(scope: Scope, field: string, child: Child)
    requires InTable(scope, field, child) && IsStruct(scope)
    ensures field in FIELDS
  {
    KnownFigures();
    KnownUsageFields();
    KnownOtherFields();
    if (scope, child) in ELEMENTS {
      OnlyMapsHaveElements(scope, child);
    }
  }

  lemma {:induction false} FirstFoldFolds(key: string, fields: seq<string>)
    ensures var name := FirstFold(key, fields); name == key || (name in fields && EqualFold(key, name))
    ensures (exists f :: f in fields && EqualFold(key, f)) ==> FirstFold(key, fields) in fields && EqualFold(key, FirstFold(key, fields))
  {
    hide EqualFold;
    if fields != [] && !EqualFold(key, fields[0]) {
      FirstFoldFolds(key, fields[1..]);
    }
  }

  lemma FoldedName(key: string, field: string)
    requires field in FIELDS && EqualFold(key, field)
    ensures FirstFold(key, FIELDS) == field
  {
    FirstFoldFolds(key, FIELDS);
    FieldsPlain();
    var name := FirstFold(key, FIELDS);
    hide FirstFold;
    assert EqualFold(name, field);
    PlainFold(name, field);
  }

  /** In a struct a key stands for the field that it folds to; any other member is skipped. In a map every
      key stands for itself. */
  lemma KeyNamesField(scope: Scope, key: string, child: Child)
    ensures IsStruct(scope) ==> (ChildOf(scope, MemberName(scope, key)) == Some(child)
      <==> exists field :: InTable(scope, field, child) && EqualFold(key, field))
    ensures IsStruct(scope) ==> forall field | InTable(scope, field, child) && EqualFold(key, field) :: MemberName(scope, key) == field
    ensures IsMap(scope) ==> MemberName(scope, key) == key
  {
    if IsStruct(scope) {
      hide ChildOf, InTable, FirstFold, EqualFold;
      var name := MemberName(scope, key);
      TableIsSchema(scope, name, child);
      NameFolds(key);
      forall field | InTable(scope, field, child) && EqualFold(key, field) ensures MemberName(scope, key) == field {
        KnownField(scope, field, child);
        FoldedName(key, field);
      }
    }
  }

  lemma NameFolds(key: string)
    ensures EqualFold(key, FirstFold(key, FIELDS))
  {
    hide FirstFold;
    FirstFoldFolds(key, FIELDS);
  }
}
