/** Snapshot documents, and what decoding their members in order gives: maps and slices are reused when
    a member is repeated, a shorter array only hides what is behind its end, an empty one drops it, and
    null resets some kinds of members but not others. */
module SnapshotDocument {
  import opened Wrappers
  import opened Text

  // ----- documents -----

  /** The text of an atomic value or of one array element. */
  datatype Raw = Raw(text: string)
  {
    predicate IsNull() { TrimSpace(text) == "null" }
  }

  datatype Document = Null | Object(members: Members) | Array(elements: seq<Raw>) | Scalar(raw: Raw)

  /** The members of an object in the order of the text, repeated ones included. */
  datatype Members = End | Member(key: string, value: Document, rest: Members)

  // ----- the schema -----

  datatype Scope = Snapshot | Usage | Apis | Api | Models | Model | MapTokens | MapCount | MapCost
                 | Detail | Provider | Tokens | Version | GeneratedAt | Count | Float

  datatype Shape = ObjectShape | ArrayShape | ValueShape

  datatype Child = Child(shape: Shape, scope: Scope)

  /** Structs have fields; the other objects are maps, whose keys are identities. */
  predicate IsStruct(scope: Scope) {
    scope == Snapshot || scope == Usage || scope == Api || scope == Model
  }

  predicate IsMap(scope: Scope) {
    scope == Apis || scope == Models || scope == MapTokens || scope == MapCount || scope == MapCost
  }

  const FIELDS := [
    "version", "generated_at", "usage", "apis", "models", "details", "accounting", "providers",
    "cost_tokens_by_day", "cost_tokens_by_hour", "requests_by_day", "requests_by_hour",
    "tokens_by_day", "tokens_by_hour", "cost_by_day", "cost_by_hour", "avg_latency_ms",
    "total_requests", "success_count", "failure_count", "total_tokens", "input_tokens",
    "output_tokens", "cached_tokens", "cache_write_tokens", "reasoning_tokens"]

  function FirstFold(key: string, fields: seq<string>): string {
    if fields == [] then key else if EqualFold(key, fields[0]) then fields[0] else FirstFold(key, fields[1..])
  }

  /** The field that a key names: case is folded, except in the keys of maps. */
  function MemberName(scope: Scope, key: string): string {
    if IsMap(scope) then key else FirstFold(key, FIELDS)
  }

  predicate IsCount(field: string) {
    || field == "total_requests" || field == "success_count" || field == "failure_count" || field == "total_tokens"
    || field == "input_tokens" || field == "output_tokens" || field == "cached_tokens"
    || field == "cache_write_tokens" || field == "reasoning_tokens"
  }

  /** What a member of an object is, or nothing if it is skipped. */
  function ChildOf(scope: Scope, field: string): Option<Child> {
    match scope
    case Snapshot =>
      if field == "usage" then Some(Child(ObjectShape, Usage))
      else if field == "version" then Some(Child(ValueShape, Version))
      else if field == "generated_at" then Some(Child(ValueShape, GeneratedAt))
      else None
    case Apis => Some(Child(ObjectShape, Api))
    case Models => Some(Child(ObjectShape, Model))
    case MapTokens => Some(Child(ArrayShape, Tokens))
    case MapCount => Some(Child(ValueShape, Count))
    case MapCost => Some(Child(ValueShape, Float))
    case Usage =>
      if field == "apis" then Some(Child(ObjectShape, Apis))
      else if field == "cost_tokens_by_day" || field == "cost_tokens_by_hour" then Some(Child(ObjectShape, MapTokens))
      else if field == "requests_by_day" || field == "requests_by_hour" || field == "tokens_by_day" || field == "tokens_by_hour"
        then Some(Child(ObjectShape, MapCount))
      else if field == "cost_by_day" || field == "cost_by_hour" then Some(Child(ObjectShape, MapCost))
      else Figure(field)
    case Api => if field == "models" then Some(Child(ObjectShape, Models)) else Figure(field)
    case Model =>
      if field == "details" || field == "accounting" then Some(Child(ArrayShape, Detail))
      else if field == "providers" then Some(Child(ArrayShape, Provider))
      else Figure(field)
    case _ => None
  }

  function Figure(field: string): Option<Child> {
    if field == "avg_latency_ms" then Some(Child(ValueShape, Float))
    else if IsCount(field) then Some(Child(ValueShape, Count))
    else None
  }

  /** The document has the shapes that the schema asks for; the parser refuses any other. */
  predicate Fits(child: Child, d: Document)
    decreases d
  {
    match child.shape
    case ObjectShape => d.Null? || (d.Object? && MembersFit(child.scope, d.members))
    case ArrayShape => d.Null? || (d.Array? && forall i | 0 <= i < |d.elements| :: d.elements[i].text != "")
    case ValueShape => d.Scalar? && d.raw.text != ""
  }

  predicate MembersFit(scope: Scope, ms: Members)
    decreases ms
  {
    match ms
    case End => true
    case Member(key, value, rest) =>
      var child := ChildOf(scope, MemberName(scope, key));
      (child.Some? ==> Fits(child.value, value)) && MembersFit(scope, rest)
  }

  // ----- typed values -----

  /** A typed value. A text that is decoded onto a value is recorded, in order, so that equal values
      here are equal under any decoder. A slice keeps the cells behind its length. */
  datatype Value = Absent | Struct(fields: map<string, Value>) | Map(entries: map<string, Value>) | Nil
                 | Slice(cells: seq<seq<Raw>>, length: nat) | Atom(decoded: seq<Raw>)

  function Field(fields: map<string, Value>, name: string): Value {
    if name in fields then fields[name] else Absent
  }

  function WithField(fields: map<string, Value>, name: string, v: Value): map<string, Value> {
    if v == Absent then fields else fields[name := v]
  }

  /** Decoding the elements onto the cells of a slice, one by one. */
  function Overlay(cells: seq<seq<Raw>>, elements: seq<Raw>): (r: seq<seq<Raw>>)
    ensures |r| == if |cells| < |elements| then |elements| else |cells|
  {
    seq(if |cells| < |elements| then |elements| else |cells|, i requires 0 <= i =>
      (if i < |cells| then cells[i] else []) + (if i < |elements| then [elements[i]] else []))
  }

  /** Decoding a member onto the value it had. The value of a map's member is always a new one. */
  function Decode(parent: Scope, child: Child, previous: Value, d: Document): Value
    decreases d
  {
    match (child.shape, d)
    case (ValueShape, Scalar(raw)) => if IsStruct(parent) && raw.IsNull() then previous else Atom([raw])
    case (ArrayShape, Null) => Nil
    case (ArrayShape, Array(elements)) =>
      if elements == [] then Slice([], 0)
      else Slice(Overlay(if previous.Slice? then previous.cells else [], elements), |elements|)
    case (ObjectShape, Null) =>
      if child.scope == Usage then previous else if IsStruct(child.scope) then Struct(map[]) else Nil
    case (ObjectShape, Object(members)) =>
      if IsStruct(child.scope) then
        Struct(DecodeMembers(child.scope, if previous.Struct? then previous.fields else map[], members))
      else
        Map(DecodeMembers(child.scope, if previous.Map? then previous.entries else map[], members))
    case _ => previous
  }

  function DecodeMembers(scope: Scope, fields: map<string, Value>, ms: Members): map<string, Value>
    decreases ms
  {
    match ms
    case End => fields
    case Member(key, value, rest) =>
      var name := MemberName(scope, key);
      match ChildOf(scope, name)
      case None => DecodeMembers(scope, fields, rest)
      case Some(child) =>
        var v := Decode(scope, child, if IsMap(scope) then Absent else Field(fields, name), value);
        DecodeMembers(scope, WithField(fields, name, v), rest)
  }

  /** Decoding a whole document into an empty snapshot. */
  function DecodeSnapshot(d: Document): Value {
    match d
    case Object(members) => Struct(DecodeMembers(Snapshot, map[], members))
    case _ => Struct(map[])
  }

  /** What a reader of the value sees: not the cells behind the end of a slice. */
  function Visible(v: Value): Value {
    match v
    case Struct(fields) => Struct(map n | n in fields :: Visible(fields[n]))
    case Map(entries) => Map(map n | n in entries :: Visible(entries[n]))
    case Slice(cells, length) => if length <= |cells| then Slice(cells[..length], length) else v
    case _ => v
  }
}
