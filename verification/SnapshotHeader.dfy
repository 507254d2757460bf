/** The header of a snapshot, which is checked at its end: a version that is supported, and a time. Repeated
    members overwrite it, and a null leaves it as it is. */
module SnapshotHeader {
  import opened Wrappers
  import opened SnapshotDocument
  import opened ProjectionGraph
  import opened ProjectionBuilder

  const VERSION_MAX := 2
  const CURRENT_VERSION := 3

  /** How the texts of the two members are read. */
  datatype HeaderRules = HeaderRules(versionOf: Raw -> int, isTime: Raw -> bool)
  {
    /** Without a version it is 0; without a time there is no valid one. */
    predicate Accept(version: Option<Raw>, generatedAt: Option<Raw>) {
      var v := if version.Some? then versionOf(version.value) else 0;
      v <= VERSION_MAX && 0 <= v <= CURRENT_VERSION && generatedAt.Some? && isTime(generatedAt.value)
    }
  }

  /** Versions 0, 1 and 2 are accepted, with a time; without a version it is 0. */
  lemma AcceptIff(rules: HeaderRules, version: Option<Raw>, generatedAt: Option<Raw>)
    ensures rules.Accept(version, generatedAt) <==>
      (version.Some? ==> rules.versionOf(version.value) in {0, 1, 2}) && generatedAt.Some? && rules.isTime(generatedAt.value)
  {
  }

  // ----- the header that the events carry -----

  function After(a: Option<Raw>, b: Option<Raw>): Option<Raw> {
    if b.Some? then b else a
  }

  function TextOf(item: Item, scope: Scope): Option<Raw> {
    if item.Text? && item.scope == scope && !item.raw.IsNull() then Some(item.raw) else None
  }

  /** The last text of this kind that is no null. */
  function LastText(items: seq<Item>, scope: Scope): Option<Raw> {
    if items == [] then None else After(LastText(items[..|items| - 1], scope), TextOf(items[|items| - 1], scope))
  }

  lemma {:induction false} LastTextConcat(a: seq<Item>, b: seq<Item>, scope: Scope)
    ensures LastText(a + b, scope) == After(LastText(a, scope), LastText(b, scope))
    decreases |b|
  {
    hide TextOf;
    if b == [] {
      assert a + b == a;
    } else {
      assert (a + b)[..|a + b| - 1] == a + b[..|b| - 1];
      LastTextConcat(a, b[..|b| - 1], scope);
    }
  }

  lemma LastTextOne(item: Item, scope: Scope)
    ensures LastText([item], scope) == TextOf(item, scope)
  {
    assert [item][..0] == [];
  }

  // ----- the header that decoding gives -----

  /** The text that was decoded onto a field of the snapshot last. */
  function FieldText(v: Value, name: string): Option<Raw> {
    if v.Struct? && name in v.fields && v.fields[name].Atom? && v.fields[name].decoded != []
    then Some(v.fields[name].decoded[0]) else None
  }

  predicate HeaderAccepted(rules: HeaderRules, v: Value) {
    rules.Accept(FieldText(v, "version"), FieldText(v, "generated_at"))
  }

  predicate IsHeader(scope: Scope, name: string) {
    (scope == Version && name == "version") || (scope == GeneratedAt && name == "generated_at")
  }

  // ----- they are the same -----

  lemma {:induction false} NoneInTexts(path: seq<Name>, inner: Scope, elements: seq<Raw>, from: nat, scope: Scope)
    requires inner != scope
    ensures LastText(Texts(path, inner, elements, from), scope) == None
    decreases |elements|
  {
    if elements != [] {
      var first := Text(path + [Index(from)], inner, elements[0]);
      NoneInTexts(path, inner, elements[1..], from + 1, scope);
      LastTextConcat([first], Texts(path, inner, elements[1..], from + 1), scope);
      LastTextOne(first, scope);
    }
  }

  lemma Enclosed(open: Item, items: seq<Item>, close: Item, scope: Scope)
    requires TextOf(open, scope) == None && TextOf(close, scope) == None && LastText(items, scope) == None
    ensures LastText([open] + items + [close], scope) == None
  {
    LastTextConcat([open] + items, [close], scope);
    LastTextConcat([open], items, scope);
    LastTextOne(open, scope);
    LastTextOne(close, scope);
  }

  /** Only members of the snapshot itself are part of the header. */
  lemma {:induction false} NoneBelow(path: seq<Name>, child: Child, d: Document, scope: Scope)
    requires (scope == Version || scope == GeneratedAt) && child.scope != scope && child.scope != Snapshot
    ensures LastText(Events(path, child, d), scope) == None
    decreases d
  {
    match d {
      case Null => LastTextOne(NullItem(path, child.scope), scope);
      case Scalar(raw) => LastTextOne(Text(path, child.scope, raw), scope);
      case Array(elements) =>
        NoneInTexts(path, child.scope, elements, 0, scope);
        Enclosed(Begin(path, ArrayShape, child.scope), Texts(path, child.scope, elements, 0), Close(path, child.scope), scope);
      case Object(members) =>
        NoneInMembers(path, child.scope, members, scope);
        Enclosed(Begin(path, ObjectShape, child.scope), MemberEvents(path, child.scope, members), Close(path, child.scope), scope);
    }
  }

  lemma ChildIsNoHeader(outer: Scope, name: string)
    requires outer != Snapshot && ChildOf(outer, name).Some?
    ensures var child := ChildOf(outer, name).value; child.scope != Version && child.scope != GeneratedAt && child.scope != Snapshot
  {
  }

  lemma {:induction false} NoneInMembers(path: seq<Name>, outer: Scope, ms: Members, scope: Scope)
    requires (scope == Version || scope == GeneratedAt) && outer != Snapshot
    ensures LastText(MemberEvents(path, outer, ms), scope) == None
    decreases ms
  {
    hide ChildOf, MemberName;
    if ms.Member? {
      var name := MemberName(outer, ms.key);
      var child := ChildOf(outer, name);
      NoneInMembers(path, outer, ms.rest, scope);
      if child.Some? {
        ChildIsNoHeader(outer, name);
        NoneBelow(path + [Key(name)], child.value, ms.value, scope);
        LastTextConcat(Events(path + [Key(name)], child.value, ms.value), MemberEvents(path, outer, ms.rest), scope);
      } else {
        assert [] + MemberEvents(path, outer, ms.rest) == MemberEvents(path, outer, ms.rest);
      }
    }
  }

  /** One member of the snapshot: what its events and its decoding do to a field of the header. */
  lemma MemberHeader(fields: map<string, Value>, name: string, child: Child, d: Document, scope: Scope, field: string)
    requires IsHeader(scope, field) && ChildOf(Snapshot, name) == Some(child) && Fits(child, d)
    ensures var v := Decode(Snapshot, child, Field(fields, name), d);
      FieldText(Struct(WithField(fields, name, v)), field)
      == After(FieldText(Struct(fields), field), LastText(Events([Key(name)], child, d), scope))
  {
    if child.scope == scope {
      LastTextOne(Text([Key(name)], scope, d.raw), scope);
    } else {
      NoneBelow([Key(name)], child, d, scope);
    }
  }

  lemma {:induction false} MembersHeader(fields: map<string, Value>, ms: Members, scope: Scope, field: string)
    requires IsHeader(scope, field) && MembersFit(Snapshot, ms)
    ensures FieldText(Struct(DecodeMembers(Snapshot, fields, ms)), field)
         == After(FieldText(Struct(fields), field), LastText(MemberEvents([], Snapshot, ms), scope))
    decreases ms
  {
    hide ChildOf, MemberName, Events, Decode, Fits, FieldText;
    if ms.Member? {
      var name := MemberName(Snapshot, ms.key);
      var child := ChildOf(Snapshot, name);
      if child.Some? {
        var v := Decode(Snapshot, child.value, Field(fields, name), ms.value);
        MembersHeader(WithField(fields, name, v), ms.rest, scope, field);
        MemberHeader(fields, name, child.value, ms.value, scope, field);
        assert [] + [Key(name)] == [Key(name)];
        LastTextConcat(Events([Key(name)], child.value, ms.value), MemberEvents([], Snapshot, ms.rest), scope);
      } else {
        MembersHeader(fields, ms.rest, scope, field);
        assert [] + MemberEvents([], Snapshot, ms.rest) == MemberEvents([], Snapshot, ms.rest);
      }
    }
  }

  /** The header in the events of a document is the header of its decoded value. */
  lemma HeaderOfEvents(d: Document, scope: Scope, field: string)
    requires IsHeader(scope, field) && Fits(Child(ObjectShape, Snapshot), d)
    ensures LastText(DocumentEvents(d), scope) == FieldText(DecodeSnapshot(d), field)
  {
    match d {
      case Null => LastTextOne(NullItem([], Snapshot), scope);
      case Object(members) =>
        MembersHeader(map[], members, scope, field);
        var open, items, close := Begin([], ObjectShape, Snapshot), MemberEvents([], Snapshot, members), Close([], Snapshot);
        LastTextConcat([open] + items, [close], scope);
        LastTextConcat([open], items, scope);
        LastTextOne(open, scope);
        LastTextOne(close, scope);
    }
  }

  // ----- documents that are refused -----

  /** A snapshot without members, or null, has no time; whatever the texts mean, it is refused. */
  lemma EmptyIsRefused(rules: HeaderRules)
    ensures Fits(Child(ObjectShape, Snapshot), Object(End)) && !HeaderAccepted(rules, DecodeSnapshot(Object(End)))
    ensures Fits(Child(ObjectShape, Snapshot), Null) && !HeaderAccepted(rules, DecodeSnapshot(Null))
  {
  }

  /** So is one whose last version is that of snapshots with quota periods, whatever else it holds. */
  lemma QuotaVersionIsRefused(rules: HeaderRules, d: Document, version: Raw)
    requires Fits(Child(ObjectShape, Snapshot), d) && LastText(DocumentEvents(d), Version) == Some(version)
    requires rules.versionOf(version) > VERSION_MAX
    ensures !HeaderAccepted(rules, DecodeSnapshot(d))
  {
    HeaderOfEvents(d, Version, "version");
  }
}
