/** The streaming parser of snapshot documents. It follows the schema, passes atomic values on as texts,
    skips what it does not know, and emits one bracketed stream of events. */
module SnapshotParser {
  import opened Wrappers
  import opened SnapshotDocument
  import opened ProjectionGraph
  import opened ProjectionBuilder
  import opened SnapshotHeader

  const SKIP_DEPTH := 10000

  // ----- JSON and its tokens -----

  datatype Json = Atomic(text: string) | JsonObject(members: JsonMembers) | JsonArray(elements: JsonElements)

  datatype JsonMembers = NoMember | JsonMember(key: string, value: Json, more: JsonMembers)

  datatype JsonElements = NoElement | JsonElement(head: Json, tail: JsonElements)

  /** Keys and atomic values come with the text they have in the source. */
  datatype Token = OpenBrace | CloseBrace | OpenBracket | CloseBracket | KeyToken(key: string) | AtomToken(text: string)

  function TokensOf(j: Json): (ts: seq<Token>)
    ensures ts != [] && ts[0] != CloseBrace && ts[0] != CloseBracket && !ts[0].KeyToken?
  {
    match j
    case Atomic(text) => [AtomToken(text)]
    case JsonObject(members) => [OpenBrace] + MemberTokens(members) + [CloseBrace]
    case JsonArray(elements) => [OpenBracket] + ElementTokens(elements) + [CloseBracket]
  }

  function MemberTokens(ms: JsonMembers): seq<Token> {
    match ms
    case NoMember => []
    case JsonMember(key, value, more) => [KeyToken(key)] + TokensOf(value) + MemberTokens(more)
  }

  function ElementTokens(es: JsonElements): seq<Token> {
    match es
    case NoElement => []
    case JsonElement(head, tail) => TokensOf(head) + ElementTokens(tail)
  }

  /** The text of a value, without insignificant white space. */
  function Render(j: Json): string {
    match j
    case Atomic(text) => text
    case JsonObject(members) => "{" + RenderMembers(members) + "}"
    case JsonArray(elements) => "[" + RenderElements(elements) + "]"
  }

  function RenderMembers(ms: JsonMembers): string {
    match ms
    case NoMember => ""
    case JsonMember(key, value, more) =>
      "\"" + key + "\":" + Render(value) + (if more.NoMember? then "" else ",") + RenderMembers(more)
  }

  function RenderElements(es: JsonElements): string {
    match es
    case NoElement => ""
    case JsonElement(head, tail) => Render(head) + (if tail.NoElement? then "" else ",") + RenderElements(tail)
  }

  /** Two examples of the text of a value. */
  lemma RenderedExamples(a: string, b: string)
    ensures Render(JsonObject(JsonMember("k", Atomic(a), JsonMember("l", JsonArray(NoElement), NoMember)))) == "{\"k\":" + a + ",\"l\":[]}"
    ensures Render(JsonArray(JsonElement(Atomic(a), JsonElement(JsonObject(NoMember), JsonElement(Atomic(b), NoElement)))))
         == "[" + a + ",{}," + b + "]"
  {
    var inner := JsonMember("l", JsonArray(NoElement), NoMember);
    assert RenderMembers(inner) == "\"l\":[]";
    assert RenderMembers(JsonMember("k", Atomic(a), inner)) == "\"k\":" + a + ",\"l\":[]";
    var last := JsonElement(Atomic(b), NoElement);
    assert RenderElements(last) == b;
    assert RenderElements(JsonElement(JsonObject(NoMember), last)) == "{}," + b;
  }

  /** How many containers enclose the innermost value. */
  function Depth(j: Json): nat {
    match j
    case Atomic(_) => 0
    case JsonObject(members) => MembersDepth(members)
    case JsonArray(elements) => ElementsDepth(elements)
  }

  function MembersDepth(ms: JsonMembers): nat {
    match ms
    case NoMember => 0
    case JsonMember(_, value, more) => if Depth(value) >= MembersDepth(more) then 1 + Depth(value) else MembersDepth(more)
  }

  function ElementsDepth(es: JsonElements): nat {
    match es
    case NoElement => 0
    case JsonElement(head, tail) => if Depth(head) >= ElementsDepth(tail) then 1 + Depth(head) else ElementsDepth(tail)
  }

  /** A container is one deeper than its deepest member or element; an empty one is not counted, as nothing
      is inside it. */
  lemma DepthIs(key: string, j: Json, more: JsonMembers, tail: JsonElements)
    ensures forall text :: Depth(Atomic(text)) == 0
    ensures Depth(JsonObject(NoMember)) == 0 && Depth(JsonArray(NoElement)) == 0
    ensures var d := Depth(JsonObject(JsonMember(key, j, more)));
            d > Depth(j) && d >= Depth(JsonObject(more)) && (d == 1 + Depth(j) || d == Depth(JsonObject(more)))
    ensures var d := Depth(JsonArray(JsonElement(j, tail)));
            d > Depth(j) && d >= Depth(JsonArray(tail)) && (d == 1 + Depth(j) || d == Depth(JsonArray(tail)))
  {
  }

  /** An empty text is no value of any type. */
  ghost predicate Typed(decodes: (Scope, Raw) -> bool) {
    forall scope, raw | decodes(scope, raw) :: raw.text != ""
  }

  // ----- the document that JSON is, under the schema -----

  function NullDocument(): Document {
    Document.Null
  }

  function Interpret(decodes: (Scope, Raw) -> bool, child: Child, j: Json): Option<Document>
    decreases j
  {
    match child.shape
    case ValueShape => if decodes(child.scope, Raw(Render(j))) then Some(Scalar(Raw(Render(j)))) else None
    case ArrayShape =>
      (match j
       case Atomic(text) => if text == "null" then Some(NullDocument()) else None
       case JsonArray(elements) => if AllDecode(decodes, child.scope, elements) then Some(Array(Raws(elements))) else None
       case _ => None)
    case ObjectShape =>
      (match j
       case Atomic(text) => if text == "null" then Some(NullDocument()) else None
       case JsonObject(members) =>
         var ms := InterpretMembers(decodes, child.scope, members);
         if ms.Some? then Some(Object(ms.value)) else None
       case _ => None)
  }

  predicate AllDecode(decodes: (Scope, Raw) -> bool, scope: Scope, es: JsonElements) {
    match es
    case NoElement => true
    case JsonElement(head, tail) => decodes(scope, Raw(Render(head))) && AllDecode(decodes, scope, tail)
  }

  function Raws(es: JsonElements): seq<Raw> {
    match es
    case NoElement => []
    case JsonElement(head, tail) => [Raw(Render(head))] + Raws(tail)
  }

  /** The value of a member that is skipped does not matter. */
  function InterpretMembers(decodes: (Scope, Raw) -> bool, scope: Scope, ms: JsonMembers): Option<Members>
    decreases ms
  {
    match ms
    case NoMember => Some(End)
    case JsonMember(key, value, more) =>
      var child := ChildOf(scope, MemberName(scope, key));
      var v := if child.Some? then Interpret(decodes, child.value, value)
               else if Depth(value) <= SKIP_DEPTH then Some(NullDocument()) else None;
      var rest := InterpretMembers(decodes, scope, more);
      if v.Some? && rest.Some? then Some(Member(key, v.value, rest.value)) else None
  }

  /** What JSON is under the schema fits the schema. */
  lemma {:induction false} InterpretFits(decodes: (Scope, Raw) -> bool, child: Child, j: Json)
    requires Typed(decodes) && Interpret(decodes, child, j).Some?
    ensures Fits(child, Interpret(decodes, child, j).value)
    decreases j
  {
    if child.shape == ArrayShape && j.JsonArray? {
      RawsNotEmpty(decodes, child.scope, j.elements);
    }
    if child.shape == ObjectShape && j.JsonObject? {
      InterpretMembersFits(decodes, child.scope, j.members);
    }
  }

  lemma {:induction false} RawsNotEmpty(decodes: (Scope, Raw) -> bool, scope: Scope, es: JsonElements)
    requires Typed(decodes) && AllDecode(decodes, scope, es)
    ensures forall i | 0 <= i < |Raws(es)| :: Raws(es)[i].text != ""
  {
    if es.JsonElement? {
      RawsNotEmpty(decodes, scope, es.tail);
    }
  }

  lemma {:induction false} InterpretMembersFits(decodes: (Scope, Raw) -> bool, scope: Scope, ms: JsonMembers)
    requires Typed(decodes) && InterpretMembers(decodes, scope, ms).Some?
    ensures MembersFit(scope, InterpretMembers(decodes, scope, ms).value)
    decreases ms
  {
    if ms.JsonMember? {
      var child := ChildOf(scope, MemberName(scope, ms.key));
      if child.Some? {
        InterpretFits(decodes, child.value, ms.value);
      }
      InterpretMembersFits(decodes, scope, ms.more);
    }
  }

  // ----- what the next tokens say -----

  lemma ValueTokens(j: Json, more: seq<Token>)
    ensures match j
      case Atomic(text) => TokensOf(j) + more == [AtomToken(text)] + more
      case JsonObject(members) => TokensOf(j) + more == [OpenBrace] + AfterMembers(members, more)
      case JsonArray(elements) => TokensOf(j) + more == [OpenBracket] + AfterElements(elements, more)
  {
  }

  function AfterMembers(ms: JsonMembers, more: seq<Token>): seq<Token> {
    MemberTokens(ms) + [CloseBrace] + more
  }

  function AfterElements(es: JsonElements, more: seq<Token>): seq<Token> {
    ElementTokens(es) + [CloseBracket] + more
  }

  lemma NextMember(ms: JsonMembers, more: seq<Token>)
    ensures match ms
      case NoMember => AfterMembers(ms, more) == [CloseBrace] + more
      case JsonMember(key, value, ms') => AfterMembers(ms, more) == [KeyToken(key)] + (TokensOf(value) + AfterMembers(ms', more))
  {
  }

  lemma NextElement(es: JsonElements, more: seq<Token>)
    ensures match es
      case NoElement => AfterElements(es, more) == [CloseBracket] + more
      case JsonElement(head, tail) => AfterElements(es, more) == TokensOf(head) + AfterElements(tail, more)
    ensures es.JsonElement? ==> AfterElements(es, more)[0] == TokensOf(es.head)[0]
  {
  }

  // ----- what they mean -----

  lemma ObjectMeans(decodes: (Scope, Raw) -> bool, scope: Scope, j: Json)
    ensures Interpret(decodes, Child(ObjectShape, scope), j) == match j
      case Atomic(text) => if text == "null" then Some(NullDocument()) else None
      case JsonArray(_) => None
      case JsonObject(members) =>
        var ms := InterpretMembers(decodes, scope, members);
        if ms.Some? then Some(Document.Object(ms.value)) else None
  {
  }

  lemma ObjectEvents(path: seq<Name>, scope: Scope, members: Members)
    ensures Events(path, Child(ObjectShape, scope), NullDocument()) == [NullItem(path, scope)]
    ensures Events(path, Child(ObjectShape, scope), Document.Object(members))
         == [Begin(path, ObjectShape, scope)] + MemberEvents(path, scope, members) + [Close(path, scope)]
  {
  }

  /** The events of one member. A member that is skipped has none. */
  function EventsOfMember(path: seq<Name>, scope: Scope, key: string, d: Document): seq<Item> {
    var child := ChildOf(scope, MemberName(scope, key));
    if child == None then [] else Events(path + [Key(MemberName(scope, key))], child.value, d)
  }

  function InterpretMember(decodes: (Scope, Raw) -> bool, scope: Scope, key: string, j: Json): Option<Document> {
    var child := ChildOf(scope, MemberName(scope, key));
    if child.Some? then Interpret(decodes, child.value, j)
    else if Depth(j) <= SKIP_DEPTH then Some(NullDocument()) else None
  }

  lemma MemberMeans(decodes: (Scope, Raw) -> bool, path: seq<Name>, scope: Scope, ms: JsonMembers)
    requires ms.JsonMember?
    ensures var d, rest := InterpretMember(decodes, scope, ms.key, ms.value), InterpretMembers(decodes, scope, ms.more);
            var all := InterpretMembers(decodes, scope, ms);
            && (all.Some? <==> d.Some? && rest.Some?)
            && (all.Some? ==> MemberEvents(path, scope, all.value)
                              == EventsOfMember(path, scope, ms.key, d.value) + MemberEvents(path, scope, rest.value))
  {
  }

  lemma NoMemberMeans(decodes: (Scope, Raw) -> bool, path: seq<Name>, scope: Scope)
    ensures InterpretMembers(decodes, scope, NoMember) == Some(End) && MemberEvents(path, scope, End) == []
  {
  }

  // ----- the parser -----

  /** The decoder's tokens that are left, and the events that were emitted. The decoder has checked that
      the tokens are those of JSON; `j` names it, and `more` is what follows. */
  class SnapshotParser {
    const decodes: (Scope, Raw) -> bool
    var rest: seq<Token>
    var events: seq<Item>
    // The header as far as it was read.
    var version: Option<Raw>
    var generatedAt: Option<Raw>

    /** The header is that of the events. */
    ghost predicate Tracked()
      reads `events, `version, `generatedAt
    {
      version == LastText(events, Version) && generatedAt == LastText(events, GeneratedAt)
    }

    constructor (decodes: (Scope, Raw) -> bool, tokens: seq<Token>)
      ensures this.decodes == decodes && rest == tokens && events == [] && Tracked()
    {
      this.decodes, rest, events, version, generatedAt := decodes, tokens, [], None, None;
    }

    method Next() returns (token: Token)
      requires rest != []
      modifies `rest
      ensures token == old(rest)[0] && rest == old(rest)[1..]
    {
      token := rest[0];
      rest := rest[1..];
    }

    method Emit(item: Item)
      requires Tracked() && !item.Text?
      modifies `events
      ensures Tracked() && events == old(events) + [item]
    {
      EmitTracked(item);
      events := events + [item];
    }

    /** A text of the header is remembered before it is passed on. */
    method EmitText(path: seq<Name>, scope: Scope, raw: Raw)
      requires Tracked()
      modifies `events, `version, `generatedAt
      ensures Tracked() && events == old(events) + [Text(path, scope, raw)]
    {
      EmitTracked(Text(path, scope, raw));
      if scope == Version && !raw.IsNull() {
        version := Some(raw);
      } else if scope == GeneratedAt && !raw.IsNull() {
        generatedAt := Some(raw);
      }
      events := events + [Text(path, scope, raw)];
    }

    lemma EmitTracked(item: Item)
      ensures LastText(events + [item], Version) == After(LastText(events, Version), TextOf(item, Version))
      ensures LastText(events + [item], GeneratedAt) == After(LastText(events, GeneratedAt), TextOf(item, GeneratedAt))
    {
      assert (events + [item])[..|events|] == events;
    }

    /** Whether the innermost container goes on. */
    predicate More()
      requires rest != []
      reads `rest
    {
      rest[0] != CloseBrace && rest[0] != CloseBracket
    }

    // ----- whole values, as the decoder reads them -----

    /** Reads one value as a text. */
    method ReadText(ghost j: Json, ghost more: seq<Token>) returns (text: string)
      requires rest == TokensOf(j) + more
      modifies `rest
      ensures rest == more && text == Render(j)
      decreases |rest|, 1
    {
      hide TokensOf, AfterMembers, AfterElements, Render;
      ValueTokens(j, more);
      Rendered(j);
      var token := Next();
      if token == OpenBrace {
        text := ReadMembers(j.members, more);
        text := "{" + text + "}";
      } else if token == OpenBracket {
        text := ReadElements(j.elements, more);
        text := "[" + text + "]";
      } else {
        text := token.text;
      }
    }

    method ReadMembers(ghost members: JsonMembers, ghost more: seq<Token>) returns (text: string)
      requires rest == AfterMembers(members, more)
      modifies `rest
      ensures rest == more && text == RenderMembers(members)
      decreases |rest|, 0
    {
      hide TokensOf, AfterMembers, Render;
      ghost var ms, size := members, |rest|;
      text := "";
      NextMember(ms, more);
      while More()
        invariant rest == AfterMembers(ms, more) && rest != [] && |rest| <= size && text + RenderMembers(ms) == RenderMembers(members)
        invariant More() <==> ms.JsonMember?
        decreases |rest|
      {
        NextMember(ms, more);
        var key := Next();
        NextMember(ms.more, more);
        var value := ReadText(ms.value, AfterMembers(ms.more, more));
        text := text + ("\"" + key.key + "\":" + value + if More() then "," else "");
        ms := ms.more;
      }
      NextMember(ms, more);
      var _ := Next();
    }

    method ReadElements(ghost elements: JsonElements, ghost more: seq<Token>) returns (text: string)
      requires rest == AfterElements(elements, more)
      modifies `rest
      ensures rest == more && text == RenderElements(elements)
      decreases |rest|, 2
    {
      hide TokensOf, AfterElements, Render;
      ghost var es, size := elements, |rest|;
      text := "";
      NextElement(es, more);
      while More()
        invariant rest == AfterElements(es, more) && rest != [] && |rest| <= size && text + RenderElements(es) == RenderElements(elements)
        invariant More() <==> es.JsonElement?
        decreases |rest|
      {
        NextElement(es, more);
        NextElement(es.tail, more);
        var value := ReadText(es.head, AfterElements(es.tail, more));
        text := text + (value + if More() then "," else "");
        es := es.tail;
      }
      NextElement(es, more);
      var _ := Next();
    }

    lemma Rendered(j: Json)
      ensures match j
        case Atomic(text) => Render(j) == text
        case JsonObject(members) => Render(j) == "{" + RenderMembers(members) + "}"
        case JsonArray(elements) => Render(j) == "[" + RenderElements(elements) + "]"
    {
    }

    // ----- what the schema does not know -----

    method SkipValue(depth: nat, ghost j: Json, ghost more: seq<Token>) returns (ok: bool)
      requires rest == TokensOf(j) + more
      modifies `rest
      ensures ok <==> depth + Depth(j) <= SKIP_DEPTH
      ensures ok ==> rest == more
      decreases |rest|, 1
    {
      hide TokensOf, AfterMembers, AfterElements;
      ValueTokens(j, more);
      if depth > SKIP_DEPTH {
        return false;
      }
      var token := Next();
      ok := true;
      if token == OpenBrace {
        ok := SkipMembers(depth, j.members, more);
      } else if token == OpenBracket {
        ok := SkipElements(depth, j.elements, more);
      }
    }

    method SkipMembers(depth: nat, ghost members: JsonMembers, ghost more: seq<Token>) returns (ok: bool)
      requires rest == AfterMembers(members, more) && depth <= SKIP_DEPTH
      modifies `rest
      ensures ok <==> depth + MembersDepth(members) <= SKIP_DEPTH
      ensures ok ==> rest == more
      decreases |rest|, 0
    {
      hide TokensOf, AfterMembers;
      ghost var ms, size := members, |rest|;
      NextMember(ms, more);
      while More()
        invariant rest == AfterMembers(ms, more) && rest != [] && |rest| <= size && (More() <==> ms.JsonMember?)
        invariant depth + MembersDepth(members) <= SKIP_DEPTH <==> depth + MembersDepth(ms) <= SKIP_DEPTH
        decreases |rest|
      {
        NextMember(ms, more);
        var _ := Next();
        NextMember(ms.more, more);
        ok := SkipValue(depth + 1, ms.value, AfterMembers(ms.more, more));
        if !ok {
          return;
        }
        ms := ms.more;
      }
      NextMember(ms, more);
      var _ := Next();
      ok := true;
    }

    method SkipElements(depth: nat, ghost elements: JsonElements, ghost more: seq<Token>) returns (ok: bool)
      requires rest == AfterElements(elements, more) && depth <= SKIP_DEPTH
      modifies `rest
      ensures ok <==> depth + ElementsDepth(elements) <= SKIP_DEPTH
      ensures ok ==> rest == more
      decreases |rest|, 2
    {
      hide TokensOf, AfterElements;
      ghost var es, size := elements, |rest|;
      NextElement(es, more);
      while More()
        invariant rest == AfterElements(es, more) && rest != [] && |rest| <= size && (More() <==> es.JsonElement?)
        invariant depth + ElementsDepth(elements) <= SKIP_DEPTH <==> depth + ElementsDepth(es) <= SKIP_DEPTH
        decreases |rest|
      {
        NextElement(es, more);
        NextElement(es.tail, more);
        ok := SkipValue(depth + 1, es.head, AfterElements(es.tail, more));
        if !ok {
          return;
        }
        es := es.tail;
      }
      NextElement(es, more);
      var _ := Next();
      ok := true;
    }

    // ----- what it knows -----

    method Value(path: seq<Name>, scope: Scope, ghost j: Json, ghost more: seq<Token>) returns (ok: bool)
      requires rest == TokensOf(j) + more && Tracked()
      modifies this
      ensures ok <==> decodes(scope, Raw(Render(j)))
      ensures ok ==> Tracked() && rest == more && events == old(events) + [Text(path, scope, Raw(Render(j)))]
    {
      var text := ReadText(j, more);
      ok := decodes(scope, Raw(text));
      if ok {
        EmitText(path, scope, Raw(text));
      }
    }

    method Array(path: seq<Name>, scope: Scope, ghost j: Json, ghost more: seq<Token>) returns (ok: bool)
      requires rest == TokensOf(j) + more && Tracked()
      modifies this
      ensures ok <==> Interpret(decodes, Child(ArrayShape, scope), j).Some?
      ensures ok ==> rest == more && Tracked()
      ensures ok ==> events == old(events) + Events(path, Child(ArrayShape, scope), Interpret(decodes, Child(ArrayShape, scope), j).value)
    {
      hide TokensOf, AfterMembers, AfterElements, Render, SnapshotParser.Tracked;
      ValueTokens(j, more);
      var token := Next();
      if token == AtomToken("null") {
        Emit(NullItem(path, scope));
        return true;
      }
      if token != OpenBracket {
        return false;
      }
      Emit(Begin(path, ArrayShape, scope));
      ok := Elements(path, scope, j.elements, more);
      if ok {
        Emit(Close(path, scope));
      }
    }

    method Elements(path: seq<Name>, scope: Scope, ghost elements: JsonElements, ghost more: seq<Token>) returns (ok: bool)
      requires rest == AfterElements(elements, more) && Tracked()
      modifies this
      ensures ok <==> AllDecode(decodes, scope, elements)
      ensures ok ==> Tracked() && rest == more && events == old(events) + Texts(path, scope, Raws(elements), 0)
    {
      hide TokensOf, AfterElements, Render, SnapshotParser.Tracked;
      ghost var es := elements;
      var index := 0;
      NextElement(es, more);
      while More()
        invariant Tracked() && rest == AfterElements(es, more) && rest != [] && (More() <==> es.JsonElement?)
        invariant AllDecode(decodes, scope, elements) <==> AllDecode(decodes, scope, es)
        invariant events + Texts(path, scope, Raws(es), index) == old(events) + Texts(path, scope, Raws(elements), 0)
        decreases es
      {
        NextElement(es, more);
        NextElement(es.tail, more);
        ok := Value(path + [Index(index)], scope, es.head, AfterElements(es.tail, more));
        if !ok {
          return;
        }
        assert Raws(es)[1..] == Raws(es.tail);
        es, index := es.tail, index + 1;
      }
      NextElement(es, more);
      var _ := Next();
      ok := true;
    }

    /** An object of the schema. A null, or the members between two brackets. */
    method Object(path: seq<Name>, scope: Scope, ghost j: Json, ghost more: seq<Token>) returns (ok: bool)
      requires rest == TokensOf(j) + more && Tracked()
      modifies this
      ensures ok <==> Interpret(decodes, Child(ObjectShape, scope), j).Some?
      ensures ok ==> rest == more && Tracked()
      ensures ok ==> events == old(events) + Events(path, Child(ObjectShape, scope), Interpret(decodes, Child(ObjectShape, scope), j).value)
      decreases |rest|, 0
    {
      hide SnapshotParser.Tracked, TokensOf, AfterMembers, AfterElements, Interpret, InterpretMembers, Events, MemberEvents;
      ValueTokens(j, more);
      ObjectMeans(decodes, scope, j);
      ObjectEvents(path, scope, End);
      var token := Next();
      if token == AtomToken("null") {
        Emit(NullItem(path, scope));
        return true;
      }
      if token != OpenBrace {
        return false;
      }
      Emit(Begin(path, ObjectShape, scope));
      ok := ObjectMembers(path, scope, j.members, more);
      if ok {
        ObjectEvents(path, scope, InterpretMembers(decodes, scope, j.members).value);
        Emit(Close(path, scope));
      }
    }

    method ObjectMembers(path: seq<Name>, scope: Scope, ghost members: JsonMembers, ghost more: seq<Token>) returns (ok: bool)
      requires rest == AfterMembers(members, more) && Tracked()
      modifies this
      ensures ok <==> InterpretMembers(decodes, scope, members).Some?
      ensures ok ==> rest == more && Tracked()
      ensures ok ==> events == old(events) + MemberEvents(path, scope, InterpretMembers(decodes, scope, members).value)
      decreases |rest|, 0
    {
      hide SnapshotParser.Tracked, TokensOf, AfterMembers, InterpretMember, InterpretMembers, EventsOfMember, MemberEvents;
      ghost var ms, size := members, |rest|;
      NextMember(ms, more);
      while More()
        invariant Tracked() && rest == AfterMembers(ms, more) && rest != [] && |rest| <= size && (More() <==> ms.JsonMember?)
        invariant InterpretMembers(decodes, scope, members).Some? <==> InterpretMembers(decodes, scope, ms).Some?
        invariant InterpretMembers(decodes, scope, ms).Some? ==>
          events + MemberEvents(path, scope, InterpretMembers(decodes, scope, ms).value)
          == old(events) + MemberEvents(path, scope, InterpretMembers(decodes, scope, members).value)
        decreases |rest|
      {
        NextMember(ms, more);
        MemberMeans(decodes, path, scope, ms);
        var key := Next();
        NextMember(ms.more, more);
        ok := OneMember(path, scope, key.key, ms.value, AfterMembers(ms.more, more));
        if !ok {
          return;
        }
        ms := ms.more;
      }
      NextMember(ms, more);
      NoMemberMeans(decodes, path, scope);
      var _ := Next();
      ok := true;
    }

    /** What a member is, by the schema; anything else is skipped. */
    method OneMember(path: seq<Name>, scope: Scope, key: string, ghost j: Json, ghost more: seq<Token>) returns (ok: bool)
      requires rest == TokensOf(j) + more && Tracked()
      modifies this
      ensures ok <==> InterpretMember(decodes, scope, key, j).Some?
      ensures ok ==> rest == more && Tracked()
      ensures ok ==> events == old(events) + EventsOfMember(path, scope, key, InterpretMember(decodes, scope, key, j).value)
      decreases |rest|, 2
    {
      hide SnapshotParser.Tracked, TokensOf, Events, ChildOf, MemberName, Interpret, Depth;
      var name := MemberName(scope, key);
      var child := ChildOf(scope, name);
      if child == None {
        ok := SkipValue(0, j, more);
      } else {
        ok := KnownMember(path + [Key(name)], child.value, j, more);
      }
    }

    method KnownMember(path: seq<Name>, child: Child, ghost j: Json, ghost more: seq<Token>) returns (ok: bool)
      requires rest == TokensOf(j) + more && Tracked()
      modifies this
      ensures ok <==> Interpret(decodes, child, j).Some?
      ensures ok ==> Tracked() && rest == more && events == old(events) + Events(path, child, Interpret(decodes, child, j).value)
      decreases |rest|, 1
    {
      match child.shape {
        case ObjectShape => ok := Object(path, child.scope, j, more);
        case ArrayShape => ok := Array(path, child.scope, j, more);
        case ValueShape => ok := Value(path, child.scope, j, more);
      }
    }
  }

  /** Parsing succeeds just when the JSON is a document of the schema; then the events are the document's,
      and the header is checked as its members decode. */
  method ParseSnapshot(decodes: (Scope, Raw) -> bool, rules: HeaderRules, tokens: seq<Token>, ghost j: Json)
      returns (events: Option<seq<Item>>, accepted: bool)
    requires tokens == TokensOf(j) && Typed(decodes)
    ensures events.Some? <==> Interpret(decodes, Child(ObjectShape, Snapshot), j).Some?
    ensures events.Some? ==> var d := Interpret(decodes, Child(ObjectShape, Snapshot), j).value;
      events.value == DocumentEvents(d) && accepted == HeaderAccepted(rules, DecodeSnapshot(d))
  {
    hide TokensOf, Interpret, Typed, LastText, DecodeSnapshot, FieldText;
    var parser := new SnapshotParser(decodes, tokens);
    var ok := parser.Object([], Snapshot, j, []);
    if !ok {
      return None, false;
    }
    InterpretFits(decodes, Child(ObjectShape, Snapshot), j);
    ghost var d := Interpret(decodes, Child(ObjectShape, Snapshot), j).value;
    HeaderOfEvents(d, Version, "version");
    HeaderOfEvents(d, GeneratedAt, "generated_at");
    return Some(parser.events), rules.Accept(parser.version, parser.generatedAt);
  }
}
