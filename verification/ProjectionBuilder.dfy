/** Folding the event stream of a snapshot document into the projection tables. */
module ProjectionBuilder {
  import opened Wrappers
  import opened SnapshotDocument
  import opened ProjectionGraph

  const MAX_DEPTH := 8

  datatype Item = Begin(path: seq<Name>, shape: Shape, scope: Scope) | Close(path: seq<Name>, scope: Scope)
                | Text(path: seq<Name>, scope: Scope, raw: Raw) | NullItem(path: seq<Name>, scope: Scope)

  /** An open container. `reuse` says that it existed before its member was repeated. */
  datatype Frame = Frame(id: Id, kind: Kind, scope: Scope, length: nat, reuse: bool)

  datatype State = State(root: Id, g: Graph, frames: seq<Frame>)

  // ----- the statements on the tables -----

  /** A new node under `parent`; an edge of the same name is replaced. */
  function Attach(g: Graph, kind: Kind, scope: Scope, parent: Id, name: Name, position: int): Graph
    requires parent in g.rows
  {
    var id := Id(g.next);
    var row := Row(kind, scope, 0, map[], [], Home(parent, name), 0);
    var p := g.rows[parent];
    var cells := if name.Index? && name.index >= p.cells then name.index + 1 else p.cells;
    Graph(g.next + 1, g.rows[id := row][parent := p.(edges := p.edges[name := Edge(position, id)], cells := cells)])
  }

  function SetLength(g: Graph, id: Id, length: nat): Graph
    requires id in g.rows
  {
    g.(rows := g.rows[id := g.rows[id].(length := length)])
  }

  function PutText(g: Graph, id: Id, raw: Raw): Graph
    requires id in g.rows
  {
    g.(rows := g.rows[id := g.rows[id].(fragments := g.rows[id].fragments + [raw])])
  }

  function KindOf(item: Item): Kind
    requires !item.Close?
  {
    match item
    case Begin(_, shape, _) => if shape == ArrayShape then ArrayKind else ObjectKind
    case Text(_, _, _) => ValueKind
    case NullItem(_, _) => NullKind
  }

  /** Whether a repeated member continues the node it already has. */
  predicate Reuses(item: Item, parent: Frame)
    requires !item.Close?
  {
    || (KindOf(item) == ObjectKind && (item.scope == Usage || (IsMap(item.scope))))
    || (KindOf(item) == ArrayKind && parent.scope == Model)
    || (KindOf(item) == ValueKind && parent.kind == ArrayKind && parent.reuse)
  }

  function Existing(g: Graph, parent: Id, name: Name, kind: Kind, scope: Scope): Option<Id> {
    if parent in g.rows && name in g.rows[parent].edges then
      var c := g.rows[parent].edges[name].child;
      if c in g.rows && g.rows[c].kind == kind && g.rows[c].scope == scope then Some(c) else None
    else None
  }

  /** One event. An event that does not fit the open containers is refused. */
  function Apply(s: State, item: Item): Option<State> {
    if |item.path| > MAX_DEPTH then None
    else if item.Close? then ApplyClose(s, item)
    else if |s.frames| != |item.path| then None
    else if item.path == [] then
      if item.NullItem? then Some(s)
      else if KindOf(item) != ObjectKind || item.scope != Snapshot then None
      else Some(s.(frames := s.frames + [Frame(s.root, ObjectKind, Snapshot, 0, false)]))
    else ApplyChild(s, item)
  }

  function ApplyClose(s: State, item: Item): Option<State>
    requires item.Close?
  {
    if |s.frames| != |item.path| + 1 then None
    else
      var last, rest := s.frames[|s.frames| - 1], s.frames[..|s.frames| - 1];
      if last.scope != item.scope || last.id !in s.g.rows then None
      else if last.kind != ArrayKind then Some(s.(frames := rest))
      else if last.length > 0 || !last.reuse then Some(s.(g := SetLength(s.g, last.id, last.length), frames := rest))
      // An empty array drops what a repeated member must not bring back.
      else if rest == [] || rest[|rest| - 1].id !in s.g.rows then None
      else Some(s.(g := Attach(s.g, ArrayKind, last.scope, rest[|rest| - 1].id, item.path[|item.path| - 1], -1), frames := rest))
  }

  function ApplyChild(s: State, item: Item): Option<State>
    requires !item.Close? && |s.frames| == |item.path| > 0
  {
    var top, name := |s.frames| - 1, item.path[|item.path| - 1];
    var parent := s.frames[top];
    if parent.id !in s.g.rows then None
    else if parent.kind == ArrayKind && (!name.Index? || name.index != parent.length) then None
    else
      var frames := if parent.kind == ArrayKind then s.frames[top := parent.(length := parent.length + 1)] else s.frames;
      if item.NullItem? && item.scope == Usage then Some(s.(frames := frames))
      else if item.Text? && parent.kind == ObjectKind && IsStruct(parent.scope) && item.raw.IsNull() then
        Some(s.(frames := frames))
      else
        var prior := if Reuses(item, parent) then Existing(s.g, parent.id, name, KindOf(item), item.scope) else None;
        var g := if prior.Some? then s.g
                 else Attach(s.g, KindOf(item), item.scope, parent.id, name, if name.Index? then name.index else -1);
        var id := if prior.Some? then prior.value else Id(s.g.next);
        match item
        case Begin(_, _, _) => Some(State(s.root, g, frames + [Frame(id, KindOf(item), item.scope, 0, prior.Some?)]))
        case Text(_, _, raw) =>
          if |raw.text| == 0 || id !in g.rows then None else Some(State(s.root, PutText(g, id, raw), frames))
        case NullItem(_, _) => Some(State(s.root, g, frames))
  }

  function ApplyAll(s: State, items: seq<Item>): Option<State>
    decreases |items|
  {
    if items == [] then Some(s)
    else match Apply(s, items[0])
      case None => None
      case Some(t) => ApplyAll(t, items[1..])
  }

  lemma {:induction false} ApplyConcat(s: State, a: seq<Item>, b: seq<Item>)
    ensures ApplyAll(s, a + b) == match ApplyAll(s, a) case None => None case Some(t) => ApplyAll(t, b)
    decreases |a|
  {
    hide Apply;
    if a == [] {
      assert a + b == b;
    } else {
      assert (a + b)[0] == a[0] && (a + b)[1..] == a[1..] + b;
      if Apply(s, a[0]).Some? {
        ApplyConcat(Apply(s, a[0]).value, a[1..], b);
      }
    }
  }

  // ----- the events of a document -----

  function Texts(path: seq<Name>, scope: Scope, elements: seq<Raw>, from: nat): seq<Item>
  {
    if elements == [] then [] else [Text(path + [Index(from)], scope, elements[0])] + Texts(path, scope, elements[1..], from + 1)
  }

  function Events(path: seq<Name>, child: Child, d: Document): seq<Item>
    decreases d
  {
    match d
    case Null => [NullItem(path, child.scope)]
    case Scalar(raw) => [Text(path, child.scope, raw)]
    case Array(elements) =>
      [Begin(path, ArrayShape, child.scope)] + Texts(path, child.scope, elements, 0) + [Close(path, child.scope)]
    case Object(members) =>
      [Begin(path, ObjectShape, child.scope)] + MemberEvents(path, child.scope, members) + [Close(path, child.scope)]
  }

  function MemberEvents(path: seq<Name>, scope: Scope, ms: Members): seq<Item>
    decreases ms
  {
    match ms
    case End => []
    case Member(key, value, rest) =>
      var name := MemberName(scope, key);
      (match ChildOf(scope, name)
       case None => []
       case Some(child) => Events(path + [Key(name)], child, value)) + MemberEvents(path, scope, rest)
  }

  function DocumentEvents(d: Document): seq<Item> {
    Events([], Child(ObjectShape, Snapshot), d)
  }
}
