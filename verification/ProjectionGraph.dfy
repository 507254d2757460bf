/** The projection tables: nodes, the edges between them and the texts decoded onto value nodes. A node
    gets at most one incoming edge, when it is made; a replaced node stays behind, unreachable. */
module ProjectionGraph {
  import opened Wrappers
  import opened SnapshotDocument

  datatype Id = Id(n: nat)

  datatype Kind = ObjectKind | ArrayKind | ValueKind | NullKind

  /** A path component: a field or map key, or an array index. */
  datatype Name = Key(key: string) | Index(index: nat)

  datatype Edge = Edge(position: int, child: Id)

  /** Where a node was attached when it was made; the tables have this only as the edge itself. */
  datatype Home = NoHome | Home(parent: Id, name: Name)

  /** A node with its outgoing edges and its fragments, in event order. An array has `cells` elements,
      some of which may lie behind its length. */
  datatype Row = Row(kind: Kind, scope: Scope, length: nat, edges: map<Name, Edge>, fragments: seq<Raw>, home: Home, cells: nat)

  datatype Graph = Graph(next: nat, rows: map<Id, Row>)

  /** A child is of the kind and scope that its name has in the schema. */
  ghost predicate EdgeOk(g: Graph, id: Id, name: Name)
    requires id in g.rows && name in g.rows[id].edges
  {
    var c := g.rows[id].edges[name].child;
    && c in g.rows && g.rows[c].home == Home(id, name)
    && match g.rows[id].kind
       case ArrayKind =>
         && name.Index? && name.index < g.rows[id].cells && g.rows[id].edges[name].position == name.index
         && g.rows[c].kind == ValueKind && g.rows[c].scope == g.rows[id].scope
       case ObjectKind =>
         && name.Key? && g.rows[id].edges[name].position == -1
         && ChildOf(g.rows[id].scope, name.key) == Some(Child(ShapeOf(g, id, name), g.rows[c].scope))
         && IsOfShape(g.rows[c].kind, ShapeOf(g, id, name)) && (g.rows[c].scope == Usage ==> g.rows[c].kind == ObjectKind)
       case _ => false
  }

  ghost function ShapeOf(g: Graph, id: Id, name: Name): Shape
    requires id in g.rows
  {
    if name.Key? && ChildOf(g.rows[id].scope, name.key).Some? then ChildOf(g.rows[id].scope, name.key).value.shape else ValueShape
  }

  predicate IsOfShape(kind: Kind, shape: Shape) {
    match shape
    case ObjectShape => kind == ObjectKind || kind == NullKind
    case ArrayShape => kind == ArrayKind || kind == NullKind
    case ValueShape => kind == ValueKind
  }

  ghost predicate RowOk(g: Graph, id: Id)
    requires id in g.rows
  {
    && id.n < g.next
    && (g.rows[id].home.Home? ==> g.rows[id].home.parent.n < id.n && g.rows[id].home.parent in g.rows)
    && (forall name | name in g.rows[id].edges :: EdgeOk(g, id, name))
    && (g.rows[id].kind == ArrayKind ==>
          g.rows[id].length <= g.rows[id].cells && forall i: nat | i < g.rows[id].cells :: Index(i) in g.rows[id].edges)
  }

  ghost predicate WellFormed(g: Graph) {
    forall id | id in g.rows :: RowOk(g, id)
  }

  // ----- what a node stands for -----

  /** The typed value at a node, hidden cells included. */
  ghost function ValueAt(g: Graph, id: Id): Value
    requires WellFormed(g) && id in g.rows
    decreases g.next - id.n, 2
  {
    assert RowOk(g, id);
    var row := g.rows[id];
    match row.kind
    case ValueKind => Atom(row.fragments)
    case NullKind => if IsStruct(row.scope) then Struct(map[]) else Nil
    case ArrayKind => Slice(CellsAt(g, id), row.length)
    case ObjectKind => if IsStruct(row.scope) then Struct(FieldsAt(g, id)) else Map(FieldsAt(g, id))
  }

  ghost function FieldsAt(g: Graph, id: Id): map<string, Value>
    requires WellFormed(g) && id in g.rows
    decreases g.next - id.n, 1
  {
    map key | key in KeysAt(g, id) :: ChildValue(g, id, Key(key))
  }

  ghost function KeysAt(g: Graph, id: Id): (keys: set<string>)
    requires id in g.rows
    ensures forall key :: key in keys <==> Key(key) in g.rows[id].edges
  {
    set name | name in g.rows[id].edges && name.Key? :: name.key
  }

  ghost function ChildValue(g: Graph, id: Id, name: Name): Value
    requires WellFormed(g) && id in g.rows && name in g.rows[id].edges
    decreases g.next - id.n, 0
  {
    assert RowOk(g, id) && EdgeOk(g, id, name);
    assert RowOk(g, g.rows[id].edges[name].child);
    ValueAt(g, g.rows[id].edges[name].child)
  }

  ghost function CellsAt(g: Graph, id: Id): (cells: seq<seq<Raw>>)
    requires WellFormed(g) && id in g.rows && g.rows[id].kind == ArrayKind
    ensures |cells| == g.rows[id].cells
  {
    assert RowOk(g, id);
    seq(g.rows[id].cells, i requires 0 <= i < g.rows[id].cells && Index(i) in g.rows[id].edges =>
      assert EdgeOk(g, id, Index(i)); g.rows[g.rows[id].edges[Index(i)].child].fragments)
  }

  // ----- what lies below a node -----

  ghost predicate Below(g: Graph, a: Id, x: Id)
    decreases x.n
  {
    && x in g.rows
    && (x == a || (g.rows[x].home.Home? && g.rows[x].home.parent.n < x.n && Below(g, a, g.rows[x].home.parent)))
  }

  lemma {:induction false} BelowIsLater(g: Graph, a: Id, x: Id)
    requires Below(g, a, x)
    ensures a.n <= x.n
    decreases x.n
  {
    if x != a {
      BelowIsLater(g, a, g.rows[x].home.parent);
    }
  }

  lemma {:induction false} BelowTransitive(g: Graph, a: Id, b: Id, x: Id)
    requires Below(g, a, b) && Below(g, b, x)
    ensures Below(g, a, x)
    decreases x.n
  {
    if x != b && x != a {
      BelowTransitive(g, a, b, g.rows[x].home.parent);
    }
  }

  /** The nodes above a node form a chain. */
  lemma {:induction false} AboveIsChain(g: Graph, a: Id, b: Id, x: Id)
    requires Below(g, a, x) && Below(g, b, x)
    ensures Below(g, a, b) || Below(g, b, a)
    decreases x.n
  {
    if x != a && x != b {
      AboveIsChain(g, a, b, g.rows[x].home.parent);
    }
  }

  /** Different children of a node have nothing in common below them. */
  lemma SiblingsApart(g: Graph, p: Id, m: Name, n: Name, x: Id)
    requires WellFormed(g) && p in g.rows && m in g.rows[p].edges && n in g.rows[p].edges && m != n
    requires Below(g, g.rows[p].edges[m].child, x)
    ensures !Below(g, g.rows[p].edges[n].child, x)
  {
    var a, b := g.rows[p].edges[m].child, g.rows[p].edges[n].child;
    assert RowOk(g, p) && EdgeOk(g, p, m) && EdgeOk(g, p, n);
    assert RowOk(g, a) && RowOk(g, b);
    if Below(g, b, x) {
      AboveIsChain(g, a, b, x);
      if Below(g, a, b) {
        BelowIsLater(g, a, p);
      } else {
        BelowIsLater(g, b, p);
      }
      assert false;
    }
  }

  lemma ChildIsBelow(g: Graph, p: Id, n: Name)
    requires WellFormed(g) && p in g.rows && n in g.rows[p].edges
    ensures Below(g, p, g.rows[p].edges[n].child)
  {
    assert RowOk(g, p) && EdgeOk(g, p, n);
    assert RowOk(g, g.rows[p].edges[n].child);
  }

  // ----- changes elsewhere -----

  /** Nothing below `a` was changed. */
  ghost predicate SameBelow(g: Graph, h: Graph, a: Id) {
    forall x | Below(g, a, x) :: x in h.rows && h.rows[x] == g.rows[x]
  }

  lemma {:induction false} SameValue(g: Graph, h: Graph, a: Id)
    requires WellFormed(g) && WellFormed(h) && a in g.rows && SameBelow(g, h, a)
    ensures a in h.rows && ValueAt(h, a) == ValueAt(g, a)
    decreases g.next - a.n
  {
    assert RowOk(g, a) && Below(g, a, a);
    assert RowOk(h, a);
    forall n | n in g.rows[a].edges
      ensures EdgeOk(g, a, n) && g.rows[a].edges[n].child in h.rows
      ensures h.rows[g.rows[a].edges[n].child] == g.rows[g.rows[a].edges[n].child]
      ensures ValueAt(h, g.rows[a].edges[n].child) == ValueAt(g, g.rows[a].edges[n].child)
    {
      var c := g.rows[a].edges[n].child;
      ChildIsBelow(g, a, n);
      forall x | Below(g, c, x) ensures x in h.rows && h.rows[x] == g.rows[x] {
        BelowTransitive(g, a, c, x);
      }
      assert EdgeOk(g, a, n) && RowOk(g, c);
      SameValue(g, h, c);
    }
    if g.rows[a].kind == ObjectKind {
      assert FieldsAt(h, a) == FieldsAt(g, a);
    } else if g.rows[a].kind == ArrayKind {
      assert CellsAt(h, a) == CellsAt(g, a);
    }
  }

  // ----- changes at and below a node -----

  /** Nodes stay what and where they are. */
  ghost predicate Grows(g: Graph, h: Graph) {
    && g.next <= h.next
    && forall x | x in g.rows ::
         && x in h.rows && h.rows[x].home == g.rows[x].home && h.rows[x].kind == g.rows[x].kind
         && h.rows[x].scope == g.rows[x].scope
  }

  /** Of the nodes there were, only those at and below `a` have changed. */
  ghost predicate ChangedBelow(g: Graph, h: Graph, a: Id) {
    Grows(g, h) && forall x | x in g.rows && !Below(g, a, x) :: h.rows[x] == g.rows[x]
  }

  /** Of the nodes there were, only the edge `name` of `p` and what was below it has changed. */
  ghost predicate ChangedMember(g: Graph, h: Graph, p: Id, name: Name)
    requires p in g.rows
  {
    && Grows(g, h)
    && h.rows[p] == g.rows[p].(edges := h.rows[p].edges)
    && (forall n | n != name :: (n in h.rows[p].edges <==> n in g.rows[p].edges)
          && (n in g.rows[p].edges ==> h.rows[p].edges[n] == g.rows[p].edges[n]))
    && (name in g.rows[p].edges ==> name in h.rows[p].edges)
    && forall x | x in g.rows && x != p && !(name in g.rows[p].edges && Below(g, g.rows[p].edges[name].child, x)) ::
         h.rows[x] == g.rows[x]
  }

  lemma {:induction false} BelowSame(g: Graph, h: Graph, a: Id, x: Id)
    requires WellFormed(g) && Grows(g, h) && x in g.rows
    ensures Below(h, a, x) <==> Below(g, a, x)
    decreases x.n
  {
    assert RowOk(g, x);
    if x != a && g.rows[x].home.Home? {
      BelowSame(g, h, a, g.rows[x].home.parent);
    }
  }

  lemma ChangedBelowTransitive(g: Graph, h: Graph, k: Graph, a: Id)
    requires WellFormed(g) && ChangedBelow(g, h, a) && ChangedBelow(h, k, a)
    ensures ChangedBelow(g, k, a)
  {
    forall x | x in g.rows && !Below(g, a, x) ensures k.rows[x] == g.rows[x] {
      BelowSame(g, h, a, x);
    }
  }

  lemma MemberIsBelow(g: Graph, h: Graph, p: Id, name: Name)
    requires WellFormed(g) && p in g.rows && ChangedMember(g, h, p, name)
    ensures ChangedBelow(g, h, p)
  {
    forall x | x in g.rows && !Below(g, p, x) ensures h.rows[x] == g.rows[x] {
      if name in g.rows[p].edges && Below(g, g.rows[p].edges[name].child, x) {
        ChildIsBelow(g, p, name);
        BelowTransitive(g, p, g.rows[p].edges[name].child, x);
        assert false;
      }
    }
  }

  ghost function FieldAt(g: Graph, p: Id, key: string): Value
    requires WellFormed(g) && p in g.rows
  {
    if Key(key) in g.rows[p].edges then ChildValue(g, p, Key(key)) else Absent
  }

  /** The other members of `p` have kept their values. */
  lemma OtherMembers(g: Graph, h: Graph, p: Id, name: Name, other: Name)
    requires WellFormed(g) && WellFormed(h) && p in g.rows && ChangedMember(g, h, p, name)
    requires other != name && other in g.rows[p].edges
    ensures ChildValue(h, p, other) == ChildValue(g, p, other)
  {
    var c := g.rows[p].edges[other].child;
    assert RowOk(g, p) && EdgeOk(g, p, other) && RowOk(g, c);
    forall x | Below(g, c, x) ensures x in h.rows && h.rows[x] == g.rows[x] {
      if name in g.rows[p].edges {
        SiblingsApart(g, p, other, name, x);
      }
      if x == p {
        BelowIsLater(g, c, p);
        assert false;
      }
    }
    SameValue(g, h, c);
  }

  lemma FieldsAtKey(g: Graph, p: Id)
    requires WellFormed(g) && p in g.rows
    ensures forall k :: k in FieldsAt(g, p) <==> Key(k) in g.rows[p].edges
    ensures forall k | k in FieldsAt(g, p) :: FieldsAt(g, p)[k] == FieldAt(g, p, k)
  {
    hide ChildValue, RowOk;
  }

  lemma MemberFields(g: Graph, h: Graph, p: Id, key: string)
    requires WellFormed(g) && WellFormed(h) && p in g.rows && ChangedMember(g, h, p, Key(key))
    ensures FieldsAt(h, p) == WithField(FieldsAt(g, p), key, FieldAt(h, p, key))
  {
    hide ChildValue, RowOk, FieldsAt, Below;
    FieldsAtKey(g, p);
    FieldsAtKey(h, p);
    forall k | Key(k) in g.rows[p].edges && k != key ensures FieldAt(h, p, k) == FieldAt(g, p, k) {
      OtherMembers(g, h, p, Key(key), Key(k));
    }
    if Key(key) in h.rows[p].edges {
      NeverAbsent(h, p, Key(key));
    }
    var l, r := FieldsAt(h, p), WithField(FieldsAt(g, p), key, FieldAt(h, p, key));
    assert forall k :: k in l <==> k in r;
  }

  lemma NeverAbsent(g: Graph, p: Id, name: Name)
    requires WellFormed(g) && p in g.rows && name in g.rows[p].edges
    ensures ChildValue(g, p, name) != Absent
  {
  }
}
