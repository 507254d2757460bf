/** The tables built from a document's events stand for what decoding its members in order gives. */
module ProjectionMeaning {
  import opened Wrappers
  import opened SnapshotDocument
  import opened ProjectionGraph
  import opened ProjectionBuilder

  // ----- single statements -----

  lemma NextIsFree(g: Graph)
    requires WellFormed(g)
    ensures Id(g.next) !in g.rows
  {
    forall id | id in g.rows ensures id.n < g.next {
      assert RowOk(g, id);
    }
  }

  lemma EdgeStays(g: Graph, h: Graph, id: Id, n: Name)
    requires id in g.rows && id in h.rows && n in g.rows[id].edges && EdgeOk(g, id, n) && Grows(g, h)
    requires n in h.rows[id].edges && h.rows[id].edges[n] == g.rows[id].edges[n] && h.rows[id].cells >= g.rows[id].cells
    ensures EdgeOk(h, id, n)
  {
    hide ChildOf;
  }

  lemma RowStays(g: Graph, h: Graph, id: Id)
    requires id in g.rows && RowOk(g, id) && Grows(g, h)
    requires h.rows[id].edges == g.rows[id].edges && h.rows[id].cells == g.rows[id].cells
    requires h.rows[id].kind == ArrayKind ==> h.rows[id].length <= h.rows[id].cells
    ensures RowOk(h, id)
  {
    hide EdgeOk;
    forall n | n in h.rows[id].edges ensures EdgeOk(h, id, n) {
      EdgeStays(g, h, id, n);
    }
  }

  lemma AttachGrows(g: Graph, kind: Kind, scope: Scope, p: Id, name: Name, position: int)
    requires WellFormed(g) && p in g.rows
    ensures var h := Attach(g, kind, scope, p, name, position);
            && Grows(g, h) && Id(g.next) !in g.rows && Id(g.next) != p && Id(g.next) in h.rows
            && h.rows[Id(g.next)] == Row(kind, scope, 0, map[], [], Home(p, name), 0)
            && (forall x | x in g.rows && x != p :: h.rows[x] == g.rows[x])
            && (forall x | x in h.rows :: x in g.rows || x == Id(g.next))
            && h.rows[p] == g.rows[p].(edges := g.rows[p].edges[name := Edge(position, Id(g.next))], cells := h.rows[p].cells)
            && h.rows[p].cells >= g.rows[p].cells && (name.Key? ==> h.rows[p].cells == g.rows[p].cells)
            && h.next == g.next + 1
  {
    hide RowOk;
    NextIsFree(g);
  }

  /** A new node under an object. */
  lemma AttachMember(g: Graph, kind: Kind, scope: Scope, p: Id, key: string)
    requires WellFormed(g) && p in g.rows && g.rows[p].kind == ObjectKind
    requires ChildOf(g.rows[p].scope, key).Some? && ChildOf(g.rows[p].scope, key).value.scope == scope
    requires IsOfShape(kind, ChildOf(g.rows[p].scope, key).value.shape) && (scope == Usage ==> kind == ObjectKind)
    ensures var h := Attach(g, kind, scope, p, Key(key), -1);
            && WellFormed(h) && ChangedMember(g, h, p, Key(key))
            && Id(g.next) in h.rows && Key(key) in h.rows[p].edges && h.rows[p].edges[Key(key)].child == Id(g.next)
            && h.rows[Id(g.next)] == Row(kind, scope, 0, map[], [], Home(p, Key(key)), 0)
  {
    hide ChildOf, Below, Attach;
    AttachGrows(g, kind, scope, p, Key(key), -1);
    var h := Attach(g, kind, scope, p, Key(key), -1);
    assert RowOk(g, p);
    forall id | id in h.rows ensures RowOk(h, id) {
      if id == p {
        NewEdgeOk(h, p, key);
        ParentStays(g, h, p, Key(key));
      } else if id in g.rows {
        RowStays(g, h, id);
      }
    }
  }

  lemma NewEdgeOk(h: Graph, p: Id, key: string)
    requires p in h.rows && h.rows[p].kind == ObjectKind && Key(key) in h.rows[p].edges
    requires var c := h.rows[p].edges[Key(key)].child; c in h.rows && h.rows[c].home == Home(p, Key(key))
    requires ChildOf(h.rows[p].scope, key).Some? && h.rows[p].edges[Key(key)].position == -1
    requires var c, child := h.rows[h.rows[p].edges[Key(key)].child], ChildOf(h.rows[p].scope, key).value;
             child.scope == c.scope && IsOfShape(c.kind, child.shape) && (c.scope == Usage ==> c.kind == ObjectKind)
    ensures EdgeOk(h, p, Key(key))
  {
    hide ChildOf;
  }

  /** A node keeps its well-formedness when one good edge is put. */
  lemma ParentStays(g: Graph, h: Graph, p: Id, name: Name)
    requires p in g.rows && RowOk(g, p) && Grows(g, h) && name in h.rows[p].edges && EdgeOk(h, p, name)
    requires h.rows[p].edges == g.rows[p].edges[name := h.rows[p].edges[name]] && h.rows[p].cells >= g.rows[p].cells
    requires g.rows[p].kind != ArrayKind
    ensures RowOk(h, p)
  {
    hide EdgeOk;
    forall n | n in h.rows[p].edges && n != name ensures EdgeOk(h, p, n) {
      EdgeStays(g, h, p, n);
    }
  }

  /** A new element behind the cells of an array. */
  lemma AttachCell(g: Graph, a: Id)
    requires WellFormed(g) && a in g.rows && g.rows[a].kind == ArrayKind
    ensures var h := Attach(g, ValueKind, g.rows[a].scope, a, Index(g.rows[a].cells), g.rows[a].cells);
            && WellFormed(h) && ChangedBelow(g, h, a) && h.rows[a].cells == g.rows[a].cells + 1
            && h.rows[a].length == g.rows[a].length
            && Id(g.next) in h.rows && h.rows[Id(g.next)].fragments == []
            && h.rows[a].edges == g.rows[a].edges[Index(g.rows[a].cells) := Edge(g.rows[a].cells, Id(g.next))]
            && (forall x | x in g.rows && x != a :: h.rows[x] == g.rows[x])
  {
    hide ChildOf;
    var i := g.rows[a].cells;
    AttachGrows(g, ValueKind, g.rows[a].scope, a, Index(i), i);
    var h := Attach(g, ValueKind, g.rows[a].scope, a, Index(i), i);
    assert RowOk(g, a) && Below(g, a, a);
    forall id | id in h.rows ensures RowOk(h, id) {
      if id == a {
        forall n | n in h.rows[a].edges && n != Index(i) ensures EdgeOk(h, a, n) {
          EdgeStays(g, h, a, n);
        }
        assert EdgeOk(h, a, Index(i));
      } else if id in g.rows {
        RowStays(g, h, id);
      }
    }
  }

  /** Statements that leave the edges alone. */
  lemma UpdateRow(g: Graph, x: Id, row: Row)
    requires WellFormed(g) && x in g.rows
    requires row == g.rows[x].(length := row.length, fragments := row.fragments) && (row.kind == ArrayKind ==> row.length <= row.cells)
    ensures var h := g.(rows := g.rows[x := row]); WellFormed(h) && ChangedBelow(g, h, x)
  {
    var h := g.(rows := g.rows[x := row]);
    assert Below(g, x, x);
    forall id | id in h.rows ensures RowOk(h, id) {
      RowStays(g, h, id);
    }
  }

  /** Changes below a member are changes of the member. */
  lemma BelowIsMember(g: Graph, h: Graph, p: Id, key: string)
    requires WellFormed(g) && p in g.rows && Key(key) in g.rows[p].edges
    requires ChangedBelow(g, h, g.rows[p].edges[Key(key)].child)
    ensures ChangedMember(g, h, p, Key(key))
  {
    var c := g.rows[p].edges[Key(key)].child;
    assert RowOk(g, p) && EdgeOk(g, p, Key(key)) && RowOk(g, c);
    if Below(g, c, p) {
      BelowIsLater(g, c, p);
      assert false;
    }
  }

  lemma ChildStays(g: Graph, h: Graph, p: Id, key: string)
    requires WellFormed(g) && p in g.rows && Key(key) in g.rows[p].edges
    requires ChangedBelow(g, h, g.rows[p].edges[Key(key)].child)
    ensures p in h.rows && h.rows[p] == g.rows[p]
  {
    BelowIsMember(g, h, p, key);
    var c := g.rows[p].edges[Key(key)].child;
    assert RowOk(g, p) && EdgeOk(g, p, Key(key)) && RowOk(g, c);
    if Below(g, c, p) {
      BelowIsLater(g, c, p);
      assert false;
    }
  }

  /** A new child, and then changes below it. */
  lemma AttachedThenBelow(g: Graph, g1: Graph, h: Graph, p: Id, key: string)
    requires WellFormed(g) && WellFormed(g1) && p in g.rows && ChangedMember(g, g1, p, Key(key))
    requires Key(key) in g1.rows[p].edges && g1.rows[p].edges[Key(key)].child == Id(g.next)
    requires ChangedBelow(g1, h, Id(g.next))
    ensures ChangedMember(g, h, p, Key(key))
  {
    forall x | x in g.rows ensures !Below(g1, Id(g.next), x) {
      if Below(g1, Id(g.next), x) {
        assert RowOk(g, x);
        BelowIsLater(g1, Id(g.next), x);
        assert false;
      }
    }
  }

  // ----- arrays -----

  function PutCell(cells: seq<seq<Raw>>, i: nat, raw: Raw): seq<seq<Raw>>
    requires i <= |cells|
  {
    if i < |cells| then cells[i := cells[i] + [raw]] else cells + [[raw]]
  }

  function OverlayFrom(cells: seq<seq<Raw>>, elements: seq<Raw>, from: nat): seq<seq<Raw>>
    requires from <= |cells|
    decreases |elements|
  {
    if elements == [] then cells else OverlayFrom(PutCell(cells, from, elements[0]), elements[1..], from + 1)
  }

  lemma OverlayAt(cells: seq<seq<Raw>>, elements: seq<Raw>, i: nat)
    requires i < |Overlay(cells, elements)|
    ensures Overlay(cells, elements)[i]
         == (if i < |cells| then cells[i] else []) + (if i < |elements| then [elements[i]] else [])
  {
  }

  lemma {:induction false} OverlayStepwise(cells: seq<seq<Raw>>, elements: seq<Raw>, from: nat)
    requires from <= |cells|
    ensures OverlayFrom(cells, elements, from) == cells[..from] + Overlay(cells[from..], elements)
    decreases |elements|
  {
    var whole := Overlay(cells[from..], elements);
    if elements == [] {
      forall i | 0 <= i < |whole| ensures whole[i] == cells[from..][i] {
        OverlayAt(cells[from..], elements, i);
      }
      assert whole == cells[from..];
    } else {
      var next := PutCell(cells, from, elements[0]);
      OverlayStepwise(next, elements[1..], from + 1);
      var rest := Overlay(next[from + 1..], elements[1..]);
      assert next[..from + 1] == cells[..from] + [next[from]];
      OverlayAt(cells[from..], elements, 0);
      assert whole[0] == next[from];
      forall i | 1 <= i < |whole| ensures whole[i] == rest[i - 1] {
        OverlayAt(cells[from..], elements, i);
        OverlayAt(next[from + 1..], elements[1..], i - 1);
      }
      assert whole == [next[from]] + rest;
    }
  }

  lemma PutOnCell(g: Graph, a: Id, i: nat, raw: Raw)
    requires WellFormed(g) && a in g.rows && g.rows[a].kind == ArrayKind && i < g.rows[a].cells
    ensures RowOk(g, a) && EdgeOk(g, a, Index(i))
    ensures var c := g.rows[a].edges[Index(i)].child;
            var h := PutText(g, c, raw);
            && WellFormed(h) && ChangedBelow(g, h, a) && h.rows[a] == g.rows[a]
            && CellsAt(h, a) == PutCell(CellsAt(g, a), i, raw)
  {
    assert RowOk(g, a) && EdgeOk(g, a, Index(i));
    var c := g.rows[a].edges[Index(i)].child;
    var h := PutText(g, c, raw);
    assert RowOk(g, c);
    UpdateRow(g, c, g.rows[c].(fragments := g.rows[c].fragments + [raw]));
    ChildIsBelow(g, a, Index(i));
    forall j: nat | j < g.rows[a].cells && j != i ensures g.rows[a].edges[Index(j)].child != c {
      assert EdgeOk(g, a, Index(j));
    }
    forall x | x in g.rows && !Below(g, a, x) ensures h.rows[x] == g.rows[x] {
    }
    assert CellsAt(h, a) == PutCell(CellsAt(g, a), i, raw);
  }

  lemma NoCellBehind(g: Graph, a: Id)
    requires WellFormed(g) && a in g.rows && g.rows[a].kind == ArrayKind
    ensures Index(g.rows[a].cells) !in g.rows[a].edges
  {
    hide ChildOf;
    assert RowOk(g, a);
    forall n | n in g.rows[a].edges ensures n.Index? && n.index < g.rows[a].cells {
      assert EdgeOk(g, a, n);
    }
  }

  lemma CellsExtended(g: Graph, a: Id)
    requires WellFormed(g) && a in g.rows && g.rows[a].kind == ArrayKind
    ensures var h := Attach(g, ValueKind, g.rows[a].scope, a, Index(g.rows[a].cells), g.rows[a].cells);
            WellFormed(h) && a in h.rows && h.rows[a].kind == ArrayKind && CellsAt(h, a) == CellsAt(g, a) + [[]]
  {
    hide Attach, ChildOf;
    var n := g.rows[a].cells;
    var h := Attach(g, ValueKind, g.rows[a].scope, a, Index(n), n);
    AttachCell(g, a);
    NoCellBehind(g, a);
    forall i: nat | i < n ensures CellsAt(h, a)[i] == CellsAt(g, a)[i] {
      CellRowOk(g, a, i);
    }
  }

  lemma CellRowOk(g: Graph, a: Id, i: nat)
    requires WellFormed(g) && a in g.rows && g.rows[a].kind == ArrayKind && i < g.rows[a].cells
    requires Index(i) in g.rows[a].edges
    ensures RowOk(g, a) && EdgeOk(g, a, Index(i)) && g.rows[a].edges[Index(i)].child in g.rows
    ensures g.rows[g.rows[a].edges[Index(i)].child].home == Home(a, Index(i))
    ensures RowOk(g, g.rows[a].edges[Index(i)].child)
  {
  }

  lemma PutBehind(cells: seq<seq<Raw>>, raw: Raw)
    ensures PutCell(cells + [[]], |cells|, raw) == PutCell(cells, |cells|, raw)
  {
    assert [] + [raw] == [raw];
  }

  lemma PutOnNewCell(g: Graph, a: Id, raw: Raw)
    requires WellFormed(g) && a in g.rows && g.rows[a].kind == ArrayKind
    ensures var h := Attach(g, ValueKind, g.rows[a].scope, a, Index(g.rows[a].cells), g.rows[a].cells);
            Id(g.next) in h.rows && WellFormed(h)
    ensures var h := PutText(Attach(g, ValueKind, g.rows[a].scope, a, Index(g.rows[a].cells), g.rows[a].cells), Id(g.next), raw);
            && WellFormed(h) && ChangedBelow(g, h, a) && a in h.rows && h.rows[a].length == g.rows[a].length
            && h.rows[a].kind == ArrayKind && h.rows[a].scope == g.rows[a].scope && h.rows[a].cells == g.rows[a].cells + 1
            && CellsAt(h, a) == PutCell(CellsAt(g, a), g.rows[a].cells, raw)
  {
    var n := g.rows[a].cells;
    var g1 := Attach(g, ValueKind, g.rows[a].scope, a, Index(n), n);
    AttachCell(g, a);
    CellsExtended(g, a);
    hide Attach, ChildOf, RowOk, EdgeOk, CellsAt, WellFormed, Below, ChangedBelow, PutText, PutCell;
    PutOnCell(g1, a, n, raw);
    ChangedBelowTransitive(g, g1, PutText(g1, Id(g.next), raw), a);
    PutBehind(CellsAt(g, a), raw);
  }

  /** The state with the innermost container an array of which `length` elements were read. */
  ghost predicate InArray(s: State, a: Id, scope: Scope, length: nat, reuse: bool) {
    && WellFormed(s.g) && s.frames != [] && s.frames[|s.frames| - 1] == Frame(a, ArrayKind, scope, length, reuse)
    && a in s.g.rows && s.g.rows[a].kind == ArrayKind && s.g.rows[a].scope == scope
    && length <= s.g.rows[a].cells && (!reuse ==> length == s.g.rows[a].cells)
  }

  /** Reading elements of the array `a` has led from `s` to `t`. */
  ghost predicate ReadTo(s: State, t: State, a: Id, scope: Scope, length: nat, reuse: bool) {
    && t.root == s.root && |t.frames| == |s.frames| > 0 && t.frames[..|s.frames| - 1] == s.frames[..|s.frames| - 1]
    && InArray(t, a, scope, length, reuse)
    && ChangedBelow(s.g, t.g, a) && a in s.g.rows && t.g.rows[a].length == s.g.rows[a].length
  }

  lemma ReadMore(s: State, t: State, u: State, a: Id, scope: Scope, m: nat, n: nat, reuse: bool)
    requires WellFormed(s.g) && ReadTo(s, t, a, scope, m, reuse) && ReadTo(t, u, a, scope, n, reuse)
    ensures ReadTo(s, u, a, scope, n, reuse)
  {
    hide ChangedBelow, Below;
    ChangedBelowTransitive(s.g, t.g, u.g, a);
  }

  lemma ApplyToCell(s: State, item: Item, c: Id)
    requires item.Text? && |s.frames| == |item.path| <= MAX_DEPTH && s.frames != [] && item.raw.text != ""
    requires var f := s.frames[|s.frames| - 1];
             && f.kind == ArrayKind && f.id in s.g.rows && item.path[|item.path| - 1] == Index(f.length) && f.reuse
             && Existing(s.g, f.id, Index(f.length), ValueKind, item.scope) == Some(c) && c in s.g.rows
    ensures var f := s.frames[|s.frames| - 1];
            Apply(s, item) == Some(State(s.root, PutText(s.g, c, item.raw), s.frames[|s.frames| - 1 := f.(length := f.length + 1)]))
  {
    hide Existing, PutText, Attach;
  }

  lemma ApplyNewCell(s: State, item: Item)
    requires item.Text? && |s.frames| == |item.path| <= MAX_DEPTH && s.frames != [] && item.raw.text != ""
    requires var f := s.frames[|s.frames| - 1];
             && f.kind == ArrayKind && f.id in s.g.rows && item.path[|item.path| - 1] == Index(f.length)
             && (f.reuse ==> Existing(s.g, f.id, Index(f.length), ValueKind, item.scope) == None)
    ensures var f := s.frames[|s.frames| - 1];
            var h := Attach(s.g, ValueKind, item.scope, f.id, Index(f.length), f.length);
            Id(s.g.next) in h.rows ==>
              Apply(s, item) == Some(State(s.root, PutText(h, Id(s.g.next), item.raw), s.frames[|s.frames| - 1 := f.(length := f.length + 1)]))
  {
    hide Existing, PutText, Attach;
  }

  lemma ReadOne(s: State, h: Graph, a: Id, scope: Scope, length: nat, reuse: bool)
    requires InArray(s, a, scope, length, reuse) && WellFormed(h) && ChangedBelow(s.g, h, a)
    requires h.rows[a].length == s.g.rows[a].length
    requires length + 1 <= h.rows[a].cells && (!reuse ==> h.rows[a].cells == s.g.rows[a].cells + 1)
    ensures var top := |s.frames| - 1;
            ReadTo(s, State(s.root, h, s.frames[top := s.frames[top].(length := length + 1)]), a, scope, length + 1, reuse)
  {
    hide WellFormed;
  }

  lemma TextOnOldCell(s: State, path: seq<Name>, a: Id, scope: Scope, from: nat, raw: Raw)
    requires InArray(s, a, scope, from, true) && |s.frames| == |path| + 1 <= MAX_DEPTH && raw.text != ""
    requires from < s.g.rows[a].cells
    ensures var r := Apply(s, Text(path + [Index(from)], scope, raw));
            && r.Some? && ReadTo(s, r.value, a, scope, from + 1, true)
            && CellsAt(r.value.g, a) == PutCell(CellsAt(s.g, a), from, raw)
  {
    PutOnCell(s.g, a, from, raw);
    hide ChildOf, Attach, RowOk, ChangedBelow, CellsAt, Apply, PutCell, WellFormed, PutText, ReadTo;
    var c := s.g.rows[a].edges[Index(from)].child;
    ReadOne(s, PutText(s.g, c, raw), a, scope, from, true);
    ApplyToCell(s, Text(path + [Index(from)], scope, raw), c);
  }

  lemma TextOnNewCell(s: State, path: seq<Name>, a: Id, scope: Scope, from: nat, reuse: bool, raw: Raw)
    requires InArray(s, a, scope, from, reuse) && |s.frames| == |path| + 1 <= MAX_DEPTH && raw.text != ""
    requires from == s.g.rows[a].cells
    ensures var r := Apply(s, Text(path + [Index(from)], scope, raw));
            && r.Some? && ReadTo(s, r.value, a, scope, from + 1, reuse)
            && CellsAt(r.value.g, a) == PutCell(CellsAt(s.g, a), from, raw)
  {
    NoCellBehind(s.g, a);
    PutOnNewCell(s.g, a, raw);
    hide ChildOf, Attach, RowOk, ChangedBelow, CellsAt, Apply, PutCell, WellFormed, PutText, ReadTo;
    ReadOne(s, PutText(Attach(s.g, ValueKind, scope, a, Index(from), from), Id(s.g.next), raw), a, scope, from, reuse);
    ApplyNewCell(s, Text(path + [Index(from)], scope, raw));
  }

  lemma TextStep(s: State, path: seq<Name>, a: Id, scope: Scope, from: nat, reuse: bool, raw: Raw)
    requires InArray(s, a, scope, from, reuse) && |s.frames| == |path| + 1 <= MAX_DEPTH && raw.text != ""
    ensures var r := Apply(s, Text(path + [Index(from)], scope, raw));
            && r.Some? && ReadTo(s, r.value, a, scope, from + 1, reuse)
            && CellsAt(r.value.g, a) == PutCell(CellsAt(s.g, a), from, raw)
  {
    hide Apply, ReadTo, CellsAt, PutCell, WellFormed;
    if reuse && from < s.g.rows[a].cells {
      TextOnOldCell(s, path, a, scope, from, raw);
    } else {
      TextOnNewCell(s, path, a, scope, from, reuse, raw);
    }
  }

  lemma {:induction false} TextsRun(s: State, path: seq<Name>, a: Id, scope: Scope, elements: seq<Raw>, from: nat, reuse: bool)
    requires InArray(s, a, scope, from, reuse) && |s.frames| == |path| + 1 <= MAX_DEPTH
    requires forall i | 0 <= i < |elements| :: elements[i].text != ""
    ensures var r := ApplyAll(s, Texts(path, scope, elements, from));
            && r.Some? && ReadTo(s, r.value, a, scope, from + |elements|, reuse)
            && CellsAt(r.value.g, a) == OverlayFrom(CellsAt(s.g, a), elements, from)
    decreases |elements|
  {
    hide Apply, PutCell, ChangedBelow, CellsAt, WellFormed;
    if elements != [] {
      TextStep(s, path, a, scope, from, reuse, elements[0]);
      var t := Apply(s, Text(path + [Index(from)], scope, elements[0])).value;
      TextsRun(t, path, a, scope, elements[1..], from + 1, reuse);
      TextsFirst(s, path, scope, elements, from);
      ReadMore(s, t, ApplyAll(s, Texts(path, scope, elements, from)).value, a, scope, from + 1, from + |elements|, reuse);
    } else {
      NothingChanged(s.g, a);
    }
  }

  lemma TextsFirst(s: State, path: seq<Name>, scope: Scope, elements: seq<Raw>, from: nat)
    requires elements != []
    ensures ApplyAll(s, Texts(path, scope, elements, from)) == match Apply(s, Text(path + [Index(from)], scope, elements[0]))
                                                                 case None => None
                                                                 case Some(t) => ApplyAll(t, Texts(path, scope, elements[1..], from + 1))
  {
    hide Apply;
    var items := Texts(path, scope, elements, from);
    assert items[0] == Text(path + [Index(from)], scope, elements[0]) && items[1..] == Texts(path, scope, elements[1..], from + 1);
  }

  lemma NothingChanged(g: Graph, a: Id)
    ensures ChangedBelow(g, g, a)
  {
  }

  // ----- members -----

  /** The innermost open container is the object `p`. */
  ghost predicate InObject(s: State, p: Id, scope: Scope) {
    && WellFormed(s.g) && s.frames != []
    && s.frames[|s.frames| - 1].id == p && s.frames[|s.frames| - 1].kind == ObjectKind && s.frames[|s.frames| - 1].scope == scope
    && p in s.g.rows && s.g.rows[p].kind == ObjectKind && s.g.rows[p].scope == scope
  }

  /** Handling a member has led from `s` to `t`, and given the member the value `v`. */
  ghost predicate MemberDone(s: State, t: State, p: Id, key: string, v: Value)
    requires p in s.g.rows
  {
    && t.root == s.root && t.frames == s.frames && WellFormed(t.g) && ChangedMember(s.g, t.g, p, Key(key))
    && FieldAt(t.g, p, key) == v
  }

  ghost function Previous(s: State, p: Id, scope: Scope, key: string): Value
    requires WellFormed(s.g) && p in s.g.rows
  {
    if IsMap(scope) then Absent else FieldAt(s.g, p, key)
  }

  /** How deep the containers below a member go. */
  function Height(child: Child): nat {
    match child.shape
    case ValueShape => 0
    case ArrayShape => 1
    case ObjectShape =>
      match child.scope
      case Snapshot => 7
      case Usage => 6
      case Apis => 5
      case Api => 4
      case Models => 3
      case Model => 2
      case MapTokens => 2
      case _ => 1
  }

  lemma ChildHeight(scope: Scope, key: string)
    requires ChildOf(scope, key).Some?
    ensures Height(ChildOf(scope, key).value) < Height(Child(ObjectShape, scope))
    ensures var c := ChildOf(scope, key).value;
            && (c.shape == ArrayShape ==> (scope == Model || scope == MapTokens) && !IsStruct(c.scope) && !IsMap(c.scope) && c.scope != Usage)
            && (c.shape == ObjectShape ==> IsStruct(c.scope) || IsMap(c.scope))
            && (c.shape == ValueShape ==> c.scope != Usage && (IsStruct(scope) || scope == MapCount || scope == MapCost))
            && (c.scope == Usage ==> scope == Snapshot) && c.scope != Snapshot
            && (c.shape == ObjectShape && IsMap(c.scope) ==> IsStruct(scope))
            && (c.shape == ObjectShape && IsStruct(c.scope) && c.scope != Usage ==> IsMap(scope))
  {
  }

  lemma NothingDone(s: State, p: Id, scope: Scope, key: string)
    requires InObject(s, p, scope)
    ensures MemberDone(s, s, p, key, FieldAt(s.g, p, key))
  {
  }

  /** What a fresh child of a member stands for. */
  lemma FreshValue(g: Graph, p: Id, key: string, kind: Kind, scope: Scope)
    requires WellFormed(g) && p in g.rows && Key(key) in g.rows[p].edges && g.rows[p].edges[Key(key)].child in g.rows
    requires g.rows[g.rows[p].edges[Key(key)].child] == Row(kind, scope, 0, map[], [], Home(p, Key(key)), 0)
    ensures FieldAt(g, p, key) == match kind
                                    case ValueKind => Atom([])
                                    case NullKind => if IsStruct(scope) then Struct(map[]) else Nil
                                    case ArrayKind => Slice([], 0)
                                    case ObjectKind => if IsStruct(scope) then Struct(map[]) else Map(map[])
  {
    hide ChildOf;
    var c := g.rows[p].edges[Key(key)].child;
    FieldIsValue(g, p, key);
    assert RowOk(g, c);
    if kind == ArrayKind {
      assert CellsAt(g, c) == [];
    }
    if kind == ObjectKind {
      assert FieldsAt(g, c) == map[];
    }
  }

  lemma FieldIsValue(g: Graph, p: Id, key: string)
    requires WellFormed(g) && p in g.rows && Key(key) in g.rows[p].edges
    ensures RowOk(g, p) && EdgeOk(g, p, Key(key)) && g.rows[p].edges[Key(key)].child in g.rows
    ensures FieldAt(g, p, key) == ValueAt(g, g.rows[p].edges[Key(key)].child)
  {
    hide ChildOf;
    assert RowOk(g, p) && EdgeOk(g, p, Key(key));
    assert ChildValue(g, p, Key(key)) == ValueAt(g, g.rows[p].edges[Key(key)].child);
  }

  lemma TextValue(g: Graph, p: Id, key: string, c: Id)
    requires WellFormed(g) && p in g.rows && Key(key) in g.rows[p].edges && g.rows[p].edges[Key(key)].child == c
    requires c in g.rows && g.rows[c].kind == ValueKind
    ensures FieldAt(g, p, key) == Atom(g.rows[c].fragments)
  {
    FieldIsValue(g, p, key);
  }

  lemma ApplyNull(s: State, path: seq<Name>, p: Id, scope: Scope, key: string, child: Child)
    requires InObject(s, p, scope) && |s.frames| == |path| + 1 <= MAX_DEPTH && child.scope != Usage
    ensures Apply(s, NullItem(path + [Key(key)], child.scope))
         == Some(State(s.root, Attach(s.g, NullKind, child.scope, p, Key(key), -1), s.frames))
  {
    hide Attach, Existing, WellFormed;
    assert (path + [Key(key)])[|path|] == Key(key);
  }

  lemma SimulateNull(s: State, path: seq<Name>, p: Id, scope: Scope, key: string, child: Child)
    requires InObject(s, p, scope) && |s.frames| == |path| + 1 <= MAX_DEPTH && ChildOf(scope, key) == Some(child)
    requires child.shape != ValueShape
    ensures var r := ApplyAll(s, Events(path + [Key(key)], child, Null));
            r.Some? && MemberDone(s, r.value, p, key, Decode(scope, child, Previous(s, p, scope, key), Null))
  {
    ChildHeight(scope, key);
    hide ChildOf, Attach, ChangedMember, WellFormed, FieldAt, Apply;
    var item := NullItem(path + [Key(key)], child.scope);
    assert Events(path + [Key(key)], child, Null) == [item];
    ApplyOne(s, item);
    if child.scope == Usage {
      ApplyNullUsage(s, path, p, scope, key);
      NothingDone(s, p, scope, key);
    } else {
      ApplyNull(s, path, p, scope, key, child);
      NullRow(s, p, scope, key, child);
    }
  }

  lemma NullRow(s: State, p: Id, scope: Scope, key: string, child: Child)
    requires InObject(s, p, scope) && ChildOf(scope, key) == Some(child) && child.shape != ValueShape && child.scope != Usage
    ensures var h := Attach(s.g, NullKind, child.scope, p, Key(key), -1);
            WellFormed(h) && ChangedMember(s.g, h, p, Key(key)) && FieldAt(h, p, key) == Decode(scope, child, Previous(s, p, scope, key), Null)
  {
    ChildHeight(scope, key);
    hide ChildOf, Attach, ChangedMember, WellFormed, FieldAt;
    AttachMember(s.g, NullKind, child.scope, p, key);
    FreshValue(Attach(s.g, NullKind, child.scope, p, Key(key), -1), p, key, NullKind, child.scope);
  }

  lemma ApplyNullUsage(s: State, path: seq<Name>, p: Id, scope: Scope, key: string)
    requires InObject(s, p, scope) && |s.frames| == |path| + 1 <= MAX_DEPTH
    ensures Apply(s, NullItem(path + [Key(key)], Usage)) == Some(s)
  {
    hide Attach, Existing, WellFormed;
    assert (path + [Key(key)])[|path|] == Key(key);
  }

  lemma ApplyOne(s: State, item: Item)
    ensures ApplyAll(s, [item]) == Apply(s, item)
  {
    hide Apply;
    if Apply(s, item).Some? {
      assert ApplyAll(Apply(s, item).value, [item][1..]) == Apply(s, item);
    }
  }

  lemma ApplyText(s: State, path: seq<Name>, p: Id, scope: Scope, key: string, child: Child, raw: Raw)
    requires InObject(s, p, scope) && |s.frames| == |path| + 1 <= MAX_DEPTH && raw.text != ""
    ensures var item := Text(path + [Key(key)], child.scope, raw);
            var h := Attach(s.g, ValueKind, child.scope, p, Key(key), -1);
            if IsStruct(scope) && raw.IsNull() then Apply(s, item) == Some(s)
            else Id(s.g.next) in h.rows ==> Apply(s, item) == Some(State(s.root, PutText(h, Id(s.g.next), raw), s.frames))
  {
    hide Attach, Existing, WellFormed, PutText, Raw.IsNull;
    assert (path + [Key(key)])[|path|] == Key(key);
  }

  lemma DecodeText(scope: Scope, child: Child, previous: Value, raw: Raw)
    requires child.shape == ValueShape
    ensures Decode(scope, child, previous, Scalar(raw)) == if IsStruct(scope) && raw.IsNull() then previous else Atom([raw])
  {
  }

  lemma SimulateText(s: State, path: seq<Name>, p: Id, scope: Scope, key: string, child: Child, raw: Raw)
    requires InObject(s, p, scope) && |s.frames| == |path| + 1 <= MAX_DEPTH && ChildOf(scope, key) == Some(child)
    requires child.shape == ValueShape && raw.text != ""
    ensures var r := ApplyAll(s, Events(path + [Key(key)], child, Scalar(raw)));
            r.Some? && MemberDone(s, r.value, p, key, Decode(scope, child, Previous(s, p, scope, key), Scalar(raw)))
  {
    hide ChildOf, WellFormed, FieldAt, RowOk;
    ChildHeight(scope, key);
    DecodeText(scope, child, Previous(s, p, scope, key), raw);
    var item := Text(path + [Key(key)], child.scope, raw);
    assert Events(path + [Key(key)], child, Scalar(raw)) == [item];
    hide Attach, ChangedMember, Apply, ApplyAll, Raw.IsNull, PutText, Decode, Events;
    ApplyOne(s, item);
    ApplyText(s, path, p, scope, key, child, raw);
    if IsStruct(scope) && raw.IsNull() {
      NothingDone(s, p, scope, key);
    } else {
      AttachMember(s.g, ValueKind, child.scope, p, key);
      PutFirstText(s.g, p, key, child.scope, raw);
    }
  }

  lemma PutFirstText(g: Graph, p: Id, key: string, scope: Scope, raw: Raw)
    requires WellFormed(g) && p in g.rows
    requires var h := Attach(g, ValueKind, scope, p, Key(key), -1);
             && WellFormed(h) && ChangedMember(g, h, p, Key(key))
             && Id(g.next) in h.rows && Key(key) in h.rows[p].edges && h.rows[p].edges[Key(key)].child == Id(g.next)
             && h.rows[Id(g.next)] == Row(ValueKind, scope, 0, map[], [], Home(p, Key(key)), 0)
    ensures var k := PutText(Attach(g, ValueKind, scope, p, Key(key), -1), Id(g.next), raw);
            WellFormed(k) && ChangedMember(g, k, p, Key(key)) && FieldAt(k, p, key) == Atom([raw])
  {
    var h := Attach(g, ValueKind, scope, p, Key(key), -1);
    hide Attach, ChildOf, ChangedMember, FieldAt, RowOk;
    var c := Id(g.next);
    UpdateRow(h, c, h.rows[c].(fragments := h.rows[c].fragments + [raw]));
    AttachedThenBelow(g, h, PutText(h, c, raw), p, key);
    ChildStays(h, PutText(h, c, raw), p, key);
    TextValue(PutText(h, c, raw), p, key, c);
    assert [] + [raw] == [raw];
  }

  // ----- opening a member -----

  /** The node that a repeated member continues, if it does. */
  ghost function Continued(s: State, p: Id, scope: Scope, key: string, kind: Kind, cscope: Scope): Option<Id> {
    if (kind == ObjectKind && (cscope == Usage || IsMap(cscope))) || (kind == ArrayKind && scope == Model)
    then Existing(s.g, p, Key(key), kind, cscope) else None
  }

  ghost function Opened(s: State, p: Id, scope: Scope, key: string, kind: Kind, cscope: Scope): State
    requires p in s.g.rows
  {
    var prior := Continued(s, p, scope, key, kind, cscope);
    if prior.Some? then s.(frames := s.frames + [Frame(prior.value, kind, cscope, 0, true)])
    else State(s.root, Attach(s.g, kind, cscope, p, Key(key), -1), s.frames + [Frame(Id(s.g.next), kind, cscope, 0, false)])
  }

  lemma ApplyBegin(s: State, path: seq<Name>, p: Id, scope: Scope, key: string, shape: Shape, cscope: Scope)
    requires InObject(s, p, scope) && |s.frames| == |path| + 1 <= MAX_DEPTH && shape != ValueShape
    ensures var kind := if shape == ArrayShape then ArrayKind else ObjectKind;
            Apply(s, Begin(path + [Key(key)], shape, cscope)) == Some(Opened(s, p, scope, key, kind, cscope))
  {
    hide Attach, Existing, WellFormed;
    assert (path + [Key(key)])[|path|] == Key(key);
  }

  /** A member that is an array or an object, opened: its node is new, or the tables are as they were. */
  ghost predicate MemberOpen(s: State, t: State, p: Id, key: string, kind: Kind, cscope: Scope, c: Id)
    requires p in s.g.rows
  {
    && t.root == s.root && WellFormed(t.g) && ChangedMember(s.g, t.g, p, Key(key))
    && |t.frames| == |s.frames| + 1 && t.frames[..|s.frames|] == s.frames
    && t.frames[|s.frames|].id == c && t.frames[|s.frames|].kind == kind && t.frames[|s.frames|].scope == cscope
    && t.frames[|s.frames|].length == 0
    && Key(key) in t.g.rows[p].edges && t.g.rows[p].edges[Key(key)].child == c
    && c in t.g.rows && t.g.rows[c].kind == kind && t.g.rows[c].scope == cscope
    && (if t.frames[|s.frames|].reuse then t.g == s.g else c == Id(s.g.next) && t.g.rows[c].cells == 0)
  }

  lemma OpenContinued(s: State, p: Id, scope: Scope, key: string, kind: Kind, cscope: Scope, c: Id)
    requires InObject(s, p, scope) && Continued(s, p, scope, key, kind, cscope) == Some(c)
    ensures MemberOpen(s, Opened(s, p, scope, key, kind, cscope), p, key, kind, cscope, c)
  {
    hide WellFormed, FieldAt;
    NothingDone(s, p, scope, key);
  }

  lemma OpenFresh(s: State, p: Id, scope: Scope, key: string, kind: Kind, child: Child)
    requires InObject(s, p, scope) && Continued(s, p, scope, key, kind, child.scope) == None
    requires ChildOf(scope, key) == Some(child) && kind == (if child.shape == ArrayShape then ArrayKind else ObjectKind)
    requires child.shape != ValueShape
    ensures var t := Opened(s, p, scope, key, kind, child.scope);
            && MemberOpen(s, t, p, key, kind, child.scope, Id(s.g.next))
            && t.g.rows[Id(s.g.next)] == Row(kind, child.scope, 0, map[], [], Home(p, Key(key)), 0)
            && !t.frames[|s.frames|].reuse
  {
    hide ChildOf, Attach, WellFormed, FieldAt, RowOk, Continued;
    ChildHeight(scope, key);
    AttachMember(s.g, kind, child.scope, p, key);
  }

  /** What the old value of a member was, as far as decoding looks at it. */
  lemma ExistingMember(g: Graph, p: Id, scope: Scope, key: string, child: Child)
    requires WellFormed(g) && p in g.rows && g.rows[p].kind == ObjectKind && g.rows[p].scope == scope
    requires ChildOf(scope, key) == Some(child)
    ensures child.shape == ArrayShape ==>
      match Existing(g, p, Key(key), ArrayKind, child.scope)
      case Some(c) => g.rows[c].kind == ArrayKind && FieldAt(g, p, key) == Slice(CellsAt(g, c), g.rows[c].length)
      case None => !FieldAt(g, p, key).Slice?
    ensures child.shape == ObjectShape ==>
      match Existing(g, p, Key(key), ObjectKind, child.scope)
      case Some(c) => FieldAt(g, p, key) == if IsStruct(child.scope) then Struct(FieldsAt(g, c)) else Map(FieldsAt(g, c))
      case None => !FieldAt(g, p, key).Map? && (child.scope == Usage ==> FieldAt(g, p, key) == Absent)
  {
    hide ChildOf;
    if Key(key) in g.rows[p].edges {
      FieldIsValue(g, p, key);
    }
  }

  // ----- array members -----

  lemma CloseArray(s: State, path: seq<Name>, scope: Scope)
    requires s.frames != [] && |s.frames| == |path| + 1 <= MAX_DEPTH
    requires var f := s.frames[|path|]; f.kind == ArrayKind && f.scope == scope && f.id in s.g.rows && (f.length > 0 || !f.reuse)
    ensures var f := s.frames[|path|];
            Apply(s, Close(path, scope)) == Some(State(s.root, SetLength(s.g, f.id, f.length), s.frames[..|path|]))
  {
    hide SetLength;
  }

  lemma CloseEmpty(s: State, path: seq<Name>, key: string, p: Id, scope: Scope)
    requires |s.frames| == |path| + 2 <= MAX_DEPTH && s.frames[|path|].id == p && p in s.g.rows
    requires var f := s.frames[|path| + 1];
             f.kind == ArrayKind && f.scope == scope && f.id in s.g.rows && f.length == 0 && f.reuse
    ensures Apply(s, Close(path + [Key(key)], scope))
         == Some(State(s.root, Attach(s.g, ArrayKind, scope, p, Key(key), -1), s.frames[..|path| + 1]))
  {
    hide Attach;
    assert (path + [Key(key)])[|path|] == Key(key);
  }

  lemma ArrayValue(g: Graph, p: Id, key: string, c: Id)
    requires WellFormed(g) && p in g.rows && Key(key) in g.rows[p].edges && g.rows[p].edges[Key(key)].child == c
    requires c in g.rows && g.rows[c].kind == ArrayKind
    ensures FieldAt(g, p, key) == Slice(CellsAt(g, c), g.rows[c].length)
  {
    FieldIsValue(g, p, key);
  }

  /** The array is closed at its new length. */
  lemma CloseAtLength(s: State, g1: Graph, h: Graph, p: Id, key: string, c: Id, n: nat, isNew: bool)
    requires WellFormed(s.g) && p in s.g.rows && WellFormed(g1) && WellFormed(h) && ChangedMember(s.g, g1, p, Key(key))
    requires Key(key) in g1.rows[p].edges && g1.rows[p].edges[Key(key)].child == c
    requires if isNew then c == Id(s.g.next) else g1 == s.g
    requires c in g1.rows && ChangedBelow(g1, h, c) && h.rows[c].kind == ArrayKind && n <= h.rows[c].cells
    ensures var k := SetLength(h, c, n);
            && WellFormed(k) && ChangedMember(s.g, k, p, Key(key)) && FieldAt(k, p, key) == Slice(CellsAt(h, c), n)
  {
    hide ChildOf, FieldAt, RowOk;
    var k := SetLength(h, c, n);
    UpdateRow(h, c, h.rows[c].(length := n));
    ChangedBelowTransitive(g1, h, k, c);
    ChildStays(g1, k, p, key);
    if isNew {
      AttachedThenBelow(s.g, g1, k, p, key);
    } else {
      BelowIsMember(g1, k, p, key);
    }
    ArrayValue(k, p, key, c);
    SameCells(h, c, n);
  }

  lemma SameCells(h: Graph, c: Id, n: nat)
    requires WellFormed(h) && c in h.rows && h.rows[c].kind == ArrayKind && WellFormed(SetLength(h, c, n))
    ensures CellsAt(SetLength(h, c, n), c) == CellsAt(h, c)
  {
    hide ChildOf;
    assert RowOk(h, c);
    forall i: nat | i < h.rows[c].cells ensures CellsAt(SetLength(h, c, n), c)[i] == CellsAt(h, c)[i] {
      assert EdgeOk(h, c, Index(i));
    }
  }

  ghost predicate ArrayOpen(s: State, t: State, p: Id, key: string, scope: Scope, a: Id, reuse: bool, cells: seq<seq<Raw>>)
    requires p in s.g.rows
  {
    && MemberOpen(s, t, p, key, ArrayKind, scope, a) && InArray(t, a, scope, 0, reuse) && t.frames[|s.frames|].reuse == reuse
    && CellsAt(t.g, a) == cells
  }

  function CellsOf(v: Value): seq<seq<Raw>> {
    if v.Slice? then v.cells else []
  }

  lemma OpenArray(s: State, p: Id, scope: Scope, key: string, child: Child) returns (a: Id, reuse: bool)
    requires InObject(s, p, scope) && ChildOf(scope, key) == Some(child) && child.shape == ArrayShape
    ensures ArrayOpen(s, Opened(s, p, scope, key, ArrayKind, child.scope), p, key, child.scope, a, reuse,
                      CellsOf(Previous(s, p, scope, key)))
  {
    hide ChildOf, Attach, ChangedMember, FieldAt, RowOk, Existing;
    ChildHeight(scope, key);
    ExistingMember(s.g, p, scope, key, child);
    var prior := Continued(s, p, scope, key, ArrayKind, child.scope);
    if prior.Some? {
      a, reuse := prior.value, true;
      OpenContinued(s, p, scope, key, ArrayKind, child.scope, a);
    } else {
      a, reuse := Id(s.g.next), false;
      OpenFresh(s, p, scope, key, ArrayKind, child);
      assert CellsAt(Opened(s, p, scope, key, ArrayKind, child.scope).g, a) == [];
    }
  }

  /** Events between an opening and a closing one. */
  lemma Bracketed(s: State, t: State, u: State, open: Item, items: seq<Item>, close: Item)
    requires Apply(s, open) == Some(t) && ApplyAll(t, items) == Some(u)
    ensures ApplyAll(s, [open] + items + [close]) == Apply(u, close)
  {
    hide Apply;
    ApplyConcat(s, [open] + items, [close]);
    ApplyConcat(s, [open], items);
    ApplyOne(s, open);
    ApplyOne(u, close);
  }

  lemma EmptiedArray(s: State, t: State, path: seq<Name>, p: Id, scope: Scope, key: string, child: Child, a: Id)
    requires InObject(s, p, scope) && |s.frames| == |path| + 1 && |path| + 2 <= MAX_DEPTH && ChildOf(scope, key) == Some(child)
    requires child.shape == ArrayShape
    requires MemberOpen(s, t, p, key, ArrayKind, child.scope, a) && t.frames[|s.frames|].reuse
    ensures var r := Apply(t, Close(path + [Key(key)], child.scope));
            r.Some? && MemberDone(s, r.value, p, key, Slice([], 0))
  {
    hide ChildOf, Attach, ChangedMember, FieldAt, RowOk, Apply, WellFormed;
    ChildHeight(scope, key);
    CloseEmpty(t, path, key, p, child.scope);
    AttachMember(s.g, ArrayKind, child.scope, p, key);
    FreshArray(s.g, p, key, child.scope);
    assert t.frames[..|path| + 1] == s.frames;
  }

  lemma FreshArray(g: Graph, p: Id, key: string, scope: Scope)
    requires WellFormed(g) && p in g.rows
    requires var h := Attach(g, ArrayKind, scope, p, Key(key), -1);
             && WellFormed(h) && ChangedMember(g, h, p, Key(key))
             && Id(g.next) in h.rows && Key(key) in h.rows[p].edges && h.rows[p].edges[Key(key)].child == Id(g.next)
             && h.rows[Id(g.next)] == Row(ArrayKind, scope, 0, map[], [], Home(p, Key(key)), 0)
    ensures FieldAt(Attach(g, ArrayKind, scope, p, Key(key), -1), p, key) == Slice([], 0)
  {
    hide Attach;
    FreshValue(Attach(g, ArrayKind, scope, p, Key(key), -1), p, key, ArrayKind, scope);
  }

  lemma ClosedArray(s: State, t: State, u: State, path: seq<Name>, p: Id, scope: Scope, key: string, a: Id, n: nat, reuse: bool,
                    cells: seq<seq<Raw>>)
    requires WellFormed(s.g) && p in s.g.rows && |s.frames| == |path| + 1 && |path| + 2 <= MAX_DEPTH
    requires MemberOpen(s, t, p, key, ArrayKind, scope, a) && t.frames[|s.frames|].reuse == reuse
    requires ReadTo(t, u, a, scope, n, reuse) && CellsAt(u.g, a) == cells && (n > 0 || !reuse)
    ensures var r := Apply(u, Close(path + [Key(key)], scope));
            r.Some? && MemberDone(s, r.value, p, key, Slice(cells, n))
  {
    hide ChildOf, ChangedMember, FieldAt, RowOk, Apply, CellsAt, WellFormed, SetLength, ChangedBelow;
    CloseArray(u, path + [Key(key)], scope);
    CloseAtLength(s, t.g, u.g, p, key, a, n, !reuse);
    assert u.frames[..|s.frames|] == s.frames;
  }

  lemma DecodeArray(scope: Scope, child: Child, previous: Value, elements: seq<Raw>)
    requires child.shape == ArrayShape
    ensures Decode(scope, child, previous, Array(elements))
         == if elements == [] then Slice([], 0) else Slice(Overlay(CellsOf(previous), elements), |elements|)
  {
  }

  lemma SimulateArray(s: State, path: seq<Name>, p: Id, scope: Scope, key: string, child: Child, elements: seq<Raw>)
    requires InObject(s, p, scope) && |s.frames| == |path| + 1 && |path| + 2 <= MAX_DEPTH && ChildOf(scope, key) == Some(child)
    requires child.shape == ArrayShape && forall i | 0 <= i < |elements| :: elements[i].text != ""
    ensures var r := ApplyAll(s, Events(path + [Key(key)], child, Array(elements)));
            r.Some? && MemberDone(s, r.value, p, key, Decode(scope, child, Previous(s, p, scope, key), Array(elements)))
  {
    DecodeArray(scope, child, Previous(s, p, scope, key), elements);
    var at := path + [Key(key)];
    var texts, close := Texts(at, child.scope, elements, 0), Close(at, child.scope);
    assert Events(at, child, Array(elements)) == [Begin(at, ArrayShape, child.scope)] + texts + [close];
    hide ChildOf, Attach, ChangedMember, FieldAt, RowOk, Apply, ApplyAll, Opened, SetLength, CellsAt, Overlay, Decode, Events, Texts,
         Previous, WellFormed;
    var a, reuse := OpenArray(s, p, scope, key, child);
    var t := Opened(s, p, scope, key, ArrayKind, child.scope);
    ApplyBegin(s, path, p, scope, key, ArrayShape, child.scope);
    TextsRun(t, at, a, child.scope, elements, 0, reuse);
    var cells := CellsAt(t.g, a);
    OverlayStepwise(cells, elements, 0);
    var u := ApplyAll(t, texts).value;
    Bracketed(s, t, u, Begin(at, ArrayShape, child.scope), texts, close);
    if elements == [] {
      NoElements(t, at, child.scope, cells);
      if reuse {
        EmptiedArray(s, t, path, p, scope, key, child, a);
      } else {
        NoCells(t.g, a);
        ClosedArray(s, t, u, path, p, child.scope, key, a, 0, reuse, []);
      }
    } else {
      ClosedArray(s, t, u, path, p, child.scope, key, a, |elements|, reuse, Overlay(cells, elements));
    }
  }

  lemma NoElements(t: State, path: seq<Name>, scope: Scope, cells: seq<seq<Raw>>)
    ensures ApplyAll(t, Texts(path, scope, [], 0)) == Some(t)
    ensures cells[..0] + Overlay(cells[0..], []) == cells
  {
    OverlayStepwise(cells, [], 0);
  }

  lemma NoCells(g: Graph, a: Id)
    requires WellFormed(g) && a in g.rows && g.rows[a].kind == ArrayKind && g.rows[a].cells == 0
    ensures CellsAt(g, a) == []
  {
  }

  // ----- object members -----

  ghost predicate ObjectOpen(s: State, t: State, p: Id, key: string, scope: Scope, c: Id, fields: map<string, Value>)
    requires p in s.g.rows
  {
    MemberOpen(s, t, p, key, ObjectKind, scope, c) && InObject(t, c, scope) && FieldsAt(t.g, c) == fields
  }

  /** The fields or entries that an object's members are decoded onto. */
  function FieldsOf(scope: Scope, v: Value): map<string, Value> {
    if IsStruct(scope) then (if v.Struct? then v.fields else map[]) else if v.Map? then v.entries else map[]
  }

  lemma NoFields(g: Graph, c: Id)
    requires WellFormed(g) && c in g.rows && g.rows[c].edges == map[]
    ensures FieldsAt(g, c) == map[]
  {
    FieldsAtKey(g, c);
  }

  lemma OpenObject(s: State, p: Id, scope: Scope, key: string, child: Child) returns (c: Id)
    requires InObject(s, p, scope) && ChildOf(scope, key) == Some(child) && child.shape == ObjectShape
    ensures ObjectOpen(s, Opened(s, p, scope, key, ObjectKind, child.scope), p, key, child.scope, c,
                       FieldsOf(child.scope, Previous(s, p, scope, key)))
  {
    hide ChildOf, Attach, ChangedMember, FieldAt, RowOk, Existing, FieldsAt;
    ChildHeight(scope, key);
    ExistingMember(s.g, p, scope, key, child);
    var t := Opened(s, p, scope, key, ObjectKind, child.scope);
    var prior := Continued(s, p, scope, key, ObjectKind, child.scope);
    if prior.Some? {
      c := prior.value;
      OpenContinued(s, p, scope, key, ObjectKind, child.scope, c);
    } else {
      c := Id(s.g.next);
      OpenFresh(s, p, scope, key, ObjectKind, child);
      NoFields(t.g, c);
    }
  }

  lemma CloseObject(s: State, path: seq<Name>, scope: Scope)
    requires s.frames != [] && |s.frames| == |path| + 1 && |path| <= MAX_DEPTH
    requires var f := s.frames[|path|]; f.kind == ObjectKind && f.scope == scope && f.id in s.g.rows
    ensures Apply(s, Close(path, scope)) == Some(s.(frames := s.frames[..|path|]))
  {
  }

  lemma ClosedObject(s: State, t: State, u: State, path: seq<Name>, p: Id, scope: Scope, key: string, c: Id,
                     fields: map<string, Value>)
    requires WellFormed(s.g) && p in s.g.rows && |s.frames| == |path| + 1 && |path| + 1 <= MAX_DEPTH
    requires MemberOpen(s, t, p, key, ObjectKind, scope, c)
    requires WellFormed(u.g) && u.root == t.root && u.frames == t.frames && ChangedBelow(t.g, u.g, c) && FieldsAt(u.g, c) == fields
    ensures var r := Apply(u, Close(path + [Key(key)], scope));
            r.Some? && MemberDone(s, r.value, p, key, if IsStruct(scope) then Struct(fields) else Map(fields))
  {
    hide ChildOf, RowOk, Apply, WellFormed, Below, FieldAt, FieldsAt;
    CloseObject(u, path + [Key(key)], scope);
    assert u.frames[..|s.frames|] == s.frames;
    ChildStays(t.g, u.g, p, key);
    if t.frames[|s.frames|].reuse {
      BelowIsMember(s.g, u.g, p, key);
    } else {
      AttachedThenBelow(s.g, t.g, u.g, p, key);
    }
    FieldIsValue(u.g, p, key);
  }

  /** Handling members of the object `c` has led from `s` to `t`, and given it these fields. */
  ghost predicate MembersDone(s: State, t: State, c: Id, fields: map<string, Value>) {
    && t.root == s.root && t.frames == s.frames && WellFormed(t.g) && ChangedBelow(s.g, t.g, c)
    && c in t.g.rows && FieldsAt(t.g, c) == fields
  }

  lemma MemberThenMembers(s: State, t: State, u: State, c: Id, key: string, v: Value, fields: map<string, Value>)
    requires WellFormed(s.g) && c in s.g.rows && MemberDone(s, t, c, key, v) && MembersDone(t, u, c, fields)
    ensures MembersDone(s, u, c, fields)
  {
    hide WellFormed, FieldsAt, FieldAt, ChangedMember, Below;
    MemberIsBelow(s.g, t.g, c, Key(key));
    ChangedBelowTransitive(s.g, t.g, u.g, c);
  }

  lemma MemberGives(s: State, t: State, c: Id, scope: Scope, key: string, v: Value)
    requires InObject(s, c, scope) && MemberDone(s, t, c, key, v)
    ensures InObject(t, c, scope) && FieldsAt(t.g, c) == WithField(FieldsAt(s.g, c), key, v)
  {
    hide WellFormed, FieldsAt, FieldAt;
    MemberFields(s.g, t.g, c, key);
  }

  lemma PreviousIsField(s: State, c: Id, scope: Scope, key: string)
    requires InObject(s, c, scope)
    ensures Previous(s, c, scope, key) == if IsMap(scope) then Absent else Field(FieldsAt(s.g, c), key)
  {
    hide WellFormed;
    FieldsAtKey(s.g, c);
  }

  lemma {:induction false} SimulateMembers(s: State, path: seq<Name>, c: Id, scope: Scope, ms: Members)
    requires InObject(s, c, scope) && |s.frames| == |path| + 1 && |path| + Height(Child(ObjectShape, scope)) <= MAX_DEPTH
    requires MembersFit(scope, ms)
    ensures var r := ApplyAll(s, MemberEvents(path, scope, ms));
            r.Some? && MembersDone(s, r.value, c, DecodeMembers(scope, FieldsAt(s.g, c), ms))
    decreases ms, 1
  {
    hide ChildOf, MemberName, Apply, FieldsAt, ChangedBelow, WellFormed, Decode, Height;
    match ms {
      case End =>
        NothingChanged(s.g, c);
      case Member(key, value, rest) =>
        var name := MemberName(scope, key);
        if ChildOf(scope, name) == None {
          assert MemberEvents(path, scope, ms) == MemberEvents(path, scope, rest);
          SimulateMembers(s, path, c, scope, rest);
        } else {
          SimulateFirst(s, path, c, scope, name, key, value, rest);
        }
    }
  }

  lemma {:induction false} SimulateFirst(s: State, path: seq<Name>, c: Id, scope: Scope, name: string, key: string,
                                         value: Document, rest: Members)
    requires InObject(s, c, scope) && |s.frames| == |path| + 1 && |path| + Height(Child(ObjectShape, scope)) <= MAX_DEPTH
    requires name == MemberName(scope, key) && ChildOf(scope, name).Some? && Fits(ChildOf(scope, name).value, value)
    requires MembersFit(scope, rest)
    ensures var ms := Member(key, value, rest);
            var r := ApplyAll(s, MemberEvents(path, scope, ms));
            r.Some? && MembersDone(s, r.value, c, DecodeMembers(scope, FieldsAt(s.g, c), ms))
    decreases Member(key, value, rest), 0
  {
    hide ChildOf, MemberName, Apply, FieldsAt, ChangedBelow, WellFormed, Decode, Height, MemberDone, MembersDone, Events;
    var child := ChildOf(scope, name).value;
    var v := Decode(scope, child, Previous(s, c, scope, name), value);
    SimulateMember(s, path, c, scope, name, child, value);
    var t := ApplyAll(s, Events(path + [Key(name)], child, value)).value;
    MemberGives(s, t, c, scope, name, v);
    PreviousIsField(s, c, scope, name);
    SameFrames(s, t, c, name, v);
    SimulateMembers(t, path, c, scope, rest);
    var u := ApplyAll(t, MemberEvents(path, scope, rest)).value;
    MemberThenMembers(s, t, u, c, name, v, DecodeMembers(scope, FieldsAt(t.g, c), rest));
    ApplyConcat(s, Events(path + [Key(name)], child, value), MemberEvents(path, scope, rest));
  }

  lemma SameFrames(s: State, t: State, p: Id, key: string, v: Value)
    requires p in s.g.rows && MemberDone(s, t, p, key, v)
    ensures t.frames == s.frames
  {
    hide ChangedMember, FieldAt;
  }

  /** The events of one member give it the value that decoding it gives. */
  lemma {:induction false} SimulateMember(s: State, path: seq<Name>, p: Id, scope: Scope, key: string, child: Child, d: Document)
    requires InObject(s, p, scope) && |s.frames| == |path| + 1 && |path| + Height(Child(ObjectShape, scope)) <= MAX_DEPTH
    requires ChildOf(scope, key) == Some(child) && Fits(child, d)
    ensures var r := ApplyAll(s, Events(path + [Key(key)], child, d));
            r.Some? && MemberDone(s, r.value, p, key, Decode(scope, child, Previous(s, p, scope, key), d))
    decreases d, 1
  {
    hide ChildOf, ApplyAll, Events, MemberDone, Decode, Previous;
    ChildHeight(scope, key);
    match d {
      case Null => SimulateNull(s, path, p, scope, key, child);
      case Scalar(raw) => SimulateText(s, path, p, scope, key, child, raw);
      case Array(elements) => SimulateArray(s, path, p, scope, key, child, elements);
      case Object(members) => SimulateObject(s, path, p, scope, key, child, members);
    }
  }

  lemma DecodeObject(scope: Scope, child: Child, previous: Value, members: Members)
    requires child.shape == ObjectShape
    ensures Decode(scope, child, previous, Object(members))
         == var fields := DecodeMembers(child.scope, FieldsOf(child.scope, previous), members);
            if IsStruct(child.scope) then Struct(fields) else Map(fields)
  {
  }

  lemma {:induction false} SimulateObject(s: State, path: seq<Name>, p: Id, scope: Scope, key: string, child: Child, members: Members)
    requires InObject(s, p, scope) && |s.frames| == |path| + 1 && |path| + Height(Child(ObjectShape, scope)) <= MAX_DEPTH
    requires ChildOf(scope, key) == Some(child) && child.shape == ObjectShape && MembersFit(child.scope, members)
    ensures var r := ApplyAll(s, Events(path + [Key(key)], child, Object(members)));
            r.Some? && MemberDone(s, r.value, p, key, Decode(scope, child, Previous(s, p, scope, key), Object(members)))
    decreases Object(members), 0
  {
    hide ChildOf;
    ChildHeight(scope, key);
    DecodeObject(scope, child, Previous(s, p, scope, key), members);
    var at := path + [Key(key)];
    var items, close := MemberEvents(at, child.scope, members), Close(at, child.scope);
    assert Events(at, child, Object(members)) == [Begin(at, ObjectShape, child.scope)] + items + [close];
    hide ChangedMember, FieldAt, FieldsAt, Apply, ApplyAll, Opened, Decode, Events, MemberEvents, Previous, WellFormed, DecodeMembers,
         MemberDone, FieldsOf, Height;
    var fields := FieldsOf(child.scope, Previous(s, p, scope, key));
    var c := OpenObject(s, p, scope, key, child);
    var t := Opened(s, p, scope, key, ObjectKind, child.scope);
    ApplyBegin(s, path, p, scope, key, ObjectShape, child.scope);
    SimulateMembers(t, at, c, child.scope, members);
    var u := ApplyAll(t, items).value;
    Bracketed(s, t, u, Begin(at, ObjectShape, child.scope), items, close);
    ClosedObject(s, t, u, path, p, child.scope, key, c, DecodeMembers(child.scope, fields, members));
  }

  // ----- whole documents -----

  /** The tables stand for the document's value: what decoding its members in order would give. */
  ghost predicate StandsFor(t: State, d: Document) {
    t.frames == [] && WellFormed(t.g) && t.root in t.g.rows && ValueAt(t.g, t.root) == DecodeSnapshot(d)
  }

  lemma RootValue(g: Graph, root: Id)
    requires WellFormed(g) && root in g.rows && g.rows[root].kind == ObjectKind && g.rows[root].scope == Snapshot
    ensures ValueAt(g, root) == Struct(FieldsAt(g, root))
  {
  }

  /** Every document that fits the schema is projected, and the tables then stand for it. */
  lemma ProjectionIsDecoding(start: State, d: Document)
    requires WellFormed(start.g) && start.frames == [] && start.root in start.g.rows && FieldsAt(start.g, start.root) == map[]
    requires start.g.rows[start.root].kind == ObjectKind && start.g.rows[start.root].scope == Snapshot
    requires Fits(Child(ObjectShape, Snapshot), d)
    ensures var r := ApplyAll(start, DocumentEvents(d)); r.Some? && StandsFor(r.value, d)
  {
    hide WellFormed, FieldsAt, ValueAt, ApplyAll, MemberEvents, DecodeMembers;
    RootValue(start.g, start.root);
    match d {
      case Null =>
        assert DocumentEvents(d) == [NullItem([], Snapshot)];
        ApplyOne(start, NullItem([], Snapshot));
      case Object(members) =>
        var open, close := Begin([], ObjectShape, Snapshot), Close([], Snapshot);
        assert DocumentEvents(d) == [open] + MemberEvents([], Snapshot, members) + [close];
        var t := start.(frames := [Frame(start.root, ObjectKind, Snapshot, 0, false)]);
        assert start.frames + [Frame(start.root, ObjectKind, Snapshot, 0, false)] == t.frames;
        assert Apply(start, open) == Some(t);
        SimulateMembers(t, [], start.root, Snapshot, members);
        var u := ApplyAll(t, MemberEvents([], Snapshot, members)).value;
        Bracketed(start, t, u, open, MemberEvents([], Snapshot, members), close);
        CloseObject(u, [], Snapshot);
        SameRoot(t, u, start.root, DecodeMembers(Snapshot, map[], members));
    }
  }

  lemma SameRoot(t: State, u: State, root: Id, fields: map<string, Value>)
    requires MembersDone(t, u, root, fields) && root in t.g.rows
    requires t.g.rows[root].kind == ObjectKind && t.g.rows[root].scope == Snapshot
    ensures ValueAt(u.g, root) == Struct(fields)
  {
    RootValue(u.g, root);
  }
}
