/** Reading a finished projection back, page by page. A consumer that puts the items together again gets
    the value that the tables stand for, without the cells behind the end of a slice. */
module ProjectionWalk {
  import opened Wrappers
  import opened StableOrder
  import opened SnapshotDocument
  import opened ProjectionGraph

  const PAGE_NODES := 128
  const PAGE_BYTES := 0x4_0000

  // ----- what the walk emits, and what a consumer makes of it -----

  datatype Projected = Opened(path: seq<Name>, scope: Scope, isArray: bool) | Ended(path: seq<Name>, scope: Scope)
                     | Decoded(path: seq<Name>, scope: Scope, texts: seq<Raw>) | Nothing(path: seq<Name>, scope: Scope)

  datatype Level = ObjectLevel(scope: Scope, fields: map<string, Value>) | ArrayLevel(cells: seq<seq<Raw>>)

  datatype Reader = Reader(levels: seq<Level>, root: Value)

  function Deliver(r: Reader, path: seq<Name>, v: Value): Reader {
    if r.levels == [] then r.(root := v)
    else
      var top := |r.levels| - 1;
      match r.levels[top]
      case ObjectLevel(scope, fields) =>
        if path != [] && path[|path| - 1].Key?
        then r.(levels := r.levels[top := ObjectLevel(scope, fields[path[|path| - 1].key := v])]) else r
      case ArrayLevel(cells) => if v.Atom? then r.(levels := r.levels[top := ArrayLevel(cells + [v.decoded])]) else r
  }

  function NullValue(scope: Scope): Value {
    if IsStruct(scope) then Struct(map[]) else Nil
  }

  function LevelValue(level: Level): Value {
    match level
    case ObjectLevel(scope, fields) => if IsStruct(scope) then Struct(fields) else Map(fields)
    case ArrayLevel(cells) => Slice(cells, |cells|)
  }

  function Consume(r: Reader, item: Projected): Reader {
    match item
    case Opened(_, scope, isArray) => r.(levels := r.levels + [if isArray then ArrayLevel([]) else ObjectLevel(scope, map[])])
    case Decoded(path, _, texts) => Deliver(r, path, Atom(texts))
    case Nothing(path, scope) => Deliver(r, path, NullValue(scope))
    case Ended(path, _) =>
      if r.levels == [] then r
      else Deliver(r.(levels := r.levels[..|r.levels| - 1]), path, LevelValue(r.levels[|r.levels| - 1]))
  }

  function ConsumeAll(r: Reader, items: seq<Projected>): Reader {
    if items == [] then r else Consume(ConsumeAll(r, items[..|items| - 1]), items[|items| - 1])
  }

  lemma {:induction false} ConsumeConcat(r: Reader, a: seq<Projected>, b: seq<Projected>)
    ensures ConsumeAll(r, a + b) == ConsumeAll(ConsumeAll(r, a), b)
    decreases |b|
  {
    hide Consume;
    if b == [] {
      assert a + b == a;
    } else {
      assert (a + b)[..|a + b| - 1] == a + b[..|b| - 1];
      ConsumeConcat(r, a, b[..|b| - 1]);
    }
  }

  lemma ConsumeOne(r: Reader, item: Projected)
    ensures ConsumeAll(r, [item]) == Consume(r, item)
  {
    assert [item][..0] == [];
  }

  // ----- pages of children -----

  /** Names compare as keys do byte by byte, and indices as numbers. */
  function Rank(name: Name): Order {
    match name
    case Key(key) => Order(0, 0, key, "", "", "", "", 0)
    case Index(index) => Order(0, 0, "", "", "", "", "", index)
  }

  predicate After(name: Name, after: Option<Name>) {
    after == None || Rank(after.value).Less(Rank(name))
  }

  /** The children to read after `after`: those of an array only up to its length. */
  function Remaining(row: Row, after: Option<Name>): set<Name> {
    set name | name in row.edges && After(name, after) && (row.kind == ArrayKind ==> name.Index? && name.index < row.length)
  }

  predicate SameSort(names: set<Name>) {
    (forall n | n in names :: n.Key?) || (forall n | n in names :: n.Index?)
  }

  function NameBytes(name: Name): nat {
    if name.Key? then |name.key| else 1
  }

  function AllBytes(names: seq<Name>): nat {
    if names == [] then 0 else AllBytes(names[..|names| - 1]) + NameBytes(names[|names| - 1])
  }

  /** One page: the first names after `after`, as many as fit, and at least one if there is any. */
  method Children(row: Row, after: Option<Name>) returns (page: seq<Name>)
    ensures Ascending(page) && |page| <= PAGE_NODES && (|page| > 1 ==> AllBytes(page) <= PAGE_BYTES)
    ensures forall n | n in page :: n in Remaining(row, after)
    ensures forall n | n in Remaining(row, after) && n !in page :: page != [] && !Rank(n).Less(Rank(page[|page| - 1]))
  {
    hide AllBytes;
    var names := Remaining(row, after);
    var sorted := Sort(names, map n | n in names :: Rank(n));
    var k := PageEnd(sorted);
    page := sorted[..k];
  }

  /** How many names fit on a page. */
  method PageEnd(names: seq<Name>) returns (k: nat)
    ensures k <= |names| && k <= PAGE_NODES && (names != [] ==> k > 0) && (k > 1 ==> AllBytes(names[..k]) <= PAGE_BYTES)
    ensures k == |names| || k == PAGE_NODES || AllBytes(names[..k]) + NameBytes(names[k]) > PAGE_BYTES
  {
    k := 0;
    var bytes := 0;
    while k < |names| && k < PAGE_NODES && (k == 0 || NameBytes(names[k]) <= PAGE_BYTES - bytes)
      invariant 0 <= k <= |names| && k <= PAGE_NODES && bytes == AllBytes(names[..k]) && (k > 1 ==> bytes <= PAGE_BYTES)
    {
      assert names[..k + 1][..k] == names[..k];
      bytes := bytes + NameBytes(names[k]);
      k := k + 1;
    }
  }

  ghost predicate Ascending(names: seq<Name>) {
    forall i, j | 0 <= i < j < |names| :: names[i] != names[j] && !Rank(names[j]).Less(Rank(names[i]))
  }

  ghost function Members(page: seq<Name>, k: nat): set<Name> {
    set i | 0 <= i < k && i < |page| :: page[i]
  }

  lemma SameRank(m: Name, n: Name)
    requires (m.Key? && n.Key?) || (m.Index? && n.Index?)
    ensures Rank(m) == Rank(n) ==> m == n
    ensures m.Index? && n.Index? ==> (Rank(m).Less(Rank(n)) <==> m.index < n.index)
  {
    if m.Index? && n.Index? {
      var a, b := Rank(m), Rank(n);
      assert a.Labels() == b.Labels();
      LabelsEqual(a.Labels(), m.index, n.index);
    }
  }

  lemma {:induction false} LabelsEqual(a: seq<string>, i: int, j: int)
    ensures LabelsLess(a, i, a, j) <==> i < j
    decreases |a|
  {
    if a != [] {
      LabelsEqual(a[1..], i, j);
    }
  }

  /** After a page, what remains is what remained before it without the page. */
  lemma PageRemoves(row: Row, after: Option<Name>, page: seq<Name>)
    requires SameSort(Remaining(row, after)) && page != [] && Ascending(page)
    requires forall n | n in page :: n in Remaining(row, after)
    requires forall n | n in Remaining(row, after) && n !in page :: !Rank(n).Less(Rank(page[|page| - 1]))
    ensures Remaining(row, Some(page[|page| - 1])) == Remaining(row, after) - Members(page, |page|)
  {
    var last := page[|page| - 1];
    assert last in page;
    forall n | n in Remaining(row, after) && n !in page ensures Rank(last).Less(Rank(n)) {
      SameRank(last, n);
      Trichotomy(Rank(last), Rank(n));
    }
    forall n | n in page ensures !Rank(last).Less(Rank(n)) {
      var i :| 0 <= i < |page| && page[i] == n;
      Trichotomy(Rank(last), Rank(last));
    }
    forall n | n in Remaining(row, Some(last)) ensures n in Remaining(row, after) {
      if after.Some? {
        Transitive(Rank(after.value), Rank(last), Rank(n));
      }
    }
    assert forall n :: n in page <==> n in Members(page, |page|);
  }

  // ----- the walk -----

  ghost function OnTop(r: Reader, level: Level): Reader {
    r.(levels := r.levels + [level])
  }

  lemma DeliverField(r: Reader, scope: Scope, fields: map<string, Value>, path: seq<Name>, key: string, v: Value)
    ensures Deliver(OnTop(r, ObjectLevel(scope, fields)), path + [Key(key)], v) == OnTop(r, ObjectLevel(scope, fields[key := v]))
  {
    assert (path + [Key(key)])[|path|] == Key(key);
  }

  lemma DeliverCell(r: Reader, cells: seq<seq<Raw>>, path: seq<Name>, texts: seq<Raw>)
    ensures Deliver(OnTop(r, ArrayLevel(cells)), path, Atom(texts)) == OnTop(r, ArrayLevel(cells + [texts]))
  {
  }

  lemma Bracketed(r: Reader, path: seq<Name>, scope: Scope, isArray: bool, items: seq<Projected>, level: Level)
    requires ConsumeAll(OnTop(r, if isArray then ArrayLevel([]) else ObjectLevel(scope, map[])), items) == OnTop(r, level)
    ensures ConsumeAll(r, [Opened(path, scope, isArray)] + items + [Ended(path, scope)]) == Deliver(r, path, LevelValue(level))
  {
    hide Deliver;
    var open, close := Opened(path, scope, isArray), Ended(path, scope);
    ConsumeConcat(r, [open] + items, [close]);
    ConsumeConcat(r, [open], items);
    ConsumeOne(r, open);
    ConsumeOne(OnTop(r, level), close);
    assert OnTop(r, level).levels[..|r.levels|] == r.levels;
  }

  /** The fields whose names are no longer to be read. */
  ghost function FieldsExcept(g: Graph, id: Id, left: set<Name>): map<string, Value>
    requires WellFormed(g) && id in g.rows
  {
    map key | key in KeysAt(g, id) && Key(key) !in left :: Visible(ChildValue(g, id, Key(key)))
  }

  lemma FieldsExceptKey(g: Graph, id: Id, left: set<Name>)
    requires WellFormed(g) && id in g.rows
    ensures forall key :: key in FieldsExcept(g, id, left) <==> Key(key) in g.rows[id].edges && Key(key) !in left
    ensures forall key | key in FieldsExcept(g, id, left) :: FieldsExcept(g, id, left)[key] == Visible(ChildValue(g, id, Key(key)))
  {
    hide ChildValue, Visible, RowOk;
  }

  lemma OneMoreField(g: Graph, id: Id, left: set<Name>, key: string)
    requires WellFormed(g) && id in g.rows && Key(key) in g.rows[id].edges && Key(key) in left
    ensures FieldsExcept(g, id, left - {Key(key)}) == FieldsExcept(g, id, left)[key := Visible(ChildValue(g, id, Key(key)))]
  {
    hide ChildValue, Visible, RowOk, FieldsExcept;
    FieldsExceptKey(g, id, left);
    FieldsExceptKey(g, id, left - {Key(key)});
    var l, r := FieldsExcept(g, id, left - {Key(key)}), FieldsExcept(g, id, left)[key := Visible(ChildValue(g, id, Key(key)))];
    assert forall k :: k in l <==> k in r;
  }

  lemma AllFields(g: Graph, id: Id)
    requires WellFormed(g) && id in g.rows
    ensures FieldsExcept(g, id, {}) == map key | key in FieldsAt(g, id) :: Visible(FieldsAt(g, id)[key])
  {
    hide ChildValue, ValueAt, Visible, RowOk;
    FieldsAtKey(g, id);
    forall key | Key(key) in g.rows[id].edges
      ensures key in FieldsAt(g, id) && FieldsAt(g, id)[key] == ChildValue(g, id, Key(key))
    {
    }
  }

  lemma ObjectVisible(g: Graph, id: Id)
    requires WellFormed(g) && id in g.rows && g.rows[id].kind == ObjectKind
    ensures LevelValue(ObjectLevel(g.rows[id].scope, FieldsExcept(g, id, {}))) == Visible(ValueAt(g, id))
  {
    hide FieldsExcept, FieldsAt, RowOk, EdgeOk;
    AllFields(g, id);
  }

  method Walk(g: Graph, id: Id, path: seq<Name>, ghost r: Reader) returns (items: seq<Projected>)
    requires WellFormed(g) && id in g.rows
    ensures ConsumeAll(r, items) == Deliver(r, path, Visible(ValueAt(g, id)))
    decreases g.next - id.n, 2
  {
    hide Deliver, FieldsAt, CellsAt, ConsumeAll;
    assert RowOk(g, id);
    var row := g.rows[id];
    match row.kind {
      case ValueKind =>
        items := [Decoded(path, row.scope, row.fragments)];
        ConsumeOne(r, items[0]);
      case NullKind =>
        items := [Nothing(path, row.scope)];
        ConsumeOne(r, items[0]);
        NullVisible(g, id);
      case ObjectKind =>
        var inner := WalkObject(g, id, path, r);
        items := [Opened(path, row.scope, false)] + inner + [Ended(path, row.scope)];
        Bracketed(r, path, row.scope, false, inner, ObjectLevel(row.scope, FieldsExcept(g, id, {})));
        ObjectVisible(g, id);
      case ArrayKind =>
        var inner := WalkArray(g, id, path, r);
        items := [Opened(path, row.scope, true)] + inner + [Ended(path, row.scope)];
        Bracketed(r, path, row.scope, true, inner, ArrayLevel(CellsAt(g, id)[..row.length]));
    }
  }

  lemma NullVisible(g: Graph, id: Id)
    requires WellFormed(g) && id in g.rows && g.rows[id].kind == NullKind
    ensures Visible(ValueAt(g, id)) == NullValue(g.rows[id].scope)
  {
  }

  lemma NamesOf(g: Graph, id: Id)
    requires WellFormed(g) && id in g.rows
    ensures g.rows[id].kind == ObjectKind ==> forall n | n in g.rows[id].edges :: n.Key?
    ensures g.rows[id].kind == ArrayKind ==> forall n | n in g.rows[id].edges :: n.Index?
    ensures forall n | n in g.rows[id].edges :: g.rows[id].edges[n].child in g.rows && g.rows[id].edges[n].child.n > id.n
    ensures id.n < g.next
  {
    hide ChildOf;
    assert RowOk(g, id);
    forall n | n in g.rows[id].edges
      ensures (g.rows[id].kind == ObjectKind ==> n.Key?) && (g.rows[id].kind == ArrayKind ==> n.Index?)
      ensures g.rows[id].edges[n].child in g.rows && g.rows[id].edges[n].child.n > id.n
    {
      assert EdgeOk(g, id, n);
      assert RowOk(g, g.rows[id].edges[n].child);
    }
  }

  method WalkObject(g: Graph, id: Id, path: seq<Name>, ghost r: Reader) returns (items: seq<Projected>)
    requires WellFormed(g) && id in g.rows && g.rows[id].kind == ObjectKind
    ensures var scope := g.rows[id].scope;
            ConsumeAll(OnTop(r, ObjectLevel(scope, map[])), items) == OnTop(r, ObjectLevel(scope, FieldsExcept(g, id, {})))
    decreases g.next - id.n, 1
  {
    hide Deliver, FieldsExcept, ConsumeAll, OnTop, WellFormed;
    NamesOf(g, id);
    var row := g.rows[id];
    var after: Option<Name> := None;
    items := [];
    NoFieldsRead(g, id, r);
    while true
      invariant ConsumeAll(OnTop(r, ObjectLevel(row.scope, map[])), items)
             == OnTop(r, ObjectLevel(row.scope, FieldsExcept(g, id, Remaining(row, after))))
      decreases Remaining(row, after)
    {
      var page := Children(row, after);
      if page == [] {
        assert Remaining(row, after) == {};
        return;
      }
      var more := WalkPage(g, id, path, page, Remaining(row, after), r);
      PageRemoves(row, after, page);
      ConsumeConcat(OnTop(r, ObjectLevel(row.scope, map[])), items, more);
      assert page[0] in Members(page, |page|) && page[0] in Remaining(row, after);
      items := items + more;
      after := Some(page[|page| - 1]);
    }
  }

  lemma NoFieldsRead(g: Graph, id: Id, r: Reader)
    requires WellFormed(g) && id in g.rows && g.rows[id].kind == ObjectKind
    ensures ConsumeAll(OnTop(r, ObjectLevel(g.rows[id].scope, map[])), [])
         == OnTop(r, ObjectLevel(g.rows[id].scope, FieldsExcept(g, id, Remaining(g.rows[id], None))))
  {
    assert FieldsExcept(g, id, Remaining(g.rows[id], None)) == map[];
  }

  method WalkPage(g: Graph, id: Id, path: seq<Name>, page: seq<Name>, ghost left: set<Name>, ghost r: Reader)
      returns (items: seq<Projected>)
    requires WellFormed(g) && id in g.rows && g.rows[id].kind == ObjectKind
    requires Ascending(page) && (forall n | n in page :: n in left) && forall n | n in left :: n in g.rows[id].edges
    ensures var scope := g.rows[id].scope;
            ConsumeAll(OnTop(r, ObjectLevel(scope, FieldsExcept(g, id, left))), items)
              == OnTop(r, ObjectLevel(scope, FieldsExcept(g, id, left - Members(page, |page|))))
    decreases g.next - id.n, 0
  {
    hide Deliver, FieldsExcept, OnTop, WellFormed, Visible, ValueAt;
    NamesOf(g, id);
    var scope := g.rows[id].scope;
    items := [];
    assert left - Members(page, 0) == left;
    var k := 0;
    while k < |page|
      invariant 0 <= k <= |page|
      invariant ConsumeAll(OnTop(r, ObjectLevel(scope, FieldsExcept(g, id, left))), items)
             == OnTop(r, ObjectLevel(scope, FieldsExcept(g, id, left - Members(page, k))))
    {
      var key, child := page[k].key, g.rows[id].edges[page[k]].child;
      ghost var fields := FieldsExcept(g, id, left - Members(page, k));
      assert page[k] !in Members(page, k);
      assert left - Members(page, k + 1) == left - Members(page, k) - {page[k]};
      var more := Walk(g, child, path + [page[k]], OnTop(r, ObjectLevel(scope, fields)));
      OneMoreField(g, id, left - Members(page, k), key);
      DeliverField(r, scope, fields, path, key, Visible(ChildValue(g, id, Key(key))));
      ConsumeConcat(OnTop(r, ObjectLevel(scope, FieldsExcept(g, id, left))), items, more);
      items := items + more;
      k := k + 1;
    }
  }

  ghost function Indices(from: nat, to: nat): set<Name> {
    set i | from <= i < to :: Index(i)
  }

  lemma AllIndices(g: Graph, id: Id)
    requires WellFormed(g) && id in g.rows && g.rows[id].kind == ArrayKind
    ensures Remaining(g.rows[id], None) == Indices(0, g.rows[id].length)
  {
    hide ChildOf;
    assert RowOk(g, id);
    forall n | n in Indices(0, g.rows[id].length) ensures n in g.rows[id].edges {
      assert Index(n.index) in g.rows[id].edges;
    }
  }

  /** A page has no gaps: an index before its last one that is still to be read is in the page. */
  lemma InPage(page: seq<Name>, from: nat, to: nat, i: nat)
    requires page != [] && page[|page| - 1].Index? && from <= i <= page[|page| - 1].index && i < to
    requires forall n | n in Indices(from, to) && n !in page :: page != [] && !Rank(n).Less(Rank(page[|page| - 1]))
    ensures Index(i) in page
  {
    hide Rank;
    var last := page[|page| - 1];
    SameRank(Index(i), last);
    assert last in page && Index(i) in Indices(from, to);
  }

  /** The page that follows the first `from` elements holds the next ones. */
  lemma {:induction false} PageIndices(page: seq<Name>, from: nat, to: nat, j: nat)
    requires Ascending(page) && forall n | n in page :: n in Indices(from, to)
    requires forall n | n in Indices(from, to) && n !in page :: page != [] && !Rank(n).Less(Rank(page[|page| - 1]))
    requires j < |page|
    ensures page[j] == Index(from + j)
  {
    hide Rank;
    forall i | 0 <= i < |page| ensures page[i].Index? && from <= page[i].index < to {
      assert page[i] in page;
    }
    forall i, k | 0 <= i < k < |page| ensures page[i].index < page[k].index {
      SameRank(page[k], page[i]);
    }
    if j > 0 {
      PageIndices(page, from, to, j - 1);
    }
    InPage(page, from, to, from + j);
    var k :| 0 <= k < |page| && page[k] == Index(from + j);
    if k < j {
      PageIndices(page, from, to, k);
    }
  }

  lemma IndicesLess(from: nat, to: nat, page: seq<Name>)
    requires |page| <= to - from && forall j | 0 <= j < |page| :: page[j] == Index(from + j)
    ensures Indices(from, to) - Members(page, |page|) == Indices(from + |page|, to)
  {
    forall i | from <= i < from + |page| ensures Index(i) in Members(page, |page|) {
      assert page[i - from] == Index(i);
    }
  }

  lemma CellAt(g: Graph, id: Id, i: nat)
    requires WellFormed(g) && id in g.rows && g.rows[id].kind == ArrayKind && i < g.rows[id].cells
    ensures Index(i) in g.rows[id].edges && g.rows[id].edges[Index(i)].child in g.rows
    ensures g.rows[id].edges[Index(i)].position == i
    ensures Visible(ValueAt(g, g.rows[id].edges[Index(i)].child)) == Atom(CellsAt(g, id)[i])
  {
    hide ChildOf;
    assert RowOk(g, id);
    assert EdgeOk(g, id, Index(i));
  }

  method WalkArray(g: Graph, id: Id, path: seq<Name>, ghost r: Reader) returns (items: seq<Projected>)
    requires WellFormed(g) && id in g.rows && g.rows[id].kind == ArrayKind && g.rows[id].length <= g.rows[id].cells
    ensures ConsumeAll(OnTop(r, ArrayLevel([])), items) == OnTop(r, ArrayLevel(CellsAt(g, id)[..g.rows[id].length]))
    decreases g.next - id.n, 1
  {
    hide Deliver, CellsAt, ConsumeAll, OnTop, WellFormed, Indices, Members;
    AllIndices(g, id);
    var row := g.rows[id];
    var after: Option<Name> := None;
    items := [];
    var count := 0;
    NoCellsRead(g, id, r);
    while true
      invariant 0 <= count <= row.length && Remaining(row, after) == Indices(count, row.length)
      invariant ConsumeAll(OnTop(r, ArrayLevel([])), items) == OnTop(r, ArrayLevel(CellsAt(g, id)[..count]))
      decreases row.length - count
    {
      var page := Children(row, after);
      if page == [] {
        NoneLeft(count, row.length);
        return;
      }
      forall j: nat | j < |page| ensures page[j] == Index(count + j) {
        PageIndices(page, count, row.length, j);
      }
      assert page[|page| - 1] in page;
      LastIndex(count, row.length, page);
      var more := WalkElements(g, id, path, page, count, r);
      IndexSort(row, after, count);
      PageRemoves(row, after, page);
      IndicesLess(count, row.length, page);
      ConsumeConcat(OnTop(r, ArrayLevel([])), items, more);
      items := items + more;
      after := Some(page[|page| - 1]);
      count := count + |page|;
    }
  }

  lemma NoCellsRead(g: Graph, id: Id, r: Reader)
    requires WellFormed(g) && id in g.rows && g.rows[id].kind == ArrayKind
    ensures ConsumeAll(OnTop(r, ArrayLevel([])), []) == OnTop(r, ArrayLevel(CellsAt(g, id)[..0]))
  {
  }

  lemma NoneLeft(count: nat, length: nat)
    requires count <= length && Indices(count, length) == {}
    ensures count == length
  {
    assert count < length ==> Index(count) in Indices(count, length);
  }

  lemma LastIndex(count: nat, length: nat, page: seq<Name>)
    requires page != [] && page[|page| - 1] == Index(count + |page| - 1) && page[|page| - 1] in Indices(count, length)
    ensures count + |page| <= length
  {
  }

  lemma IndexSort(row: Row, after: Option<Name>, count: nat)
    requires Remaining(row, after) == Indices(count, row.length)
    ensures SameSort(Remaining(row, after))
  {
  }

  method WalkElements(g: Graph, id: Id, path: seq<Name>, page: seq<Name>, count: nat, ghost r: Reader)
      returns (items: seq<Projected>)
    requires WellFormed(g) && id in g.rows && g.rows[id].kind == ArrayKind
    requires count + |page| <= g.rows[id].cells && forall j | 0 <= j < |page| :: page[j] == Index(count + j)
    ensures ConsumeAll(OnTop(r, ArrayLevel(CellsAt(g, id)[..count])), items)
         == OnTop(r, ArrayLevel(CellsAt(g, id)[..count + |page|]))
    decreases g.next - id.n, 0
  {
    hide Deliver, OnTop, WellFormed, Visible, ValueAt;
    NamesOf(g, id);
    ghost var cells := CellsAt(g, id);
    items := [];
    var k := 0;
    while k < |page|
      invariant 0 <= k <= |page|
      invariant ConsumeAll(OnTop(r, ArrayLevel(cells[..count])), items) == OnTop(r, ArrayLevel(cells[..count + k]))
    {
      CellAt(g, id, count + k);
      var child := g.rows[id].edges[page[k]].child;
      var more := Walk(g, child, path + [page[k]], OnTop(r, ArrayLevel(cells[..count + k])));
      DeliverCell(r, cells[..count + k], path + [page[k]], cells[count + k]);
      assert cells[..count + k + 1] == cells[..count + k] + [cells[count + k]];
      ConsumeConcat(OnTop(r, ArrayLevel(cells[..count])), items, more);
      items := items + more;
      k := k + 1;
    }
  }
}
