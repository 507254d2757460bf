/** Keyed groups of counters: adding one record to a group, and merging two groups. A group keeps the
    name it got first. */
module RangeGroups {
  import opened Wrappers
  import opened RangeCounters

  function At<K, V>(m: map<K, V>, k: K): Option<V> {
    if k in m then Some(m[k]) else None
  }

  // ----- counters under one name -----

  datatype Leaf = Leaf(name: string, sum: Counters)

  type Leaves = map<string, Leaf>

  /** With `fill` an empty name is replaced by the next one that comes along. */
  function FirstName(a: string, b: string, fill: bool): string {
    if fill && a == "" then b else a
  }

  function AddLeaf(leaf: Option<Leaf>, name: string, d: Counters, fill: bool): Leaf {
    match leaf
    case None => Leaf(name, NOTHING.Plus(d))
    case Some(l) => Leaf(FirstName(l.name, name, fill), l.sum.Plus(d))
  }

  function MergeLeaf(a: Option<Leaf>, b: Option<Leaf>, fill: bool): Option<Leaf> {
    match (a, b)
    case (None, _) => b
    case (_, None) => a
    case (Some(l), Some(r)) => Some(Leaf(FirstName(l.name, r.name, fill), l.sum.Plus(r.sum)))
  }

  lemma MergeAddLeaf(a: Option<Leaf>, b: Option<Leaf>, name: string, d: Counters, fill: bool)
    ensures MergeLeaf(a, Some(AddLeaf(b, name, d, fill)), fill) == Some(AddLeaf(MergeLeaf(a, b, fill), name, d, fill))
  {
    hide Counters.Plus;
    PlusNothing(d);
    if a.Some? && b.Some? {
      PlusAssociative(a.value.sum, b.value.sum, d);
    }
  }

  function AddTo(m: Leaves, key: string, name: string, d: Counters, fill: bool): Leaves {
    m[key := AddLeaf(At(m, key), name, d, fill)]
  }

  function MergeLeaves(a: Leaves, b: Leaves, fill: bool): Leaves {
    map k | k in a.Keys + b.Keys :: MergeLeaf(At(a, k), At(b, k), fill).value
  }

  lemma MergeAddTo(a: Leaves, b: Leaves, key: string, name: string, d: Counters, fill: bool)
    ensures MergeLeaves(a, AddTo(b, key, name, d, fill), fill) == AddTo(MergeLeaves(a, b, fill), key, name, d, fill)
  {
    hide Counters.Plus, AddLeaf;
    MergeAddLeaf(At(a, key), At(b, key), name, d, fill);
    var l, r := MergeLeaves(a, AddTo(b, key, name, d, fill), fill), AddTo(MergeLeaves(a, b, fill), key, name, d, fill);
    assert l.Keys == r.Keys;
  }

  /** The loop over the second operand. */
  method MergeLeavesInto(a: Leaves, b: Leaves, fill: bool) returns (m: Leaves)
    ensures m == MergeLeaves(a, b, fill)
  {
    hide Counters.Plus;
    m := a;
    var rest := b.Keys;
    while rest != {}
      invariant rest <= b.Keys && m.Keys == a.Keys + (b.Keys - rest)
      invariant forall k | k in m :: m[k] == if k in rest then a[k] else MergeLeaf(At(a, k), At(b, k), fill).value
      decreases rest
    {
      var key :| key in rest;
      m := m[key := MergeLeaf(At(m, key), Some(b[key]), fill).value];
      rest := rest - {key};
    }
  }

  // ----- a model with its providers -----

  datatype Model = Model(sum: Counters, providers: Leaves)

  type Models = map<string, Model>

  /** What one record adds to a model: counters, and the provider they came through. */
  datatype Share = Share(sum: Counters, providerKey: string, providerName: string, providerSum: Counters)

  function AddModel(model: Option<Model>, s: Share): Model {
    var m := if model.Some? then model.value else Model(NOTHING, map[]);
    Model(m.sum.Plus(s.sum), AddTo(m.providers, s.providerKey, s.providerName, s.providerSum, false))
  }

  function MergeModel(a: Option<Model>, b: Option<Model>): Option<Model> {
    match (a, b)
    case (None, _) => b
    case (_, None) => a
    case (Some(l), Some(r)) => Some(Model(l.sum.Plus(r.sum), MergeLeaves(l.providers, r.providers, false)))
  }

  lemma MergeNoLeaves(a: Leaves, fill: bool)
    ensures MergeLeaves(a, map[], fill) == a
  {
  }

  lemma MergeAddModel(a: Option<Model>, b: Option<Model>, s: Share)
    ensures MergeModel(a, Some(AddModel(b, s))) == Some(AddModel(MergeModel(a, b), s))
  {
    hide Counters.Plus, AddTo, MergeLeaves;
    PlusNothing(s.sum);
    if a.Some? {
      var l := a.value;
      var r := if b.Some? then b.value else Model(NOTHING, map[]);
      PlusAssociative(l.sum, r.sum, s.sum);
      PlusNothing(l.sum);
      MergeNoLeaves(l.providers, false);
      MergeAddTo(l.providers, r.providers, s.providerKey, s.providerName, s.providerSum, false);
    }
  }

  function AddToModels(m: Models, key: string, s: Share): Models {
    m[key := AddModel(At(m, key), s)]
  }

  function MergeModels(a: Models, b: Models): Models {
    map k | k in a.Keys + b.Keys :: MergeModel(At(a, k), At(b, k)).value
  }

  lemma MergeAddToModels(a: Models, b: Models, key: string, s: Share)
    ensures MergeModels(a, AddToModels(b, key, s)) == AddToModels(MergeModels(a, b), key, s)
  {
    hide Counters.Plus, AddModel;
    MergeAddModel(At(a, key), At(b, key), s);
    assert MergeModels(a, AddToModels(b, key, s)).Keys == AddToModels(MergeModels(a, b), key, s).Keys;
  }

  method MergeModelsInto(a: Models, b: Models) returns (m: Models)
    ensures m == MergeModels(a, b)
  {
    hide Counters.Plus, MergeLeaves;
    m := a;
    var rest := b.Keys;
    while rest != {}
      invariant rest <= b.Keys && m.Keys == a.Keys + (b.Keys - rest)
      invariant forall k | k in m :: m[k] == if k in rest then a[k] else MergeModel(At(a, k), At(b, k)).value
      decreases rest
    {
      var key :| key in rest;
      if key in m {
        var providers := MergeLeavesInto(m[key].providers, b[key].providers, false);
        m := m[key := Model(m[key].sum.Plus(b[key].sum), providers)];
      } else {
        m := m[key := b[key]];
      }
      rest := rest - {key};
    }
  }

  // ----- a client or an API with its models -----

  datatype Group<L> = Group(name: L, sum: Counters, models: Models)

  type Groups<K, L> = map<K, Group<L>>

  function AddGroup<L>(group: Option<Group<L>>, name: L, d: Counters, model: string, s: Share): Group<L> {
    var g := if group.Some? then group.value else Group(name, NOTHING, map[]);
    Group(g.name, g.sum.Plus(d), AddToModels(g.models, model, s))
  }

  function MergeGroup<L>(a: Option<Group<L>>, b: Option<Group<L>>): Option<Group<L>> {
    match (a, b)
    case (None, _) => b
    case (_, None) => a
    case (Some(l), Some(r)) => Some(Group(l.name, l.sum.Plus(r.sum), MergeModels(l.models, r.models)))
  }

  lemma MergeNoModels(a: Models)
    ensures MergeModels(a, map[]) == a
  {
  }

  lemma MergeAddGroup<L>(a: Option<Group<L>>, b: Option<Group<L>>, name: L, d: Counters, model: string, s: Share)
    ensures MergeGroup(a, Some(AddGroup(b, name, d, model, s))) == Some(AddGroup(MergeGroup(a, b), name, d, model, s))
  {
    hide Counters.Plus, AddToModels, MergeModels;
    PlusNothing(d);
    if a.Some? {
      var l := a.value;
      var r := if b.Some? then b.value else Group(name, NOTHING, map[]);
      PlusAssociative(l.sum, r.sum, d);
      PlusNothing(l.sum);
      MergeNoModels(l.models);
      MergeAddToModels(l.models, r.models, model, s);
    }
  }

  function AddToGroups<K(==), L>(m: Groups<K, L>, key: K, name: L, d: Counters, model: string, s: Share): Groups<K, L> {
    m[key := AddGroup(At(m, key), name, d, model, s)]
  }

  function MergeGroups<K(==), L>(a: Groups<K, L>, b: Groups<K, L>): Groups<K, L> {
    map k | k in a.Keys + b.Keys :: MergeGroup(At(a, k), At(b, k)).value
  }

  lemma MergeAddToGroups<K, L>(a: Groups<K, L>, b: Groups<K, L>, key: K, name: L, d: Counters, model: string, s: Share)
    ensures MergeGroups(a, AddToGroups(b, key, name, d, model, s)) == AddToGroups(MergeGroups(a, b), key, name, d, model, s)
  {
    hide Counters.Plus, AddGroup;
    MergeAddGroup(At(a, key), At(b, key), name, d, model, s);
    assert MergeGroups(a, AddToGroups(b, key, name, d, model, s)).Keys
        == AddToGroups(MergeGroups(a, b), key, name, d, model, s).Keys;
  }

  method MergeGroupsInto<K(==), L>(a: Groups<K, L>, b: Groups<K, L>) returns (m: Groups<K, L>)
    ensures m == MergeGroups(a, b)
  {
    hide Counters.Plus, MergeModels;
    m := a;
    var rest := b.Keys;
    while rest != {}
      invariant rest <= b.Keys && m.Keys == a.Keys + (b.Keys - rest)
      invariant forall k | k in m :: m[k] == if k in rest then a[k] else MergeGroup(At(a, k), At(b, k)).value
      decreases rest
    {
      var key :| key in rest;
      if key in m {
        var models := MergeModelsInto(m[key].models, b[key].models);
        m := m[key := Group(m[key].name, m[key].sum.Plus(b[key].sum), models)];
      } else {
        m := m[key := b[key]];
      }
      rest := rest - {key};
    }
  }
}
