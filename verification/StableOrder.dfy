/** The order that breaks ties between records: time first, then the labels, then the index. */
module StableOrder {

  datatype Order = Order(timestamp: int, completion: int, api: string, model: string, provider: string,
                         auth: string, signature: string, index: int)
  {
    function Labels(): seq<string> {
      [api, model, provider, auth, signature]
    }

    predicate Less(other: Order) {
      if timestamp != other.timestamp then timestamp < other.timestamp
      else if completion != other.completion then completion < other.completion
      else LabelsLess(Labels(), index, other.Labels(), other.index)
    }
  }

  predicate StringLess(a: string, b: string) {
    b != "" && (a == "" || if a[0] != b[0] then a[0] < b[0] else StringLess(a[1..], b[1..]))
  }

  /** The first label that differs decides; without one, the index. */
  predicate LabelsLess(a: seq<string>, i: int, b: seq<string>, j: int)
    requires |a| == |b|
  {
    if a == [] then i < j
    else if a[0] != b[0] then StringLess(a[0], b[0])
    else LabelsLess(a[1..], i, b[1..], j)
  }

  lemma {:induction false} StringTrichotomy(a: string, b: string)
    ensures !(StringLess(a, b) && StringLess(b, a))
    ensures a == b || StringLess(a, b) || StringLess(b, a)
    ensures !StringLess(a, a)
    decreases |a| + |b|
  {
    if a != "" {
      StringTrichotomy(a[1..], if b == "" then "" else b[1..]);
      if b != "" && a[0] == b[0] && a[1..] == b[1..] {
        assert a == [a[0]] + a[1..] == b;
      }
    }
  }

  lemma {:induction false} StringTransitive(a: string, b: string, c: string)
    requires StringLess(a, b) && StringLess(b, c)
    ensures StringLess(a, c)
  {
    if a != "" && a[0] == b[0] && b[0] == c[0] {
      StringTransitive(a[1..], b[1..], c[1..]);
    }
  }

  lemma {:induction false} LabelsTrichotomy(a: seq<string>, i: int, b: seq<string>, j: int)
    requires |a| == |b|
    ensures !(LabelsLess(a, i, b, j) && LabelsLess(b, j, a, i))
    ensures (a == b && i == j) || LabelsLess(a, i, b, j) || LabelsLess(b, j, a, i)
    decreases |a|
  {
    if a != [] {
      StringTrichotomy(a[0], b[0]);
      LabelsTrichotomy(a[1..], i, b[1..], j);
      if a[0] == b[0] && a[1..] == b[1..] {
        assert a == [a[0]] + a[1..] == b;
      }
    }
  }

  lemma {:induction false} LabelsTransitive(a: seq<string>, i: int, b: seq<string>, j: int, c: seq<string>, k: int)
    requires |a| == |b| == |c| && LabelsLess(a, i, b, j) && LabelsLess(b, j, c, k)
    ensures LabelsLess(a, i, c, k)
    decreases |a|
  {
    if a != [] {
      if a[0] == b[0] == c[0] {
        LabelsTransitive(a[1..], i, b[1..], j, c[1..], k);
      } else if a[0] != b[0] && b[0] != c[0] {
        StringTransitive(a[0], b[0], c[0]);
        StringTrichotomy(a[0], c[0]);
      }
    }
  }

  /** The order is strict and total: two records compare equal only when they agree on every key. */
  lemma Trichotomy(a: Order, b: Order)
    ensures !(a.Less(b) && b.Less(a))
    ensures a == b || a.Less(b) || b.Less(a)
    ensures !a.Less(a)
  {
    LabelsTrichotomy(a.Labels(), a.index, b.Labels(), b.index);
    LabelsTrichotomy(a.Labels(), a.index, a.Labels(), a.index);
    assert a.Labels() == b.Labels() ==>
        a.Labels()[0] == b.Labels()[0] && a.Labels()[1] == b.Labels()[1] && a.Labels()[2] == b.Labels()[2]
        && a.Labels()[3] == b.Labels()[3] && a.Labels()[4] == b.Labels()[4];
  }

  lemma Transitive(a: Order, b: Order, c: Order)
    requires a.Less(b) && b.Less(c)
    ensures a.Less(c)
  {
    if a.timestamp == b.timestamp == c.timestamp && a.completion == b.completion == c.completion {
      LabelsTransitive(a.Labels(), a.index, b.Labels(), b.index, c.Labels(), c.index);
    }
  }

  /** What the order is: of two texts the one with the smaller character where they first differ, or the
      one that ends there. */
  lemma {:induction false} StringLessIff(a: string, b: string)
    ensures StringLess(a, b) <==> exists k: nat :: DiffersAt(a, b, k)
  {
    if StringLess(a, b) {
      if a == "" {
        assert DiffersAt(a, b, 0);
      } else if a[0] != b[0] {
        assert DiffersAt(a, b, 0);
      } else {
        StringLessIff(a[1..], b[1..]);
        var k: nat :| DiffersAt(a[1..], b[1..], k);
        assert a[..k + 1] == [a[0]] + a[1..][..k] && b[..k + 1] == [b[0]] + b[1..][..k];
        assert DiffersAt(a, b, k + 1);
      }
    } else if k: nat :| DiffersAt(a, b, k) {
      if k > 0 {
        assert a[0] == a[..k][0] == b[..k][0] == b[0];
        StringLessIff(a[1..], b[1..]);
        assert a[1..][..k - 1] == a[..k][1..] == b[..k][1..] == b[1..][..k - 1];
        assert DiffersAt(a[1..], b[1..], k - 1);
      }
      assert false;
    }
  }

  ghost predicate DiffersAt(a: string, b: string, k: nat) {
    k <= |a| && k < |b| && a[..k] == b[..k] && (k == |a| || a[k] < b[k])
  }

  lemma {:induction false} LabelsLessIff(a: seq<string>, i: int, b: seq<string>, j: int)
    requires |a| == |b|
    ensures LabelsLess(a, i, b, j) <==> (a == b && i < j) || exists k: nat :: LabelDecides(a, b, k)
  {
    if a != [] {
      LabelsLessIff(a[1..], i, b[1..], j);
      assert a == [a[0]] + a[1..] && b == [b[0]] + b[1..];
      if k: nat :| LabelDecides(a, b, k) {
        if k > 0 {
          assert a[0] == a[..k][0] == b[..k][0] == b[0];
          assert a[1..][..k - 1] == a[..k][1..] == b[..k][1..] == b[1..][..k - 1];
          assert LabelDecides(a[1..], b[1..], k - 1);
        }
        StringTrichotomy(a[k], b[k]);
      }
      if a[0] == b[0] && (exists k: nat :: LabelDecides(a[1..], b[1..], k)) {
        var k: nat :| LabelDecides(a[1..], b[1..], k);
        assert a[..k + 1] == [a[0]] + a[1..][..k] && b[..k + 1] == [b[0]] + b[1..][..k];
        assert LabelDecides(a, b, k + 1);
      }
      if a[0] != b[0] && StringLess(a[0], b[0]) {
        assert LabelDecides(a, b, 0);
      }
    }
  }

  ghost predicate LabelDecides(a: seq<string>, b: seq<string>, k: nat) {
    k < |a| == |b| && a[..k] == b[..k] && StringLess(a[k], b[k])
  }

  /** Earlier records come first; of records of one time those that complete earlier; then the first
      label that differs decides, and at last the index. */
  lemma EarlierIsLess(a: Order, b: Order)
    ensures a.timestamp < b.timestamp ==> a.Less(b)
    ensures a.timestamp == b.timestamp && a.completion < b.completion ==> a.Less(b)
    ensures a.timestamp == b.timestamp && a.completion == b.completion ==>
      var s, t := [a.api, a.model, a.provider, a.auth, a.signature], [b.api, b.model, b.provider, b.auth, b.signature];
      a.Less(b) <==> (s == t && a.index < b.index) || exists k: nat :: LabelDecides(s, t, k)
  {
    LabelsLessIff(a.Labels(), a.index, b.Labels(), b.index);
  }

  // ----- sorting by it -----

  ghost predicate Sorted<K>(s: seq<K>, orders: map<K, Order>)
    requires forall i | 0 <= i < |s| :: s[i] in orders
  {
    forall i, j | 0 <= i < j < |s| :: !orders[s[j]].Less(orders[s[i]])
  }

  ghost predicate Lists<K>(s: seq<K>, members: set<K>) {
    && (forall i {:trigger s[i]} | 0 <= i < |s| :: s[i] in members)
    && (forall x | x in members :: x in s)
    && (forall i, j | 0 <= i < j < |s| :: s[i] != s[j])
  }

  lemma InsertKeepsSorted<K>(s: seq<K>, orders: map<K, Order>, at: nat, x: K)
    requires at <= |s| && x in orders && forall i | 0 <= i < |s| :: s[i] in orders
    requires Sorted(s, orders)
    requires forall i | 0 <= i < at :: !orders[x].Less(orders[s[i]])
    requires at < |s| ==> orders[x].Less(orders[s[at]])
    ensures Sorted(s[..at] + [x] + s[at..], orders)
  {
    var t := s[..at] + [x] + s[at..];
    forall i, j | 0 <= i < j < |t| ensures !orders[t[j]].Less(orders[t[i]]) {
      if i == at {
        Trichotomy(orders[x], orders[s[at]]);
        if orders[t[j]].Less(orders[x]) {
          Transitive(orders[t[j]], orders[x], orders[s[at]]);
          assert false;
        }
      }
    }
  }

  lemma InsertLists<K>(s: seq<K>, members: set<K>, at: nat, x: K)
    requires Lists(s, members) && at <= |s| && x !in members
    ensures Lists(s[..at] + [x] + s[at..], members + {x})
  {
    var t := s[..at] + [x] + s[at..];
    forall y | y in members + {x} ensures y in t {
      if y == x {
        assert t[at] == x;
      } else {
        var i :| 0 <= i < |s| && s[i] == y;
        assert t[if i < at then i else i + 1] == y;
      }
    }
  }

  /** The members of a set, which arrive in any order, sorted. */
  method Sort<K(==)>(members: set<K>, orders: map<K, Order>) returns (s: seq<K>)
    requires forall x | x in members :: x in orders
    ensures Lists(s, members) && Sorted(s, orders)
  {
    s := [];
    var rest := members;
    while rest != {}
      invariant rest <= members && Lists(s, members - rest) && Sorted(s, orders)
      decreases rest
    {
      var x :| x in rest;
      var at := 0;
      while at < |s| && !orders[x].Less(orders[s[at]])
        invariant 0 <= at <= |s| && forall i | 0 <= i < at :: !orders[x].Less(orders[s[i]])
      {
        at := at + 1;
      }
      InsertKeepsSorted(s, orders, at, x);
      InsertLists(s, members - rest, at, x);
      s := s[..at] + [x] + s[at..];
      assert members - (rest - {x}) == members - rest + {x};
      rest := rest - {x};
    }
  }

  lemma TailLists<K>(s: seq<K>, members: set<K>)
    requires Lists(s, members) && s != []
    ensures Lists(s[1..], members - {s[0]})
  {
    forall x | x in members - {s[0]} ensures x in s[1..] {
      var i :| 0 <= i < |s| && s[i] == x;
      assert s[1..][i - 1] == x;
    }
  }

  lemma {:induction false} ListsSize<K>(s: seq<K>, members: set<K>)
    requires Lists(s, members)
    ensures |s| == |members|
    decreases |s|
  {
    if s == [] {
      assert members == {};
    } else {
      TailLists(s, members);
      ListsSize(s[1..], members - {s[0]});
    }
  }

  /** Two sorted listings of the same members begin alike. */
  lemma SortedFirst<K>(s: seq<K>, t: seq<K>, members: set<K>, orders: map<K, Order>)
    requires forall x | x in members :: x in orders
    requires forall x, y | x in members && y in members && x != y :: orders[x] != orders[y]
    requires Lists(s, members) && Lists(t, members) && Sorted(s, orders) && Sorted(t, orders) && s != [] && t != []
    ensures s[0] == t[0]
  {
    assert s[0] in members && t[0] in members;
    var j :| 0 <= j < |t| && t[j] == s[0];
    var i :| 0 <= i < |s| && s[i] == t[0];
    Trichotomy(orders[s[0]], orders[t[0]]);
  }

  /** With pairwise different keys the sorted sequence does not depend on the order of arrival. */
  lemma {:induction false} SortedUnique<K>(s: seq<K>, t: seq<K>, members: set<K>, orders: map<K, Order>)
    requires forall x | x in members :: x in orders
    requires forall x, y | x in members && y in members && x != y :: orders[x] != orders[y]
    requires Lists(s, members) && Lists(t, members) && Sorted(s, orders) && Sorted(t, orders)
    ensures s == t
    decreases |s|
  {
    ListsSize(s, members);
    ListsSize(t, members);
    if s != [] {
      SortedFirst(s, t, members, orders);
      assert s[0] in members;
      TailLists(s, members);
      TailLists(t, members);
      TailSorted(s, orders);
      TailSorted(t, orders);
      hide Lists, Sorted;
      SortedUnique(s[1..], t[1..], members - {s[0]}, orders);
      assert s == [s[0]] + s[1..] && t == [t[0]] + t[1..];
    }
  }

  lemma TailSorted<K>(s: seq<K>, orders: map<K, Order>)
    requires s != [] && (forall i | 0 <= i < |s| :: s[i] in orders) && Sorted(s, orders)
    ensures (forall i | 0 <= i < |s[1..]| :: s[1..][i] in orders) && Sorted(s[1..], orders)
  {
  }
}
