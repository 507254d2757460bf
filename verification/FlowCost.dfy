/** The lexicographic cost triples of the reconciliation flow: a stronger pairing first, then a
    closer completion time, then an earlier rank. With componentwise addition they form a totally
    ordered group, which is all the shortest-path argument needs. */
module FlowCost {

  datatype Cost = Cost(strength: int, distance: int, tie: int) {
    predicate IsFree() {
      strength == 0 && distance == 0 && tie == 0
    }

    // Add and Sub choose their result by its components: a constructor term in their bodies would
    // make the solver fold sums of literal costs without end.
    ghost function Add(other: Cost): Cost {
      Exists(strength + other.strength, distance + other.distance, tie + other.tie);
      var sum: Cost :|
        && sum.strength == strength + other.strength && sum.distance == distance + other.distance
        && sum.tie == tie + other.tie;
      sum
    }

    ghost function Sub(other: Cost): Cost {
      Exists(strength - other.strength, distance - other.distance, tie - other.tie);
      var difference: Cost :|
        && difference.strength == strength - other.strength && difference.distance == distance - other.distance
        && difference.tie == tie - other.tie;
      difference
    }

    predicate Less(other: Cost) {
      if strength != other.strength then strength < other.strength
      else if distance != other.distance then distance < other.distance
      else tie < other.tie
    }

    predicate AtMost(other: Cost) {
      !other.Less(this)
    }
  }

  lemma Exists(strength: int, distance: int, tie: int)
    ensures exists c: Cost :: c.strength == strength && c.distance == distance && c.tie == tie
  {
    assert Cost(strength, distance, tie).tie == tie;
  }

  /** k copies of c. */
  ghost function Times(k: nat, c: Cost): Cost {
    if k == 0 then Cost(0, 0, 0) else c.Add(Times(k - 1, c))
  }

  /** The sum of the first k costs. */
  ghost function Sum(costs: seq<Cost>, k: nat): Cost
    requires k <= |costs|
  {
    if k == 0 then Cost(0, 0, 0) else Sum(costs, k - 1).Add(costs[k - 1])
  }

  lemma {:induction false} SumMonotone(a: seq<Cost>, b: seq<Cost>, k: nat)
    requires k <= |a| == |b|
    requires forall i | 0 <= i < k :: a[i].AtMost(b[i])
    ensures Sum(a, k).AtMost(Sum(b, k))
  {
    if k > 0 {
      SumMonotone(a, b, k - 1);
      assert a[k - 1].AtMost(b[k - 1]);
    }
  }

  lemma {:induction false} SumOfSums(a: seq<Cost>, b: seq<Cost>, c: seq<Cost>, k: nat)
    requires k <= |a| == |b| == |c|
    requires forall i | 0 <= i < k :: c[i] == a[i].Add(b[i])
    ensures Sum(c, k) == Sum(a, k).Add(Sum(b, k))
  {
    if k > 0 {
      SumOfSums(a, b, c, k - 1);
    }
  }

  lemma {:induction false} SumUpdate(costs: seq<Cost>, i: nat, c: Cost, k: nat)
    requires i < |costs| && k <= |costs|
    ensures Sum(costs[i := c], k) == if i < k then Sum(costs, k).Sub(costs[i]).Add(c) else Sum(costs, k)
  {
    if k > 0 {
      SumUpdate(costs, i, c, k - 1);
    }
  }

  lemma {:induction false} SumOfFree(costs: seq<Cost>, k: nat)
    requires k <= |costs|
    requires forall i | 0 <= i < k :: costs[i].strength == costs[i].distance == costs[i].tie == 0
    ensures Sum(costs, k).strength == Sum(costs, k).distance == Sum(costs, k).tie == 0
  {
    if k > 0 {
      SumOfFree(costs, k - 1);
    }
  }

  /** Every finite set of costs lies between two costs. */
  lemma {:induction false} Bounds(costs: set<Cost>) returns (low: Cost, high: Cost)
    ensures low.AtMost(Cost(0, 0, 0)) && Cost(0, 0, 0).AtMost(high)
    ensures forall c | c in costs :: low.AtMost(c) && c.AtMost(high)
  {
    if costs == {} {
      low, high := Cost(0, 0, 0), Cost(0, 0, 0);
    } else {
      var c :| c in costs;
      var l, h := Bounds(costs - {c});
      low := if c.Less(l) then c else l;
      high := if h.Less(c) then c else h;
      forall d | d in costs ensures low.AtMost(d) && d.AtMost(high) {
        if d != c { assert d in costs - {c}; }
      }
    }
  }
}
