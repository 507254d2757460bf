/** Projecting a source in committed batches. A run may stop anywhere; the next one reads the source
    again, skips the events that are committed, and goes on from the saved stack. */
module ProjectionResume {
  import opened Wrappers
  import opened SnapshotDocument
  import opened ProjectionGraph
  import opened ProjectionBuilder
  import opened ProjectionMeaning

  const BATCH_EVENTS := 256
  const BATCH_BYTES := 0x20_0000

  /** A root without members, nothing being open. */
  ghost predicate FreshRoot(s: State) {
    && WellFormed(s.g) && s.frames == [] && s.root in s.g.rows && FieldsAt(s.g, s.root) == map[]
    && s.g.rows[s.root].kind == ObjectKind && s.g.rows[s.root].scope == Snapshot
  }

  /** Tables with a new root. The rows of an abandoned root are left out: nothing leads to them. */
  function NewRoot(next: nat): State {
    State(Id(next), Graph(next + 1, map[Id(next) := Row(ObjectKind, Snapshot, 0, map[], [], NoHome, 0)]), [])
  }

  lemma NewRootIsFresh(next: nat)
    ensures FreshRoot(NewRoot(next))
  {
    var s := NewRoot(next);
    assert RowOk(s.g, s.root);
    NoFields(s.g, s.root);
  }

  function BytesOf(item: Item): nat {
    (if item.Text? then |item.raw.text| else 0)
    + (if item.path == [] then 0 else var name := item.path[|item.path| - 1]; if name.Key? then |name.key| else 1)
  }

  datatype Outcome = Done | Stopped | Failed

  /** What is committed, and what a run builds on it before the next commit. */
  class Projection {
    // committed
    var state: State
    var events: nat
    var prefix: seq<Item>
    var complete: bool
    // where the committed events were applied from
    ghost var start: State

    /** The committed tables are those that the committed events give, each applied once. */
    ghost predicate Consistent()
      reads this
    {
      FreshRoot(start) && events == |prefix| && ApplyAll(start, prefix) == Some(state)
    }

    constructor ()
      ensures Consistent() && events == 0 && !complete
    {
      NewRootIsFresh(1);
      state, events, prefix, complete, start := NewRoot(1), 0, [], false, NewRoot(1);
    }

    method Restart()
      requires Consistent() && !complete
      modifies this
      ensures Consistent() && !complete && events == 0
    {
      NewRootIsFresh(state.g.next);
      state := NewRoot(state.g.next);
      start := state;
      events, prefix := 0, [];
    }

    method Commit(next: State, items: seq<Item>, n: nat, last: bool)
      requires FreshRoot(start) && n <= |items| && ApplyAll(start, items[..n]) == Some(next)
      modifies this`state, this`events, this`prefix, this`complete
      ensures Consistent() && prefix == items[..n] && events == n && complete == last && state == next
    {
      state, events, prefix, complete := next, n, items[..n], last;
    }

    /** Reads the source from the beginning, at most `limit` events of it, and commits by batches. At its end
        the source may turn out to have a header that is not accepted; then the last batch is not committed. A run
        that is stopped leaves fewer than 256 events uncommitted. */
    method Run(items: seq<Item>, accepted: bool, limit: nat, canRestart: bool) returns (outcome: Outcome)
      requires Consistent() && !complete
      modifies this
      ensures Consistent() && (complete <==> outcome == Done) && (complete ==> prefix == items && accepted)
      ensures limit > |items| && (canRestart || old(events) == 0) && Applicable(items) ==>
        (outcome == Done <==> old(events) <= |items| && accepted)
      ensures old(events) <= |items| ==> events <= |items|
      ensures outcome == Stopped ==> limit <= |items|
      ensures outcome == Stopped && old(prefix) <= items && old(events) <= limit ==> old(events) <= events <= limit < events + 256
      decreases canRestart
    {
      if 0 < events <= |items| && events <= limit && prefix != items[..events] {
        // The prefix that was committed is not that of the source.
        if !canRestart {
          return Failed;
        }
        Restart();
        outcome := Run(items, accepted, limit, false);
        return;
      }
      outcome := Continue(items, accepted, limit);
    }

    method Continue(items: seq<Item>, accepted: bool, limit: nat) returns (outcome: Outcome)
      requires Consistent() && !complete && (events <= |items| && events <= limit ==> prefix == items[..events])
      modifies this
      ensures Consistent() && (complete <==> outcome == Done) && (complete ==> prefix == items && accepted)
      ensures limit > |items| && Applicable(items) ==> (outcome == Done <==> old(events) <= |items| && accepted)
      ensures old(events) <= |items| ==> events <= |items|
      ensures outcome == Stopped ==> limit <= |items|
      ensures outcome == Stopped && old(events) <= limit ==> old(events) <= events <= limit < events + 256
    {
      if limit < events && limit <= |items| {
        return Stopped;
      }
      if events > |items| {
        return if limit <= |items| then Stopped else Failed;
      }
      var skipped := events;
      var next, pending, bytes := state, 0, 0;
      var scanned := skipped;
      while scanned < |items|
        invariant skipped <= scanned <= |items| && events <= |items| && Consistent() && !complete
        invariant ApplyAll(start, items[..scanned]) == Some(next) && scanned <= limit
        invariant skipped <= events && pending == scanned - events < 256
      {
        if scanned == limit {
          return Stopped;
        }
        assert items[..scanned + 1] == items[..scanned] + [items[scanned]];
        ApplyConcat(start, items[..scanned], [items[scanned]]);
        ApplyOne(next, items[scanned]);
        var applied := Apply(next, items[scanned]);
        if applied == None {
          NotApplicable(start, items, scanned);
          return Failed;
        }
        next := applied.value;
        scanned := scanned + 1;
        pending, bytes := pending + 1, bytes + BytesOf(items[scanned - 1]);
        if pending >= BATCH_EVENTS || bytes >= BATCH_BYTES {
          Commit(next, items, scanned, false);
          pending, bytes := 0, 0;
        }
      }
      assert items[..scanned] == items;
      if scanned == limit {
        return Stopped;
      }
      if !accepted || next.frames != [] {
        return Failed;
      }
      Commit(next, items, scanned, true);
      return Done;
    }
  }

  /** The events can be applied from any fresh root, and close what they open. */
  ghost predicate Applicable(items: seq<Item>) {
    forall s | FreshRoot(s) :: ApplyAll(s, items).Some? && ApplyAll(s, items).value.frames == []
  }

  lemma NotApplicable(start: State, items: seq<Item>, n: nat)
    requires FreshRoot(start) && n < |items| && ApplyAll(start, items[..n + 1]) == None
    ensures !Applicable(items)
  {
    assert items == items[..n + 1] + items[n + 1..];
    ApplyConcat(start, items[..n + 1], items[n + 1..]);
  }

  lemma DocumentsApply(d: Document)
    requires Fits(Child(ObjectShape, Snapshot), d)
    ensures Applicable(DocumentEvents(d))
  {
    forall s | FreshRoot(s) ensures ApplyAll(s, DocumentEvents(d)).Some? && ApplyAll(s, DocumentEvents(d)).value.frames == [] {
      ProjectionIsDecoding(s, d);
    }
  }

  /** However often a projection is interrupted, and wherever, one run that reaches the end of the
      source leaves exactly what one uninterrupted run leaves: the document's value if its header is
      accepted, and else no complete projection. */
  method RunUntilDone(p: Projection, items: seq<Item>, accepted: bool, ghost d: Document, limits: seq<nat>)
    requires p.Consistent() && !p.complete && Fits(Child(ObjectShape, Snapshot), d)
    requires items == DocumentEvents(d) && p.events <= |items|
    modifies p
    ensures p.Consistent() && (p.complete <==> accepted)
    ensures p.complete ==> p.prefix == items && StandsFor(p.state, d)
  {
    DocumentsApply(d);
    var i := 0;
    while i < |limits| && !p.complete
      invariant 0 <= i <= |limits| && p.Consistent() && (p.complete ==> p.prefix == items && accepted) && p.events <= |items|
    {
      var _ := p.Run(items, accepted, limits[i], true);
      i := i + 1;
    }
    if !p.complete {
      var _ := p.Run(items, accepted, |items| + 1, true);
    }
    ProjectionIsDecoding(p.start, d);
  }
}
