/** The ledger: batches of record mutations, derived state and migration progress that commit together or
    not at all. */
module RevisionedLedger {
  import opened Wrappers
  import opened Text
  import opened LedgerTables

  const BATCH_RECORDS := 256
  const BATCH_BYTES := 0x80_0000
  const RECORD_BYTES := 0x10_0000
  const MAX_GENERATION := 0x7fff_ffff_ffff_ffff

  // ----- removing what became unused -----

  predicate IdentityFree(t: Tables, i: Id) {
    forall r | r in t.records :: t.records[r].identity != i
  }

  predicate ValueFree(t: Tables, v: Id) {
    && (forall r | r in t.records :: t.records[r].payload != Spilled(v))
    && (forall i | i in t.identities :: t.identities[i] != Spilled(v))
  }

  lemma IdentityRemoved(t: Tables, i: Id, identities: set<Id>, values: set<Id>)
    requires Tidy(t, identities, values) && i in t.identities && IdentityFree(t, i)
    ensures Tidy(t.(identities := t.identities - {i}), identities - {i}, values + SpilledIn(t.identities[i]))
  {
    var u := t.(identities := t.identities - {i});
    forall j | j in u.identities && j !in identities - {i} ensures IdentityUsed(u, j) {
      assert IdentityUsed(t, j);
    }
    forall v | v in u.values && v !in values + SpilledIn(t.identities[i]) ensures ValueUsed(u, v) {
      assert ValueUsed(t, v);
      if r :| r in t.records && t.records[r].payload == Spilled(v) {
        assert u.records[r].payload == Spilled(v);
      } else {
        var j :| j in t.identities && t.identities[j] == Spilled(v);
        assert j != i && u.identities[j] == Spilled(v);
      }
    }
  }

  /** Removing what nobody uses changes no record. */
  lemma SameMeaning(t: Tables, u: Tables)
    requires Sound(t) && u.records == t.records && u.lastRecord == t.lastRecord
    requires u.lastIdentity == t.lastIdentity && u.lastValue == t.lastValue
    requires forall i :: i in u.identities ==> i in t.identities && u.identities[i] == t.identities[i]
    requires forall v :: v in u.values ==> v in t.values && u.values[v] == t.values[v]
    requires forall i | i in t.identities && i !in u.identities :: IdentityFree(t, i)
    requires forall v | v in t.values && v !in u.values :: ValueFree(t, v)
    ensures Linked(u) && Records(u) == Records(t)
  {
    forall r | r in t.records
      ensures t.records[r].identity in u.identities && Readable(u.values, t.records[r].payload, RequestKind)
      ensures Meaning(u, t.records[r]) == Meaning(t, t.records[r])
    {
      var i := t.records[r].identity;
      assert i in t.identities && !IdentityFree(t, i) && Readable(t.values, t.identities[i], IdentityKind);
    }
    forall i | i in u.identities ensures Readable(u.values, u.identities[i], IdentityKind) {
      assert Readable(t.values, t.identities[i], IdentityKind);
    }
  }

  lemma StillUnique(t: Tables, u: Tables)
    requires Unique(t) && u.records == t.records && u.lastRecord == t.lastRecord
    requires u.lastIdentity == t.lastIdentity && u.lastValue == t.lastValue
    requires forall i :: i in u.identities ==> i in t.identities && u.identities[i] == t.identities[i]
    requires forall v :: v in u.values ==> v in t.values && u.values[v] == t.values[v]
    ensures Unique(u)
  {
  }

  lemma IdentityStays(t: Tables, i: Id, identities: set<Id>, values: set<Id>)
    requires Tidy(t, identities, values) && (i in t.identities ==> !IdentityFree(t, i))
    ensures Tidy(t, identities - {i}, values)
  {
    forall j | j in t.identities && j !in identities - {i} ensures IdentityUsed(t, j) {
      if j == i {
        var r :| r in t.records && t.records[r].identity == i;
        assert IdentityUsed(t, i);
      }
    }
  }

  lemma ValueRemoved(t: Tables, v: Id, values: set<Id>)
    requires Tidy(t, {}, values)
    ensures Tidy(t.(values := t.values - {v}), {}, values - {v})
  {
    var u := t.(values := t.values - {v});
    forall i | i in u.identities ensures IdentityUsed(u, i) {
      assert IdentityUsed(t, i);
    }
    forall w | w in u.values && w !in values - {v} ensures ValueUsed(u, w) {
      assert ValueUsed(t, w);
    }
  }

  lemma ValueStays(t: Tables, v: Id, values: set<Id>)
    requires Tidy(t, {}, values) && (v in t.values ==> !ValueFree(t, v))
    ensures Tidy(t, {}, values - {v})
  {
    forall w | w in t.values && w !in values - {v} ensures ValueUsed(t, w) {
      if w == v {
        if r :| r in t.records && t.records[r].payload == Spilled(v) {
          assert ValueUsed(t, v);
        } else {
          var i :| i in t.identities && t.identities[i] == Spilled(v);
          assert ValueUsed(t, v);
        }
      }
    }
  }

  /** Only the candidates are looked at. The values of removed identities become candidates. */
  method SweepIdentities(t: Tables, candidates: set<Id>, values: set<Id>) returns (u: Tables, oldValues: set<Id>)
    requires Sound(t) && Tidy(t, candidates, values)
    ensures Sound(u) && Tidy(u, {}, oldValues) && Records(u) == Records(t) && u.lastRecord == t.lastRecord
  {
    hide Linked, Unique, Tidy, Records;
    u, oldValues := t, values;
    var rest := candidates;
    while rest != {}
      invariant Sound(u) && Tidy(u, rest, oldValues) && Records(u) == Records(t) && u.lastRecord == t.lastRecord
      decreases rest
    {
      var i :| i in rest;
      if i in u.identities && IdentityFree(u, i) {
        IdentityRemoved(u, i, rest, oldValues);
        SameMeaning(u, u.(identities := u.identities - {i}));
        StillUnique(u, u.(identities := u.identities - {i}));
        oldValues := oldValues + if u.identities[i].Spilled? then {u.identities[i].value} else {};
        u := u.(identities := u.identities - {i});
      } else {
        IdentityStays(u, i, rest, oldValues);
      }
      rest := rest - {i};
    }
  }

  method SweepValues(t: Tables, candidates: set<Id>) returns (u: Tables)
    requires Sound(t) && Tidy(t, {}, candidates)
    ensures Exact(u) && Records(u) == Records(t) && u.lastRecord == t.lastRecord
  {
    hide Linked, Unique, Tidy, Records;
    u := t;
    var rest := candidates;
    while rest != {}
      invariant Sound(u) && Tidy(u, {}, rest) && Records(u) == Records(t) && u.lastRecord == t.lastRecord
      decreases rest
    {
      var v :| v in rest;
      if v in u.values && ValueFree(u, v) {
        ValueRemoved(u, v, rest);
        SameMeaning(u, u.(values := u.values - {v}));
        StillUnique(u, u.(values := u.values - {v}));
        u := u.(values := u.values - {v});
      } else {
        ValueStays(u, v, rest);
      }
      rest := rest - {v};
    }
  }

  // ----- budgets -----

  function Size(m: Mutation): nat {
    |m.identity| + |m.payload| + |m.head.api| + |m.head.model| + |m.head.zone|
  }

  predicate TooLong(h: Head) {
    |h.api| + |h.model| + |h.zone| > RECORD_BYTES
  }

  /** The bytes of a batch after one more mutation, if that is within the budget. */
  function Charged(m: Mutation, bytes: nat, single: bool, allowLarge: bool): Option<nat> {
    if m.delete then Some(bytes)
    else if !single && bytes >= BATCH_BYTES then None
    else if TooLong(m.head) then None
    else if !allowLarge && Size(m) > RECORD_BYTES then None
    else if bytes + Size(m) > BATCH_BYTES && !(allowLarge && single && Size(m) > BATCH_BYTES) then None
    else Some(bytes + Size(m))
  }

  // ----- the meaning of a batch -----

  /** The records after the first `n` mutations, if each of them is allowed and affordable. */
  datatype Run = Run(records: map<Id, Record>, last: nat, bytes: nat)

  function RunOf(records: map<Id, Record>, last: nat, bytes: nat, revision: nat, ms: seq<Mutation>, allowLarge: bool,
                 n: nat): Option<Run>
    requires n <= |ms|
  {
    if n == 0 then Some(Run(records, last, bytes))
    else
      var before := RunOf(records, last, bytes, revision, ms, allowLarge, n - 1);
      if before == None || !Allowed(before.value.records, ms[n - 1])
         || Charged(ms[n - 1], before.value.bytes, |ms| == 1, allowLarge) == None then None
      else
        Some(Run(After(before.value.records, before.value.last, revision, ms[n - 1]), LastAfter(before.value.last, ms[n - 1]),
                 Charged(ms[n - 1], before.value.bytes, |ms| == 1, allowLarge).value))
  }

  lemma RunStops(records: map<Id, Record>, last: nat, bytes: nat, revision: nat, ms: seq<Mutation>, allowLarge: bool,
                 n: nat, m: nat)
    requires n <= m <= |ms| && RunOf(records, last, bytes, revision, ms, allowLarge, n) == None
    ensures RunOf(records, last, bytes, revision, ms, allowLarge, m) == None
    decreases m
  {
    if n < m {
      RunStops(records, last, bytes, revision, ms, allowLarge, n, m - 1);
    }
  }

  /** No record has names that a page cannot hold. */
  ghost predicate Short(records: map<Id, Record>) {
    forall id | id in records :: !TooLong(records[id].head)
  }

  lemma {:induction false} StaysShort(records: map<Id, Record>, last: nat, bytes: nat, revision: nat, ms: seq<Mutation>,
                                      allowLarge: bool, n: nat)
    requires n <= |ms| && Short(records) && RunOf(records, last, bytes, revision, ms, allowLarge, n).Some?
    ensures Short(RunOf(records, last, bytes, revision, ms, allowLarge, n).value.records)
  {
    hide TooLong;
    if n > 0 {
      StaysShort(records, last, bytes, revision, ms, allowLarge, n - 1);
    }
  }

  method MutateAll(t: Tables, revision: nat, ms: seq<Mutation>, bytes: nat, allowLarge: bool)
      returns (result: Result<seq<Id>>, u: Tables)
    requires Exact(t)
    ensures result.Ok? <==> RunOf(Records(t), t.lastRecord, bytes, revision, ms, allowLarge, |ms|).Some?
    ensures result.Ok? ==> Exact(u) && |result.value| == |ms|
    ensures result.Ok? ==> var run := RunOf(Records(t), t.lastRecord, bytes, revision, ms, allowLarge, |ms|).value;
                           Records(u) == run.records && u.lastRecord == run.last
  {
    hide Linked, Unique, Tidy, Records, Allowed, After, LastAfter, Charged;
    u := t;
    var ids: seq<Id>, identities: set<Id>, values: set<Id>, used := [], {}, {}, bytes;
    var n := 0;
    while n < |ms|
      invariant 0 <= n <= |ms| && |ids| == n && Sound(u) && Tidy(u, identities, values)
      invariant RunOf(Records(t), t.lastRecord, bytes, revision, ms, allowLarge, n) == Some(Run(Records(u), u.lastRecord, used))
    {
      var m := ms[n];
      ghost var next := RunOf(Records(t), t.lastRecord, bytes, revision, ms, allowLarge, n + 1);
      assert next.Some? <==> Allowed(Records(u), m) && Charged(m, used, |ms| == 1, allowLarge).Some?;
      var charged := Charged(m, used, |ms| == 1, allowLarge);
      var done, after, oldIdentities, oldValues := Mutate(u, revision, m, identities, values);
      if done.Err? || charged == None {
        RunStops(Records(t), t.lastRecord, bytes, revision, ms, allowLarge, n + 1, |ms|);
        return Err(if done.Err? then done.error else OverBudget), t;
      }
      u, identities, values, used, ids := after, oldIdentities, oldValues, charged.value, ids + [done.value];
      n := n + 1;
    }
    var swept, oldValues := SweepIdentities(u, identities, values);
    u := SweepValues(swept, oldValues);
    result := Ok(ids);
  }

  // ----- derived state and migration progress -----

  datatype State = State(revision: nat, value: string)

  /** Revision 0 only inserts; anything else is the revision that must be there. */
  datatype StateMutation = StateMutation(name: string, revision: int, value: string, delete: bool)

  datatype Progress = Progress(fingerprint: string, position: int)

  datatype Cursor = Cursor(source: string, fingerprint: string, expected: int, next: int)

  predicate WellFormedState(m: StateMutation) {
    TrimSpace(m.name) != "" && m.revision >= 0 && (m.delete ==> m.revision != 0 && m.value == "")
  }

  predicate StateAllowed(states: map<string, State>, m: StateMutation) {
    if m.revision == 0 then m.name !in states else m.name in states && states[m.name].revision == m.revision
  }

  function StateAfter(states: map<string, State>, revision: nat, m: StateMutation): map<string, State> {
    if m.delete then states - {m.name} else states[m.name := State(revision, m.value)]
  }

  function StatesRun(states: map<string, State>, revision: nat, ms: seq<StateMutation>, n: nat): Option<map<string, State>>
    requires n <= |ms|
  {
    if n == 0 then Some(states)
    else
      var before := StatesRun(states, revision, ms, n - 1);
      if before == None || !StateAllowed(before.value, ms[n - 1]) then None
      else Some(StateAfter(before.value, revision, ms[n - 1]))
  }

  function StateBytes(ms: seq<StateMutation>, n: nat): nat
    requires n <= |ms|
  {
    if n == 0 then 0 else StateBytes(ms, n - 1) + |ms[n - 1].name| + |ms[n - 1].value|
  }

  ghost predicate StateFits(ms: seq<StateMutation>, i: nat)
    requires i < |ms|
  {
    WellFormedState(ms[i]) && |ms[i].name| + |ms[i].value| <= RECORD_BYTES && StateBytes(ms, i + 1) <= BATCH_BYTES
    && forall j | 0 <= j < i :: ms[j].name != ms[i].name
  }

  /** State mutations are well formed, name no state twice and are within the budgets. */
  ghost predicate ValidStates(ms: seq<StateMutation>) {
    |ms| <= BATCH_RECORDS && forall i | 0 <= i < |ms| :: StateFits(ms, i)
  }

  method ValidateStates(ms: seq<StateMutation>) returns (result: Result<nat>)
    ensures result.Ok? <==> ValidStates(ms)
    ensures result.Ok? ==> result.value == StateBytes(ms, |ms|)
  {
    hide StateFits, WellFormedState;
    if |ms| > BATCH_RECORDS {
      return Err(OverBudget);
    }
    var seen: set<string>, bytes, n := {}, 0, 0;
    while n < |ms|
      invariant 0 <= n <= |ms| && bytes == StateBytes(ms, n) && seen == set j | 0 <= j < n :: ms[j].name
      invariant forall i | 0 <= i < n :: StateFits(ms, i)
    {
      var m, size := ms[n], |ms[n].name| + |ms[n].value|;
      FitsWhen(ms, n, seen);
      if !WellFormedState(m) || m.name in seen {
        return Err(Invalid);
      }
      bytes := bytes + size;
      if size > RECORD_BYTES || bytes > BATCH_BYTES {
        return Err(OverBudget);
      }
      seen := seen + {m.name};
      n := n + 1;
    }
    result := Ok(bytes);
  }

  lemma FitsWhen(ms: seq<StateMutation>, n: nat, seen: set<string>)
    requires n < |ms| && seen == set j | 0 <= j < n :: ms[j].name
    ensures StateFits(ms, n) <==>
      WellFormedState(ms[n]) && ms[n].name !in seen && |ms[n].name| + |ms[n].value| <= RECORD_BYTES
      && StateBytes(ms, n) + |ms[n].name| + |ms[n].value| <= BATCH_BYTES
  {
  }

  lemma StatesStop(states: map<string, State>, revision: nat, ms: seq<StateMutation>, n: nat, m: nat)
    requires n <= m <= |ms| && StatesRun(states, revision, ms, n) == None
    ensures StatesRun(states, revision, ms, m) == None
    decreases m
  {
    if n < m {
      StatesStop(states, revision, ms, n, m - 1);
    }
  }

  method ApplyStates(states: map<string, State>, revision: nat, ms: seq<StateMutation>) returns (after: Option<map<string, State>>)
    ensures after == StatesRun(states, revision, ms, |ms|)
  {
    hide StateAllowed, StateAfter;
    var now, n := states, 0;
    while n < |ms|
      invariant 0 <= n <= |ms| && StatesRun(states, revision, ms, n) == Some(now)
    {
      ghost var next := StatesRun(states, revision, ms, n + 1);
      if !StateAllowed(now, ms[n]) {
        StatesStop(states, revision, ms, n + 1, |ms|);
        return None;
      }
      now := StateAfter(now, revision, ms[n]);
      n := n + 1;
    }
    after := Some(now);
  }

  predicate WellFormedCursor(c: Cursor, mutated: bool) {
    c.source != "" && c.fingerprint != "" && 0 <= c.expected <= c.next && (mutated ==> c.next != c.expected)
    && |c.source| + |c.fingerprint| <= RECORD_BYTES
  }

  /** The cursor continues where the last batch of this source stopped. */
  predicate CursorFits(progress: map<string, Progress>, c: Cursor) {
    if c.source in progress then progress[c.source] == Progress(c.fingerprint, c.expected) else c.expected == 0
  }

  function Moved(progress: map<string, Progress>, c: Option<Cursor>): map<string, Progress> {
    if c == None then progress else progress[c.value.source := Progress(c.value.fingerprint, c.value.next)]
  }

  /** After a batch its source continues where the batch ended, and nowhere else; other sources stand where
      they stood. */
  lemma ContinuesAtNext(progress: map<string, Progress>, c: Cursor, d: Cursor)
    requires WellFormedCursor(c, false) && CursorFits(progress, c)
    ensures var after := Moved(progress, Some(c));
            && (d.source == c.source ==> (CursorFits(after, d) <==> d.fingerprint == c.fingerprint && d.expected == c.next))
            && (d.source != c.source ==> (CursorFits(after, d) <==> CursorFits(progress, d)))
    ensures Moved(progress, None) == progress
  {
  }

  /** A batch starts where its source stands, and at the beginning if the source is new; it never goes back. */
  lemma CursorMovesOn(c: Cursor, mutated: bool)
    requires WellFormedCursor(c, mutated)
    ensures 0 <= c.expected <= c.next && (mutated ==> c.expected < c.next)
  {
  }

  predicate CursorOk(progress: map<string, Progress>, c: Option<Cursor>, mutated: bool) {
    c.Some? ==> WellFormedCursor(c.value, mutated) && CursorFits(progress, c.value)
  }

  // ----- the ledger -----

  class RevisionedLedger {
    var generation: nat
    var tables: Tables
    var states: map<string, State>
    var progress: map<string, Progress>

    ghost predicate Valid()
      reads this
    {
      Exact(tables) && Short(Records(tables))
    }

    constructor ()
      ensures Valid() && generation == 0 && Records(tables) == map[] && states == map[] && progress == map[]
    {
      generation, states, progress := 0, map[], map[];
      tables := Tables(map[], map[], map[], 0, 0, 0);
    }

    /** Whether a batch can be committed. */
    ghost predicate Acceptable(ms: seq<Mutation>, ss: seq<StateMutation>, cursor: Option<Cursor>, allowLarge: bool)
      reads this
    {
      && |ms| <= BATCH_RECORDS && ValidStates(ss) && CursorOk(progress, cursor, ms != [])
      && ((ms == [] && ss == [] && cursor == None)
          || (generation < MAX_GENERATION && StatesRun(states, generation + 1, ss, |ss|).Some?
              && RunOf(Records(tables), tables.lastRecord, StateBytes(ss, |ss|), generation + 1, ms, allowLarge, |ms|).Some?))
    }

    /** A batch commits as a whole, in one new generation, or changes nothing. It fails just when a record
        or state is not at the revision named, the cursor does not continue the progress, or something is
        malformed or over budget. */
    method ApplyState(ms: seq<Mutation>, ss: seq<StateMutation>, cursor: Option<Cursor>, allowLarge: bool)
        returns (result: Result<seq<Id>>)
      requires Valid()
      modifies this
      ensures Valid()
      ensures result.Ok? <==> old(Acceptable(ms, ss, cursor, allowLarge))
      ensures result.Err? || (ms == [] && ss == [] && cursor == None) ==>
        generation == old(generation) && tables == old(tables) && states == old(states) && progress == old(progress)
      ensures result.Ok? && !(ms == [] && ss == [] && cursor == None) ==>
        && generation == old(generation) + 1
        && Some(states) == StatesRun(old(states), generation, ss, |ss|)
        && progress == Moved(old(progress), cursor)
        && var run := RunOf(Records(old(tables)), old(tables).lastRecord, StateBytes(ss, |ss|), generation, ms, allowLarge, |ms|);
           run.Some? && Records(tables) == run.value.records && tables.lastRecord == run.value.last
    {
      hide Exact, Short, Records, RunOf, StatesRun, StateBytes, ValidStates, WellFormedCursor, CursorFits;
      if |ms| > BATCH_RECORDS {
        return Err(OverBudget);
      }
      var stateBytes := ValidateStates(ss);
      if stateBytes.Err? {
        return Err(stateBytes.error);
      }
      if cursor.Some? {
        if !WellFormedCursor(cursor.value, ms != []) {
          return Err(Invalid);
        }
        if !CursorFits(progress, cursor.value) {
          return Err(Conflict);
        }
      }
      if ms == [] && ss == [] && cursor == None {
        return Ok([]);
      }
      if generation >= MAX_GENERATION {
        return Err(Invalid);
      }
      var applied := ApplyStates(states, generation + 1, ss);
      if applied == None {
        return Err(Conflict);
      }
      var mutated, after := MutateAll(tables, generation + 1, ms, stateBytes.value, allowLarge);
      if mutated.Err? {
        return mutated;
      }
      StaysShort(Records(tables), tables.lastRecord, stateBytes.value, generation + 1, ms, allowLarge, |ms|);
      generation, tables, states, progress := generation + 1, after, applied.value, Moved(progress, cursor);
      result := mutated;
    }
  }
}
