/** The rules of the ledger one by one: which mutations are allowed and what they change, and the budgets. */
module LedgerRules {
  import opened Wrappers
  import opened Text
  import opened LedgerTables
  import opened LedgerValues
  import opened RevisionedLedger

  // ----- records -----

  /** A record is inserted without a number, or changed or deleted at the revision that it has. */
  lemma AllowedIff(records: map<Id, Record>, m: Mutation)
    ensures Allowed(records, m) <==>
      (m.number == 0 && !m.delete)
      || (m.number >= 1 && m.revision >= 1 && exists r: Record :: RecordAt(records, m.number, r) && r.revision == m.revision)
  {
    assert Id(m.number) in records ==> RecordAt(records, m.number, records[Id(m.number)]);
  }

  ghost predicate RecordAt(records: map<Id, Record>, number: nat, r: Record) {
    Id(number) in records && records[Id(number)] == r
  }

  /** A deletion takes this record away. Anything else puts one there, of the new revision and with the contents
      given; a new one gets the next number. No other record changes. */
  lemma OneRecordChanges(records: map<Id, Record>, last: nat, revision: nat, m: Mutation, number: nat)
    ensures var after := After(records, last, revision, m);
            var target := if m.number == 0 && !m.delete then last + 1 else m.number;
      && (number != target ==> forall r: Record :: RecordAt(after, number, r) <==> RecordAt(records, number, r))
      && (number == target && m.delete ==> forall r: Record :: !RecordAt(after, number, r))
      && (number == target && !m.delete ==> forall r: Record :: RecordAt(after, number, r) <==>
            r.revision == revision && r.head == m.head && r.identity == m.identity && r.payload == m.payload)
    ensures LastAfter(last, m) == if m.number == 0 then last + 1 else last
  {
  }

  // ----- derived state -----

  ghost predicate StateAt(states: map<string, State>, name: string, s: State) {
    name in states && states[name] == s
  }

  /** Revision 0 inserts a state that is not there; any other must be the one it has. */
  lemma StateAllowedIff(states: map<string, State>, m: StateMutation)
    ensures StateAllowed(states, m) <==>
      (m.revision == 0 && forall s: State :: !StateAt(states, m.name, s))
      || (m.revision != 0 && exists s: State :: StateAt(states, m.name, s) && s.revision == m.revision)
  {
    assert m.name in states ==> StateAt(states, m.name, states[m.name]);
  }

  lemma OneStateChanges(states: map<string, State>, revision: nat, m: StateMutation, name: string, s: State)
    ensures name != m.name ==> (StateAt(StateAfter(states, revision, m), name, s) <==> StateAt(states, name, s))
    ensures name == m.name ==>
      (StateAt(StateAfter(states, revision, m), name, s) <==> !m.delete && s.revision == revision && s.value == m.value)
  {
  }

  /** A state has a name that is not blank; its deletion names a revision and no value. */
  lemma StateWellFormedIff(m: StateMutation)
    ensures WellFormedState(m) <==> |TrimSpace(m.name)| > 0 && !(m.revision < 0) && (m.delete ==> m.revision >= 1 && |m.value| == 0)
  {
  }

  /** A cursor names its source and its fingerprint, and moves on if the batch changes records. */
  lemma CursorWellFormedIff(c: Cursor, mutated: bool)
    ensures WellFormedCursor(c, mutated) <==>
      && |c.source| > 0 && |c.fingerprint| > 0 && |c.source + c.fingerprint| <= 0x10_0000
      && c.expected >= 0 && c.next >= c.expected + if mutated then 1 else 0
  {
  }

  /** A source that is not known starts at the beginning, any other one where it stopped, if it is the same. */
  lemma CursorFitsIff(progress: map<string, Progress>, c: Cursor)
    ensures CursorFits(progress, c) <==>
      && (c.source !in progress ==> c.expected == 0)
      && (c.source in progress ==> progress[c.source].position == c.expected && progress[c.source].fingerprint == c.fingerprint)
  {
  }

  // ----- budgets -----

  /** Deletions are free. A record counts with its contents and its names, at most a mebibyte unless large ones
      are allowed; a batch may hold eight, or a single larger record where that is allowed. */
  lemma ChargedIff(m: Mutation, bytes: nat, single: bool, allowLarge: bool)
    ensures m.delete ==> Charged(m, bytes, single, allowLarge) == Some(bytes)
    ensures !m.delete ==>
      var names := |m.head.api| + |m.head.model| + |m.head.zone|;
      var size := |m.identity| + |m.payload| + names;
      && Charged(m, bytes, single, allowLarge).Some? ==
           (&& names <= 1_048_576 && (!allowLarge ==> size <= 1_048_576) && (!single ==> bytes < 8_388_608)
            && (bytes + size <= 8_388_608 || (allowLarge && single && size > 8_388_608)))
      && (Charged(m, bytes, single, allowLarge).Some? ==> Charged(m, bytes, single, allowLarge).value == bytes + size)
  {
  }

  /** A chunk holds 256 kibibytes, or what is left if that is less. */
  lemma ChunkSizeIs(left: int)
    ensures ChunkSize(left) <= left && ChunkSize(left) <= 262_144 && (ChunkSize(left) == left || ChunkSize(left) == 262_144)
  {
  }
}
