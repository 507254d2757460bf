/** The tables of the revisioned ledger. Records share identities, and records and identities share large
    values; what nobody uses any more is removed with the batch that let go of it. */
module LedgerTables {
  import opened Wrappers

  const INLINE_VALUE_BYTES := 0x1_0000

  datatype Id = Id(number: nat)

  datatype Kind = IdentityKind | RequestKind

  /** Bytes that are stored in the row itself, or a reference to a large value. */
  datatype Payload = Inline(bytes: string) | Spilled(value: Id)

  datatype Value = Value(kind: Kind, bytes: string)

  /** The columns that no other table depends on. */
  datatype Head = Head(api: string, model: string, zone: string, time: int, archived: bool)

  datatype Row = Row(revision: nat, head: Head, identity: Id, payload: Payload)

  datatype Tables = Tables(records: map<Id, Row>, identities: map<Id, Payload>, values: map<Id, Value>,
                           lastRecord: nat, lastIdentity: nat, lastValue: nat)

  // ----- what the tables mean -----

  datatype Record = Record(revision: nat, head: Head, identity: string, payload: string)

  predicate Readable(values: map<Id, Value>, p: Payload, kind: Kind) {
    match p
    case Inline(bytes) => |bytes| <= INLINE_VALUE_BYTES
    case Spilled(v) => v in values && values[v].kind == kind && |values[v].bytes| > INLINE_VALUE_BYTES
  }

  function Bytes(values: map<Id, Value>, p: Payload): string {
    match p
    case Inline(bytes) => bytes
    case Spilled(v) => if v in values then values[v].bytes else ""
  }

  /** Every reference leads somewhere. */
  ghost predicate Linked(t: Tables) {
    && (forall r | r in t.records :: t.records[r].identity in t.identities && Readable(t.values, t.records[r].payload, RequestKind))
    && (forall i | i in t.identities :: Readable(t.values, t.identities[i], IdentityKind))
  }

  /** Numbers are not given twice, and equal contents are stored once. */
  ghost predicate Unique(t: Tables) {
    && (forall r | r in t.records :: 0 < r.number <= t.lastRecord)
    && (forall i | i in t.identities :: 0 < i.number <= t.lastIdentity)
    && (forall v | v in t.values :: 0 < v.number <= t.lastValue)
    && (forall i, j | i in t.identities && j in t.identities && i != j :: t.identities[i] != t.identities[j])
    && (forall v, w | v in t.values && w in t.values && v != w :: t.values[v] != t.values[w])
  }

  ghost predicate IdentityUsed(t: Tables, i: Id) {
    exists r :: r in t.records && t.records[r].identity == i
  }

  ghost predicate ValueUsed(t: Tables, v: Id) {
    (exists r :: r in t.records && t.records[r].payload == Spilled(v))
    || (exists i :: i in t.identities && t.identities[i] == Spilled(v))
  }

  /** What nobody uses is among the candidates for removal. */
  ghost predicate Tidy(t: Tables, identities: set<Id>, values: set<Id>) {
    && (forall i | i in t.identities && i !in identities :: IdentityUsed(t, i))
    && (forall v | v in t.values && v !in values :: ValueUsed(t, v))
  }

  ghost predicate Sound(t: Tables) {
    Linked(t) && Unique(t)
  }

  /** The identity table holds just the identities that some record uses, and the value table just the
      values that some record or identity uses. */
  ghost predicate Exact(t: Tables) {
    Sound(t) && Tidy(t, {}, {})
  }

  function Meaning(t: Tables, row: Row): Record {
    Record(row.revision, row.head, if row.identity in t.identities then Bytes(t.values, t.identities[row.identity]) else "",
           Bytes(t.values, row.payload))
  }

  /** The records, with their contents. */
  function Records(t: Tables): map<Id, Record> {
    map r | r in t.records :: Meaning(t, t.records[r])
  }

  // ----- storing contents -----

  /** Nothing that was there changes. */
  ghost predicate Grows(t: Tables, u: Tables) {
    && u.records == t.records && u.lastRecord == t.lastRecord
    && (forall i | i in t.identities :: i in u.identities && u.identities[i] == t.identities[i])
    && (forall v | v in t.values :: v in u.values && u.values[v] == t.values[v])
  }

  lemma GrownMeans(t: Tables, u: Tables)
    requires Linked(t) && Grows(t, u)
    ensures Records(u) == Records(t)
  {
    forall r | r in t.records ensures Meaning(u, t.records[r]) == Meaning(t, t.records[r]) {
      assert Readable(t.values, t.identities[t.records[r].identity], IdentityKind);
    }
  }

  /** Small contents stay inline; equal large ones are shared. */
  method StoreValue(t: Tables, kind: Kind, raw: string) returns (u: Tables, p: Payload)
    requires Sound(t)
    ensures Sound(u) && Grows(t, u) && u.identities == t.identities && u.lastIdentity == t.lastIdentity
    ensures Readable(u.values, p, kind) && Bytes(u.values, p) == raw
    ensures forall v | v in u.values && v !in t.values :: p == Spilled(v)
  {
    if |raw| <= INLINE_VALUE_BYTES {
      return t, Inline(raw);
    }
    var found := FindValue(t.values, Value(kind, raw));
    if found.Some? {
      return t, Spilled(found.value);
    }
    var v := Id(t.lastValue + 1);
    u := t.(values := t.values[v := Value(kind, raw)], lastValue := t.lastValue + 1);
    p := Spilled(v);
  }

  /** Looks for a large value with the same bytes. */
  method FindValue(values: map<Id, Value>, value: Value) returns (found: Option<Id>)
    ensures found.Some? ==> found.value in values && values[found.value] == value
    ensures found == None ==> forall v | v in values :: values[v] != value
  {
    var rest := values.Keys;
    while rest != {}
      invariant rest <= values.Keys && forall v | v in values && v !in rest :: values[v] != value
      decreases rest
    {
      var v :| v in rest;
      if values[v] == value {
        return Some(v);
      }
      rest := rest - {v};
    }
    found := None;
  }

  method FindIdentity(identities: map<Id, Payload>, p: Payload) returns (found: Option<Id>)
    ensures found.Some? ==> found.value in identities && identities[found.value] == p
    ensures found == None ==> forall i | i in identities :: identities[i] != p
  {
    var rest := identities.Keys;
    while rest != {}
      invariant rest <= identities.Keys && forall i | i in identities && i !in rest :: identities[i] != p
      decreases rest
    {
      var i :| i in rest;
      if identities[i] == p {
        return Some(i);
      }
      rest := rest - {i};
    }
    found := None;
  }

  /** The identity with these bytes, which may be new. */
  method StoreIdentity(t: Tables, p: Payload) returns (u: Tables, id: Id)
    requires Sound(t) && Readable(t.values, p, IdentityKind)
    ensures Sound(u) && Grows(t, u) && u.values == t.values && id in u.identities && u.identities[id] == p
    ensures forall i | i in u.identities && i !in t.identities :: i == id
  {
    var found := FindIdentity(t.identities, p);
    if found.Some? {
      return t, found.value;
    }
    id := Id(t.lastIdentity + 1);
    u := t.(identities := t.identities[id := p], lastIdentity := t.lastIdentity + 1);
  }

  // ----- one mutation -----

  /** Number 0 asks for a new record; anything else names a record and the revision it must have. */
  datatype Mutation = Mutation(number: nat, revision: int, delete: bool, head: Head, identity: string, payload: string)

  predicate Allowed(records: map<Id, Record>, m: Mutation) {
    if m.number == 0 then !m.delete
    else m.revision > 0 && Id(m.number) in records && records[Id(m.number)].revision == m.revision
  }

  /** What a mutation means for the plain records. */
  function After(records: map<Id, Record>, last: nat, revision: nat, m: Mutation): map<Id, Record> {
    if m.delete then records - {Id(m.number)}
    else records[Id(if m.number == 0 then last + 1 else m.number) := Record(revision, m.head, m.identity, m.payload)]
  }

  function LastAfter(last: nat, m: Mutation): nat {
    if m.number == 0 then last + 1 else last
  }

  ghost function SpilledIn(p: Payload): set<Id> {
    if p.Spilled? then {p.value} else {}
  }

  lemma GrownTidy(t: Tables, u: Tables, identities: set<Id>, values: set<Id>, newIdentities: set<Id>, newValues: set<Id>)
    requires Linked(t) && Grows(t, u) && Tidy(t, identities, values)
    requires forall i | i in u.identities && i !in t.identities :: i in newIdentities
    requires forall v | v in u.values && v !in t.values :: v in newValues
    ensures Tidy(u, identities + newIdentities, values + newValues)
  {
    forall i | i in u.identities && i !in identities + newIdentities ensures IdentityUsed(u, i) {
      assert IdentityUsed(t, i);
    }
    forall v | v in u.values && v !in values + newValues ensures ValueUsed(u, v) {
      assert ValueUsed(t, v);
      if r :| r in t.records && t.records[r].payload == Spilled(v) {
        assert u.records[r].payload == Spilled(v);
      } else {
        var i :| i in t.identities && t.identities[i] == Spilled(v);
        assert u.identities[i] == Spilled(v);
      }
    }
  }

  /** What was stored for a row is used once the row is there. What the row used before becomes a candidate. */
  lemma WrittenTidy(t: Tables, u: Tables, id: Id, row: Row, identities: set<Id>, values: set<Id>)
    requires row.identity in t.identities && u == t.(records := t.records[id := row], lastRecord := u.lastRecord)
    requires Tidy(t, identities + {row.identity}, values + SpilledIn(t.identities[row.identity]) + SpilledIn(row.payload))
    requires id in t.records ==> t.records[id].identity in identities && SpilledIn(t.records[id].payload) <= values
    ensures Tidy(u, identities, values)
  {
    forall i | i in u.identities && i !in identities ensures IdentityUsed(u, i) {
      if i == row.identity {
        assert u.records[id].identity == i;
      } else {
        var r :| r in t.records && t.records[r].identity == i;
        assert r != id && u.records[r].identity == i;
      }
    }
    forall v | v in u.values && v !in values ensures ValueUsed(u, v) {
      WrittenUses(t, u, id, row, values, v);
    }
  }

  lemma WrittenUses(t: Tables, u: Tables, id: Id, row: Row, values: set<Id>, v: Id)
    requires row.identity in t.identities && u == t.(records := t.records[id := row], lastRecord := u.lastRecord)
    requires v in SpilledIn(t.identities[row.identity]) || v in SpilledIn(row.payload) || ValueUsed(t, v)
    requires id in t.records ==> SpilledIn(t.records[id].payload) <= values
    requires v !in values
    ensures ValueUsed(u, v)
  {
    if v in SpilledIn(row.payload) {
      assert u.records[id].payload == Spilled(v);
    } else if v in SpilledIn(t.identities[row.identity]) {
      assert u.identities[row.identity] == Spilled(v);
    } else if r :| r in t.records && t.records[r].payload == Spilled(v) {
      assert r != id && u.records[r].payload == Spilled(v);
    } else {
      var i :| i in t.identities && t.identities[i] == Spilled(v);
      assert u.identities[i] == Spilled(v);
    }
  }

  lemma DeletedTidy(t: Tables, id: Id, identities: set<Id>, values: set<Id>)
    requires Tidy(t, identities, values) && id in t.records
    requires t.records[id].identity in identities && SpilledIn(t.records[id].payload) <= values
    ensures Tidy(t.(records := t.records - {id}), identities, values)
  {
    var u := t.(records := t.records - {id});
    forall i | i in u.identities && i !in identities ensures IdentityUsed(u, i) {
      var r :| r in t.records && t.records[r].identity == i;
      assert r != id && u.records[r].identity == i;
    }
    forall v | v in u.values && v !in values ensures ValueUsed(u, v) {
      assert ValueUsed(t, v);
      if r :| r in t.records && t.records[r].payload == Spilled(v) {
        assert r != id && u.records[r].payload == Spilled(v);
      } else {
        var i :| i in t.identities && t.identities[i] == Spilled(v);
        assert u.identities[i] == Spilled(v);
      }
    }
  }

  lemma MoreCandidates(t: Tables, identities: set<Id>, values: set<Id>, moreIdentities: set<Id>, moreValues: set<Id>)
    requires Tidy(t, identities, values) && identities <= moreIdentities && values <= moreValues
    ensures Tidy(t, moreIdentities, moreValues)
  {
  }

  lemma StillReadable(t: Tables, u: Tables, p: Payload, kind: Kind)
    requires Grows(t, u) && Readable(t.values, p, kind)
    ensures Readable(u.values, p, kind) && Bytes(u.values, p) == Bytes(t.values, p)
  {
  }

  lemma GrowsOn(t: Tables, u: Tables, v: Tables)
    requires Grows(t, u) && Grows(u, v)
    ensures Grows(t, v)
  {
  }

  lemma RowSound(t: Tables, u: Tables, id: Id, row: Row)
    requires Sound(t) && row.identity in t.identities && Readable(t.values, row.payload, RequestKind)
    requires u == t.(records := t.records[id := row], lastRecord := u.lastRecord) && 0 < id.number <= u.lastRecord
    requires t.lastRecord <= u.lastRecord
    ensures Sound(u)
  {
  }

  lemma SameMeaning(c: Tables, u: Tables)
    requires u == c.(records := u.records, lastRecord := u.lastRecord)
    ensures forall row :: Meaning(u, row) == Meaning(c, row)
  {
  }

  lemma RowMeans(t: Tables, c: Tables, u: Tables, id: Id, row: Row)
    requires Linked(t) && Grows(t, c) && u == c.(records := c.records[id := row], lastRecord := u.lastRecord)
    ensures Records(u) == Records(t)[id := Meaning(c, row)]
  {
    GrownMeans(t, c);
    SameMeaning(c, u);
  }

  /** Stores both contents of a record. */
  method StoreBoth(t: Tables, m: Mutation, ghost identities: set<Id>, ghost values: set<Id>)
      returns (c: Tables, identity: Id, payload: Payload)
    requires Sound(t) && Tidy(t, identities, values)
    ensures Sound(c) && Grows(t, c) && identity in c.identities
    ensures Tidy(c, identities + {identity}, values + SpilledIn(c.identities[identity]) + SpilledIn(payload))
    ensures Readable(c.values, payload, RequestKind)
    ensures Bytes(c.values, c.identities[identity]) == m.identity && Bytes(c.values, payload) == m.payload
  {
    hide Linked, Unique, Tidy, Grows, Readable, Bytes;
    var a, identityBytes := StoreValue(t, IdentityKind, m.identity);
    StoredTidy(t, a, identities, values, identityBytes);
    var b;
    b, payload := StoreValue(a, RequestKind, m.payload);
    StillReadable(a, b, identityBytes, IdentityKind);
    StoredTidy(a, b, identities, values + SpilledIn(identityBytes), payload);
    c, identity := StoreIdentity(b, identityBytes);
    StillReadable(b, c, payload, RequestKind);
    StillReadable(b, c, identityBytes, IdentityKind);
    GrowsOn(t, a, b);
    GrowsOn(t, b, c);
    IdentifiedTidy(b, c, identities, values + SpilledIn(identityBytes) + SpilledIn(payload), identity);
  }

  lemma StoredTidy(t: Tables, u: Tables, identities: set<Id>, values: set<Id>, p: Payload)
    requires Linked(t) && Grows(t, u) && Tidy(t, identities, values) && u.identities == t.identities
    requires forall v | v in u.values && v !in t.values :: p == Spilled(v)
    ensures Tidy(u, identities, values + SpilledIn(p))
  {
    GrownTidy(t, u, identities, values, {}, SpilledIn(p));
    assert identities + {} == identities;
  }

  lemma IdentifiedTidy(t: Tables, u: Tables, identities: set<Id>, values: set<Id>, i: Id)
    requires Linked(t) && Grows(t, u) && Tidy(t, identities, values) && u.values == t.values
    requires forall j | j in u.identities && j !in t.identities :: j == i
    ensures Tidy(u, identities + {i}, values)
  {
    GrownTidy(t, u, identities, values, {i}, {});
    assert values + {} == values;
  }

  /** Writes a row for the contents given. */
  method WriteRow(t: Tables, id: Id, last: nat, revision: nat, m: Mutation, ghost identities: set<Id>, ghost values: set<Id>)
      returns (u: Tables)
    requires Sound(t) && Tidy(t, identities, values) && 0 < id.number <= last && t.lastRecord <= last
    requires id in t.records ==> t.records[id].identity in identities && SpilledIn(t.records[id].payload) <= values
    ensures Sound(u) && Tidy(u, identities, values) && u.lastRecord == last
    ensures Records(u) == Records(t)[id := Record(revision, m.head, m.identity, m.payload)]
  {
    var c, identity, payload := StoreBoth(t, m, identities, values);
    assert c.records == t.records && c.lastRecord == t.lastRecord;
    hide Linked, Unique, Tidy, Grows, Readable, Bytes, Records;
    var row := Row(revision, m.head, identity, payload);
    u := c.(records := c.records[id := row], lastRecord := last);
    RowSound(c, u, id, row);
    WrittenTidy(c, u, id, row, identities, values);
    RowMeans(t, c, u, id, row);
  }

  datatype Error = Conflict | Invalid | OverBudget

  datatype Result<T> = Ok(value: T) | Err(error: Error)

  /** One mutation inside a batch. The identity and the value that a record had become candidates. */
  method Mutate(t: Tables, revision: nat, m: Mutation, identities: set<Id>, values: set<Id>)
      returns (result: Result<Id>, u: Tables, oldIdentities: set<Id>, oldValues: set<Id>)
    requires Sound(t) && Tidy(t, identities, values)
    ensures result.Ok? <==> Allowed(Records(t), m)
    ensures result.Ok? ==>
      && Sound(u) && Tidy(u, oldIdentities, oldValues) && u.lastRecord == LastAfter(t.lastRecord, m)
      && Records(u) == After(Records(t), t.lastRecord, revision, m)
      && result.value == Id(if m.number == 0 then t.lastRecord + 1 else m.number)
    ensures result.Err? ==> result.error == if (m.number == 0 && m.delete) || (m.number != 0 && m.revision <= 0) then Invalid else Conflict
  {
    hide Linked, Unique, Tidy;
    u, oldIdentities, oldValues := t, identities, values;
    if (m.number == 0 && m.delete) || (m.number != 0 && m.revision <= 0) {
      return Err(Invalid), t, identities, values;
    }
    var id, last := Id(if m.number == 0 then t.lastRecord + 1 else m.number), LastAfter(t.lastRecord, m);
    if m.number != 0 {
      if id !in t.records || t.records[id].revision != m.revision {
        return Err(Conflict), t, identities, values;
      }
      oldIdentities := identities + {t.records[id].identity};
      oldValues := values + if t.records[id].payload.Spilled? then {t.records[id].payload.value} else {};
      MoreCandidates(t, identities, values, oldIdentities, oldValues);
    }
    NumbersFit(t, id, m);
    if m.delete {
      DeletedTidy(t, id, oldIdentities, oldValues);
      DeletedSound(t, id);
      u := t.(records := t.records - {id});
    } else {
      u := WriteRow(t, id, last, revision, m, oldIdentities, oldValues);
    }
    result := Ok(id);
  }

  lemma NumbersFit(t: Tables, id: Id, m: Mutation)
    requires Unique(t) && id == Id(if m.number == 0 then t.lastRecord + 1 else m.number)
    ensures m.number == 0 ==> id !in t.records
    ensures id in t.records ==> 0 < id.number <= t.lastRecord
  {
  }

  lemma DeletedSound(t: Tables, id: Id)
    requires Sound(t)
    ensures Sound(t.(records := t.records - {id})) && Records(t.(records := t.records - {id})) == Records(t) - {id}
  {
  }
}
