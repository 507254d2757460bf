/** Reading the ledger page by page within one read view. The cursor is the key of the last record, not a
    number of rows. */
module LedgerPages {
  import opened Wrappers
  import opened StableOrder
  import opened LedgerTables
  import opened RevisionedLedger

  const PAGE_RECORDS := 512

  // The time of a record without a timestamp, in nanoseconds.
  const ZERO_TIME := -62135596800 * 1_000_000_000

  datatype Query = Query(api: string, model: string, cutoff: Option<int>, accounting: bool)
  {
    predicate Selects(h: Head) {
      && (accounting || !h.archived) && (api == "" || h.api == api) && (model == "" || h.model == model)
      && (cutoff.Some? ==> h.time != ZERO_TIME && h.time >= cutoff.value)
    }
  }

  /** Retained records only for accounting; of one API or model, if it is named; and with a cutoff only dated
      records, none of them older. */
  lemma SelectsIff(q: Query, h: Head)
    ensures q.Selects(h) <==>
      && (h.archived ==> q.accounting) && (q.api != "" ==> q.api == h.api) && (q.model != "" ==> q.model == h.model)
      && match q.cutoff case None => true case Some(since) => since <= h.time && h.time != ZERO_TIME
  {
  }

  /** Later records come first; then the API, the model and the number decide. */
  function KeyOf(id: Id, h: Head): Order {
    Order(-h.time, 0, h.api, h.model, "", "", "", id.number)
  }

  /** The table sorts by the negated seconds and the negated nanoseconds within them: that is latest first. */
  lemma SortColumns(a: int, b: int)
    ensures a > b <==> -(a / 1_000_000_000) < -(b / 1_000_000_000)
                       || (-(a / 1_000_000_000) == -(b / 1_000_000_000) && -(a % 1_000_000_000) < -(b % 1_000_000_000))
  {
    assert a == a / 1_000_000_000 * 1_000_000_000 + a % 1_000_000_000;
    assert b == b / 1_000_000_000 * 1_000_000_000 + b % 1_000_000_000;
  }

  /** A record of a later time comes before, whatever else. */
  lemma LaterFirst(id: Id, h: Head, other: Id, g: Head)
    ensures h.time > g.time ==> KeyOf(id, h).Less(KeyOf(other, g))
    ensures h.time == g.time ==> (KeyOf(id, h).Less(KeyOf(other, g)) <==>
      StringLess(h.api, g.api)
      || (h.api == g.api && (StringLess(h.model, g.model) || (h.model == g.model && id.number < other.number))))
  {
    StringTrichotomy(h.api, g.api);
    StringTrichotomy(h.model, g.model);
    StringTrichotomy("", "");
    if h.time == g.time {
      KeyLabels(KeyOf(id, h), KeyOf(other, g));
    }
  }

  lemma KeyLabels(a: Order, b: Order)
    requires a.timestamp == b.timestamp && a.completion == b.completion
    requires a.provider == a.auth == a.signature == b.provider == b.auth == b.signature == ""
    ensures a.Less(b) <==>
      if a.api != b.api then StringLess(a.api, b.api)
      else if a.model != b.model then StringLess(a.model, b.model) else a.index < b.index
  {
    var s, t := a.Labels(), b.Labels();
    assert s[1..] == [a.model, "", "", ""] && t[1..] == [b.model, "", "", ""];
    assert s[1..][1..] == ["", "", ""] == t[1..][1..];
    LabelsLessIff(["", "", ""], a.index, ["", "", ""], b.index);
    StringTrichotomy("", "");
    assert forall k: nat :: !LabelDecides(["", "", ""], ["", "", ""], k);
    assert LabelsLess(s, a.index, t, b.index)
      <==> if s[0] != t[0] then StringLess(s[0], t[0]) else LabelsLess(s[1..], a.index, t[1..], b.index);
    assert LabelsLess(s[1..], a.index, t[1..], b.index)
      <==> if s[1] != t[1] then StringLess(s[1], t[1]) else LabelsLess(s[1..][1..], a.index, t[1..][1..], b.index);
  }

  function Keys(t: Tables): map<Id, Order> {
    map id | id in t.records :: KeyOf(id, t.records[id].head)
  }

  function Wanted(t: Tables, q: Query): set<Id> {
    set id | id in t.records && q.Selects(t.records[id].head)
  }

  function WantedAfter(t: Tables, q: Query, after: Option<Order>): set<Id> {
    set id | id in t.records && q.Selects(t.records[id].head)
             && (after.Some? ==> after.value.Less(KeyOf(id, t.records[id].head)))
  }

  datatype Entry = Entry(id: Id, record: Record)
  {
    function Key(): Order { KeyOf(id, record.head) }
  }

  datatype Page = Page(entries: seq<Entry>) | BadLimit | OverBudget

  function EntryOf(t: Tables, id: Id): Entry
    requires id in t.records
  {
    Entry(id, Meaning(t, t.records[id]))
  }

  function EntriesOf(t: Tables, ids: seq<Id>): (entries: seq<Entry>)
    requires forall i | 0 <= i < |ids| :: ids[i] in t.records
    ensures |entries| == |ids|
  {
    seq(|ids|, i requires 0 <= i < |ids| => EntryOf(t, ids[i]))
  }

  function SizeOf(e: Entry): nat {
    |e.record.identity| + |e.record.payload| + |e.record.head.api| + |e.record.head.model| + |e.record.head.zone|
  }

  function SizeOfAll(entries: seq<Entry>): nat {
    if entries == [] then 0 else SizeOfAll(entries[..|entries| - 1]) + SizeOf(entries[|entries| - 1])
  }

  // ----- one page -----

  /** The loop over the selected rows. The first one is taken whatever its size; the page ends before the
      one that would exceed the budget. */
  method ReadRows(t: Tables, rows: seq<Id>) returns (page: Page)
    requires forall i | 0 <= i < |rows| :: rows[i] in t.records
    ensures !page.BadLimit?
    ensures page.Page? ==>
      && page.entries <= EntriesOf(t, rows) && (rows != [] ==> page.entries != [])
      && (|page.entries| > 1 ==> SizeOfAll(page.entries) <= BATCH_BYTES)
      && (forall i | 0 <= i < |page.entries| :: !TooLong(page.entries[i].record.head))
    ensures page.OverBudget? ==> exists i :: 0 <= i < |rows| && TooLong(t.records[rows[i]].head)
  {
    var entries, bytes := [], 0;
    for i := 0 to |rows|
      invariant entries == EntriesOf(t, rows)[..i] && bytes == SizeOfAll(entries)
      invariant |entries| > 1 ==> bytes <= BATCH_BYTES
      invariant forall k | 0 <= k < |entries| :: !TooLong(entries[k].record.head)
    {
      var e := EntryOf(t, rows[i]);
      if TooLong(e.record.head) {
        return Page.OverBudget;
      }
      if i > 0 && SizeOf(e) > BATCH_BYTES - bytes {
        return Page(entries);
      }
      assert (entries + [e])[..i] == entries;
      entries, bytes := entries + [e], bytes + SizeOf(e);
    }
    return Page(entries);
  }

  method ReadPage(t: Tables, q: Query, after: Option<Order>, limit: int) returns (page: Page, ghost rows: seq<Id>)
    ensures page.BadLimit? <==> limit <= 0 || limit > PAGE_RECORDS
    ensures Lists(rows, WantedAfter(t, q, after)) && Sorted(rows, Keys(t))
    ensures page.Page? ==>
      && page.entries <= EntriesOf(t, rows) && |page.entries| <= limit && (rows != [] ==> page.entries != [])
      && (|page.entries| > 1 ==> SizeOfAll(page.entries) <= BATCH_BYTES)
      && (forall i | 0 <= i < |page.entries| :: !TooLong(page.entries[i].record.head))
    ensures page.OverBudget? ==> exists i :: 0 <= i < |rows| && TooLong(t.records[rows[i]].head)
  {
    var selected := Sort(WantedAfter(t, q, after), Keys(t));
    rows := selected;
    if limit <= 0 || limit > PAGE_RECORDS {
      return Page.BadLimit, rows;
    }
    if limit < |selected| {
      assert EntriesOf(t, selected[..limit]) == EntriesOf(t, selected)[..limit];
      page := ReadRows(t, selected[..limit]);
    } else {
      page := ReadRows(t, selected);
    }
  }

  // ----- all pages -----

  lemma KeysDiffer(t: Tables)
    ensures forall x, y | x in t.records && y in t.records && x != y :: Keys(t)[x] != Keys(t)[y]
  {
  }

  /** What lies behind the key of a row are the rows that follow it. */
  lemma TailIsAfter(t: Tables, q: Query, s: seq<Id>, n: nat)
    requires Lists(s, Wanted(t, q)) && Sorted(s, Keys(t)) && 0 < n <= |s|
    ensures Lists(s[n..], WantedAfter(t, q, Some(Keys(t)[s[n - 1]]))) && Sorted(s[n..], Keys(t))
  {
    var key := Keys(t)[s[n - 1]];
    var wanted := WantedAfter(t, q, Some(key));
    forall i | 0 <= i < |s| ensures key.Less(Keys(t)[s[i]]) <==> i >= n {
      assert s[i] in Wanted(t, q) && s[n - 1] in Wanted(t, q);
      Trichotomy(key, Keys(t)[s[i]]);
      if i != n - 1 {
        assert s[i] != s[n - 1];
      }
    }
    forall x | x in wanted ensures x in s[n..] {
      assert x in Wanted(t, q);
      var i :| 0 <= i < |s| && s[i] == x;
      assert s[n..][i - n] == x;
    }
    forall i | 0 <= i < |s[n..]| ensures s[n..][i] in wanted {
      assert s[n + i] in Wanted(t, q);
    }
  }

  /** So the next page continues the sorted list, whether or not rows were left out by the budget. */
  lemma NextPage(t: Tables, q: Query, s: seq<Id>, n: nat, after: Option<Order>, rows: seq<Id>)
    requires Lists(s, Wanted(t, q)) && Sorted(s, Keys(t)) && n <= |s|
    requires after == if n == 0 then None else Some(Keys(t)[s[n - 1]])
    requires Lists(rows, WantedAfter(t, q, after)) && Sorted(rows, Keys(t))
    ensures rows == s[n..]
  {
    KeysDiffer(t);
    if n > 0 {
      TailIsAfter(t, q, s, n);
    } else {
      assert s[n..] == s && WantedAfter(t, q, None) == Wanted(t, q);
    }
    SortedUnique(rows, s[n..], WantedAfter(t, q, after), Keys(t));
  }

  /** The first `n` selected records have been read. */
  ghost predicate ReadTo(t: Tables, s: seq<Id>, n: nat, entries: seq<Entry>, after: Option<Order>)
    requires forall i | 0 <= i < |s| :: s[i] in t.records
  {
    && n <= |s| && entries == EntriesOf(t, s)[..n] && after == (if n == 0 then None else Some(Keys(t)[s[n - 1]]))
    && forall i | 0 <= i < n :: !TooLong(t.records[s[i]].head)
  }

  lemma PageRead(t: Tables, s: seq<Id>, n: nat, entries: seq<Entry>, after: Option<Order>, more: seq<Entry>)
    requires (forall i | 0 <= i < |s| :: s[i] in t.records) && ReadTo(t, s, n, entries, after)
    requires more <= EntriesOf(t, s[n..]) && more != [] && forall i | 0 <= i < |more| :: !TooLong(more[i].record.head)
    ensures ReadTo(t, s, n + |more|, entries + more, Some(more[|more| - 1].Key()))
  {
    hide TooLong;
    forall i | n <= i < n + |more| ensures !TooLong(t.records[s[i]].head) && (entries + more)[i] == EntryOf(t, s[i]) {
      assert more[i - n] == EntryOf(t, s[n..][i - n]);
    }
  }

  lemma AllRead(t: Tables, q: Query, s: seq<Id>, entries: seq<Entry>, after: Option<Order>)
    requires Lists(s, Wanted(t, q)) && ReadTo(t, s, |s|, entries, after)
    ensures entries == EntriesOf(t, s) && forall id | id in Wanted(t, q) :: !TooLong(t.records[id].head)
  {
  }

  /** Whatever the sizes of the pages, one after the other they give all selected records, each once and in
      order; and they fail only if one of these records has names that no page can hold. */
  method ReadAll(t: Tables, q: Query, limits: nat -> int) returns (all: Option<seq<Entry>>, ghost s: seq<Id>)
    requires forall k :: 0 < limits(k) <= PAGE_RECORDS
    ensures Lists(s, Wanted(t, q)) && Sorted(s, Keys(t))
    ensures all.Some? ==> all.value == EntriesOf(t, s)
    ensures all == None <==> exists id :: id in Wanted(t, q) && TooLong(t.records[id].head)
  {
    hide TooLong, Order.Less, EntriesOf, ReadTo, Sorted;
    s := Sort(Wanted(t, q), Keys(t));
    var entries, after, k := [], None, 0;
    NoneRead(t, s);
    while true
      invariant ReadTo(t, s, |entries|, entries, after)
      decreases |s| - |entries|
    {
      AfterRead(t, s, |entries|, entries, after);
      var page := ReadNext(t, q, after, limits(k), s, entries);
      if page.OverBudget? {
        return None, s;
      }
      if page.entries == [] {
        return Some(entries), s;
      }
      entries, after, k := entries + page.entries, Some(page.entries[|page.entries| - 1].Key()), k + 1;
      AfterRead(t, s, |entries|, entries, after);
    }
  }

  /** No batch could enter such names, so a ledger is always read to the end. */
  method ReadLedger(ledger: RevisionedLedger, q: Query, limits: nat -> int) returns (all: seq<Entry>, ghost s: seq<Id>)
    requires ledger.Valid() && forall k :: 0 < limits(k) <= PAGE_RECORDS
    ensures Lists(s, Wanted(ledger.tables, q)) && Sorted(s, Keys(ledger.tables)) && all == EntriesOf(ledger.tables, s)
  {
    hide TooLong, EntriesOf, Sorted, Exact;
    var read;
    read, s := ReadAll(ledger.tables, q, limits);
    ShortRows(ledger.tables);
    all := read.value;
  }

  lemma ShortRows(t: Tables)
    requires Short(Records(t))
    ensures forall id | id in t.records :: !TooLong(t.records[id].head)
  {
    hide TooLong;
    forall id | id in t.records ensures !TooLong(t.records[id].head) {
      assert Records(t)[id].head == t.records[id].head;
    }
  }

  /** A page behind the records read so far: more of them, or the end. */
  method ReadNext(t: Tables, q: Query, after: Option<Order>, limit: int, ghost s: seq<Id>, ghost entries: seq<Entry>)
      returns (page: Page)
    requires Lists(s, Wanted(t, q)) && Sorted(s, Keys(t)) && ReadTo(t, s, |entries|, entries, after)
    requires 0 < limit <= PAGE_RECORDS
    ensures page.OverBudget? ==> exists id :: id in Wanted(t, q) && TooLong(t.records[id].head)
    ensures !page.OverBudget? ==> page.Page?
    ensures page.Page? && page.entries != [] ==>
      ReadTo(t, s, |entries + page.entries|, entries + page.entries, Some(page.entries[|page.entries| - 1].Key()))
    ensures page == Page.Page([]) ==>
      entries == EntriesOf(t, s) && forall id | id in Wanted(t, q) :: !TooLong(t.records[id].head)
  {
    hide TooLong, SizeOfAll, Order.Less, ReadTo, Sorted;
    ghost var n := |entries|;
    AfterRead(t, s, n, entries, after);
    ghost var rows;
    page, rows := ReadPage(t, q, after, limit);
    NextPage(t, q, s, n, after, rows);
    if page.OverBudget? {
      ghost var i :| 0 <= i < |rows| && TooLong(t.records[rows[i]].head);
      assert rows[i] in Wanted(t, q);
    } else if page.entries == [] {
      AllRead(t, q, s, entries, after);
    } else {
      PageRead(t, s, n, entries, after, page.entries);
    }
  }

  lemma NoneRead(t: Tables, s: seq<Id>)
    requires forall i | 0 <= i < |s| :: s[i] in t.records
    ensures ReadTo(t, s, 0, [], None)
  {
  }

  lemma AfterRead(t: Tables, s: seq<Id>, n: nat, entries: seq<Entry>, after: Option<Order>)
    requires (forall i | 0 <= i < |s| :: s[i] in t.records) && ReadTo(t, s, n, entries, after)
    ensures n <= |s| && (n > 0 ==> s[n - 1] in Keys(t)) && after == if n == 0 then None else Some(Keys(t)[s[n - 1]])
  {
  }
}
