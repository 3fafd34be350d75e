/** Scanning the operation journal: its current entries or its whole history, in cursor order. */
module JournalScans {
  import opened Order
  import opened StateStrings
  import opened StoreModel
  import opened StoreInvariants

  function CursorOf(e: JournalEntry): Cursor { Cursor(e.revision, e.operation.operationId) }

  /** compareOperationJournalCursors on entries. */
  predicate EntryLess(a: JournalEntry, b: JournalEntry) { CursorLess(CursorOf(a), CursorOf(b)) }

  lemma EntryOrder()
    ensures StrictWeak(EntryLess)
  {
    CursorOrder();
    ByKey(EntryLess, CursorLess, CursorOf);
  }

  predicate Recoverable(e: JournalEntry) { e.operation.status.Executing? || e.operation.status.Planned? }

  predicate Wanted(e: JournalEntry, recoverableOnly: bool, after: Option<Cursor>) {
    (recoverableOnly ==> Recoverable(e)) && (after.Some? ==> CursorLess(after.value, CursorOf(e)))
  }

  function WantedFrom(recoverableOnly: bool, after: Option<Cursor>): JournalEntry -> bool {
    (e: JournalEntry) => Wanted(e, recoverableOnly, after)
  }

  datatype JournalQuery = JournalQuery(after: Option<Cursor>, limit: Option<int>)

  predicate ValidJournalQuery(q: JournalQuery) { q.limit.Some? ==> 0 < q.limit.value <= MAX_SAFE_INTEGER }

  /** The entries of a history that no later entry of the same operation replaces. */
  function CurrentEntries(history: seq<JournalEntry>): seq<JournalEntry> {
    Filter((e: JournalEntry) => LastEntry(history, e.operation.operationId) == Some(e), history)
  }

  function Scanned(entries: seq<JournalEntry>, recoverableOnly: bool, q: JournalQuery): seq<JournalEntry>
    requires ValidJournalQuery(q)
  {
    Limited(Sort(EntryLess, Filter(WantedFrom(recoverableOnly, q.after), entries)), q.limit)
  }

  lemma {:induction false} LastIsMember(history: seq<JournalEntry>, id: JsString)
    ensures LastEntry(history, id).Some? ==>
      LastEntry(history, id).value in history && LastEntry(history, id).value.operation.operationId == id
  {
    if history != [] { LastIsMember(history[..|history| - 1], id); }
  }

  /** In a coherent store (revision, operation id) tells all history entries apart. */
  lemma HistoryHasNoTies(s: Store)
    requires JournalOrdered(s)
    ensures Distinct(s.history) && NoTies(EntryLess, s.history)
  {
    forall a, b | a in s.history && b in s.history && a != b ensures EntryLess(a, b) || EntryLess(b, a) {
      var i :| 0 <= i < |s.history| && s.history[i] == a;
      var j :| 0 <= j < |s.history| && s.history[j] == b;
      assert a.revision != b.revision || a.operation.operationId != b.operation.operationId;
      if a.revision == b.revision { LexConnected(a.operation.operationId, b.operation.operationId); }
    }
  }

  /** The operations map holds exactly the current entries of the history. */
  lemma CurrentAreStored(s: Store)
    requires CurrentIsLast(s) && JournalOrdered(s)
    ensures forall e ::
      e in CurrentEntries(s.history) <==>
        e.operation.operationId in s.operations && s.operations[e.operation.operationId] == e
    ensures Distinct(CurrentEntries(s.history)) && NoTies(EntryLess, CurrentEntries(s.history))
  {
    HistoryHasNoTies(s);
    FilterKeeps((e: JournalEntry) => LastEntry(s.history, e.operation.operationId) == Some(e), s.history);
    forall e: JournalEntry ensures e in CurrentEntries(s.history) <==>
        e.operation.operationId in s.operations && s.operations[e.operation.operationId] == e {
      LastIsMember(s.history, e.operation.operationId);
    }
  }

  /** Array filter, sort and slice over the entries of the operations map. */
  method CollectOperations(ghost s: Store, operations: map<JsString, JournalEntry>, recoverableOnly: bool,
                           q: JournalQuery)
    returns (entries: seq<JournalEntry>)
    requires CurrentIsLast(s) && JournalOrdered(s) && operations == s.operations && ValidJournalQuery(q)
    ensures entries == Scanned(CurrentEntries(s.history), recoverableOnly, q)
  {
    var matching: seq<JournalEntry> := [];
    var rest := operations.Keys;
    ghost var current := CurrentEntries(s.history);
    CurrentAreStored(s);
    while rest != {}
      invariant rest <= operations.Keys
      invariant Distinct(matching)
      invariant forall e ::
        e in matching <==> e in current && e.operation.operationId !in rest && Wanted(e, recoverableOnly, q.after)
      decreases rest
    {
      var id :| id in rest;
      rest := rest - {id};
      assert operations[id].operation.operationId == id by { LastIsMember(s.history, id); }
      if Wanted(operations[id], recoverableOnly, q.after) {
        matching := matching + [operations[id]];
      }
    }
    EntryOrder();
    ghost var wanted := WantedFrom(recoverableOnly, q.after);
    FilterKeeps(wanted, current);
    SortBlind(EntryLess, matching, Filter(wanted, current));
    entries := Limited(Sort(EntryLess, matching), q.limit);
  }

  lemma FilterStep(p: JournalEntry -> bool, xs: seq<JournalEntry>, i: nat)
    requires i < |xs|
    ensures Filter(p, xs[i..]) == (if p(xs[i]) then [xs[i]] else []) + Filter(p, xs[i + 1..])
  {
    assert xs[i..][1..] == xs[i + 1..];
  }

  lemma Regroup(a: seq<JournalEntry>, b: seq<JournalEntry>, c: seq<JournalEntry>)
    ensures a + (b + c) == a + b + c
  {
  }

  lemma FilterNext(p: JournalEntry -> bool, xs: seq<JournalEntry>, i: nat, before: seq<JournalEntry>,
                   kept: seq<JournalEntry>)
    requires i < |xs| && Filter(p, xs) == before + Filter(p, xs[i..]) && kept == if p(xs[i]) then [xs[i]] else []
    ensures Filter(p, xs) == before + kept + Filter(p, xs[i + 1..])
  {
    FilterStep(p, xs, i);
    hide Filter;
    Regroup(before, kept, Filter(p, xs[i + 1..]));
  }

  /** The same over the append-only history. */
  method CollectHistory(history: seq<JournalEntry>, q: JournalQuery) returns (entries: seq<JournalEntry>)
    requires ValidJournalQuery(q)
    ensures entries == Scanned(history, false, q)
  {
    ghost var wanted := WantedFrom(false, q.after);
    var matching: seq<JournalEntry> := [];
    assert history[0..] == history;
    for i := 0 to |history|
      invariant Filter(wanted, history) == matching + Filter(wanted, history[i..])
    {
      hide CursorLess, Filter;
      FilterNext(wanted, history, i, matching, if wanted(history[i]) then [history[i]] else []);
      if q.after.None? || CursorLess(q.after.value, CursorOf(history[i])) {
        matching := matching + [history[i]];
      } else {
        assert matching + [] == matching;
      }
    }
    assert history[|history|..] == [];
    assert Filter(wanted, history) == matching;
    entries := Limited(Sort(EntryLess, matching), q.limit);
  }

  /** An unbounded scan lists each wanted operation exactly once, in cursor order. */
  lemma ScanIsExact(s: Store, recoverableOnly: bool)
    requires CurrentIsLast(s) && JournalOrdered(s)
    ensures var listed := Scanned(CurrentEntries(s.history), recoverableOnly, JournalQuery(None, None));
      && Ascending(EntryLess, listed)
      && (forall id: JsString :: (exists e :: e in listed && e.operation.operationId == id) <==>
            id in s.operations && (recoverableOnly ==> Recoverable(s.operations[id])))
      && (forall e | e in listed :: s.operations[e.operation.operationId] == e)
  {
    var current, wanted := CurrentEntries(s.history), WantedFrom(recoverableOnly, None);
    var listed := Scanned(current, recoverableOnly, JournalQuery(None, None));
    CurrentAreStored(s);
    EntryOrder();
    FilterKeeps(wanted, current);
    SortDistinct(EntryLess, Filter(wanted, current));
    forall id: JsString | id in s.operations && (recoverableOnly ==> Recoverable(s.operations[id]))
      ensures exists e :: e in listed && e.operation.operationId == id
    {
      LastIsMember(s.history, id);
      assert s.operations[id] in current && s.operations[id] in listed;
    }
  }

  // ----- What a page holds

  /** In cursor order: by revision, and within a revision by operation identifier. */
  predicate Precedes(revision: nat, id: JsString, e: JournalEntry) {
    revision < e.revision || (revision == e.revision && LexLess(id, e.operation.operationId))
  }

  /** The entry is asked for: beyond the cursor, and executing or planned when only those are. */
  predicate AskedFor(e: JournalEntry, recoverableOnly: bool, after: Option<Cursor>) {
    && (after.Some? ==> Precedes(after.value.revision, after.value.operationId, e))
    && (recoverableOnly ==> e.operation.status == Executing || e.operation.status == Planned)
  }

  /** A page over entries without ties: entries asked for, strictly in cursor order, no more than the
      limit; one asked for that is not on it comes after a full page. */
  ghost predicate PageOf(page: seq<JournalEntry>, entries: set<JournalEntry>, recoverableOnly: bool, q: JournalQuery) {
    && (forall e | e in page :: e in entries && AskedFor(e, recoverableOnly, q.after))
    && (forall i, j | 0 <= i < j < |page| :: Precedes(page[i].revision, page[i].operation.operationId, page[j]))
    && (q.limit.Some? ==> |page| <= q.limit.value)
    && (forall e | e in entries && AskedFor(e, recoverableOnly, q.after) && e !in page ::
          && q.limit.Some? && |page| == q.limit.value
          && forall i | 0 <= i < |page| :: Precedes(page[i].revision, page[i].operation.operationId, e))
  }

  lemma PrefixIsPage(full: seq<JournalEntry>, entries: set<JournalEntry>, recoverableOnly: bool, q: JournalQuery)
    requires ValidJournalQuery(q) && Ascending(EntryLess, full)
    requires forall e :: e in full <==> e in entries && AskedFor(e, recoverableOnly, q.after)
    ensures PageOf(Limited(full, q.limit), entries, recoverableOnly, q)
  {
    hide LexLess, AskedFor;
    var page := Limited(full, q.limit);
    forall e | e in page ensures e in full {}
    forall e, i | e in full && e !in page && 0 <= i < |page|
      ensures Precedes(page[i].revision, page[i].operation.operationId, e)
    {
      var k :| 0 <= k < |full| && full[k] == e;
      assert EntryLess(full[i], full[k]);
    }
  }

  lemma ScannedIsPage(entries: seq<JournalEntry>, recoverableOnly: bool, q: JournalQuery)
    requires ValidJournalQuery(q) && Distinct(entries) && NoTies(EntryLess, entries)
    ensures PageOf(Scanned(entries, recoverableOnly, q), (set e | e in entries), recoverableOnly, q)
  {
    var wanted := WantedFrom(recoverableOnly, q.after);
    var kept := Filter(wanted, entries);
    EntryOrder();
    FilterKeeps(wanted, entries);
    forall e ensures e in kept <==> e in entries && AskedFor(e, recoverableOnly, q.after) {
      assert wanted(e) <==> AskedFor(e, recoverableOnly, q.after);
    }
    hide WantedFrom, Filter, Sort, StrictWeak, PageOf, AskedFor;
    SortDistinct(EntryLess, kept);
    PrefixIsPage(Sort(EntryLess, kept), (set e | e in entries), recoverableOnly, q);
  }

  /** A scan of the journal reads a page of the entries the store holds for its operations, and a scan
      of the history a page of everything that was ever appended. */
  lemma ScansArePages(s: Store, recoverableOnly: bool, q: JournalQuery)
    requires CurrentIsLast(s) && JournalOrdered(s) && ValidJournalQuery(q)
    ensures PageOf(Scanned(CurrentEntries(s.history), recoverableOnly, q), s.operations.Values, recoverableOnly, q)
    ensures PageOf(Scanned(s.history, false, q), (set e | e in s.history), false, q)
  {
    hide CursorLess, PageOf;
    CurrentAreStored(s);
    HistoryHasNoTies(s);
    ScannedIsPage(CurrentEntries(s.history), recoverableOnly, q);
    ScannedIsPage(s.history, false, q);
    forall e ensures e in s.operations.Values <==> e in CurrentEntries(s.history) {
      if e in s.operations.Values {
        var id :| id in s.operations && s.operations[id] == e;
        LastIsMember(s.history, id);
      }
    }
    assert s.operations.Values == (set e | e in CurrentEntries(s.history));
  }
}
