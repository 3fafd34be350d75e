/** The page loops of recovery and status: they end and concatenate to the full scan. */
module Paging {
  import opened Order
  import opened StateStrings
  import opened StoreModel
  import opened StoreInvariants
  import opened Transactions
  import opened TransactionRuns
  import opened MemoryTransactions
  import opened JournalScans
  import opened MemoryStateStores

  const PAGE_SIZE: nat := 100

  function PageAt<T>(full: seq<T>, k: nat): seq<T>
    requires k <= |full|
  {
    Limited(full[k..], Some(PAGE_SIZE))
  }

  lemma PageExtends<T>(full: seq<T>, read: seq<T>)
    requires read <= full
    ensures read + PageAt(full, |read|) <= full
    ensures |PageAt(full, |read|)| < PAGE_SIZE ==> read + PageAt(full, |read|) == full
    ensures |PageAt(full, |read|)| < PAGE_SIZE || PageAt(full, |read|) != []
  {
    assert full == read + full[|read|..];
  }

  /** The page after the k-th entry of the full scan is the next stretch of the full scan. */
  lemma JournalPage(s: Store, recoverableOnly: bool, after: Option<Cursor>, k: nat)
    requires CurrentIsLast(s) && JournalOrdered(s)
    requires var full := Scanned(CurrentEntries(s.history), recoverableOnly, JournalQuery(None, None));
      k <= |full| && after == if k == 0 then None else Some(CursorOf(full[k - 1]))
    ensures Scanned(CurrentEntries(s.history), recoverableOnly, JournalQuery(after, Some(PAGE_SIZE))) ==
      PageAt(Scanned(CurrentEntries(s.history), recoverableOnly, JournalQuery(None, None)), k)
  {
    CurrentAreStored(s);
    EntryOrder();
    SortedSuffix(EntryLess, WantedFrom(recoverableOnly, None), WantedFrom(recoverableOnly, after),
                 CurrentEntries(s.history), k);
  }

  ghost function AllRecoverable(s: Store): seq<JournalEntry> {
    Scanned(CurrentEntries(s.history), true, JournalQuery(None, None))
  }

  method RecoverPage(state: MemoryStateStore, after: Option<Cursor>, ghost full: seq<JournalEntry>, ghost k: nat)
    returns (page: Outcome<seq<JournalEntry>>)
    requires state.Valid() && full == AllRecoverable(state.View())
    requires k <= |full| && after == if k == 0 then None else Some(CursorOf(full[k - 1]))
    ensures page == if state.lifecycle != Open then Err(Closed) else Ok(PageAt(full, k))
  {
    JournalPage(state.View(), true, after, k);
    page := state.ScanOperationJournal(JournalQuery(after, Some(PAGE_SIZE)), true);
  }

  /** Recovery reads every recoverable operation, each once, in cursor order. */
  method RecoverOperations(state: MemoryStateStore) returns (r: Outcome<seq<JournalEntry>>)
    requires state.Valid()
    ensures r == if state.lifecycle != Open then Err(Closed) else Ok(AllRecoverable(state.View()))
  {
    ghost var full := AllRecoverable(state.View());
    r := RecoverPages(state, full);
  }

  method RecoverPages(state: MemoryStateStore, ghost full: seq<JournalEntry>) returns (r: Outcome<seq<JournalEntry>>)
    requires state.Valid() && full == AllRecoverable(state.View())
    ensures r == if state.lifecycle != Open then Err(Closed) else Ok(full)
  {
    hide *;
    var recovered: seq<JournalEntry> := [];
    var after := None;
    while true
      invariant recovered <= full
      invariant after == if recovered == [] then None else Some(CursorOf(full[|recovered| - 1]))
      decreases |full| - |recovered|
    {
      var page := RecoverPage(state, after, full, |recovered|);
      if page.Err? {
        return page;
      }
      PageExtends(full, recovered);
      recovered := recovered + page.value;
      if |page.value| < PAGE_SIZE {
        return Ok(recovered);
      }
      var last := page.value[|page.value| - 1];
      after := Some(CursorOf(last));
    }
  }

  // ----- Status collections

  function PageQuery(q: Query, after: Option<JsString>, limit: Option<int>): Query {
    q.(afterId := after, limit := limit)
  }

  ghost predicate PortableRecords(records: map<StateKey, Record>) {
    forall key | key in records :: PortableKey(key)
  }

  lemma {:induction false} StagedKeysPortable(snapshot: map<StateKey, Record>, program: Program, n: nat)
    ensures forall key | key in Execute(snapshot, program, n).tx.mutations :: PortableKey(key)
  {
    if n > 0 { StagedKeysPortable(snapshot, program, n - 1); }
  }

  lemma CommitKeepsPortable(s: Store, fencing: Option<Fencing>, identity: Option<Identity>, staged: Staged,
                            result: Json)
    requires PortableRecords(s.records) && forall m | m in staged.mutations :: PortableKey(m.key)
    ensures PortableRecords(Commit(s, fencing, identity, staged, result).0.records)
  {
    hide PortableKey, Applied, Enqueued, Journaled;
  }

  /** Every reachable store holds portable keys only, so a page loop may always resume at one. */
  lemma {:induction false} ReachableRecordsPortable(states: seq<System>, steps: seq<Step>, i: nat)
    requires Run(states, steps) && i < |states|
    ensures PortableRecords(states[i].store.records)
  {
    hide Run, PortableKey, Execute, Enabled, NextOp, ClaimOutbox, AcknowledgeOutbox, Commit;
    if i == 0 {
      RunStarts(states, steps);
    } else {
      RunStep(states, steps, i - 1);
      ReachableRecordsPortable(states, steps, i - 1);
      ApplyKeepsPortable(states[i - 1], steps[i - 1]);
    }
  }

  lemma ApplyKeepsPortable(sys: System, step: Step)
    requires Enabled(sys, step) && PortableRecords(sys.store.records)
    ensures PortableRecords(Apply(sys, step).store.records)
  {
    hide PortableRecords, Execute, ClaimOutbox, AcknowledgeOutbox, Commit;
    if step.RunJob? {
      match sys.queue[0]
      case CommitJob(id) =>
        var c := sys.calls[id];
        StagedKeysPortable(c.phase.snapshot, c.program, c.phase.steps);
        if NextOp(c).Return? { CommitKeepsPortable(sys.store, c.fencing, c.identity, StagedBy(c), NextOp(c).result); }
      case ClaimJob(r) => ClaimLeavesLogAlone(sys.store, r, step.now);
      case AckJob(r) => AcknowledgeLeavesLogAlone(sys.store, r, step.now);
    }
  }

  lemma VisibleIsPortable(snapshot: map<StateKey, Record>, program: Program, n: nat)
    requires PortableRecords(snapshot)
    ensures PortableRecords(Visible(Execute(snapshot, program, n).tx))
  {
    StagedKeysPortable(snapshot, program, n);
  }

  lemma KeysPage(records: map<StateKey, Record>, q: Query, page: Query, k: nat)
    requires q.afterId.None? && q.limit.None? && page == PageQuery(q, page.afterId, page.limit)
    requires k <= |SelectedKeys(records, q)|
    requires page.afterId == if k == 0 then None else Some(SelectedKeys(records, q)[k - 1].id)
    ensures SelectedKeys(records, page) == SelectedKeys(records, q)[k..]
  {
    var full, rest := SelectedKeys(records, q), SelectedKeys(records, page);
    SelectedById(records, q);
    SelectedById(records, page);
    forall key ensures key in rest <==> key in full && (k > 0 ==> IdLess(full[k - 1], key)) {
      assert key in rest <==> key in Selection(records, page);
      assert key in full <==> key in Selection(records, q);
    }
    IdOrder();
    AscendingSuffix(IdLess, full, rest, k);
  }

  lemma RowsAreRecords(records: map<StateKey, Record>, q: Query)
    requires ValidQuery(q)
    ensures forall row | row in ScanRows(records, q) :: row.key in records
    ensures forall key | key in Limited(SelectedKeys(records, q), q.limit) :: key in records
    ensures ScanRows(records, q) == RowsAt(records, Limited(SelectedKeys(records, q), q.limit))
  {
    var keys := Limited(SelectedKeys(records, q), q.limit);
    forall i | 0 <= i < |keys| ensures keys[i] in records {
      assert keys[i] == SelectedKeys(records, q)[i];
      assert keys[i] in Selection(records, q);
    }
    assert ScanRows(records, q) == RowsAt(records, keys);
  }

  lemma RowsPage(records: map<StateKey, Record>, q: Query, page: Query, k: nat)
    requires ValidQuery(q) && q.afterId.None? && q.limit.None?
    requires ValidQuery(page) && page == PageQuery(q, page.afterId, Some(PAGE_SIZE))
    requires k <= |ScanRows(records, q)|
    requires page.afterId == if k == 0 then None else Some(ScanRows(records, q)[k - 1].key.id)
    ensures ScanRows(records, page) == PageAt(ScanRows(records, q), k)
  {
    hide SelectedKeys, ScanRows, RowsAt, ValidQuery;
    RowsAreRecords(records, q);
    RowsAreRecords(records, page);
    KeysPage(records, q, page, k);
    var all, some := ScanRows(records, q), ScanRows(records, page);
    assert |all| == |SelectedKeys(records, q)|;
    assert |some| == |PageAt(all, k)|;
    assert forall i | 0 <= i < |some| :: some[i] == all[k + i];
  }

  method CollectionPage(transaction: MemoryTransaction, q: Query, afterId: Option<JsString>, ghost full: seq<Row>,
                        ghost k: nat)
    returns (page: Observation)
    requires transaction.Valid() && transaction.active && PortableRecords(Visible(transaction.View()))
    requires ValidQuery(q) && q.afterId.None? && q.limit.None? && full == ScanRows(Visible(transaction.View()), q)
    requires k <= |full| && afterId == if k == 0 then None else Some(full[k - 1].key.id)
    ensures page == Rows(PageAt(full, k))
  {
    RowsAreRecords(Visible(transaction.View()), q);
    assert k > 0 ==> full[k - 1] in full;
    RowsPage(Visible(transaction.View()), q, PageQuery(q, afterId, Some(PAGE_SIZE)), k);
    page := transaction.Scan(PageQuery(q, afterId, Some(PAGE_SIZE)));
  }

  /** The view of a transaction that began on a reachable store and has made any requests since: a
      whole collection, staged writes included, read page by page. */
  method ScanObservedStatusCollection(
      transaction: MemoryTransaction, namespace: JsString, collection: JsString,
      ghost states: seq<System>, ghost steps: seq<Step>, ghost i: nat, ghost program: Program, ghost n: nat)
    returns (seen: Observation)
    requires transaction.Valid() && transaction.active
    requires Run(states, steps) && i < |states| && transaction.View() == Execute(states[i].store.records, program, n).tx
    requires Portable(namespace) && Portable(collection)
    ensures seen == Rows(ScanRows(Visible(transaction.View()), Query(namespace, collection, None, None, None)))
  {
    hide Run, Execute, PortableRecords, ScanRows, Visible;
    ReachableRecordsPortable(states, steps, i);
    VisibleIsPortable(states[i].store.records, program, n);
    var q := Query(namespace, collection, None, None, None);
    seen := CollectPages(transaction, q, ScanRows(Visible(transaction.View()), q));
  }

  method CollectPages(transaction: MemoryTransaction, q: Query, ghost full: seq<Row>) returns (seen: Observation)
    requires transaction.Valid() && transaction.active && PortableRecords(Visible(transaction.View()))
    requires ValidQuery(q) && q.afterId.None? && q.limit.None? && full == ScanRows(Visible(transaction.View()), q)
    ensures seen == Rows(full)
  {
    hide *;
    var records: seq<Row> := [];
    var afterId := None;
    while true
      invariant records <= full
      invariant afterId == if records == [] then None else Some(full[|records| - 1].key.id)
      decreases |full| - |records|
    {
      var page := CollectionPage(transaction, q, afterId, full, |records|);
      PageExtends(full, records);
      records := records + page.rows;
      if |page.rows| < PAGE_SIZE {
        return Rows(records);
      }
      afterId := Some(page.rows[|page.rows| - 1].key.id);
    }
  }
}
