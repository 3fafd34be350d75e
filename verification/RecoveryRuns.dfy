/** Recovery reads the journal page by page while the store moves on between the pages. */
module RecoveryRuns {
  import opened Order
  import opened StateStrings
  import opened StoreModel
  import opened StoreInvariants
  import opened Transactions
  import opened TransactionRuns
  import opened Serializability
  import opened JournalScans
  import opened Paging

  ghost function PageOf(s: Store, read: seq<JournalEntry>): seq<JournalEntry> {
    Scanned(CurrentEntries(s.history), true, JournalQuery(CursorAfter(read), Some(PAGE_SIZE)))
  }

  function CursorAfter(read: seq<JournalEntry>): Option<Cursor> {
    if read == [] then None else Some(CursorOf(read[|read| - 1]))
  }

  /** Everything read by the pages taken from these stores, one after another. */
  ghost function ReadFrom(stores: seq<Store>): seq<JournalEntry> {
    if stores == [] then []
    else
      var read := ReadFrom(stores[..|stores| - 1]);
      read + PageOf(stores[|stores| - 1], read)
  }

  /** The loop goes on past a page only when it is full. */
  ghost predicate AllFull(stores: seq<Store>) {
    forall k | 0 <= k < |stores| :: |PageOf(stores[k], ReadFrom(stores[..k]))| == PAGE_SIZE
  }

  /** The history only grows, by entries of revisions beyond what the store had. */
  ghost predicate HistoryGrew(a: Store, b: Store) {
    && a.history <= b.history && a.revision <= b.revision
    && forall k | |a.history| <= k < |b.history| :: a.revision < b.history[k].revision
  }

  ghost predicate JournalOk(s: Store) { JournalOrdered(s) && CurrentIsLast(s) }

  ghost predicate MovesOn(stores: seq<Store>, last: Store) {
    && (forall k | 0 <= k < |stores| :: JournalOk(stores[k]) && HistoryGrew(stores[k], last))
    && JournalOk(last)
  }

  // ----- One page

  ghost predicate IsRecoverable(s: Store, e: JournalEntry) {
    e in CurrentEntries(s.history) && Recoverable(e)
  }

  /** An entry that the next page is to look at. */
  ghost predicate Ahead(s: Store, read: seq<JournalEntry>, e: JournalEntry) {
    IsRecoverable(s, e) && (read != [] ==> EntryLess(read[|read| - 1], e))
  }

  lemma AllAhead(s: Store, read: seq<JournalEntry>) returns (full: seq<JournalEntry>)
    requires JournalOk(s)
    ensures Ascending(EntryLess, full) && (forall e :: e in full <==> Ahead(s, read, e))
    ensures PageOf(s, read) == Limited(full, Some(PAGE_SIZE))
  {
    var current, wanted := CurrentEntries(s.history), WantedFrom(true, CursorAfter(read));
    full := Sort(EntryLess, Filter(wanted, current));
    CurrentAreStored(s);
    hide CurrentEntries, CursorLess, Sort, Filter, JournalOk;
    EntryOrder();
    hide StrictWeak;
    FilterKeeps(wanted, current);
    SortDistinct(EntryLess, Filter(wanted, current));
  }

  lemma LimitedHolds(full: seq<JournalEntry>, page: seq<JournalEntry>)
    requires Ascending(EntryLess, full) && page == Limited(full, Some(PAGE_SIZE))
    ensures Ascending(EntryLess, page) && |page| <= PAGE_SIZE
    ensures forall e | e in page :: e in full
    ensures forall e | e in full :: e in page || (|page| == PAGE_SIZE && EntryLess(page[PAGE_SIZE - 1], e))
  {
    hide EntryLess;
    forall e | e in page ensures e in full {
      var i :| 0 <= i < |page| && page[i] == e;
      assert full[i] == e;
    }
    forall e | e in full ensures e in page || (|page| == PAGE_SIZE && EntryLess(page[PAGE_SIZE - 1], e)) {
      var i :| 0 <= i < |full| && full[i] == e;
      if i < |page| { assert page[i] == e; } else { assert EntryLess(full[PAGE_SIZE - 1], full[i]); }
    }
  }

  lemma PageHolds(s: Store, read: seq<JournalEntry>)
    requires JournalOk(s)
    ensures var page := PageOf(s, read);
      && Ascending(EntryLess, page) && |page| <= PAGE_SIZE
      && (forall e | e in page :: IsRecoverable(s, e) && (read != [] ==> EntryLess(read[|read| - 1], e)))
      && (forall e | IsRecoverable(s, e) && (read != [] ==> EntryLess(read[|read| - 1], e)) ::
            e in page || (|page| == PAGE_SIZE && EntryLess(page[PAGE_SIZE - 1], e)))
  {
    hide JournalOk, PageOf, IsRecoverable, EntryLess, Limited;
    var full := AllAhead(s, read);
    LimitedHolds(full, PageOf(s, read));
    assert forall e :: e in full <==> Ahead(s, read, e);
  }

  // ----- Entries that stay current

  lemma {:induction false} WasLastBefore(a: seq<JournalEntry>, b: seq<JournalEntry>, e: JournalEntry)
    requires a <= b && Distinct(b) && e in a && LastEntry(b, e.operation.operationId) == Some(e)
    ensures LastEntry(a, e.operation.operationId) == Some(e)
    decreases |b|
  {
    if |a| == |b| {
      assert a == b;
    } else {
      var front := b[..|b| - 1];
      var i :| 0 <= i < |a| && a[i] == e;
      assert b[i] == e && b[|front|] != e;
      WasLastBefore(a, front, e);
    }
  }

  /** What is recoverable in the end either was so already, or came with a later revision. */
  lemma RecoverableBefore(s: Store, last: Store, e: JournalEntry)
    requires JournalOk(s) && JournalOk(last) && HistoryGrew(s, last) && IsRecoverable(last, e)
    ensures IsRecoverable(s, e) || e.revision > s.revision
  {
    hide EntryLess, LastEntry;
    HistoryHasNoTies(last);
    FilterKeeps((e: JournalEntry) => LastEntry(last.history, e.operation.operationId) == Some(e), last.history);
    FilterKeeps((e: JournalEntry) => LastEntry(s.history, e.operation.operationId) == Some(e), s.history);
    var i :| 0 <= i < |last.history| && last.history[i] == e;
    if i < |s.history| {
      assert s.history[i] == e;
      WasLastBefore(s.history, last.history, e);
    }
  }

  lemma PageIsBounded(s: Store, e: JournalEntry)
    requires JournalOk(s) && IsRecoverable(s, e)
    ensures e.revision <= s.revision
  {
    FilterKeeps((e: JournalEntry) => LastEntry(s.history, e.operation.operationId) == Some(e), s.history);
  }

  // ----- All pages

  /** So far everything recoverable in the end is read, or lies after what was read. */
  ghost predicate NothingMissed(read: seq<JournalEntry>, last: Store) {
    forall e | IsRecoverable(last, e) :: e in read || (read != [] ==> EntryLess(read[|read| - 1], e))
  }

  lemma AscendingAppend(read: seq<JournalEntry>, page: seq<JournalEntry>)
    requires Ascending(EntryLess, read) && Ascending(EntryLess, page)
    requires forall e | e in page :: read != [] ==> EntryLess(read[|read| - 1], e)
    ensures Ascending(EntryLess, read + page)
  {
    EntryOrder();
    hide EntryLess;
    var all := read + page;
    forall i, j | 0 <= i < j < |all| ensures EntryLess(all[i], all[j]) {
      if i < |read| <= j {
        assert all[j] in page && EntryLess(read[|read| - 1], all[j]);
        assert i < |read| - 1 ==> EntryLess(read[i], read[|read| - 1]);
      } else if j < |read| {
        assert all[i] == read[i] && all[j] == read[j];
      } else {
        assert all[i] == page[i - |read|] && all[j] == page[j - |read|];
      }
    }
  }

  /** One more full page keeps it so. */
  lemma FullPageMissesNothing(s: Store, last: Store, read: seq<JournalEntry>)
    requires JournalOk(s) && JournalOk(last) && HistoryGrew(s, last) && NothingMissed(read, last)
    requires |PageOf(s, read)| == PAGE_SIZE
    ensures NothingMissed(read + PageOf(s, read), last)
  {
    hide JournalOk, PageOf, IsRecoverable, HistoryGrew;
    var page := PageOf(s, read);
    PageHolds(s, read);
    var newest := page[PAGE_SIZE - 1];
    assert newest in page;
    PageIsBounded(s, newest);
    forall e | IsRecoverable(last, e) ensures e in read + page || EntryLess(newest, e) {
      RecoverableBefore(s, last, e);
    }
  }

  lemma {:induction false} PagesMissNothing(stores: seq<Store>, last: Store)
    requires MovesOn(stores, last) && AllFull(stores)
    ensures NothingMissed(ReadFrom(stores), last)
  {
    hide JournalOk, PageOf, IsRecoverable, HistoryGrew, NothingMissed, AllFull;
    if stores == [] {
      NothingRead(last);
    } else {
      var front := stores[..|stores| - 1];
      FrontIsFull(stores);
      PagesMissNothing(front, last);
      FullPageMissesNothing(stores[|stores| - 1], last, ReadFrom(front));
    }
  }

  lemma NothingRead(last: Store)
    ensures NothingMissed([], last)
  {
  }

  lemma FrontIsFull(stores: seq<Store>)
    requires stores != [] && AllFull(stores)
    ensures var front := stores[..|stores| - 1];
      AllFull(front) && |PageOf(stores[|stores| - 1], ReadFrom(front))| == PAGE_SIZE
  {
    hide PageOf, ReadFrom;
    var front := stores[..|stores| - 1];
    assert forall k | 0 <= k < |front| :: front[k] == stores[k] && front[..k] == stores[..k];
  }

  lemma {:induction false} PagesAscend(stores: seq<Store>)
    requires forall k | 0 <= k < |stores| :: JournalOk(stores[k])
    ensures Ascending(EntryLess, ReadFrom(stores))
    ensures forall e | e in ReadFrom(stores) :: exists k :: 0 <= k < |stores| && IsRecoverable(stores[k], e)
  {
    if stores != [] {
      hide JournalOk, PageOf, IsRecoverable;
      var front, s := stores[..|stores| - 1], stores[|stores| - 1];
      PagesAscend(front);
      PageHolds(s, ReadFrom(front));
      AscendingAppend(ReadFrom(front), PageOf(s, ReadFrom(front)));
      forall e | e in ReadFrom(stores) ensures exists k :: 0 <= k < |stores| && IsRecoverable(stores[k], e) {
        if e in ReadFrom(front) {
          var k :| 0 <= k < |front| && IsRecoverable(front[k], e);
          assert IsRecoverable(stores[k], e);
        } else {
          assert IsRecoverable(stores[|stores| - 1], e);
        }
      }
    }
  }

  // ----- Over runs of the store

  lemma CommitHistory(s: Store, fencing: Option<Fencing>, identity: Option<Identity>, staged: Staged, result: Json)
    ensures HistoryGrew(s, Commit(s, fencing, identity, staged, result).0)
  {
    hide PlanOutbox, Installed, Applied, Enqueued, Journaled, AllMatch;
  }

  lemma ClaimHistory(s: Store, r: ClaimRequest, now: int)
    ensures HistoryGrew(s, ClaimOutbox(s, r, now).0)
  {
    hide PlanClaims, WithClaims;
    if ValidClaimRequest(r) {
      assert ConcludeClaims(s, r, now, PlanClaims(s.outbox, r, now)).0.history == s.history;
    }
  }

  lemma StepHistory(sys: System, step: Step)
    requires Enabled(sys, step)
    ensures HistoryGrew(sys.store, Apply(sys, step).store)
  {
    hide Commit, ClaimOutbox, Execute, NextOp, StagedBy;
    if step.RunJob? {
      match sys.queue[0]
      case CommitJob(id) =>
        var c := sys.calls[id];
        if NextOp(c).Return? { CommitHistory(sys.store, c.fencing, c.identity, StagedBy(c), NextOp(c).result); }
      case ClaimJob(r) => ClaimHistory(sys.store, r, step.now);
      case AckJob(r) =>
    }
  }

  lemma GrewOn(a: Store, b: Store, c: Store)
    requires HistoryGrew(a, b) && HistoryGrew(b, c)
    ensures HistoryGrew(a, c)
  {
    forall k | |a.history| <= k < |c.history| ensures a.revision < c.history[k].revision {
      if k < |b.history| { assert c.history[k] == b.history[k]; }
    }
  }

  lemma {:induction false} RunHistory(states: seq<System>, steps: seq<Step>, i: nat, j: nat)
    requires Run(states, steps) && i <= j < |states|
    ensures HistoryGrew(states[i].store, states[j].store)
  {
    hide Run, Enabled, Apply, HistoryGrew;
    if i == j {
      assert HistoryGrew(states[i].store, states[i].store) by { SameHistory(states[i].store); }
    } else {
      RunStep(states, steps, j - 1);
      RunHistory(states, steps, i, j - 1);
      StepHistory(states[j - 1], steps[j - 1]);
      GrewOn(states[i].store, states[j - 1].store, states[j].store);
    }
  }

  lemma SameHistory(s: Store)
    ensures HistoryGrew(s, s)
  {
  }

  /** The stores found when each page is read, in the order the pages are read. */
  ghost predicate ReadAt(states: seq<System>, at: seq<nat>, stores: seq<Store>) {
    && |at| == |stores| && (forall k | 0 <= k < |at| :: at[k] < |states| && stores[k] == states[at[k]].store)
    && forall k, l | 0 <= k < l < |at| :: at[k] <= at[l]
  }

  /** Whatever is committed between the pages: recovery reads in strictly ascending order, only
      entries that were recoverable when their page was read; and when it ends, with a page that is
      not full, it has read the current entry of every operation that is recoverable then. */
  lemma RecoveryMissesNothing(states: seq<System>, steps: seq<Step>, at: seq<nat>, stores: seq<Store>)
    requires Run(states, steps) && ReadAt(states, at, stores) && stores != [] && AllFull(stores[..|stores| - 1])
    requires |PageOf(stores[|stores| - 1], ReadFrom(stores[..|stores| - 1]))| < PAGE_SIZE
    ensures Ascending(EntryLess, ReadFrom(stores))
    ensures forall e | e in ReadFrom(stores) :: exists k :: 0 <= k < |stores| && IsRecoverable(stores[k], e)
    ensures forall e | IsRecoverable(stores[|stores| - 1], e) :: e in ReadFrom(stores)
  {
    hide Run, JournalOk, PageOf, IsRecoverable, HistoryGrew, NothingMissed, AllFull;
    var front, last := stores[..|stores| - 1], stores[|stores| - 1];
    forall k | 0 <= k < |stores| ensures JournalOk(stores[k]) && HistoryGrew(stores[k], last) {
      RunHistory(states, steps, at[k], at[|at| - 1]);
      ReachableJournal(states, steps, at[k]);
    }
    PagesAscend(stores);
    PagesMissNothing(front, last);
    LastPageMissesNothing(last, ReadFrom(front));
  }

  lemma ReachableJournal(states: seq<System>, steps: seq<Step>, i: nat)
    requires Run(states, steps) && i < |states|
    ensures JournalOk(states[i].store)
  {
    hide Run;
    ReachableLogRefinesState(states, steps, i);
  }

  lemma LastPageMissesNothing(last: Store, read: seq<JournalEntry>)
    requires JournalOk(last) && NothingMissed(read, last) && |PageOf(last, read)| < PAGE_SIZE
    ensures forall e | IsRecoverable(last, e) :: e in read + PageOf(last, read)
  {
    hide JournalOk, PageOf, IsRecoverable, EntryLess;
    PageHolds(last, read);
  }
}
