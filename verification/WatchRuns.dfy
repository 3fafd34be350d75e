/** What a watcher that starts at a cursor is owed as the store moves on. */
module WatchRuns {
  import opened StateStrings
  import opened StoreModel
  import opened StoreInvariants
  import opened TransactionRuns
  import opened Serializability
  import opened WatchIterators

  /** Whatever runs in between, what a watcher with a past cursor is owed later is what it was
      owed then followed by everything the log gained since: nothing skipped, moved or repeated. */
  lemma WatchersMissNothing(states: seq<System>, steps: seq<Step>, i: nat, j: nat, cursor: nat)
    requires Run(states, steps) && i <= j < |states| && cursor <= states[i].store.revision
    ensures |states[i].store.changes| <= |states[j].store.changes|
    ensures After(states[j].store.changes, cursor) ==
      After(states[i].store.changes, cursor) + states[j].store.changes[|states[i].store.changes|..]
  {
    hide Run, After;
    RunGrows(states, steps, i, j);
    var a, b := states[i].store.changes, states[j].store.changes;
    assert b == a + b[|a|..];
    forall c | c in b[|a|..] ensures c.revision > cursor {
      var k :| 0 <= k < |b| - |a| && b[|a|..][k] == c;
      assert b[|a| + k] == c;
    }
    AfterExtends(a, b[|a|..], cursor);
  }

  /** In a log whose revisions never fall, what comes after a cursor is the rest of the log, from the
      first change of a later revision on. */
  lemma {:induction false} AfterIsTheRest(changes: seq<Change>, cursor: nat)
    returns (k: nat)
    requires forall i, j | 0 <= i < j < |changes| :: changes[i].revision <= changes[j].revision
    ensures k <= |changes| && After(changes, cursor) == changes[k..]
    ensures forall i | 0 <= i < k :: changes[i].revision <= cursor
    ensures forall i | k <= i < |changes| :: changes[i].revision > cursor
  {
    if changes == [] || changes[|changes| - 1].revision <= cursor {
      k := |changes|;
      NothingAfter(changes, cursor);
    } else {
      var front, last := changes[..|changes| - 1], changes[|changes| - 1];
      k := AfterIsTheRest(front, cursor);
      RestExtends(front, last, k, After(front, cursor));
      assert changes == front + [last];
    }
  }

  lemma RestExtends(front: seq<Change>, last: Change, k: nat, rest: seq<Change>)
    requires k <= |front| && rest == front[k..]
    ensures rest + [last] == (front + [last])[k..]
  {
  }

  // ----- Cursors beyond the revision

  lemma {:induction false} AfterConcat(a: seq<Change>, b: seq<Change>, cursor: nat)
    ensures After(a + b, cursor) == After(a, cursor) + After(b, cursor)
  {
    if b == [] {
      assert a + b == a;
    } else {
      assert (a + b)[..|a + b| - 1] == a + b[..|b| - 1];
      AfterConcat(a, b[..|b| - 1], cursor);
    }
  }

  /** Some change at or below the cursor is missing after it. */
  lemma {:induction false} AfterDrops(changes: seq<Change>, cursor: nat)
    ensures |After(changes, cursor)| <= |changes|
    ensures (exists k :: 0 <= k < |changes| && changes[k].revision <= cursor) ==> |After(changes, cursor)| < |changes|
  {
    if changes != [] {
      var front := changes[..|changes| - 1];
      AfterDrops(front, cursor);
      if k :| 0 <= k < |changes| && changes[k].revision <= cursor {
        assert k < |front| ==> front[k].revision <= cursor;
      }
    }
  }

  /** Pushing changes of ascending revisions keeps a watcher's stream equal to the log after its
      cursor if and only if the cursor lies below the first of them. */
  lemma PushedAreOwed(changes: seq<Change>, added: seq<Change>, cursor: nat)
    requires forall i, j | 0 <= i < j < |added| :: added[i].revision <= added[j].revision
    ensures After(changes, cursor) + added == After(changes + added, cursor) <==>
      added == [] || cursor < added[0].revision
  {
    AfterConcat(changes, added, cursor);
    if added == [] || cursor < added[0].revision {
      forall c | c in added ensures c.revision > cursor {
        var k :| 0 <= k < |added| && added[k] == c;
      }
      AfterExtends(changes, added, cursor);
    } else {
      AfterDrops(added, cursor);
      assert added[0].revision <= cursor;
    }
  }

  /** For any cursor: what a watcher has been given at the end of a run, which is all that its
      start owed it and all that was published since, is the log after its cursor if and only if
      nothing was published or the cursor lies below the first change that was. */
  lemma StreamIsLogAfterCursor(states: seq<System>, steps: seq<Step>, i: nat, j: nat, cursor: nat)
    requires Run(states, steps) && i <= j < |states|
    ensures states[i].store.changes <= states[j].store.changes
    ensures var a, b := states[i].store.changes, states[j].store.changes;
      After(a, cursor) + b[|a|..] == After(b, cursor) <==> a == b || cursor < b[|a|].revision
  {
    hide Run, After;
    RunGrows(states, steps, i, j);
    ReachableLogRefinesState(states, steps, j);
    var a, b := states[i].store.changes, states[j].store.changes;
    assert b == a + b[|a|..];
    forall k, l | 0 <= k < l < |b[|a|..]| ensures b[|a|..][k].revision <= b[|a|..][l].revision {
      assert b[|a| + k].revision <= b[|a| + l].revision;
    }
    PushedAreOwed(a, b[|a|..], cursor);
  }

  /** A commit that publishes changes gives a watcher what it is owed if and only if its cursor
      does not lie beyond the revision the store had. */
  lemma CommitOwesPastCursors(s: Store, fencing: Option<Fencing>, identity: Option<Identity>, staged: Staged,
                              result: Json, cursor: nat)
    requires LogOrdered(s) && Commit(s, fencing, identity, staged, result).0.changes != s.changes
    ensures var s' := Commit(s, fencing, identity, staged, result).0;
      && s.changes < s'.changes
      && (After(s.changes, cursor) + s'.changes[|s.changes|..] == After(s'.changes, cursor) <==> cursor <= s.revision)
  {
    hide Commit, After;
    CommitOwnsItsRevision(s, fencing, identity, staged, result);
    var s' := Commit(s, fencing, identity, staged, result).0;
    assert s'.changes == s.changes + s'.changes[|s.changes|..];
    PushedAreOwed(s.changes, s'.changes[|s.changes|..], cursor);
  }

  /** So a watcher started beyond the revision is given the next put although it lies at or
      below its cursor. */
  lemma EarlyWatcherGetsTooMuch(s: Store, key: StateKey, cursor: nat)
    requires LogOrdered(s) && s.lifecycle == Open && s.revision < cursor
    ensures var s' := Commit(s, None, None, Staged([Put(key, Null, Any)], [], []), Null).0;
      && s'.changes == s.changes + [Change(s.revision + 1, key, Some(Null))]
      && After(s.changes, cursor) == After(s'.changes, cursor) == []
  {
    var ms := [Put(key, Null, Any)];
    assert Applied(s.records, ms) == ms;
    assert ChangesOf(ms, s.revision + 1) == [Change(s.revision + 1, key, Some(Null))];
    NothingAfter(s.changes, cursor);
    NothingAfter(s.changes + [Change(s.revision + 1, key, Some(Null))], cursor);
  }

  lemma {:induction false} NothingAfter(changes: seq<Change>, cursor: nat)
    requires forall i | 0 <= i < |changes| :: changes[i].revision <= cursor
    ensures After(changes, cursor) == []
  {
    if changes != [] { NothingAfter(changes[..|changes| - 1], cursor); }
  }
}
