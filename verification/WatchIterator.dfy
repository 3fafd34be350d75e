/** A live watcher: queued changes, readers waiting for changes, and who was answered with what. */
module WatchIterators {
  import opened StateStrings
  import opened StoreModel

  datatype ReadResult = Item(change: Change) | End

  /** The log's changes after a cursor, in order. */
  function After(changes: seq<Change>, cursor: nat): seq<Change> {
    if changes == [] then []
    else
      var last := changes[|changes| - 1];
      After(changes[..|changes| - 1], cursor) + (if last.revision > cursor then [last] else [])
  }

  lemma {:induction false} AfterExtends(changes: seq<Change>, added: seq<Change>, cursor: nat)
    requires forall c | c in added :: c.revision > cursor
    ensures After(changes + added, cursor) == After(changes, cursor) + added
  {
    if added == [] {
      assert changes + added == changes;
    } else {
      var init := added[..|added| - 1];
      assert (changes + added)[..|changes + added| - 1] == changes + init;
      assert init + [added[|added| - 1]] == added;
      AfterExtends(changes, init, cursor);
    }
  }

  class MemoryWatchIterator {
    ghost const cursor: nat
    var queue: seq<Change>
    var waiters: seq<nat>
    var answers: map<nat, ReadResult>
    var tickets: nat
    var closed: bool
    ghost var delivered: seq<Change>

    /** Readers are answered in the order they asked; a waiting reader means nothing is queued. */
    ghost predicate Valid()
      reads this
    {
      && (forall t | 0 <= t < tickets :: t in answers || t in waiters)
      && (forall t | 0 <= t < |delivered| :: t in answers && answers[t] == Item(delivered[t]))
      && |delivered| <= tickets
      && (!closed ==>
            && |delivered| + |waiters| == tickets
            && (forall i | 0 <= i < |waiters| :: waiters[i] == |delivered| + i)
            && (waiters != [] ==> queue == []))
      && (closed ==> queue == [] && waiters == [] && forall t | |delivered| <= t < tickets :: answers[t] == End)
    }

    /** Everything this watcher has been given: delivered first, then still queued. */
    ghost function Stream(): seq<Change>
      reads this
    {
      delivered + queue
    }

    constructor (changes: seq<Change>, cursor: nat)
      ensures Valid() && !closed && this.cursor == cursor
      ensures Stream() == changes
      ensures delivered == [] && waiters == [] && tickets == 0
    {
      this.cursor := cursor;
      queue, waiters, answers, tickets, closed := changes, [], map[], 0, false;
      delivered := [];
    }

    /** A read gets its own ticket; the answer may come later. */
    method Next() returns (ticket: nat)
      requires Valid()
      modifies this
      ensures Valid() && ticket == old(tickets) && tickets == old(tickets) + 1
      ensures Stream() == old(Stream()) && closed == old(closed)
      ensures !closed && old(queue) != [] ==>
        delivered == old(delivered) + [old(queue)[0]] && ticket in answers && answers[ticket] == Item(old(queue)[0])
      ensures !closed && old(queue) == [] ==> waiters == old(waiters) + [ticket] && delivered == old(delivered)
      ensures closed ==> ticket in answers && answers[ticket] == End && delivered == old(delivered)
    {
      ticket := tickets;
      tickets := tickets + 1;
      if queue != [] {
        var change := queue[0];
        queue := queue[1..];
        answers := answers[ticket := Item(change)];
        delivered := delivered + [change];
      } else if closed {
        answers := answers[ticket := End];
      } else {
        waiters := waiters + [ticket];
      }
    }

    method Push(change: Change)
      requires Valid()
      modifies this
      ensures Valid() && closed == old(closed) && tickets == old(tickets)
      ensures Stream() == if closed then old(Stream()) else old(Stream()) + [change]
      ensures old(waiters) != [] ==>
        old(waiters)[0] in answers && answers[old(waiters)[0]] == Item(change) && delivered == old(delivered) + [change]
      ensures old(waiters) == [] ==> delivered == old(delivered)
    {
      if closed {
        return;
      }
      if waiters == [] {
        queue := queue + [change];
      } else {
        answers := answers[waiters[0] := Item(change)];
        waiters := waiters[1..];
        delivered := delivered + [change];
      }
    }

    /** Closing drops what is queued and ends every waiting read. */
    method Close()
      requires Valid()
      modifies this
      ensures Valid() && closed && delivered == old(delivered) && tickets == old(tickets)
      ensures forall t | t in old(waiters) :: t in answers && answers[t] == End
      ensures old(closed) ==> answers == old(answers)
    {
      if closed {
        return;
      }
      closed := true;
      queue := [];
      var pending := waiters;
      waiters := [];
      var i := 0;
      while i < |pending|
        invariant 0 <= i <= |pending|
        invariant closed && queue == [] && waiters == [] && delivered == old(delivered) && tickets == old(tickets)
        invariant pending == old(waiters)
        invariant forall t :: t in answers <==> t in old(answers) || t in pending[..i]
        invariant forall t | t in answers :: answers[t] == if t in pending[..i] then End else old(answers)[t]
      {
        answers := answers[pending[i] := End];
        assert pending[..i + 1] == pending[..i] + [pending[i]];
        i := i + 1;
      }
      assert pending[..i] == pending;
      assert forall k | 0 <= k < |pending| :: pending[k] >= |delivered|;
      forall t | |delivered| <= t < tickets ensures t in pending { assert pending[t - |delivered|] == t; }
    }
  }
}
