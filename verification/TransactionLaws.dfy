/** What a transaction's work observes and leaves staged, in terms of what it asked for. */
module TransactionLaws {
  import opened Order
  import opened StateStrings
  import opened StoreModel
  import opened Transactions

  /** The k-th request was made and accepted. */
  ghost predicate Answered(snapshot: map<StateKey, Record>, program: Program, k: nat) {
    |Execute(snapshot, program, k + 1).seen| == k + 1 && Execute(snapshot, program, k + 1).seen[k] == Accepted
  }

  ghost predicate Writes(op: Op, key: StateKey) {
    (op.PutOp? || op.DeleteOp?) && op.key == key
  }

  /** The last accepted put or delete of a key among the first n requests. */
  ghost function LastWrite(snapshot: map<StateKey, Record>, program: Program, n: nat, key: StateKey): Option<Op> {
    if n == 0 then None
    else if Writes(RequestAt(snapshot, program, n - 1), key) && Answered(snapshot, program, n - 1) then
      Some(RequestAt(snapshot, program, n - 1))
    else LastWrite(snapshot, program, n - 1, key)
  }

  /** The accepted appends among the first n requests, in order, and the messages enqueued. */
  ghost function Appended(snapshot: map<StateKey, Record>, program: Program, n: nat): seq<Operation> {
    if n == 0 then []
    else
      var op := RequestAt(snapshot, program, n - 1);
      Appended(snapshot, program, n - 1)
        + if op.AppendOp? && Answered(snapshot, program, n - 1) then [op.operation] else []
  }

  ghost function Enqueuing(snapshot: map<StateKey, Record>, program: Program, n: nat): seq<OutboxMessage> {
    if n == 0 then []
    else
      var op := RequestAt(snapshot, program, n - 1);
      Enqueuing(snapshot, program, n - 1)
        + if op.EnqueueOp? && Answered(snapshot, program, n - 1) then [op.message] else []
  }

  /** Every request gets one answer, until the program has come to an end. */
  lemma {:induction false} OneAnswerEach(snapshot: map<StateKey, Record>, program: Program, n: nat)
    ensures |Execute(snapshot, program, n).seen| == n || Terminal(RequestAt(snapshot, program, n))
  {
    hide Perform, TxOk;
    if n > 0 {
      OneAnswerEach(snapshot, program, n - 1);
      var p := Execute(snapshot, program, n - 1);
      assert RequestAt(snapshot, program, n - 1) == program(p.seen);
    }
  }

  /** Once it has, nothing is asked any more. */
  lemma {:induction false} EndedStays(snapshot: map<StateKey, Record>, program: Program, k: nat, n: nat)
    requires k <= n && Terminal(RequestAt(snapshot, program, k))
    ensures Execute(snapshot, program, n) == Execute(snapshot, program, k)
    decreases n
  {
    hide Perform, TxOk;
    if k < n { EndedStays(snapshot, program, k, n - 1); }
  }

  /** One request more. */
  lemma NextRequest(snapshot: map<StateKey, Record>, program: Program, n: nat)
    requires |Execute(snapshot, program, n).seen| == n && !Terminal(RequestAt(snapshot, program, n))
    ensures var p, op := Execute(snapshot, program, n), RequestAt(snapshot, program, n);
      Execute(snapshot, program, n + 1) == Progress(Perform(p.tx, op).0, p.seen + [Perform(p.tx, op).1])
  {
  }

  /** What one accepted request adds to what is staged; one that is not accepted adds nothing. */
  lemma RequestAdds(tx: Tx, op: Op)
    requires !Terminal(op)
    ensures var (tx', seen) := Perform(tx, op);
      && tx'.operations == tx.operations + (if op.AppendOp? && seen == Accepted then [op.operation] else [])
      && tx'.outbox == tx.outbox + (if op.EnqueueOp? && seen == Accepted then [op.message] else [])
      && tx'.mutations ==
        if seen != Accepted then tx.mutations
        else if op.PutOp? then tx.mutations[op.key := Put(op.key, op.value, op.expected)]
        else if op.DeleteOp? then tx.mutations[op.key := Delete(op.key, op.expected)]
        else tx.mutations
  {
    hide PortableKey, ScanRows;
  }

  lemma LastAnswer(snapshot: map<StateKey, Record>, program: Program, n: nat)
    requires n > 0
    ensures var p, op := Execute(snapshot, program, n - 1), RequestAt(snapshot, program, n - 1);
      && (Terminal(op) ==> Execute(snapshot, program, n) == p && !Answered(snapshot, program, n - 1))
      && (!Terminal(op) ==>
            && Execute(snapshot, program, n).tx == Perform(p.tx, op).0
            && (Answered(snapshot, program, n - 1) <==> Perform(p.tx, op).1 == Accepted))
  {
    hide Perform, TxOk;
    OneAnswerEach(snapshot, program, n - 1);
    if !Terminal(RequestAt(snapshot, program, n - 1)) { NextRequest(snapshot, program, n - 1); }
  }

  /** What is staged is, key by key, the last accepted write with its own expectation; and the
      appended operations and enqueued messages in the order they were asked for. */
  lemma {:induction false} StagedIsLastWrite(snapshot: map<StateKey, Record>, program: Program, n: nat, key: StateKey)
    ensures var ms, last := Execute(snapshot, program, n).tx.mutations, LastWrite(snapshot, program, n, key);
      && (key in ms <==> last.Some?)
      && (last.Some? && last.value.PutOp? ==> ms[key] == Put(key, last.value.value, last.value.expected))
      && (last.Some? && last.value.DeleteOp? ==> ms[key] == Delete(key, last.value.expected))
      && (last.Some? ==> last.value.PutOp? || last.value.DeleteOp?)
  {
    if n > 0 {
      hide Perform, TxOk, Answered, RequestAt, Execute;
      StagedIsLastWrite(snapshot, program, n - 1, key);
      LastAnswer(snapshot, program, n);
      var p, op := Execute(snapshot, program, n - 1), RequestAt(snapshot, program, n - 1);
      if !Terminal(op) { RequestAdds(p.tx, op); }
    }
  }

  lemma {:induction false} StagedInOrder(snapshot: map<StateKey, Record>, program: Program, n: nat)
    ensures Execute(snapshot, program, n).tx.operations == Appended(snapshot, program, n)
    ensures Execute(snapshot, program, n).tx.outbox == Enqueuing(snapshot, program, n)
  {
    if n > 0 {
      hide Perform, TxOk, Answered, RequestAt, Execute;
      StagedInOrder(snapshot, program, n - 1);
      LastAnswer(snapshot, program, n);
      var p, op := Execute(snapshot, program, n - 1), RequestAt(snapshot, program, n - 1);
      if !Terminal(op) { RequestAdds(p.tx, op); }
    }
  }

  /** A transaction reads its own last write of a key, and the snapshot where it wrote nothing;
      either way with the revision of the snapshot. */
  lemma GetSeesLastWrite(snapshot: map<StateKey, Record>, program: Program, n: nat, key: StateKey)
    requires |Execute(snapshot, program, n).seen| == n && RequestAt(snapshot, program, n) == GetOp(key)
    ensures |Execute(snapshot, program, n + 1).seen| == n + 1
    ensures Execute(snapshot, program, n + 1).seen[n] ==
      if !(Portable(key.namespace) && Portable(key.collection) && Portable(key.id)) then Rejected(QueryInvalid)
      else match LastWrite(snapshot, program, n, key)
        case None => if key in snapshot then Found(snapshot[key].value, snapshot[key].revision) else Missing
        case Some(op) =>
          if op.PutOp? then Found(op.value, if key in snapshot then snapshot[key].revision else 0) else Missing
  {
    hide Portable, TxOk;
    StagedIsLastWrite(snapshot, program, n, key);
    NextRequest(snapshot, program, n);
    hide Execute;
  }

  /** Which writes are accepted: puts and deletes of portable keys, appends of an operation not
      appended yet, and every message. */
  lemma AcceptedWrites(snapshot: map<StateKey, Record>, program: Program, n: nat)
    requires |Execute(snapshot, program, n).seen| == n
    ensures var op := RequestAt(snapshot, program, n);
      && (op.PutOp? || op.DeleteOp? ==>
            (Answered(snapshot, program, n) <==>
               Portable(op.key.namespace) && Portable(op.key.collection) && Portable(op.key.id)))
      && (op.AppendOp? ==>
            (Answered(snapshot, program, n) <==>
               forall o | o in Appended(snapshot, program, n) :: o.operationId != op.operation.operationId))
      && (op.EnqueueOp? ==> Answered(snapshot, program, n))
  {
    hide Portable, TxOk, ScanRows, GetFrom;
    var op := RequestAt(snapshot, program, n);
    StagedInOrder(snapshot, program, n);
    if !Terminal(op) { NextRequest(snapshot, program, n); }
    hide Execute, Appended;
  }

  // ----- What is handed to the commit

  /** Finishing hands over one mutation for every key written, in key order, and the rest as staged. */
  lemma FinishHandsOver(snapshot: map<StateKey, Record>, program: Program, n: nat)
    ensures var staged := Finish(Execute(snapshot, program, n).tx);
      && (forall i, j | 0 <= i < j < |staged.mutations| :: KeyLess(staged.mutations[i].key, staged.mutations[j].key))
      && (forall m | m in staged.mutations ::
            var last := LastWrite(snapshot, program, n, m.key);
            last.Some? && m == if last.value.PutOp? then Put(m.key, last.value.value, last.value.expected)
                               else if last.value.DeleteOp? then Delete(m.key, last.value.expected) else m)
      && (forall key | LastWrite(snapshot, program, n, key).Some? :: exists m :: m in staged.mutations && m.key == key)
      && staged.operations == Appended(snapshot, program, n) && staged.outbox == Enqueuing(snapshot, program, n)
  {
    var tx := Execute(snapshot, program, n).tx;
    var staged := Finish(tx);
    hide Execute, LastWrite, Appended, Enqueuing, KeyLess, SortedMutations;
    StagedInOrder(snapshot, program, n);
    forall i, j | 0 <= i < j < |staged.mutations|
      ensures KeyLess(staged.mutations[i].key, staged.mutations[j].key)
    {
      assert MutationLess(staged.mutations[i], staged.mutations[j]);
    }
    forall m | m in staged.mutations ensures m.key in tx.mutations && tx.mutations[m.key] == m {}
    forall m | m in staged.mutations
      ensures LastWrite(snapshot, program, n, m.key).Some?
      ensures var op := LastWrite(snapshot, program, n, m.key).value;
        && (op.PutOp? ==> m == Put(m.key, op.value, op.expected))
        && (op.DeleteOp? ==> m == Delete(m.key, op.expected))
    {
      StagedIsLastWrite(snapshot, program, n, m.key);
    }
    forall key | LastWrite(snapshot, program, n, key).Some? ensures exists m :: m in staged.mutations && m.key == key {
      StagedIsLastWrite(snapshot, program, n, key);
      assert tx.mutations[key] in staged.mutations;
    }
  }

  // ----- Scans

  ghost predicate Asked(q: Query, key: StateKey) {
    && key.namespace == q.namespace && key.collection == q.collection
    && (q.idPrefix.Some? ==> |q.idPrefix.value| <= |key.id| && key.id[..|q.idPrefix.value|] == q.idPrefix.value)
    && (q.afterId.Some? ==> LexLess(q.afterId.value, key.id))
  }

  /** A scan yields records of the collection with the prefix, beyond the resume point, in identifier
      order; and every such record, unless the limit is reached and it comes after all that were yielded. */
  lemma ScanYields(records: map<StateKey, Record>, q: Query)
    requires ValidQuery(q)
    ensures var rows := ScanRows(records, q);
      && (forall row | row in rows :: Asked(q, row.key) && row.key in records
            && row.value == records[row.key].value && row.revision == records[row.key].revision)
      && (forall i, j | 0 <= i < j < |rows| :: LexLess(rows[i].key.id, rows[j].key.id))
      && (q.limit.Some? ==> |rows| <= q.limit.value)
      && (forall key | key in records && Asked(q, key) ::
            || (exists row :: row in rows && row.key == key)
            || (q.limit.Some? && |rows| == q.limit.value && forall row | row in rows :: LexLess(row.key.id, key.id)))
  {
    var all := SelectedKeys(records, q);
    var rows := ScanRows(records, q);
    hide ScanRows, SelectedKeys, LexLess;
    ScanIsPrefix(records, q);
    SelectedOnIds(records, q);
    forall key | key in records && Asked(q, key)
      ensures || (exists row :: row in rows && row.key == key)
              || (q.limit.Some? && |rows| == q.limit.value && forall row | row in rows :: LexLess(row.key.id, key.id))
    {
      assert Selects(q, key) && key in all;
      var k :| 0 <= k < |all| && all[k] == key;
      if k < |rows| {
        assert rows[k] in rows && rows[k].key == key;
      } else {
        forall row | row in rows ensures LexLess(row.key.id, key.id) {
          var i :| 0 <= i < |rows| && rows[i] == row;
        }
      }
    }
  }

  lemma ScanIsPrefix(records: map<StateKey, Record>, q: Query)
    requires ValidQuery(q)
    ensures var rows, all := ScanRows(records, q), SelectedKeys(records, q);
      && |rows| == (if q.limit.Some? && q.limit.value < |all| then q.limit.value else |all|)
      && forall i | 0 <= i < |rows| ::
        all[i] in records && Selects(q, all[i])
          && rows[i] == Row(all[i], records[all[i]].value, records[all[i]].revision)
  {
    var all := SelectedKeys(records, q);
    forall i | 0 <= i < |all| ensures all[i] in records && Selects(q, all[i]) {
      assert all[i] in Selection(records, q);
    }
  }

  lemma SelectedOnIds(records: map<StateKey, Record>, q: Query)
    ensures forall i, j | 0 <= i < j < |SelectedKeys(records, q)| ::
      LexLess(SelectedKeys(records, q)[i].id, SelectedKeys(records, q)[j].id)
  {
    var all := SelectedKeys(records, q);
    LexIrreflexive(q.namespace);
    LexIrreflexive(q.collection);
    forall i, j | 0 <= i < j < |all| ensures LexLess(all[i].id, all[j].id) {
      assert all[i] in Selection(records, q) && all[j] in Selection(records, q);
      assert KeyLess(all[i], all[j]);
    }
  }
}
