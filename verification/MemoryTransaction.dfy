/** The transaction object: staged writes accumulate in place over an immutable snapshot. */
module MemoryTransactions {
  import opened Order
  import opened StateStrings
  import opened StoreModel
  import opened Transactions

  predicate IdLess(a: StateKey, b: StateKey) { LexLess(a.id, b.id) }

  lemma IdOrder()
    ensures StrictWeak(IdLess)
  {
    CodeUnitOrder();
    ByKey(IdLess, CodeUnitLess, (key: StateKey) => key.id);
  }

  /** Within one collection, ordering by identifier is ordering by key. */
  lemma SelectedById(records: map<StateKey, Record>, q: Query)
    ensures Ascending(IdLess, SelectedKeys(records, q))
  {
    var keys := SelectedKeys(records, q);
    LexIrreflexive(q.namespace);
    LexIrreflexive(q.collection);
    forall i, j | 0 <= i < j < |keys| ensures IdLess(keys[i], keys[j]) {
      assert keys[i] in Selection(records, q) && keys[j] in Selection(records, q);
      assert KeyLess(keys[i], keys[j]);
    }
  }

  lemma SortSelected(records: map<StateKey, Record>, q: Query, matching: seq<StateKey>)
    requires Distinct(matching) && forall key :: key in matching <==> key in records && Selects(q, key)
    ensures Sort(IdLess, matching) == SelectedKeys(records, q)
  {
    forall a, b | a in matching && b in matching && a != b ensures IdLess(a, b) || IdLess(b, a) {
      LexConnected(a.id, b.id);
    }
    IdOrder();
    SortDistinct(IdLess, matching);
    SelectedById(records, q);
    AscendingUnique(IdLess, Sort(IdLess, matching), SelectedKeys(records, q));
  }

  /** Array filter and sort over the map's values, as the scan does it. */
  method CollectRows(records: map<StateKey, Record>, q: Query) returns (rows: seq<Row>)
    requires ValidQuery(q)
    ensures rows == ScanRows(records, q)
  {
    var matching: seq<StateKey> := [];
    var rest := records.Keys;
    while rest != {}
      invariant rest <= records.Keys
      invariant Distinct(matching)
      invariant forall key :: key in matching <==> key in records && key !in rest && Selects(q, key)
      decreases rest
    {
      var key :| key in rest;
      rest := rest - {key};
      if Selects(q, key) {
        matching := matching + [key];
      }
    }
    var sorted := Sort(IdLess, matching);
    SortSelected(records, q, matching);
    var taken := if q.limit.Some? && q.limit.value < |sorted| then sorted[..q.limit.value] else sorted;
    assert forall key | key in taken :: key in sorted;
    rows := RowsAt(records, taken);
  }

  lemma MutationOrder()
    ensures StrictWeak(MutationLess)
  {
    KeyOrder();
    ByKey(MutationLess, KeyLess, (m: Mutation) => m.key);
  }

  /** Sorting the staged mutations by key gives their unique ascending arrangement. */
  lemma SortedIsUnique(mutations: map<StateKey, Mutation>, ms: seq<Mutation>)
    requires forall key | key in mutations :: mutations[key].key == key
    requires Distinct(ms) && forall m :: m in ms <==> m.key in mutations && mutations[m.key] == m
    ensures Sort(MutationLess, ms) == SortedMutations(mutations)
  {
    assert NoTies(MutationLess, ms) by { KeyOrder(); }
    MutationOrder();
    SortDistinct(MutationLess, ms);
    AscendingUnique(MutationLess, Sort(MutationLess, ms), SortedMutations(mutations));
  }

  class MemoryTransaction {
    const snapshot: map<StateKey, Record>
    var mutations: map<StateKey, Mutation>
    var operations: seq<Operation>
    var operationIds: set<JsString>
    var outbox: seq<OutboxMessage>
    var active: bool

    ghost function View(): Tx
      reads this
    {
      Tx(snapshot, mutations, operations, outbox)
    }

    ghost predicate Valid()
      reads this
    {
      TxOk(View()) && operationIds == set o | o in operations :: o.operationId
    }

    constructor (snapshot: map<StateKey, Record>)
      ensures Valid() && active && View() == Begun(snapshot)
    {
      this.snapshot := snapshot;
      mutations, operations, operationIds, outbox := map[], [], {}, [];
      active := true;
    }

    method Get(key: StateKey) returns (seen: Observation)
      requires Valid()
      ensures seen == if active then GetFrom(View(), key) else Rejected(Closed)
    {
      if !active {
        return Rejected(Closed);
      }
      if !PortableKey(key) {
        return Rejected(QueryInvalid);
      }
      if key in mutations {
        var mutation := mutations[key];
        if mutation.Delete? {
          return Missing;
        }
        return Found(mutation.value, if key in snapshot then snapshot[key].revision else 0);
      }
      seen := if key in snapshot then Found(snapshot[key].value, snapshot[key].revision) else Missing;
    }

    method Scan(q: Query) returns (seen: Observation)
      requires Valid()
      ensures seen ==
        if !active then Rejected(Closed)
        else if !ValidQuery(q) then Rejected(QueryInvalid)
        else Rows(ScanRows(Visible(View()), q))
    {
      if !active {
        return Rejected(Closed);
      }
      if !ValidQuery(q) {
        return Rejected(QueryInvalid);
      }
      var records := snapshot;
      var rest := mutations.Keys;
      while rest != {}
        invariant rest <= mutations.Keys
        invariant forall key ::
          key in records <==> (if key in mutations && key !in rest then mutations[key].Put? else key in snapshot)
        invariant forall key | key in records ::
          records[key] ==
            (if key in mutations && key !in rest then Record(mutations[key].value, SnapshotRevision(snapshot, key))
             else snapshot[key])
        decreases rest
      {
        var key :| key in rest;
        rest := rest - {key};
        if mutations[key].Delete? {
          records := records - {key};
        } else {
          records := records[key := Record(mutations[key].value, if key in snapshot then snapshot[key].revision
                                           else 0)];
        }
      }
      assert records == Visible(View());
      var rows := CollectRows(records, q);
      seen := Rows(rows);
    }

    /** A later put or delete of the same key replaces the earlier one, expectation included. */
    method Put(key: StateKey, value: Json, expected: Expected) returns (seen: Observation)
      requires Valid()
      modifies this`mutations
      ensures Valid()
      ensures !active ==> seen == Rejected(Closed) && View() == old(View())
      ensures active ==> (View(), seen) == Perform(old(View()), PutOp(key, value, expected))
    {
      if !active {
        return Rejected(Closed);
      }
      if !PortableKey(key) {
        return Rejected(DataInvalid);
      }
      mutations := mutations[key := Mutation.Put(key, value, expected)];
      seen := Accepted;
    }

    method Delete(key: StateKey, expected: Expected) returns (seen: Observation)
      requires Valid()
      modifies this`mutations
      ensures Valid()
      ensures !active ==> seen == Rejected(Closed) && View() == old(View())
      ensures active ==> (View(), seen) == Perform(old(View()), DeleteOp(key, expected))
    {
      if !active {
        return Rejected(Closed);
      }
      if !PortableKey(key) {
        return Rejected(DataInvalid);
      }
      mutations := mutations[key := Mutation.Delete(key, expected)];
      seen := Accepted;
    }

    method AppendOperation(operation: Operation) returns (seen: Observation)
      requires Valid()
      modifies this`operations, this`operationIds
      ensures Valid()
      ensures !active ==> seen == Rejected(Closed) && View() == old(View())
      ensures active ==> (View(), seen) == Perform(old(View()), AppendOp(operation))
    {
      if !active {
        return Rejected(Closed);
      }
      if operation.operationId in operationIds {
        assert HasAppended(operations, operation.operationId);
        return Rejected(DataInvalid);
      }
      assert forall i | 0 <= i < |operations| ::
        operations[i] in operations && operations[i].operationId in operationIds;
      operationIds := operationIds + {operation.operationId};
      operations := operations + [operation];
      seen := Accepted;
    }

    method EnqueueOutbox(message: OutboxMessage) returns (seen: Observation)
      requires Valid()
      modifies this`outbox
      ensures Valid()
      ensures !active ==> seen == Rejected(Closed) && View() == old(View())
      ensures active ==> (View(), seen) == Perform(old(View()), EnqueueOp(message))
    {
      if !active {
        return Rejected(Closed);
      }
      outbox := outbox + [message];
      seen := Accepted;
    }

    method Finish() returns (staged: Staged)
      requires Valid() && active
      modifies this`active
      ensures Valid() && !active && View() == old(View())
      ensures staged == Transactions.Finish(View()) && WellStaged(staged)
    {
      hide SortedMutations, Sort, Ascending, MutationLess;
      active := false;
      var values: seq<Mutation> := [];
      var rest := mutations.Keys;
      while rest != {}
        invariant rest <= mutations.Keys
        invariant Distinct(values)
        invariant forall m :: m in values <==> m.key in mutations && m.key !in rest && mutations[m.key] == m
        decreases rest
      {
        var key :| key in rest;
        rest := rest - {key};
        values := values + [mutations[key]];
      }
      SortedIsUnique(mutations, values);
      staged := Staged(Sort(MutationLess, values), operations, outbox);
    }

    method Abort()
      modifies this`active
      ensures !active
    {
      active := false;
    }
  }
}
