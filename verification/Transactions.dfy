/** A transaction's private view: reads from the snapshot overlaid with its own staged writes. */
module Transactions {
  import opened Order
  import opened StateStrings
  import opened StoreModel

  datatype Query = Query(namespace: JsString, collection: JsString, idPrefix: Option<JsString>,
                         afterId: Option<JsString>, limit: Option<int>)

  const STATE_QUERY_MAX_LIMIT: nat := 100

  predicate PortableKey(key: StateKey) {
    Portable(key.namespace) && Portable(key.collection) && Portable(key.id)
  }

  predicate ValidQuery(q: Query) {
    && Portable(q.namespace) && Portable(q.collection)
    && (q.idPrefix.Some? ==> Portable(q.idPrefix.value))
    && (q.afterId.Some? ==> Portable(q.afterId.value))
    && (q.limit.Some? ==> 0 < q.limit.value <= STATE_QUERY_MAX_LIMIT)
  }

  datatype Row = Row(key: StateKey, value: Json, revision: nat)

  predicate Selects(q: Query, key: StateKey) {
    && key.namespace == q.namespace
    && key.collection == q.collection
    && (q.idPrefix.Some? ==> q.idPrefix.value <= key.id)
    && (q.afterId.Some? ==> LexLess(q.afterId.value, key.id))
  }

  function Selection(records: map<StateKey, Record>, q: Query): set<StateKey> {
    set key | key in records && Selects(q, key)
  }

  ghost function SelectedKeys(records: map<StateKey, Record>, q: Query): (keys: seq<StateKey>)
    ensures Ascending(KeyLess, keys)
    ensures forall key :: key in keys <==> key in Selection(records, q)
  {
    KeyOrder();
    Enumerate(KeyLess, Selection(records, q))
  }

  function RowsAt(records: map<StateKey, Record>, keys: seq<StateKey>): (rows: seq<Row>)
    requires forall key | key in keys :: key in records
    ensures |rows| == |keys|
    ensures forall i | 0 <= i < |rows| :: rows[i] == Row(keys[i], records[keys[i]].value, records[keys[i]].revision)
  {
    seq(|keys|, i requires 0 <= i < |keys| => Row(keys[i], records[keys[i]].value, records[keys[i]].revision))
  }

  /** The rows a query yields, in identifier order. */
  ghost function ScanRows(records: map<StateKey, Record>, q: Query): seq<Row>
    requires ValidQuery(q)
  {
    var keys := Limited(SelectedKeys(records, q), q.limit);
    assert forall i | 0 <= i < |keys| :: keys[i] in SelectedKeys(records, q);
    RowsAt(records, keys)
  }

  // ----- Staging

  datatype Tx = Tx(
    snapshot: map<StateKey, Record>,
    mutations: map<StateKey, Mutation>,
    operations: seq<Operation>,
    outbox: seq<OutboxMessage>)

  function Begun(snapshot: map<StateKey, Record>): Tx { Tx(snapshot, map[], [], []) }

  function SnapshotRevision(snapshot: map<StateKey, Record>, key: StateKey): nat {
    if key in snapshot then snapshot[key].revision else 0
  }

  predicate StillVisible(tx: Tx, key: StateKey) {
    if key in tx.mutations then tx.mutations[key].Put? else key in tx.snapshot
  }

  /** The snapshot with staged puts and deletes laid over it. */
  function Visible(tx: Tx): map<StateKey, Record> {
    map key | key in tx.snapshot.Keys + tx.mutations.Keys && StillVisible(tx, key) ::
      if key in tx.mutations then Record(tx.mutations[key].value, SnapshotRevision(tx.snapshot, key))
      else tx.snapshot[key]
  }

  predicate HasAppended(operations: seq<Operation>, id: JsString) {
    exists i :: 0 <= i < |operations| && operations[i].operationId == id
  }

  /** What a transaction's work may ask for next. */
  datatype Op =
    | GetOp(key: StateKey)
    | ScanOp(query: Query)
    | PutOp(key: StateKey, value: Json, expected: Expected)
    | DeleteOp(key: StateKey, expected: Expected)
    | AppendOp(operation: Operation)
    | EnqueueOp(message: OutboxMessage)
    | Return(result: Json)
    | Throw

  datatype Observation =
    | Missing
    | Found(value: Json, revision: nat)
    | Rows(rows: seq<Row>)
    | Accepted
    | Rejected(error: StoreError)

  predicate Terminal(op: Op) { op.Return? || op.Throw? }

  function GetFrom(tx: Tx, key: StateKey): Observation {
    if !PortableKey(key) then Rejected(QueryInvalid)
    else if key in tx.mutations && tx.mutations[key].Delete? then Missing
    else if key in tx.mutations then Found(tx.mutations[key].value, SnapshotRevision(tx.snapshot, key))
    else if key in tx.snapshot then Found(tx.snapshot[key].value, tx.snapshot[key].revision)
    else Missing
  }

  function Stage(tx: Tx, m: Mutation): (Tx, Observation) {
    if !PortableKey(m.key) then (tx, Rejected(DataInvalid))
    else (tx.(mutations := tx.mutations[m.key := m]), Accepted)
  }

  function Append(tx: Tx, operation: Operation): (Tx, Observation) {
    if HasAppended(tx.operations, operation.operationId) then (tx, Rejected(DataInvalid))
    else (tx.(operations := tx.operations + [operation]), Accepted)
  }

  ghost function Perform(tx: Tx, op: Op): (Tx, Observation)
    requires !Terminal(op)
  {
    match op
    case GetOp(key) => (tx, GetFrom(tx, key))
    case ScanOp(q) => (tx, if ValidQuery(q) then Rows(ScanRows(Visible(tx), q)) else Rejected(QueryInvalid))
    case PutOp(key, value, expected) => Stage(tx, Put(key, value, expected))
    case DeleteOp(key, expected) => Stage(tx, Delete(key, expected))
    case AppendOp(operation) => Append(tx, operation)
    case EnqueueOp(message) => (tx.(outbox := tx.outbox + [message]), Accepted)
  }

  ghost predicate TxOk(tx: Tx) {
    && (forall key | key in tx.mutations :: tx.mutations[key].key == key)
    && (forall i, j | 0 <= i < j < |tx.operations| :: tx.operations[i].operationId != tx.operations[j].operationId)
  }

  lemma PerformOk(tx: Tx, op: Op)
    requires TxOk(tx) && !Terminal(op)
    ensures TxOk(Perform(tx, op).0) && Perform(tx, op).0.snapshot == tx.snapshot
  {
    match op
    case AppendOp(operation) =>
    case _ =>
  }

  ghost function SortedKeys(keys: set<StateKey>): (sorted: seq<StateKey>)
    ensures Ascending(KeyLess, sorted) && |sorted| == |keys|
    ensures forall key :: key in sorted <==> key in keys
  {
    KeyOrder();
    Enumerate(KeyLess, keys)
  }

  function MutationsAt(mutations: map<StateKey, Mutation>, keys: seq<StateKey>): (ms: seq<Mutation>)
    requires forall key | key in keys :: key in mutations
    ensures |ms| == |keys| && forall i | 0 <= i < |ms| :: ms[i] == mutations[keys[i]]
  {
    seq(|keys|, i requires 0 <= i < |keys| => mutations[keys[i]])
  }

  /** Taken key by key, every mutation is there once. */
  lemma AllMutations(mutations: map<StateKey, Mutation>, keys: seq<StateKey>)
    requires forall key | key in mutations :: mutations[key].key == key
    requires Ascending(KeyLess, keys) && forall key :: key in keys <==> key in mutations
    ensures Ascending(MutationLess, MutationsAt(mutations, keys))
    ensures forall m :: m in MutationsAt(mutations, keys) <==> m.key in mutations && mutations[m.key] == m
  {
    hide KeyLess;
    var ms := MutationsAt(mutations, keys);
    forall i | 0 <= i < |ms| ensures ms[i].key == keys[i] && keys[i] in mutations {
      assert keys[i] in keys;
    }
    forall m: Mutation | m.key in mutations && mutations[m.key] == m ensures m in ms {
      var i :| 0 <= i < |keys| && keys[i] == m.key;
      assert ms[i] == m;
    }
  }

  ghost function SortedMutations(mutations: map<StateKey, Mutation>): (ms: seq<Mutation>)
    requires forall key | key in mutations :: mutations[key].key == key
    ensures Ascending(MutationLess, ms)
    ensures |ms| == |mutations|
    ensures forall m :: m in ms <==> m.key in mutations && mutations[m.key] == m
  {
    var keys := SortedKeys(mutations.Keys);
    AllMutations(mutations, keys);
    MutationsAt(mutations, keys)
  }

  ghost function Finish(tx: Tx): (staged: Staged)
    requires TxOk(tx)
    ensures WellStaged(staged)
  {
    Staged(SortedMutations(tx.mutations), tx.operations, tx.outbox)
  }

  // ----- Programs

  /** A transaction's work: the next request as a function of everything observed so far. */
  type Program = seq<Observation> -> Op

  datatype Progress = Progress(tx: Tx, seen: seq<Observation>)

  /** The first n requests of a program against a snapshot. */
  ghost function Execute(snapshot: map<StateKey, Record>, program: Program, n: nat): (p: Progress)
    ensures TxOk(p.tx) && p.tx.snapshot == snapshot && |p.seen| <= n
  {
    if n == 0 then Progress(Begun(snapshot), [])
    else
      var p := Execute(snapshot, program, n - 1);
      var op := program(p.seen);
      if Terminal(op) then p
      else
        PerformOk(p.tx, op);
        var (tx, seen) := Perform(p.tx, op);
        Progress(tx, p.seen + [seen])
  }

  ghost function RequestAt(snapshot: map<StateKey, Record>, program: Program, n: nat): Op {
    program(Execute(snapshot, program, n).seen)
  }

  /** What a reader should expect of a key it saw in the snapshot. */
  function ReadExpectation(snapshot: map<StateKey, Record>, key: StateKey): Expected {
    if key in snapshot then At(snapshot[key].revision) else Absent
  }

  /** Every key the work gets is staged at the end with the revision it read, and nothing is scanned. */
  ghost predicate Covered(snapshot: map<StateKey, Record>, program: Program, n: nat) {
    var staged := Execute(snapshot, program, n).tx.mutations;
    forall i | 0 <= i < n ::
      var op := RequestAt(snapshot, program, i);
      && !op.ScanOp?
      && (op.GetOp? && PortableKey(op.key) ==>
            op.key in staged && staged[op.key].expected == ReadExpectation(snapshot, op.key))
  }

  ghost predicate AgreeOn(a: map<StateKey, Record>, b: map<StateKey, Record>, key: StateKey) {
    (key in a <==> key in b) && (key in a ==> a[key] == b[key])
  }

  /** The keys a program gets within its first n requests. */
  ghost predicate AgreeOnReads(a: map<StateKey, Record>, b: map<StateKey, Record>, program: Program, n: nat) {
    forall i | 0 <= i < n ::
      var op := RequestAt(a, program, i);
      !op.ScanOp? && (op.GetOp? && PortableKey(op.key) ==> AgreeOn(a, b, op.key))
  }

  lemma SameReadSameStep(tx: Tx, snapshot: map<StateKey, Record>, op: Op)
    requires !Terminal(op) && !op.ScanOp?
    requires op.GetOp? && PortableKey(op.key) ==> AgreeOn(tx.snapshot, snapshot, op.key)
    ensures Perform(tx.(snapshot := snapshot), op).1 == Perform(tx, op).1
    ensures Perform(tx.(snapshot := snapshot), op).0 == Perform(tx, op).0.(snapshot := snapshot)
    ensures Perform(tx, op).0.snapshot == tx.snapshot
  {
  }

  /** Work that reads the same records does the same thing. */
  lemma {:induction false} SameReadsSameRun(a: map<StateKey, Record>, b: map<StateKey, Record>, program: Program,
                                            n: nat)
    requires AgreeOnReads(a, b, program, n)
    ensures Execute(a, program, n).seen == Execute(b, program, n).seen
    ensures Execute(a, program, n).tx == Execute(b, program, n).tx.(snapshot := a)
  {
    hide Perform, TxOk, PortableKey, AgreeOn;
    if n > 0 {
      SameReadsSameRun(a, b, program, n - 1);
      var p, q := Execute(a, program, n - 1), Execute(b, program, n - 1);
      var op := program(p.seen);
      assert op == RequestAt(a, program, n - 1);
      if !Terminal(op) {
        SameReadSameStep(p.tx, b, op);
      }
    }
  }
}
