/** Desired deployments: the generation counter of deployPlugin, and which stored record
    of an identity is its current one. */
module Deployments {
  import opened Order
  import opened StateStrings
  import opened StoreModel
  import opened StoreInvariants
  import opened Transactions
  import opened TransactionRuns
  import opened Serializability
  import opened Decimals
  import opened Counters
  import opened WorkerEpochs

  datatype PluginDeployment = PluginDeployment(
    applicationId: JsString, pluginId: JsString, version: JsString, artifactDigest: JsString,
    generation: nat, state: JsString, essential: bool,
    configuration: Json, permissionGrants: Json, capabilityBindings: Json)

  datatype DeployRequest = DeployRequest(
    applicationId: JsString, pluginId: JsString, artifactDigest: JsString, essential: bool,
    configuration: Json, permissionGrants: Json, capabilityBindings: Json)

  function IdentityText(applicationId: JsString, pluginId: JsString): JsString { applicationId + [0x2f] + pluginId }

  function DeploymentKey(id: JsString): StateKey {
    StateKey(Ascii("tego"), Ascii("deployments"), id)
  }

  function KeyOf(r: DeployRequest): StateKey { DeploymentKey(IdentityText(r.applicationId, r.pluginId)) }

  predicate SameDesired(d: PluginDeployment, r: DeployRequest) {
    && d.applicationId == r.applicationId && d.pluginId == r.pluginId && d.artifactDigest == r.artifactDigest
    && d.essential == r.essential && d.configuration == r.configuration
    && d.permissionGrants == r.permissionGrants && d.capabilityBindings == r.capabilityBindings
  }

  /** Application identifiers hold no slash, so every identity has a record of its own. */
  lemma KeysSeparateIdentities(r: DeployRequest, q: DeployRequest)
    requires 0x2f !in r.applicationId && 0x2f !in q.applicationId
    ensures KeyOf(r) == KeyOf(q) <==> r.applicationId == q.applicationId && r.pluginId == q.pluginId
  {
    if KeyOf(r) == KeyOf(q) {
      var a, b, text := |r.applicationId|, |q.applicationId|, IdentityText(r.applicationId, r.pluginId);
      assert text[a] == 0x2f && text[b] == 0x2f;
      forall i | 0 <= i < a ensures text[i] != 0x2f { assert text[i] == r.applicationId[i]; }
      forall i | 0 <= i < b ensures text[i] != 0x2f { assert text[i] == q.applicationId[i]; }
      assert r.applicationId == text[..a] && q.applicationId == text[..b];
      assert r.pluginId == text[a + 1..] && q.pluginId == text[b + 1..];
    }
  }

  /** How deployments are stored: any encoding, and any parser, which may refuse what it likes. */
  datatype Codec = Codec(encode: PluginDeployment -> Json, parse: Json -> Option<PluginDeployment>)

  /** What validating a request asks next of the transaction: another read, a scan of a
      collection, or a verdict that carries the installed version. */
  datatype Check = Inspect(key: StateKey) | Search(query: Query) | Reject | Pass(version: JsString)
  type Validation = seq<Observation> -> Check

  function StoredDeployment(records: map<StateKey, Record>, codec: Codec, key: StateKey): Option<PluginDeployment> {
    if key in records then codec.parse(records[key].value) else None
  }

  predicate Asks(c: Check) { c.Inspect? || c.Search? }

  /** How many observations the validation consumes. */
  function Inspected(validate: Validation, seen: seq<Observation>, j: nat): (k: nat)
    requires j <= |seen|
    ensures j <= k <= |seen|
    ensures k < |seen| ==> !Asks(validate(seen[..k]))
    decreases |seen| - j
  {
    if j == |seen| || !Asks(validate(seen[..j])) then j else Inspected(validate, seen, j + 1)
  }

  lemma {:induction false} InspectedExtends(validate: Validation, seen: seq<Observation>, more: Observation, j: nat)
    requires j <= |seen|
    ensures Inspected(validate, seen + [more], j) ==
      var k := Inspected(validate, seen, j);
      if k == |seen| && Asks(validate(seen)) then k + 1 else k
    decreases |seen| - j
  {
    var longer := seen + [more];
    assert longer[..j] == seen[..j];
    if j == |seen| {
      assert seen[..j] == seen;
    } else if Asks(validate(seen[..j])) {
      InspectedExtends(validate, seen, more, j + 1);
    }
  }

  function Deployed(r: DeployRequest, version: JsString, generation: nat): PluginDeployment {
    PluginDeployment(r.applicationId, r.pluginId, version, r.artifactDigest, generation, Ascii("active"), r.essential,
                     r.configuration, r.permissionGrants, r.capabilityBindings)
  }

  /** What is decided once the deployment's own record has been read. */
  datatype Decision = Refuse | Keep(current: PluginDeployment) | Replace(deployment: PluginDeployment)

  /** The parser has the last word on a new deployment: one it does not read back is refused. */
  function Replacing(codec: Codec, d: PluginDeployment): Decision {
    if codec.parse(codec.encode(d)) == Some(d) then Replace(d) else Refuse
  }

  function Decide(codec: Codec, r: DeployRequest, version: JsString, existing: Observation): Decision {
    match existing
    case Missing => Replacing(codec, Deployed(r, version, 1))
    case Found(value, _) =>
      var current := codec.parse(value);
      if current.None? then Refuse
      else if SameDesired(current.value, r) then Keep(current.value)
      else Replacing(codec, Deployed(r, version, current.value.generation + 1))
    case _ => Refuse
  }

  function Report(codec: Codec, d: PluginDeployment, changed: bool): Json {
    Object(map[Ascii("deployment") := codec.encode(d), Ascii("changed") := Bool(changed)])
  }

  /** The transaction of one deployment attempt. */
  function Deploy(codec: Codec, r: DeployRequest, validate: Validation): Program {
    (seen: seq<Observation>) =>
      var k := Inspected(validate, seen, 0);
      match validate(seen[..k])
      case Inspect(key) => GetOp(key)
      case Search(query) => ScanOp(query)
      case Reject => Throw
      case Pass(version) =>
        if k == |seen| then GetOp(KeyOf(r))
        else
          match Decide(codec, r, version, seen[k])
          case Refuse => Throw
          case Keep(current) => Return(Report(codec, current, false))
          case Replace(deployment) =>
            if |seen| == k + 1 then PutOp(KeyOf(r), codec.encode(deployment), ExpectedFrom(seen[k]))
            else if seen[k + 1].Accepted? then Return(Report(codec, deployment, true))
            else Throw
  }

  /** A deployment's run: reads only, until the one guarded put of its own record. */
  ghost predicate DeployShape(codec: Codec, r: DeployRequest, validate: Validation, snapshot: map<StateKey, Record>,
                              p: Progress)
  {
    var k := Inspected(validate, p.seen, 0);
    var existing := GetFrom(Begun(snapshot), KeyOf(r));
    && (|p.seen| > k ==> validate(p.seen[..k]).Pass? && p.seen[k] == existing)
    && |p.seen| <= k + 2
    && (|p.seen| <= k + 1 ==> p.tx == Begun(snapshot))
    && (|p.seen| == k + 2 ==>
          && Decide(codec, r, validate(p.seen[..k]).version, existing).Replace?
          && var put := Put(KeyOf(r),
                            codec.encode(Decide(codec, r, validate(p.seen[..k]).version, existing).deployment),
                                ExpectedFrom(existing));
          && (p.seen[k + 1].Accepted? ==> p.tx == Begun(snapshot).(mutations := map[KeyOf(r) := put]))
          && (!p.seen[k + 1].Accepted? ==> p.tx == Begun(snapshot)))
  }

  lemma DeployStep(codec: Codec, r: DeployRequest, validate: Validation, snapshot: map<StateKey, Record>, p: Progress)
    requires DeployShape(codec, r, validate, snapshot, p) && !Terminal(Deploy(codec, r, validate)(p.seen))
    ensures var (tx, seen) := Perform(p.tx, Deploy(codec, r, validate)(p.seen));
      DeployShape(codec, r, validate, snapshot, Progress(tx, p.seen + [seen]))
  {
    hide PortableKey, Decide, KeyOf;
    var k := Inspected(validate, p.seen, 0);
    var (tx, seen) := Perform(p.tx, Deploy(codec, r, validate)(p.seen));
    InspectedExtends(validate, p.seen, seen, 0);
    assert p.seen[..|p.seen|] == p.seen;
    assert (p.seen + [seen])[..k] == p.seen[..k];
  }

  lemma {:induction false} DeploySteps(codec: Codec, r: DeployRequest, validate: Validation,
                                       snapshot: map<StateKey, Record>, n: nat)
    ensures DeployShape(codec, r, validate, snapshot, Execute(snapshot, Deploy(codec, r, validate), n))
  {
    hide Deploy, KeyOf, Decide;
    if n == 0 {
      assert Inspected(validate, [], 0) == 0;
    } else {
      hide DeployShape, Perform, TxOk, GetFrom;
      DeploySteps(codec, r, validate, snapshot, n - 1);
      var p := Execute(snapshot, Deploy(codec, r, validate), n - 1);
      if !Terminal(Deploy(codec, r, validate)(p.seen)) { DeployStep(codec, r, validate, snapshot, p); }
    }
  }

  function Generation(codec: Codec): Reading {
    (value: Json) => var d := codec.parse(value); if d.Some? then Some(d.value.generation) else None
  }

  ghost predicate IsDeploy(e: Entry, codec: Codec, r: DeployRequest, validate: Validation) {
    e.TxEntry? && e.program == Deploy(codec, r, validate)
      && RequestAt(e.snapshot, e.program, e.steps) == Return(e.result)
  }

  /** The two ways to return: keeping what was found, or after putting its successor. */
  lemma DeployReturns(codec: Codec, r: DeployRequest, validate: Validation, snapshot: map<StateKey, Record>,
                      p: Progress, result: Json)
    returns (decision: Decision)
    requires DeployShape(codec, r, validate, snapshot, p) && Deploy(codec, r, validate)(p.seen) == Return(result)
    ensures exists version :: decision == Decide(codec, r, version, GetFrom(Begun(snapshot), KeyOf(r)))
    ensures decision.Keep? ==> p.tx == Begun(snapshot) && result == Report(codec, decision.current, false)
    ensures decision.Replace? ==>
      && p.tx == Begun(snapshot).(mutations := map[KeyOf(r) :=
           Put(KeyOf(r), codec.encode(decision.deployment), ExpectedFrom(GetFrom(Begun(snapshot), KeyOf(r))))])
      && result == Report(codec, decision.deployment, true)
    ensures !decision.Refuse?
  {
    hide Decide, GetFrom, KeyOf, Report;
    var k := Inspected(validate, p.seen, 0);
    assert p.seen[..|p.seen|] == p.seen;
    decision := Decide(codec, r, validate(p.seen[..k]).version, p.seen[k]);
  }

  lemma ReplacementIncrements(e: Entry, codec: Codec, r: DeployRequest, decision: Decision)
    requires e.TxEntry? && decision.Replace?
    requires exists version :: decision == Decide(codec, r, version, GetFrom(Begun(e.snapshot), KeyOf(r)))
    requires Execute(e.snapshot, e.program, e.steps).tx.mutations ==
      map[KeyOf(r) := Put(KeyOf(r), codec.encode(decision.deployment),
                          ExpectedFrom(GetFrom(Begun(e.snapshot), KeyOf(r))))]
    ensures Increments(e, KeyOf(r), Generation(codec))
    ensures SameDesired(decision.deployment, r)
      && codec.parse(codec.encode(decision.deployment)) == Some(decision.deployment)
    ensures decision.deployment.generation == Wrote(e, KeyOf(r), Generation(codec))
  {
    hide PortableKey, KeyOf, Execute;
    var d := decision.deployment;
    OneMutation(Execute(e.snapshot, e.program, e.steps).tx.mutations, KeyOf(r),
                Put(KeyOf(r), codec.encode(d), ExpectedFrom(GetFrom(Begun(e.snapshot), KeyOf(r)))));
  }

  /** A committed deployment either raised its generation by exactly one, or found its record
      as desired and staged nothing at all. */
  lemma DeployIncrementsOrKeeps(e: Entry, codec: Codec, r: DeployRequest, validate: Validation)
    requires IsDeploy(e, codec, r, validate)
    ensures
      || (&& Increments(e, KeyOf(r), Generation(codec))
          && exists d ::
            e.result == Report(codec, d, true) && SameDesired(d, r) && codec.parse(codec.encode(d)) == Some(d)
               && d.generation == Wrote(e, KeyOf(r), Generation(codec)))
      || (&& Finish(Execute(e.snapshot, e.program, e.steps).tx) == Staged([], [], [])
          && KeyOf(r) in e.snapshot
          && exists d ::
            e.result == Report(codec, d, false) && SameDesired(d, r)
              && codec.parse(e.snapshot[KeyOf(r)].value) == Some(d))
  {
    hide PortableKey, KeyOf, Report, Execute, Deploy, DeployShape, Wrote;
    DeploySteps(codec, r, validate, e.snapshot, e.steps);
    var p := Execute(e.snapshot, e.program, e.steps);
    var decision := DeployReturns(codec, r, validate, e.snapshot, p, e.result);
    if decision.Replace? {
      ReplacementIncrements(e, codec, r, decision);
      var d := decision.deployment;
      assert e.result == Report(codec, d, true) && SameDesired(d, r) && codec.parse(codec.encode(d)) == Some(d)
        && d.generation == Wrote(e, KeyOf(r), Generation(codec));
    } else {
      hide Increments;
      assert e.result == Report(codec, decision.current, false) && SameDesired(decision.current, r);
      assert SortedMutations(p.tx.mutations) == [];
    }
  }

  lemma NothingStagedWritesNothing(s: Store, fencing: Option<Fencing>, identity: Option<Identity>, result: Json)
    requires Commit(s, fencing, identity, Staged([], [], []), result).1.Ok?
    ensures var s' := Commit(s, fencing, identity, Staged([], [], []), result).0;
      && s'.records == s.records && s'.changes == s.changes && s'.history == s.history && s'.outbox == s.outbox
      && (!AdvancesFence(s.fences, fencing) && identity.None? ==> s' == s)
  {
    assert Installed(s.records, [], s.revision + 1) == s.records;
    assert ChangesOf([], s.revision + 1) == [];
  }

  /** A deployment whose snapshot already held what it asks for reports that record unchanged,
      and committing it writes nothing; only a newer fence can show. */
  lemma IdenticalRedeployWritesNothing(s: Store, e: Entry, codec: Codec, r: DeployRequest, validate: Validation)
    requires IsDeploy(e, codec, r, validate) && KeyOf(r) in e.snapshot
    requires var held := codec.parse(e.snapshot[KeyOf(r)].value);
      && held.Some? && held.value.applicationId == r.applicationId && held.value.pluginId == r.pluginId
      && held.value.artifactDigest == r.artifactDigest && held.value.essential == r.essential
      && held.value.configuration == r.configuration && held.value.permissionGrants == r.permissionGrants
      && held.value.capabilityBindings == r.capabilityBindings
    requires Commit(s, e.fencing, e.identity, Finish(Execute(e.snapshot, e.program, e.steps).tx), e.result).1.Ok?
    ensures e.result == Report(codec, codec.parse(e.snapshot[KeyOf(r)].value).value, false)
    ensures var s' := Commit(s, e.fencing, e.identity, Finish(Execute(e.snapshot, e.program, e.steps).tx), e.result).0;
      && s'.records == s.records && s'.changes == s.changes && s'.history == s.history && s'.outbox == s.outbox
      && (!AdvancesFence(s.fences, e.fencing) && e.identity.None? ==> s' == s)
  {
    assert SameDesired(codec.parse(e.snapshot[KeyOf(r)].value).value, r);
    hide PortableKey, KeyOf, Report, Execute, Deploy, DeployShape, Commit, SameDesired;
    DeploySteps(codec, r, validate, e.snapshot, e.steps);
    var decision := DeployReturns(codec, r, validate, e.snapshot, Execute(e.snapshot, e.program, e.steps), e.result);
    assert decision.Keep?;
    assert SortedMutations(Execute(e.snapshot, e.program, e.steps).tx.mutations) == [];
    NothingStagedWritesNothing(s, e.fencing, e.identity, e.result);
  }

  // ----- What a deployment reports and stores, field by field

  /** The first k questions of the validation were answered, and then it passed. */
  ghost predicate PassedAt(validate: Validation, seen: seq<Observation>, k: nat, version: JsString) {
    && k <= |seen| && validate(seen[..k]) == Pass(version)
    && forall j | 0 <= j < k :: validate(seen[..j]).Inspect? || validate(seen[..j]).Search?
  }

  lemma {:induction false} InspectedAsks(validate: Validation, seen: seq<Observation>, from: nat, j: nat)
    requires from <= |seen| && from <= j < Inspected(validate, seen, from)
    ensures Asks(validate(seen[..j]))
    decreases |seen| - from
  {
    if from < j { InspectedAsks(validate, seen, from + 1, j); }
  }

  lemma {:induction false} InspectedIs(validate: Validation, seen: seq<Observation>, from: nat, k: nat)
    requires from <= k <= |seen| && !Asks(validate(seen[..k]))
    requires forall j | from <= j < k :: Asks(validate(seen[..j]))
    ensures Inspected(validate, seen, from) == k
    decreases k - from
  {
    if from < k { InspectedIs(validate, seen, from + 1, k); }
  }

  /** What is decided: a stored record with every field asked for is kept; one that cannot be read is
      refused, as is a successor the parser does not read back; otherwise the successor takes its place. */
  lemma DecisionIs(codec: Codec, r: DeployRequest, version: JsString, snapshot: map<StateKey, Record>)
    ensures var decision := Decide(codec, r, version, GetFrom(Begun(snapshot), KeyOf(r)));
      var key := StateKey(Ascii("tego"), Ascii("deployments"), r.applicationId + [0x2f] + r.pluginId);
      var held := if key in snapshot then codec.parse(snapshot[key].value) else None;
      var kept := held.Some? && held.value.applicationId == r.applicationId && held.value.pluginId == r.pluginId
        && held.value.artifactDigest == r.artifactDigest && held.value.essential == r.essential
        && held.value.configuration == r.configuration && held.value.permissionGrants == r.permissionGrants
        && held.value.capabilityBindings == r.capabilityBindings;
      var next := if key in snapshot && held.Some? then held.value.generation + 1 else 1;
      var d := PluginDeployment(r.applicationId, r.pluginId, version, r.artifactDigest, next, Ascii("active"),
                                r.essential, r.configuration, r.permissionGrants, r.capabilityBindings);
      && KeyOf(r) == key
      && decision ==
         if !PortableKey(key) || (key in snapshot && held.None?) then Refuse
         else if kept then Keep(held.value)
         else if codec.parse(codec.encode(d)) == Some(d) then Replace(d)
         else Refuse
  {
    hide PortableKey;
  }

  /** What a committed deployment reports has every field the request asked for. It is the stored
      record, and nothing is written, exactly when that already had all of them; otherwise it is put in
      that record's place, one generation further, with the version the validation passed. */
  lemma CommittedDeployment(e: Entry, codec: Codec, r: DeployRequest, validate: Validation)
    returns (d: PluginDeployment, changed: bool, version: JsString)
    requires IsDeploy(e, codec, r, validate)
    ensures e.result == Object(map[Ascii("deployment") := codec.encode(d), Ascii("changed") := Bool(changed)])
    ensures d.applicationId == r.applicationId && d.pluginId == r.pluginId && d.artifactDigest == r.artifactDigest
      && d.essential == r.essential && d.configuration == r.configuration
      && d.permissionGrants == r.permissionGrants && d.capabilityBindings == r.capabilityBindings
    ensures exists k :: PassedAt(validate, Execute(e.snapshot, e.program, e.steps).seen, k, version)
    ensures var key := StateKey(Ascii("tego"), Ascii("deployments"), r.applicationId + [0x2f] + r.pluginId);
      var held := StoredDeployment(e.snapshot, codec, key);
      var staged := Finish(Execute(e.snapshot, e.program, e.steps).tx);
      && (!changed <==>
            held.Some? && held.value.applicationId == r.applicationId && held.value.pluginId == r.pluginId
            && held.value.artifactDigest == r.artifactDigest && held.value.essential == r.essential
            && held.value.configuration == r.configuration && held.value.permissionGrants == r.permissionGrants
            && held.value.capabilityBindings == r.capabilityBindings)
      && (!changed ==> held == Some(d) && staged == Staged([], [], []))
      && (changed ==>
            && (key in e.snapshot ==> held.Some? && d.generation == held.value.generation + 1)
            && (key !in e.snapshot ==> d.generation == 1)
            && d.version == version && d.state == Ascii("active") && codec.parse(codec.encode(d)) == Some(d)
            && staged == Staged([Put(key, codec.encode(d),
                                     if key in e.snapshot then At(e.snapshot[key].revision) else Absent)], [], []))
  {
    hide PortableKey, Execute, Deploy, DeployShape, Decide, GetFrom, KeyOf, Wrote, Finish;
    var p := Execute(e.snapshot, e.program, e.steps);
    DeploySteps(codec, r, validate, e.snapshot, e.steps);
    var decision: Decision;
    decision, version := DeployDecision(codec, r, validate, e.snapshot, p, e.result);
    DecisionIs(codec, r, version, e.snapshot);
    if decision.Keep? {
      d, changed := decision.current, false;
      FinishesNothing(p.tx, e.snapshot);
    } else {
      d, changed := decision.deployment, true;
      HeldOf(e.snapshot, KeyOf(r));
      FinishesOne(p.tx, e.snapshot, Put(KeyOf(r), codec.encode(d), ExpectedFrom(GetFrom(Begun(e.snapshot), KeyOf(r)))));
    }
  }

  lemma HeldOf(snapshot: map<StateKey, Record>, key: StateKey)
    requires PortableKey(key)
    ensures ExpectedFrom(GetFrom(Begun(snapshot), key)) ==
      if key in snapshot then At(snapshot[key].revision) else Absent
  {
    hide PortableKey;
  }

  lemma FinishesNothing(tx: Tx, snapshot: map<StateKey, Record>)
    requires tx == Begun(snapshot)
    ensures Finish(tx) == Staged([], [], [])
  {
    assert SortedMutations(tx.mutations) == [];
  }

  lemma FinishesOne(tx: Tx, snapshot: map<StateKey, Record>, m: Mutation)
    requires tx == Begun(snapshot).(mutations := map[m.key := m])
    ensures Finish(tx) == Staged([m], [], [])
  {
    assert |tx.mutations| == 1;
    assert m in SortedMutations(tx.mutations);
    assert SortedMutations(tx.mutations) == [m];
  }

  lemma DeployDecision(codec: Codec, r: DeployRequest, validate: Validation, snapshot: map<StateKey, Record>,
                       p: Progress, result: Json)
    returns (decision: Decision, version: JsString)
    requires DeployShape(codec, r, validate, snapshot, p) && Deploy(codec, r, validate)(p.seen) == Return(result)
    ensures decision == Decide(codec, r, version, GetFrom(Begun(snapshot), KeyOf(r))) && !decision.Refuse?
    ensures exists k :: PassedAt(validate, p.seen, k, version)
    ensures decision.Keep? ==> p.tx == Begun(snapshot) && result == Report(codec, decision.current, false)
    ensures decision.Replace? ==>
      && p.tx == Begun(snapshot).(mutations := map[KeyOf(r) :=
           Put(KeyOf(r), codec.encode(decision.deployment), ExpectedFrom(GetFrom(Begun(snapshot), KeyOf(r))))])
      && result == Report(codec, decision.deployment, true)
  {
    hide Decide, GetFrom, KeyOf, Report;
    var k := Inspected(validate, p.seen, 0);
    assert p.seen[..|p.seen|] == p.seen;
    version := validate(p.seen[..k]).version;
    decision := Decide(codec, r, version, p.seen[k]);
    forall j | 0 <= j < k ensures Asks(validate(p.seen[..j])) {
      InspectedAsks(validate, p.seen, 0, j);
    }
    assert PassedAt(validate, p.seen, k, version);
  }

  /** A deployment whose validation passed asks for its record next. */
  lemma DeployReads(codec: Codec, r: DeployRequest, validate: Validation, seen: seq<Observation>, version: JsString)
    requires PassedAt(validate, seen, |seen|, version)
    ensures Deploy(codec, r, validate)(seen) == GetOp(KeyOf(r))
  {
    hide KeyOf;
    assert seen[..|seen|] == seen;
    InspectedIs(validate, seen, 0, |seen|);
  }

  /** What it asks once it knows that, and once it has put a successor. */
  lemma DeployAfterRead(codec: Codec, r: DeployRequest, validate: Validation, seen: seq<Observation>,
                        version: JsString, existing: Observation)
    requires PassedAt(validate, seen, |seen|, version)
    ensures var decision := Decide(codec, r, version, existing);
      && Deploy(codec, r, validate)(seen + [existing]) ==
         (match decision
          case Refuse => Throw
          case Keep(current) => Return(Report(codec, current, false))
          case Replace(d) => PutOp(KeyOf(r), codec.encode(d), ExpectedFrom(existing)))
      && (decision.Replace? ==>
            Deploy(codec, r, validate)(seen + [existing, Accepted]) == Return(Report(codec, decision.deployment, true)))
  {
    hide KeyOf, Decide, Report;
    var k := |seen|;
    assert seen[..k] == seen;
    forall j | 0 <= j < k
      ensures (seen + [existing])[..j] == seen[..j] && (seen + [existing, Accepted])[..j] == seen[..j]
    {
    }
    assert (seen + [existing])[..k] == seen && (seen + [existing, Accepted])[..k] == seen;
    InspectedIs(validate, seen + [existing], 0, k);
    InspectedIs(validate, seen + [existing, Accepted], 0, k);
  }

  /** Once the validation has passed, the deployment comes to an end within two requests, as decided from
      the record it reads next. */
  lemma DeploymentComesToAnEnd(codec: Codec, r: DeployRequest, validate: Validation, snapshot: map<StateKey, Record>,
                               n: nat, version: JsString)
    returns (read: Op, decided: Op, last: Op)
    requires var seen := Execute(snapshot, Deploy(codec, r, validate), n).seen;
      |seen| == n && PassedAt(validate, seen, n, version)
    requires PortableKey(KeyOf(r))
    ensures read == RequestAt(snapshot, Deploy(codec, r, validate), n) == GetOp(KeyOf(r))
    ensures decided == RequestAt(snapshot, Deploy(codec, r, validate), n + 1)
    ensures last == RequestAt(snapshot, Deploy(codec, r, validate), n + 2)
    ensures match Decide(codec, r, version, GetFrom(Begun(snapshot), KeyOf(r)))
      case Refuse => decided == Throw
      case Keep(current) => decided == Return(Report(codec, current, false))
      case Replace(d) =>
        && decided == PutOp(KeyOf(r), codec.encode(d),
                            if KeyOf(r) in snapshot then At(snapshot[KeyOf(r)].revision) else Absent)
        && last == Return(Report(codec, d, true))
  {
    read := RequestAt(snapshot, Deploy(codec, r, validate), n);
    decided := RequestAt(snapshot, Deploy(codec, r, validate), n + 1);
    last := RequestAt(snapshot, Deploy(codec, r, validate), n + 2);
    hide PortableKey, Deploy, Decide, GetFrom, PassedAt, Execute;
    var seen, existing := Execute(snapshot, Deploy(codec, r, validate), n).seen, GetFrom(Begun(snapshot), KeyOf(r));
    HeldOf(snapshot, KeyOf(r));
    DeployReads(codec, r, validate, seen, version);
    DeployAfterRead(codec, r, validate, seen, version, existing);
    DeployObserves(codec, r, validate, snapshot, n, version);
  }

  /** What a deployment has observed after its reading, and after its put. */
  lemma DeployObserves(codec: Codec, r: DeployRequest, validate: Validation, snapshot: map<StateKey, Record>,
                       n: nat, version: JsString)
    requires var seen := Execute(snapshot, Deploy(codec, r, validate), n).seen;
      |seen| == n && PassedAt(validate, seen, n, version)
    requires PortableKey(KeyOf(r))
    ensures var work, existing := Deploy(codec, r, validate), GetFrom(Begun(snapshot), KeyOf(r));
      var seen := Execute(snapshot, work, n).seen;
      && Execute(snapshot, work, n + 1).seen == seen + [existing]
      && (RequestAt(snapshot, work, n + 1).PutOp? && RequestAt(snapshot, work, n + 1).key == KeyOf(r) ==>
            Execute(snapshot, work, n + 2).seen == seen + [existing, Accepted])
  {
    var work := Deploy(codec, r, validate);
    DeployReads(codec, r, validate, Execute(snapshot, work, n).seen, version);
    OnlyRead(codec, r, validate, snapshot, n, version);
    hide Deploy, PassedAt, KeyOf, PortableKey, GetFrom;
  }

  lemma OnlyRead(codec: Codec, r: DeployRequest, validate: Validation, snapshot: map<StateKey, Record>, n: nat,
                 version: JsString)
    requires var seen := Execute(snapshot, Deploy(codec, r, validate), n).seen;
      |seen| == n && PassedAt(validate, seen, n, version)
    ensures Execute(snapshot, Deploy(codec, r, validate), n).tx == Begun(snapshot)
  {
    hide Execute, Deploy, KeyOf, PortableKey, GetFrom;
    DeploySteps(codec, r, validate, snapshot, n);
    var seen := Execute(snapshot, Deploy(codec, r, validate), n).seen;
    assert seen[..n] == seen;
    InspectedIs(validate, seen, 0, n);
  }

  ghost predicate DeploysTo(e: Entry, codec: Codec, id: JsString) {
    exists r, validate :: IsDeploy(e, codec, r, validate) && KeyOf(r) == DeploymentKey(id)
  }

  /** Only deployments of the identity write its record. */
  ghost predicate OnlyDeployed(log: seq<Entry>, codec: Codec, id: JsString) {
    forall i | 0 <= i < |log| && log[i].TxEntry? ::
      DeploysTo(log[i], codec, id) || LeavesAlone(log[i], DeploymentKey(id))
  }

  /** Over any interleaving, an identity's stored generation is the number of its changed
      deployments, and the n-th of them in commit order wrote generation n. */
  lemma GenerationsCountChanges(states: seq<System>, steps: seq<Step>, i: nat, codec: Codec, id: JsString)
    requires Run(states, steps) && i < |states| && OnlyDeployed(states[i].log, codec, id)
    ensures CountsCommits(states[i], DeploymentKey(id), Generation(codec))
  {
    hide Run, Increments, MutationsOf, CountsCommits, Deploy;
    var log, key := states[i].log, DeploymentKey(id);
    forall k | 0 <= k < |log| ensures LeavesAlone(log[k], key) || Increments(log[k], key, Generation(codec)) {
      if log[k].TxEntry? && DeploysTo(log[k], codec, id) {
        var r, validate :| IsDeploy(log[k], codec, r, validate) && KeyOf(r) == key;
        DeployIncrementsOrKeeps(log[k], codec, r, validate);
        if !Increments(log[k], key, Generation(codec)) { StagedNothing(log[k], key); }
      }
    }
    CounterNeverForks(states, steps, i, key, Generation(codec));
  }

  /** A parser that bounds generations bounds the number of changed deployments: once the last
      generation is stored, only redeployments of what is desired can commit. */
  lemma GenerationsStayInRange(states: seq<System>, steps: seq<Step>, i: nat, codec: Codec, id: JsString, last: nat)
    requires Run(states, steps) && i < |states| && OnlyDeployed(states[i].log, codec, id)
    requires forall value: Json :: codec.parse(value).Some? ==> codec.parse(value).value.generation <= last
    ensures Increasing(states[i].log, DeploymentKey(id), Generation(codec)) <= last
  {
    hide Run, Increasing, Increments, OnlyDeployed;
    GenerationsCountChanges(states, steps, i, codec, id);
  }

  lemma StagedNothing(e: Entry, key: StateKey)
    requires e.TxEntry? && Finish(Execute(e.snapshot, e.program, e.steps).tx) == Staged([], [], [])
    ensures LeavesAlone(e, key)
  {
  }

  // ----- The attempt loop

  /** How one attempt's transaction ended, and what the read after it found. */
  datatype Attempt =
    | Conflicted
    | Failed
    | Committed(deployment: PluginDeployment, persisted: Option<PluginDeployment>)

  datatype DeployResult = Persisted(deployment: PluginDeployment) | ConcurrentUpdate | Aborted

  predicate Settles(a: Attempt, r: DeployRequest) {
    || a.Failed? || (a.Committed? && a.persisted.None?)
    || (a.Committed? && a.persisted.value.generation == a.deployment.generation && SameDesired(a.persisted.value, r))
  }

  /** Up to eight attempts; only a revision conflict, or a deployment already replaced again,
      leads to another one. */
  method DeployPlugin(attempts: seq<Attempt>, r: DeployRequest) returns (result: DeployResult, used: nat)
    requires |attempts| == 8
    ensures used <= 8 && forall i | 0 <= i < used :: !Settles(attempts[i], r)
    ensures result == ConcurrentUpdate <==> used == 8
    ensures used < 8 ==> Settles(attempts[used], r)
    ensures forall i | 0 <= i < used ::
      || attempts[i].Conflicted?
      || (&& attempts[i].Committed? && attempts[i].persisted.Some?
          && var d := attempts[i].persisted.value;
          && !(&& d.generation == attempts[i].deployment.generation
               && d.applicationId == r.applicationId && d.pluginId == r.pluginId
               && d.artifactDigest == r.artifactDigest && d.essential == r.essential
               && d.configuration == r.configuration && d.permissionGrants == r.permissionGrants
               && d.capabilityBindings == r.capabilityBindings))
    ensures result.Persisted? ==>
      && var d := result.deployment;
      && attempts[used].Committed? && attempts[used].persisted == Some(d)
      && d.generation == attempts[used].deployment.generation
      && d.applicationId == r.applicationId && d.pluginId == r.pluginId
      && d.artifactDigest == r.artifactDigest && d.essential == r.essential && d.configuration == r.configuration
      && d.permissionGrants == r.permissionGrants && d.capabilityBindings == r.capabilityBindings
    ensures result == Aborted ==> attempts[used].Failed? || attempts[used].persisted.None?
  {
    used := 0;
    while used < 8
      invariant used <= 8 && forall i | 0 <= i < used :: !Settles(attempts[i], r)
    {
      match attempts[used] {
        case Conflicted =>
        case Failed => return Aborted, used;
        case Committed(deployment, persisted) =>
          if persisted.None? {
            return Aborted, used;
          }
          if persisted.value.generation == deployment.generation && SameDesired(persisted.value, r) {
            return Persisted(persisted.value), used;
          }
      }
      used := used + 1;
    }
    result := ConcurrentUpdate;
  }

  /** One attempt of a run of the store: the call, a state in which it has ended, and the state
      in which the record was read afterwards. */
  datatype Trial = Trial(id: nat, ended: nat, readAt: nat)

  /** The attempt went, in this run, as it is described. */
  ghost predicate Happened(states: seq<System>, t: Trial, a: Attempt, codec: Codec, r: DeployRequest,
                           validate: Validation)
  {
    && t.ended <= t.readAt < |states| && t.id in states[t.ended].calls
    && var c := states[t.ended].calls[t.id];
    && c.program == Deploy(codec, r, validate) && c.identity.None? && c.phase.Done?
    && match a
       case Conflicted => c.phase.result == Refused(RevisionConflict)
       case Failed => !c.phase.result.Value? && c.phase.result != Refused(RevisionConflict)
       case Committed(deployment, persisted) =>
         && codec.parse(codec.encode(deployment)) == Some(deployment)
         && (exists changed :: c.phase.result == Value(Report(codec, deployment, changed)))
         && persisted == StoredDeployment(states[t.readAt].store.records, codec, KeyOf(r))
  }

  /** A call without idempotency that returned has its own entry in the log. */
  ghost predicate ReturnedCommits(sys: System) {
    forall id | id in sys.calls && sys.calls[id].identity.None? ::
      && !sys.calls[id].phase.Joined?
      && (sys.calls[id].phase.Done? && sys.calls[id].phase.result.Value? ==>
            EntryOf(sys.log, id, sys.calls[id].program, sys.calls[id].phase.result.result))
  }

  ghost predicate EntryOf(log: seq<Entry>, id: nat, program: Program, result: Json) {
    exists i :: 0 <= i < |log| && IsEntryOf(log[i], id, program, result)
  }

  ghost predicate IsEntryOf(e: Entry, id: nat, program: Program, result: Json) {
    e.TxEntry? && e.id == id && e.program == program && e.result == result
  }

  lemma EntryStays(log: seq<Entry>, longer: seq<Entry>, id: nat, program: Program, result: Json)
    requires log <= longer && EntryOf(log, id, program, result)
    ensures EntryOf(longer, id, program, result)
  {
    var i :| 0 <= i < |log| && IsEntryOf(log[i], id, program, result);
    assert longer[i] == log[i];
  }

  /** What one step does to a call without idempotency. */
  lemma ReturnStep(sys: System, step: Step, id: nat)
    requires Enabled(sys, step) && ReturnedCommits(sys) && id in Apply(sys, step).calls
    requires Apply(sys, step).calls[id].identity.None?
    ensures !Apply(sys, step).calls[id].phase.Joined?
    ensures var c := Apply(sys, step).calls[id];
      c.phase.Done? && c.phase.result.Value? ==>
        || (id in sys.calls && sys.calls[id] == c)
        || (|Apply(sys, step).log| == |sys.log| + 1
            && IsEntryOf(Apply(sys, step).log[|sys.log|], id, c.program, c.phase.result.result))
  {
    hide Execute, Commit, ClaimOutbox, AcknowledgeOutbox, EntryOf;
  }

  lemma {:induction false} CallsReturnCommits(states: seq<System>, steps: seq<Step>, i: nat)
    requires Run(states, steps) && i < |states|
    ensures ReturnedCommits(states[i])
  {
    hide Run, Enabled, Apply, EntryOf;
    if i == 0 {
      RunStarts(states, steps);
    } else {
      RunStep(states, steps, i - 1);
      CallsReturnCommits(states, steps, i - 1);
      var sys, next := states[i - 1], states[i];
      LogGrows(sys, steps[i - 1]);
      forall id | id in next.calls && next.calls[id].identity.None?
        ensures !next.calls[id].phase.Joined?
        ensures next.calls[id].phase.Done? && next.calls[id].phase.result.Value? ==>
          EntryOf(next.log, id, next.calls[id].program, next.calls[id].phase.result.result)
      {
        ReturnStep(sys, steps[i - 1], id);
        var c := next.calls[id];
        if c.phase.Done? && c.phase.result.Value? {
          if id in sys.calls && sys.calls[id] == c {
            EntryStays(sys.log, next.log, id, c.program, c.phase.result.result);
          } else {
            EntryIs(next.log, |sys.log|, id, c.program, c.phase.result.result);
          }
        }
      }
    }
  }

  lemma EntryIs(log: seq<Entry>, i: nat, id: nat, program: Program, result: Json)
    requires i < |log| && IsEntryOf(log[i], id, program, result)
    ensures EntryOf(log, id, program, result)
  {
  }

  lemma {:induction false} RunLogGrows(states: seq<System>, steps: seq<Step>, i: nat, j: nat)
    requires Run(states, steps) && i <= j < |states|
    ensures states[i].log <= states[j].log
  {
    hide Run, Enabled, Apply;
    if i < j {
      RunStep(states, steps, j - 1);
      RunLogGrows(states, steps, i, j - 1);
      LogGrows(states[j - 1], steps[j - 1]);
    }
  }

  lemma {:induction false} NoIncrementsAfter(log: seq<Entry>, key: StateKey, count: Reading, i: nat, j: nat)
    requires i <= j < |log| && Increasing(log[..i], key, count) == Increasing(log, key, count)
    ensures !Increments(log[j], key, count)
  {
    hide Increments;
    var front := log[..|log| - 1];
    IncreasingGrows(front, key, count, i);
    assert front[..i] == log[..i];
    if j < |front| { NoIncrementsAfter(front, key, count, i, j); }
  }

  lemma {:induction false} IncreasingGrows(log: seq<Entry>, key: StateKey, count: Reading, i: nat)
    requires i <= |log|
    ensures Increasing(log[..i], key, count) <= Increasing(log, key, count)
  {
    hide Increments;
    if i == |log| {
      assert log[..i] == log;
    } else {
      var front := log[..|log| - 1];
      IncreasingGrows(front, key, count, i);
      assert front[..i] == log[..i];
    }
  }

  lemma ReportedDeployment(codec: Codec, a: PluginDeployment, b: PluginDeployment, x: bool, y: bool)
    requires Report(codec, a, x) == Report(codec, b, y)
    requires codec.parse(codec.encode(a)) == Some(a) && codec.parse(codec.encode(b)) == Some(b)
    ensures a == b && x == y
  {
    var keyA, keyB := Ascii("deployment"), Ascii("changed");
    assert |keyA| != |keyB|;
    assert Report(codec, a, x).fields[keyA] == codec.encode(a) && Report(codec, b, y).fields[keyA] == codec.encode(b);
    assert Report(codec, a, x).fields[keyB] == Bool(x) && Report(codec, b, y).fields[keyB] == Bool(y);
  }

  /** The call's entry is a deployment, and if that changed the record, nothing after it did. */
  ghost predicate UndisturbedSince(log: seq<Entry>, i: nat, id: nat, codec: Codec, r: DeployRequest,
                                   validate: Validation)
  {
    && i < |log| && IsDeploy(log[i], codec, r, validate) && log[i].id == id
    && (Increments(log[i], KeyOf(r), Generation(codec)) ==>
          forall j | i < j < |log| :: !Increments(log[j], KeyOf(r), Generation(codec)))
  }

  /** An incrementing deployment reports what it wrote. */
  lemma WroteIsReported(e: Entry, codec: Codec, r: DeployRequest, validate: Validation, d: PluginDeployment)
    requires IsDeploy(e, codec, r, validate) && Increments(e, KeyOf(r), Generation(codec))
    requires codec.parse(codec.encode(d)) == Some(d) && exists changed :: e.result == Report(codec, d, changed)
    ensures d.generation == Wrote(e, KeyOf(r), Generation(codec))
  {
    hide PortableKey, KeyOf, Report, Execute, Deploy, DeployShape;
    DeployIncrementsOrKeeps(e, codec, r, validate);
    if Finish(Execute(e.snapshot, e.program, e.steps).tx) == Staged([], [], []) {
      StagedNothing(e, KeyOf(r));
      AloneIsNoIncrement(e, KeyOf(r), Generation(codec));
    } else {
      var written :| e.result == Report(codec, written, true) && codec.parse(codec.encode(written)) == Some(written)
        && written.generation == Wrote(e, KeyOf(r), Generation(codec));
      var changed :| e.result == Report(codec, d, changed);
      ReportedDeployment(codec, written, d, true, changed);
    }
  }

  /** The entry of an attempt that committed. */
  lemma AttemptCommits(states: seq<System>, steps: seq<Step>, t: Trial, a: Attempt, codec: Codec, r: DeployRequest,
                       validate: Validation)
    returns (i: nat)
    requires Run(states, steps) && Happened(states, t, a, codec, r, validate) && a.Committed?
    ensures i < |states[t.readAt].log|
    ensures var e := states[t.readAt].log[i];
      IsDeploy(e, codec, r, validate) && e.id == t.id && exists changed ::
        e.result == Report(codec, a.deployment, changed)
  {
    hide Run, Deploy, Report, Execute, StoredDeployment;
    var log, c := states[t.readAt].log, states[t.ended].calls[t.id];
    CallsReturnCommits(states, steps, t.ended);
    RunLogGrows(states, steps, t.ended, t.readAt);
    EntryStays(states[t.ended].log, log, t.id, c.program, c.phase.result.result);
    i :| 0 <= i < |log| && IsEntryOf(log[i], t.id, c.program, c.phase.result.result);
    CommittedWorkReturned(states, steps, t.readAt);
  }

  lemma StoredIsCounted(sys: System, codec: Codec, key: StateKey)
    requires CountsCommits(sys, key, Generation(codec)) && StoredDeployment(sys.store.records, codec, key).Some?
    ensures StoredDeployment(sys.store.records, codec, key).value.generation ==
      Increasing(sys.log, key, Generation(codec))
  {
  }

  lemma LastWriterIsUndisturbed(sys: System, i: nat, d: PluginDeployment, codec: Codec, r: DeployRequest,
                                validate: Validation)
    requires CountsCommits(sys, KeyOf(r), Generation(codec)) && i < |sys.log|
      && IsDeploy(sys.log[i], codec, r, validate)
    requires codec.parse(codec.encode(d)) == Some(d) && exists changed :: sys.log[i].result == Report(codec, d, changed)
    requires d.generation == Increasing(sys.log, KeyOf(r), Generation(codec))
    ensures UndisturbedSince(sys.log, i, sys.log[i].id, codec, r, validate)
  {
    hide Deploy, Increments, Increasing, Wrote, Report, Execute, KeyOf, IsDeploy;
    if Increments(sys.log[i], KeyOf(r), Generation(codec)) {
      WroteIsReported(sys.log[i], codec, r, validate, d);
      forall j | i < j < |sys.log| ensures !Increments(sys.log[j], KeyOf(r), Generation(codec)) {
        NoIncrementsAfter(sys.log, KeyOf(r), Generation(codec), i + 1, j);
      }
    }
  }

  /** An attempt that settles with what it read: its call committed as a deployment of the request,
      and when it changed the record, no other changed deployment of the identity was committed
      between that commit and the read. The persisted generation counts all of them. */
  lemma PersistedIsCurrent(states: seq<System>, steps: seq<Step>, t: Trial, a: Attempt, codec: Codec, r: DeployRequest,
                           validate: Validation)
    requires Run(states, steps) && Happened(states, t, a, codec, r, validate) && a.Committed? && a.persisted.Some?
      && Settles(a, r)
    requires OnlyDeployed(states[t.readAt].log, codec, IdentityText(r.applicationId, r.pluginId))
    ensures a.persisted.value.generation == a.deployment.generation ==
      Increasing(states[t.readAt].log, KeyOf(r), Generation(codec))
    ensures var d := a.persisted.value;
      && d.applicationId == r.applicationId && d.pluginId == r.pluginId && d.artifactDigest == r.artifactDigest
      && d.essential == r.essential && d.configuration == r.configuration
      && d.permissionGrants == r.permissionGrants && d.capabilityBindings == r.capabilityBindings
    ensures exists i :: UndisturbedSince(states[t.readAt].log, i, t.id, codec, r, validate)
  {
    hide Run, Deploy, Increasing, Report, OnlyDeployed, Execute, CountsCommits, StoredDeployment,
        UndisturbedSince, IsDeploy;
    var sys := states[t.readAt];
    var i := AttemptCommits(states, steps, t, a, codec, r, validate);
    GenerationsCountChanges(states, steps, t.readAt, codec, IdentityText(r.applicationId, r.pluginId));
    StoredIsCounted(sys, codec, KeyOf(r));
    LastWriterIsUndisturbed(sys, i, a.deployment, codec, r, validate);
  }

  // ----- The current record of an identity

  datatype Located = Located(keyId: JsString, deployment: PluginDeployment)

  predicate IsCanonical(l: Located) { l.keyId == IdentityText(l.deployment.applicationId, l.deployment.pluginId) }

  /** compareDeploymentRecords(a, b) < 0: newer generations win, then the canonical key, then the smaller key. */
  predicate Outranked(a: Located, b: Located) {
    if a.deployment.generation != b.deployment.generation then a.deployment.generation < b.deployment.generation
    else if IsCanonical(a) != IsCanonical(b) then IsCanonical(b)
    else LexLess(b.keyId, a.keyId)
  }

  predicate SameIdentity(a: Located, b: Located) {
    a.deployment.applicationId == b.deployment.applicationId && a.deployment.pluginId == b.deployment.pluginId
  }

  lemma OutrankingIsStrict(a: Located, b: Located, c: Located)
    ensures !Outranked(a, a)
    ensures Outranked(a, b) && Outranked(b, c) ==> Outranked(a, c)
    ensures a.keyId != b.keyId ==> Outranked(a, b) || Outranked(b, a)
  {
    LexIrreflexive(a.keyId);
    if a.keyId != b.keyId { LexConnected(a.keyId, b.keyId); }
    if LexLess(b.keyId, a.keyId) && LexLess(c.keyId, b.keyId) { LexTransitive(c.keyId, b.keyId, a.keyId); }
  }

  /** The record of an identity that no other record of it outranks. */
  ghost predicate IsCurrent(records: seq<Located>, l: Located) {
    l in records && forall other | other in records && SameIdentity(l, other) :: !Outranked(l, other)
  }

  /** With one record per key, an identity has at most one current record: the choice does
      not depend on the order the records were read in. */
  lemma CurrentIsUnique(records: seq<Located>, a: Located, b: Located)
    requires forall x, y | x in records && y in records && x.keyId == y.keyId :: x == y
    requires IsCurrent(records, a) && IsCurrent(records, b) && SameIdentity(a, b)
    ensures a == b
  {
    OutrankingIsStrict(a, b, b);
  }

  /** A current record has the highest generation of its identity. Among those that share it, one under
      the identity's own key wins, and otherwise the one with the smallest key. */
  lemma CurrentHasHighestGeneration(records: seq<Located>, l: Located, other: Located)
    requires IsCurrent(records, l) && other in records
    requires other.deployment.applicationId == l.deployment.applicationId
    requires other.deployment.pluginId == l.deployment.pluginId
    ensures other.deployment.generation <= l.deployment.generation
    ensures var canonical := l.deployment.applicationId + [0x2f] + l.deployment.pluginId;
      other.deployment.generation == l.deployment.generation ==>
        if l.keyId == canonical then true
        else other.keyId != canonical && (l.keyId == other.keyId || LexLess(l.keyId, other.keyId))
  {
    if other.keyId != l.keyId { LexConnected(l.keyId, other.keyId); }
  }

  /** One pass keeps the best record of every identity of the application. */
  method CurrentDeploymentRecords(records: seq<Located>, applicationId: JsString)
    returns (current: map<JsString, Located>)
    ensures forall id :: id in current <==>
      exists l :: l in records && l.deployment.applicationId == applicationId && l.deployment.pluginId == id
    ensures forall id | id in current ::
      IsCurrent(records, current[id]) && current[id].deployment.applicationId == applicationId
        && current[id].deployment.pluginId == id
  {
    current := map[];
    var i := 0;
    while i < |records|
      invariant i <= |records|
      invariant forall id :: id in current <==>
        exists l :: l in records[..i] && l.deployment.applicationId == applicationId && l.deployment.pluginId == id
      invariant forall id | id in current ::
        IsCurrent(records[..i], current[id]) && current[id].deployment.applicationId == applicationId
          && current[id].deployment.pluginId == id
    {
      var record := records[i];
      var id := record.deployment.pluginId;
      var read := records[..i + 1];
      assert read == records[..i] + [record];
      assert forall l :: l in read <==> l in records[..i] || l == record;
      if record.deployment.applicationId == applicationId {
        if id !in current {
          OutrankingIsStrict(record, record, record);
          current := current[id := record];
        } else if Outranked(current[id], record) {
          forall other | other in read && SameIdentity(record, other) ensures !Outranked(record, other) {
            OutrankingIsStrict(current[id], record, other);
            OutrankingIsStrict(record, record, record);
          }
          current := current[id := record];
        }
      }
      i := i + 1;
    }
    assert records[..i] == records;
  }
}
