/** Permission sets: their canonical form, and when one may be granted out of another. */
module Permissions {
  import opened Order
  import opened StateStrings
  import opened StoreModel
  import opened Decimals

  // ----- sortedUnique

  /** Keeps each element that differs from the one before it. */
  function WithoutRepeats<T>(less: (T, T) -> bool, xs: seq<T>): seq<T> {
    if |xs| <= 1 then xs
    else
      var n := |xs| - 1;
      WithoutRepeats(less, xs[..n]) + if less(xs[n - 1], xs[n]) || less(xs[n], xs[n - 1]) then [xs[n]] else []
  }

  function SortedUnique<T>(less: (T, T) -> bool, xs: seq<T>): seq<T> { WithoutRepeats(less, Sort(less, xs)) }

  lemma {:induction false} RepeatsGone<T(!new)>(less: (T, T) -> bool, xs: seq<T>)
    requires StrictTotal(less) && NonDescending(less, xs)
    ensures Ascending(less, WithoutRepeats(less, xs)) && SameElements(WithoutRepeats(less, xs), xs)
  {
    if |xs| > 1 {
      var n := |xs| - 1;
      var front := xs[..n];
      RepeatsGone(less, front);
      var kept := WithoutRepeats(less, front);
      assert xs == front + [xs[n]];
      assert xs[n - 1] in front;
      forall x | x in kept && xs[n - 1] != xs[n] ensures less(x, xs[n]) {
        var i :| 0 <= i < n && xs[i] == x;
        assert !less(xs[n], xs[i]) && (!less(xs[n - 1], xs[i]) || i == n - 1);
      }
    }
  }

  /** sortedUnique is the ascending arrangement of the set of elements ... */
  lemma SortedUniqueArranges<T(!new)>(less: (T, T) -> bool, xs: seq<T>)
    requires StrictTotal(less)
    ensures Ascending(less, SortedUnique(less, xs)) && SameElements(SortedUnique(less, xs), xs)
  {
    SortSorts(less, xs);
    RepeatsGone(less, Sort(less, xs));
    forall x ensures x in Sort(less, xs) <==> x in xs {
      assert x in Sort(less, xs) <==> x in multiset(Sort(less, xs));
    }
  }

  /** ... so neither order nor repeats show, and doing it twice changes nothing. */
  lemma SortedUniqueBlind<T(!new)>(less: (T, T) -> bool, xs: seq<T>, ys: seq<T>)
    requires StrictTotal(less) && SameElements(xs, ys)
    ensures SortedUnique(less, xs) == SortedUnique(less, ys)
    ensures SortedUnique(less, SortedUnique(less, xs)) == SortedUnique(less, xs)
  {
    SortedUniqueArranges(less, xs);
    SortedUniqueArranges(less, ys);
    SortedUniqueArranges(less, SortedUnique(less, xs));
    AscendingUnique(less, SortedUnique(less, xs), SortedUnique(less, ys));
    AscendingUnique(less, SortedUnique(less, SortedUnique(less, xs)), SortedUnique(less, xs));
  }

  function SortedText(xs: seq<JsString>): seq<JsString> { SortedUnique(CodeUnitLess, xs) }

  predicate IntLess(a: int, b: int) { a < b }

  function SortedPorts(xs: seq<int>): seq<int> { SortedUnique(IntLess, xs) }

  lemma TextBlind(xs: seq<JsString>, ys: seq<JsString>)
    requires SameElements(xs, ys)
    ensures SortedText(xs) == SortedText(ys) && SortedText(SortedText(xs)) == SortedText(xs)
      && SameElements(SortedText(xs), xs)
  {
    CodeUnitOrder();
    SortedUniqueBlind(CodeUnitLess, xs, ys);
    SortedUniqueArranges(CodeUnitLess, xs);
  }

  lemma PortsBlind(xs: seq<int>, ys: seq<int>)
    requires SameElements(xs, ys)
    ensures SortedPorts(xs) == SortedPorts(ys) && SortedPorts(SortedPorts(xs)) == SortedPorts(xs)
      && SameElements(SortedPorts(xs), xs)
  {
    SortedUniqueBlind(IntLess, xs, ys);
    SortedUniqueArranges(IntLess, xs);
  }

  // ----- Permissions

  datatype CapabilityEntry = CapabilityEntry(name: JsString, methods: seq<JsString>)
  datatype RootEntry = RootEntry(path: JsString, access: seq<JsString>)

  datatype Permission =
    | Capability(capabilities: seq<CapabilityEntry>)
    | Environment(names: seq<JsString>)
    | Executor(executors: seq<JsString>)
    | Filesystem(roots: seq<RootEntry>)
    | Network(hosts: seq<JsString>, methods: seq<JsString>, ports: seq<int>)
    | SecretAccess(names: seq<JsString>)
    | WorkerUse(labels: map<JsString, JsString>, cpuMillis: int, memoryBytes: int, storageBytes: int)

  /** Position of a kind's name in text order. */
  function KindOf(p: Permission): nat {
    match p
    case Capability(_) => 0
    case Environment(_) => 1
    case Executor(_) => 2
    case Filesystem(_) => 3
    case Network(_, _, _) => 4
    case SecretAccess(_) => 5
    case WorkerUse(_, _, _, _) => 6
  }

  /** Host folding (IDNA to ASCII, then lower case) and upper-casing, as the platform does them. */
  datatype Platform = Platform(foldHost: JsString -> JsString, upperCase: JsString -> JsString)

  /** Folding a folded host changes nothing, and the HTTP method names are upper case already. */
  ghost predicate Lawful(platform: Platform) {
    && (forall host: JsString :: platform.foldHost(platform.foldHost(host)) == platform.foldHost(host))
    && (forall m: JsString | IsHttpMethod(m) :: platform.upperCase(m) == m)
  }

  predicate IsHttpMethod(m: JsString) {
    m == Ascii("DELETE") || m == Ascii("GET") || m == Ascii("HEAD") || m == Ascii("OPTIONS")
    || m == Ascii("PATCH") || m == Ascii("POST") || m == Ascii("PUT")
  }

  predicate IsExecutorKind(s: JsString) { s == Ascii("process") || s == Ascii("remote") || s == Ascii("thread") }

  predicate IsAccessMode(s: JsString) { s == Ascii("read") || s == Ascii("write") }

  predicate IsEnvironmentName(s: JsString) {
    && 0 < |s| <= 128 && (IsAlphanumeric(s[0]) || s[0] == 0x5f) && !IsDigit(s[0])
    && forall i | 0 < i < |s| :: IsAlphanumeric(s[i]) || s[i] == 0x5f
  }

  predicate IsLabelUnit(c: CodeUnit) { 0x61 <= c <= 0x7a || IsDigit(c) }

  /** One label of a host: letters, digits and inner hyphens, at most 63 of them. */
  predicate IsHostLabel(s: JsString) {
    0 < |s| <= 63 && IsLabelUnit(s[0]) && IsLabelUnit(s[|s| - 1]) && forall i | 0 <= i < |s| ::
      IsLabelUnit(s[i]) || s[i] == 0x2d
  }

  function IndexOf(s: JsString, c: CodeUnit): (i: nat)
    ensures i <= |s| && (i < |s| ==> s[i] == c) && forall k | 0 <= k < i :: s[k] != c
  {
    if s == [] || s[0] == c then 0 else 1 + IndexOf(s[1..], c)
  }

  function Split(s: JsString, c: CodeUnit): seq<JsString> {
    var i := IndexOf(s, c);
    if i == |s| then [s] else [s[..i]] + Split(s[i + 1..], c)
  }

  predicate IsHost(s: JsString) {
    |s| <= 253 && forall part | part in Split(s, 0x2e) :: IsHostLabel(part)
  }

  function CanonicalHost(platform: Platform, source: JsString): Option<JsString> {
    if 0x2a in source || 0 in source || source == [] then None
    else
      var withoutDot := if source[|source| - 1] == 0x2e then source[..|source| - 1] else source;
      if withoutDot == [] || withoutDot[|withoutDot| - 1] == 0x2e then None
      else
        var ascii := platform.foldHost(withoutDot);
        if IsHost(ascii) then Some(ascii) else None
  }

  predicate IsSegmentUnit(c: CodeUnit) { IsAlphanumeric(c) || c == 0x2e || c == 0x5f || c == 0x2d }

  predicate IsSegment(s: JsString) {
    s != [] && s != [0x2e] && s != [0x2e, 0x2e] && forall i | 0 <= i < |s| :: IsSegmentUnit(s[i])
  }

  /** Absolute logical paths; the root itself is the only one that ends in a slash. */
  predicate IsRoot(s: JsString) {
    s == [0x2f] || (s != [] && s[0] == 0x2f && forall segment | segment in Split(s[1..], 0x2f) :: IsSegment(segment))
  }

  // ----- Canonical form

  predicate AllPortable(names: seq<JsString>) { forall n | n in names :: IsPortableName(n) }

  predicate DistinctNames(cs: seq<CapabilityEntry>) { forall i, j | 0 <= i < j < |cs| :: cs[i].name != cs[j].name }

  predicate DistinctPaths(rs: seq<RootEntry>) { forall i, j | 0 <= i < j < |rs| :: rs[i].path != rs[j].path }

  predicate DistinctKinds(ps: seq<Permission>) { forall i, j | 0 <= i < j < |ps| :: KindOf(ps[i]) != KindOf(ps[j]) }

  predicate EntryLess(a: CapabilityEntry, b: CapabilityEntry) { LexLess(a.name, b.name) }

  predicate RootLess(a: RootEntry, b: RootEntry) { LexLess(a.path, b.path) }

  predicate KindLess(a: Permission, b: Permission) { KindOf(a) < KindOf(b) }

  function Mapped<T, U>(f: T -> U, xs: seq<T>): (ys: seq<U>)
    ensures |ys| == |xs| && forall i | 0 <= i < |xs| :: ys[i] == f(xs[i])
  {
    seq(|xs|, i requires 0 <= i < |xs| => f(xs[i]))
  }

  function TidyEntry(c: CapabilityEntry): CapabilityEntry { c.(methods := SortedText(c.methods)) }

  function TidyRoot(r: RootEntry): RootEntry { r.(access := SortedText(r.access)) }

  /** One entry of a set: an error, or its canonical form. */
  function CanonicalOne(platform: Platform, p: Permission): Option<Permission> {
    match p
    case Capability(cs) =>
      if DistinctNames(cs) && (forall c | c in cs :: IsPortableName(c.name) && AllPortable(c.methods))
      then Some(Capability(Sort(EntryLess, Mapped(TidyEntry, cs)))) else None
    case Environment(names) =>
      if forall n | n in names :: IsEnvironmentName(n) then Some(Environment(SortedText(names))) else None
    case SecretAccess(names) => if AllPortable(names) then Some(SecretAccess(SortedText(names))) else None
    case Executor(executors) =>
      if forall e | e in executors :: IsExecutorKind(e) then Some(Executor(SortedText(executors))) else None
    case Filesystem(roots) =>
      if DistinctPaths(roots) && forall r | r in roots :: IsRoot(r.path) && forall m | m in r.access :: IsAccessMode(m)
      then Some(Filesystem(Sort(RootLess, Mapped(TidyRoot, roots)))) else None
    case Network(hosts, methods, ports) =>
      if (forall h | h in hosts :: CanonicalHost(platform, h).Some?)
        && (forall m | m in methods :: IsHttpMethod(platform.upperCase(m)))
         && forall port | port in ports :: 1 <= port <= 65_535
      then Some(Network(SortedText(Mapped((h: JsString) => HostOr(platform, h), hosts)),
                        SortedText(Mapped(platform.upperCase, methods)), SortedPorts(ports)))
      else None
    case WorkerUse(labels, cpu, memory, storage) =>
      if (forall name | name in labels :: IsPortableName(name) && IsPortableName(labels[name]))
         && 0 <= cpu <= MAX_SAFE_INTEGER && 0 <= memory <= MAX_SAFE_INTEGER && 0 <= storage <= MAX_SAFE_INTEGER
      then Some(p) else None
  }

  function HostOr(platform: Platform, h: JsString): JsString {
    var host := CanonicalHost(platform, h);
    if host.Some? then host.value else h
  }

  function TidyOr(platform: Platform, p: Permission): Permission {
    var tidy := CanonicalOne(platform, p);
    if tidy.Some? then tidy.value else p
  }

  function TidyAll(platform: Platform, ps: seq<Permission>): seq<Permission> {
    Mapped((p: Permission) => TidyOr(platform, p), ps)
  }

  function Canonicalize(platform: Platform, ps: seq<Permission>): Option<seq<Permission>> {
    if DistinctKinds(ps) && forall p | p in ps :: CanonicalOne(platform, p).Some?
    then Some(Sort(KindLess, TidyAll(platform, ps)))
    else None
  }

  // ----- Granting

  predicate ContainsAll<T(==)>(requested: seq<T>, granted: seq<T>) { forall x | x in granted :: x in requested }

  predicate ContainsLogicalPath(root: JsString, target: JsString) {
    root == [0x2f] || target == root || root + [0x2f] <= target
  }

  function FindEntry(cs: seq<CapabilityEntry>, name: JsString): (c: Option<CapabilityEntry>)
    ensures c.Some? ==> c.value in cs && c.value.name == name
    ensures c.None? ==> forall e | e in cs :: e.name != name
  {
    if cs == [] then None else if cs[0].name == name then Some(cs[0]) else FindEntry(cs[1..], name)
  }

  predicate CategorySubset(requested: Permission, granted: Permission) {
    match (requested, granted)
    case (Capability(maximum), Capability(capabilities)) =>
      forall c | c in capabilities ::
        FindEntry(maximum, c.name).Some? && ContainsAll(FindEntry(maximum, c.name).value.methods, c.methods)
    case (Environment(maximum), Environment(names)) => ContainsAll(maximum, names)
    case (Executor(maximum), Executor(executors)) => ContainsAll(maximum, executors)
    case (Filesystem(maximum), Filesystem(roots)) =>
      forall r | r in roots :: exists m ::
        m in maximum && ContainsLogicalPath(m.path, r.path) && ContainsAll(m.access, r.access)
    case (Network(hosts, methods, ports), Network(grantedHosts, grantedMethods, grantedPorts)) =>
      ContainsAll(hosts, grantedHosts) && ContainsAll(ports, grantedPorts) && ContainsAll(methods, grantedMethods)
    case (SecretAccess(maximum), SecretAccess(names)) => ContainsAll(maximum, names)
    case (WorkerUse(labels, cpu, memory, storage),
          WorkerUse(grantedLabels, grantedCpu, grantedMemory, grantedStorage)) =>
      && (forall name | name in labels :: name in grantedLabels && grantedLabels[name] == labels[name])
      && grantedCpu <= cpu && grantedMemory <= memory && grantedStorage <= storage
    case _ => false
  }

  function FindKind(ps: seq<Permission>, kind: nat): (p: Option<Permission>)
    ensures p.Some? ==> p.value in ps && KindOf(p.value) == kind
    ensures p.None? ==> forall q | q in ps :: KindOf(q) != kind
  {
    if ps == [] then None else if KindOf(ps[0]) == kind then Some(ps[0]) else FindKind(ps[1..], kind)
  }

  predicate Covered(requested: seq<Permission>, p: Permission) {
    FindKind(requested, KindOf(p)).Some? && CategorySubset(FindKind(requested, KindOf(p)).value, p)
  }

  predicate MayGrant(requested: seq<Permission>, granted: seq<Permission>) {
    forall p | p in granted :: Covered(requested, p)
  }

  datatype Decision = EnvelopeInvalid | ExceedsRequest(kind: nat) | Allowed(requested: seq<Permission>,
      granted: seq<Permission>)

  /** Canonicalize both sets, then stop at the first granted permission that is not covered. */
  method ValidatePermissionGrant(platform: Platform, requestedInput: seq<Permission>, grantedInput: seq<Permission>)
    returns (d: Decision)
    ensures var requested, granted := Canonicalize(platform, requestedInput), Canonicalize(platform, grantedInput);
      && (d == EnvelopeInvalid <==> requested.None? || granted.None?)
      && (d.Allowed? <==> requested.Some? && granted.Some? && MayGrant(requested.value, granted.value))
      && (d.Allowed? ==> d == Allowed(requested.value, granted.value))
      && (d.ExceedsRequest? ==> exists p :: p in granted.value && KindOf(p) == d.kind && !Covered(requested.value, p))
  {
    var canonicalRequested := Canonicalize(platform, requestedInput);
    var canonicalGranted := Canonicalize(platform, grantedInput);
    if canonicalRequested.None? || canonicalGranted.None? {
      return EnvelopeInvalid;
    }
    var requested, granted := canonicalRequested.value, canonicalGranted.value;
    var i := 0;
    while i < |granted|
      invariant i <= |granted| && forall k | 0 <= k < i :: Covered(requested, granted[k])
    {
      var permission := granted[i];
      var maximum := FindKind(requested, KindOf(permission));
      if maximum.None? || !CategorySubset(maximum.value, permission) {
        assert !Covered(requested, permission);
        return ExceedsRequest(KindOf(permission));
      }
      i := i + 1;
    }
    d := Allowed(requested, granted);
  }

  // ----- Canonicalization is idempotent, and blind to order and repeats

  lemma {:induction false} SplitCovers(s: JsString, c: CodeUnit, x: CodeUnit)
    requires x in s && x != c
    ensures exists part :: part in Split(s, c) && x in part
  {
    var i := IndexOf(s, c);
    if i == |s| {
      assert s in Split(s, c);
    } else if x in s[..i] {
      assert Split(s, c)[0] == s[..i];
    } else {
      var rest := s[i + 1..];
      assert s == s[..i] + [c] + rest;
      SplitCovers(rest, c, x);
      var part :| part in Split(rest, c) && x in part;
      assert part in Split(s, c);
    }
  }

  lemma {:induction false} SplitOfTrailing(s: JsString, c: CodeUnit)
    requires s == [] || s[|s| - 1] == c
    ensures [] in Split(s, c)
  {
    var i := IndexOf(s, c);
    if i < |s| {
      var rest := s[i + 1..];
      SplitOfTrailing(rest, c);
      assert [] in Split(rest, c);
      assert Split(s, c) == [s[..i]] + Split(rest, c);
    } else {
      assert s == [];
    }
  }

  /** A host that came out of folding goes in and comes out unchanged. */
  lemma HostStays(platform: Platform, source: JsString)
    requires Lawful(platform) && CanonicalHost(platform, source).Some?
    ensures CanonicalHost(platform, CanonicalHost(platform, source).value) == CanonicalHost(platform, source)
  {
    var host := CanonicalHost(platform, source).value;
    if host == [] || host[|host| - 1] == 0x2e { SplitOfTrailing(host, 0x2e); }
    forall x | x in host && x != 0x2e ensures x != 0x2a && x != 0 {
      SplitCovers(host, 0x2e, x);
      var part :| part in Split(host, 0x2e) && x in part;
      assert IsHostLabel(part);
    }
  }

  lemma SortedAgain<T(!new)>(less: (T, T) -> bool, xs: seq<T>)
    requires StrictWeak(less) && Distinct(xs) && NoTies(less, xs)
    ensures Sort(less, Sort(less, xs)) == Sort(less, xs)
    ensures Ascending(less, Sort(less, xs)) && SameElements(Sort(less, xs), xs) && |Sort(less, xs)| == |xs|
  {
    SortDistinct(less, xs);
    SortBlind(less, xs, Sort(less, xs));
  }

  lemma EntryOrder()
    ensures StrictWeak(EntryLess) && StrictWeak(RootLess) && StrictWeak(KindLess)
  {
    CodeUnitOrder();
    ByKey(EntryLess, CodeUnitLess, (c: CapabilityEntry) => c.name);
    ByKey(RootLess, CodeUnitLess, (r: RootEntry) => r.path);
  }

  /** Entries with distinct names, tidied, have no ties in name order. */
  lemma EntriesApart(cs: seq<CapabilityEntry>)
    requires DistinctNames(cs)
    ensures Distinct(Mapped(TidyEntry, cs)) && NoTies(EntryLess, Mapped(TidyEntry, cs))
  {
    var tidy := Mapped(TidyEntry, cs);
    forall a, b | a in tidy && b in tidy && a != b ensures EntryLess(a, b) || EntryLess(b, a) {
      var i :| 0 <= i < |tidy| && tidy[i] == a;
      var j :| 0 <= j < |tidy| && tidy[j] == b;
      assert tidy[i].name == cs[i].name && tidy[j].name == cs[j].name;
      LexConnected(a.name, b.name);
    }
    forall i, j | 0 <= i < j < |tidy| ensures tidy[i] != tidy[j] {
      assert tidy[i].name == cs[i].name && tidy[j].name == cs[j].name;
    }
  }

  lemma RootsApart(rs: seq<RootEntry>)
    requires DistinctPaths(rs)
    ensures Distinct(Mapped(TidyRoot, rs)) && NoTies(RootLess, Mapped(TidyRoot, rs))
  {
    var tidy := Mapped(TidyRoot, rs);
    forall a, b | a in tidy && b in tidy && a != b ensures RootLess(a, b) || RootLess(b, a) {
      var i :| 0 <= i < |tidy| && tidy[i] == a;
      var j :| 0 <= j < |tidy| && tidy[j] == b;
      assert tidy[i].path == rs[i].path && tidy[j].path == rs[j].path;
      LexConnected(a.path, b.path);
    }
    forall i, j | 0 <= i < j < |tidy| ensures tidy[i] != tidy[j] {
      assert tidy[i].path == rs[i].path && tidy[j].path == rs[j].path;
    }
  }

  ghost predicate CapabilitiesSaidBy(a: seq<CapabilityEntry>, b: seq<CapabilityEntry>) {
    forall x | x in a :: exists y :: y in b && y.name == x.name && SameElements(y.methods, x.methods)
  }

  ghost predicate RootsSaidBy(a: seq<RootEntry>, b: seq<RootEntry>) {
    forall x | x in a :: exists y :: y in b && y.path == x.path && SameElements(y.access, x.access)
  }

  /** What a list of capabilities says: its names, each with its set of methods. */
  ghost predicate SameCapabilities(a: seq<CapabilityEntry>, b: seq<CapabilityEntry>) {
    CapabilitiesSaidBy(a, b) && CapabilitiesSaidBy(b, a)
  }

  ghost predicate SameRoots(a: seq<RootEntry>, b: seq<RootEntry>) { RootsSaidBy(a, b) && RootsSaidBy(b, a) }

  lemma TidyEntriesSame(a: seq<CapabilityEntry>, b: seq<CapabilityEntry>)
    requires CapabilitiesSaidBy(a, b)
    ensures forall t | t in Mapped(TidyEntry, a) :: t in Mapped(TidyEntry, b)
  {
    hide SortedText, SameElements;
    forall t | t in Mapped(TidyEntry, a) ensures t in Mapped(TidyEntry, b) {
      var i :| 0 <= i < |a| && Mapped(TidyEntry, a)[i] == t;
      assert a[i] in a;
      var y :| y in b && y.name == a[i].name && SameElements(y.methods, a[i].methods);
      TextBlind(y.methods, a[i].methods);
      var j :| 0 <= j < |b| && b[j] == y;
      assert Mapped(TidyEntry, b)[j] == t;
    }
  }

  lemma TidyRootsSame(a: seq<RootEntry>, b: seq<RootEntry>)
    requires RootsSaidBy(a, b)
    ensures forall t | t in Mapped(TidyRoot, a) :: t in Mapped(TidyRoot, b)
  {
    hide SortedText, SameElements;
    forall t | t in Mapped(TidyRoot, a) ensures t in Mapped(TidyRoot, b) {
      var i :| 0 <= i < |a| && Mapped(TidyRoot, a)[i] == t;
      assert a[i] in a;
      var y :| y in b && y.path == a[i].path && SameElements(y.access, a[i].access);
      TextBlind(y.access, a[i].access);
      var j :| 0 <= j < |b| && b[j] == y;
      assert Mapped(TidyRoot, b)[j] == t;
    }
  }

  lemma CapabilitiesBlind(a: seq<CapabilityEntry>, b: seq<CapabilityEntry>)
    requires DistinctNames(a) && DistinctNames(b) && SameCapabilities(a, b)
    ensures Sort(EntryLess, Mapped(TidyEntry, a)) == Sort(EntryLess, Mapped(TidyEntry, b))
  {
    hide CapabilitiesSaidBy;
    TidyEntriesSame(a, b);
    TidyEntriesSame(b, a);
    EntriesApart(a);
    EntriesApart(b);
    EntryOrder();
    SortBlind(EntryLess, Mapped(TidyEntry, a), Mapped(TidyEntry, b));
  }

  lemma RootsBlind(a: seq<RootEntry>, b: seq<RootEntry>)
    requires DistinctPaths(a) && DistinctPaths(b) && SameRoots(a, b)
    ensures Sort(RootLess, Mapped(TidyRoot, a)) == Sort(RootLess, Mapped(TidyRoot, b))
  {
    hide RootsSaidBy;
    TidyRootsSame(a, b);
    TidyRootsSame(b, a);
    RootsApart(a);
    RootsApart(b);
    EntryOrder();
    SortBlind(RootLess, Mapped(TidyRoot, a), Mapped(TidyRoot, b));
  }

  /** Two permissions that differ only in list order and in repeats of plain lists. */
  ghost predicate SaysTheSame(p: Permission, q: Permission) {
    match (p, q)
    case (Capability(a), Capability(b)) => DistinctNames(a) && DistinctNames(b) && SameCapabilities(a, b)
    case (Environment(a), Environment(b)) => SameElements(a, b)
    case (Executor(a), Executor(b)) => SameElements(a, b)
    case (Filesystem(a), Filesystem(b)) => DistinctPaths(a) && DistinctPaths(b) && SameRoots(a, b)
    case (Network(h1, m1, p1), Network(h2, m2, p2)) =>
      SameElements(h1, h2) && SameElements(m1, m2) && SameElements(p1, p2)
    case (SecretAccess(a), SecretAccess(b)) => SameElements(a, b)
    case (WorkerUse(_, _, _, _), WorkerUse(_, _, _, _)) => p == q
    case _ => false
  }

  lemma MappedSame<T(!new), U>(f: T -> U, a: seq<T>, b: seq<T>)
    requires SameElements(a, b)
    ensures forall y | y in Mapped(f, a) :: y in Mapped(f, b)
  {
    forall y | y in Mapped(f, a) ensures y in Mapped(f, b) {
      var i :| 0 <= i < |a| && Mapped(f, a)[i] == y;
      assert a[i] in b;
      var j :| 0 <= j < |b| && b[j] == a[i];
      assert Mapped(f, b)[j] == y;
    }
  }

  lemma NetworkBlind(platform: Platform, p: Permission, q: Permission)
    requires p.Network? && q.Network? && SaysTheSame(p, q)
    ensures CanonicalOne(platform, p) == CanonicalOne(platform, q)
  {
    var host := (h: JsString) => HostOr(platform, h);
    MappedSame(host, p.hosts, q.hosts);
    MappedSame(host, q.hosts, p.hosts);
    MappedSame(platform.upperCase, p.methods, q.methods);
    MappedSame(platform.upperCase, q.methods, p.methods);
    TextBlind(Mapped(host, p.hosts), Mapped(host, q.hosts));
    TextBlind(Mapped(platform.upperCase, p.methods), Mapped(platform.upperCase, q.methods));
    PortsBlind(p.ports, q.ports);
  }

  lemma CapabilityBlind(platform: Platform, p: Permission, q: Permission)
    requires p.Capability? && q.Capability? && SaysTheSame(p, q)
    ensures CanonicalOne(platform, p) == CanonicalOne(platform, q)
  {
    hide Sort, IsPortableName;
    CapabilitiesBlind(p.capabilities, q.capabilities);
  }

  lemma FilesystemBlind(platform: Platform, p: Permission, q: Permission)
    requires p.Filesystem? && q.Filesystem? && SaysTheSame(p, q)
    ensures CanonicalOne(platform, p) == CanonicalOne(platform, q)
  {
    hide Sort, IsRoot, IsAccessMode;
    RootsBlind(p.roots, q.roots);
  }

  lemma NamesBlind(platform: Platform, p: Permission, q: Permission)
    requires (p.Environment? && q.Environment?) || (p.Executor? && q.Executor?) || (p.SecretAccess? && q.SecretAccess?)
    requires SaysTheSame(p, q)
    ensures CanonicalOne(platform, p) == CanonicalOne(platform, q)
  {
    hide IsEnvironmentName, IsPortableName, IsExecutorKind, SortedText;
    if p.Executor? { TextBlind(p.executors, q.executors); } else { TextBlind(p.names, q.names); }
  }

  /** Canonical forms do not depend on list order or on repeats. */
  lemma CanonicalBlind(platform: Platform, p: Permission, q: Permission)
    requires SaysTheSame(p, q)
    ensures CanonicalOne(platform, p) == CanonicalOne(platform, q)
  {
    hide CanonicalOne;
    match p
    case Capability(_) => CapabilityBlind(platform, p, q);
    case Filesystem(_) => FilesystemBlind(platform, p, q);
    case Network(_, _, _) => NetworkBlind(platform, p, q);
    case WorkerUse(_, _, _, _) =>
    case _ => NamesBlind(platform, p, q);
  }

  lemma AlreadyTidy(cs: seq<CapabilityEntry>)
    requires forall c | c in cs :: SortedText(c.methods) == c.methods
    ensures Mapped(TidyEntry, cs) == cs
  {
    hide SortedText;
  }

  lemma RootsAlreadyTidy(rs: seq<RootEntry>)
    requires forall r | r in rs :: SortedText(r.access) == r.access
    ensures Mapped(TidyRoot, rs) == rs
  {
    hide SortedText;
  }

  lemma CapabilityStays(platform: Platform, p: Permission)
    requires p.Capability? && CanonicalOne(platform, p).Some?
    ensures CanonicalOne(platform, CanonicalOne(platform, p).value) == CanonicalOne(platform, p)
  {
    hide Sort, SortedText, IsPortableName;
    var tidy := Mapped(TidyEntry, p.capabilities);
    var sorted := Sort(EntryLess, tidy);
    EntriesApart(p.capabilities);
    EntryOrder();
    SortedAgain(EntryLess, tidy);
    forall c | c in sorted
      ensures IsPortableName(c.name) && AllPortable(c.methods) && SortedText(c.methods) == c.methods
    {
      var i :| 0 <= i < |tidy| && tidy[i] == c;
      TextBlind(p.capabilities[i].methods, p.capabilities[i].methods);
      assert p.capabilities[i] in p.capabilities;
    }
    AlreadyTidy(sorted);
    forall i, j | 0 <= i < j < |sorted| ensures sorted[i].name != sorted[j].name {
      assert EntryLess(sorted[i], sorted[j]);
      LexIrreflexive(sorted[i].name);
    }
  }

  lemma FilesystemStays(platform: Platform, p: Permission)
    requires p.Filesystem? && CanonicalOne(platform, p).Some?
    ensures CanonicalOne(platform, CanonicalOne(platform, p).value) == CanonicalOne(platform, p)
  {
    hide Sort, SortedText, IsRoot, IsAccessMode;
    var tidy := Mapped(TidyRoot, p.roots);
    var sorted := Sort(RootLess, tidy);
    RootsApart(p.roots);
    EntryOrder();
    SortedAgain(RootLess, tidy);
    forall r | r in sorted
      ensures IsRoot(r.path) && (forall m | m in r.access :: IsAccessMode(m)) && SortedText(r.access) == r.access
    {
      var i :| 0 <= i < |tidy| && tidy[i] == r;
      TextBlind(p.roots[i].access, p.roots[i].access);
      assert p.roots[i] in p.roots;
    }
    RootsAlreadyTidy(sorted);
    forall i, j | 0 <= i < j < |sorted| ensures sorted[i].path != sorted[j].path {
      assert RootLess(sorted[i], sorted[j]);
      LexIrreflexive(sorted[i].path);
    }
  }

  lemma MappedFixed<T>(f: T -> T, xs: seq<T>)
    requires forall x | x in xs :: f(x) == x
    ensures Mapped(f, xs) == xs
  {
  }

  lemma NetworkStays(platform: Platform, p: Permission)
    requires Lawful(platform) && p.Network? && CanonicalOne(platform, p).Some?
    ensures CanonicalOne(platform, CanonicalOne(platform, p).value) == CanonicalOne(platform, p)
  {
    hide SortedText, SortedPorts, IsHttpMethod;
    var hostOr := (h: JsString) => HostOr(platform, h);
    var hosts, methods := Mapped(hostOr, p.hosts), Mapped(platform.upperCase, p.methods);
    TextBlind(hosts, hosts);
    TextBlind(methods, methods);
    PortsBlind(p.ports, p.ports);
    forall h | h in SortedText(hosts) ensures CanonicalHost(platform, h) == Some(h) && hostOr(h) == h {
      var i :| 0 <= i < |hosts| && hosts[i] == h;
      assert p.hosts[i] in p.hosts;
      HostStays(platform, p.hosts[i]);
    }
    forall m | m in SortedText(methods) ensures IsHttpMethod(m) && platform.upperCase(m) == m {
      var i :| 0 <= i < |methods| && methods[i] == m;
      assert p.methods[i] in p.methods;
    }
    MappedFixed(hostOr, SortedText(hosts));
    MappedFixed(platform.upperCase, SortedText(methods));
  }

  lemma NamesStay(platform: Platform, p: Permission)
    requires (p.Environment? || p.Executor? || p.SecretAccess?) && CanonicalOne(platform, p).Some?
    ensures CanonicalOne(platform, CanonicalOne(platform, p).value) == CanonicalOne(platform, p)
  {
    hide IsEnvironmentName, IsPortableName, IsExecutorKind, SortedText;
    if p.Executor? { TextBlind(p.executors, p.executors); } else { TextBlind(p.names, p.names); }
  }

  lemma CanonicalOneStays(platform: Platform, p: Permission)
    requires Lawful(platform) && CanonicalOne(platform, p).Some?
    ensures CanonicalOne(platform, CanonicalOne(platform, p).value) == CanonicalOne(platform, p)
    ensures KindOf(CanonicalOne(platform, p).value) == KindOf(p)
  {
    match p
    case Capability(_) => CapabilityStays(platform, p);
    case Filesystem(_) => FilesystemStays(platform, p);
    case Network(_, _, _) => NetworkStays(platform, p);
    case WorkerUse(_, _, _, _) =>
    case _ => NamesStay(platform, p);
  }

  lemma KindsApart(platform: Platform, ps: seq<Permission>)
    requires DistinctKinds(ps)
    ensures Distinct(TidyAll(platform, ps)) && NoTies(KindLess, TidyAll(platform, ps))
  {
    hide CanonicalOne;
    var tidy := TidyAll(platform, ps);
    forall i | 0 <= i < |tidy| ensures KindOf(tidy[i]) == KindOf(ps[i]) { TidyKeepsKind(platform, ps[i]); }
    forall a, b | a in tidy && b in tidy && a != b ensures KindLess(a, b) || KindLess(b, a) {
      var i :| 0 <= i < |tidy| && tidy[i] == a;
      var j :| 0 <= j < |tidy| && tidy[j] == b;
    }
    forall i, j | 0 <= i < j < |tidy| ensures tidy[i] != tidy[j] {
      assert KindOf(tidy[i]) == KindOf(ps[i]) && KindOf(tidy[j]) == KindOf(ps[j]);
    }
  }

  lemma TidyKeepsKind(platform: Platform, p: Permission)
    ensures KindOf(TidyOr(platform, p)) == KindOf(p)
  {
  }

  /** Canonicalizing a canonical set changes nothing. */
  lemma CanonicalizeIsIdempotent(platform: Platform, ps: seq<Permission>)
    requires Lawful(platform) && Canonicalize(platform, ps).Some?
    ensures Canonicalize(platform, Canonicalize(platform, ps).value) == Canonicalize(platform, ps)
  {
    hide Sort, CanonicalOne, KindOf;
    var tidyOr := (p: Permission) => TidyOr(platform, p);
    var tidy := TidyAll(platform, ps);
    var sorted := Sort(KindLess, tidy);
    KindsApart(platform, ps);
    EntryOrder();
    SortedAgain(KindLess, tidy);
    forall p | p in sorted ensures CanonicalOne(platform, p) == Some(p) && tidyOr(p) == p {
      var i :| 0 <= i < |tidy| && tidy[i] == p;
      assert ps[i] in ps;
      CanonicalOneStays(platform, ps[i]);
    }
    MappedFixed(tidyOr, sorted);
    forall i, j | 0 <= i < j < |sorted| ensures KindOf(sorted[i]) != KindOf(sorted[j]) {
      assert KindLess(sorted[i], sorted[j]);
    }
  }

  ghost predicate AllSaidBy(a: seq<Permission>, b: seq<Permission>) {
    forall p | p in a :: exists q :: q in b && SaysTheSame(p, q)
  }

  /** Two sets that list the same permissions, up to order and repeats of plain lists. */
  ghost predicate SetsSayTheSame(a: seq<Permission>, b: seq<Permission>) { AllSaidBy(a, b) && AllSaidBy(b, a) }

  lemma TidySetsSame(platform: Platform, a: seq<Permission>, b: seq<Permission>)
    requires AllSaidBy(a, b)
    ensures (forall p | p in b :: CanonicalOne(platform, p).Some?) ==>
      && (forall p | p in a :: CanonicalOne(platform, p).Some?)
      && (forall t | t in TidyAll(platform, a) :: t in TidyAll(platform, b))
  {
    hide CanonicalOne, SaysTheSame;
    forall p | p in a ensures exists q :: q in b && CanonicalOne(platform, p) == CanonicalOne(platform, q) {
      var q :| q in b && SaysTheSame(p, q);
      CanonicalBlind(platform, p, q);
    }
    if forall p | p in b :: CanonicalOne(platform, p).Some? {
      forall t | t in TidyAll(platform, a) ensures t in TidyAll(platform, b) {
        var i :| 0 <= i < |a| && TidyAll(platform, a)[i] == t;
        assert a[i] in a;
        var q :| q in b && CanonicalOne(platform, a[i]) == CanonicalOne(platform, q);
        var j :| 0 <= j < |b| && b[j] == q;
        assert TidyAll(platform, b)[j] == t;
      }
    }
  }

  /** Canonicalization does not see list order or repeats: sets without repeated kinds that say
      the same have the same canonical form, or are both refused. */
  lemma CanonicalizeIsBlind(platform: Platform, a: seq<Permission>, b: seq<Permission>)
    requires DistinctKinds(a) && DistinctKinds(b) && SetsSayTheSame(a, b)
    ensures Canonicalize(platform, a) == Canonicalize(platform, b)
  {
    hide Sort, CanonicalOne, AllSaidBy, TidyAll, DistinctKinds;
    TidySetsSame(platform, a, b);
    TidySetsSame(platform, b, a);
    if Canonicalize(platform, a).Some? || Canonicalize(platform, b).Some? {
      SortedTidyBlind(platform, a, b);
    }
  }

  lemma SortedTidyBlind(platform: Platform, a: seq<Permission>, b: seq<Permission>)
    requires DistinctKinds(a) && DistinctKinds(b) && SameElements(TidyAll(platform, a), TidyAll(platform, b))
    ensures Sort(KindLess, TidyAll(platform, a)) == Sort(KindLess, TidyAll(platform, b))
  {
    hide Sort, CanonicalOne, TidyAll, KindOf;
    KindsApart(platform, a);
    KindsApart(platform, b);
    EntryOrder();
    SortBlind(KindLess, TidyAll(platform, a), TidyAll(platform, b));
  }

  // ----- Granting is a preorder on canonical sets

  lemma PathsNest(a: JsString, b: JsString, c: JsString)
    requires IsRoot(a) && ContainsLogicalPath(a, b) && ContainsLogicalPath(b, c)
    ensures ContainsLogicalPath(a, c)
  {
    if a != [0x2f] && b != a {
      assert |b| >= 2;
      if c != b { assert a + [0x2f] <= b <= b + [0x2f] <= c; }
    }
  }

  /** What canonical permissions promise beyond their type. */
  predicate WellMade(p: Permission) {
    && (p.Capability? ==> DistinctNames(p.capabilities))
    && (p.Filesystem? ==> forall r | r in p.roots :: IsRoot(r.path))
  }

  predicate WellMadeSet(ps: seq<Permission>) { DistinctKinds(ps) && forall p | p in ps :: WellMade(p) }

  lemma CanonicalIsWellMade(platform: Platform, ps: seq<Permission>)
    requires Lawful(platform) && Canonicalize(platform, ps) == Some(ps)
    ensures WellMadeSet(ps)
  {
    hide IsRoot, IsPortableName, IsEnvironmentName;
    forall p | p in ps ensures WellMade(p) {
      assert CanonicalOne(platform, p).Some?;
    }
  }

  lemma SubsetReflexive(p: Permission)
    requires WellMade(p)
    ensures CategorySubset(p, p)
  {
    match p
    case Capability(cs) =>
      forall c | c in cs ensures FindEntry(cs, c.name) == Some(c) {
        var i :| 0 <= i < |cs| && cs[i] == c;
        var found := FindEntry(cs, c.name).value;
        var j :| 0 <= j < |cs| && cs[j] == found;
        assert i == j;
      }
    case Filesystem(roots) =>
      forall r | r in roots
        ensures exists m :: m in roots && ContainsLogicalPath(m.path, r.path) && ContainsAll(m.access, r.access)
      {
        assert ContainsLogicalPath(r.path, r.path) && ContainsAll(r.access, r.access);
      }
    case _ =>
  }

  lemma SubsetTransitive(a: Permission, b: Permission, c: Permission)
    requires WellMade(a) && CategorySubset(a, b) && CategorySubset(b, c)
    ensures CategorySubset(a, c)
  {
    hide IsRoot;
    match c
    case Capability(cs) =>
      forall x | x in cs
        ensures FindEntry(a.capabilities, x.name).Some?
          && ContainsAll(FindEntry(a.capabilities, x.name).value.methods, x.methods)
      {
        var y := FindEntry(b.capabilities, x.name).value;
        assert y in b.capabilities;
      }
    case Filesystem(roots) =>
      forall r | r in roots
        ensures exists m :: m in a.roots && ContainsLogicalPath(m.path, r.path) && ContainsAll(m.access, r.access)
      {
        var middle :| middle in b.roots && ContainsLogicalPath(middle.path, r.path)
          && ContainsAll(middle.access, r.access);
        var outer :| outer in a.roots && ContainsLogicalPath(outer.path, middle.path)
          && ContainsAll(outer.access, middle.access);
        PathsNest(outer.path, middle.path, r.path);
      }
    case _ =>
  }

  lemma FindsItself(ps: seq<Permission>, p: Permission)
    requires DistinctKinds(ps) && p in ps
    ensures FindKind(ps, KindOf(p)) == Some(p)
  {
    var i :| 0 <= i < |ps| && ps[i] == p;
    var found := FindKind(ps, KindOf(p)).value;
    var j :| 0 <= j < |ps| && ps[j] == found;
    assert i == j;
  }

  /** A canonical set may be granted to itself, and grants compose across all seven kinds. */
  lemma GrantingIsPreorder(platform: Platform, a: seq<Permission>, b: seq<Permission>, c: seq<Permission>)
    requires Lawful(platform) && Canonicalize(platform, a) == Some(a)
    ensures MayGrant(a, a)
    ensures MayGrant(a, b) && MayGrant(b, c) ==> MayGrant(a, c)
  {
    hide CategorySubset, KindOf, Canonicalize;
    CanonicalIsWellMade(platform, a);
    forall p | p in a ensures Covered(a, p) {
      FindsItself(a, p);
      SubsetReflexive(p);
    }
    if MayGrant(a, b) && MayGrant(b, c) {
      forall p | p in c ensures Covered(a, p) {
        assert Covered(b, p);
        var q := FindKind(b, KindOf(p)).value;
        assert Covered(a, q);
        SubsetTransitive(FindKind(a, KindOf(q)).value, q, p);
      }
    }
  }

  /** A decision on inputs, not on canonical sets: a request may be granted whole exactly when it
      is well formed, and what it may be granted may in turn grant what follows. */
  lemma InputsFormPreorder(platform: Platform, x: seq<Permission>, y: seq<Permission>, z: seq<Permission>)
    requires Lawful(platform) && Canonicalize(platform, x).Some? && Canonicalize(platform, y).Some?
      && Canonicalize(platform, z).Some?
    ensures MayGrant(Canonicalize(platform, x).value, Canonicalize(platform, x).value)
    ensures MayGrant(Canonicalize(platform, x).value, Canonicalize(platform, y).value)
            && MayGrant(Canonicalize(platform, y).value, Canonicalize(platform, z).value)
            ==> MayGrant(Canonicalize(platform, x).value, Canonicalize(platform, z).value)
  {
    hide Canonicalize, MayGrant;
    CanonicalizeIsIdempotent(platform, x);
    GrantingIsPreorder(platform, Canonicalize(platform, x).value, Canonicalize(platform, y).value,
                       Canonicalize(platform, z).value);
  }

  // ----- What a grant allows

  lemma SplitEmpty(c: CodeUnit)
    ensures Split([], c) == [[]]
  {
  }

  lemma FirstOf(s: JsString, t: JsString, c: CodeUnit)
    ensures IndexOf(s + [c] + t, c) == IndexOf(s, c)
  {
    var whole := s + [c] + t;
    assert forall k | 0 <= k < |s| :: whole[k] == s[k];
    assert whole[|s|] == c;
  }

  lemma SplitHasParts(s: JsString, c: CodeUnit)
    ensures |Split(s, c)| > 0
  {
  }

  lemma Around(s: JsString, i: nat)
    requires i < |s|
    ensures s == s[..i] + [s[i]] + s[i + 1..]
  {
  }

  lemma PutFirst(x: JsString, rest: seq<JsString>, all: seq<JsString>)
    requires all == [x] + rest
    ensures all[0] == x && all[1..] == rest && |all| == 1 + |rest|
  {
  }

  lemma SplitCases(s: JsString, c: CodeUnit)
    ensures var i := IndexOf(s, c);
      && (i == |s| ==> Split(s, c) == [s])
      && (i < |s| ==>
            && |Split(s, c)| > 1 && Split(s, c)[0] == s[..i] && Split(s, c)[1..] == Split(s[i + 1..], c)
            && s == s[..i] + [c] + s[i + 1..])
  {
    hide IndexOf;
    var i := IndexOf(s, c);
    if i < |s| {
      var all, rest := Split(s, c), Split(s[i + 1..], c);
      assert all == [s[..i]] + rest;
      hide Split;
      SplitHasParts(s[i + 1..], c);
      Around(s, i);
      PutFirst(s[..i], rest, all);
    }
  }

  lemma Assembled(whole: seq<JsString>, front: seq<JsString>, back: seq<JsString>)
    requires |whole| > 0 && |front| > 0 && whole[0] == front[0] && whole[1..] == front[1..] + back
    ensures whole == front + back
  {
  }

  lemma Dropped(whole: JsString, s: JsString, t: JsString, c: CodeUnit, i: nat)
    requires whole == s + [c] + t && i <= |s|
    ensures whole[..i] == s[..i]
    ensures i < |s| ==> whole[i + 1..] == s[i + 1..] + [c] + t
    ensures i == |s| ==> whole[i + 1..] == t
  {
  }

  lemma {:induction false} SplitConcat(whole: JsString, s: JsString, t: JsString, c: CodeUnit)
    requires whole == s + [c] + t
    ensures Split(whole, c) == Split(s, c) + Split(t, c)
    decreases |s|
  {
    var i := IndexOf(s, c);
    FirstOf(s, t, c);
    SplitCases(s, c);
    SplitCases(whole, c);
    Dropped(whole, s, t, c, i);
    if i < |s| { SplitConcat(whole[i + 1..], s[i + 1..], t, c); }
    hide Split, IndexOf;
    assert Split(s, c)[0] == s[..i];
    Assembled(Split(whole, c), Split(s, c), Split(t, c));
  }

  lemma StartsLonger(x: JsString, c: CodeUnit, s: JsString, t: JsString)
    requires t == s || s + [c] <= t
    ensures x + [c] + t == x + [c] + s || x + [c] + s + [c] <= x + [c] + t
  {
    if t != s {
      var rest := t[|s| + 1..];
      assert t == s + [c] + rest;
      assert x + [c] + t == x + [c] + s + [c] + rest;
    }
  }

  /** A string is its parts joined again, so parts that start another's parts start its text. */
  lemma {:induction false} SplitPrefix(s: JsString, t: JsString, c: CodeUnit)
    requires Split(s, c) <= Split(t, c)
    ensures t == s || s + [c] <= t
    decreases |s|
  {
    var i, j := IndexOf(s, c), IndexOf(t, c);
    SplitCases(s, c);
    SplitCases(t, c);
    var a, b := Split(s, c), Split(t, c);
    hide Split, IndexOf;
    assert a[0] == b[0];
    if i < |s| {
      assert |b| > 1 && a[1..] <= b[1..];
      SplitPrefix(s[i + 1..], t[j + 1..], c);
      StartsLonger(s[..i], c, s[i + 1..], t[j + 1..]);
    } else if j < |t| {
      assert s == t[..j];
    }
  }

  /** A path lies under a root when the root is "/", or when the root's segments start the path's. */
  ghost predicate Under(root: JsString, path: JsString) {
    root == [0x2f]
    || (root != [] && path != [] && path[0] == 0x2f && Split(root[1..], 0x2f) <= Split(path[1..], 0x2f))
  }

  lemma ContainedIsUnder(root: JsString, path: JsString)
    requires root != [] && root[0] == 0x2f && (path == root || root + [0x2f] <= path)
    ensures path != [] && path[0] == 0x2f && Split(root[1..], 0x2f) <= Split(path[1..], 0x2f)
  {
    if path != root {
      var rest := path[|root| + 1..];
      assert path[1..] == root[1..] + [0x2f] + rest;
      SplitConcat(path[1..], root[1..], rest, 0x2f);
    }
  }

  lemma UnderIsContained(root: JsString, path: JsString)
    requires root != [] && root[0] == 0x2f && path != [] && path[0] == 0x2f
    requires Split(root[1..], 0x2f) <= Split(path[1..], 0x2f)
    ensures path == root || root + [0x2f] <= path
  {
    hide Split;
    SplitPrefix(root[1..], path[1..], 0x2f);
    assert root == [0x2f] + root[1..] && path == [0x2f] + path[1..];
    if root[1..] + [0x2f] <= path[1..] { assert root + [0x2f] == [0x2f] + (root[1..] + [0x2f]); }
  }

  lemma ContainmentIsBySegments(root: JsString, path: JsString)
    requires IsRoot(root)
    ensures ContainsLogicalPath(root, path) <==> Under(root, path)
  {
    assert root != [] && root[0] == 0x2f;
    hide IsRoot, Split;
    if path == root || root + [0x2f] <= path { ContainedIsUnder(root, path); }
    if path != [] && path[0] == 0x2f && Split(root[1..], 0x2f) <= Split(path[1..], 0x2f) {
      UnderIsContained(root, path);
    }
  }

  lemma UnderNests(a: JsString, b: JsString, c: JsString)
    requires IsRoot(a) && Under(a, b) && Under(b, c)
    ensures Under(a, c)
  {
    assert a[0] == 0x2f;
    if b == [0x2f] && a != [0x2f] {
      hide IsRoot;
      UnderIsContained(a, b);
      assert false;
    }
  }

  /** A concrete use of one entry of a permission, of several things at once where an entry lists them. */
  datatype Use =
    | Call(capability: JsString, functions: seq<JsString>)
    | ReadVariables(variables: seq<JsString>)
    | RunOn(executors: seq<JsString>)
    | Touch(path: JsString, modes: seq<JsString>)
    | Connect(hosts: seq<JsString>, httpMethods: seq<JsString>, ports: seq<int>)
    | ReadSecrets(secrets: seq<JsString>)
    | Place(workerLabels: map<JsString, JsString>, cpu: int, memory: int, storage: int)

  ghost predicate PermitsOne(p: Permission, u: Use) {
    match (p, u)
    case (Capability(cs), Call(capability, functions)) =>
      exists c :: c in cs && c.name == capability && forall f | f in functions :: f in c.methods
    case (Environment(names), ReadVariables(variables)) => forall v | v in variables :: v in names
    case (Executor(allowed), RunOn(executors)) => forall e | e in executors :: e in allowed
    case (Filesystem(roots), Touch(path, modes)) =>
      exists r :: r in roots && Under(r.path, path) && forall m | m in modes :: m in r.access
    case (Network(allowedHosts, allowedMethods, allowedPorts), Connect(hosts, methods, ports)) =>
      && (forall h | h in hosts :: h in allowedHosts)
      && (forall m | m in methods :: m in allowedMethods)
      && (forall port | port in ports :: port in allowedPorts)
    case (SecretAccess(names), ReadSecrets(secrets)) => forall s | s in secrets :: s in names
    case (WorkerUse(labels, cpu, memory, storage), Place(workerLabels, c, m, s)) =>
      && (forall name | name in labels :: name in workerLabels && workerLabels[name] == labels[name])
      && c <= cpu && m <= memory && s <= storage
    case _ => false
  }

  ghost predicate Permits(ps: seq<Permission>, u: Use) { exists p :: p in ps && PermitsOne(p, u) }

  lemma SubsetPermitsLess(maximum: Permission, granted: Permission, u: Use)
    requires WellMade(maximum) && CategorySubset(maximum, granted) && PermitsOne(granted, u)
    ensures PermitsOne(maximum, u)
  {
    hide IsRoot, Under, ContainsLogicalPath;
    match granted
    case Capability(cs) =>
      var c :| c in cs && c.name == u.capability && forall f | f in u.functions :: f in c.methods;
      var found := FindEntry(maximum.capabilities, c.name).value;
      assert found in maximum.capabilities && forall f | f in u.functions :: f in found.methods;
    case Filesystem(roots) =>
      var r :| r in roots && Under(r.path, u.path) && forall m | m in u.modes :: m in r.access;
      var m :| m in maximum.roots && ContainsLogicalPath(m.path, r.path) && ContainsAll(m.access, r.access);
      ContainmentIsBySegments(m.path, r.path);
      UnderNests(m.path, r.path, u.path);
    case _ =>
  }

  /** The uses that between them make up a permission. */
  ghost predicate IsWholeEntry(p: Permission, u: Use) {
    match p
    case Capability(cs) => exists c :: c in cs && u == Call(c.name, c.methods)
    case Environment(names) => u == ReadVariables(names)
    case Executor(executors) => u == RunOn(executors)
    case Filesystem(roots) => exists r :: r in roots && u == Touch(r.path, r.access)
    case Network(hosts, methods, ports) => u == Connect(hosts, methods, ports)
    case SecretAccess(names) => u == ReadSecrets(names)
    case WorkerUse(labels, cpu, memory, storage) => u == Place(labels, cpu, memory, storage)
  }

  lemma EntriesPermitted(p: Permission, u: Use)
    requires WellMade(p) && IsWholeEntry(p, u)
    ensures PermitsOne(p, u)
  {
    hide IsRoot, Under;
    if p.Filesystem? {
      var r :| r in p.roots && u == Touch(r.path, r.access);
      ContainmentIsBySegments(r.path, r.path);
    }
  }

  /** A permission that permits every whole entry of another of its kind covers it. */
  lemma PermittedIsSubset(maximum: Permission, granted: Permission)
    requires WellMade(maximum) && KindOf(maximum) == KindOf(granted)
    requires forall u | IsWholeEntry(granted, u) :: PermitsOne(maximum, u)
    ensures CategorySubset(maximum, granted)
  {
    hide IsRoot, Under, ContainsLogicalPath;
    match granted
    case Capability(cs) =>
      forall c | c in cs
        ensures FindEntry(maximum.capabilities, c.name).Some?
          && ContainsAll(FindEntry(maximum.capabilities, c.name).value.methods, c.methods)
      {
        assert IsWholeEntry(granted, Call(c.name, c.methods));
        var m :| m in maximum.capabilities && m.name == c.name && forall f | f in c.methods :: f in m.methods;
        OneEntry(maximum.capabilities, m);
      }
    case Filesystem(roots) =>
      forall r | r in roots
        ensures exists m :: m in maximum.roots && ContainsLogicalPath(m.path, r.path) && ContainsAll(m.access, r.access)
      {
        assert IsWholeEntry(granted, Touch(r.path, r.access));
        var m :| m in maximum.roots && Under(m.path, r.path) && forall a | a in r.access :: a in m.access;
        ContainmentIsBySegments(m.path, r.path);
        assert ContainsAll(m.access, r.access);
      }
    case Environment(names) => assert IsWholeEntry(granted, ReadVariables(names));
    case Executor(executors) => assert IsWholeEntry(granted, RunOn(executors));
    case Network(hosts, methods, ports) =>
      assert IsWholeEntry(granted, Connect(hosts, methods, ports));
      assert PermitsOne(maximum, Connect(hosts, methods, ports));
      assert forall port | port in ports :: port in maximum.ports;
    case SecretAccess(names) => assert IsWholeEntry(granted, ReadSecrets(names));
    case WorkerUse(labels, cpu, memory, storage) => assert IsWholeEntry(granted, Place(labels, cpu, memory, storage));
  }

  lemma OneEntry(cs: seq<CapabilityEntry>, c: CapabilityEntry)
    requires DistinctNames(cs) && c in cs
    ensures FindEntry(cs, c.name) == Some(c)
  {
    var i :| 0 <= i < |cs| && cs[i] == c;
    var found := FindEntry(cs, c.name).value;
    var j :| 0 <= j < |cs| && cs[j] == found;
    assert i == j;
  }

  /** An allowed grant never permits a use that the request did not. */
  lemma GrantsNeverWiden(platform: Platform, requested: seq<Permission>, granted: seq<Permission>, u: Use)
    requires Lawful(platform) && Canonicalize(platform, requested) == Some(requested)
    requires MayGrant(requested, granted) && Permits(granted, u)
    ensures Permits(requested, u)
  {
    hide CategorySubset, PermitsOne, KindOf, Canonicalize, WellMade;
    CanonicalIsWellMade(platform, requested);
    var p :| p in granted && PermitsOne(p, u);
    assert Covered(requested, p);
    var maximum := FindKind(requested, KindOf(p)).value;
    SubsetPermitsLess(maximum, p, u);
  }

  lemma SomeEntry(p: Permission) returns (u: Use)
    ensures IsWholeEntry(p, u) || (p.Capability? && p.capabilities == []) || (p.Filesystem? && p.roots == [])
  {
    match p
    case Capability(cs) =>
      u := if cs == [] then Call([], []) else Call(cs[0].name, cs[0].methods);
      assert cs != [] ==> cs[0] in cs;
    case Environment(names) => u := ReadVariables(names);
    case Executor(executors) => u := RunOn(executors);
    case Filesystem(roots) =>
      u := if roots == [] then Touch([], []) else Touch(roots[0].path, roots[0].access);
      assert roots != [] ==> roots[0] in roots;
    case Network(hosts, methods, ports) => u := Connect(hosts, methods, ports);
    case SecretAccess(names) => u := ReadSecrets(names);
    case WorkerUse(labels, cpu, memory, storage) => u := Place(labels, cpu, memory, storage);
  }

  lemma UsesHaveKinds(p: Permission, q: Permission, u: Use)
    requires IsWholeEntry(p, u) && PermitsOne(q, u)
    ensures KindOf(p) == KindOf(q)
  {
    hide Under;
  }

  /** A list of entries says something only when it is not empty. */
  ghost predicate SaysSomething(p: Permission) {
    (p.Capability? ==> p.capabilities != []) && (p.Filesystem? ==> p.roots != [])
  }

  /** A grant is allowed if and only if the request permits every use that the grant permits: between
      canonical sets whose permissions say something, the decision is exactly inclusion of uses. */
  lemma GrantingIsInclusion(platform: Platform, requested: seq<Permission>, granted: seq<Permission>)
    requires Lawful(platform)
    requires Canonicalize(platform, requested) == Some(requested) && Canonicalize(platform, granted) == Some(granted)
    requires forall p | p in granted :: SaysSomething(p)
    ensures MayGrant(requested, granted) <==> forall u | Permits(granted, u) :: Permits(requested, u)
  {
    hide CategorySubset, PermitsOne, KindOf, Canonicalize, WellMade, IsWholeEntry;
    CanonicalIsWellMade(platform, requested);
    CanonicalIsWellMade(platform, granted);
    if MayGrant(requested, granted) {
      forall u | Permits(granted, u)
        ensures Permits(requested, u) { GrantsNeverWiden(platform, requested, granted, u); }
    }
    if forall u | Permits(granted, u) :: Permits(requested, u) {
      forall p | p in granted ensures Covered(requested, p) { InclusionCovers(requested, granted, p); }
    }
  }

  lemma InclusionCovers(requested: seq<Permission>, granted: seq<Permission>, p: Permission)
    requires WellMadeSet(requested) && WellMadeSet(granted) && p in granted && SaysSomething(p)
    requires forall u | Permits(granted, u) :: Permits(requested, u)
    ensures Covered(requested, p)
  {
    hide CategorySubset, PermitsOne, KindOf, WellMade, IsWholeEntry;
    forall u | IsWholeEntry(p, u)
      ensures FindKind(requested, KindOf(p)).Some? && PermitsOne(FindKind(requested, KindOf(p)).value, u)
    {
      EntriesPermitted(p, u);
      assert Permits(granted, u);
      var q :| q in requested && PermitsOne(q, u);
      UsesHaveKinds(p, q, u);
      FindsItself(requested, q);
    }
    var u := SomeEntry(p);
    PermittedIsSubset(FindKind(requested, KindOf(p)).value, p);
  }

  // ----- What the canonical form keeps

  /** An input that permits the use once hosts are folded and methods are in upper case. */
  ghost predicate FoldedPermits(platform: Platform, p: Permission, u: Use) {
    if p.Network? && u.Connect? then
      && (forall h | h in u.hosts :: exists source :: source in p.hosts && CanonicalHost(platform, source) == Some(h))
      && (forall m | m in u.httpMethods :: exists source :: source in p.methods && platform.upperCase(source) == m)
      && (forall port | port in u.ports :: port in p.ports)
    else PermitsOne(p, u)
  }

  lemma MappedMember<T, U>(f: T -> U, xs: seq<T>, y: U)
    ensures y in Mapped(f, xs) <==> exists x :: x in xs && f(x) == y
  {
    if y in Mapped(f, xs) {
      var i :| 0 <= i < |xs| && Mapped(f, xs)[i] == y;
      assert xs[i] in xs;
    }
    if x :| x in xs && f(x) == y {
      var i :| 0 <= i < |xs| && xs[i] == x;
      assert Mapped(f, xs)[i] == y;
    }
  }

  lemma SortedMembers<T(!new)>(less: (T, T) -> bool, xs: seq<T>, x: T)
    requires StrictWeak(less)
    ensures x in Sort(less, xs) <==> x in xs
  {
    SortSorts(less, xs);
    assert x in Sort(less, xs) <==> x in multiset(Sort(less, xs));
  }

  lemma TidyCapabilitiesPermit(platform: Platform, cs: seq<CapabilityEntry>, u: Use)
    requires u.Call?
    ensures PermitsOne(Capability(Sort(EntryLess, Mapped(TidyEntry, cs))), u) <==> PermitsOne(Capability(cs), u)
  {
    EntryOrder();
    hide Sort, StrictWeak;
    var tidy := Sort(EntryLess, Mapped(TidyEntry, cs));
    forall c | c in cs ensures TidyEntry(c) in tidy && SameElements(TidyEntry(c).methods, c.methods) {
      MappedMember(TidyEntry, cs, TidyEntry(c));
      SortedMembers(EntryLess, Mapped(TidyEntry, cs), TidyEntry(c));
      TextBlind(c.methods, c.methods);
    }
    forall t | t in tidy ensures exists c :: c in cs && t == TidyEntry(c) {
      SortedMembers(EntryLess, Mapped(TidyEntry, cs), t);
      MappedMember(TidyEntry, cs, t);
    }
  }

  lemma TidyRootsPermit(platform: Platform, rs: seq<RootEntry>, u: Use)
    requires u.Touch?
    ensures PermitsOne(Filesystem(Sort(RootLess, Mapped(TidyRoot, rs))), u) <==> PermitsOne(Filesystem(rs), u)
  {
    EntryOrder();
    hide Sort, StrictWeak, Under;
    var tidy := Sort(RootLess, Mapped(TidyRoot, rs));
    forall r | r in rs ensures TidyRoot(r) in tidy && SameElements(TidyRoot(r).access, r.access) {
      MappedMember(TidyRoot, rs, TidyRoot(r));
      SortedMembers(RootLess, Mapped(TidyRoot, rs), TidyRoot(r));
      TextBlind(r.access, r.access);
    }
    forall t | t in tidy ensures exists r :: r in rs && t == TidyRoot(r) {
      SortedMembers(RootLess, Mapped(TidyRoot, rs), t);
      MappedMember(TidyRoot, rs, t);
    }
  }

  lemma TidyNetworkPermits(platform: Platform, p: Permission, u: Use)
    requires p.Network? && u.Connect? && CanonicalOne(platform, p).Some?
    ensures PermitsOne(CanonicalOne(platform, p).value, u) <==> FoldedPermits(platform, p, u)
  {
    var folded := Mapped((h: JsString) => HostOr(platform, h), p.hosts);
    var upper := Mapped(platform.upperCase, p.methods);
    TextBlind(folded, folded);
    TextBlind(upper, upper);
    PortsBlind(p.ports, p.ports);
    hide IsHttpMethod;
    forall h ensures h in folded <==> exists source :: source in p.hosts && CanonicalHost(platform, source) == Some(h) {
      MappedMember((h: JsString) => HostOr(platform, h), p.hosts, h);
    }
    forall m ensures m in upper <==> exists source :: source in p.methods && platform.upperCase(source) == m {
      MappedMember(platform.upperCase, p.methods, m);
    }
  }

  lemma CanonicalOneKeepsUses(platform: Platform, p: Permission, u: Use)
    requires CanonicalOne(platform, p).Some?
    ensures PermitsOne(CanonicalOne(platform, p).value, u) <==> FoldedPermits(platform, p, u)
  {
    hide IsRoot, IsPortableName, IsEnvironmentName, Under;
    match p
    case Capability(cs) => if u.Call? { TidyCapabilitiesPermit(platform, cs, u); }
    case Environment(names) => TextBlind(names, names);
    case Executor(executors) => TextBlind(executors, executors);
    case Filesystem(rs) => if u.Touch? { TidyRootsPermit(platform, rs, u); }
    case Network(_, _, _) => if u.Connect? { TidyNetworkPermits(platform, p, u); }
    case SecretAccess(names) => TextBlind(names, names);
    case WorkerUse(_, _, _, _) =>
  }

  /** The canonical form of a set permits exactly what the set permits, once hosts are folded and
      methods are in upper case: ordering and repeats carry no meaning, and nothing is lost. */
  lemma CanonicalFormKeepsUses(platform: Platform, ps: seq<Permission>, u: Use)
    requires Canonicalize(platform, ps).Some?
    ensures Permits(Canonicalize(platform, ps).value, u) <==> exists p :: p in ps && FoldedPermits(platform, p, u)
  {
    var tidy := Canonicalize(platform, ps).value;
    EntryOrder();
    hide Sort, StrictWeak, CanonicalOne, PermitsOne, FoldedPermits;
    forall p | p in ps
      ensures TidyOr(platform, p) in tidy && (PermitsOne(TidyOr(platform, p), u) <==> FoldedPermits(platform, p, u))
    {
      MappedMember((p: Permission) => TidyOr(platform, p), ps, TidyOr(platform, p));
      SortedMembers(KindLess, TidyAll(platform, ps), TidyOr(platform, p));
      CanonicalOneKeepsUses(platform, p, u);
    }
    forall t | t in tidy ensures exists p :: p in ps && t == TidyOr(platform, p) {
      SortedMembers(KindLess, TidyAll(platform, ps), t);
      MappedMember((p: Permission) => TidyOr(platform, p), ps, t);
    }
  }

  /** An entry that is not an error. */
  ghost predicate WellFormed(platform: Platform, p: Permission) {
    match p
    case Capability(cs) =>
      && (forall i, j | 0 <= i < j < |cs| :: cs[i].name != cs[j].name)
      && forall c | c in cs :: IsPortableName(c.name) && forall m | m in c.methods :: IsPortableName(m)
    case Environment(names) => forall n | n in names :: IsEnvironmentName(n)
    case SecretAccess(names) => forall n | n in names :: IsPortableName(n)
    case Executor(executors) =>
      forall e | e in executors :: e == Ascii("process") || e == Ascii("remote") || e == Ascii("thread")
    case Filesystem(roots) =>
      && (forall i, j | 0 <= i < j < |roots| :: roots[i].path != roots[j].path)
      && forall r | r in roots :: IsRoot(r.path) && forall m | m in r.access ::
        m == Ascii("read") || m == Ascii("write")
    case Network(hosts, methods, ports) =>
      && (forall h | h in hosts :: CanonicalHost(platform, h).Some?)
      && (forall m | m in methods :: IsHttpMethod(platform.upperCase(m)))
      && forall port | port in ports :: 1 <= port <= 65_535
    case WorkerUse(labels, cpu, memory, storage) =>
      && (forall name | name in labels :: IsPortableName(name) && IsPortableName(labels[name]))
      && 0 <= cpu < 0x20_0000_0000_0000 && 0 <= memory < 0x20_0000_0000_0000 && 0 <= storage < 0x20_0000_0000_0000
  }

  /** A set is refused exactly when an entry is an error or a kind occurs twice. */
  lemma CanonicalizeAccepts(platform: Platform, ps: seq<Permission>)
    ensures Canonicalize(platform, ps).Some? <==>
      (forall p | p in ps :: WellFormed(platform, p)) && forall i, j | 0 <= i < j < |ps| ::
        KindOf(ps[i]) != KindOf(ps[j])
  {
    hide IsRoot, IsPortableName, IsEnvironmentName, IsHttpMethod, CanonicalHost, KindOf;
    forall p | p in ps ensures CanonicalOne(platform, p).Some? <==> WellFormed(platform, p) {}
  }
}
