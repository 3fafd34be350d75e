/** Strict total orders, the library sort, and ordered enumerations of finite sets. */
module Order {

  /** What a comparator must satisfy to sort by: elements it does not separate are ties. */
  ghost predicate StrictWeak<T(!new)>(less: (T, T) -> bool) {
    && (forall x :: !less(x, x))
    && (forall x, y, z :: less(x, y) && less(y, z) ==> less(x, z))
    && (forall x, y, z :: less(x, z) ==> less(x, y) || less(y, z))
  }

  /** A comparator without ties. */
  ghost predicate StrictTotal<T(!new)>(less: (T, T) -> bool) {
    StrictWeak(less) && forall x, y :: x != y ==> less(x, y) || less(y, x)
  }

  /** A comparator that looks only at a key inherits the key's order. */
  lemma ByKey<T(!new), K(!new)>(less: (T, T) -> bool, keyLess: (K, K) -> bool, key: T -> K)
    requires StrictWeak(keyLess) && forall x, y :: less(x, y) <==> keyLess(key(x), key(y))
    ensures StrictWeak(less)
  {
    forall x, y, z | less(x, z) ensures less(x, y) || less(y, z) {
      assert keyLess(key(x), key(y)) || keyLess(key(y), key(z));
    }
    forall x, y, z | less(x, y) && less(y, z) ensures less(x, z) {
      assert keyLess(key(x), key(z));
    }
  }

  ghost predicate Ascending<T>(less: (T, T) -> bool, xs: seq<T>) {
    forall i, j | 0 <= i < j < |xs| :: less(xs[i], xs[j])
  }

  ghost predicate SameElements<T(!new)>(xs: seq<T>, ys: seq<T>) {
    forall x :: x in xs <==> x in ys
  }

  /** An ascending sequence is determined by its set of elements. */
  lemma {:induction false} AscendingUnique<T(!new)>(less: (T, T) -> bool, xs: seq<T>, ys: seq<T>)
    requires StrictWeak(less)
    requires Ascending(less, xs) && Ascending(less, ys) && SameElements(xs, ys)
    ensures xs == ys
  {
    if ys != [] { assert ys[0] in xs; }
    if xs != [] {
      assert xs[0] in ys;
      assert xs[0] == ys[0];
      forall x ensures x in xs[1..] <==> x in ys[1..] {
        assert x in xs <==> x == xs[0] || x in xs[1..];
        assert x in ys <==> x == ys[0] || x in ys[1..];
        assert xs[0] !in xs[1..];
        assert ys[0] !in ys[1..];
      }
      AscendingUnique(less, xs[1..], ys[1..]);
    }
  }

  /** Array.prototype.sort: stable insertion of each element before the first larger one. */
  function Insert<T>(less: (T, T) -> bool, x: T, xs: seq<T>): seq<T> {
    if xs == [] then [x]
    else if less(xs[0], x) then [xs[0]] + Insert(less, x, xs[1..])
    else [x] + xs
  }

  function Sort<T>(less: (T, T) -> bool, xs: seq<T>): seq<T> {
    if xs == [] then [] else Insert(less, xs[0], Sort(less, xs[1..]))
  }

  ghost predicate NonDescending<T>(less: (T, T) -> bool, xs: seq<T>) {
    forall i, j | 0 <= i < j < |xs| :: !less(xs[j], xs[i])
  }

  lemma {:induction false} InsertKeepsElements<T>(less: (T, T) -> bool, x: T, xs: seq<T>)
    ensures multiset(Insert(less, x, xs)) == multiset(xs) + multiset{x}
  {
    if xs != [] {
      InsertKeepsElements(less, x, xs[1..]);
      assert xs == [xs[0]] + xs[1..];
    }
  }

  lemma {:induction false} InsertSorts<T(!new)>(less: (T, T) -> bool, x: T, xs: seq<T>)
    requires StrictWeak(less) && NonDescending(less, xs)
    ensures NonDescending(less, Insert(less, x, xs))
  {
    if xs != [] && less(xs[0], x) {
      var rest := Insert(less, x, xs[1..]);
      InsertSorts(less, x, xs[1..]);
      InsertKeepsElements(less, x, xs[1..]);
      forall y | y in rest ensures !less(y, xs[0]) {
        assert y in multiset(rest);
        assert y == x || y in xs[1..];
      }
    } else if xs != [] {
      forall y | y in xs ensures !less(y, x) {}
    }
  }

  lemma {:induction false} SortSorts<T(!new)>(less: (T, T) -> bool, xs: seq<T>)
    requires StrictWeak(less)
    ensures NonDescending(less, Sort(less, xs))
    ensures multiset(Sort(less, xs)) == multiset(xs)
  {
    if xs != [] {
      SortSorts(less, xs[1..]);
      InsertSorts(less, xs[0], Sort(less, xs[1..]));
      InsertKeepsElements(less, xs[0], Sort(less, xs[1..]));
      assert xs == [xs[0]] + xs[1..];
    }
  }

  ghost predicate Distinct<T>(xs: seq<T>) {
    forall i, j | 0 <= i < j < |xs| :: xs[i] != xs[j]
  }

  lemma {:induction false} DistinctMultiplicity<T>(xs: seq<T>)
    requires Distinct(xs)
    ensures forall x | x in xs :: multiset(xs)[x] == 1
  {
    if xs != [] {
      var rest := xs[1..];
      assert xs == [xs[0]] + rest;
      assert forall i, j | 0 <= i < j < |rest| :: rest[i] == xs[i + 1] && rest[j] == xs[j + 1];
      DistinctMultiplicity(rest);
      assert xs[0] !in rest;
    }
  }

  lemma {:induction false} MultiplicityDistinct<T>(xs: seq<T>)
    requires forall x | x in xs :: multiset(xs)[x] == 1
    ensures Distinct(xs)
  {
    if xs != [] {
      var rest := xs[1..];
      assert xs == [xs[0]] + rest;
      assert multiset(xs)[xs[0]] == 1 + multiset(rest)[xs[0]];
      assert xs[0] !in multiset(rest);
      forall x | x in rest ensures multiset(rest)[x] == 1 {
        assert multiset(xs)[x] == 1 && x != xs[0];
      }
      MultiplicityDistinct(rest);
    }
  }

  ghost predicate NoTies<T(!new)>(less: (T, T) -> bool, xs: seq<T>) {
    forall x, y | x in xs && y in xs && x != y :: less(x, y) || less(y, x)
  }

  /** Sorting distinct elements without ties yields their unique ascending arrangement. */
  lemma SortDistinct<T(!new)>(less: (T, T) -> bool, xs: seq<T>)
    requires StrictWeak(less) && Distinct(xs) && NoTies(less, xs)
    ensures Ascending(less, Sort(less, xs)) && SameElements(Sort(less, xs), xs)
    ensures |Sort(less, xs)| == |xs|
  {
    SortSorts(less, xs);
    var ys := Sort(less, xs);
    assert |multiset(ys)| == |multiset(xs)|;
    forall x ensures x in ys <==> x in xs {
      assert x in ys <==> x in multiset(ys);
    }
    DistinctMultiplicity(xs);
    MultiplicityDistinct(ys);
    forall i, j | 0 <= i < j < |ys| ensures less(ys[i], ys[j]) {
      assert ys[i] in xs && ys[j] in xs;
    }
  }

  ghost predicate Least<T(!new)>(less: (T, T) -> bool, x: T, s: set<T>) {
    x in s && forall y | y in s :: !less(y, x)
  }

  lemma {:induction false} LeastExists<T(!new)>(less: (T, T) -> bool, s: set<T>) returns (x: T)
    requires StrictTotal(less) && s != {}
    ensures Least(less, x, s)
  {
    var y :| y in s;
    if s == {y} {
      x := y;
    } else {
      var rest := LeastExists(less, s - {y});
      x := if less(y, rest) then y else rest;
    }
  }

  /** The elements of a set in ascending order. */
  ghost function Enumerate<T(!new)>(less: (T, T) -> bool, s: set<T>): (xs: seq<T>)
    requires StrictTotal(less)
    ensures Ascending(less, xs)
    ensures forall x :: x in xs <==> x in s
    ensures |xs| == |s|
  {
    if s == {} then []
    else
      var x0 := LeastWitness(less, s);
      [x0] + Enumerate(less, s - {x0})
  }

  ghost function LeastWitness<T(!new)>(less: (T, T) -> bool, s: set<T>): (x: T)
    requires StrictTotal(less) && s != {}
    ensures Least(less, x, s)
  {
    assert exists x :: Least(less, x, s) by { var x := LeastExists(less, s); }
    var x :| Least(less, x, s);
    x
  }

  /** Lexicographic order, as used by `<` on strings and by byte comparison. */
  predicate LexLess(a: seq<nat>, b: seq<nat>) {
    if b == [] then false
    else if a == [] then true
    else a[0] < b[0] || (a[0] == b[0] && LexLess(a[1..], b[1..]))
  }

  lemma {:induction false} LexIrreflexive(a: seq<nat>)
    ensures !LexLess(a, a)
  {
    if a != [] { LexIrreflexive(a[1..]); }
  }

  lemma {:induction false} LexTransitive(a: seq<nat>, b: seq<nat>, c: seq<nat>)
    requires LexLess(a, b) && LexLess(b, c)
    ensures LexLess(a, c)
  {
    if a != [] && a[0] == b[0] && b[0] == c[0] {
      LexTransitive(a[1..], b[1..], c[1..]);
    }
  }

  lemma {:induction false} LexConnected(a: seq<nat>, b: seq<nat>)
    requires a != b
    ensures LexLess(a, b) || LexLess(b, a)
  {
    if a != [] && b != [] && a[0] == b[0] {
      assert a == [a[0]] + a[1..] && b == [b[0]] + b[1..];
      LexConnected(a[1..], b[1..]);
    }
  }

  ghost predicate FirstDifference(a: seq<nat>, b: seq<nat>, k: nat) {
    && k <= |a| && k <= |b| && a[..k] == b[..k]
    && (k < |a| && k < |b| ==> a[k] != b[k])
    && (k == |a| || k == |b| ==> a != b)
  }

  /** The lesser of two sequences is the one with the lesser unit where they first differ, or the one
      that ends there. */
  lemma {:induction false} LexIsFirstDifference(a: seq<nat>, b: seq<nat>, k: nat)
    requires FirstDifference(a, b, k)
    ensures LexLess(a, b) <==> k < |b| && (k == |a| || a[k] < b[k])
    decreases k
  {
    if k > 0 {
      assert a == [a[0]] + a[1..] && b == [b[0]] + b[1..] && a[..k][0] == b[..k][0];
      assert a[1..][..k - 1] == a[..k][1..] && b[1..][..k - 1] == b[..k][1..];
      LexIsFirstDifference(a[1..], b[1..], k - 1);
    } else if k == |a| || k == |b| {
      assert a == [] || b == [];
    }
  }

  function Filter<T>(p: T -> bool, xs: seq<T>): seq<T> {
    if xs == [] then [] else (if p(xs[0]) then [xs[0]] else []) + Filter(p, xs[1..])
  }

  lemma {:induction false} FilterKeeps<T>(p: T -> bool, xs: seq<T>)
    ensures forall x :: x in Filter(p, xs) <==> x in xs && p(x)
    ensures Distinct(xs) ==> Distinct(Filter(p, xs))
  {
    if xs != [] {
      FilterKeeps(p, xs[1..]);
      assert forall x :: x in xs <==> x == xs[0] || x in xs[1..];
    }
  }

  /** Distinct elements without ties sort to one arrangement, whatever order they come in. */
  lemma SortBlind<T(!new)>(less: (T, T) -> bool, xs: seq<T>, ys: seq<T>)
    requires StrictWeak(less) && Distinct(xs) && NoTies(less, xs) && Distinct(ys) && SameElements(xs, ys)
    ensures Sort(less, xs) == Sort(less, ys)
  {
    SortDistinct(less, xs);
    SortDistinct(less, ys);
    AscendingUnique(less, Sort(less, xs), Sort(less, ys));
  }

  /** What stands strictly after the k-th element of an ascending whole is its rest. */
  lemma AscendingSuffix<T(!new)>(less: (T, T) -> bool, full: seq<T>, rest: seq<T>, k: nat)
    requires StrictWeak(less) && Ascending(less, full) && Ascending(less, rest) && k <= |full|
    requires forall x :: x in rest <==> x in full && (k > 0 ==> less(full[k - 1], x))
    ensures rest == full[k..]
  {
    forall x ensures x in rest <==> x in full[k..] {
      if x in full {
        var i :| 0 <= i < |full| && full[i] == x;
        assert k > 0 && i < k - 1 ==> less(full[i], full[k - 1]);
        if i >= k { assert full[k..][i - k] == x; }
      }
    }
    AscendingUnique(less, rest, full[k..]);
  }

  lemma SortedSuffix<T(!new)>(less: (T, T) -> bool, p: T -> bool, q: T -> bool, xs: seq<T>, k: nat)
    requires StrictWeak(less) && Distinct(xs) && NoTies(less, xs)
    requires k <= |Sort(less, Filter(p, xs))|
    requires forall x :: q(x) <==> p(x) && (k > 0 ==> less(Sort(less, Filter(p, xs))[k - 1], x))
    ensures Sort(less, Filter(q, xs)) == Sort(less, Filter(p, xs))[k..]
  {
    FilterKeeps(p, xs);
    FilterKeeps(q, xs);
    SortDistinct(less, Filter(p, xs));
    SortDistinct(less, Filter(q, xs));
    AscendingSuffix(less, Sort(less, Filter(p, xs)), Sort(less, Filter(q, xs)), k);
  }
}
