/** Portable state strings, their two-byte order keys, and the store's key orders. */
module StateStrings {
  import opened Order

  /** One UTF-16 code unit; an ECMAScript string is a sequence of them. */
  type CodeUnit = c: nat | c < 0x10000
  type JsString = seq<CodeUnit>
  type Byte = b: nat | b < 0x100

  predicate IsHigh(c: CodeUnit) { 0xd800 <= c <= 0xdbff }
  predicate IsLow(c: CodeUnit) { 0xdc00 <= c <= 0xdfff }

  /** Unicode scalar values: code points other than surrogates. */
  predicate IsScalar(v: nat) { v <= 0x10ffff && !(0xd800 <= v <= 0xdfff) }

  /** RFC 2781, section 2.1: encoding one scalar value in UTF-16. */
  function EncodeScalar(v: nat): JsString
    requires IsScalar(v)
  {
    if v < 0x10000 then [v]
    else [0xd800 + (v - 0x10000) / 0x400, 0xdc00 + (v - 0x10000) % 0x400]
  }

  ghost predicate NonzeroScalars(vs: seq<nat>) {
    forall i | 0 <= i < |vs| :: IsScalar(vs[i]) && vs[i] != 0
  }

  function EncodeUtf16(vs: seq<nat>): JsString
    requires forall i | 0 <= i < |vs| :: IsScalar(vs[i])
  {
    if vs == [] then [] else EncodeScalar(vs[0]) + EncodeUtf16(vs[1..])
  }

  /** What the index loop accepts, one code point at a time. */
  predicate Portable(s: JsString) {
    if s == [] then true
    else if s[0] == 0 then false
    else if IsHigh(s[0]) then |s| > 1 && IsLow(s[1]) && Portable(s[2..])
    else !IsLow(s[0]) && Portable(s[1..])
  }

  function CombineSurrogates(high: nat, low: nat): (v: nat)
    requires 0xd800 <= high <= 0xdbff && 0xdc00 <= low <= 0xdfff
    ensures IsScalar(v) && EncodeScalar(v) == [high, low]
  {
    0x10000 + (high - 0xd800) * 0x400 + (low - 0xdc00)
  }

  function DecodeUtf16(s: JsString): (vs: seq<nat>)
    requires Portable(s)
    ensures NonzeroScalars(vs)
  {
    if s == [] then []
    else if IsHigh(s[0]) then
      [CombineSurrogates(s[0], s[1])] + DecodeUtf16(s[2..])
    else [s[0]] + DecodeUtf16(s[1..])
  }

  lemma {:induction false} DecodeThenEncode(s: JsString)
    requires Portable(s)
    ensures EncodeUtf16(DecodeUtf16(s)) == s
  {
    if s == [] {
    } else if IsHigh(s[0]) {
      var v := CombineSurrogates(s[0], s[1]);
      assert DecodeUtf16(s) == [v] + DecodeUtf16(s[2..]);
      assert DecodeUtf16(s)[1..] == DecodeUtf16(s[2..]);
      assert EncodeScalar(v) == s[..2];
      DecodeThenEncode(s[2..]);
    } else {
      assert DecodeUtf16(s)[1..] == DecodeUtf16(s[1..]);
      DecodeThenEncode(s[1..]);
    }
  }

  lemma {:induction false} EncodeThenDecode(vs: seq<nat>)
    requires NonzeroScalars(vs)
    ensures Portable(EncodeUtf16(vs)) && DecodeUtf16(EncodeUtf16(vs)) == vs
  {
    if vs != [] {
      EncodeThenDecode(vs[1..]);
      var rest := EncodeUtf16(vs[1..]);
      var s := EncodeUtf16(vs);
      if vs[0] < 0x10000 {
        assert s[1..] == rest;
      } else {
        assert s[2..] == rest;
      }
    }
  }

  /** The portability loop accepts exactly the UTF-16 encodings of nonzero scalar values. */
  lemma PortableIffEncoding(s: JsString)
    ensures Portable(s) <==> exists vs: seq<nat> :: NonzeroScalars(vs) && EncodeUtf16(vs) == s
  {
    if Portable(s) {
      DecodeThenEncode(s);
    } else {
      forall vs: seq<nat> | NonzeroScalars(vs) ensures EncodeUtf16(vs) != s {
        EncodeThenDecode(vs);
      }
    }
  }

  method IsPortableStateString(value: JsString) returns (ok: bool)
    ensures ok <==> exists vs: seq<nat> :: NonzeroScalars(vs) && EncodeUtf16(vs) == value
  {
    PortableIffEncoding(value);
    var index := 0;
    while index < |value|
      invariant 0 <= index <= |value|
      invariant Portable(value) <==> Portable(value[index..])
    {
      var codeUnit := value[index];
      assert index + 2 <= |value| ==> value[index..][2..] == value[index + 2..];
      assert value[index..][1..] == value[index + 1..];
      if codeUnit == 0 {
        return false;
      }
      if 0xd800 <= codeUnit <= 0xdbff {
        if index + 1 >= |value| || value[index + 1] < 0xdc00 || value[index + 1] > 0xdfff {
          return false;
        }
        index := index + 1;
      } else if 0xdc00 <= codeUnit <= 0xdfff {
        return false;
      }
      index := index + 1;
    }
    return true;
  }

  function OrderKey(s: JsString): seq<Byte> {
    if s == [] then [] else [s[0] / 0x100, s[0] % 0x100] + OrderKey(s[1..])
  }

  lemma {:induction false} OrderKeyAt(s: JsString, i: nat)
    requires i < |s|
    ensures |OrderKey(s)| == 2 * |s|
    ensures OrderKey(s)[2 * i] == s[i] / 0x100 && OrderKey(s)[2 * i + 1] == s[i] % 0x100
  {
    if |s| > 1 {
      OrderKeyAt(s[1..], if i == 0 then 0 else i - 1);
    }
  }

  /** The order key of a portable string; anything else is refused. */
  method StateStringOrderKey(value: JsString) returns (key: array?<Byte>)
    ensures key == null <==> !Portable(value)
    ensures key != null ==> fresh(key) && key[..] == OrderKey(value)
  {
    var portable := IsPortableStateString(value);
    PortableIffEncoding(value);
    if !portable {
      return null;
    }
    key := new Byte[2 * |value|];
    FillOrderKey(value, key);
    OrderKeyMatches(value, key[..]);
  }

  method FillOrderKey(value: JsString, key: array<Byte>)
    requires key.Length == 2 * |value|
    modifies key
    ensures forall i | 0 <= i < |value| :: key[2 * i] == value[i] / 0x100 && key[2 * i + 1] == value[i] % 0x100
  {
    var index := 0;
    while index < |value|
      invariant 0 <= index <= |value|
      invariant forall i | 0 <= i < index :: key[2 * i] == value[i] / 0x100 && key[2 * i + 1] == value[i] % 0x100
    {
      key[2 * index] := value[index] / 0x100;
      key[2 * index + 1] := value[index] % 0x100;
      index := index + 1;
    }
  }

  lemma OrderKeyMatches(s: JsString, bytes: seq<Byte>)
    requires |bytes| == 2 * |s|
    requires forall i | 0 <= i < |s| :: bytes[2 * i] == s[i] / 0x100 && bytes[2 * i + 1] == s[i] % 0x100
    ensures bytes == OrderKey(s)
  {
    if s != [] {
      OrderKeyAt(s, 0);
      forall k | 0 <= k < |bytes| ensures bytes[k] == OrderKey(s)[k] {
        OrderKeyAt(s, k / 2);
        assert k == 2 * (k / 2) || k == 2 * (k / 2) + 1;
      }
    }
  }

  /** Byte-lexicographic order of the keys is code-unit order of the strings. */
  lemma {:induction false} OrderKeyPreservesOrder(a: JsString, b: JsString)
    ensures LexLess(OrderKey(a), OrderKey(b)) <==> LexLess(a, b)
  {
    if a != [] && b != [] {
      var x, y := OrderKey(a), OrderKey(b);
      assert x[1..][1..] == OrderKey(a[1..]);
      assert y[1..][1..] == OrderKey(b[1..]);
      assert LexLess(x, y) <==> x[0] < y[0] || (x[0] == y[0] && LexLess(x[1..], y[1..]));
      assert LexLess(x[1..], y[1..]) <==> x[1] < y[1] || (x[1] == y[1] && LexLess(OrderKey(a[1..]), OrderKey(b[1..])));
      OrderKeyPreservesOrder(a[1..], b[1..]);
    }
  }

  /** Distinct strings have distinct keys, so an index on keys can stand in for the strings. */
  lemma OrderKeyInjective(a: JsString, b: JsString)
    requires OrderKey(a) == OrderKey(b)
    ensures a == b
  {
    if a != b {
      LexConnected(a, b);
      OrderKeyPreservesOrder(a, b);
      OrderKeyPreservesOrder(b, a);
      LexIrreflexive(OrderKey(a));
    }
  }

  predicate CodeUnitLess(a: JsString, b: JsString) { LexLess(a, b) }

  lemma CodeUnitOrder()
    ensures StrictTotal(CodeUnitLess)
  {
    forall a: JsString ensures !CodeUnitLess(a, a) { LexIrreflexive(a); }
    forall a: JsString, b: JsString, c: JsString | CodeUnitLess(a, b) && CodeUnitLess(b, c) ensures CodeUnitLess(a, c) {
      LexTransitive(a, b, c);
    }
    forall a: JsString, b: JsString | a != b ensures CodeUnitLess(a, b) || CodeUnitLess(b, a) { LexConnected(a, b); }
  }

  predicate KeyBytesLess(a: JsString, b: JsString) { LexLess(OrderKey(a), OrderKey(b)) }

  /** Sorting by key bytes, as a database index does, is sorting by code units. */
  lemma {:induction false} KeyIndexSortsAsStrings(xs: seq<JsString>)
    ensures Sort(KeyBytesLess, xs) == Sort(CodeUnitLess, xs)
  {
    if xs != [] {
      KeyIndexSortsAsStrings(xs[1..]);
      KeyIndexInsertsAsStrings(xs[0], Sort(CodeUnitLess, xs[1..]));
    }
  }

  lemma {:induction false} KeyIndexInsertsAsStrings(x: JsString, xs: seq<JsString>)
    ensures Insert(KeyBytesLess, x, xs) == Insert(CodeUnitLess, x, xs)
  {
    if xs != [] {
      OrderKeyPreservesOrder(xs[0], x);
      KeyIndexInsertsAsStrings(x, xs[1..]);
    }
  }

  datatype StateKey = StateKey(namespace: JsString, collection: JsString, id: JsString)

  /** compareKeys: namespace, then collection, then identifier. */
  predicate KeyLess(a: StateKey, b: StateKey) {
    || LexLess(a.namespace, b.namespace)
    || (a.namespace == b.namespace
        && (LexLess(a.collection, b.collection)
            || (a.collection == b.collection && LexLess(a.id, b.id))))
  }

  lemma KeyOrder()
    ensures StrictTotal(KeyLess)
  {
    CodeUnitOrder();
    assert forall a: JsString, b: JsString :: CodeUnitLess(a, b) == LexLess(a, b);
    forall a, b, c | KeyLess(a, b) && KeyLess(b, c) ensures KeyLess(a, c) {
      KeyTransitive(a, b, c);
    }
    forall a: StateKey ensures !KeyLess(a, a) {
      LexIrreflexive(a.namespace); LexIrreflexive(a.collection); LexIrreflexive(a.id);
    }
    forall a: StateKey, b: StateKey | a != b ensures KeyLess(a, b) || KeyLess(b, a) {
      if a.namespace != b.namespace { LexConnected(a.namespace, b.namespace); }
      else if a.collection != b.collection { LexConnected(a.collection, b.collection); }
      else { LexConnected(a.id, b.id); }
    }
  }

  lemma KeyTransitive(a: StateKey, b: StateKey, c: StateKey)
    requires KeyLess(a, b) && KeyLess(b, c)
    ensures KeyLess(a, c)
  {
    if LexLess(a.namespace, b.namespace) && LexLess(b.namespace, c.namespace) {
      LexTransitive(a.namespace, b.namespace, c.namespace);
    } else if a.namespace == b.namespace == c.namespace {
      if LexLess(a.collection, b.collection) && LexLess(b.collection, c.collection) {
        LexTransitive(a.collection, b.collection, c.collection);
      } else if a.collection == b.collection == c.collection {
        LexTransitive(a.id, b.id, c.id);
      }
    }
  }

  /** A position in the operation journal. */
  datatype Cursor = Cursor(revision: nat, operationId: JsString)

  predicate CursorLess(a: Cursor, b: Cursor) {
    a.revision < b.revision || (a.revision == b.revision && LexLess(a.operationId, b.operationId))
  }

  lemma CursorOrder()
    ensures StrictTotal(CursorLess)
  {
    forall a: Cursor ensures !CursorLess(a, a) { LexIrreflexive(a.operationId); }
    forall a: Cursor, b: Cursor, c: Cursor | CursorLess(a, b) && CursorLess(b, c) ensures CursorLess(a, c) {
      if a.revision == b.revision == c.revision { LexTransitive(a.operationId, b.operationId, c.operationId); }
    }
    forall a: Cursor, b: Cursor | a != b ensures CursorLess(a, b) || CursorLess(b, a) {
      if a.revision == b.revision { LexConnected(a.operationId, b.operationId); }
    }
  }
}
