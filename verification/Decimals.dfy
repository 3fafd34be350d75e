/** Canonical decimal strings: the wire form of revisions, epochs and generations. */
module Decimals {
  import opened StateStrings
  import opened StoreModel

  predicate IsDigit(c: CodeUnit) { 0x30 <= c <= 0x39 }

  /** Zero, or digits that do not start with zero. */
  predicate IsDecimal(s: JsString) {
    && s != [] && (forall i | 0 <= i < |s| :: IsDigit(s[i]))
    && (s[0] == 0x30 ==> |s| == 1)
  }

  function DigitsOf(n: nat): (s: JsString)
    ensures s != []
  {
    if n < 10 then [0x30 + n] else DigitsOf(n / 10) + [0x30 + n % 10]
  }

  function ValueOf(s: JsString): nat
    requires forall i | 0 <= i < |s| :: IsDigit(s[i])
  {
    if s == [] then 0
    else
      assert IsDigit(s[|s| - 1]);
      10 * ValueOf(s[..|s| - 1]) + (s[|s| - 1] - 0x30)
  }

  function ParseDecimal(s: JsString): Option<nat> {
    if IsDecimal(s) then Some(ValueOf(s)) else None
  }

  lemma {:induction false} PrintThenParse(n: nat)
    ensures ParseDecimal(DigitsOf(n)) == Some(n)
    ensures n > 0 ==> DigitsOf(n)[0] != 0x30
  {
    var s := DigitsOf(n);
    if n < 10 {
      assert s[..0] == [] && IsDigit(s[0]);
      assert ValueOf(s) == n;
    } else {
      var front := DigitsOf(n / 10);
      PrintThenParse(n / 10);
      assert s[..|s| - 1] == front && s[0] == front[0];
      forall i | 0 <= i < |s| ensures IsDigit(s[i]) {
        if i < |front| { assert s[i] == front[i]; }
      }
      assert IsDecimal(s);
      assert ValueOf(s) == 10 * ValueOf(front) + n % 10;
    }
  }

  lemma {:induction false} LeadingDigitCounts(s: JsString)
    requires (forall i | 0 <= i < |s| :: IsDigit(s[i])) && s != [] && s[0] != 0x30
    ensures ValueOf(s) > 0
  {
    if |s| > 1 { LeadingDigitCounts(s[..|s| - 1]); }
  }

  /** A value has one canonical string. */
  lemma {:induction false} ParseThenPrint(s: JsString)
    requires IsDecimal(s)
    ensures DigitsOf(ValueOf(s)) == s
  {
    var front := s[..|s| - 1];
    if |s| == 1 {
      assert ValueOf(front) == 0;
    } else {
      LeadingDigitCounts(front);
      ParseThenPrint(front);
      assert s == front + [s[|s| - 1]];
    }
  }

  function Ascii(s: string): JsString
    requires forall i | 0 <= i < |s| :: s[i] < 128 as char
  {
    seq(|s|, i requires 0 <= i < |s| => s[i] as nat)
  }

  lemma {:induction false} AsciiIsPortable(s: JsString)
    requires forall i | 0 <= i < |s| :: 0 < s[i] < 0x80
    ensures Portable(s)
  {
    if s != [] { AsciiIsPortable(s[1..]); }
  }
}
