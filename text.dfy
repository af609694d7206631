/** The string handling the grid builder relies on: a month is identified by the
    string `"<year>-<month>"` built with template literals, and the header pass
    recovers year and month with `split('-')` and `parseInt(…, 10)`. */
module Text {

  predicate IsDigit(c: char) {
    '0' <= c <= '9'
  }

  predicate AllDigits(s: string) {
    forall i :: 0 <= i < |s| ==> IsDigit(s[i])
  }

  function DigitChar(n: int): (c: char)
    requires 0 <= n < 10
    ensures IsDigit(c)
  {
    "0123456789"[n]
  }

  function DigitValue(c: char): int
    requires IsDigit(c)
  {
    c as int - '0' as int
  }

  /** Decimal rendering of a whole number, as `${n}` does: no sign, no leading zero. */
  function NatToString(n: nat): (s: string)
    ensures |s| >= 1 && AllDigits(s)
  {
    if n < 10 then [DigitChar(n)] else NatToString(n / 10) + [DigitChar(n % 10)]
  }

  /** `parseInt(s, 10)` on a non-empty string of decimal digits. */
  function ParseDigits(s: string): nat
    requires AllDigits(s)
  {
    if s == [] then 0 else 10 * ParseDigits(s[..|s| - 1]) + DigitValue(s[|s| - 1])
  }

  lemma {:induction false} ParseNatToString(n: nat)
    ensures ParseDigits(NatToString(n)) == n
  {
    var s := NatToString(n);
    if n < 10 {
      assert s[..|s| - 1] == [];
    } else {
      ParseNatToString(n / 10);
      assert s[..|s| - 1] == NatToString(n / 10);
    }
  }

  /** `s.split(sep)`: the pieces between occurrences of `sep`, always at least one. */
  function Split(s: string, sep: char): (r: seq<string>)
    ensures |r| >= 1
  {
    if s == [] then [""]
    else
      var rest := Split(s[1..], sep);
      if s[0] == sep then [""] + rest else [[s[0]] + rest[0]] + rest[1..]
  }

  lemma {:induction false} SplitNoSeparator(s: string, sep: char)
    requires sep !in s
    ensures Split(s, sep) == [s]
  {
    if s != [] {
      assert s[0] != sep && sep !in s[1..];
      SplitNoSeparator(s[1..], sep);
      assert [s[0]] + s[1..] == s;
    }
  }

  lemma {:induction false} SplitAtFirst(a: string, b: string, sep: char)
    requires sep !in a
    ensures Split(a + [sep] + b, sep) == [a] + Split(b, sep)
  {
    if a == [] {
      assert a + [sep] + b == [sep] + b;
    } else {
      assert a[0] != sep && sep !in a[1..];
      SplitAtFirst(a[1..], b, sep);
      var s := a + [sep] + b;
      assert s[0] == a[0] && s[1..] == a[1..] + [sep] + b;
      assert [a[0]] + a[1..] == a;
    }
  }

  /** The `"<year>-<month>"` identifier of a month. */
  function MonthKey(year: nat, month: nat): string {
    NatToString(year) + "-" + NatToString(month)
  }

  lemma DigitsHaveNoDash(n: nat)
    ensures '-' !in NatToString(n)
  {
  }

  /** Splitting a month identifier at `-` gives back the two rendered numbers, and
      `parseInt` gives back the numbers themselves. */
  lemma MonthKeyRoundTrip(year: nat, month: nat)
    ensures |Split(MonthKey(year, month), '-')| == 2
    ensures Split(MonthKey(year, month), '-')[0] == NatToString(year)
    ensures Split(MonthKey(year, month), '-')[1] == NatToString(month)
    ensures ParseDigits(Split(MonthKey(year, month), '-')[1]) == month
  {
    DigitsHaveNoDash(year);
    DigitsHaveNoDash(month);
    SplitAtFirst(NatToString(year), NatToString(month), '-');
    SplitNoSeparator(NatToString(month), '-');
    ParseNatToString(month);
  }

  /** Two months share an identifier only if they are the same month, so the
      dictionary keyed by identifiers keeps months apart. */
  lemma MonthKeyInjective(y1: nat, m1: nat, y2: nat, m2: nat)
    requires MonthKey(y1, m1) == MonthKey(y2, m2)
    ensures y1 == y2 && m1 == m2
  {
    MonthKeyRoundTrip(y1, m1);
    MonthKeyRoundTrip(y2, m2);
    ParseNatToString(y1);
    ParseNatToString(y2);
  }
}
