/**
 * Text helpers shared by the payment and user modules: Python's `str(int)`,
 * `str.split(sep)`, `str.lower()` on ASCII, `str.strip()` and character
 * filters, each written out so that their properties can be proved.
 */
module Strings {

  /** The character for a decimal digit value. */
  function DigitChar(d: nat): (c: char)
    requires d < 10
    ensures '0' <= c <= '9'
  {
    ('0' as int + d) as char
  }

  /** The value of a decimal digit character. */
  function DigitValue(c: char): nat
    requires '0' <= c <= '9'
  {
    c as int - '0' as int
  }

  predicate IsDigitChar(c: char) {
    '0' <= c <= '9'
  }

  predicate IsDigits(s: string) {
    forall k :: 0 <= k < |s| ==> IsDigitChar(s[k])
  }

  /** Python's `str(n)` for a non-negative integer: its decimal digits, most significant first. */
  function NatToDecimal(n: nat): (s: string)
    ensures |s| >= 1 && IsDigits(s)
    decreases n
  {
    if n < 10 then [DigitChar(n)] else NatToDecimal(n / 10) + [DigitChar(n % 10)]
  }

  /** Python's `str(i)` for any integer: a minus sign before the digits of a negative number. */
  function IntToDecimal(i: int): (s: string)
    ensures |s| >= 1
    ensures i >= 0 ==> IsDigits(s)
    ensures i < 0 ==> s[0] == '-' && IsDigits(s[1..])
  {
    if i >= 0 then NatToDecimal(i) else "-" + NatToDecimal(-i)
  }

  /** The number a string of decimal digits denotes. */
  function DecimalValue(s: string): nat
    requires IsDigits(s)
  {
    if s == [] then 0 else DecimalValue(s[..|s| - 1]) * 10 + DigitValue(s[|s| - 1])
  }

  /** Reads back what IntToDecimal writes (Python's `int(s)` on such strings). */
  function ParseInt(s: string): int
    requires |s| >= 1
    requires (s[0] == '-' && IsDigits(s[1..])) || IsDigits(s)
  {
    if s[0] == '-' && IsDigits(s[1..]) then -(DecimalValue(s[1..]) as int) else DecimalValue(s)
  }

  lemma {:induction false} NatToDecimalRoundTrip(n: nat)
    ensures DecimalValue(NatToDecimal(n)) == n
    decreases n
  {
    var s := NatToDecimal(n);
    if n < 10 {
      assert s[..|s| - 1] == [];
    } else {
      NatToDecimalRoundTrip(n / 10);
      assert s[..|s| - 1] == NatToDecimal(n / 10);
    }
  }

  /** `int(str(i)) == i`: the decimal rendering of an integer is read back unchanged. */
  lemma IntToDecimalRoundTrip(i: int)
    ensures ParseInt(IntToDecimal(i)) == i
  {
    var s := IntToDecimal(i);
    if i >= 0 {
      NatToDecimalRoundTrip(i);
      assert s[0] != '-';
    } else {
      NatToDecimalRoundTrip(-i);
      assert s[1..] == NatToDecimal(-i);
    }
  }

  /** Decimal renderings never contain a separator character other than a digit or '-'. */
  lemma DecimalHasNo(i: int, sep: char)
    requires !IsDigitChar(sep) && sep != '-'
    ensures sep !in IntToDecimal(i)
  {
    var s := IntToDecimal(i);
    forall k | 0 <= k < |s|
      ensures s[k] != sep
    {
      if i < 0 && k > 0 {
        assert s[k] == s[1..][k - 1];
      }
    }
  }

  // ---------------------------------------------------------------------------
  // str.split(sep) with an explicit one-character separator, and its inverse

  /** `sep.join(parts)` for a non-empty list of parts. */
  function Join(parts: seq<string>, sep: char): string
    requires |parts| >= 1
  {
    if |parts| == 1 then parts[0] else parts[0] + [sep] + Join(parts[1..], sep)
  }

  /**
   * Python's `s.split(sep)`: the maximal separator-free pieces between the
   * occurrences of `sep`, empty pieces included; joining them back gives `s`.
   */
  function Split(s: string, sep: char): (parts: seq<string>)
    ensures |parts| >= 1
    ensures forall k :: 0 <= k < |parts| ==> sep !in parts[k]
    ensures Join(parts, sep) == s
  {
    if s == [] then [""]
    else
      var rest := Split(s[1..], sep);
      if s[0] == sep then
        assert ([""] + rest)[1..] == rest;
        [""] + rest
      else
        var parts := [[s[0]] + rest[0]] + rest[1..];
        assert parts[1..] == rest[1..];
        assert s == [s[0]] + s[1..];
        parts
  }

  lemma {:induction false} SplitWithoutSeparator(a: string, sep: char)
    requires sep !in a
    ensures Split(a, sep) == [a]
  {
    if a != [] {
      SplitWithoutSeparator(a[1..], sep);
      assert [a[0]] + a[1..] == a;
    }
  }

  lemma {:induction false} SplitAfterPiece(a: string, sep: char, rest: string)
    requires sep !in a
    ensures Split(a + [sep] + rest, sep) == [a] + Split(rest, sep)
  {
    var s := a + [sep] + rest;
    if a == [] {
      assert s[1..] == rest;
    } else {
      assert s[1..] == a[1..] + [sep] + rest;
      SplitAfterPiece(a[1..], sep, rest);
      assert [a[0]] + a[1..] == a;
    }
  }

  /** Splitting a join of separator-free pieces gives the pieces back. */
  lemma {:induction false} SplitJoin(parts: seq<string>, sep: char)
    requires |parts| >= 1
    requires forall k :: 0 <= k < |parts| ==> sep !in parts[k]
    ensures Split(Join(parts, sep), sep) == parts
  {
    if |parts| == 1 {
      SplitWithoutSeparator(parts[0], sep);
    } else {
      SplitJoin(parts[1..], sep);
      SplitAfterPiece(parts[0], sep, Join(parts[1..], sep));
      assert [parts[0]] + parts[1..] == parts;
    }
  }

  /** `s.split(sep)` has exactly two pieces exactly when `s` is `a + sep + b` with both sides separator-free. */
  lemma SplitTwo(a: string, b: string, sep: char)
    requires sep !in a && sep !in b
    ensures Split(a + [sep] + b, sep) == [a, b]
  {
    SplitJoin([a, b], sep);
    assert Join([a, b], sep) == a + [sep] + b;
  }

  /** Three separator-free pieces joined by the separator split back into those pieces. */
  lemma SplitThree(a: string, b: string, c: string, sep: char)
    requires sep !in a && sep !in b && sep !in c
    ensures Split(a + [sep] + b + [sep] + c, sep) == [a, b, c]
  {
    SplitJoin([a, b, c], sep);
    assert [a, b, c][1..] == [b, c] && [b, c][1..] == [c];
    assert Join([b, c], sep) == b + [sep] + c;
    assert Join([a, b, c], sep) == a + [sep] + (b + [sep] + c);
    assert a + [sep] + b + [sep] + c == a + [sep] + (b + [sep] + c);
  }

  // ---------------------------------------------------------------------------
  // str.lower() restricted to the comparison with an ASCII word

  function LowerChar(c: char): char {
    if 'A' <= c <= 'Z' then (c as int + 32) as char else c
  }

  /**
   * Python's `s.lower()` on ASCII letters. Used only to compare with an
   * all-ASCII lower-case word, for which the ASCII mapping is exact: no other
   * character lower-cases to a single ASCII letter of that word.
   */
  function AsciiLower(s: string): (r: string)
    ensures |r| == |s|
    ensures forall k :: 0 <= k < |s| ==> r[k] == LowerChar(s[k])
  {
    seq(|s|, k requires 0 <= k < |s| => LowerChar(s[k]))
  }

  // ---------------------------------------------------------------------------
  // str.strip() and character filters

  /** The characters Python's `str.isspace()` accepts, which `str.strip()` removes. */
  predicate IsSpace(c: char) {
    || c == ' '
    || ('\t' <= c <= '\r')
    || ('\U{1C}' <= c <= '\U{1F}')
    || c == '\U{85}' || c == '\U{A0}' || c == '\U{1680}'
    || ('\U{2000}' <= c <= '\U{200A}')
    || c == '\U{2028}' || c == '\U{2029}' || c == '\U{202F}' || c == '\U{205F}' || c == '\U{3000}'
  }

  /** Index of the first non-space character at or after `lo` (or |s|). */
  function SkipSpaces(s: string, lo: nat): (i: nat)
    requires lo <= |s|
    ensures lo <= i <= |s|
    ensures forall k :: lo <= k < i ==> IsSpace(s[k])
    ensures i == |s| || !IsSpace(s[i])
    decreases |s| - lo
  {
    if lo == |s| || !IsSpace(s[lo]) then lo else SkipSpaces(s, lo + 1)
  }

  /** Index just after the last non-space character at or after `lo` (or `lo`). */
  function TrimEnd(s: string, lo: nat, hi: nat): (j: nat)
    requires lo <= hi <= |s|
    ensures lo <= j <= hi
    ensures forall k :: j <= k < hi ==> IsSpace(s[k])
    ensures j == lo || !IsSpace(s[j - 1])
    decreases hi - lo
  {
    if hi == lo || !IsSpace(s[hi - 1]) then hi else TrimEnd(s, lo, hi - 1)
  }

  /**
   * Python's `s.strip()`: the slice of `s` left after removing leading and
   * trailing whitespace; it neither starts nor ends with whitespace, and
   * everything removed was whitespace.
   */
  function Strip(s: string): (r: string)
    ensures |r| <= |s|
    ensures r == [] || (!IsSpace(r[0]) && !IsSpace(r[|r| - 1]))
    ensures r == [] <==> forall k :: 0 <= k < |s| ==> IsSpace(s[k])
    ensures exists i, j :: 0 <= i <= j <= |s| && r == s[i..j]
                           && (forall k :: 0 <= k < i ==> IsSpace(s[k]))
                           && (forall k :: j <= k < |s| ==> IsSpace(s[k]))
  {
    var i := SkipSpaces(s, 0);
    var j := TrimEnd(s, i, |s|);
    assert i < |s| ==> j > i;
    assert forall k :: j <= k < |s| ==> IsSpace(s[k]) by {
      if i == |s| {
        assert j == |s|;
      }
    }
    s[i..j]
  }

  /** Stripping a stripped string changes nothing. */
  lemma StripIdempotent(s: string)
    ensures Strip(Strip(s)) == Strip(s)
  {
    var r := Strip(s);
    if r != [] {
      assert SkipSpaces(r, 0) == 0;
      assert TrimEnd(r, 0, |r|) == |r|;
      assert r[0..|r|] == r;
    }
  }

  /**
   * `r` can be obtained from `s` by deleting elements: its elements occur in
   * `s` in the same order (matched leftmost first, which loses no match).
   */
  predicate Subsequence<T(==)>(r: seq<T>, s: seq<T>)
    decreases |s|
  {
    if r == [] then true
    else if s == [] then false
    else if r[0] == s[0] then Subsequence(r[1..], s[1..])
    else Subsequence(r, s[1..])
  }

  /** Python's `''.join(c for c in s if keep(c))`. */
  function Filter(s: string, keep: char -> bool): (r: string)
    ensures |r| <= |s|
    ensures forall k :: 0 <= k < |r| ==> keep(r[k])
    ensures forall c :: c in s && keep(c) ==> c in r
    ensures forall c :: c in r ==> c in s
  {
    if s == [] then [] else (if keep(s[0]) then [s[0]] else []) + Filter(s[1..], keep)
  }

  /**
   * The filtered string holds the kept characters of `s`, each as often as in
   * `s` and in the order of `s`; these two facts determine it.
   */
  lemma {:induction false} FilterCountsAndOrder(s: string, keep: char -> bool)
    ensures forall c :: multiset(Filter(s, keep))[c] == if keep(c) then multiset(s)[c] else 0
    ensures Subsequence(Filter(s, keep), s)
  {
    if s != [] {
      FilterCountsAndOrder(s[1..], keep);
      var rest := Filter(s[1..], keep);
      assert s == [s[0]] + s[1..];
      assert multiset(s) == multiset{s[0]} + multiset(s[1..]);
      if keep(s[0]) {
        var r := [s[0]] + rest;
        assert Filter(s, keep) == r;
        assert r[1..] == rest;
        assert multiset(r) == multiset{s[0]} + multiset(rest);
      } else {
        assert Filter(s, keep) == rest;
        assert rest != [] ==> rest[0] != s[0];
      }
    }
  }
}
