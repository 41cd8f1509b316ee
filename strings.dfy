/** String helpers the pipeline relies on: decimal text of small numbers,
    splitting on a separator, substring tests and the ordering of strings by
    code point (the order in which a group-by sorts its keys). */
module Strings {

  predicate IsDigit(c: char) {
    '0' <= c <= '9'
  }

  predicate AllDigits(s: string) {
    forall k :: 0 <= k < |s| ==> IsDigit(s[k])
  }

  /** A text of digits holds no date separator. */
  lemma DigitsNoSlash(s: string)
    requires AllDigits(s)
    ensures '/' !in s
  {
  }

  function DigitChar(d: nat): (c: char)
    requires d < 10
    ensures IsDigit(c)
  {
    "0123456789"[d]
  }

  /** The number a string of decimal digits denotes (int(s) in the source). */
  function ValueOf(s: string): nat
    requires AllDigits(s)
  {
    if s == [] then 0 else 10 * ValueOf(s[..|s| - 1]) + (s[|s| - 1] as int - '0' as int)
  }

  /** The decimal text of `n` without leading zeros (str(n) in the source). */
  function NumberText(n: nat): (s: string)
    ensures |s| >= 1 && AllDigits(s)
    ensures |s| > 1 ==> s[0] != '0'
  {
    if n < 10 then [DigitChar(n)] else NumberText(n / 10) + [DigitChar(n % 10)]
  }

  lemma {:induction false} NumberTextValue(n: nat)
    ensures ValueOf(NumberText(n)) == n
  {
    if n >= 10 {
      NumberTextValue(n / 10);
      var s := NumberText(n);
      assert s[..|s| - 1] == NumberText(n / 10);
    }
  }

  /** Two decimal texts without leading zeros are equal iff their values are. */
  lemma {:induction false} NumberTextInjective(m: nat, n: nat)
    ensures NumberText(m) == NumberText(n) <==> m == n
  {
    if NumberText(m) == NumberText(n) {
      NumberTextValue(m);
      NumberTextValue(n);
    }
  }

  /** The first index of `c` in `s`, or |s| if it does not occur. */
  function IndexOf(s: string, c: char): (i: nat)
    ensures i <= |s|
    ensures i < |s| ==> s[i] == c
    ensures forall k :: 0 <= k < i ==> s[k] != c
  {
    if s == [] then 0 else if s[0] == c then 0 else 1 + IndexOf(s[1..], c)
  }

  /** Python's s.split(c): the pieces between occurrences of `c`. */
  function Split(s: string, c: char): (parts: seq<string>)
    ensures |parts| >= 1
    ensures forall k :: 0 <= k < |parts| ==> c !in parts[k]
    decreases |s|
  {
    var i := IndexOf(s, c);
    if i == |s| then [s] else [s[..i]] + Split(s[i + 1..], c)
  }

  /** Splitting a text built with the separator gives back its pieces. */
  lemma {:induction false} SplitJoin(a: string, rest: string, c: char)
    requires c !in a
    ensures Split(a + [c] + rest, c) == [a] + Split(rest, c)
  {
    var s := a + [c] + rest;
    var i := IndexOf(s, c);
    assert s[|a|] == c;
    assert forall k :: 0 <= k < |a| ==> s[k] == a[k];
    assert i == |a|;
    assert s[..i] == a;
    assert s[i + 1..] == rest;
  }

  lemma SplitSingle(a: string, c: char)
    requires c !in a
    ensures Split(a, c) == [a]
  {
    assert IndexOf(a, c) == |a|;
  }

  /** Three pieces joined by the separator split back into those pieces. */
  lemma SplitThree(a: string, b: string, d: string, c: char)
    requires c !in a && c !in b && c !in d
    ensures Split(a + [c] + b + [c] + d, c) == [a, b, d]
  {
    assert a + [c] + b + [c] + d == a + [c] + (b + [c] + d);
    SplitJoin(a, b + [c] + d, c);
    SplitJoin(b, d, c);
    SplitSingle(d, c);
  }

  /** Python's `a in b` on strings. */
  predicate IsSubstring(a: string, b: string) {
    exists i :: 0 <= i <= |b| - |a| && a <= b[i..]
  }

  /** Python's `a < b` on strings: lexicographic by code point. */
  predicate StrLess(a: string, b: string)
    decreases |a|
  {
    if a == [] then b != []
    else if b == [] then false
    else a[0] < b[0] || (a[0] == b[0] && StrLess(a[1..], b[1..]))
  }

  lemma {:induction false} StrLessIrreflexive(a: string)
    ensures !StrLess(a, a)
    decreases |a|
  {
    if a != [] {
      StrLessIrreflexive(a[1..]);
    }
  }

  lemma {:induction false} StrLessTransitive(a: string, b: string, c: string)
    requires StrLess(a, b) && StrLess(b, c)
    ensures StrLess(a, c)
    decreases |a|
  {
    if a != [] && b != [] && c != [] && a[0] == b[0] && b[0] == c[0] {
      StrLessTransitive(a[1..], b[1..], c[1..]);
    }
  }

  lemma {:induction false} StrLessTotal(a: string, b: string)
    requires a != b
    ensures StrLess(a, b) || StrLess(b, a)
    decreases |a|
  {
    if a != [] && b != [] && a[0] == b[0] {
      assert a == [a[0]] + a[1..] && b == [b[0]] + b[1..];
      StrLessTotal(a[1..], b[1..]);
    }
  }
}
