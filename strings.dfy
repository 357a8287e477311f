/**
 * String helpers shared by the store, the submission protocol and the
 * user interface: substring search, ASCII lower-casing, decimal rendering,
 * joining, and Python's lexicographic order on strings.
 */
module Strings {

  /** `needle in haystack` for Python strings. */
  predicate Contains(haystack: string, needle: string)
    decreases |haystack|
  {
    |needle| <= |haystack| &&
    (haystack[..|needle|] == needle || (|haystack| > 0 && Contains(haystack[1..], needle)))
  }

  /** A string that contains no 'e' directly followed by 'r' cannot contain "error". */
  lemma {:induction false} NoErrorWithoutER(s: string)
    requires forall i :: 0 <= i < |s| - 1 && s[i] == 'e' ==> s[i + 1] != 'r'
    ensures !Contains(s, "error")
  {
    if |s| >= 5 {
      assert s[..5] != "error" by {
        assert s[0] == 'e' ==> s[1] != 'r';
      }
      NoErrorWithoutER(s[1..]);
    }
  }

  /** A string that starts with `prefix` contains it. */
  lemma ContainsPrefix(s: string, prefix: string)
    requires |prefix| <= |s| && s[..|prefix|] == prefix
    ensures Contains(s, prefix)
  {
  }

  function LowerChar(c: char): char
  {
    if 'A' <= c <= 'Z' then (c as int + 32) as char else c
  }

  /** `str.lower()` restricted to ASCII letters. */
  function Lower(s: string): (r: string)
    ensures |r| == |s|
    ensures forall i :: 0 <= i < |s| ==> r[i] == LowerChar(s[i])
  {
    seq(|s|, i requires 0 <= i < |s| => LowerChar(s[i]))
  }

  predicate IsDigit(c: char)
  {
    '0' <= c <= '9'
  }

  function DigitChar(d: nat): (c: char)
    requires d < 10
    ensures IsDigit(c)
  {
    (('0' as int) + d) as char
  }

  /** `str(n)` for a non-negative integer: its decimal digits, most significant first. */
  function NatToString(n: nat): (r: string)
    ensures 0 < |r|
    ensures forall i :: 0 <= i < |r| ==> IsDigit(r[i])
  {
    if n < 10 then [DigitChar(n)] else NatToString(n / 10) + [DigitChar(n % 10)]
  }

  /** `sep.join(parts)`. */
  function Join(parts: seq<string>, sep: string): string
  {
    if |parts| == 0 then ""
    else if |parts| == 1 then parts[0]
    else parts[0] + sep + Join(parts[1..], sep)
  }

  /** Python's `a <= b` on strings: lexicographic by code point, a prefix first. */
  predicate LessEq(a: string, b: string)
  {
    |a| == 0 || (|b| > 0 && (a[0] < b[0] || (a[0] == b[0] && LessEq(a[1..], b[1..]))))
  }

  lemma {:induction false} LessEqReflexive(a: string)
    ensures LessEq(a, a)
  {
    if |a| > 0 {
      LessEqReflexive(a[1..]);
    }
  }

  lemma {:induction false} LessEqTotal(a: string, b: string)
    ensures LessEq(a, b) || LessEq(b, a)
  {
    if |a| > 0 && |b| > 0 && a[0] == b[0] {
      LessEqTotal(a[1..], b[1..]);
    }
  }

  lemma {:induction false} LessEqAntisymmetric(a: string, b: string)
    requires LessEq(a, b) && LessEq(b, a)
    ensures a == b
  {
    if |a| > 0 && |b| > 0 {
      LessEqAntisymmetric(a[1..], b[1..]);
      assert a == [a[0]] + a[1..] && b == [b[0]] + b[1..];
    }
  }

  lemma {:induction false} LessEqTransitive(a: string, b: string, c: string)
    requires LessEq(a, b) && LessEq(b, c)
    ensures LessEq(a, c)
  {
    if |a| > 0 && a[0] == b[0] && b[0] == c[0] {
      LessEqTransitive(a[1..], b[1..], c[1..]);
    }
  }

  /** Strings that agree up to position `k` and differ there are ordered by their characters at `k`, strictly. */
  lemma {:induction false} LessAtFirstDifference(a: string, b: string, k: nat)
    requires k < |a| && k < |b| && a[..k] == b[..k] && a[k] < b[k]
    ensures LessEq(a, b) && !LessEq(b, a)
  {
    if k > 0 {
      assert a[0] == a[..k][0] && b[0] == b[..k][0];
      assert a[1..][..k - 1] == a[..k][1..] && b[1..][..k - 1] == b[..k][1..];
      LessAtFirstDifference(a[1..], b[1..], k - 1);
    }
  }
}
