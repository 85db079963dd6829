/**
 * The string primitives the launcher relies on: `string.IsNullOrWhiteSpace`,
 * `string.Contains(..., StringComparison.OrdinalIgnoreCase)` and the decimal
 * rendering of counts inside interpolated strings.
 */
module Text {
  import opened Wrappers

  /** .NET's `char.IsWhiteSpace`: the characters of the Unicode White_Space property. */
  predicate IsWhiteSpace(c: char)
  {
    || ('\U{0009}' <= c <= '\U{000D}')
    || c == ' '
    || c == '\U{0085}'
    || c == '\U{00A0}'
    || c == '\U{1680}'
    || ('\U{2000}' <= c <= '\U{200A}')
    || c == '\U{2028}'
    || c == '\U{2029}'
    || c == '\U{202F}'
    || c == '\U{205F}'
    || c == '\U{3000}'
  }

  /** Every character of `s` is white space (so "" qualifies). */
  function AllWhiteSpace(s: string): (r: bool)
    ensures r <==> forall i :: 0 <= i < |s| ==> IsWhiteSpace(s[i])
  {
    if s == [] then true else IsWhiteSpace(s[0]) && AllWhiteSpace(s[1..])
  }

  /** `string.IsNullOrWhiteSpace`: null, empty, or white space only. */
  predicate IsNullOrWhiteSpace(s: Option<string>)
  {
    s.None? || AllWhiteSpace(s.value)
  }

  /** Ordinal case folding, restricted to the ASCII letters. */
  function FoldCase(c: char): char
  {
    if 'a' <= c <= 'z' then (c as int - 32) as char else c
  }

  /** `t` occurs in `s` at position `i`, ignoring case. */
  ghost predicate MatchesAt(s: string, t: string, i: int)
    requires 0 <= i && i + |t| <= |s|
  {
    forall k :: 0 <= k < |t| ==> FoldCase(s[i + k]) == FoldCase(t[k])
  }

  /**
   * Away from position 0, `t` occurs in `s` exactly where it occurs in `s[1..]`,
   * one position further on.
   */
  lemma ContainsStep(s: string, t: string)
    requires |s| > 0 && |t| <= |s| && !MatchesAt(s, t, 0)
    ensures (exists i :: 0 <= i && i + |t| <= |s| && MatchesAt(s, t, i))
        <==> (exists j :: 0 <= j && j + |t| <= |s| - 1 && MatchesAt(s[1..], t, j))
  {
    if exists i :: 0 <= i && i + |t| <= |s| && MatchesAt(s, t, i) {
      var i :| 0 <= i && i + |t| <= |s| && MatchesAt(s, t, i);
      assert i > 0;
      forall k | 0 <= k < |t| ensures FoldCase(s[1..][i - 1 + k]) == FoldCase(t[k]) {
        assert s[1..][i - 1 + k] == s[i + k];
      }
      assert MatchesAt(s[1..], t, i - 1);
    }
    if exists j :: 0 <= j && j + |t| <= |s| - 1 && MatchesAt(s[1..], t, j) {
      var j :| 0 <= j && j + |t| <= |s| - 1 && MatchesAt(s[1..], t, j);
      forall k | 0 <= k < |t| ensures FoldCase(s[j + 1 + k]) == FoldCase(t[k]) {
        assert s[1..][j + k] == s[j + 1 + k];
      }
      assert MatchesAt(s, t, j + 1);
    }
  }

  /** The prefix test used at each position by `ContainsIgnoreCase`. */
  function StartsWithIgnoreCase(s: string, t: string): (r: bool)
    requires |t| <= |s|
    ensures r <==> MatchesAt(s, t, 0)
  {
    if t == [] then true
    else FoldCase(s[0]) == FoldCase(t[0]) && StartsWithIgnoreCase(s[1..], t[1..])
  }

  /**
   * `s.Contains(t, StringComparison.OrdinalIgnoreCase)`: some position of `s`
   * holds `t` up to case.
   */
  function ContainsIgnoreCase(s: string, t: string): (r: bool)
    ensures r <==> exists i :: 0 <= i && i + |t| <= |s| && MatchesAt(s, t, i)
    decreases |s|
  {
    if |s| < |t| then false
    else if StartsWithIgnoreCase(s, t) then true
    else ContainsStep(s, t); ContainsIgnoreCase(s[1..], t)
  }

  predicate IsDigit(c: char)
  {
    '0' <= c <= '9'
  }

  predicate AllDigits(s: string)
  {
    forall i :: 0 <= i < |s| ==> IsDigit(s[i])
  }

  function DigitChar(d: nat): (c: char)
    requires d < 10
    ensures IsDigit(c)
  {
    ('0' as int + d) as char
  }

  /** The decimal rendering of a count, as C# string interpolation writes an `int`. */
  function NatToString(n: nat): (r: string)
    ensures |r| >= 1 && AllDigits(r)
    ensures r[0] == '0' ==> r == "0"
  {
    if n < 10 then [DigitChar(n)] else NatToString(n / 10) + [DigitChar(n % 10)]
  }

  /** The number a string of decimal digits denotes. */
  function DecimalValue(s: string): nat
    requires AllDigits(s)
  {
    if s == [] then 0 else DecimalValue(s[..|s| - 1]) * 10 + (s[|s| - 1] as int - '0' as int)
  }

  /** Reading back a rendered count gives the count. */
  lemma {:induction false} NatToStringRoundTrip(n: nat)
    ensures DecimalValue(NatToString(n)) == n
  {
    var s := NatToString(n);
    if n >= 10 {
      NatToStringRoundTrip(n / 10);
      assert s[..|s| - 1] == NatToString(n / 10);
    }
  }

  /** Distinct counts render differently. */
  lemma NatToStringInjective(m: nat, n: nat)
    requires NatToString(m) == NatToString(n)
    ensures m == n
  {
    NatToStringRoundTrip(m);
    NatToStringRoundTrip(n);
  }

  /**
   * Two digit strings each followed by text starting with a non-digit can only
   * be equal with equal digits: the first non-digit ends both.
   */
  lemma DigitPrefixUnique(a: string, x: string, b: string, y: string)
    requires AllDigits(a) && AllDigits(b)
    requires |x| > 0 && !IsDigit(x[0]) && |y| > 0 && !IsDigit(y[0])
    requires a + x == b + y
    ensures a == b && x == y
  {
    assert a == (a + x)[..|a|] && b == (b + y)[..|b|];
    assert x == (a + x)[|a|..] && y == (b + y)[|b|..];
  }
}
