/**
 * The JavaScript string operations the components rely on, written over
 * `seq<char>`: decimal rendering of non-negative numbers (`String(n)`),
 * `padStart`, `trim`, `split` with a one-character separator, `charAt(0)`,
 * and the `s || fallback` idiom on possibly missing strings.
 */
module Text {
  import opened Options

  // ---------------------------------------------------------------- digits

  predicate IsDigit(c: char) {
    '0' <= c <= '9'
  }

  predicate AllDigits(s: string) {
    forall i :: 0 <= i < |s| ==> IsDigit(s[i])
  }

  function DigitChar(n: nat): (c: char)
    requires n < 10
    ensures IsDigit(c)
  {
    ('0' as int + n) as char
  }

  function DigitValue(c: char): (n: nat)
    requires IsDigit(c)
    ensures n < 10
  {
    c as int - '0' as int
  }

  /** `String(n)` for a non-negative integer: its decimal digits, no leading zero. */
  function NatToString(n: nat): (s: string)
    ensures 1 <= |s| && AllDigits(s)
    ensures s[0] == '0' ==> n == 0
    decreases n
  {
    if n < 10 then [DigitChar(n)] else NatToString(n / 10) + [DigitChar(n % 10)]
  }

  /** The number a string of decimal digits denotes. */
  function DigitsValue(s: string): nat
    requires AllDigits(s)
  {
    if s == [] then 0 else 10 * DigitsValue(s[..|s| - 1]) + DigitValue(s[|s| - 1])
  }

  function Pow10(k: nat): (p: nat)
    ensures p >= 1
  {
    if k == 0 then 1 else 10 * Pow10(k - 1)
  }

  /** Reading back what `NatToString` wrote gives the number again. */
  lemma {:induction false} NatToStringRoundTrip(n: nat)
    ensures DigitsValue(NatToString(n)) == n
    decreases n
  {
    if n >= 10 {
      NatToStringRoundTrip(n / 10);
      var s := NatToString(n);
      assert s[..|s| - 1] == NatToString(n / 10);
    }
  }

  /** A number below 10^k is written with at most k digits. */
  lemma {:induction false} NatToStringLength(n: nat, k: nat)
    requires 1 <= k && n < Pow10(k)
    ensures |NatToString(n)| <= k
    decreases k
  {
    if n >= 10 {
      assert k >= 2;
      NatToStringLength(n / 10, k - 1);
    }
  }

  // ---------------------------------------------------------------- padStart

  function Repeat(c: char, k: nat): (r: string)
    ensures |r| == k && forall i :: 0 <= i < k ==> r[i] == c
  {
    if k == 0 then [] else [c] + Repeat(c, k - 1)
  }

  /** `s.padStart(width, fill)`: fill on the left up to `width`; never truncates. */
  function PadStart(s: string, width: nat, fill: char): (r: string)
    ensures |r| == if |s| >= width then |s| else width
    ensures forall i :: 0 <= i < |s| ==> r[|r| - |s| + i] == s[i]
    ensures forall i :: 0 <= i < |r| - |s| ==> r[i] == fill
  {
    if |s| >= width then s else Repeat(fill, width - |s|) + s
  }

  /** Leading zeros do not change the value of a digit string. */
  lemma {:induction false} LeadingZerosIgnored(k: nat, s: string)
    requires AllDigits(s)
    ensures AllDigits(Repeat('0', k) + s)
    ensures DigitsValue(Repeat('0', k) + s) == DigitsValue(s)
    decreases |s|, k
  {
    var z := Repeat('0', k);
    if s == [] {
      assert z + s == z;
      if k > 0 {
        LeadingZerosIgnored(k - 1, []);
        assert z[..|z| - 1] == Repeat('0', k - 1) + [];
      }
    } else {
      LeadingZerosIgnored(k, s[..|s| - 1]);
      assert (z + s)[..|z + s| - 1] == z + s[..|s| - 1];
    }
  }

  /** A zero-padded decimal rendering reads back as the number. */
  lemma PaddedNumberRoundTrip(n: nat, width: nat)
    ensures AllDigits(PadStart(NatToString(n), width, '0'))
    ensures DigitsValue(PadStart(NatToString(n), width, '0')) == n
  {
    NatToStringRoundTrip(n);
    ZeroPaddingKeepsValue(NatToString(n), width);
  }

  lemma ZeroPaddingKeepsValue(s: string, width: nat)
    requires AllDigits(s)
    ensures AllDigits(PadStart(s, width, '0'))
    ensures DigitsValue(PadStart(s, width, '0')) == DigitsValue(s)
  {
    if |s| < width {
      assert PadStart(s, width, '0') == Repeat('0', width - |s|) + s;
      LeadingZerosIgnored(width - |s|, s);
    }
  }

  /** A number below 10^k padded to k digits is exactly k characters long. */
  lemma PaddedNumberLength(n: nat, k: nat)
    requires 1 <= k && n < Pow10(k)
    ensures |PadStart(NatToString(n), k, '0')| == k
  {
    NatToStringLength(n, k);
  }

  // ---------------------------------------------------------------- trim

  /**
   * ECMAScript WhiteSpace and LineTerminator code points, the characters
   * `String.prototype.trim` removes.
   */
  predicate IsWhiteSpace(c: char) {
    var n := c as int;
    n == 0x09 || n == 0x0A || n == 0x0B || n == 0x0C || n == 0x0D || n == 0x20 ||
    n == 0xA0 || n == 0x1680 || (0x2000 <= n <= 0x200A) || n == 0x2028 || n == 0x2029 ||
    n == 0x202F || n == 0x205F || n == 0x3000 || n == 0xFEFF
  }

  /** Drops leading white space: the longest suffix that does not start with it. */
  function TrimStart(s: string): (r: string)
    ensures |r| <= |s| && r == s[|s| - |r|..]
    ensures forall i :: 0 <= i < |s| - |r| ==> IsWhiteSpace(s[i])
    ensures r != [] ==> !IsWhiteSpace(r[0])
  {
    if s != [] && IsWhiteSpace(s[0]) then TrimStart(s[1..]) else s
  }

  /** Drops trailing white space: the longest prefix that does not end with it. */
  function TrimEnd(s: string): (r: string)
    ensures |r| <= |s| && r == s[..|r|]
    ensures forall i :: |r| <= i < |s| ==> IsWhiteSpace(s[i])
    ensures r != [] ==> !IsWhiteSpace(r[|r| - 1])
  {
    if s != [] && IsWhiteSpace(s[|s| - 1]) then TrimEnd(s[..|s| - 1]) else s
  }

  /** `s.trim()`. */
  function Trim(s: string): string {
    TrimEnd(TrimStart(s))
  }

  predicate IsBlank(s: string) {
    forall i :: 0 <= i < |s| ==> IsWhiteSpace(s[i])
  }

  /** `!s.trim()` holds exactly for strings made only of white space. */
  lemma TrimEmptyIffBlank(s: string)
    ensures Trim(s) == [] <==> IsBlank(s)
  {
    var t := TrimStart(s);
    if t != [] {
      assert TrimEnd(t) != [] by {
        assert !IsWhiteSpace(t[0]);
      }
    }
  }

  /** Trimming keeps the text between the outer white space untouched. */
  lemma TrimIsInfix(s: string)
    ensures exists i, j :: 0 <= i <= j <= |s| && Trim(s) == s[i..j]
  {
    var t := TrimStart(s);
    var i := |s| - |t|;
    var j := i + |TrimEnd(t)|;
    assert Trim(s) == s[i..j];
  }

  // ---------------------------------------------------------------- split

  /** `s.split(c)` for a one-character separator: at least one piece, none holding `c`. */
  function Split(s: string, c: char): (pieces: seq<string>)
    ensures |pieces| >= 1
    ensures forall k :: 0 <= k < |pieces| ==> c !in pieces[k]
  {
    if s == [] then [[]]
    else
      var rest := Split(s[1..], c);
      if s[0] == c then [[]] + rest else [[s[0]] + rest[0]] + rest[1..]
  }

  /** The pieces joined with the separator, `pieces.join(c)`. */
  function Join(pieces: seq<string>, c: char): string
    requires |pieces| >= 1
  {
    if |pieces| == 1 then pieces[0] else pieces[0] + [c] + Join(pieces[1..], c)
  }

  /** Splitting loses nothing: joining the pieces gives the string back. */
  lemma {:induction false} SplitJoin(s: string, c: char)
    ensures Join(Split(s, c), c) == s
  {
    if s != [] {
      var rest := Split(s[1..], c);
      SplitJoin(s[1..], c);
      if s[0] == c {
        assert Split(s, c)[1..] == rest;
      } else {
        var p := Split(s, c);
        if |rest| > 1 {
          assert p[1..] == rest[1..];
          assert Join(rest, c) == rest[0] + [c] + Join(rest[1..], c);
        }
      }
    }
  }

  /** The first piece is everything before the first separator. */
  lemma {:induction false} SplitFirst(a: string, c: char, b: string)
    requires c !in a
    ensures Split(a + [c] + b, c)[0] == a
  {
    if a != [] {
      SplitFirst(a[1..], c, b);
      assert (a + [c] + b)[1..] == a[1..] + [c] + b;
    } else {
      assert (a + [c] + b)[0] == c;
    }
  }

  function Last<T>(xs: seq<T>): T
    requires |xs| >= 1
  {
    xs[|xs| - 1]
  }

  /**
   * `s.split(c).pop()`: the text after the last separator, or all of `s`
   * when it holds none.
   */
  lemma {:induction false} SplitLast(s: string, c: char)
    ensures var r := Last(Split(s, c));
      && |r| <= |s| && r == s[|s| - |r|..] && c !in r
      && (|r| < |s| ==> s[|s| - |r| - 1] == c)
      && (|Split(s, c)| > 1 ==> |r| < |s|)
      && (|Split(s, c)| == 1 ==> r == s)
  {
    if s != [] {
      SplitLast(s[1..], c);
      var rest := Split(s[1..], c);
      var p := Split(s, c);
      if s[0] != c && |rest| == 1 {
        assert rest[0] == s[1..];
        assert Last(p) == [s[0]] + rest[0];
      } else {
        assert Last(p) == Last(rest);
      }
    }
  }

  /** With no separator in `s`, the last piece is `s` itself. */
  lemma SplitLastNoSeparator(s: string, c: char)
    requires c !in s
    ensures Last(Split(s, c)) == s
  {
    SplitLast(s, c);
  }

  /** The last piece is what follows the last separator. */
  lemma SplitLastAfter(a: string, c: char, b: string)
    requires c !in b
    ensures Last(Split(a + [c] + b, c)) == b
  {
    var s := a + [c] + b;
    SplitLast(s, c);
    var r := Last(Split(s, c));
    assert s[|a|] == c;
    assert s[|s| - |b|..] == b;
  }

  // ---------------------------------------------------------------- fallbacks

  /** `s.charAt(0)`: the first character, or "" for the empty string. */
  function FirstChar(s: string): (r: string)
    ensures |r| == (if s == [] then 0 else 1)
    ensures s != [] ==> r[0] == s[0]
  {
    if s == [] then [] else [s[0]]
  }

  /** `s || fallback`: a missing or empty string yields the fallback. */
  function OrElse(s: Option<string>, fallback: string): (r: string)
    ensures (s.Some? && s.value != []) ==> r == s.value
    ensures (s.None? || s.value == []) ==> r == fallback
  {
    if s.Some? && s.value != [] then s.value else fallback
  }
}
