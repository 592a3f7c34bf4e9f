/**
 * The string operations the controllers rely on, written out over
 * `seq<char>`: substring search (`String.prototype.includes`), splitting
 * on a separator (`String.prototype.split`) and its inverse, and the
 * decimal rendering of a non-negative integer inside a template literal.
 */
module Text {

  /** True when `pat` occurs in `s` starting at offset `i`. */
  predicate OccursAt(s: string, pat: string, i: nat) {
    i + |pat| <= |s| && s[i..i + |pat|] == pat
  }

  /** `s.includes(pat)`: a left-to-right search for `pat`. */
  predicate Contains(s: string, pat: string)
    decreases |s|
  {
    OccursAt(s, pat, 0) || (|s| > 0 && Contains(s[1..], pat))
  }

  /** The search finds `pat` exactly when `pat` occurs somewhere in `s`. */
  lemma {:induction false} ContainsIffOccurs(s: string, pat: string)
    ensures Contains(s, pat) <==> exists i: nat :: OccursAt(s, pat, i)
    decreases |s|
  {
    if |s| > 0 {
      ContainsIffOccurs(s[1..], pat);
      forall i: nat | 0 < i
        ensures OccursAt(s, pat, i) <==> OccursAt(s[1..], pat, i - 1)
      {
        if i + |pat| <= |s| {
          assert s[1..][i - 1..i - 1 + |pat|] == s[i..i + |pat|];
        }
      }
      if Contains(s, pat) && !OccursAt(s, pat, 0) {
        var j: nat :| OccursAt(s[1..], pat, j);
        assert OccursAt(s, pat, j + 1);
      }
      if !Contains(s, pat) {
        forall i: nat ensures !OccursAt(s, pat, i) {
          if i > 0 {
            assert !OccursAt(s[1..], pat, i - 1);
          }
        }
      }
    } else {
      forall i: nat ensures OccursAt(s, pat, i) ==> OccursAt(s, pat, 0) {
      }
    }
  }

  /**
   * `s.split(sep)` for a one-character separator: the pieces between
   * separators, in order; an empty string gives one empty piece.
   */
  function Split(s: string, sep: char): (parts: seq<string>)
    ensures |parts| >= 1
    ensures forall k :: 0 <= k < |parts| ==> sep !in parts[k]
    decreases |s|
  {
    if s == [] then [""]
    else
      var rest := Split(s[1..], sep);
      if s[0] == sep then [""] + rest
      else [[s[0]] + rest[0]] + rest[1..]
  }

  /** `parts.join(sep)`. */
  function Join(parts: seq<string>, sep: char): string
    decreases |parts|
  {
    if |parts| == 0 then ""
    else if |parts| == 1 then parts[0]
    else parts[0] + [sep] + Join(parts[1..], sep)
  }

  /** Joining the pieces back with the separator gives the original string. */
  lemma {:induction false} JoinSplit(s: string, sep: char)
    ensures Join(Split(s, sep), sep) == s
    decreases |s|
  {
    if s != [] {
      JoinSplit(s[1..], sep);
      var rest := Split(s[1..], sep);
      if s[0] != sep {
        if |rest| > 1 {
          assert ([[s[0]] + rest[0]] + rest[1..])[1..] == rest[1..];
        }
      } else {
        assert ([""] + rest)[1..] == rest;
      }
    }
  }

  /** A prefix free of separators extends the first piece. */
  lemma {:induction false} SplitPrefix(a: string, t: string, sep: char)
    requires sep !in a
    ensures Split(a + t, sep) == [a + Split(t, sep)[0]] + Split(t, sep)[1..]
    decreases |a|
  {
    if a == [] {
      assert a + t == t;
      assert a + Split(t, sep)[0] == Split(t, sep)[0];
      assert [Split(t, sep)[0]] + Split(t, sep)[1..] == Split(t, sep);
    } else {
      assert (a + t)[1..] == a[1..] + t;
      SplitPrefix(a[1..], t, sep);
      assert [a[0]] + (a[1..] + Split(t, sep)[0]) == a + Split(t, sep)[0];
    }
  }

  /** A string without the separator splits into itself alone. */
  lemma SplitWithoutSeparator(s: string, sep: char)
    ensures sep !in s ==> Split(s, sep) == [s]
  {
    if sep !in s {
      SplitPrefix(s, "", sep);
      assert s + "" == s;
    }
  }

  /** Splitting pieces that were joined with the separator gives the pieces back. */
  lemma {:induction false} SplitJoin(parts: seq<string>, sep: char)
    requires |parts| >= 1
    requires forall k :: 0 <= k < |parts| ==> sep !in parts[k]
    ensures Split(Join(parts, sep), sep) == parts
    decreases |parts|
  {
    if |parts| == 1 {
      SplitPrefix(parts[0], "", sep);
      assert parts[0] + "" == parts[0];
    } else {
      SplitJoin(parts[1..], sep);
      var tail := Join(parts[1..], sep);
      assert Join(parts, sep) == parts[0] + ([sep] + tail);
      assert ([sep] + tail)[1..] == tail;
      assert Split([sep] + tail, sep) == [""] + parts[1..];
      SplitPrefix(parts[0], [sep] + tail, sep);
      assert parts[0] + "" == parts[0];
      assert parts == [parts[0]] + parts[1..];
    }
  }

  predicate IsDigit(c: char) { '0' <= c <= '9' }

  function DigitChar(d: nat): (c: char)
    requires d < 10
    ensures IsDigit(c) && c as int - '0' as int == d
  {
    ('0' as int + d) as char
  }

  /**
   * The decimal digits a template literal shows for a non-negative
   * integer: no leading zero except for zero itself.
   */
  function DecimalDigits(n: nat): (d: string)
    ensures |d| >= 1
    ensures forall k :: 0 <= k < |d| ==> IsDigit(d[k])
    ensures |d| == 1 || d[0] != '0'
    ensures d == "0" <==> n == 0
    decreases n
  {
    if n < 10 then [DigitChar(n)] else DecimalDigits(n / 10) + [DigitChar(n % 10)]
  }

  /** Reads a string of decimal digits back as a number. */
  function ParseDecimal(d: string): nat
    requires forall k :: 0 <= k < |d| ==> IsDigit(d[k])
    decreases |d|
  {
    if d == [] then 0
    else
      assert IsDigit(d[|d| - 1]);
      10 * ParseDecimal(d[..|d| - 1]) + (d[|d| - 1] as int - '0' as int)
  }

  /** Reading the digits back gives the number. */
  lemma {:induction false} ParseDecimalDigits(n: nat)
    ensures ParseDecimal(DecimalDigits(n)) == n
    decreases n
  {
    if n >= 10 {
      ParseDecimalDigits(n / 10);
      var d := DecimalDigits(n);
      assert d[..|d| - 1] == DecimalDigits(n / 10);
    }
  }

  /** Different numbers are rendered as different digit strings. */
  lemma DecimalDigitsInjective(a: nat, b: nat)
    requires DecimalDigits(a) == DecimalDigits(b)
    ensures a == b
  {
    ParseDecimalDigits(a);
    ParseDecimalDigits(b);
  }
}
