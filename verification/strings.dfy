/** Text operations the backend relies on: lower-casing, decimal printing of
    ids, and Python's `str.split` / `str.replace` with a non-empty separator. */
module Strings {

  // ---------------------------------------------------------------------------
  // Lower-casing
  // ---------------------------------------------------------------------------

  /** `str.lower` on one character, for ASCII and the basic Cyrillic block. */
  function LowerChar(c: char): char
  {
    if 'A' <= c <= 'Z' then (c as int + 32) as char
    else if 'А' <= c <= 'Я' then (c as int + 32) as char
    else if 'Ѐ' <= c <= 'Џ' then (c as int + 80) as char
    else c
  }

  /** A string that lower-casing leaves as it is. */
  predicate IsLower(s: string)
  {
    forall i :: 0 <= i < |s| ==> LowerChar(s[i]) == s[i]
  }

  /** `s.lower()`: same length, every character lower-cased, and the result is
      already in lower case (lower-casing is idempotent). */
  function Lower(s: string): (r: string)
    ensures |r| == |s|
    ensures forall i :: 0 <= i < |s| ==> r[i] == LowerChar(s[i])
    ensures IsLower(r)
    ensures IsLower(s) ==> r == s
  {
    seq(|s|, i requires 0 <= i < |s| => LowerChar(s[i]))
  }

  // ---------------------------------------------------------------------------
  // Decimal printing, as an f-string prints an int
  // ---------------------------------------------------------------------------

  predicate IsDigit(c: char)
  {
    '0' <= c <= '9'
  }

  function DigitChar(d: nat): (c: char)
    requires d < 10
    ensures IsDigit(c) && c as int - '0' as int == d
  {
    "0123456789"[d]
  }

  function NatToString(n: nat): (s: string)
    ensures 1 <= |s|
    ensures forall i :: 0 <= i < |s| ==> IsDigit(s[i])
    ensures |s| == 1 <==> n < 10
  {
    if n < 10 then [DigitChar(n)] else NatToString(n / 10) + [DigitChar(n % 10)]
  }

  /** `str(i)` for a Python int: an optional minus sign, then the digits. */
  function IntToString(i: int): (s: string)
    ensures 1 <= |s|
    ensures s[0] == '-' <==> i < 0
    ensures forall k :: 0 < k < |s| ==> IsDigit(s[k])
  {
    if i < 0 then "-" + NatToString(-i) else NatToString(i)
  }

  /** Distinct naturals print differently. */
  lemma {:induction false} NatToStringInjective(a: nat, b: nat)
    requires NatToString(a) == NatToString(b)
    ensures a == b
  {
    if a >= 10 && b >= 10 {
      var sa, sb := NatToString(a), NatToString(b);
      assert sa[..|sa| - 1] == NatToString(a / 10);
      assert sb[..|sb| - 1] == NatToString(b / 10);
      NatToStringInjective(a / 10, b / 10);
      assert DigitChar(a % 10) == sa[|sa| - 1] == DigitChar(b % 10);
    } else if a < 10 && b < 10 {
      assert DigitChar(a) == NatToString(a)[0];
    }
  }

  /** Distinct ints print differently, so a key built from an id names it. */
  lemma IntToStringInjective(a: int, b: int)
    requires IntToString(a) == IntToString(b)
    ensures a == b
  {
    if a < 0 && b < 0 {
      assert IntToString(a)[1..] == NatToString(-a);
      assert IntToString(b)[1..] == NatToString(-b);
      NatToStringInjective(-a, -b);
    } else if a >= 0 && b >= 0 {
      NatToStringInjective(a, b);
    }
  }

  /** Equal strings that share a prefix and a suffix agree in between. */
  lemma Unwrap(pre: string, x: string, y: string, post: string)
    requires pre + x + post == pre + y + post
    ensures x == y
  {
    var s1, s2 := pre + x + post, pre + y + post;
    assert |x| == |y|;
    assert x == s1[|pre|..|pre| + |x|];
    assert y == s2[|pre|..|pre| + |y|];
  }

  // ---------------------------------------------------------------------------
  // Occurrences, split and replace
  // ---------------------------------------------------------------------------

  /** `pat` occurs in `s` starting at index `i`. */
  predicate OccursAt(s: string, pat: string, i: nat)
  {
    i + |pat| <= |s| && s[i..i + |pat|] == pat
  }

  /** `pat not in s`. */
  predicate Free(s: string, pat: string)
  {
    forall i: nat :: i <= |s| ==> !OccursAt(s, pat, i)
  }

  /** `s.split(pat)`: the pieces between the leftmost non-overlapping
      occurrences of `pat`. The first piece is a prefix of `s`, and no piece
      contains `pat`. */
  function SplitOn(s: string, pat: string): (parts: seq<string>)
    requires |pat| > 0
    ensures 1 <= |parts|
    ensures parts[0] <= s
    ensures forall k :: 0 <= k < |parts| ==> Free(parts[k], pat)
    decreases |s|
  {
    if |s| < |pat| then
      assert Free(s, pat);
      [s]
    else if s[..|pat|] == pat then
      [""] + SplitOn(s[|pat|..], pat)
    else
      var r := SplitOn(s[1..], pat);
      var head := [s[0]] + r[0];
      assert Free(head, pat) by {
        forall i: nat
          ensures !OccursAt(head, pat, i)
        {
          if i == 0 && |pat| <= |head| {
            assert head[..|pat|] == s[..|pat|];
          } else if i > 0 && i + |pat| <= |head| {
            assert head[i..i + |pat|] == r[0][i - 1..i - 1 + |pat|];
            assert !OccursAt(r[0], pat, i - 1);
          }
        }
      }
      [head] + r[1..]
  }

  /** `sep.join(parts)`. */
  function Join(parts: seq<string>, sep: string): string
    requires 1 <= |parts|
  {
    if |parts| == 1 then parts[0] else parts[0] + sep + Join(parts[1..], sep)
  }

  lemma JoinConsHead(c: char, parts: seq<string>, sep: string)
    requires 1 <= |parts|
    ensures Join([[c] + parts[0]] + parts[1..], sep) == [c] + Join(parts, sep)
  {
    var ps := [[c] + parts[0]] + parts[1..];
    if |parts| > 1 {
      assert ps[1..] == parts[1..];
    }
  }

  /** `s.replace(pat, rep)`: scans left to right and swaps each
      non-overlapping occurrence of `pat` for `rep`. */
  function ReplaceAll(s: string, pat: string, rep: string): string
    requires |pat| > 0
    decreases |s|
  {
    if |s| < |pat| then s
    else if s[..|pat|] == pat then rep + ReplaceAll(s[|pat|..], pat, rep)
    else [s[0]] + ReplaceAll(s[1..], pat, rep)
  }

  /** Splitting on `pat` and joining with `pat` gives back the text. */
  lemma {:induction false} SplitJoinRoundTrip(s: string, pat: string)
    requires |pat| > 0
    ensures Join(SplitOn(s, pat), pat) == s
    decreases |s|
  {
    if |s| < |pat| {
    } else if s[..|pat|] == pat {
      SplitJoinRoundTrip(s[|pat|..], pat);
      assert s == pat + s[|pat|..];
    } else {
      var r := SplitOn(s[1..], pat);
      SplitJoinRoundTrip(s[1..], pat);
      JoinConsHead(s[0], r, pat);
      assert s == [s[0]] + s[1..];
    }
  }

  /** `replace` is split followed by join with the replacement: every
      occurrence is swapped and the pieces in between are kept as they were. */
  lemma {:induction false} ReplaceIsSplitJoin(s: string, pat: string, rep: string)
    requires |pat| > 0
    ensures ReplaceAll(s, pat, rep) == Join(SplitOn(s, pat), rep)
    decreases |s|
  {
    if |s| < |pat| {
    } else if s[..|pat|] == pat {
      ReplaceIsSplitJoin(s[|pat|..], pat, rep);
    } else {
      ReplaceIsSplitJoin(s[1..], pat, rep);
      JoinConsHead(s[0], SplitOn(s[1..], pat), rep);
    }
  }

  /** Text that does not contain `pat` is one piece. */
  lemma {:induction false} SplitFree(s: string, pat: string)
    requires |pat| > 0
    requires Free(s, pat)
    ensures SplitOn(s, pat) == [s]
    decreases |s|
  {
    if |s| < |pat| {
    } else if s[..|pat|] == pat {
      assert OccursAt(s, pat, 0);
    } else {
      assert Free(s[1..], pat) by {
        forall i: nat
          ensures !OccursAt(s[1..], pat, i)
        {
          if OccursAt(s[1..], pat, i) {
            assert s[i + 1..i + 1 + |pat|] == s[1..][i..i + |pat|];
            assert OccursAt(s, pat, i + 1);
          }
        }
      }
      SplitFree(s[1..], pat);
      assert [s[0]] + s[1..] == s;
    }
  }

  /** Replacing a pattern the text does not contain changes nothing. */
  lemma ReplaceAbsent(s: string, pat: string, rep: string)
    requires |pat| > 0
    requires Free(s, pat)
    ensures ReplaceAll(s, pat, rep) == s
  {
    ReplaceIsSplitJoin(s, pat, rep);
    SplitFree(s, pat);
  }

  /** Splitting on a one-character separator distributes over text joined by
      that separator. */
  lemma {:induction false} SplitAppend(a: string, pat: string, b: string)
    requires |pat| == 1
    ensures SplitOn(a + pat + b, pat) == SplitOn(a, pat) + SplitOn(b, pat)
    decreases |a|
  {
    var s := a + pat + b;
    if a == [] {
      assert s[..1] == pat && s[1..] == b;
    } else {
      assert s[1..] == a[1..] + pat + b;
      SplitAppend(a[1..], pat, b);
      if a[..1] == pat {
        assert s[..1] == pat;
      } else {
        assert s[..1] == a[..1];
        var ra := SplitOn(a[1..], pat);
        assert ([[a[0]] + ra[0]] + (ra + SplitOn(b, pat))[1..]) == ([[a[0]] + ra[0]] + ra[1..]) + SplitOn(b, pat);
      }
    }
  }
}
