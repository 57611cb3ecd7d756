/** The string operations the pages rely on, with JavaScript's meaning on
    strings of code points: the `<` and `<=` comparison of two strings,
    `replace(/\D/g, "")`, `parseInt` of a digit string, `toUpperCase` and
    `substring`. */
module Text {
  import opened Seqs

  // ---------------------------------------------------------------------------
  // String order
  // ---------------------------------------------------------------------------

  /** JavaScript's `a < b` on strings: characters compared left to right,
      a proper prefix sorting first. */
  predicate LexLess(a: string, b: string)
    decreases |a|
    ensures |a| < |b| && a == b[..|a|] ==> LexLess(a, b)
    ensures LexLess(a, b) ==> b != []
  {
    if b == [] then false
    else if a == [] then true
    else if a[0] != b[0] then a[0] < b[0]
    else
      assert |a| < |b| && a == b[..|a|] ==> a[1..] == b[1..][..|a| - 1];
      LexLess(a[1..], b[1..])
  }

  lemma {:induction false} LexLessIrreflexive(a: string)
    ensures !LexLess(a, a)
  {
    if a != [] {
      LexLessIrreflexive(a[1..]);
    }
  }

  lemma {:induction false} LexLessTransitive(a: string, b: string, c: string)
    requires LexLess(a, b) && LexLess(b, c)
    ensures LexLess(a, c)
  {
    if a != [] && a[0] == b[0] && b[0] == c[0] {
      LexLessTransitive(a[1..], b[1..], c[1..]);
    }
  }

  /** Any two strings are equal or ordered one way or the other. */
  lemma {:induction false} LexLessTotal(a: string, b: string)
    ensures LexLess(a, b) || a == b || LexLess(b, a)
  {
    if a != [] && b != [] && a[0] == b[0] {
      LexLessTotal(a[1..], b[1..]);
      if a[1..] == b[1..] {
        assert a == [a[0]] + a[1..] && b == [b[0]] + b[1..];
      }
    }
  }

  /** `<` never holds both ways. */
  lemma LexLessAsymmetric(a: string, b: string)
    ensures LexLess(a, b) ==> !LexLess(b, a)
  {
    if LexLess(a, b) && LexLess(b, a) {
      LexLessTransitive(a, b, a);
      LexLessIrreflexive(a);
    }
  }

  /** JavaScript's `a <= b` on strings, which it evaluates as `!(b < a)`: by the
      lemmas above, `<` or equality. */
  predicate LexLessEq(a: string, b: string)
    ensures LexLessEq(a, b) <==> LexLess(a, b) || a == b
  {
    LexLessTotal(a, b);
    LexLessAsymmetric(a, b);
    LexLessIrreflexive(a);
    !LexLess(b, a)
  }

  /** `a < b` as the definition of string comparison puts it: `a` is a proper
      prefix of `b`, or at the first position where they differ `a` has the
      smaller character. */
  lemma {:induction false} LexLessFirstDifference(a: string, b: string)
    ensures LexLess(a, b) <==>
      || (|a| < |b| && a == b[..|a|])
      || exists k :: 0 <= k < |a| && k < |b| && a[..k] == b[..k] && a[k] < b[k]
  {
    if a != [] && b != [] {
      if a[0] != b[0] {
        forall k | 0 < k < |a| && k < |b| ensures a[..k] != b[..k] {
          assert a[..k][0] == a[0] && b[..k][0] == b[0];
        }
        assert a[..0] == b[..0];
        if |a| < |b| && a == b[..|a|] {
          assert a[0] == b[..|a|][0];
        }
      } else {
        LexLessFirstDifference(a[1..], b[1..]);
        if |a| < |b| && a == b[..|a|] {
          assert a[1..] == b[1..][..|a| - 1];
        }
        if |a| - 1 < |b| - 1 && a[1..] == b[1..][..|a| - 1] {
          assert a == [a[0]] + a[1..] && b[..|a|] == [b[0]] + b[1..][..|a| - 1];
        }
        forall k | 0 <= k < |a| - 1 && k < |b| - 1 && a[1..][..k] == b[1..][..k] && a[1..][k] < b[1..][k]
          ensures 0 <= k + 1 < |a| && k + 1 < |b| && a[..k + 1] == b[..k + 1] && a[k + 1] < b[k + 1]
        {
          assert a[..k + 1] == [a[0]] + a[1..][..k] && b[..k + 1] == [b[0]] + b[1..][..k];
        }
        forall k | 0 < k < |a| && k < |b| && a[..k] == b[..k] && a[k] < b[k]
          ensures 0 <= k - 1 < |a| - 1 && k - 1 < |b| - 1 && a[1..][..k - 1] == b[1..][..k - 1]
            && a[1..][k - 1] < b[1..][k - 1]
        {
          assert a[1..][..k - 1] == a[..k][1..] && b[1..][..k - 1] == b[..k][1..];
        }
        assert a[0] == b[0] ==> !(a[0] < b[0]);
      }
    } else if a == [] {
      assert a == b[..0];
    }
  }

  /** With two equally long leading parts, the leading parts decide first. */
  lemma {:induction false} LexLessConcat(a: string, b: string, c: string, d: string)
    requires |a| == |c|
    ensures LexLess(a + b, c + d) <==> LexLess(a, c) || (a == c && LexLess(b, d))
  {
    if a == [] {
      assert a + b == b && c + d == d;
    } else {
      assert (a + b)[1..] == a[1..] + b && (c + d)[1..] == c[1..] + d;
      LexLessConcat(a[1..], b, c[1..], d);
      if a[0] == c[0] && a[1..] == c[1..] {
        assert a == [a[0]] + a[1..] && c == [c[0]] + c[1..];
      }
    }
  }

  // ---------------------------------------------------------------------------
  // Digits
  // ---------------------------------------------------------------------------

  /** What the regular-expression class `\d` matches. */
  predicate IsDigit(c: char)
  {
    '0' <= c <= '9'
  }

  predicate AllDigits(s: string)
  {
    forall i :: 0 <= i < |s| ==> IsDigit(s[i])
  }

  /** `s.replace(/\D/g, "")`: every character that is not a digit removed. */
  function StripNonDigits(s: string): (r: string)
    ensures AllDigits(r)
    ensures |r| <= |s|
  {
    Filter(s, IsDigit)
  }

  /** Stripping keeps exactly the digits, as many times and in the order they occur:
      a digit string is kept whole, a non-digit vanishes, and pieces strip separately. */
  lemma StripNonDigitsSpec(s: string, t: string, c: char)
    ensures AllDigits(s) ==> StripNonDigits(s) == s
    ensures !IsDigit(c) ==> StripNonDigits([c]) == []
    ensures StripNonDigits(s + t) == StripNonDigits(s) + StripNonDigits(t)
  {
    if AllDigits(s) {
      FilterAll(s, IsDigit);
    }
    FilterConcat(s, t, IsDigit);
  }

  /** Stripping twice is stripping once. */
  lemma StripNonDigitsIdempotent(s: string)
    ensures StripNonDigits(StripNonDigits(s)) == StripNonDigits(s)
  {
    FilterIdempotent(s, IsDigit);
  }

  function DigitValue(c: char): (d: nat)
    requires IsDigit(c)
    ensures d <= 9
  {
    (c as int) - ('0' as int)
  }

  function Pow10(n: nat): (p: nat)
    ensures p >= 1
  {
    if n == 0 then 1 else 10 * Pow10(n - 1)
  }

  /** `parseInt` of a string of decimal digits (0 for the empty string). */
  function DigitsValue(s: string): (v: nat)
    requires AllDigits(s)
    ensures v < Pow10(|s|)
  {
    if s == [] then 0
    else
      var p := Pow10(|s| - 1);
      var d := DigitValue(s[0]);
      var rest := DigitsValue(s[1..]);
      assert d * p + rest < Pow10(|s|) by {
        assert Pow10(|s|) == 10 * p;
        MulStep(d, 9, p);
      }
      d * p + rest
  }

  lemma MulStep(x: nat, y: nat, p: nat)
    requires x <= y
    ensures x * p + p <= (y + 1) * p
  {
    assert (y + 1) * p == y * p + p;
    assert x * p <= y * p;
  }

  /** On digit strings of one length, string order is numeric order. */
  lemma {:induction false} DigitsOrder(a: string, b: string)
    requires AllDigits(a) && AllDigits(b) && |a| == |b|
    ensures LexLess(a, b) <==> DigitsValue(a) < DigitsValue(b)
  {
    if a != [] {
      var p := Pow10(|a| - 1);
      var da, db := DigitValue(a[0]), DigitValue(b[0]);
      assert DigitsValue(a) == da * p + DigitsValue(a[1..]);
      assert DigitsValue(b) == db * p + DigitsValue(b[1..]);
      if da < db {
        MulStep(da, db - 1, p);
      } else if db < da {
        MulStep(db, da - 1, p);
      } else {
        DigitsOrder(a[1..], b[1..]);
      }
    }
  }

  /** Digit strings of one length are equal exactly when their values are. */
  lemma DigitsEqual(a: string, b: string)
    requires AllDigits(a) && AllDigits(b) && |a| == |b|
    ensures a == b <==> DigitsValue(a) == DigitsValue(b)
  {
    LexLessTotal(a, b);
    DigitsOrder(a, b);
    DigitsOrder(b, a);
  }

  // ---------------------------------------------------------------------------
  // Case and substrings
  // ---------------------------------------------------------------------------

  /** `toUpperCase` on one character, for the ASCII letters. */
  function UpperChar(c: char): char
  {
    if 'a' <= c <= 'z' then (c as int - 32) as char else c
  }

  /** `toUpperCase` on a string, character by character. */
  function Upper(s: string): (r: string)
    ensures |r| == |s|
    ensures forall i :: 0 <= i < |s| ==> r[i] == UpperChar(s[i])
  {
    if s == [] then [] else [UpperChar(s[0])] + Upper(s[1..])
  }

  /** `s.substring(start, end)`: both ends clamped to the string, then taken in order. */
  function Substring(s: string, start: nat, end: nat): (r: string)
    ensures |r| <= |s|
    ensures start <= end <= |s| ==> r == s[start..end]
    ensures start <= |s| <= end ==> r == s[start..]
    ensures |s| <= start && |s| <= end ==> r == []
    ensures end <= start <= |s| ==> r == s[end..start]
  {
    var a := if start < |s| then start else |s|;
    var b := if end < |s| then end else |s|;
    if a <= b then s[a..b] else s[b..a]
  }
}
