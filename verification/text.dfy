/**
 * Strings as Python compares, lowers, searches and formats them: the
 * ordering `sorted()` uses, ASCII lower-casing, substring search and
 * zero-padded decimal digits (the `%Y`, `%m` and `%y` directives).
 */
module Text {
  import opened Order

  /** Python's `str` `<`: lexicographic by code point, a proper prefix first. */
  predicate LexLess(a: string, b: string)
    decreases |a|
  {
    |b| > 0 && (|a| == 0 || a[0] < b[0] || (a[0] == b[0] && LexLess(a[1..], b[1..])))
  }

  lemma {:induction false} LexLessIrreflexive(a: string)
    ensures !LexLess(a, a)
    decreases |a|
  {
    if |a| > 0 {
      LexLessIrreflexive(a[1..]);
    }
  }

  lemma {:induction false} LexLessTransitive(a: string, b: string, c: string)
    requires LexLess(a, b) && LexLess(b, c)
    ensures LexLess(a, c)
    decreases |a|
  {
    if |a| > 0 && a[0] == b[0] && b[0] == c[0] {
      LexLessTransitive(a[1..], b[1..], c[1..]);
    }
  }

  lemma {:induction false} LexLessTotal(a: string, b: string)
    requires a != b
    ensures LexLess(a, b) || LexLess(b, a)
    decreases |a|
  {
    if |a| > 0 && |b| > 0 && a[0] == b[0] {
      assert a == [a[0]] + a[1..] && b == [b[0]] + b[1..];
      LexLessTotal(a[1..], b[1..]);
    }
  }

  lemma LexLessIsStrictTotal()
    ensures StrictTotalOrder(LexLess)
  {
    forall a: string
      ensures !LexLess(a, a)
    {
      LexLessIrreflexive(a);
    }
    forall a: string, b: string, c: string | LexLess(a, b) && LexLess(b, c)
      ensures LexLess(a, c)
    {
      LexLessTransitive(a, b, c);
    }
    forall a: string, b: string | a != b
      ensures LexLess(a, b) || LexLess(b, a)
    {
      LexLessTotal(a, b);
    }
  }

  /** Comparing two strings whose heads have equal length compares the heads first. */
  lemma {:induction false} LexLessAppend(x: string, u: string, y: string, v: string)
    requires |x| == |y|
    ensures LexLess(x + u, y + v) <==> LexLess(x, y) || (x == y && LexLess(u, v))
    decreases |x|
  {
    if |x| == 0 {
      assert x + u == u && y + v == v;
    } else {
      assert (x + u)[0] == x[0] && (x + u)[1..] == x[1..] + u;
      assert (y + v)[0] == y[0] && (y + v)[1..] == y[1..] + v;
      assert x == [x[0]] + x[1..] && y == [y[0]] + y[1..];
      LexLessAppend(x[1..], u, y[1..], v);
    }
  }

  /** Python's tuple `<` on (label, type) pairs, the order of a two-key `groupby`. */
  predicate PairLess(p: (string, string), q: (string, string))
  {
    LexLess(p.0, q.0) || (p.0 == q.0 && LexLess(p.1, q.1))
  }

  lemma PairLessTransitive(p: (string, string), q: (string, string), r: (string, string))
    requires PairLess(p, q) && PairLess(q, r)
    ensures PairLess(p, r)
  {
    if LexLess(p.0, q.0) && LexLess(q.0, r.0) {
      LexLessTransitive(p.0, q.0, r.0);
    } else if p.0 == q.0 && q.0 == r.0 {
      LexLessTransitive(p.1, q.1, r.1);
    }
  }

  lemma PairLessIsStrictTotal()
    ensures StrictTotalOrder(PairLess)
  {
    LexLessIsStrictTotal();
  }

  /** Python's tuple `<` on (number, type) pairs. */
  predicate IntTextLess(p: (int, string), q: (int, string))
  {
    p.0 < q.0 || (p.0 == q.0 && LexLess(p.1, q.1))
  }

  lemma IntTextLessIsStrictTotal()
    ensures StrictTotalOrder(IntTextLess)
  {
    LexLessIsStrictTotal();
  }

  /** `str.lower()` on the ASCII letters; every other character is kept. */
  function LowerChar(c: char): char
  {
    if 'A' <= c <= 'Z' then (c as int + 32) as char else c
  }

  function Lower(s: string): (r: string)
    ensures |r| == |s|
    ensures forall i :: 0 <= i < |s| ==> r[i] == LowerChar(s[i])
  {
    if |s| == 0 then "" else [LowerChar(s[0])] + Lower(s[1..])
  }

  /** `sub in s` for strings. */
  predicate Contains(s: string, sub: string)
    decreases |s|
  {
    (|sub| <= |s| && s[..|sub|] == sub) || (|s| > 0 && Contains(s[1..], sub))
  }

  function Pow10(w: nat): (p: nat)
    ensures p >= 1
  {
    if w == 0 then 1 else 10 * Pow10(w - 1)
  }

  function DigitChar(i: int): char
    requires 0 <= i < 10
  {
    ('0' as int + i) as char
  }

  /** `n` written in exactly `w` decimal digits, zero-padded on the left. */
  function PadDigits(n: nat, w: nat): (s: string)
    requires n < Pow10(w)
    ensures |s| == w
  {
    if w == 0 then "" else PadDigits(n / 10, w - 1) + [DigitChar(n % 10)]
  }

  /** Zero-padded numerals of one width sort, as strings, exactly as the numbers do. */
  lemma {:induction false} PadDigitsOrder(n: nat, m: nat, w: nat)
    requires n < Pow10(w) && m < Pow10(w)
    ensures LexLess(PadDigits(n, w), PadDigits(m, w)) <==> n < m
    ensures PadDigits(n, w) == PadDigits(m, w) <==> n == m
  {
    if w > 0 {
      var hn, hm := PadDigits(n / 10, w - 1), PadDigits(m / 10, w - 1);
      PadDigitsOrder(n / 10, m / 10, w - 1);
      LexLessAppend(hn, [DigitChar(n % 10)], hm, [DigitChar(m % 10)]);
      assert LexLess([DigitChar(n % 10)], [DigitChar(m % 10)]) <==> n % 10 < m % 10;
      if PadDigits(n, w) == PadDigits(m, w) {
        assert hn == PadDigits(n, w)[..w - 1] && hm == PadDigits(m, w)[..w - 1];
        assert PadDigits(n, w)[w - 1] == DigitChar(n % 10) && PadDigits(m, w)[w - 1] == DigitChar(m % 10);
      }
    }
  }
}
