/** Character and string helpers shared by the server and the dashboard:
    decimal rendering of ids, ASCII lower-casing, substring search and the
    whitespace trimming of JavaScript's String.prototype.trim. */
module Text {

  // ---------------------------------------------------------------------
  // Decimal rendering, as Python's f'{n}' and a JavaScript template do for
  // a non-negative integer.
  // ---------------------------------------------------------------------

  predicate IsDigit(c: char) { '0' <= c <= '9' }

  function DigitChar(d: nat): (c: char)
    requires d < 10
    ensures IsDigit(c) && c as int - '0' as int == d
  {
    ('0' as int + d) as char
  }

  /** The decimal numeral of `n`, without leading zeros. */
  function Decimal(n: nat): (r: string)
    ensures 1 <= |r|
    ensures forall i :: 0 <= i < |r| ==> IsDigit(r[i])
    ensures (|r| == 1) == (n < 10)
    ensures r[|r| - 1] == DigitChar(n % 10)
    decreases n
  {
    if n < 10 then [DigitChar(n)] else Decimal(n / 10) + [DigitChar(n % 10)]
  }

  /** Distinct numbers have distinct numerals, so ids built from them differ. */
  lemma {:induction false} DecimalInjective(m: nat, n: nat)
    requires Decimal(m) == Decimal(n)
    ensures m == n
    decreases m
  {
    var dm, dn := Decimal(m), Decimal(n);
    assert m % 10 == n % 10 by {
      assert dm[|dm| - 1] == dn[|dn| - 1];
    }
    if m >= 10 {
      assert n >= 10;
      assert Decimal(m / 10) == dm[..|dm| - 1] == dn[..|dn| - 1] == Decimal(n / 10);
      DecimalInjective(m / 10, n / 10);
    }
  }

  /** Ids made of a fixed prefix and a numeral, such as V1000 or A1003,
      are equal only for equal numbers. */
  lemma PrefixedDecimalInjective(prefix: string, m: nat, n: nat)
    requires prefix + Decimal(m) == prefix + Decimal(n)
    ensures m == n
  {
    assert Decimal(m) == (prefix + Decimal(m))[|prefix|..];
    assert Decimal(n) == (prefix + Decimal(n))[|prefix|..];
    DecimalInjective(m, n);
  }

  // ---------------------------------------------------------------------
  // ASCII lower-casing (str.lower() / toLowerCase() restricted to ASCII).
  // ---------------------------------------------------------------------

  predicate IsUpperAscii(c: char) { 'A' <= c <= 'Z' }

  function LowerChar(c: char): (r: char)
    ensures IsUpperAscii(c) ==> r as int == c as int + 32
    ensures !IsUpperAscii(c) ==> r == c
    ensures !IsUpperAscii(r)
  {
    if IsUpperAscii(c) then (c as int + 32) as char else c
  }

  function Lower(s: string): (r: string)
    ensures |r| == |s|
    ensures forall i :: 0 <= i < |s| ==> r[i] == LowerChar(s[i])
  {
    if s == [] then [] else [LowerChar(s[0])] + Lower(s[1..])
  }

  /** Text without upper-case ASCII letters is its own lower-case form. */
  lemma LowerOfLowercase(s: string)
    requires forall i :: 0 <= i < |s| ==> !IsUpperAscii(s[i])
    ensures Lower(s) == s
  {
  }

  /** Character-wise agreement determines the lower-case form. */
  lemma LowerTo(s: string, t: string)
    requires |s| == |t| && forall i :: 0 <= i < |s| ==> LowerChar(s[i]) == t[i]
    ensures Lower(s) == t
  {
  }

  /** Lower-casing twice is lower-casing once. */
  lemma LowerIdempotent(s: string)
    ensures Lower(Lower(s)) == Lower(s)
  {
  }

  // ---------------------------------------------------------------------
  // Substring search: Python's `key in s`, JavaScript's s.includes(key).
  // ---------------------------------------------------------------------

  predicate StartsWith(s: string, prefix: string)
  {
    |prefix| <= |s| && s[..|prefix|] == prefix
  }

  /** `key` occurs somewhere in `s` (the empty key occurs in every string). */
  predicate Contains(s: string, key: string)
    ensures Contains(s, key) ==> |key| <= |s|
    ensures key == [] ==> Contains(s, key)
    decreases |s|
  {
    StartsWith(s, key) || (|s| > 0 && Contains(s[1..], key))
  }

  /** The position-based reading of substring search. */
  ghost predicate OccursAt(s: string, key: string, p: int)
  {
    0 <= p && p + |key| <= |s| && s[p..p + |key|] == key
  }

  /** Contains agrees with "there is a position where the key occurs". */
  lemma {:induction false} ContainsIffOccurs(s: string, key: string)
    ensures Contains(s, key) <==> exists p :: OccursAt(s, key, p)
    decreases |s|
  {
    if Contains(s, key) {
      if StartsWith(s, key) {
        assert OccursAt(s, key, 0);
      } else {
        ContainsIffOccurs(s[1..], key);
        var p :| OccursAt(s[1..], key, p);
        assert s[1..][p..p + |key|] == s[p + 1..p + 1 + |key|];
        assert OccursAt(s, key, p + 1);
      }
    }
    if p :| OccursAt(s, key, p) {
      if p == 0 {
        assert StartsWith(s, key);
      } else {
        assert s[1..][p - 1..p - 1 + |key|] == s[p..p + |key|];
        assert OccursAt(s[1..], key, p - 1);
        ContainsIffOccurs(s[1..], key);
      }
    }
  }

  /** One mismatching character rules out an occurrence at `p`. */
  lemma MismatchAt(s: string, key: string, p: int, j: int)
    requires 0 <= p && 0 <= j < |key| && p + j < |s| && s[p + j] != key[j]
    ensures !OccursAt(s, key, p)
  {
    if p + |key| <= |s| {
      assert s[p..p + |key|][j] == s[p + j];
    }
  }

  /** A key whose first character never appears in the text is absent. */
  lemma FirstCharAbsent(s: string, key: string)
    requires |key| > 0 && key[0] !in s
    ensures !Contains(s, key)
  {
    forall p | 0 <= p && p + |key| <= |s|
      ensures !OccursAt(s, key, p)
    {
      MismatchAt(s, key, p, 0);
    }
    ContainsIffOccurs(s, key);
  }

  /** A key longer than the text cannot occur in it. */
  lemma {:induction false} LongKeyAbsent(s: string, key: string)
    requires |s| < |key|
    ensures !Contains(s, key)
    decreases |s|
  {
    if |s| > 0 {
      LongKeyAbsent(s[1..], key);
    }
  }

  /** Equal texts with the same prefix and suffix have the same middle. */
  lemma AffixCancel(pre: string, a: string, b: string, post: string)
    requires pre + a + post == pre + b + post
    ensures a == b
  {
    var x := pre + a + post;
    assert |a| == |b|;
    assert a == x[|pre|..|pre| + |a|];
  }

  /** A text contains each of its factors. */
  lemma FactorContained(pre: string, key: string, post: string)
    ensures Contains(pre + key + post, key)
  {
    assert StartsWith(key, key);
    ContainsInLonger(pre, key, post, key);
  }

  /** Text that contains `s` as a factor contains every key `s` contains. */
  lemma {:induction false} ContainsInLonger(pre: string, s: string, post: string, key: string)
    requires Contains(s, key)
    ensures Contains(pre + s + post, key)
  {
    ContainsIffOccurs(s, key);
    var p :| OccursAt(s, key, p);
    var t := pre + s + post;
    assert t[|pre| + p..|pre| + p + |key|] == s[p..p + |key|];
    assert OccursAt(t, key, |pre| + p);
    ContainsIffOccurs(t, key);
  }

  // ---------------------------------------------------------------------
  // JavaScript's trim(): the WhiteSpace and LineTerminator code points of
  // ECMAScript (section 12.2 and 12.3 of ECMA-262), from both ends.
  // ---------------------------------------------------------------------

  predicate IsJsSpace(c: char)
  {
    // tab, line feed, vertical tab, form feed, carriage return, space
    c == '\t' || c == '\n' || c == '\U{B}' || c == '\U{C}' || c == '\r' || c == ' '
    // no-break space, ogham space mark, en quad .. hair space
    || c == '\U{A0}' || c == '\U{1680}' || ('\U{2000}' <= c <= '\U{200A}')
    // line and paragraph separators, narrow no-break, medium mathematical, ideographic space
    || c == '\U{2028}' || c == '\U{2029}' || c == '\U{202F}' || c == '\U{205F}' || c == '\U{3000}'
    // zero width no-break space (byte order mark)
    || c == '\U{FEFF}'
  }

  function TrimStart(s: string): (r: string)
    ensures |r| <= |s| && r == s[|s| - |r|..]
    ensures r == [] || !IsJsSpace(r[0])
    ensures forall i :: 0 <= i < |s| - |r| ==> IsJsSpace(s[i])
  {
    if s != [] && IsJsSpace(s[0]) then TrimStart(s[1..]) else s
  }

  function TrimEnd(s: string): (r: string)
    ensures |r| <= |s| && r == s[..|r|]
    ensures r == [] || !IsJsSpace(r[|r| - 1])
    ensures forall i :: |r| <= i < |s| ==> IsJsSpace(s[i])
  {
    if s != [] && IsJsSpace(s[|s| - 1]) then TrimEnd(s[..|s| - 1]) else s
  }

  function Trim(s: string): (r: string)
    ensures |r| <= |s|
    ensures r == [] || (!IsJsSpace(r[0]) && !IsJsSpace(r[|r| - 1]))
  {
    TrimEnd(TrimStart(s))
  }

  /** Every character of `s` is JavaScript whitespace. */
  ghost predicate AllSpace(s: string)
  {
    forall i :: 0 <= i < |s| ==> IsJsSpace(s[i])
  }

  /** `!s.trim()` holds exactly for the strings made only of whitespace. */
  lemma TrimEmptyIffAllSpace(s: string)
    ensures Trim(s) == [] <==> AllSpace(s)
  {
    var t := TrimStart(s);
    if !AllSpace(s) {
      var i :| 0 <= i < |s| && !IsJsSpace(s[i]);
      assert t[i - (|s| - |t|)] == s[i];
    }
  }

  /** JavaScript's `!s.trim()`: the trimmed text is empty, which is to say
      the text is made of whitespace only. */
  predicate IsBlank(s: string)
    ensures IsBlank(s) <==> AllSpace(s)
  {
    TrimEmptyIffAllSpace(s);
    Trim(s) == []
  }
}
