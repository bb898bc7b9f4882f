/** String helpers shared by the service and the app: substring search as
    JavaScript's `String.prototype.includes` does it, subsequences (what is
    left after deleting characters) and decimal numerals (array index keys). */
module Text {

  /** `p` occurs at the very start of `s`. */
  predicate IsPrefix(p: string, s: string) {
    |p| <= |s| && s[..|p|] == p
  }

  /** `s.includes(p)`: `p` occurs somewhere in `s`. */
  predicate Contains(s: string, p: string)
    decreases |s|
  {
    IsPrefix(p, s) || (s != [] && Contains(s[1..], p))
  }

  /** `p` occurs in `s` starting at index `i`. */
  predicate OccursAt(s: string, p: string, i: nat) {
    i + |p| <= |s| && s[i..i + |p|] == p
  }

  /** Occurrences in the tail of a string are occurrences one place later in the string. */
  lemma OccursShift(s: string, p: string, i: nat)
    requires s != []
    ensures OccursAt(s[1..], p, i) <==> OccursAt(s, p, i + 1)
  {
    if i + 1 + |p| <= |s| {
      assert s[1..][i..i + |p|] == s[i + 1..i + 1 + |p|];
    }
  }

  /** Whether `p` occurs at `i` depends only on the characters up to `i + |p|`. */
  lemma OccursAgree(x: string, y: string, p: string, i: nat)
    requires i + |p| <= |x| && i + |p| <= |y| && x[..i + |p|] == y[..i + |p|]
    ensures OccursAt(x, p, i) <==> OccursAt(y, p, i)
  {
    assert x[i..i + |p|] == x[..i + |p|][i..];
    assert y[i..i + |p|] == y[..i + |p|][i..];
  }

  /** An occurrence fixes every character it covers. */
  lemma OccursChar(s: string, p: string, i: nat, j: nat)
    requires i <= j < i + |p|
    ensures OccursAt(s, p, i) ==> p[j - i] == s[j]
  {
    if OccursAt(s, p, i) {
      assert s[i..i + |p|][j - i] == s[j];
    }
  }

  lemma {:induction false} ContainsIffOccurs(s: string, p: string)
    ensures Contains(s, p) <==> exists i: nat :: OccursAt(s, p, i)
    decreases |s|
  {
    if Contains(s, p) {
      if IsPrefix(p, s) {
        assert OccursAt(s, p, 0);
      } else {
        ContainsIffOccurs(s[1..], p);
        var i: nat :| OccursAt(s[1..], p, i);
        assert s[1..][i..i + |p|] == s[i + 1..i + 1 + |p|];
        assert OccursAt(s, p, i + 1);
      }
    }
    if exists i: nat :: OccursAt(s, p, i) {
      var i: nat :| OccursAt(s, p, i);
      if i == 0 {
        assert IsPrefix(p, s);
      } else {
        assert s[1..][i - 1..i - 1 + |p|] == s[i..i + |p|];
        assert OccursAt(s[1..], p, i - 1);
        ContainsIffOccurs(s[1..], p);
      }
    }
  }

  /** Every occurrence of `p + q` is also an occurrence of `p`. */
  lemma {:induction false} ContainsLonger(s: string, p: string, q: string)
    requires Contains(s, p + q)
    ensures Contains(s, p)
    decreases |s|
  {
    if IsPrefix(p + q, s) {
      assert s[..|p|] == (p + q)[..|p|];
      assert IsPrefix(p, s);
    } else {
      ContainsLonger(s[1..], p, q);
    }
  }

  /** A pattern longer than the string cannot occur in it. */
  lemma {:induction false} TooLongNotContained(s: string, p: string)
    requires |s| < |p|
    ensures !Contains(s, p)
    decreases |s|
  {
    if s != [] {
      TooLongNotContained(s[1..], p);
    }
  }

  /** `sub` is obtained from `s` by deleting characters (order kept). */
  predicate IsSubsequence(sub: string, s: string)
    decreases |s|
  {
    if sub == [] then true
    else if s == [] then false
    else if sub[0] == s[0] then IsSubsequence(sub[1..], s[1..])
    else IsSubsequence(sub, s[1..])
  }

  lemma {:induction false} SubsequenceOfLonger(sub: string, d: string, s: string)
    requires IsSubsequence(sub, s)
    ensures IsSubsequence(sub, d + s)
    decreases |d|
  {
    if d != [] {
      SubsequenceOfLonger(sub, d[1..], s);
      assert d + s == [d[0]] + (d[1..] + s);
      SubsequenceCons(sub, d[0], d[1..] + s);
    } else {
      assert d + s == s;
    }
  }

  lemma {:induction false} SubsequenceCons(sub: string, c: char, s: string)
    requires IsSubsequence(sub, s)
    ensures IsSubsequence(sub, [c] + s)
    decreases |s|, 1
  {
    assert ([c] + s)[1..] == s;
    if sub != [] && sub[0] == c {
      SubsequenceDropFirst(sub, s);
    }
  }

  lemma {:induction false} SubsequenceDropFirst(sub: string, s: string)
    requires sub != [] && IsSubsequence(sub, s)
    ensures IsSubsequence(sub[1..], s)
    decreases |s|, 0
  {
    if sub[0] == s[0] {
      SubsequenceCons(sub[1..], s[0], s[1..]);
      assert [s[0]] + s[1..] == s;
    } else {
      SubsequenceDropFirst(sub, s[1..]);
      SubsequenceCons(sub[1..], s[0], s[1..]);
      assert [s[0]] + s[1..] == s;
    }
  }

  lemma {:induction false} SubsequenceOfSelf(s: string)
    ensures IsSubsequence(s, s)
    decreases |s|
  {
    if s != [] {
      SubsequenceOfSelf(s[1..]);
    }
  }

  function DigitChar(d: nat): char
    requires d < 10
  {
    "0123456789"[d]
  }

  function DigitValue(c: char): nat {
    if '0' <= c <= '9' then (c as int - '0' as int) as nat else 0
  }

  /** The canonical decimal numeral of `n`, as `String(n)` gives it. */
  function Decimal(n: nat): (r: string)
    ensures |r| >= 1
    decreases n
  {
    if n < 10 then [DigitChar(n)] else Decimal(n / 10) + [DigitChar(n % 10)]
  }

  /** Reads a string of decimal digits back as a number. */
  function DecimalValue(s: string): nat
    decreases |s|
  {
    if s == [] then 0 else 10 * DecimalValue(s[..|s| - 1]) + DigitValue(s[|s| - 1])
  }

  lemma {:induction false} DecimalRoundTrip(n: nat)
    ensures DecimalValue(Decimal(n)) == n
    decreases n
  {
    if n >= 10 {
      var s := Decimal(n / 10) + [DigitChar(n % 10)];
      assert s[..|s| - 1] == Decimal(n / 10);
      DecimalRoundTrip(n / 10);
    }
  }

  /** Distinct indices give distinct property keys. */
  lemma DecimalInjective()
    ensures forall a: nat, b: nat :: Decimal(a) == Decimal(b) ==> a == b
  {
    forall a: nat, b: nat | Decimal(a) == Decimal(b)
      ensures a == b
    {
      DecimalRoundTrip(a);
      DecimalRoundTrip(b);
    }
  }

  /** A suffix of a suffix is a suffix. */
  lemma SuffixOfSuffix(m: string, c: string, k: string)
    requires |c| <= |m| && m[|m| - |c|..] == c
    requires |k| <= |c| && c[|c| - |k|..] == k
    ensures m[|m| - |k|..] == k
  {
    assert m[|m| - |k|..] == m[|m| - |c|..][|c| - |k|..];
  }
}
