/** String and counting helpers shared by both engine editions and the
    scene normaliser: decimal rendering of numbers (the JavaScript template
    literals `${v}` and `ending_synth_${i}`), prefix tests, the
    case-insensitive substring test of a `/ending/i` regular expression, and
    the cardinality facts the normaliser's loops need to terminate. */
module Text {

  /** The decimal digit character for 0..9. */
  function DigitChar(d: nat): (c: char)
    requires d < 10
    ensures '0' <= c <= '9' && c as int - '0' as int == d
  {
    ('0' as int + d) as char
  }

  /** Decimal rendering of a natural number, without leading zeros. */
  function NatToString(n: nat): (s: string)
    decreases n
  {
    if n < 10 then [DigitChar(n)] else NatToString(n / 10) + [DigitChar(n % 10)]
  }

  /** Decimal rendering of an integer, with a leading '-' when negative
      (JavaScript's `String(v)` for an integral number). */
  function IntToString(i: int): (s: string)
  {
    if i < 0 then "-" + NatToString(-i) else NatToString(i)
  }

  lemma {:induction false} NatToStringLength(n: nat)
    ensures |NatToString(n)| >= 1
    ensures n < 10 <==> |NatToString(n)| == 1
  {
    if n >= 10 {
      NatToStringLength(n / 10);
    }
  }

  lemma {:induction false} NatToStringDigits(n: nat)
    ensures forall k :: 0 <= k < |NatToString(n)| ==> '0' <= NatToString(n)[k] <= '9'
  {
    if n >= 10 {
      NatToStringDigits(n / 10);
    }
  }

  /** Distinct numbers render differently: the decimal rendering is injective. */
  lemma {:induction false} NatToStringInjective(a: nat, b: nat)
    requires NatToString(a) == NatToString(b)
    ensures a == b
  {
    NatToStringLength(a);
    NatToStringLength(b);
    if a < 10 && b < 10 {
      assert NatToString(a)[0] == DigitChar(a);
      assert NatToString(b)[0] == DigitChar(b);
    } else if a >= 10 && b >= 10 {
      var sa, sb := NatToString(a), NatToString(b);
      assert sa[|sa| - 1] == DigitChar(a % 10);
      assert sb[|sb| - 1] == DigitChar(b % 10);
      assert a % 10 == b % 10;
      assert NatToString(a / 10) == sa[..|sa| - 1];
      assert NatToString(b / 10) == sb[..|sb| - 1];
      NatToStringInjective(a / 10, b / 10);
    }
  }

  /** `s.startsWith(p)`. */
  predicate StartsWith(s: string, p: string)
  {
    |p| <= |s| && s[..|p|] == p
  }

  /** ASCII lower-casing of one character. Non-ASCII characters are left as
      they are, which is what a regular expression without the `u` flag does
      when it compares case-insensitively against ASCII letters. */
  function LowerChar(c: char): (r: char)
    ensures 'A' <= c <= 'Z' ==> r as int == c as int + 32
    ensures !('A' <= c <= 'Z') ==> r == c
  {
    if 'A' <= c <= 'Z' then (c as int + 32) as char else c
  }

  function Lower(s: string): (r: string)
    ensures |r| == |s|
    ensures forall k :: 0 <= k < |s| ==> r[k] == LowerChar(s[k])
  {
    if s == [] then [] else [LowerChar(s[0])] + Lower(s[1..])
  }

  /** `/w/i.test(s)` for a lower-case word `w`: some window of `s` equals `w`
      once both are lower-cased. */
  predicate ContainsFolded(s: string, w: string)
    decreases |s|
  {
    |w| <= |s| && (Lower(s[..|w|]) == w || ContainsFolded(s[1..], w))
  }

  /** No element occurs twice (a JavaScript object's keys, a `Set`). */
  predicate Distinct<T(==)>(s: seq<T>)
  {
    forall i, j :: 0 <= i < j < |s| ==> s[i] != s[j]
  }

  /** `prefix + n` for a number n, as in `ending_synth_${i}` and `filler_${i}`. */
  function Tagged(prefix: string, n: nat): (s: string)
    ensures StartsWith(s, prefix)
  {
    assert (prefix + NatToString(n))[..|prefix|] == prefix;
    prefix + NatToString(n)
  }

  lemma TaggedInjective(prefix: string, a: nat, b: nat)
    requires Tagged(prefix, a) == Tagged(prefix, b)
    ensures a == b
  {
    assert NatToString(a) == Tagged(prefix, a)[|prefix|..];
    assert NatToString(b) == Tagged(prefix, b)[|prefix|..];
    NatToStringInjective(a, b);
  }

  /** The first n tagged ids. */
  function TaggedIds(prefix: string, n: nat): set<string>
  {
    set j | 0 <= j < n :: Tagged(prefix, j)
  }

  lemma {:induction false} TaggedIdsCount(prefix: string, n: nat)
    ensures |TaggedIds(prefix, n)| == n
  {
    if n > 0 {
      TaggedIdsCount(prefix, n - 1);
      assert TaggedIds(prefix, n) == TaggedIds(prefix, n - 1) + {Tagged(prefix, n - 1)};
      if Tagged(prefix, n - 1) in TaggedIds(prefix, n - 1) {
        var j :| 0 <= j < n - 1 && Tagged(prefix, j) == Tagged(prefix, n - 1);
        TaggedInjective(prefix, j, n - 1);
      }
    }
  }

  lemma {:induction false} SubsetCardinality<T>(a: set<T>, b: set<T>)
    requires a <= b
    ensures |a| <= |b|
  {
    if a != {} {
      var x :| x in a;
      SubsetCardinality(a - {x}, b - {x});
    }
  }

  lemma {:induction false} DistinctCardinality<T>(s: seq<T>)
    requires Distinct(s)
    ensures |set x | x in s| == |s|
  {
    if s != [] {
      DistinctCardinality(s[1..]);
      assert (set x | x in s) == (set x | x in s[1..]) + {s[0]};
      assert s[0] !in (set x | x in s[1..]);
    }
  }

  /** If the first n tagged ids all occur among the elements of a collection
      of size m, then n <= m: the bound that makes the normaliser's
      "try the next tagged id" loops terminate. */
  lemma TaggedIdsBound(prefix: string, n: nat, elems: set<string>)
    requires forall j :: 0 <= j < n ==> Tagged(prefix, j) in elems
    ensures n <= |elems|
  {
    TaggedIdsCount(prefix, n);
    SubsetCardinality(TaggedIds(prefix, n), elems);
  }
}
