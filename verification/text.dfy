/** String predicates with the meaning JavaScript gives them: `includes`,
    `startsWith`/`endsWith`, `trim() === ''`, the regular-expression class
    `\s`, and `padStart(2, '0')` on small numbers. */
module Text {

  /** The characters JavaScript's `trim` removes and `\s` matches: the
      WhiteSpace and LineTerminator code points of ECMAScript. */
  predicate IsSpace(c: char) {
    || c == '\t' || c == '\n' || c == '\U{B}' || c == '\U{C}' || c == '\r'
    || c == ' ' || c == '\U{A0}' || c == '\U{1680}'
    || ('\U{2000}' <= c <= '\U{200A}')
    || c == '\U{2028}' || c == '\U{2029}' || c == '\U{202F}'
    || c == '\U{205F}' || c == '\U{3000}' || c == '\U{FEFF}'
  }

  /** `s.trim() === ''`. */
  predicate IsBlank(s: string) {
    forall i :: 0 <= i < |s| ==> IsSpace(s[i])
  }

  /** `sub` occurs in `s` starting at index `i`. */
  predicate OccursAt(s: string, sub: string, i: nat) {
    i + |sub| <= |s| && s[i..i + |sub|] == sub
  }

  predicate StartsWith(s: string, prefix: string) {
    OccursAt(s, prefix, 0)
  }

  predicate EndsWith(s: string, suffix: string) {
    |suffix| <= |s| && s[|s| - |suffix|..] == suffix
  }

  /** `s.includes(sub)`, by scanning start positions left to right. */
  predicate Contains(s: string, sub: string)
    decreases |s|
  {
    StartsWith(s, sub) || (|s| > 0 && Contains(s[1..], sub))
  }

  /** The scan agrees with the declarative reading: some occurrence exists. */
  lemma {:induction false} ContainsIff(s: string, sub: string)
    ensures Contains(s, sub) <==> exists i: nat :: i <= |s| && OccursAt(s, sub, i)
    decreases |s|
  {
    if |s| > 0 {
      ContainsIff(s[1..], sub);
      if Contains(s[1..], sub) {
        var i: nat :| i <= |s[1..]| && OccursAt(s[1..], sub, i);
        assert s[i + 1..i + 1 + |sub|] == s[1..][i..i + |sub|];
        assert OccursAt(s, sub, i + 1);
      }
      if i: nat :| i <= |s| && OccursAt(s, sub, i) {
        if i > 0 {
          assert s[1..][i - 1..i - 1 + |sub|] == s[i..i + |sub|];
          assert OccursAt(s[1..], sub, i - 1);
        }
      }
    }
  }

  /** Whatever a slice of `s` contains, `s` contains. */
  lemma ContainsInSlice(s: string, lo: nat, hi: nat, sub: string)
    requires lo <= hi <= |s|
    requires Contains(s[lo..hi], sub)
    ensures Contains(s, sub)
  {
    var t := s[lo..hi];
    ContainsIff(t, sub);
    var i: nat :| i <= |t| && OccursAt(t, sub, i);
    assert i + |sub| <= |t| && t[i..i + |sub|] == sub;
    assert s[lo + i..lo + i + |sub|] == sub by {
      forall k | 0 <= k < |sub|
        ensures s[lo + i..lo + i + |sub|][k] == sub[k]
      {
        assert sub[k] == t[i..i + |sub|][k] == t[i + k] == s[lo + i + k];
      }
    }
    assert OccursAt(s, sub, lo + i);
    ContainsIff(s, sub);
  }

  /** A witness occurrence establishes `includes`. */
  lemma ContainsAt(s: string, sub: string, i: nat)
    requires OccursAt(s, sub, i)
    ensures Contains(s, sub)
  {
    ContainsIff(s, sub);
  }

  /** The decimal digit character for `d`. */
  function Digit(d: nat): (c: char)
    requires d < 10
    ensures '0' <= c <= '9'
    ensures c as int - '0' as int == d
  {
    ('0' as int + d) as char
  }

  /** The value of a decimal digit character. */
  function DigitValue(c: char): int {
    c as int - '0' as int
  }

  /** The number a two-character decimal text denotes. */
  function TwoDigitValue(s: string): int
    requires |s| == 2
  {
    10 * DigitValue(s[0]) + DigitValue(s[1])
  }

  /** `String(n).padStart(2, '0')` for `n < 100`: two decimal digits that
      read back as `n`. */
  function Pad2(n: nat): (r: string)
    requires n < 100
    ensures |r| == 2 && '0' <= r[0] <= '9' && '0' <= r[1] <= '9'
    ensures TwoDigitValue(r) == n
  {
    [Digit(n / 10), Digit(n % 10)]
  }
}
