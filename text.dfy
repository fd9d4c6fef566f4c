/**
 * The string operations the employee panel relies on: ASCII lower-casing
 * (`toLowerCase`), substring search (`includes`), the digits-only check of
 * the regular expression `^[0-9]*$`, and the decimal rendering of a
 * non-negative integer (`'EMP' + Date.now()`).
 */
module Text {
  import opened Wrappers

  /** JavaScript truthiness of a string that may be null or undefined: present and not empty. */
  predicate Truthy(v: Option<string>) {
    v.Some? && v.value != ""
  }

  predicate IsUpper(c: char) {
    'A' <= c <= 'Z'
  }

  /** ASCII case folding of one character. */
  function LowerChar(c: char): (r: char)
    ensures !IsUpper(r)
    ensures !IsUpper(c) ==> r == c
    ensures IsUpper(c) ==> r as int - c as int == 'a' as int - 'A' as int
  {
    if IsUpper(c) then (c as int + ('a' as int - 'A' as int)) as char else c
  }

  /** `s.toLowerCase()`, restricted to ASCII letters. */
  function Lower(s: string): (r: string)
    ensures |r| == |s|
    ensures forall i :: 0 <= i < |s| ==> r[i] == LowerChar(s[i])
  {
    if s == [] then [] else [LowerChar(s[0])] + Lower(s[1..])
  }

  lemma {:induction false} LowerIdempotent(s: string)
    ensures Lower(Lower(s)) == Lower(s)
  {
    if s != [] {
      LowerIdempotent(s[1..]);
    }
  }

  predicate StartsWith(s: string, prefix: string) {
    |prefix| <= |s| && s[..|prefix|] == prefix
  }

  /** `s.includes(t)`: a left-to-right scan for a position where `t` starts. */
  function Includes(s: string, t: string): bool
    decreases |s|
  {
    StartsWith(s, t) || (s != [] && Includes(s[1..], t))
  }

  /** The reference meaning of `includes`: `t` occurs at some position of `s`. */
  ghost predicate OccursIn(t: string, s: string) {
    exists i :: OccursAt(t, s, i)
  }

  ghost predicate OccursAt(t: string, s: string, i: int) {
    0 <= i && i + |t| <= |s| && s[i..i + |t|] == t
  }

  lemma {:induction false} IncludesMeansOccurs(s: string, t: string)
    ensures Includes(s, t) <==> OccursIn(t, s)
    decreases |s|
  {
    if StartsWith(s, t) {
      assert OccursAt(t, s, 0);
    } else if s != [] {
      IncludesMeansOccurs(s[1..], t);
      if OccursIn(t, s) {
        var i :| OccursAt(t, s, i);
        if i > 0 {
          assert OccursAt(t, s[1..], i - 1) by {
            assert s[1..][i - 1..i - 1 + |t|] == s[i..i + |t|];
          }
        }
      }
      if OccursIn(t, s[1..]) {
        var i :| OccursAt(t, s[1..], i);
        assert OccursAt(t, s, i + 1) by {
          assert s[1..][i..i + |t|] == s[i + 1..i + 1 + |t|];
        }
      }
    }
  }

  /** Every string includes the empty string, so an empty search term matches everything. */
  lemma IncludesEmpty(s: string)
    ensures Includes(s, "")
  {
    assert StartsWith(s, "");
  }

  predicate IsDigit(c: char) {
    '0' <= c <= '9'
  }

  /** The regular expression `^[0-9]*$`: every character is a decimal digit (the empty string matches). */
  predicate IsDigits(s: string) {
    forall i :: 0 <= i < |s| ==> IsDigit(s[i])
  }

  function DigitChar(d: nat): (c: char)
    requires d < 10
    ensures IsDigit(c)
    ensures c as int - '0' as int == d
  {
    ('0' as int + d) as char
  }

  /** Decimal notation of a non-negative integer, as JavaScript converts a timestamp to a string. */
  function NatToString(n: nat): (r: string)
    ensures |r| >= 1 && IsDigits(r)
    ensures r[0] == '0' <==> n == 0
    decreases n
  {
    if n < 10 then [DigitChar(n)] else NatToString(n / 10) + [DigitChar(n % 10)]
  }

  /** The number a string of decimal digits denotes. */
  function DigitsValue(s: string): nat
    requires IsDigits(s)
    decreases |s|
  {
    if s == [] then 0 else DigitsValue(s[..|s| - 1]) * 10 + (s[|s| - 1] as int - '0' as int)
  }

  lemma {:induction false} NatToStringRoundTrip(n: nat)
    ensures DigitsValue(NatToString(n)) == n
    decreases n
  {
    var s := NatToString(n);
    if n >= 10 {
      NatToStringRoundTrip(n / 10);
      assert s[..|s| - 1] == NatToString(n / 10);
    }
  }

  /** Distinct numbers have distinct decimal notations. */
  lemma NatToStringInjective(a: nat, b: nat)
    requires NatToString(a) == NatToString(b)
    ensures a == b
  {
    NatToStringRoundTrip(a);
    NatToStringRoundTrip(b);
  }
}
