/**
 * String helpers: decimal rendering of numbers (as JavaScript template
 * literals render integers), substring search, and the facts about them
 * that make generated identifiers unambiguous.
 */
module Text {
  import opened Wrappers

  predicate IsDigit(c: char) {
    '0' <= c <= '9'
  }

  function Digit(d: nat): (c: char)
    requires d < 10
    ensures IsDigit(c)
  {
    (('0' as int) + d) as char
  }

  /** Decimal rendering of a natural number, most significant digit first. */
  function NatStr(n: nat): (r: string)
    ensures |r| >= 1
    ensures forall i :: 0 <= i < |r| ==> IsDigit(r[i])
  {
    if n < 10 then [Digit(n)] else NatStr(n / 10) + [Digit(n % 10)]
  }

  /** Decimal rendering of an integer, with a leading '-' when negative. */
  function IntStr(n: int): (r: string)
    ensures |r| >= 1 && IsDigit(r[|r| - 1])
  {
    if n < 0 then "-" + NatStr(-n) else NatStr(n)
  }

  /** Different numbers render differently. */
  lemma {:induction false} NatStrInjective(n: nat, m: nat)
    requires NatStr(n) == NatStr(m)
    ensures n == m
  {
    var r := NatStr(n);
    assert n >= 10 ==> |r| == |NatStr(n / 10)| + 1;
    assert m >= 10 ==> |r| == |NatStr(m / 10)| + 1;
    if n >= 10 && m >= 10 {
      assert Digit(n % 10) == r[|r| - 1] == Digit(m % 10);
      assert NatStr(n / 10) == r[..|r| - 1] == NatStr(m / 10);
      NatStrInjective(n / 10, m / 10);
    } else if n < 10 && m < 10 {
      assert Digit(n) == r[0] == Digit(m);
    }
  }

  lemma IntStrInjective(n: int, m: int)
    requires IntStr(n) == IntStr(m)
    ensures n == m
  {
    var r := IntStr(n);
    assert n < 0 ==> r[0] == '-';
    assert n >= 0 ==> IsDigit(r[0]);
    assert m < 0 ==> r[0] == '-';
    assert m >= 0 ==> IsDigit(r[0]);
    if n < 0 && m < 0 {
      assert NatStr(-n) == r[1..] == NatStr(-m);
      NatStrInjective(-n, -m);
    } else if n >= 0 && m >= 0 {
      NatStrInjective(n, m);
    }
  }

  /**
   * Splitting at the last '-': when neither tail contains a dash, equal
   * dash-joined strings have equal heads and equal tails.
   */
  lemma SplitAtLastDash(a: string, x: string, b: string, y: string)
    requires forall i :: 0 <= i < |x| ==> x[i] != '-'
    requires forall i :: 0 <= i < |y| ==> y[i] != '-'
    requires a + "-" + x == b + "-" + y
    ensures a == b && x == y
  {
    var s := a + "-" + x;
    assert s[|a|] == '-';
    assert s[|b|] == '-';
    assert forall i :: |a| < i < |s| ==> s[i] == x[i - |a| - 1];
    assert forall i :: |b| < i < |s| ==> s[i] == y[i - |b| - 1];
    assert |x| == |y|;
    assert x == s[|a| + 1..];
    assert y == s[|b| + 1..];
    assert a == s[..|a|];
    assert b == s[..|b|];
  }

  /** `pat` occurs in `s` starting at index `k`. */
  predicate OccursAt(s: string, pat: string, k: nat) {
    k + |pat| <= |s| && s[k..k + |pat|] == pat
  }

  /** A one-character pattern occurs exactly where that character is. */
  lemma OccursAtChar(s: string, c: char, k: nat)
    requires k < |s|
    ensures OccursAt(s, [c], k) <==> s[k] == c
  {
    assert s[k..k + 1] == [s[k]];
  }

  /** The first index at or after `from` where `pat` occurs (`indexOf`). */
  function FindFrom(s: string, pat: string, from: nat): (r: Option<nat>)
    ensures r.Some? ==> from <= r.value && OccursAt(s, pat, r.value)
    ensures forall k :: from <= k && (r.None? || k < r.value) ==> !OccursAt(s, pat, k)
    decreases |s| - from
  {
    if from + |pat| > |s| then None
    else if OccursAt(s, pat, from) then Some(from)
    else FindFrom(s, pat, from + 1)
  }
}
