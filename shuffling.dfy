/**
 * `array.sort(() => 0.5 - Math.random())`: a sort driven by a random
 * comparator. Which order it produces is left open; what is kept is that
 * the result is a rearrangement of the input.
 */
module Shuffling {

  /** Rearranges `s` in an array, swapping each position with an arbitrarily chosen later one. */
  method Shuffle<T>(s: seq<T>) returns (r: seq<T>)
    ensures multiset(r) == multiset(s)
    ensures |r| == |s|
  {
    var a := new T[|s|](i requires 0 <= i < |s| => s[i]);
    assert a[..] == s;
    var i := 0;
    while i < a.Length
      invariant 0 <= i <= a.Length
      invariant multiset(a[..]) == multiset(s)
    {
      var j :| i <= j < a.Length;
      a[i], a[j] := a[j], a[i];
      i := i + 1;
    }
    r := a[..];
  }

  /** A prefix takes each element at most as often as the whole sequence holds it. */
  lemma PrefixSubMultiset<T>(s: seq<T>, k: nat)
    requires k <= |s|
    ensures multiset(s[..k]) <= multiset(s)
  {
    assert s == s[..k] + s[k..];
  }
}
