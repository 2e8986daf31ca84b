/** Runs of consecutive integers, the shape every unlocked set on the map and the level
    selector takes. */
module Intervals {
  function Min(a: int, b: int): (r: int)
    ensures r <= a && r <= b && (r == a || r == b)
  {
    if a <= b then a else b
  }

  /** The integers lo, lo + 1, .., hi in order; empty when hi < lo. */
  function Range(lo: int, hi: int): (r: seq<int>)
    ensures |r| == if hi < lo then 0 else hi - lo + 1
    ensures forall i :: 0 <= i < |r| ==> r[i] == lo + i
    decreases hi - lo
  {
    if hi < lo then [] else [lo] + Range(lo + 1, hi)
  }

  /** The elements of s that are at most m, in their order. */
  function AtMost(s: seq<int>, m: int): (r: seq<int>)
    ensures |r| <= |s|
  {
    if s == [] then []
    else if s[0] <= m then [s[0]] + AtMost(s[1..], m)
    else AtMost(s[1..], m)
  }

  /** Keeping the members of a run that are at most m leaves a shorter run from the same start. */
  lemma {:induction false} AtMostRange(lo: int, hi: int, m: int)
    ensures AtMost(Range(lo, hi), m) == Range(lo, Min(hi, m))
    decreases hi - lo
  {
    if lo <= hi {
      assert Range(lo, hi)[1..] == Range(lo + 1, hi);
      AtMostRange(lo + 1, hi, m);
      if lo > m {
        AtMostNone(Range(lo + 1, hi), m);
      }
    }
  }

  lemma {:induction false} AtMostNone(s: seq<int>, m: int)
    requires forall i :: 0 <= i < |s| ==> s[i] > m
    ensures AtMost(s, m) == []
  {
    if s != [] {
      AtMostNone(s[1..], m);
    }
  }

  /** A run from 1 holds exactly the integers 1..hi. */
  lemma RangeMembers(hi: int, x: int)
    ensures x in Range(1, hi) <==> 1 <= x <= hi
  {
    if 1 <= x <= hi {
      assert Range(1, hi)[x - 1] == x;
    }
  }
}
