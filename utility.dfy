/** The numeric helpers and the in-place shuffle of the utility extensions.
    Floating-point values are modelled as exact reals. */
module Utility {

  function Min(a: real, b: real): real { if a <= b then a else b }

  function Max(a: real, b: real): real { if a <= b then b else a }

  /** The engine's clamp: below `lo` gives `lo`, otherwise above `hi` gives `hi`. */
  function Clamp(value: real, lo: real, hi: real): (r: real)
    requires lo <= hi
    ensures lo <= r <= hi
    ensures lo <= value <= hi ==> r == value
  {
    if value < lo then lo else if value > hi then hi else value
  }

  /** Truncation toward zero, as a cast from floating point to an integer does it. */
  function Truncate(x: real): (n: int)
    ensures x >= 0.0 ==> n as real <= x < n as real + 1.0
    ensures x < 0.0 ==> n as real - 1.0 < x <= n as real
  {
    if x >= 0.0 then x.Floor else -((-x).Floor)
  }

  /** Maps `value` linearly from the range [from1, to1] onto [from2, to2] and clamps
      the result into the target range. */
  function Remap(value: real, from1: real, to1: real, from2: real, to2: real): (r: real)
    requires from1 != to1
    ensures Min(from2, to2) <= r <= Max(from2, to2)
  {
    Clamp((value - from1) / (to1 - from1) * (to2 - from2) + from2, Min(from2, to2), Max(to2, from2))
  }

  /** The integer overload: the same mapping computed in floating point, clamped, then truncated. */
  function RemapInt(value: int, from1: int, to1: int, from2: int, to2: int): (r: int)
    requires from1 != to1
    ensures (if from2 <= to2 then from2 else to2) <= r <= (if from2 <= to2 then to2 else from2)
  {
    var c := Remap(value as real, from1 as real, to1 as real, from2 as real, to2 as real);
    TruncateWithin(c, if from2 <= to2 then from2 else to2, if from2 <= to2 then to2 else from2);
    Truncate(c)
  }

  /** Truncating a value that lies between two integers stays between them. */
  lemma TruncateWithin(x: real, lo: int, hi: int)
    requires lo as real <= x <= hi as real
    ensures lo <= Truncate(x) <= hi
  {
    if x >= 0.0 {
      assert lo as real <= x < Truncate(x) as real + 1.0;
    } else {
      assert Truncate(x) as real - 1.0 < x <= hi as real;
    }
  }

  /** True iff `value` lies in the closed interval [min, max]. */
  predicate IsWithinLimits(value: real, min: real, max: real)
  {
    value >= min && value <= max
  }

  /** The remapped value always passes the limit test of its target range, which every
      value outside that range fails. */
  lemma RemapIsWithinLimits(value: real, from1: real, to1: real, from2: real, to2: real)
    requires from1 != to1
    ensures IsWithinLimits(Remap(value, from1, to1, from2, to2), Min(from2, to2), Max(from2, to2))
    ensures forall v :: v < Min(from2, to2) || v > Max(from2, to2) ==>
              !IsWithinLimits(v, Min(from2, to2), Max(from2, to2))
  {
  }

  /** The two ends of the source range land on the two ends of the target range. */
  lemma RemapEndpoints(from1: real, to1: real, from2: real, to2: real)
    requires from1 != to1
    ensures Remap(from1, from1, to1, from2, to2) == from2
    ensures Remap(to1, from1, to1, from2, to2) == to2
  {
    assert (to1 - from1) / (to1 - from1) == 1.0;
  }

  /** Over an increasing source range the mapping follows the direction of the target range. */
  lemma RemapMonotone(v1: real, v2: real, from1: real, to1: real, from2: real, to2: real)
    requires from1 < to1 && v1 <= v2
    ensures from2 <= to2 ==> Remap(v1, from1, to1, from2, to2) <= Remap(v2, from1, to1, from2, to2)
    ensures to2 <= from2 ==> Remap(v2, from1, to1, from2, to2) <= Remap(v1, from1, to1, from2, to2)
  {
    var d := to1 - from1;
    var t1 := (v1 - from1) / d;
    var t2 := (v2 - from1) / d;
    assert t1 * d == v1 - from1;
    assert t2 * d == v2 - from1;
    assert t1 <= t2 by {
      if t2 < t1 {
        MulMonotone(t2, t1, d);
      }
    }
    if from2 <= to2 {
      MulMonotone(t1, t2, to2 - from2);
    } else {
      MulMonotone(t1, t2, from2 - to2);
      assert t1 * (to2 - from2) == -(t1 * (from2 - to2));
      assert t2 * (to2 - from2) == -(t2 * (from2 - to2));
    }
  }

  lemma MulMonotone(a: real, b: real, c: real)
    requires a <= b && 0.0 <= c
    ensures a * c <= b * c
  {
  }

  // ---------------------------------------------------------------------------
  // Shuffle

  /** What the engine's integer `Random.Range(0, i)` can return: a value below `i`
      (the upper bound is exclusive), or 0 when the range is empty. */
  predicate EngineRangeChoice(i: nat, r: int)
  {
    if i == 0 then r == 0 else 0 <= r < i
  }

  /** A swap partner that keeps every access in bounds: 0 <= r <= i. */
  predicate InBoundsChoice(i: nat, r: int)
  {
    0 <= r <= i
  }

  predicate ValidChoices(rs: seq<int>)
  {
    forall i :: 0 <= i < |rs| ==> InBoundsChoice(i, rs[i])
  }

  function Swap<T>(s: seq<T>, i: nat, j: nat): (r: seq<T>)
    requires i < |s| && j < |s|
    ensures |r| == |s| && r[i] == s[j] && r[j] == s[i]
    ensures forall k :: 0 <= k < |s| && k != i && k != j ==> r[k] == s[k]
  {
    s[i := s[j]][j := s[i]]
  }

  lemma SwapPermutes<T>(s: seq<T>, i: nat, j: nat)
    requires i < |s| && j < |s|
    ensures multiset(Swap(s, i, j)) == multiset(s)
  {
  }

  /** The arrangement after the first `k` rounds of the shuffle loop, where round `i`
      exchanges position `i` with position `rs[i]`. */
  function Shuffled<T>(s: seq<T>, rs: seq<int>, k: nat): (r: seq<T>)
    requires k <= |s| == |rs| && ValidChoices(rs)
    ensures |r| == |s|
  {
    if k == 0 then s else Swap(Shuffled(s, rs, k - 1), k - 1, rs[k - 1])
  }

  /** Every prefix of the shuffle loop only rearranges the elements. */
  lemma {:induction false} ShuffledPermutes<T>(s: seq<T>, rs: seq<int>, k: nat)
    requires k <= |s| == |rs| && ValidChoices(rs)
    ensures multiset(Shuffled(s, rs, k)) == multiset(s)
  {
    if k > 0 {
      var prev := Shuffled(s, rs, k - 1);
      ShuffledPermutes(s, rs, k - 1);
      SwapPermutes(prev, k - 1, rs[k - 1]);
      assert Shuffled(s, rs, k) == Swap(prev, k - 1, rs[k - 1]);
    }
  }

  /** Shuffles the array in place, one swap per position, with the random draws
      supplied as `rs`. */
  method Shuffle<T>(a: array<T>, rs: seq<int>)
    requires |rs| == a.Length && ValidChoices(rs)
    modifies a
    ensures a[..] == Shuffled(old(a[..]), rs, a.Length)
    ensures multiset(a[..]) == multiset(old(a[..]))
  {
    for i := 0 to a.Length
      invariant a[..] == Shuffled(old(a[..]), rs, i)
    {
      ghost var before := a[..];
      var r := rs[i];
      var tmp := a[i];
      a[i] := a[r];
      a[r] := tmp;
      assert a[..] == Swap(before, i, r);
    }
    ShuffledPermutes(old(a[..]), rs, a.Length);
  }

  /** Positions from `k` on are untouched by the first `k` rounds. */
  lemma {:induction false} ShuffledLeavesTail<T>(s: seq<T>, rs: seq<int>, k: nat, j: nat)
    requires k <= j < |s| == |rs| && ValidChoices(rs)
    ensures Shuffled(s, rs, k)[j] == s[j]
  {
    if k > 0 {
      ShuffledLeavesTail(s, rs, k - 1, j);
    }
  }

  /** As written, the draw for the last round is always below the last index, so the
      element that starts last always ends at an earlier position, and an input of
      distinct elements never comes back in its original order. */
  lemma ShuffleLastNeverStays<T>(s: seq<T>, rs: seq<int>)
    requires |s| == |rs| >= 2
    requires forall i :: 0 <= i < |rs| ==> EngineRangeChoice(i, rs[i])
    ensures ValidChoices(rs)
    ensures rs[|s| - 1] < |s| - 1 && Shuffled(s, rs, |s|)[rs[|s| - 1]] == s[|s| - 1]
    ensures (forall i, j :: 0 <= i < j < |s| ==> s[i] != s[j]) ==> Shuffled(s, rs, |s|) != s
  {
    var n := |s|;
    ShuffledLeavesTail(s, rs, n - 1, n - 1);
    var r := rs[n - 1];
    assert Shuffled(s, rs, n)[r] == s[n - 1];
    assert s[r] != s[n - 1] ==> Shuffled(s, rs, n)[r] != s[r];
  }

  /** The identity draws r = i, which `Random.Range(0, i + 1)` can produce, leave the
      input in place: with the inclusive range the original order is reachable. */
  lemma {:induction false} ShuffleCanKeepOrder<T>(s: seq<T>, rs: seq<int>, k: nat)
    requires k <= |s| == |rs| && forall i :: 0 <= i < |rs| ==> rs[i] == i
    ensures ValidChoices(rs)
    ensures Shuffled(s, rs, k) == s
    ensures |s| >= 2 ==> !EngineRangeChoice(1, rs[1])
  {
    if k > 0 {
      ShuffleCanKeepOrder(s, rs, k - 1);
    }
  }
}
