/** The order statistics the fee profiler relies on: an ascending sort (Python's
    `sorted`), the minimum and maximum of a series (`min`, `max`), the median of
    `statistics.median`, Python's `round` (half to even), rounding to three
    decimals, and the nearest-rank percentile `pct`. */
module Stats {

  /** Ascending: no element is smaller than the one before it. */
  predicate IsSorted(s: seq<real>) {
    forall i :: 0 < i < |s| ==> s[i - 1] <= s[i]
  }

  /** In an ascending sequence, an element is at most every later element. */
  lemma {:induction false} SortedLe(t: seq<real>, i: int, j: int)
    requires IsSorted(t) && 0 <= i <= j < |t|
    ensures t[i] <= t[j]
    decreases j - i
  {
    if i < j {
      SortedLe(t, i, j - 1);
    }
  }

  /** Putting an element no larger than the head in front keeps a sequence ascending. */
  lemma InsertConsSorted(h: real, t: seq<real>)
    requires IsSorted(t) && |t| > 0 && h <= t[0]
    ensures IsSorted([h] + t)
  {
    var r := [h] + t;
    forall i | 0 < i < |r|
      ensures r[i - 1] <= r[i]
    {
      if i > 1 {
        assert r[i - 1] == t[i - 2] && r[i] == t[i - 1];
      }
    }
  }

  /** The multiset of a sequence with an element in front. */
  lemma ConsMultiset(h: real, u: seq<real>)
    ensures multiset([h] + u) == multiset{h} + multiset(u)
  {
  }

  /** The recursive case of `Insert`: the head stays in front of the tail with
      `x` inserted. */
  lemma InsertBehindHead(x: real, s: seq<real>, rest: seq<real>)
    requires |s| > 0 && IsSorted(s) && s[0] < x
    requires IsSorted(rest) && |rest| == |s|
    requires rest[0] == x || (|s| > 1 && rest[0] == s[1])
    requires multiset(rest) == multiset(s[1..]) + multiset{x}
    ensures IsSorted([s[0]] + rest)
    ensures multiset([s[0]] + rest) == multiset(s) + multiset{x}
  {
    if |s| > 1 {
      assert s[0] <= s[1];
    }
    InsertConsSorted(s[0], rest);
    ConsMultiset(s[0], rest);
    ConsMultiset(s[0], s[1..]);
    assert s == [s[0]] + s[1..];
  }

  /** Inserts `x` into an ascending sequence, keeping it ascending. */
  function Insert(x: real, s: seq<real>): (r: seq<real>)
    requires IsSorted(s)
    ensures IsSorted(r)
    ensures |r| == |s| + 1
    ensures r[0] == x || (|s| > 0 && r[0] == s[0])
    ensures multiset(r) == multiset(s) + multiset{x}
  {
    if s == [] then [x]
    else if x <= s[0] then
      InsertConsSorted(x, s);
      [x] + s
    else
      SortedTail(s);
      var rest := Insert(x, s[1..]);
      InsertBehindHead(x, s, rest);
      [s[0]] + rest
  }

  /** Python's `sorted` on a list of numbers: an ascending permutation. */
  function SortAsc(s: seq<real>): (r: seq<real>)
    ensures IsSorted(r)
    ensures |r| == |s|
    ensures multiset(r) == multiset(s)
  {
    if s == [] then []
    else
      assert s == [s[0]] + s[1..];
      Insert(s[0], SortAsc(s[1..]))
  }

  /** Python's `min` on a non-empty list. */
  function SeqMin(s: seq<real>): (m: real)
    requires |s| > 0
    ensures m in s
    ensures forall x :: x in s ==> m <= x
  {
    if |s| == 1 then s[0]
    else
      var t := SeqMin(s[1..]);
      assert s == [s[0]] + s[1..];
      if s[0] <= t then s[0] else t
  }

  /** Python's `max` on a non-empty list. */
  function SeqMax(s: seq<real>): (m: real)
    requires |s| > 0
    ensures m in s
    ensures forall x :: x in s ==> x <= m
  {
    if |s| == 1 then s[0]
    else
      var t := SeqMax(s[1..]);
      assert s == [s[0]] + s[1..];
      if t <= s[0] then s[0] else t
  }

  /** A rearrangement holds the same values as the original. */
  lemma PermutationSameValues(s: seq<real>, t: seq<real>, x: real)
    requires multiset(t) == multiset(s)
    ensures x in t <==> x in s
  {
    assert x in t <==> x in multiset(t);
    assert x in s <==> x in multiset(s);
  }

  /** Every element of a rearrangement of `s` lies between the minimum and the
      maximum of `s`. */
  lemma PermutationWithinRange(s: seq<real>, t: seq<real>, k: int)
    requires |s| > 0 && multiset(t) == multiset(s) && 0 <= k < |t|
    ensures SeqMin(s) <= t[k] <= SeqMax(s)
  {
    PermutationSameValues(s, t, t[k]);
  }

  /** An ascending rearrangement of `s` starts with the minimum of `s` and ends
      with its maximum. */
  lemma SortedPermutationEnds(s: seq<real>, t: seq<real>)
    requires |s| > 0 && IsSorted(t) && multiset(t) == multiset(s)
    ensures |t| == |s|
    ensures t[0] == SeqMin(s) && t[|t| - 1] == SeqMax(s)
  {
    assert |t| == |multiset(t)| == |multiset(s)| == |s|;
    PermutationSameValues(s, t, SeqMin(s));
    PermutationSameValues(s, t, SeqMax(s));
    SortedHeadIsLeast(t, SeqMin(s));
    SortedLastIsGreatest(t, SeqMax(s));
    PermutationWithinRange(s, t, 0);
    PermutationWithinRange(s, t, |t| - 1);
  }

  /** The head of an ascending sequence is at most each of its values. */
  lemma SortedHeadIsLeast(t: seq<real>, x: real)
    requires IsSorted(t) && x in t
    ensures t[0] <= x
  {
    var j :| 0 <= j < |t| && t[j] == x;
    SortedLe(t, 0, j);
  }

  /** The last element of an ascending sequence is at least each of its values. */
  lemma SortedLastIsGreatest(t: seq<real>, x: real)
    requires IsSorted(t) && x in t
    ensures t[|t| - 1] >= x
  {
    var j :| 0 <= j < |t| && t[j] == x;
    SortedLe(t, j, |t| - 1);
  }

  /** The tail of an ascending sequence is ascending. */
  lemma SortedTail(t: seq<real>)
    requires IsSorted(t) && |t| > 0
    ensures IsSorted(t[1..])
  {
    forall i | 0 < i < |t| - 1
      ensures t[1..][i - 1] <= t[1..][i]
    {
      assert t[1..][i - 1] == t[i] && t[1..][i] == t[i + 1];
    }
  }

  /** Two ascending sequences holding the same values are equal: both start with
      the common minimum, and the rests hold the same values again. */
  lemma {:induction false} SortedUnique(s: seq<real>, t: seq<real>)
    requires IsSorted(s) && IsSorted(t) && multiset(s) == multiset(t)
    ensures s == t
    decreases |s|
  {
    assert |s| == |multiset(s)| == |multiset(t)| == |t|;
    if |s| > 0 {
      PermutationSameValues(s, t, s[0]);
      PermutationSameValues(s, t, t[0]);
      SortedHeadIsLeast(t, s[0]);
      SortedHeadIsLeast(s, t[0]);
      assert s[0] == t[0];
      assert s == [s[0]] + s[1..] && t == [t[0]] + t[1..];
      assert multiset(s[1..]) == multiset(t[1..]) by {
        assert multiset(s) == multiset([s[0]]) + multiset(s[1..]);
        assert multiset(t) == multiset([s[0]]) + multiset(t[1..]);
        assert multiset(s[1..]) == multiset(s) - multiset([s[0]]);
        assert multiset(t[1..]) == multiset(t) - multiset([s[0]]);
      }
      SortedTail(s);
      SortedTail(t);
      SortedUnique(s[1..], t[1..]);
    }
  }

  /** Sorting forgets the order of its input: rearrangements sort alike. */
  lemma SortAscPermutation(s: seq<real>, t: seq<real>)
    requires multiset(s) == multiset(t)
    ensures SortAsc(s) == SortAsc(t)
  {
    SortedUnique(SortAsc(s), SortAsc(t));
  }

  /** `statistics.median` of a non-empty list: the middle element of the sorted
      list, or the mean of the two middle elements when the length is even. */
  function Median(s: seq<real>): (m: real)
    requires |s| > 0
  {
    var t := SortAsc(s);
    var n := |t|;
    if n % 2 == 1 then t[n / 2] else (t[n / 2 - 1] + t[n / 2]) / 2.0
  }

  /** The median lies between the smallest and the largest element. */
  lemma MedianWithinRange(s: seq<real>)
    requires |s| > 0
    ensures SeqMin(s) <= Median(s) <= SeqMax(s)
  {
    var t := SortAsc(s);
    var n := |t|;
    PermutationWithinRange(s, t, n / 2);
    if n % 2 == 0 {
      PermutationWithinRange(s, t, n / 2 - 1);
    }
  }

  /** `median(s) if s else 0.0`, the guard the profiler writes at every use. */
  function MedianOrZero(s: seq<real>): (m: real)
    ensures |s| == 0 ==> m == 0.0
    ensures |s| > 0 ==> SeqMin(s) <= m <= SeqMax(s)
  {
    if |s| == 0 then 0.0 else MedianWithinRange(s); Median(s)
  }

  /** The median does not depend on the order of the series. */
  lemma MedianOrZeroPermutation(s: seq<real>, t: seq<real>)
    requires multiset(s) == multiset(t)
    ensures MedianOrZero(s) == MedianOrZero(t)
  {
    assert |s| == |multiset(s)| == |multiset(t)| == |t|;
    if |s| > 0 {
      SortAscPermutation(s, t);
      assert Median(s) == Median(t);
    }
  }

  /** Nor do the minimum and the maximum. */
  lemma MinMaxPermutation(s: seq<real>, t: seq<real>)
    requires |s| > 0 && multiset(s) == multiset(t)
    ensures |t| > 0 && SeqMin(s) == SeqMin(t) && SeqMax(s) == SeqMax(t)
  {
    assert |s| == |multiset(s)| == |multiset(t)| == |t|;
    SortAscPermutation(s, t);
    SortedPermutationEnds(s, SortAsc(s));
    SortedPermutationEnds(t, SortAsc(t));
  }

  /** Python's `round(x)`: the nearest integer, ties going to the even one. */
  function RoundHalfEven(x: real): (r: int)
    ensures x - 0.5 <= r as real <= x + 0.5
    ensures (r as real == x - 0.5 || r as real == x + 0.5) ==> r % 2 == 0
  {
    var f := x.Floor;
    var frac := x - f as real;
    if frac < 0.5 then f
    else if frac > 0.5 then f + 1
    else if f % 2 == 0 then f
    else f + 1
  }

  lemma RoundHalfEvenMonotone(x: real, y: real)
    requires x <= y
    ensures RoundHalfEven(x) <= RoundHalfEven(y)
  {
  }

  /** A value between two integers rounds to an integer between them. */
  lemma RoundWithin(x: real, lo: int, hi: int)
    requires lo as real <= x <= hi as real
    ensures lo <= RoundHalfEven(x) <= hi
  {
  }

  /** An integral value is its own rounding. */
  lemma RoundOfInteger(k: int)
    ensures RoundHalfEven(k as real) == k
  {
  }

  /** Python's `round(x, 3)`, read on exact decimals: the nearest multiple of
      1/1000, ties going to the even multiple. */
  function Round3(x: real): (r: real)
    ensures x - 0.0005 <= r <= x + 0.0005
    ensures (r * 1000.0).Floor as real == r * 1000.0
    ensures (r == x - 0.0005 || r == x + 0.0005) ==> (r * 1000.0).Floor % 2 == 0
  {
    var k := RoundHalfEven(x * 1000.0);
    var r := k as real / 1000.0;
    assert r * 1000.0 == k as real && (r * 1000.0).Floor == k;
    assert r == x - 0.0005 ==> k as real == x * 1000.0 - 0.5;
    assert r == x + 0.0005 ==> k as real == x * 1000.0 + 0.5;
    r
  }

  lemma Round3Monotone(x: real, y: real)
    requires x <= y
    ensures Round3(x) <= Round3(y)
  {
    RoundHalfEvenMonotone(x * 1000.0, y * 1000.0);
  }

  lemma Round3NonNegative(x: real)
    requires x >= 0.0
    ensures Round3(x) >= 0.0
  {
    RoundHalfEvenMonotone(0.0, x * 1000.0);
    RoundOfInteger(0);
  }

  /** A value already rounded to three decimals is left unchanged by rounding again. */
  lemma Round3Idempotent(x: real)
    ensures Round3(Round3(x)) == Round3(x)
  {
    var k := RoundHalfEven(x * 1000.0);
    assert Round3(x) * 1000.0 == k as real;
    RoundOfInteger(k);
  }

  /** A whole number is unchanged by rounding to three decimals. */
  lemma Round3OfInteger(k: int)
    ensures Round3(k as real) == k as real
  {
    assert k as real * 1000.0 == (k * 1000) as real;
    RoundOfInteger(k * 1000);
  }

  /** `max(0.0, min(1.0, q))`. */
  function Clamp01(q: real): (c: real)
    ensures 0.0 <= c <= 1.0
    ensures 0.0 <= q <= 1.0 ==> c == q
    ensures q <= 0.0 ==> c == 0.0
    ensures q >= 1.0 ==> c == 1.0
  {
    var upper := if q < 1.0 then q else 1.0;
    if 0.0 < upper then upper else 0.0
  }

  lemma Clamp01Monotone(q1: real, q2: real)
    requires q1 <= q2
    ensures Clamp01(q1) <= Clamp01(q2)
  {
  }

  /** `c * m` for a whole number `m`, written as the sum of `m` copies of `c`
      so that the solver reasons about it without non-linear arithmetic. */
  function Times(c: real, m: nat): real {
    if m == 0 then 0.0 else Times(c, m - 1) + c
  }

  lemma {:induction false} TimesIsProduct(c: real, m: nat)
    ensures Times(c, m) == c * m as real
  {
    if m > 0 {
      TimesIsProduct(c, m - 1);
      assert c * m as real == c * (m - 1) as real + c;
    }
  }

  lemma {:induction false} TimesBetween(c: real, m: nat)
    requires 0.0 <= c <= 1.0
    ensures 0.0 <= Times(c, m) <= m as real
  {
    if m > 0 {
      TimesBetween(c, m - 1);
    }
  }

  lemma {:induction false} TimesMonotone(a: real, b: real, m: nat)
    requires a <= b
    ensures Times(a, m) <= Times(b, m)
  {
    if m > 0 {
      TimesMonotone(a, b, m - 1);
    }
  }

  lemma {:induction false} TimesEnds(m: nat)
    ensures Times(0.0, m) == 0.0 && Times(1.0, m) == m as real
  {
    if m > 0 {
      TimesEnds(m - 1);
    }
  }

  /** The fractional rank `clamp(q) * (n - 1)`, which lies in [0, n - 1]. */
  function Rank(n: nat, q: real): (x: real)
    requires n > 0
    ensures 0.0 <= x <= (n - 1) as real
  {
    TimesBetween(Clamp01(q), n - 1);
    Times(Clamp01(q), n - 1)
  }

  lemma RankMonotone(n: nat, q1: real, q2: real)
    requires n > 0 && q1 <= q2
    ensures Rank(n, q1) <= Rank(n, q2)
  {
    Clamp01Monotone(q1, q2);
    TimesMonotone(Clamp01(q1), Clamp01(q2), n - 1);
  }

  /** The index `round(q * (n - 1))` that `pct` reads in a sorted list of `n` values. */
  function PctIndex(n: nat, q: real): (i: nat)
    requires n > 0
    ensures i < n
    ensures q <= 0.0 ==> i == 0
    ensures q >= 1.0 ==> i == n - 1
  {
    var x := Rank(n, q);
    TimesEnds(n - 1);
    RoundWithin(x, 0, n - 1);
    RoundOfInteger(0);
    RoundOfInteger(n - 1);
    RoundHalfEven(x)
  }

  lemma PctIndexMonotone(n: nat, q1: real, q2: real)
    requires n > 0 && q1 <= q2
    ensures PctIndex(n, q1) <= PctIndex(n, q2)
  {
    RankMonotone(n, q1, q2);
    RoundHalfEvenMonotone(Rank(n, q1), Rank(n, q2));
  }

  /** Nearest-rank percentile: 0.0 for an empty series, otherwise the element of
      rank `round(clamp(q) * (n - 1))` of the sorted series. */
  function Pct(values: seq<real>, q: real): (r: real)
    ensures |values| == 0 ==> r == 0.0
    ensures |values| > 0 ==> r in values
    ensures |values| > 0 ==> SeqMin(values) <= r <= SeqMax(values)
    ensures |values| > 0 && q <= 0.0 ==> r == SeqMin(values)
    ensures |values| > 0 && q >= 1.0 ==> r == SeqMax(values)
  {
    if |values| == 0 then 0.0
    else
      var t := SortAsc(values);
      var i := PctIndex(|values|, q);
      PermutationSameValues(values, t, t[i]);
      PermutationWithinRange(values, t, i);
      SortedPermutationEnds(values, t);
      t[i]
  }

  /** For a fixed series, `pct` never decreases as the requested percentile grows. */
  lemma PctMonotone(values: seq<real>, q1: real, q2: real)
    requires q1 <= q2
    ensures Pct(values, q1) <= Pct(values, q2)
  {
    if |values| > 0 {
      PctIndexMonotone(|values|, q1, q2);
      SortedLe(SortAsc(values), PctIndex(|values|, q1), PctIndex(|values|, q2));
    }
  }

  /** `pct` does not depend on the order of the series, only on its values. */
  lemma PctPermutation(s: seq<real>, t: seq<real>, q: real)
    requires multiset(s) == multiset(t)
    ensures Pct(s, q) == Pct(t, q)
  {
    assert |s| == |multiset(s)| == |multiset(t)| == |t|;
    SortAscPermutation(s, t);
  }
}
