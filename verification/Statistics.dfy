/** The size statistics that the packing is based on, in exact arithmetic (lib/src/statistics.rs). */
module Statistics {
  import opened Seqs
  import opened Sorting
  import opened Partitions
  import opened Packing

  predicate RealLe(a: real, b: real) { a <= b }

  function Abs(x: real): real { if x < 0.0 then -x else x }

  /** The middle value, or the mean of the two middle ones. */
  function Middle(s: seq<real>): real
    requires s != []
  {
    if |s| % 2 == 1 then s[|s| / 2] else 0.5 * (s[|s| / 2 - 1] + s[|s| / 2])
  }

  function Sizes(cs: seq<Component>): (r: seq<real>)
    ensures |r| == |cs| && forall i | 0 <= i < |cs| :: r[i] == cs[i].size as real
  {
    seq(|cs|, i requires 0 <= i < |cs| => cs[i].size as real)
  }

  function Deviations(s: seq<real>, from: real): (r: seq<real>)
    ensures |r| == |s| && forall i | 0 <= i < |s| :: r[i] == Abs(s[i] - from)
  {
    seq(|s|, i requires 0 <= i < |s| => Abs(s[i] - from))
  }

  function Median(cs: seq<Component>): real
    requires cs != []
  {
    Middle(Sizes(cs))
  }

  function MedianDeviation(cs: seq<Component>): real
    requires cs != []
  {
    SortPermutes(Deviations(Sizes(cs), Median(cs)), RealLe);
    Middle(Sort(Deviations(Sizes(cs), Median(cs)), RealLe))
  }

  const THRESHOLD := 2.0

  /** The size limits are those of the components that are partitioned. */
  predicate HasSizeLimits(lim: Limits, cs: seq<Component>)
    requires cs != []
  {
    && lim.sizeHigh == Median(cs) + THRESHOLD * MedianDeviation(cs)
    && lim.sizeLow == 0.5 * Abs(Median(cs) - THRESHOLD * MedianDeviation(cs))
  }

  /** If all components are large and there are bins enough for them, nothing is left to partition
      and the packing stops. */
  lemma LargeStop(cs: seq<Component>, binSize: nat, cut: nat -> nat, lim: Limits)
    requires NeedsPacking(cs, binSize) && |NonMax(cs)| <= HighLimit(cs, binSize, cut)
    requires forall c | c in NonMax(cs) :: lim.IsHigh(c)
    ensures Unpackable(cs, binSize, cut, lim)
  {
    var rest := NonMax(cs);
    FilterAll(rest, (c: Component) => lim.IsHigh(c));
    FilterAll(rest, (c: Component) => lim.IsMedium(c));
  }

  /** Which happens when they are all of one size: the deviation is 0 and the median is large. */
  lemma EqualSizesStop(cs: seq<Component>, binSize: nat, cut: nat -> nat, lim: Limits, size: nat)
    requires NeedsPacking(cs, binSize) && |NonMax(cs)| <= HighLimit(cs, binSize, cut)
    requires HasSizeLimits(lim, NonMax(cs)) && forall c | c in NonMax(cs) :: c.size == size
    ensures Unpackable(cs, binSize, cut, lim)
  {
    EqualSizes(NonMax(cs), size);
    LargeStop(cs, binSize, cut, lim);
  }

  lemma EqualSizes(cs: seq<Component>, size: nat)
    requires cs != [] && forall c | c in cs :: c.size == size
    ensures Median(cs) == size as real && MedianDeviation(cs) == 0.0
  {
    assert forall i | 0 <= i < |cs| :: cs[i] in cs;
    MiddleOfEqual(Sizes(cs), size as real);
    var deviations := Deviations(Sizes(cs), size as real);
    SortPermutes(deviations, RealLe);
    assert forall x | x in deviations :: x == 0.0;
    MiddleOfEqual(Sort(deviations, RealLe), 0.0);
  }

  lemma MiddleOfEqual(s: seq<real>, v: real)
    requires s != [] && forall x | x in s :: x == v
    ensures Middle(s) == v
  {
    assert s[|s| / 2] in s;
    if |s| % 2 == 0 {
      assert s[|s| / 2 - 1] in s;
    }
  }

  // ---- what the median is ----

  function Count(s: seq<real>, p: real -> bool): nat {
    if s == [] then 0 else (if p(s[0]) then 1 else 0) + Count(s[1..], p)
  }

  /** At least half of the values are not above it, and at least half not below it. */
  predicate Halves(s: seq<real>, m: real) {
    2 * Count(s, x => x <= m) >= |s| && 2 * Count(s, x => x >= m) >= |s|
  }

  lemma {:induction false} PartCounted(s: seq<real>, i: nat, j: nat, p: real -> bool)
    requires i <= j <= |s| && forall k | i <= k < j :: p(s[k])
    ensures Count(s, p) >= j - i
  {
    if i < j || i > 0 {
      PartCounted(s[1..], if i > 0 then i - 1 else 0, j - 1, p);
    }
  }

  lemma RisingHalves(s: seq<real>)
    requires s != [] && forall i, j | 0 <= i < j < |s| :: s[i] <= s[j]
    ensures Halves(s, Middle(s))
  {
    var m, h := Middle(s), (|s| + 1) / 2;
    assert |s| % 2 == 0 ==> s[h - 1] <= m <= s[h];
    PartCounted(s, 0, h, x => x <= m);
    PartCounted(s, |s| - h, |s|, x => x >= m);
  }

  lemma FallingHalves(s: seq<real>)
    requires s != [] && forall i, j | 0 <= i < j < |s| :: s[i] >= s[j]
    ensures Halves(s, Middle(s))
  {
    var m, h := Middle(s), (|s| + 1) / 2;
    assert |s| % 2 == 0 ==> s[h - 1] >= m >= s[h];
    PartCounted(s, 0, h, x => x >= m);
    PartCounted(s, |s| - h, |s|, x => x <= m);
  }

  lemma SortedRising(s: seq<real>)
    ensures var t := Sort(s, RealLe);
      |t| == |s| && forall i, j | 0 <= i < j < |t| :: t[i] <= t[j]
  {
    SortPermutes(s, RealLe);
    SortSorts(s, RealLe);
  }

  lemma {:induction false} InsertCount(x: real, s: seq<real>, p: real -> bool)
    ensures Count(Insert(x, s, RealLe), p) == Count([x], p) + Count(s, p)
  {
    if s != [] && !RealLe(x, s[0]) {
      InsertCount(x, s[1..], p);
      assert Insert(x, s, RealLe)[1..] == Insert(x, s[1..], RealLe);
    } else {
      assert ([x] + s)[1..] == s;
    }
  }

  lemma {:induction false} SortCount(s: seq<real>, p: real -> bool)
    ensures Count(Sort(s, RealLe), p) == Count(s, p)
  {
    if s != [] {
      SortCount(s[1..], p);
      InsertCount(s[0], Sort(s[1..], RealLe), p);
    }
  }

  /** For components of descending size, as they come here, both statistics are medians: of the sizes,
      and of their distances from the first. */
  lemma Medians(cs: seq<Component>)
    requires cs != [] && Descending(cs)
    ensures Halves(Sizes(cs), Median(cs))
    ensures Halves(Deviations(Sizes(cs), Median(cs)), MedianDeviation(cs))
  {
    FallingHalves(Sizes(cs));
    var deviations := Deviations(Sizes(cs), Median(cs));
    SortPermutes(deviations, RealLe);
    SortedRising(deviations);
    RisingHalves(Sort(deviations, RealLe));
    SortCount(deviations, x => x <= MedianDeviation(cs));
    SortCount(deviations, x => x >= MedianDeviation(cs));
  }
}
