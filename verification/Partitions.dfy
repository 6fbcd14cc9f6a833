/** Division of components by size and change frequency (lib/src/chunking.rs,
    `get_partitions_with_threshold`).  The statistical limits are arbitrary reals. */
module Partitions {
  import opened Outcomes
  import opened Seqs
  import opened Sorting

  datatype Component = Component(id: string, name: string, size: nat, frequency: nat)

  datatype Limits = Limits(
    sizeLow: real, sizeHigh: real,
    medFreqLow: real, medFreqHigh: real,
    medSizeLow: real, medSizeHigh: real)
  {
    predicate IsHigh(c: Component) { c.size as real >= sizeHigh }

    predicate IsLow(c: Component) { !IsHigh(c) && c.size as real <= sizeLow }

    predicate IsMedium(c: Component) { !IsHigh(c) && !IsLow(c) }

    /** 0 for high, 1 for medium, 2 for low change frequency. */
    function FrequencyClass(c: Component): (k: nat)
      ensures k < 3
    {
      if c.frequency as real >= medFreqHigh then 0
      else if c.frequency as real <= medFreqLow then 2
      else 1
    }

    /** 0 for `hs`, 1 for `ls`, 2 for `ms`: the order of the names. */
    function SizeClass(c: Component): (k: nat)
      ensures k < 3
    {
      if c.size as real >= medSizeHigh then 0
      else if c.size as real <= medSizeLow then 1
      else 2
    }

    function Bucket(c: Component): (k: nat)
      ensures FIRST_BUCKET <= k < PARTITIONS
    {
      FIRST_BUCKET + 3 * FrequencyClass(c) + SizeClass(c)
    }
  }

  /** Partitions in the order of their names: `1hs`, `2ls`, `3hf_hs`, ..., `5lf_ms`.
      An absent map entry is an empty sequence. */
  const HIGH := 0
  const LOW := 1
  const FIRST_BUCKET := 2
  const PARTITIONS := 11

  predicate FrequencyLe(a: Component, b: Component) { a.frequency <= b.frequency }

  function High(cs: seq<Component>, lim: Limits): seq<Component> {
    Filter(cs, (c: Component) => lim.IsHigh(c))
  }

  function Low(cs: seq<Component>, lim: Limits): seq<Component> {
    Filter(cs, (c: Component) => lim.IsLow(c))
  }

  function Medium(cs: seq<Component>, lim: Limits): seq<Component> {
    Filter(cs, (c: Component) => lim.IsMedium(c))
  }

  /** How many high-size components keep a bin of their own. */
  function Kept(cs: seq<Component>, limitHs: nat, lim: Limits): nat {
    Min(limitHs, |High(cs, lim)|)
  }

  /** The spilled high-size components followed by the medium ones. */
  function Remaining(cs: seq<Component>, limitHs: nat, lim: Limits): seq<Component> {
    High(cs, lim)[Kept(cs, limitHs, lim)..] + Medium(cs, lim)
  }

  function InBucket(cs: seq<Component>, k: nat, lim: Limits): seq<Component> {
    Filter(cs, (c: Component) => lim.Bucket(c) == k)
  }

  /** The large ones kept, the small ones, and the buckets of the others by frequency. */
  ghost predicate IsPartition(p: seq<seq<Component>>, cs: seq<Component>, limitHs: nat, lim: Limits) {
    && |p| == PARTITIONS
    && p[HIGH] == High(cs, lim)[..Kept(cs, limitHs, lim)]
    && p[LOW] == Low(cs, lim)
    && forall k | FIRST_BUCKET <= k < PARTITIONS ::
         p[k] == InBucket(Sort(Remaining(cs, limitHs, lim), FrequencyLe), k, lim)
  }

  function Parts(cs: seq<Component>, limitHs: nat, lim: Limits): seq<seq<Component>> {
    var sorted := Sort(Remaining(cs, limitHs, lim), FrequencyLe);
    seq(PARTITIONS, k requires 0 <= k < PARTITIONS =>
      if k == HIGH then High(cs, lim)[..Kept(cs, limitHs, lim)]
      else if k == LOW then Low(cs, lim)
      else InBucket(sorted, k, lim))
  }

  lemma PartsArePartition(cs: seq<Component>, limitHs: nat, lim: Limits)
    ensures IsPartition(Parts(cs, limitHs, lim), cs, limitHs, lim)
  {
  }

  lemma PartsUnique(p: seq<seq<Component>>, cs: seq<Component>, limitHs: nat, lim: Limits)
    requires IsPartition(p, cs, limitHs, lim)
    ensures p == Parts(cs, limitHs, lim)
  {
  }

  method GetPartitions(cs: seq<Component>, limitHs: nat, lim: Limits) returns (r: Option<seq<seq<Component>>>)
    ensures r == if Remaining(cs, limitHs, lim) == [] then None else Some(Parts(cs, limitHs, lim))
  {
    var p := seq(PARTITIONS, _ => []);
    var high, medium := [], [];
    for i := 0 to |cs|
      invariant |p| == PARTITIONS
      invariant high == High(cs[..i], lim)
      invariant p[LOW] == Low(cs[..i], lim)
      invariant medium == Medium(cs[..i], lim)
      invariant forall k | 0 <= k < PARTITIONS && k != LOW :: p[k] == []
    {
      var c := cs[i];
      FilterSnoc(cs, i, (c: Component) => lim.IsHigh(c));
      FilterSnoc(cs, i, (c: Component) => lim.IsLow(c));
      FilterSnoc(cs, i, (c: Component) => lim.IsMedium(c));
      if lim.IsHigh(c) { high := high + [c]; }
      else if lim.IsLow(c) { p := p[LOW := p[LOW] + [c]]; }
      else { medium := medium + [c]; }
    }
    assert cs[..|cs|] == cs;
    var keep := Min(limitHs, |high|);
    var remaining := high[keep..] + medium;
    high := high[..keep];
    p := p[HIGH := high];
    if remaining == [] { return None; }
    SortPermutes(remaining, FrequencyLe);
    var sorted := Sort(remaining, FrequencyLe);
    for i := 0 to |sorted|
      invariant |p| == PARTITIONS && p[HIGH] == high && p[LOW] == Low(cs, lim)
      invariant forall k | FIRST_BUCKET <= k < PARTITIONS :: p[k] == InBucket(sorted[..i], k, lim)
    {
      forall k | FIRST_BUCKET <= k < PARTITIONS
        ensures InBucket(sorted[..i + 1], k, lim)
             == InBucket(sorted[..i], k, lim) + if lim.Bucket(sorted[i]) == k then [sorted[i]] else []
      {
        FilterSnoc(sorted, i, (c: Component) => lim.Bucket(c) == k);
      }
      var b := lim.Bucket(sorted[i]);
      p := p[b := p[b] + [sorted[i]]];
    }
    assert sorted[..|sorted|] == sorted;
    PartsUnique(p, cs, limitHs, lim);
    return Some(p);
  }

  // ---- the partitions cover the input exactly ----

  lemma {:induction false} SizesCover(cs: seq<Component>, lim: Limits)
    ensures multiset(High(cs, lim)) + multiset(Low(cs, lim)) + multiset(Medium(cs, lim)) == multiset(cs)
  {
    if cs != [] {
      SizesCover(cs[..|cs| - 1], lim);
      assert cs == cs[..|cs| - 1] + [cs[|cs| - 1]];
    }
  }

  /** The contents of the buckets from `k` on, in order. */
  ghost function Buckets(s: seq<Component>, k: nat, lim: Limits): seq<Component>
    requires k <= PARTITIONS
    decreases PARTITIONS - k
  {
    if k == PARTITIONS then [] else InBucket(s, k, lim) + Buckets(s, k + 1, lim)
  }

  lemma {:induction false} FilterCount(s: seq<Component>, p: Component -> bool, x: Component)
    ensures multiset(Filter(s, p))[x] == if p(x) then multiset(s)[x] else 0
  {
    if s != [] {
      FilterCount(s[..|s| - 1], p, x);
      assert s == s[..|s| - 1] + [s[|s| - 1]];
    }
  }

  lemma {:induction false} BucketsCount(s: seq<Component>, k: nat, x: Component, lim: Limits)
    requires k <= PARTITIONS
    ensures multiset(Buckets(s, k, lim))[x] == if lim.Bucket(x) >= k then multiset(s)[x] else 0
    decreases PARTITIONS - k
  {
    if k < PARTITIONS {
      FilterCount(s, (c: Component) => lim.Bucket(c) == k, x);
      BucketsCount(s, k + 1, x, lim);
    }
  }

  lemma BucketsCover(s: seq<Component>, k: nat, lim: Limits)
    requires k <= FIRST_BUCKET
    ensures multiset(Buckets(s, k, lim)) == multiset(s)
  {
    forall x
      ensures multiset(Buckets(s, k, lim))[x] == multiset(s)[x]
    {
      BucketsCount(s, k, x, lim);
    }
  }

  lemma {:induction false} FlattenBuckets(p: seq<seq<Component>>, s: seq<Component>, k: nat, lim: Limits)
    requires |p| == PARTITIONS && FIRST_BUCKET <= k <= PARTITIONS
    requires forall j | FIRST_BUCKET <= j < PARTITIONS :: p[j] == InBucket(s, j, lim)
    ensures Flatten(p[k..]) == Buckets(s, k, lim)
    decreases PARTITIONS - k
  {
    if k < PARTITIONS {
      FlattenBuckets(p, s, k + 1, lim);
      assert p[k..][1..] == p[k + 1..];
    }
  }

  lemma BucketsHoldRemaining(p: seq<seq<Component>>, cs: seq<Component>, limitHs: nat, lim: Limits)
    requires IsPartition(p, cs, limitHs, lim)
    ensures multiset(Flatten(p[FIRST_BUCKET..])) == multiset(Remaining(cs, limitHs, lim))
  {
    var sorted := Sort(Remaining(cs, limitHs, lim), FrequencyLe);
    SortPermutes(Remaining(cs, limitHs, lim), FrequencyLe);
    var k := FIRST_BUCKET;
    BucketsCover(sorted, k, lim);
    FlattenBuckets(p, sorted, k, lim);
  }

  lemma FlattenTwo<T>(p: seq<seq<T>>, k: nat)
    requires |p| >= 2 == k
    ensures multiset(Flatten(p)) == multiset(p[0]) + multiset(p[1]) + multiset(Flatten(p[k..]))
  {
    assert p[1..][1..] == p[k..];
    assert Flatten(p) == p[0] + (p[1] + Flatten(p[k..]));
  }

  lemma KeptAndRemaining(cs: seq<Component>, limitHs: nat, lim: Limits)
    ensures multiset(High(cs, lim)[..Kept(cs, limitHs, lim)]) + multiset(Remaining(cs, limitHs, lim))
      == multiset(High(cs, lim)) + multiset(Medium(cs, lim))
  {
    var high, kept := High(cs, lim), Kept(cs, limitHs, lim);
    assert high == high[..kept] + high[kept..];
  }

  /** Every component is in exactly one partition, as often as it occurs. */
  lemma PartitionCovers(p: seq<seq<Component>>, cs: seq<Component>, limitHs: nat, lim: Limits)
    requires IsPartition(p, cs, limitHs, lim)
    ensures multiset(Flatten(p)) == multiset(cs)
  {
    var k: nat := FIRST_BUCKET;
    BucketsHoldRemaining(p, cs, limitHs, lim);
    FlattenTwo(p, k);
    KeptAndRemaining(cs, limitHs, lim);
    SizesCover(cs, lim);
    Sum(multiset(p[HIGH]), multiset(p[LOW]), multiset(Remaining(cs, limitHs, lim)), multiset(High(cs, lim)),
        multiset(Medium(cs, lim)));
  }

  lemma Sum<T>(kept: multiset<T>, low: multiset<T>, rest: multiset<T>, high: multiset<T>, medium: multiset<T>)
    requires kept + rest == high + medium
    ensures kept + low + rest == high + low + medium
  {
    assert kept + low + rest == low + (kept + rest);
    assert high + low + medium == low + (high + medium);
  }

  // ---- shape for input sorted by descending size ----

  ghost predicate Descending(cs: seq<Component>) {
    forall i, j | 0 <= i < j < |cs| :: cs[i].size >= cs[j].size
  }

  lemma {:induction false} DescendingSplits(cs: seq<Component>, lim: Limits)
    requires Descending(cs)
    ensures High(cs, lim) + Medium(cs, lim) + Low(cs, lim) == cs
  {
    if cs != [] {
      var t, x := cs[..|cs| - 1], cs[|cs| - 1];
      DescendingSplits(t, lim);
      SmallestLast(t, x, lim);
      assert cs == t + [x];
    }
  }

  lemma SmallestLast(t: seq<Component>, x: Component, lim: Limits)
    requires High(t, lim) + Medium(t, lim) + Low(t, lim) == t && forall y | y in t :: y.size >= x.size
    ensures High(t + [x], lim) + Medium(t + [x], lim) + Low(t + [x], lim) == t + [x]
  {
    NoneBelow(t, x, lim);
    ClassesSnoc(t, x, lim);
    AppendLast(High(t, lim), Medium(t, lim), Low(t, lim), x);
  }

  lemma ClassesSnoc(t: seq<Component>, x: Component, lim: Limits)
    ensures High(t + [x], lim) == High(t, lim) + if lim.IsHigh(x) then [x] else []
    ensures Medium(t + [x], lim) == Medium(t, lim) + if lim.IsMedium(x) then [x] else []
    ensures Low(t + [x], lim) == Low(t, lim) + if lim.IsLow(x) then [x] else []
  {
    assert (t + [x])[..|t|] == t;
  }

  lemma AppendLast<T>(a: seq<T>, b: seq<T>, c: seq<T>, x: T)
    ensures a + b + (c + [x]) == a + b + c + [x]
    ensures c == [] ==> a + (b + [x]) + (c + []) == a + b + c + [x]
    ensures b == c == [] ==> (a + [x]) + (b + []) + (c + []) == a + b + c + [x]
  {
  }

  /** Nothing at least as large as `x` falls into a class below that of `x`. */
  lemma NoneBelow(t: seq<Component>, x: Component, lim: Limits)
    requires forall y | y in t :: y.size >= x.size
    ensures !lim.IsLow(x) ==> Low(t, lim) == []
    ensures lim.IsHigh(x) ==> Medium(t, lim) == []
  {
    FilterAll(t, (c: Component) => lim.IsLow(c));
    FilterAll(t, (c: Component) => lim.IsMedium(c));
  }

  /** The high partition is a prefix, the low one a suffix, and the spilled and medium components
      are the contiguous middle. */
  lemma PartitionShape(p: seq<seq<Component>>, cs: seq<Component>, limitHs: nat, lim: Limits)
    requires Descending(cs) && IsPartition(p, cs, limitHs, lim)
    ensures |p[HIGH]| <= limitHs
    ensures cs == p[HIGH] + Remaining(cs, limitHs, lim) + p[LOW]
    ensures multiset(Flatten(p[FIRST_BUCKET..])) == multiset(Remaining(cs, limitHs, lim))
  {
    DescendingSplits(cs, lim);
    BucketsHoldRemaining(p, cs, limitHs, lim);
    assert High(cs, lim) == p[HIGH] + High(cs, lim)[Kept(cs, limitHs, lim)..];
  }

  /** No low-size component is in a bucket. */
  lemma BucketsNotLow(p: seq<seq<Component>>, cs: seq<Component>, limitHs: nat, lim: Limits)
    requires IsPartition(p, cs, limitHs, lim)
    ensures forall k | FIRST_BUCKET <= k < PARTITIONS :: forall c | c in p[k] :: !lim.IsLow(c)
  {
    var sorted := Sort(Remaining(cs, limitHs, lim), FrequencyLe);
    RemainingNotLow(cs, limitHs, lim);
    SortPermutes(Remaining(cs, limitHs, lim), FrequencyLe);
    forall k, c | FIRST_BUCKET <= k < PARTITIONS && c in p[k]
      ensures !lim.IsLow(c)
    {
      FilterMembers(sorted, (c: Component) => lim.Bucket(c) == k);
      assert c in sorted;
    }
  }

  lemma RemainingNotLow(cs: seq<Component>, limitHs: nat, lim: Limits)
    ensures forall c | c in Remaining(cs, limitHs, lim) :: !lim.IsLow(c)
  {
    FilterMembers(cs, (c: Component) => lim.IsHigh(c));
    FilterMembers(cs, (c: Component) => lim.IsMedium(c));
    var kept := Kept(cs, limitHs, lim);
    assert forall c | c in High(cs, lim)[kept..] :: c in High(cs, lim);
  }

  /** Buckets are sorted by frequency, and a component of a higher frequency class changes
      strictly more often than one of a lower class. */
  lemma BucketOrder(p: seq<seq<Component>>, cs: seq<Component>, limitHs: nat, lim: Limits)
    requires IsPartition(p, cs, limitHs, lim)
    ensures forall k | FIRST_BUCKET <= k < PARTITIONS :: Sorted(p[k], FrequencyLe)
    ensures forall k | FIRST_BUCKET <= k < PARTITIONS :: forall c | c in p[k] :: lim.Bucket(c) == k
    ensures forall j, k, a, b |
        FIRST_BUCKET <= j < k < PARTITIONS && a in p[j] && b in p[k]
        && lim.FrequencyClass(a) != lim.FrequencyClass(b) :: a.frequency > b.frequency
  {
    var sorted := Sort(Remaining(cs, limitHs, lim), FrequencyLe);
    SortSorts(Remaining(cs, limitHs, lim), FrequencyLe);
    forall k | FIRST_BUCKET <= k < PARTITIONS
      ensures Sorted(p[k], FrequencyLe)
      ensures forall c | c in p[k] :: lim.Bucket(c) == k
    {
      FilterOrder(sorted, (c: Component) => lim.Bucket(c) == k, FrequencyLe);
      FilterMembers(sorted, (c: Component) => lim.Bucket(c) == k);
    }
  }

  /** Where a component goes, by its size and its change frequency. */
  predicate Classified(c: Component, k: nat, lim: Limits) {
    var size, frequency := c.size as real, c.frequency as real;
    match k
    case 0 => size >= lim.sizeHigh
    case 1 => lim.sizeHigh > size && size <= lim.sizeLow
    case _ =>
      && (size >= lim.sizeHigh || size > lim.sizeLow)
      && (2 <= k <= 4 <==> frequency >= lim.medFreqHigh)
      && (8 <= k <= 10 <==> lim.medFreqHigh > frequency && frequency <= lim.medFreqLow)
      && (k == 2 || k == 5 || k == 8 <==> size >= lim.medSizeHigh)
      && (k == 3 || k == 6 || k == 9 <==> lim.medSizeHigh > size && size <= lim.medSizeLow)
  }

  /** Every component in a partition belongs there; and a large one is elsewhere only if as many
      large ones as allowed are kept. */
  lemma PartitionMeaning(p: seq<seq<Component>>, cs: seq<Component>, limitHs: nat, lim: Limits)
    requires IsPartition(p, cs, limitHs, lim)
    ensures forall k | 0 <= k < 11 :: forall c | c in p[k] :: Classified(c, k, lim)
    ensures forall k | 2 <= k < 11 :: forall c | c in p[k] && c.size as real >= lim.sizeHigh :: |p[0]| == limitHs
  {
    FilterMembers(cs, (c: Component) => lim.IsHigh(c));
    FilterMembers(cs, (c: Component) => lim.IsLow(c));
    assert forall c | c in p[HIGH] :: c in High(cs, lim);
    forall k, c | 2 <= k < 11 && c in p[k]
      ensures Classified(c, k, lim)
      ensures c.size as real >= lim.sizeHigh ==> |p[0]| == limitHs
    {
      InItsBucket(p, cs, limitHs, lim, k, c);
      BucketClassified(c, k, lim);
      if lim.IsHigh(c) {
        SpilledLarge(p, cs, limitHs, lim, k, c);
      }
    }
  }

  lemma InItsBucket(p: seq<seq<Component>>, cs: seq<Component>, limitHs: nat, lim: Limits, k: nat, c: Component)
    requires IsPartition(p, cs, limitHs, lim) && FIRST_BUCKET <= k < PARTITIONS && c in p[k]
    ensures lim.Bucket(c) == k && !lim.IsLow(c)
  {
    BucketsNotLow(p, cs, limitHs, lim);
    FilterMembers(Sort(Remaining(cs, limitHs, lim), FrequencyLe), (c: Component) => lim.Bucket(c) == k);
  }

  lemma BucketClassified(c: Component, k: nat, lim: Limits)
    requires lim.Bucket(c) == k && !lim.IsLow(c)
    ensures Classified(c, k, lim)
  {
  }

  lemma SpilledLarge(p: seq<seq<Component>>, cs: seq<Component>, limitHs: nat, lim: Limits, k: nat, c: Component)
    requires IsPartition(p, cs, limitHs, lim) && FIRST_BUCKET <= k < PARTITIONS && c in p[k] && lim.IsHigh(c)
    ensures |p[HIGH]| == limitHs
  {
    var sorted := Sort(Remaining(cs, limitHs, lim), FrequencyLe);
    FilterMembers(sorted, (c: Component) => lim.Bucket(c) == k);
    SortPermutes(Remaining(cs, limitHs, lim), FrequencyLe);
    FilterMembers(cs, (c: Component) => lim.IsMedium(c));
    assert c in High(cs, lim)[Kept(cs, limitHs, lim)..];
  }
}
