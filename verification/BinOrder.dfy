/** Whether a packing runs from often to rarely changed components, as it is meant to
    (lib/src/chunking.rs, `basic_packing`). */
module BinOrder {
  import opened Outcomes
  import opened Seqs
  import opened Partitions
  import opened Folding
  import opened Packing
  import opened EmptyBins
  import B = PriorBuild

  // ---- frequency order across the buckets ----

  lemma {:induction false} BucketsAtLeast(s: seq<Component>, k: nat, lim: Limits)
    requires k <= PARTITIONS
    ensures forall c | c in Buckets(s, k, lim) :: lim.Bucket(c) >= k
    decreases PARTITIONS - k
  {
    if k < PARTITIONS {
      BucketsAtLeast(s, k + 1, lim);
      FilterMembers(s, (c: Component) => lim.Bucket(c) == k);
    }
  }

  lemma BucketClass(a: Component, b: Component, lim: Limits)
    ensures lim.Bucket(a) <= lim.Bucket(b) ==> lim.FrequencyClass(a) <= lim.FrequencyClass(b)
  {
  }

  lemma {:induction false} BucketsOrdered(s: seq<Component>, k: nat, lim: Limits)
    requires FIRST_BUCKET <= k <= PARTITIONS
    ensures FrequencyOrdered(Buckets(s, k, lim), lim)
    decreases PARTITIONS - k
  {
    if k < PARTITIONS {
      BucketsOrdered(s, k + 1, lim);
      BucketsAtLeast(s, k + 1, lim);
      FilterMembers(s, (c: Component) => lim.Bucket(c) == k);
      BucketFirst(InBucket(s, k, lim), Buckets(s, k + 1, lim), k, lim);
      OrderedConcat(InBucket(s, k, lim), Buckets(s, k + 1, lim), lim);
    }
  }

  lemma BucketFirst(a: seq<Component>, b: seq<Component>, k: nat, lim: Limits)
    requires (forall c | c in a :: lim.Bucket(c) == k) && forall c | c in b :: lim.Bucket(c) >= k
    ensures FrequencyOrdered(a, lim) && Before(a, b, lim)
  {
    forall x, y | x in a && y in a
      ensures InOrder(x, y, lim)
    {
      BucketClass(x, y, lim);
    }
    forall x, y | x in a && y in b
      ensures InOrder(x, y, lim)
    {
      BucketClass(x, y, lim);
    }
  }

  // ---- the bins before folding ----

  /** Before folding, the bins after the kept components run from high to low frequency. */
  lemma UnfoldedOrder(p: seq<seq<Component>>, cs: seq<Component>, limitHs: nat, perBin: nat, lim: Limits)
    requires IsPartition(p, cs, limitHs, lim)
    ensures |p[HIGH]| <= |Assigned(p, perBin)|
    ensures FrequencyOrdered(Flatten(Assigned(p, perBin)[|p[HIGH]|..]), lim)
  {
    var k: nat := FIRST_BUCKET;
    AllAssigned(p, perBin);
    AfterKept(p, Assigned(p, perBin), k);
    FlattenBuckets(p, Sorting.Sort(Remaining(cs, limitHs, lim), FrequencyLe), k, lim);
    BucketsOrdered(Sorting.Sort(Remaining(cs, limitHs, lim), FrequencyLe), k, lim);
    assert FrequencyOrdered(p[LOW] + Flatten(p[k..]), lim) by {
      FilterMembers(cs, (c: Component) => lim.IsLow(c));
      LowFirst(p[LOW], Flatten(p[k..]), lim);
    }
  }

  lemma LowFirst(low: seq<Component>, rest: seq<Component>, lim: Limits)
    requires (forall c | c in low :: lim.IsLow(c)) && FrequencyOrdered(rest, lim)
    ensures FrequencyOrdered(low + rest, lim)
  {
    OrderedConcat(low, rest, lim);
  }

  /** The bins after the kept components hold the low-size ones, then the buckets. */
  lemma AfterKept(p: seq<seq<Component>>, bins: Bins, k: nat)
    requires |p| == PARTITIONS && k == FIRST_BUCKET && |p[HIGH]| <= |bins|
    requires Flatten(bins) == Flatten(p) && bins[..|p[HIGH]|] == Singletons(p[HIGH])
    ensures Flatten(bins[|p[HIGH]|..]) == p[LOW] + Flatten(p[k..])
  {
    var rest := bins[|p[HIGH]|..];
    assert bins == Singletons(p[HIGH]) + rest;
    FlattenConcat(Singletons(p[HIGH]), rest);
    FlattenSingletons(p[HIGH]);
    assert p[1..][0] == p[LOW] && p[1..][1..] == p[k..];
    SamePrefix(p[HIGH], Flatten(rest), p[LOW] + Flatten(p[k..]));
  }

  predicate FromBuckets(p: seq<seq<Component>>, b: seq<Component>) {
    forall c | c in b :: exists k :: FIRST_BUCKET <= k < |p| && c in p[k]
  }

  /** After the kept components and the low-size bin come the bins of the buckets. */
  lemma {:induction false} BucketBins(p: seq<seq<Component>>, k: nat, perBin: nat)
    requires 1 <= k <= |p| == PARTITIONS
    ensures var r := AssignedUpTo(p, k, perBin);
      && |r| >= |p[HIGH]| && (k <= LOW + 1 ==> |r| <= |p[HIGH]| + 1)
      && forall i | |p[HIGH]| < i < |r| :: FromBuckets(p, r[i])
    decreases k
  {
    if k > 1 {
      BucketBins(p, k - 1, perBin);
      if k - 1 > LOW {
        var cut := CutFrom([], p[k - 1], perBin);
        CutBins([], p[k - 1], perBin);
        FlattenMembers(cut);
        assert forall i | 0 <= i < |cut| :: cut[i] in cut && forall c | c in cut[i] :: c in p[k - 1];
      }
    }
  }

  lemma UnfoldedLive(p: seq<seq<Component>>, cs: seq<Component>, limitHs: nat, perBin: nat, lim: Limits)
    requires IsPartition(p, cs, limitHs, lim) && perBin >= 1
    ensures Live(Assigned(p, perBin), 1 + limitHs, lim)
  {
    var bins := Assigned(p, perBin);
    BinsFilled(p, |p|, perBin);
    BucketBins(p, |p|, perBin);
    BucketsNotLow(p, cs, limitHs, lim);
    forall i | 1 + limitHs <= i < |bins|
      ensures Holds(bins[i], lim)
    {
      assert bins[i] != [] && bins[i][0] in bins[i];
    }
  }

  /** Of two neighbouring bins of buckets one holds a component, and none of those is small. */
  lemma UnfoldedPairs(p: seq<seq<Component>>, cs: seq<Component>, limitHs: nat, perBin: nat, lim: Limits)
    requires IsPartition(p, cs, limitHs, lim) && |p[HIGH]| < limitHs && 1 + limitHs < |Assigned(p, perBin)|
    ensures LivePairs(Assigned(p, perBin), 1 + limitHs, lim)
  {
    var bins := Assigned(p, perBin);
    AssignedSpaced(p, |p|, perBin);
    BucketBins(p, |p|, perBin);
    BucketsNotLow(p, cs, limitHs, lim);
    forall k: nat | limitHs <= k < |bins| - 1
      ensures LivePair(bins, k, lim)
    {
      assert !EmptyPair(bins, k) && FromBuckets(p, bins[k]) && FromBuckets(p, bins[k + 1]);
      var c := (bins[k] + bins[k + 1])[0];
      assert c in bins[k] || c in bins[k + 1];
      assert c in bins[k] + bins[k + 1];
    }
    assert FromBuckets(p, bins[|bins| - 1]) && bins[|bins| - 1][0] in bins[|bins| - 1];
  }

  /** With few full bins, the first of them kept, one pass is enough. */
  lemma OnePass(bins: Bins, kept: nat, limit: nat)
    requires Spaced(bins) && 1 <= 1 + kept < limit < |bins| && FullBins(bins) < limit
    requires forall i | 0 <= i < kept :: bins[i] != []
    ensures |Pass(bins, 1 + kept, limit)| == limit
  {
    var head, rest := bins[..kept], bins[kept..];
    assert bins == head + rest;
    FullConcat(head, rest);
    NoneEmptyFull(head);
    assert Spaced(rest) by {
      assert forall i: nat | i < |rest| - 1 :: EmptyPair(rest, i) == EmptyPair(bins, kept + i);
    }
    HalfFull(rest);
    PassLength(bins, 1 + kept, limit);
  }

  // ---- the order of the packing ----

  /** The bins after the kept ones run from high to low frequency. */
  ghost predicate KeptInOrder(r: Bins, kept: nat, lim: Limits) {
    kept <= |r| && FrequencyOrdered(Flatten(r[kept..]), lim)
  }

  /** There is nothing to fold, or the fold keeps the order. */
  ghost predicate FoldsInOrder(unfolded: Bins, lo: nat, limit: nat, lim: Limits)
    requires 1 <= lo < limit
  {
    |unfolded| <= limit || FoldInOrder(unfolded, lo, limit, lim)
  }

  /** There is nothing to fold, or only components of one frequency class move. */
  ghost predicate FoldMovesOneClass(unfolded: Bins, lo: nat, limit: nat, lim: Limits)
    requires 1 <= lo < limit
  {
    |unfolded| <= limit || MovesOneClass(unfolded, lo, limit, lim)
  }

  /** The packing keeps the frequency order it promises exactly when its first fold puts nothing
      before what changes more often and further ones move a single class; and if each bin may hold
      a component, exactly when all folds move a single class. */
  lemma PackingOrder(cs: seq<Component>, binSize: nat, limitMax: nat, limitHs: nat, unfolded: Bins, r: Bins,
                     lim: Limits)
    requires limitHs + 2 + limitMax < binSize
    requires PackedBySize(cs, binSize, limitMax, limitHs, lim) == Returned(r)
    requires unfolded == Unfolded(cs, binSize, limitMax, limitHs, lim)
    ensures KeptInOrder(r, Kept(cs, limitHs, lim), lim)
      <==> FoldsInOrder(unfolded, 1 + limitHs, binSize - 1 - limitMax, lim)
    ensures PerBin(cs, binSize, limitMax, limitHs, lim) >= 1 ==>
      (KeptInOrder(r, Kept(cs, limitHs, lim), lim)
       <==> FoldMovesOneClass(unfolded, 1 + limitHs, binSize - 1 - limitMax, lim))
  {
    var perBin := PerBin(cs, binSize, limitMax, limitHs, lim);
    PartsArePartition(cs, limitHs, lim);
    UnfoldedInOrder(Parts(cs, limitHs, lim), cs, limitHs, perBin, lim);
    if perBin == 0 {
      FewFull(cs, binSize, limitMax, limitHs, lim, unfolded);
    }
    PackedOrder(cs, Parts(cs, limitHs, lim), limitHs, perBin, unfolded, binSize - 1 - limitMax, r, lim);
  }

  lemma UnfoldedInOrder(p: seq<seq<Component>>, cs: seq<Component>, limitHs: nat, perBin: nat, lim: Limits)
    requires IsPartition(p, cs, limitHs, lim)
    ensures |p[HIGH]| == Kept(cs, limitHs, lim) && KeptInOrder(Assigned(p, perBin), |p[HIGH]|, lim)
  {
    UnfoldedOrder(p, cs, limitHs, perBin, lim);
  }

  lemma PackedOrder(cs: seq<Component>, p: seq<seq<Component>>, limitHs: nat, perBin: nat, unfolded: Bins, limit: nat,
                    r: Bins, lim: Limits)
    requires IsPartition(p, cs, limitHs, lim) && unfolded == Assigned(p, perBin) && 1 + limitHs < limit
    requires KeptInOrder(unfolded, |p[HIGH]|, lim) && r == Fold(unfolded, 1 + limitHs, limit)
    requires perBin == 0 ==> FullBins(unfolded) < limit
    ensures KeptInOrder(r, |p[HIGH]|, lim) <==> FoldsInOrder(unfolded, 1 + limitHs, limit, lim)
    ensures perBin >= 1 ==>
      (KeptInOrder(r, |p[HIGH]|, lim) <==> FoldMovesOneClass(unfolded, 1 + limitHs, limit, lim))
  {
    var lo := 1 + limitHs;
    assert |p[HIGH]| < lo;
    if |unfolded| > limit {
      UnfoldedReady(cs, p, limitHs, perBin, unfolded, limit, lim);
      PairsFoldOrder(unfolded, lo, limit, |p[HIGH]|, lim);
      if perBin >= 1 {
        UnfoldedLive(p, cs, limitHs, perBin, lim);
        FoldOrder(unfolded, lo, limit, |p[HIGH]|, lim);
      }
    }
  }

  lemma UnfoldedReady(cs: seq<Component>, p: seq<seq<Component>>, limitHs: nat, perBin: nat, unfolded: Bins, limit: nat,
                      lim: Limits)
    requires IsPartition(p, cs, limitHs, lim) && unfolded == Assigned(p, perBin) && 1 + limitHs < limit < |unfolded|
    requires perBin == 0 ==> FullBins(unfolded) < limit
    ensures |Pass(unfolded, 1 + limitHs, limit)| > limit ==> LivePairs(unfolded, 1 + limitHs, lim)
  {
    if perBin >= 1 {
      UnfoldedLive(p, cs, limitHs, perBin, lim);
      LiveIsPaired(unfolded, 1 + limitHs, lim);
    } else if |p[HIGH]| < limitHs {
      UnfoldedPairs(p, cs, limitHs, perBin, lim);
    } else {
      SinglePass(p, perBin, unfolded, limit);
    }
  }

  lemma SinglePass(p: seq<seq<Component>>, perBin: nat, unfolded: Bins, limit: nat)
    requires |p| == PARTITIONS && unfolded == Assigned(p, perBin)
    requires 1 + |p[HIGH]| < limit < |unfolded| && FullBins(unfolded) < limit
    ensures |Pass(unfolded, 1 + |p[HIGH]|, limit)| == limit
  {
    AssignedSpaced(p, |p|, perBin);
    AllAssigned(p, perBin);
    forall i | 0 <= i < |p[HIGH]|
      ensures unfolded[i] != []
    {
      assert unfolded[i] == unfolded[..|p[HIGH]|][i] == [p[HIGH][i]];
    }
    OnePass(unfolded, |p[HIGH]|, limit);
  }

  // ---- a packing out of order ----

  lemma FilterSole<T>(s: seq<T>, x: T, p: T -> bool)
    requires NoDup(s) && x in s && p(x) && forall y | y in s && p(y) :: y == x
    ensures Filter(s, p) == [x]
  {
    FilterMembers(s, p);
    FilterNoDup(s, p);
    Sole(Filter(s, p), x);
  }

  lemma {:induction false} SameCount<T>(t: seq<T>, x: T)
    requires forall y | y in t :: y == x
    ensures multiset(t)[x] == |t|
  {
    if t != [] {
      assert forall y | y in t[1..] :: y in t;
      SameCount(t[1..], x);
      assert t[0] in t && t == [t[0]] + t[1..];
    }
  }

  lemma Sole<T>(t: seq<T>, x: T)
    requires NoDup(t) && x in t && forall y | y in t :: y == x
    ensures t == [x]
  {
    SameCount(t, x);
    NoDupCount(t, x);
  }

  lemma {:induction false} AssignedSkip(p: seq<seq<Component>>, j: nat, k: nat, perBin: nat)
    requires 1 <= j <= k <= |p| == PARTITIONS && forall m | j <= m < k :: p[m] == []
    ensures AssignedUpTo(p, k, perBin) == AssignedUpTo(p, j, perBin)
    decreases k
  {
    if j < k {
      AssignedSkip(p, j, k - 1, perBin);
    }
  }

  /** The next bucket that is not empty holds `x` alone. */
  lemma AssignedNext(p: seq<seq<Component>>, j: nat, k: nat, x: Component, perBin: nat)
    requires 1 <= j <= k < |p| == PARTITIONS && k >= FIRST_BUCKET && (forall m | j <= m < k :: p[m] == [])
    requires p[k] == [x] && perBin >= 1
    ensures AssignedUpTo(p, k + 1, perBin) == AssignedUpTo(p, j, perBin) + [[x]]
  {
    AssignedSkip(p, j, k, perBin);
    assert [] + [[x][0]] == [x] && [x][1..] == [];
    assert CutFrom([], [x], perBin) == CutFrom([x], [], perBin);
  }

  lemma BucketAlone(cs: seq<Component>, k: nat, x: Component, lim: Limits)
    requires NoDup(cs) && x in cs && lim.Bucket(x) == k
    requires forall y | y in cs && y != x :: lim.Bucket(y) != k
    ensures InBucket(Sorting.Sort(cs, FrequencyLe), k, lim) == [x]
  {
    Sorting.SortPermutes(cs, FrequencyLe);
    B.PermutedNoDup(cs, Sorting.Sort(cs, FrequencyLe));
    FilterSole(Sorting.Sort(cs, FrequencyLe), x, (c: Component) => lim.Bucket(c) == k);
  }

  lemma BucketVoid(cs: seq<Component>, k: nat, lim: Limits)
    requires forall y | y in cs :: lim.Bucket(y) != k
    ensures InBucket(Sorting.Sort(cs, FrequencyLe), k, lim) == []
  {
    Sorting.SortPermutes(cs, FrequencyLe);
    FilterAll(Sorting.Sort(cs, FrequencyLe), (c: Component) => lim.Bucket(c) == k);
  }

  /** Components of increasing buckets, neither large nor small. */
  ghost predicate Apart(cs: seq<Component>, lim: Limits) {
    && (forall x | x in cs :: lim.IsMedium(x))
    && forall i, j | 0 <= i < j < |cs| :: lim.Bucket(cs[i]) < lim.Bucket(cs[j])
  }

  lemma ApartRemain(cs: seq<Component>, limitHs: nat, lim: Limits)
    requires Apart(cs, lim)
    ensures High(cs, lim) == Low(cs, lim) == [] && Remaining(cs, limitHs, lim) == cs
  {
    FilterAll(cs, (c: Component) => lim.IsHigh(c));
    FilterAll(cs, (c: Component) => lim.IsLow(c));
    FilterAll(cs, (c: Component) => lim.IsMedium(c));
    assert [] + cs == cs;
  }

  /** Each of the components is alone in its bucket. */
  ghost predicate Alone(p: seq<seq<Component>>, cs: seq<Component>, lim: Limits) {
    && |p| == PARTITIONS && p[HIGH] == p[LOW] == []
    && (forall i | 0 <= i < |cs| :: p[lim.Bucket(cs[i])] == [cs[i]])
    && forall k | FIRST_BUCKET <= k < |p| && Unused(cs, k, lim) :: p[k] == []
  }

  ghost predicate Unused(cs: seq<Component>, k: int, lim: Limits) {
    forall c | c in cs :: lim.Bucket(c) != k
  }

  lemma ApartAlone(cs: seq<Component>, limitHs: nat, lim: Limits)
    requires Apart(cs, lim)
    ensures Alone(Parts(cs, limitHs, lim), cs, lim)
  {
    var p := Parts(cs, limitHs, lim);
    ApartRemain(cs, limitHs, lim);
    PartsArePartition(cs, limitHs, lim);
    forall i | 0 <= i < |cs|
      ensures p[lim.Bucket(cs[i])] == [cs[i]]
    {
      ApartBucket(cs, i, lim);
      BucketAlone(cs, lim.Bucket(cs[i]), cs[i], lim);
    }
    forall k | FIRST_BUCKET <= k < |p| && Unused(cs, k, lim)
      ensures p[k] == []
    {
      BucketVoid(cs, k, lim);
    }
  }

  lemma ApartBucket(cs: seq<Component>, i: nat, lim: Limits)
    requires Apart(cs, lim) && i < |cs|
    ensures NoDup(cs) && forall y | y in cs && y != cs[i] :: lim.Bucket(y) != lim.Bucket(cs[i])
  {
    forall y | y in cs && y != cs[i]
      ensures lim.Bucket(y) != lim.Bucket(cs[i])
    {
      var j :| 0 <= j < |cs| && cs[j] == y;
      assert i < j || j < i;
    }
  }

  /** The first partition after the bucket of the `n`-th component. */
  function After(cs: seq<Component>, n: nat, lim: Limits): nat
    requires n <= |cs|
  {
    if n == 0 then LOW else lim.Bucket(cs[n - 1]) + 1
  }

  lemma {:induction false} AssignedAlone(p: seq<seq<Component>>, cs: seq<Component>, n: nat, perBin: nat, lim: Limits)
    requires Apart(cs, lim) && Alone(p, cs, lim) && n <= |cs| && perBin >= 1
    ensures AssignedUpTo(p, After(cs, n, lim), perBin) == Singletons(cs[..n])
    decreases n
  {
    if n == 0 {
      NoneAssigned(p, perBin);
    } else {
      AssignedAlone(p, cs, n - 1, perBin, lim);
      Gap(p, cs, n, lim.Bucket(cs[n - 1]), lim);
      assert cs[..n][..n - 1] == cs[..n - 1];
      OneMoreAlone(p, After(cs, n - 1, lim), lim.Bucket(cs[n - 1]), cs[..n], perBin);
    }
  }

  lemma OneMoreAlone(p: seq<seq<Component>>, j: nat, k: nat, xs: seq<Component>, perBin: nat)
    requires 1 <= j <= k < |p| == PARTITIONS && k >= FIRST_BUCKET && (forall m | j <= m < k :: p[m] == [])
    requires xs != [] && p[k] == [xs[|xs| - 1]] && perBin >= 1
    requires AssignedUpTo(p, j, perBin) == Singletons(xs[..|xs| - 1])
    ensures AssignedUpTo(p, k + 1, perBin) == Singletons(xs)
  {
    AssignedNext(p, j, k, xs[|xs| - 1], perBin);
    assert Singletons(xs) == Singletons(xs[..|xs| - 1]) + [[xs[|xs| - 1]]];
  }

  lemma NoneAssigned(p: seq<seq<Component>>, perBin: nat)
    requires |p| == PARTITIONS && p[HIGH] == []
    ensures AssignedUpTo(p, LOW, perBin) == []
  {
  }

  /** Nothing is between the buckets of neighbouring components, or after the last. */
  lemma Gap(p: seq<seq<Component>>, cs: seq<Component>, n: nat, end: nat, lim: Limits)
    requires Apart(cs, lim) && Alone(p, cs, lim) && 1 <= n <= |cs| + 1 && end <= |p|
    requires n <= |cs| ==> end == lim.Bucket(cs[n - 1])
    ensures 1 <= After(cs, n - 1, lim) && (end >= FIRST_BUCKET && n <= |cs| ==> After(cs, n - 1, lim) <= end)
    ensures forall m | After(cs, n - 1, lim) <= m < end :: p[m] == []
  {
    assert 1 < n <= |cs| ==> lim.Bucket(cs[n - 2]) < lim.Bucket(cs[n - 1]);
    forall m | After(cs, n - 1, lim) <= m < end
      ensures p[m] == []
    {
      forall c | c in cs
        ensures lim.Bucket(c) != m
      {
        var i :| 0 <= i < |cs| && cs[i] == c;
        assert i < n - 2 ==> lim.Bucket(cs[i]) < lim.Bucket(cs[n - 2]);
        assert i > n - 1 ==> lim.Bucket(cs[n - 1]) < lim.Bucket(cs[i]);
      }
      assert m >= FIRST_BUCKET ==> Unused(cs, m, lim);
    }
  }

  /** Before folding, such components are each in a bin of their own. */
  lemma AllAlone(cs: seq<Component>, p: seq<seq<Component>>, perBin: nat, lim: Limits)
    requires Apart(cs, lim) && Alone(p, cs, lim) && perBin >= 1
    ensures Assigned(p, perBin) == Singletons(cs)
  {
    var last := After(cs, |cs|, lim);
    assert AssignedUpTo(p, last, perBin) == Singletons(cs) by {
      AssignedAlone(p, cs, |cs|, perBin, lim);
      assert cs[..|cs|] == cs;
    }
    Gap(p, cs, |cs| + 1, |p|, lim);
    RestSkipped(p, last, perBin);
  }

  lemma RestSkipped(p: seq<seq<Component>>, j: nat, perBin: nat)
    requires 1 <= j <= |p| == PARTITIONS && forall m | j <= m < |p| :: p[m] == []
    ensures Assigned(p, perBin) == AssignedUpTo(p, j, perBin)
  {
    AssignedSkip(p, j, |p|, perBin);
  }

  lemma FourFolded(cs: seq<Component>, r: Bins, lo: nat, limit: nat)
    requires |cs| == 4 && r == Singletons(cs) && lo == 2 && limit == 3
    ensures Fold(r, lo, limit) == [[cs[0]], [cs[3]], [cs[1], cs[2]]]
  {
    MergeAtShape(r, lo);
    assert r[..1] == [[cs[0]]] && r[4..] == [] && r[1] + r[2] == [cs[1], cs[2]];
    assert MergeAt(r, lo) == [[cs[0]], [cs[3]], [cs[1], cs[2]]];
    assert Pass(r, lo, limit) == PassFrom(r, 2, lo, limit) == MergeAt(r, lo);
  }

  lemma FourPacked(cs: seq<Component>, binSize: nat, limitMax: nat, limitHs: nat, lim: Limits)
    requires |cs| == 4 && Apart(cs, lim) && binSize == 4 && limitMax == 0 && limitHs == 1
    ensures PackedBySize(cs, binSize, limitMax, limitHs, lim) == Returned([[cs[0]], [cs[3]], [cs[1], cs[2]]])
  {
    ApartRemain(cs, limitHs, lim);
    ApartAlone(cs, limitHs, lim);
    var perBin := PerBin(cs, binSize, limitMax, limitHs, lim);
    assert perBin == Share(3, 1) == 3;
    AllAlone(cs, Parts(cs, limitHs, lim), perBin, lim);
    FourFolded(cs, Unfolded(cs, binSize, limitMax, limitHs, lim), 1 + limitHs, binSize - 1 - limitMax);
  }

  lemma BelowMax(cs: seq<Component>)
    requires forall x | x in cs :: x.frequency != MAX_FREQUENCY
    ensures NonMax(cs) == cs && MaxOnly(cs) == []
  {
    FilterAll(cs, (c: Component) => c.frequency != MAX_FREQUENCY);
    FilterAll(cs, (c: Component) => c.frequency == MAX_FREQUENCY);
  }

  lemma FourClosed(cs: seq<Component>, binSize: nat, cut: nat -> nat, lim: Limits, sized: Bins)
    requires IsCutoff(cut) && binSize == |cs| == 4 && cut(2) == 1 && NonMax(cs) == cs && MaxOnly(cs) == []
    requires PackedBySize(cs, binSize, 0, 1, lim) == Returned(sized)
    ensures Packed(cs, binSize, cut, lim) == Returned(sized + [[]])
  {
    assert HighLimit(cs, binSize, cut) == 1;
    assert Closed(sized, []) == sized + [[]];
  }

  /** For example, four components in buckets of their own go into four bins, of which the last is
      reserved, and the last of them changes less often than the second. */
  lemma PackingBreaksOrder(cs: seq<Component>, binSize: nat, cut: nat -> nat, lim: Limits)
    requires IsCutoff(cut) && binSize == |cs| == 4 && cut(2) == 1
    requires Apart(cs, lim) && lim.FrequencyClass(cs[1]) < lim.FrequencyClass(cs[3])
    requires forall x | x in cs :: x.frequency != MAX_FREQUENCY
    ensures Packed(cs, binSize, cut, lim) == Returned([[cs[0]], [cs[3]], [cs[1], cs[2]], []])
    ensures !KeptInOrder([[cs[0]], [cs[3]], [cs[1], cs[2]], []], 0, lim)
  {
    var sized := [[cs[0]], [cs[3]], [cs[1], cs[2]]];
    assert sized + [[]] == [[cs[0]], [cs[3]], [cs[1], cs[2]], []];
    BelowMax(cs);
    FourPacked(cs, binSize, 0, 1, lim);
    FourClosed(cs, binSize, cut, lim, sized);
    assert cs[1] in cs && cs[3] in cs && !InOrder(cs[3], cs[1], lim);
    OutOfOrder(sized + [[]], cs[3], cs[1], lim);
  }

  lemma OutOfOrder(r: Bins, later: Component, earlier: Component, lim: Limits)
    requires |r| > 2 && later in r[1] && earlier in r[2] && !InOrder(later, earlier, lim)
    ensures !KeptInOrder(r, 0, lim)
  {
    OrderedInside(r, 0, 1, 3, lim);
    FlattenPair(r, 2);
    OrderedConcat(r[1], r[2], lim);
  }
}
