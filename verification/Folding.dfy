/** Folding excess bins two by two from the end (lib/src/chunking.rs, the loop of `basic_packing`
    around the reversed `step_by(2)`). */
module Folding {
  import opened Seqs
  import opened Partitions

  type Bins = seq<seq<Component>>

  // ---- one merge ----

  /** `Vec::remove`. */
  function Remove<T>(r: seq<T>, i: nat): seq<T>
    requires i < |r|
  {
    r[..i] + r[i + 1..]
  }

  /** `Vec::insert`. */
  function InsertAt<T>(r: seq<T>, i: nat, x: T): seq<T>
    requires i <= |r|
  {
    r[..i] + [x] + r[i..]
  }

  /** Merges bins `i - 1` and `i`; the merged bin lands after their old successor. */
  function MergeAt(r: Bins, i: nat): Bins
    requires 1 <= i <= |r| - 2
  {
    InsertAt(Remove(Remove(r, i), i - 1), i, r[i - 1] + r[i])
  }

  lemma MergeAtShape(r: Bins, i: nat)
    requires 1 <= i <= |r| - 2
    ensures MergeAt(r, i) == r[..i - 1] + [r[i + 1]] + [r[i - 1] + r[i]] + r[i + 2..]
    ensures |MergeAt(r, i)| == |r| - 1
  {
  }

  // ---- one pass and the whole fold ----

  /** The last element of `(lo..n - 1).step_by(2)`. */
  function LastPosition(n: nat, lo: nat): nat
    requires lo + 2 <= n
  {
    n - 2 - (n - lo) % 2
  }

  /** A pass from position `i` down to `lo`, which ends early once few enough bins are left. */
  function PassFrom(r: Bins, i: int, lo: nat, limit: nat): (s: Bins)
    requires 1 <= lo <= i + 2 <= |r|
    ensures |r| >= limit ==> limit <= |s| <= |r|
    ensures i >= lo && |r| > limit ==> |s| < |r|
    decreases i + 2
  {
    if i < lo || |r| <= limit then r else PassFrom(MergeAt(r, i), i - 2, lo, limit)
  }

  function Pass(r: Bins, lo: nat, limit: nat): (s: Bins)
    requires 1 <= lo < limit < |r|
    ensures limit <= |s| < |r|
  {
    PassFrom(r, LastPosition(|r|, lo), lo, limit)
  }

  /** Passes until few enough bins are left. */
  function Fold(r: Bins, lo: nat, limit: nat): (s: Bins)
    requires 1 <= lo < limit
    ensures |s| == Min(|r|, limit)
    decreases |r|
  {
    if |r| <= limit then r else Fold(Pass(r, lo, limit), lo, limit)
  }

  method FoldPass(bins: Bins, lo: nat, limit: nat) returns (r: Bins)
    requires 1 <= lo < limit < |bins|
    ensures r == Pass(bins, lo, limit) && limit <= |r| < |bins|
    ensures multiset(Flatten(r)) == multiset(Flatten(bins))
    ensures r[..lo - 1] == bins[..lo - 1]
  {
    PassKeeps(bins, lo, limit);
    r := bins;
    // the range of positions is fixed before the first merge, and not empty
    var i := LastPosition(|r|, lo) as int;
    while i >= lo
      invariant lo - 2 <= i <= |r| - 2 && |r| >= limit
      invariant PassFrom(r, i, lo, limit) == Pass(bins, lo, limit)
      decreases i
    {
      if |r| <= limit { break; }
      var merged := r[i - 1] + r[i];
      r := InsertAt(Remove(Remove(r, i), i - 1), i, merged);
      i := i - 2;
    }
  }

  method FoldBins(bins: Bins, lo: nat, limit: nat) returns (r: Bins)
    requires 1 <= lo < limit
    ensures r == Fold(bins, lo, limit) && |r| == Min(|bins|, limit)
    ensures multiset(Flatten(r)) == multiset(Flatten(bins))
    ensures |bins| <= limit ==> r == bins
    ensures |bins| >= lo - 1 ==> r[..lo - 1] == bins[..lo - 1]
  {
    FoldKeeps(bins, lo, limit);
    r := bins;
    while |r| > limit
      invariant Fold(r, lo, limit) == Fold(bins, lo, limit)
      decreases |r|
    {
      r := FoldPass(r, lo, limit);
    }
  }

  // ---- a pass is one rotation ----

  /** How many merges a pass over `n` bins makes. */
  function Merges(n: nat, lo: nat, limit: nat): (m: nat)
    requires 1 <= lo < limit < n
    ensures m >= 1
  {
    Min((n - lo) / 2, n - limit)
  }

  /** The position of the last merge of a pass, which is the lowest one. */
  function LowestMerge(n: nat, lo: nat, limit: nat): (j: nat)
    requires 1 <= lo < limit < n
    ensures lo <= j <= LastPosition(n, lo)
  {
    LastPosition(n, lo) - 2 * (Merges(n, lo, limit) - 1)
  }

  /** After `m` merges from position `i` down to `j`: the successor of the first merge has moved
      before all the merged bins, which keep their order. */
  ghost predicate Rotated(r: Bins, s: Bins, j: nat, i: nat, m: nat)
    requires 1 <= j <= i <= |r| - 2
  {
    && m <= |r| - j - 1 && |s| == |r| - m
    && s[..j - 1] == r[..j - 1]
    && s[j - 1] == r[i + 1]
    && s[j] == r[j - 1] + r[j]
    && j < i + 2 - m && s[i + 2 - m..] == r[i + 2..]
    && Flatten(s[j..i + 2 - m]) == Flatten(r[j - 1..i + 1])
  }

  lemma MergeRotates(r: Bins, i: nat)
    requires 1 <= i <= |r| - 2
    ensures Rotated(r, MergeAt(r, i), i, i, 1)
  {
    var s := MergeAt(r, i);
    MergeAtShape(r, i);
    assert s[i..i + 1] == [r[i - 1] + r[i]] && s[i + 1..] == r[i + 2..];
    assert r[i - 1..i + 1] == [r[i - 1]] + [r[i]];
    FlattenSnoc([r[i - 1]], r[i]);
    FlattenSnoc([], r[i - 1]);
    FlattenSnoc([], r[i - 1] + r[i]);
  }

  /** From position `lo + 2 * k` down. */
  lemma {:induction false} PassRotates(r: Bins, k: nat, i: nat, m: nat, lo: nat, limit: nat)
    requires 1 <= lo && i == lo + 2 * k <= |r| - 2 && |r| > limit && m == Min(k + 1, |r| - limit)
    ensures RotatedBy(r, PassFrom(r, i, lo, limit), i, m)
    decreases k, 1
  {
    if m == 1 {
      FirstRotates(r, i, lo, limit);
    } else {
      LaterRotates(r, k, i, m, lo, limit);
    }
  }

  lemma {:induction false} LaterRotates(r: Bins, k: nat, i: nat, m: nat, lo: nat, limit: nat)
    requires 1 <= lo && i == lo + 2 * k <= |r| - 2 && |r| > limit && 2 <= m == Min(k + 1, |r| - limit)
    ensures RotatedBy(r, PassFrom(r, i, lo, limit), i, m)
    decreases k, 0
  {
    MergeAtShape(r, i);
    PassRotates(MergeAt(r, i), k - 1, i - 2, m - 1, lo, limit);
    NextRotates(r, i, m, lo, limit);
  }

  ghost predicate RotatedBy(r: Bins, s: Bins, i: nat, m: nat) {
    1 <= m && 1 <= i - 2 * (m - 1) && i <= |r| - 2 && Rotated(r, s, i - 2 * (m - 1), i, m)
  }

  lemma FirstRotates(r: Bins, i: nat, lo: nat, limit: nat)
    requires 1 <= lo <= i <= |r| - 2 && |r| > limit && (i < lo + 2 || |r| == limit + 1)
    ensures RotatedBy(r, PassFrom(r, i, lo, limit), i, 1)
  {
    SingleMerge(r, i, lo, limit);
    MergeRotates(r, i);
  }

  lemma NextRotates(r: Bins, i: nat, m: nat, lo: nat, limit: nat)
    requires 1 <= lo <= i - 2 <= |r| - 4 && |r| > limit && m >= 2
    requires RotatedBy(MergeAt(r, i), PassFrom(MergeAt(r, i), i - 2, lo, limit), i - 2, m - 1)
    ensures RotatedBy(r, PassFrom(r, i, lo, limit), i, m)
  {
    RotateStep(r, MergeAt(r, i), PassFrom(r, i, lo, limit), i, m);
  }

  lemma RotateStep(r: Bins, r1: Bins, s: Bins, i: nat, m: nat)
    requires 1 <= i - 2 <= |r| - 4 && r1 == MergeAt(r, i) && m >= 2 && RotatedBy(r1, s, i - 2, m - 1)
    ensures RotatedBy(r, s, i, m)
  {
    MergeRotates(r, i);
    RotateOnce(r, r1, s, i - 2 * (m - 1), i, m);
  }

  lemma SingleMerge(r: Bins, i: nat, lo: nat, limit: nat)
    requires 1 <= lo <= i <= |r| - 2 && |r| > limit && (i < lo + 2 || |r| == limit + 1)
    ensures PassFrom(r, i, lo, limit) == MergeAt(r, i)
  {
  }

  lemma RotateOnce(r: Bins, r1: Bins, s: Bins, j: nat, i: nat, m: nat)
    requires m >= 2 && 1 <= j <= i - 2 && i <= |r| - 2
    requires Rotated(r, r1, i, i, 1) && Rotated(r1, s, j, i - 2, m - 1)
    ensures Rotated(r, s, j, i, m)
  {
    var t := i + 2 - m;
    assert forall k | 0 <= k < i - 1 :: r1[k] == r1[..i - 1][k] == r[k];
    assert r1[j - 1..i - 1] == r[j - 1..i - 1] && r1[..j - 1] == r[..j - 1];
    assert r[j - 1..i + 1] == r[j - 1..i - 1] + r[i - 1..i + 1];
    FlattenConcat(r[j - 1..i - 1], r[i - 1..i + 1]);
    // the second pass of merges left the last merged bin at the end of its part
    assert s[t - 1..] == r1[i..] && r1[i..] == [r1[i]] + r1[i + 1..];
    assert s[t..] == s[t - 1..][1..] == r1[i + 1..];
    assert s[j..t] == s[j..t - 1] + [r1[i]] by { assert s[t - 1] == s[t - 1..][0]; }
    FlattenSnoc(s[j..t - 1], r1[i]);
    assert r1[i..i + 1] == [] + [r1[i]];
    FlattenSnoc([], r1[i]);
    assert Flatten(r1[i..i + 1]) == r1[i];
  }

  lemma PassIsRotation(r: Bins, lo: nat, limit: nat)
    requires 1 <= lo < limit < |r|
    ensures Rotated(r, Pass(r, lo, limit), LowestMerge(|r|, lo, limit), LastPosition(|r|, lo), Merges(|r|, lo, limit))
  {
    var k := (LastPosition(|r|, lo) - lo) / 2;
    assert k + 1 == (|r| - lo) / 2;
    PassRotates(r, k, LastPosition(|r|, lo), Merges(|r|, lo, limit), lo, limit);
  }

  /** The contents before and after, in pieces. */
  lemma RotatedPieces(r: Bins, s: Bins, j: nat, i: nat, m: nat, from: nat)
    requires 1 <= j <= i <= |r| - 2 && Rotated(r, s, j, i, m) && from < j
    ensures Flatten(r[from..]) == Flatten(r[from..j - 1]) + Flatten(r[j - 1..i + 1]) + r[i + 1] + Flatten(r[i + 2..])
    ensures Flatten(s[from..]) == Flatten(r[from..j - 1]) + r[i + 1] + Flatten(r[j - 1..i + 1]) + Flatten(r[i + 2..])
  {
    var x, ab, c, y := r[from..j - 1], r[j - 1..i + 1], r[i + 1], r[i + 2..];
    assert r[from..] == x + ab + [c] + y;
    FlattenConcat(x + ab + [c], y);
    FlattenSnoc(x + ab, c);
    FlattenConcat(x, ab);
    assert s[from..] == x + [c] + s[j..i + 2 - m] + y by {
      assert x == s[..j - 1][from..] && s[j..] == s[j..i + 2 - m] + s[i + 2 - m..];
    }
    FlattenConcat(x + [c] + s[j..i + 2 - m], y);
    FlattenConcat(x + [c], s[j..i + 2 - m]);
    FlattenSnoc(x, c);
  }

  lemma RotationPermutes(r: Bins, s: Bins, j: nat, i: nat, m: nat)
    requires 1 <= j <= i <= |r| - 2 && Rotated(r, s, j, i, m)
    ensures multiset(Flatten(s)) == multiset(Flatten(r))
  {
    var from: nat := j - j;
    RotatedPieces(r, s, j, i, m, from);
    assert r[from..] == r && s[from..] == s;
  }

  /** A pass loses nothing and leaves the bins below its range alone. */
  lemma PassKeeps(r: Bins, lo: nat, limit: nat)
    requires 1 <= lo < limit < |r|
    ensures multiset(Flatten(Pass(r, lo, limit))) == multiset(Flatten(r))
    ensures Pass(r, lo, limit)[..lo - 1] == r[..lo - 1]
  {
    var s, j := Pass(r, lo, limit), LowestMerge(|r|, lo, limit);
    PassIsRotation(r, lo, limit);
    RotationPermutes(r, s, j, LastPosition(|r|, lo), Merges(|r|, lo, limit));
    ShorterPrefix(r, s, j - 1, lo - 1);
  }

  /** So does the fold. */
  lemma {:induction false} FoldKeeps(r: Bins, lo: nat, limit: nat)
    requires 1 <= lo < limit
    ensures multiset(Flatten(Fold(r, lo, limit))) == multiset(Flatten(r))
    ensures |r| >= lo - 1 ==> Fold(r, lo, limit)[..lo - 1] == r[..lo - 1]
    decreases |r|
  {
    if |r| > limit {
      PassKeeps(r, lo, limit);
      FoldKeeps(Pass(r, lo, limit), lo, limit);
    }
  }

  // ---- frequency order ----

  /** Low-size components have a bin of their own and no place in the order. */
  predicate InOrder(a: Component, b: Component, lim: Limits) {
    lim.IsLow(a) || lim.IsLow(b) || lim.FrequencyClass(a) <= lim.FrequencyClass(b)
  }

  /** From high to low change frequency. */
  ghost predicate FrequencyOrdered(s: seq<Component>, lim: Limits) {
    forall i, j | 0 <= i < j < |s| :: InOrder(s[i], s[j], lim)
  }

  ghost predicate Before(a: seq<Component>, b: seq<Component>, lim: Limits) {
    forall x, y | x in a && y in b :: InOrder(x, y, lim)
  }

  ghost predicate OneClass(s: seq<Component>, lim: Limits) {
    forall x, y | x in s && y in s && !lim.IsLow(x) && !lim.IsLow(y) :: lim.FrequencyClass(x) == lim.FrequencyClass(y)
  }

  lemma OrderedConcat(a: seq<Component>, b: seq<Component>, lim: Limits)
    ensures FrequencyOrdered(a + b, lim) <==> FrequencyOrdered(a, lim) && FrequencyOrdered(b, lim) && Before(a, b, lim)
  {
    var s := a + b;
    if FrequencyOrdered(s, lim) {
      assert forall i | 0 <= i < |a| :: s[i] == a[i];
      assert forall i | 0 <= i < |b| :: s[|a| + i] == b[i];
      forall x, y | x in a && y in b
        ensures InOrder(x, y, lim)
      {
        var i, k :| 0 <= i < |a| && a[i] == x && 0 <= k < |b| && b[k] == y;
        assert s[i] == x && s[|a| + k] == y;
      }
    }
  }

  lemma BeforeConcat(a: seq<Component>, b: seq<Component>, c: seq<Component>, lim: Limits)
    ensures Before(a + b, c, lim) <==> Before(a, c, lim) && Before(b, c, lim)
    ensures Before(c, a + b, lim) <==> Before(c, a, lim) && Before(c, b, lim)
  {
    assert forall x | x in a :: x in a + b;
    assert forall x | x in b :: x in a + b;
  }

  lemma RotationOrder(x: seq<Component>, ab: seq<Component>, c: seq<Component>, y: seq<Component>, lim: Limits)
    requires FrequencyOrdered(x + ab + c + y, lim)
    ensures FrequencyOrdered(x + c + ab + y, lim) <==> Before(c, ab, lim)
    ensures Before(ab, c, lim) && FrequencyOrdered(ab + c, lim)
  {
    OrderedConcat(x + ab + c, y, lim);
    OrderedConcat(x + ab, c, lim);
    OrderedConcat(x, ab, lim);
    OrderedConcat(ab, c, lim);
    BeforeConcat(x + ab, c, y, lim);
    BeforeConcat(x, ab, y, lim);
    BeforeConcat(x, ab, c, lim);
    OrderedConcat(x + c + ab, y, lim);
    OrderedConcat(x + c, ab, lim);
    OrderedConcat(x, c, lim);
    BeforeConcat(x + c, ab, y, lim);
    BeforeConcat(x, c, y, lim);
    BeforeConcat(x, c, ab, lim);
  }

  /** A pass keeps the order exactly when the bin it moves forward is in order before all the bins
      it moves past, that is, when nothing there changes more often. */
  lemma PassOrder(r: Bins, lo: nat, limit: nat, from: nat, lim: Limits)
    requires 1 <= lo < limit < |r| && from < lo && FrequencyOrdered(Flatten(r[from..]), lim)
    ensures var i, j := LastPosition(|r|, lo), LowestMerge(|r|, lo, limit);
      FrequencyOrdered(Flatten(Pass(r, lo, limit)[from..]), lim) <==> Before(r[i + 1], Flatten(r[j - 1..i + 1]), lim)
  {
    PassIsRotation(r, lo, limit);
    RotatedOrder(r, Pass(r, lo, limit), LowestMerge(|r|, lo, limit), LastPosition(|r|, lo), Merges(|r|, lo, limit),
      from, lim);
  }

  lemma RotatedOrder(r: Bins, s: Bins, j: nat, i: nat, m: nat, from: nat, lim: Limits)
    requires 1 <= j <= i <= |r| - 2 && Rotated(r, s, j, i, m) && from < j
    requires FrequencyOrdered(Flatten(r[from..]), lim)
    ensures FrequencyOrdered(Flatten(s[from..]), lim) <==> Before(r[i + 1], Flatten(r[j - 1..i + 1]), lim)
  {
    RotatedPieces(r, s, j, i, m, from);
    RotationOrder(Flatten(r[from..j - 1]), Flatten(r[j - 1..i + 1]), r[i + 1], Flatten(r[i + 2..]), lim);
  }

  // ---- the whole fold, over bins that each hold something to order ----

  predicate Holds(bin: seq<Component>, lim: Limits) {
    exists c :: c in bin && !lim.IsLow(c)
  }

  /** Each bin from `lo` on has a component that is not low-size. */
  ghost predicate Live(r: Bins, lo: nat, lim: Limits) {
    forall k | lo <= k < |r| :: Holds(r[k], lim)
  }

  lemma LiveMerge(r: Bins, i: nat, lo: nat, lim: Limits)
    requires 1 <= lo <= i <= |r| - 2 && Live(r, lo, lim)
    ensures Live(MergeAt(r, i), lo, lim)
  {
    var s := MergeAt(r, i);
    MergeAtShape(r, i);
    forall k | lo <= k < |s|
      ensures Holds(s[k], lim)
    {
      if k == i {
        var c :| c in r[i] && !lim.IsLow(c);
        assert c in s[k];
      } else if k < i - 1 {
        assert s[k] == r[k];
      } else {
        assert s[k] == r[k + 1] || s[k] == r[i + 1];
      }
    }
  }

  lemma {:induction false} LivePass(r: Bins, i: int, lo: nat, limit: nat, lim: Limits)
    requires 1 <= lo <= i + 2 <= |r| && Live(r, lo, lim)
    ensures Live(PassFrom(r, i, lo, limit), lo, lim)
    decreases i + 2
  {
    if i >= lo && |r| > limit {
      LiveMerge(r, i, lo, lim);
      LivePass(MergeAt(r, i), i - 2, lo, limit, lim);
    }
  }

  /** The first bin that changes place or is moved past. */
  function MovedFrom(n: nat, lo: nat, limit: nat): nat
    requires 1 <= lo < limit < n
  {
    LowestMerge(n, lo, limit) - 1
  }

  /** The end of the bins that change place or are moved past, in one pass or several.  A bin left
      over at the end of one pass may still be moved by a later one. */
  function MovedTo(n: nat, lo: nat, limit: nat): (e: nat)
    requires 1 <= lo < limit < n
    ensures LastPosition(n, lo) + 2 <= e <= n
    decreases n
  {
    var left := n - Merges(n, lo, limit);
    if (n - lo) % 2 == 0 then n
    else if left > limit && MovedTo(left, lo, limit) == left then n
    else n - 1
  }

  /** Bins `lo - 1` and `lo` are not in order among themselves. */
  ghost predicate Broken(r: Bins, lo: nat, lim: Limits)
    requires 1 <= lo < |r|
  {
    !FrequencyOrdered(r[lo - 1] + r[lo], lim)
  }

  lemma BrokenStays(r: Bins, lo: nat, limit: nat, lim: Limits)
    requires 1 <= lo < limit < |r| && Broken(r, lo, lim)
    ensures Broken(Pass(r, lo, limit), lo, lim)
  {
    var s, j := Pass(r, lo, limit), LowestMerge(|r|, lo, limit);
    PassIsRotation(r, lo, limit);
    if j == lo {
      OrderedConcat(s[lo - 1], s[lo], lim);
    } else {
      assert s[lo - 1] == s[..j - 1][lo - 1] && s[lo] == s[..j - 1][lo];
    }
  }

  /** Once broken there, the order stays broken. */
  lemma {:induction false} BrokenFold(r: Bins, lo: nat, limit: nat, from: nat, lim: Limits)
    requires 1 <= lo < limit <= |r| && from < lo && Broken(r, lo, lim)
    ensures !FrequencyOrdered(Flatten(Fold(r, lo, limit)[from..]), lim)
    decreases |r|
  {
    if |r| > limit {
      BrokenStays(r, lo, limit, lim);
      BrokenFold(Pass(r, lo, limit), lo, limit, from, lim);
    } else {
      OrderedInside(r, from, lo - 1, lo + 1, lim);
      FlattenPair(r, lo);
    }
  }

  lemma FlattenPair(r: Bins, lo: nat)
    requires 1 <= lo < |r|
    ensures Flatten(r[lo - 1..lo + 1]) == r[lo - 1] + r[lo]
  {
    assert r[lo - 1..lo + 1] == [r[lo - 1]] + [r[lo]];
    FlattenSnoc([r[lo - 1]], r[lo]);
    FlattenSnoc([], r[lo - 1]);
  }

  lemma OrderedInside(r: Bins, from: nat, a: nat, b: nat, lim: Limits)
    requires from <= a <= b <= |r|
    ensures FrequencyOrdered(Flatten(r[from..]), lim) ==> FrequencyOrdered(Flatten(r[a..b]), lim)
  {
    assert r[from..] == r[from..a] + r[a..b] + r[b..];
    FlattenConcat(r[from..a] + r[a..b], r[b..]);
    FlattenConcat(r[from..a], r[a..b]);
    OrderedConcat(Flatten(r[from..a]) + Flatten(r[a..b]), Flatten(r[b..]), lim);
    OrderedConcat(Flatten(r[from..a]), Flatten(r[a..b]), lim);
  }

  lemma SliceMembers(r: Bins, a: nat, b: nat)
    requires a <= b <= |r|
    ensures forall k | a <= k < b :: forall x | x in r[k] :: x in Flatten(r[a..b])
    ensures forall x | x in Flatten(r[a..b]) :: exists k :: a <= k < b && x in r[k]
  {
    FlattenMembers(r[a..b]);
    forall k | a <= k < b
      ensures forall x | x in r[k] :: x in Flatten(r[a..b])
    {
      assert r[a..b][k - a] == r[k];
    }
  }

  /** In ordered bins, moving a bin past others keeps the order exactly if all are of one class. */
  lemma AgreeIsOneClass(p: seq<Component>, c: seq<Component>, lim: Limits)
    requires FrequencyOrdered(p + c, lim) && Before(p, c, lim) && Holds(p, lim) && Holds(c, lim)
    ensures Before(c, p, lim) <==> OneClass(p + c, lim)
  {
    var x, y :| x in p && !lim.IsLow(x) && y in c && !lim.IsLow(y);
    if Before(c, p, lim) {
      assert forall a | a in p && !lim.IsLow(a) :: InOrder(a, y, lim) && InOrder(y, a, lim);
      assert forall b | b in c && !lim.IsLow(b) :: InOrder(x, b, lim) && InOrder(b, x, lim);
    }
    if OneClass(p + c, lim) {
      forall b, a | b in c && a in p
        ensures InOrder(b, a, lim)
      {
        assert b in p + c && a in p + c;
      }
    }
  }

  predicate LivePair(r: Bins, k: nat, lim: Limits)
    requires k < |r| - 1
  {
    Holds(r[k] + r[k + 1], lim)
  }

  /** From `lo - 1` on, of two neighbours one holds something to order, and so does the last bin. */
  ghost predicate LivePairs(r: Bins, lo: nat, lim: Limits)
    requires 1 <= lo < |r|
  {
    && (forall k: nat | lo - 1 <= k < |r| - 1 :: LivePair(r, k, lim))
    && Holds(r[|r| - 1], lim)
  }

  lemma LiveIsPaired(r: Bins, lo: nat, lim: Limits)
    requires 1 <= lo < |r| && Live(r, lo, lim)
    ensures LivePairs(r, lo, lim)
  {
    forall k: nat | lo - 1 <= k < |r| - 1
      ensures LivePair(r, k, lim)
    {
      var c :| c in r[k + 1] && !lim.IsLow(c);
      assert c in r[k] + r[k + 1];
    }
    assert Holds(r[|r| - 1], lim);
  }

  /** A full pass that breaks the order breaks it at its lowest merge. */
  lemma BreaksAtBottom(r: Bins, lo: nat, limit: nat, lim: Limits)
    requires 1 <= lo < limit < |r| && LowestMerge(|r|, lo, limit) == lo && LivePair(r, lo - 1, lim)
    requires var i := LastPosition(|r|, lo);
      FrequencyOrdered(Flatten(r[lo - 1..i + 1]), lim) && !Before(r[i + 1], Flatten(r[lo - 1..i + 1]), lim)
    ensures Broken(Pass(r, lo, limit), lo, lim)
  {
    var i, s := LastPosition(|r|, lo), Pass(r, lo, limit);
    PassIsRotation(r, lo, limit);
    var c, head, tail := r[i + 1], r[lo - 1] + r[lo], Flatten(r[lo + 1..i + 1]);
    assert r[lo - 1..i + 1] == r[lo - 1..lo + 1] + r[lo + 1..i + 1];
    FlattenConcat(r[lo - 1..lo + 1], r[lo + 1..i + 1]);
    FlattenPair(r, lo);
    BreaksInHead(head, tail, c, lim);
    OrderedConcat(c, head, lim);
  }

  lemma BreaksInHead(head: seq<Component>, tail: seq<Component>, c: seq<Component>, lim: Limits)
    requires Holds(head, lim) && FrequencyOrdered(head + tail, lim) && !Before(c, head + tail, lim)
    ensures !Before(c, head, lim)
  {
    var x, y :| x in c && y in head + tail && !InOrder(x, y, lim);
    var z :| z in head && !lim.IsLow(z);
    OrderedConcat(head, tail, lim);
    if y !in head {
      assert InOrder(z, y, lim) && !InOrder(x, z, lim);
    }
  }

  /** What the fold moves, or moves something past. */
  function Moved(r: Bins, lo: nat, limit: nat): seq<Component>
    requires 1 <= lo < limit < |r|
  {
    Flatten(r[MovedFrom(|r|, lo, limit)..MovedTo(|r|, lo, limit)])
  }

  lemma MovedIs(r: Bins, lo: nat, limit: nat, a: nat, b: nat)
    requires 1 <= lo < limit < |r| && a == MovedFrom(|r|, lo, limit) && b == MovedTo(|r|, lo, limit)
    ensures a <= b <= |r| && Moved(r, lo, limit) == Flatten(r[a..b])
  {
  }

  /** All of it is of one frequency class. */
  ghost predicate MovesOneClass(r: Bins, lo: nat, limit: nat, lim: Limits)
    requires 1 <= lo < limit < |r|
  {
    OneClass(Moved(r, lo, limit), lim)
  }

  /** The fold keeps the frequency order exactly when all components it moves, or moves something
      past, are of one frequency class. */
  lemma {:induction false} FoldOrder(r: Bins, lo: nat, limit: nat, from: nat, lim: Limits)
    requires 1 <= lo < limit < |r| && from < lo
    requires Live(r, lo, lim) && FrequencyOrdered(Flatten(r[from..]), lim)
    ensures FrequencyOrdered(Flatten(Fold(r, lo, limit)[from..]), lim) <==> MovesOneClass(r, lo, limit, lim)
    decreases |r|
  {
    if |Pass(r, lo, limit)| == limit {
      FoldOnce(r, lo, limit, from, lim);
    } else {
      FullPass(r, lo, limit);
      if OneClass(Flatten(r[lo - 1..LastPosition(|r|, lo) + 2]), lim) {
        FullPassKeeps(r, lo, limit, from, lim);
        FoldOrder(Pass(r, lo, limit), lo, limit, from, lim);
        FoldAgain(r, lo, limit, lim);
      } else {
        FullPassBreaks(r, lo, limit, from, lim);
        NotMoved(r, lo, limit, lim);
      }
    }
  }

  lemma FoldOnce(r: Bins, lo: nat, limit: nat, from: nat, lim: Limits)
    requires 1 <= lo < limit < |r| && from < lo && |Pass(r, lo, limit)| == limit
    requires Live(r, lo, lim) && FrequencyOrdered(Flatten(r[from..]), lim)
    ensures FrequencyOrdered(Flatten(Fold(r, lo, limit)[from..]), lim) <==> MovesOneClass(r, lo, limit, lim)
  {
    LastPass(r, lo, limit);
    MovedIs(r, lo, limit, LowestMerge(|r|, lo, limit) - 1, LastPosition(|r|, lo) + 2);
    PassOneClass(r, lo, limit, from, lim);
  }

  lemma FoldAgain(r: Bins, lo: nat, limit: nat, lim: Limits)
    requires 1 <= lo < limit < |r| && |Pass(r, lo, limit)| > limit && Live(Pass(r, lo, limit), lo, lim)
    requires OneClass(Flatten(r[lo - 1..LastPosition(|r|, lo) + 2]), lim)
    ensures Fold(r, lo, limit) == Fold(Pass(r, lo, limit), lo, limit)
    ensures MovesOneClass(Pass(r, lo, limit), lo, limit, lim) <==> MovesOneClass(r, lo, limit, lim)
  {
    var s := Pass(r, lo, limit);
    PassLength(r, lo, limit);
    FullPass(r, lo, limit);
    NextMoved(|r|, lo, limit, |s|);
    MovedIs(s, lo, limit, MovedFrom(|s|, lo, limit), MovedTo(|s|, lo, limit));
    MovedIs(r, lo, limit, lo - 1, MovedTo(|r|, lo, limit));
    NextClasses(r, s, lo, LastPosition(|r|, lo), Merges(|r|, lo, limit), MovedFrom(|s|, lo, limit),
                MovedTo(|s|, lo, limit), MovedTo(|r|, lo, limit), Moved(s, lo, limit), Moved(r, lo, limit), lim);
  }

  lemma NextClasses(r: Bins, s: Bins, lo: nat, i: nat, m: nat, from: nat, to: nat, end: nat, now: seq<Component>,
                    before: seq<Component>, lim: Limits)
    requires 1 <= lo <= i <= |r| - 2 && Rotated(r, s, lo, i, m) && lo - 1 <= from <= to <= |s| && lo - 1 <= end <= |r|
    requires Live(s, lo, lim) && OneClass(Flatten(r[lo - 1..i + 2]), lim)
    requires (end == i + 2 && to <= i + 2 - m) || (end == |r| == i + 3 && to == |s| && from < |s| - 2)
    requires now == Flatten(s[from..to]) && before == Flatten(r[lo - 1..end])
    ensures OneClass(now, lim) <==> OneClass(before, lim)
  {
    NextPart(r, s, lo, i, m, from, to, end, lim);
  }

  /** When another pass follows, this one went all the way down. */
  lemma FullPass(r: Bins, lo: nat, limit: nat)
    requires 1 <= lo < limit < |r| && |Pass(r, lo, limit)| > limit
    ensures LowestMerge(|r|, lo, limit) == lo && MovedFrom(|r|, lo, limit) == lo - 1
    ensures Rotated(r, Pass(r, lo, limit), lo, LastPosition(|r|, lo), Merges(|r|, lo, limit))
  {
    PassLength(r, lo, limit);
    NextMoved(|r|, lo, limit, |Pass(r, lo, limit)|);
    RotatesFrom(r, lo, limit, lo);
  }

  lemma PassLength(r: Bins, lo: nat, limit: nat)
    requires 1 <= lo < limit < |r|
    ensures |Pass(r, lo, limit)| == |r| - Merges(|r|, lo, limit)
  {
    PassIsRotation(r, lo, limit);
  }

  lemma RotatesFrom(r: Bins, lo: nat, limit: nat, j: nat)
    requires 1 <= lo < limit < |r| && j == LowestMerge(|r|, lo, limit)
    ensures Rotated(r, Pass(r, lo, limit), j, LastPosition(|r|, lo), Merges(|r|, lo, limit))
  {
    PassIsRotation(r, lo, limit);
  }

  lemma FullPassKeeps(r: Bins, lo: nat, limit: nat, from: nat, lim: Limits)
    requires 1 <= lo < limit < |r| && from < lo && LowestMerge(|r|, lo, limit) == lo
    requires Live(r, lo, lim) && FrequencyOrdered(Flatten(r[from..]), lim)
    requires OneClass(Flatten(r[lo - 1..LastPosition(|r|, lo) + 2]), lim)
    ensures Live(Pass(r, lo, limit), lo, lim) && FrequencyOrdered(Flatten(Pass(r, lo, limit)[from..]), lim)
  {
    LivePass(r, LastPosition(|r|, lo), lo, limit, lim);
    PassOneClass(r, lo, limit, from, lim);
  }

  lemma FullPassBreaks(r: Bins, lo: nat, limit: nat, from: nat, lim: Limits)
    requires 1 <= lo < limit < |r| && from < lo && LowestMerge(|r|, lo, limit) == lo
    requires Live(r, lo, lim) && FrequencyOrdered(Flatten(r[from..]), lim)
    requires !OneClass(Flatten(r[lo - 1..LastPosition(|r|, lo) + 2]), lim)
    ensures !FrequencyOrdered(Flatten(Fold(r, lo, limit)[from..]), lim)
  {
    MovedPart(r, lo, LastPosition(|r|, lo), lo, from, lim);
    FoldBroken(r, lo, limit, from, lim);
  }

  lemma NotMoved(r: Bins, lo: nat, limit: nat, lim: Limits)
    requires 1 <= lo < limit < |r| && LowestMerge(|r|, lo, limit) == lo
    requires !OneClass(Flatten(r[lo - 1..LastPosition(|r|, lo) + 2]), lim)
    ensures !MovesOneClass(r, lo, limit, lim)
  {
    MovedIs(r, lo, limit, lo - 1, MovedTo(|r|, lo, limit));
    NotOneClass(r, lo - 1, LastPosition(|r|, lo) + 2, MovedTo(|r|, lo, limit), lim);
  }

  lemma LastPass(r: Bins, lo: nat, limit: nat)
    requires 1 <= lo < limit < |r| && |Pass(r, lo, limit)| == limit
    ensures Fold(r, lo, limit) == Pass(r, lo, limit)
    ensures MovedTo(|r|, lo, limit) == LastPosition(|r|, lo) + 2
  {
    PassIsRotation(r, lo, limit);
  }

  /** Over such bins a pass keeps the order exactly when what it moves, and moves it past, is of
      one class. */
  lemma PassOneClass(r: Bins, lo: nat, limit: nat, from: nat, lim: Limits)
    requires 1 <= lo < limit < |r| && from < lo
    requires Live(r, lo, lim) && FrequencyOrdered(Flatten(r[from..]), lim)
    ensures FrequencyOrdered(Flatten(Pass(r, lo, limit)[from..]), lim) <==>
      OneClass(Flatten(r[LowestMerge(|r|, lo, limit) - 1..LastPosition(|r|, lo) + 2]), lim)
  {
    var i, j := LastPosition(|r|, lo), LowestMerge(|r|, lo, limit);
    assert Before(r[i + 1], Flatten(r[j - 1..i + 1]), lim) <==> OneClass(Flatten(r[j - 1..i + 2]), lim) by {
      MovedPart(r, j, i, lo, from, lim);
    }
    PassOrder(r, lo, limit, from, lim);
  }

  /** The further passes, by the numbers alone. */
  lemma NextMoved(n: nat, lo: nat, limit: nat, left: nat)
    requires 1 <= lo < limit < n && left == n - Merges(n, lo, limit) > limit
    ensures LowestMerge(n, lo, limit) == lo && MovedFrom(n, lo, limit) == lo - 1
    ensures lo - 1 <= MovedFrom(left, lo, limit) <= MovedTo(left, lo, limit) <= left
    ensures var i, m := LastPosition(n, lo), Merges(n, lo, limit);
      || (MovedTo(n, lo, limit) == i + 2 && MovedTo(left, lo, limit) <= i + 2 - m)
      || (MovedTo(n, lo, limit) == n == i + 3 && MovedTo(left, lo, limit) == left
        && MovedFrom(left, lo, limit) < left - 2)
  {
  }

  lemma FoldBroken(r: Bins, lo: nat, limit: nat, from: nat, lim: Limits)
    requires 1 <= lo < limit < |r| && from < lo && LowestMerge(|r|, lo, limit) == lo
    requires Live(r, lo, lim) && FrequencyOrdered(Flatten(r[from..]), lim)
    requires !Before(r[LastPosition(|r|, lo) + 1], Flatten(r[lo - 1..LastPosition(|r|, lo) + 1]), lim)
    ensures !FrequencyOrdered(Flatten(Fold(r, lo, limit)[from..]), lim)
  {
    assert Broken(Pass(r, lo, limit), lo, lim) by {
      OrderedInside(r, from, lo - 1, LastPosition(|r|, lo) + 1, lim);
      LiveIsPaired(r, lo, lim);
      BreaksAtBottom(r, lo, limit, lim);
    }
    BrokenFold(Pass(r, lo, limit), lo, limit, from, lim);
  }

  /** What a pass needs in terms of classes. */
  lemma MovedPart(r: Bins, j: nat, i: nat, lo: nat, from: nat, lim: Limits)
    requires 1 <= lo <= j <= i <= |r| - 2 && from < lo
    requires Live(r, lo, lim) && FrequencyOrdered(Flatten(r[from..]), lim)
    ensures Before(r[i + 1], Flatten(r[j - 1..i + 1]), lim) <==> OneClass(Flatten(r[j - 1..i + 2]), lim)
  {
    var p, c := Flatten(r[j - 1..i + 1]), r[i + 1];
    assert FrequencyOrdered(p + c, lim) && Flatten(r[j - 1..i + 2]) == p + c by {
      OrderedInside(r, from, j - 1, i + 2, lim);
      assert r[j - 1..i + 2] == r[j - 1..i + 1] + [c];
      FlattenSnoc(r[j - 1..i + 1], c);
    }
    OrderedConcat(p, c, lim);
    assert Holds(p, lim) by {
      assert Holds(r[j], lim);
      SliceMembers(r, j - 1, i + 1);
    }
    AgreeIsOneClass(p, c, lim);
  }

  lemma NotOneClass(r: Bins, a: nat, b: nat, e: nat, lim: Limits)
    requires a <= b <= e <= |r|
    ensures OneClass(Flatten(r[a..e]), lim) ==> OneClass(Flatten(r[a..b]), lim)
  {
    assert r[a..e] == r[a..b] + r[b..e];
    FlattenConcat(r[a..b], r[b..e]);
    assert forall x | x in Flatten(r[a..b]) :: x in Flatten(r[a..e]);
  }

  /** After a full pass that kept the order, the further passes depend on the same classes. */
  lemma NextPart(r: Bins, s: Bins, lo: nat, i: nat, m: nat, from: nat, to: nat, end: nat, lim: Limits)
    requires 1 <= lo <= i <= |r| - 2 && Rotated(r, s, lo, i, m) && lo - 1 <= from <= to <= |s|
    requires Live(s, lo, lim) && OneClass(Flatten(r[lo - 1..i + 2]), lim)
    requires (end == i + 2 && to <= i + 2 - m) || (end == |r| == i + 3 && to == |s| && from < |s| - 2)
    ensures OneClass(Flatten(s[from..to]), lim) <==> OneClass(Flatten(r[lo - 1..end]), lim)
  {
    if end == i + 2 {
      MovedStays(r, s, lo, i, m, from, to);
      PartOneClass(Flatten(s[from..to]), Flatten(r[lo - 1..i + 2]), lim);
    } else {
      LastBinMoves(r, s, lo, i, m, from, lim);
    }
  }

  lemma PartOneClass(a: seq<Component>, b: seq<Component>, lim: Limits)
    requires OneClass(b, lim) && forall x | x in a :: x in b
    ensures OneClass(a, lim)
  {
  }

  /** The bins of a full pass hold nothing but what it moved. */
  lemma MovedStays(r: Bins, s: Bins, lo: nat, i: nat, m: nat, a: nat, b: nat)
    requires 1 <= lo <= i <= |r| - 2 && Rotated(r, s, lo, i, m) && lo - 1 <= a <= b <= i + 2 - m
    ensures forall x | x in Flatten(s[a..b]) :: x in Flatten(r[lo - 1..i + 2])
  {
    assert r[lo - 1..i + 2] == r[lo - 1..i + 1] + [r[i + 1]];
    FlattenSnoc(r[lo - 1..i + 1], r[i + 1]);
    SliceMembers(s, lo, i + 2 - m);
    SliceMembers(s, a, b);
  }

  /** The left-over last bin is moved by a later pass, together with another bin that holds
      something of the class so far. */
  lemma LastBinMoves(r: Bins, s: Bins, lo: nat, i: nat, m: nat, from: nat, lim: Limits)
    requires 1 <= lo <= i == |r| - 3 && Rotated(r, s, lo, i, m)
    requires lo - 1 <= from < |s| - 2 && Live(s, lo, lim) && OneClass(Flatten(r[lo - 1..i + 2]), lim)
    ensures OneClass(Flatten(s[from..|s|]), lim) <==> OneClass(Flatten(r[lo - 1..|r|]), lim)
  {
    var end, last := i + 2 - m, r[|r| - 1];
    var part, kept := Flatten(r[lo - 1..i + 2]), Flatten(s[from..end]);
    assert Flatten(r[lo - 1..|r|]) == part + last by { FlattenLast(r, lo - 1); }
    assert Flatten(s[from..|s|]) == kept + last by {
      assert s[|s| - 1] == s[end..][0] && r[i + 2..][0] == last;
      FlattenLast(s, from);
    }
    assert forall x | x in kept :: x in part by { MovedStays(r, s, lo, i, m, from, end); }
    assert Holds(s[from + 1], lim);
    var z :| z in s[from + 1] && !lim.IsLow(z);
    assert z in kept by { SliceMembers(s, from, end); }
    PartOneClass(kept, part, lim);
    OneClassWith(part, last, z, lim);
    OneClassWith(kept, last, z, lim);
  }

  lemma FlattenLast(r: Bins, from: nat)
    requires from < |r|
    ensures Flatten(r[from..|r|]) == Flatten(r[from..|r| - 1]) + r[|r| - 1]
  {
    assert r[from..|r|] == r[from..|r| - 1] + [r[|r| - 1]];
    FlattenSnoc(r[from..|r| - 1], r[|r| - 1]);
  }

  lemma OneClassWith(part: seq<Component>, last: seq<Component>, z: Component, lim: Limits)
    requires OneClass(part, lim) && z in part && !lim.IsLow(z)
    ensures OneClass(part + last, lim) <==>
      forall x | x in last && !lim.IsLow(x) :: lim.FrequencyClass(x) == lim.FrequencyClass(z)
  {
    if OneClass(part + last, lim) {
      assert z in part + last && forall x | x in last :: x in part + last;
    }
  }

  // ---- the whole fold, over bins some of which hold nothing to order ----

  /** In the middle of a pass: the bins to merge are live in pairs, those merged are live. */
  ghost predicate HalfLive(r: Bins, i: int, lo: nat, lim: Limits)
    requires 1 <= lo <= i + 2 <= |r|
  {
    && (forall k: nat | lo - 1 <= k < i :: LivePair(r, k, lim))
    && forall k | i + 2 <= k < |r| :: Holds(r[k], lim)
  }

  lemma HalfLiveMerge(r: Bins, i: nat, lo: nat, lim: Limits)
    requires 1 <= lo <= i <= |r| - 2 && HalfLive(r, i, lo, lim)
    ensures HalfLive(MergeAt(r, i), i - 2, lo, lim)
  {
    var s := MergeAt(r, i);
    MergeAtShape(r, i);
    assert LivePair(r, i - 1, lim) && s[i] == r[i - 1] + r[i];
    forall k: nat | lo - 1 <= k < i - 2
      ensures LivePair(s, k, lim)
    {
      assert LivePair(r, k, lim) && s[k] == r[k] && s[k + 1] == r[k + 1];
    }
    forall k | i < k < |s|
      ensures Holds(s[k], lim)
    {
      assert s[k] == r[k + 1];
    }
  }

  lemma {:induction false} HalfLivePass(r: Bins, i: int, lo: nat, limit: nat, lim: Limits)
    requires 1 <= lo <= i + 2 <= |r| && (i - lo) % 2 == 0 && HalfLive(r, i, lo, lim)
    ensures |PassFrom(r, i, lo, limit)| > limit ==> Live(PassFrom(r, i, lo, limit), lo, lim)
    decreases i + 2
  {
    if i >= lo && |r| > limit {
      HalfLiveMerge(r, i, lo, lim);
      HalfLivePass(MergeAt(r, i), i - 2, lo, limit, lim);
    }
  }

  /** A pass that is not the last one leaves something to order in each bin of its range. */
  lemma LiveAfterPass(r: Bins, lo: nat, limit: nat, lim: Limits)
    requires 1 <= lo < limit < |r| && LivePairs(r, lo, lim) && |Pass(r, lo, limit)| > limit
    ensures Live(Pass(r, lo, limit), lo, lim)
  {
    HalfLivePass(r, LastPosition(|r|, lo), lo, limit, lim);
  }

  /** The bin that a pass moves is in order before all that it moves past. */
  ghost predicate PassInOrder(r: Bins, lo: nat, limit: nat, lim: Limits)
    requires 1 <= lo < limit < |r|
  {
    var i, j := LastPosition(|r|, lo), LowestMerge(|r|, lo, limit);
    Before(r[i + 1], Flatten(r[j - 1..i + 1]), lim)
  }

  /** And what further passes move is of one class. */
  ghost predicate FoldInOrder(r: Bins, lo: nat, limit: nat, lim: Limits)
    requires 1 <= lo < limit < |r|
  {
    && PassInOrder(r, lo, limit, lim)
    && (|Pass(r, lo, limit)| > limit ==> MovesOneClass(Pass(r, lo, limit), lo, limit, lim))
  }

  /** The fold keeps the frequency order exactly when its first pass does and the bins which that
      leaves are folded further only within one class. */
  lemma PairsFoldOrder(r: Bins, lo: nat, limit: nat, from: nat, lim: Limits)
    requires 1 <= lo < limit < |r| && from < lo && FrequencyOrdered(Flatten(r[from..]), lim)
    requires |Pass(r, lo, limit)| > limit ==> LivePairs(r, lo, lim)
    ensures FrequencyOrdered(Flatten(Fold(r, lo, limit)[from..]), lim) <==> FoldInOrder(r, lo, limit, lim)
  {
    PassOrder(r, lo, limit, from, lim);
    if |Pass(r, lo, limit)| > limit {
      LiveAfterPass(r, lo, limit, lim);
      FullPass(r, lo, limit);
      if PassInOrder(r, lo, limit, lim) {
        FoldOrder(Pass(r, lo, limit), lo, limit, from, lim);
      } else {
        assert LivePair(r, lo - 1, lim);
        PairBroken(r, lo, limit, from, lim);
        BrokenFold(Pass(r, lo, limit), lo, limit, from, lim);
      }
    }
  }

  lemma PairBroken(r: Bins, lo: nat, limit: nat, from: nat, lim: Limits)
    requires 1 <= lo < limit < |r| && LowestMerge(|r|, lo, limit) == lo && from < lo
    requires FrequencyOrdered(Flatten(r[from..]), lim) && LivePair(r, lo - 1, lim) && !PassInOrder(r, lo, limit, lim)
    ensures Broken(Pass(r, lo, limit), lo, lim)
  {
    OrderedInside(r, from, lo - 1, LastPosition(|r|, lo) + 1, lim);
    BreaksAtBottom(r, lo, limit, lim);
  }
}
