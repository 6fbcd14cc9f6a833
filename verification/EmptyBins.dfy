/** Which bins of a packing are empty (lib/src/chunking.rs, `basic_packing`). */
module EmptyBins {
  import opened Outcomes
  import opened Seqs
  import opened Partitions
  import opened Folding
  import opened Packing

  ghost predicate NoneEmpty(bins: Bins) {
    forall i | 0 <= i < |bins| :: bins[i] != []
  }

  // ---- counting the bins that hold something ----

  function FullBins(bins: Bins): nat {
    |Filter(bins, (b: seq<Component>) => b != [])|
  }

  lemma FullConcat(a: Bins, b: Bins)
    ensures FullBins(a + b) == FullBins(a) + FullBins(b)
  {
    FilterConcat(a, b, (b: seq<Component>) => b != []);
  }

  lemma FullSnoc(bins: Bins, bin: seq<Component>)
    ensures FullBins(bins + [bin]) == FullBins(bins) + if bin == [] then 0 else 1
  {
    assert (bins + [bin])[..|bins|] == bins;
  }

  lemma NoneEmptyFull(bins: Bins)
    requires NoneEmpty(bins)
    ensures FullBins(bins) == |bins|
  {
    FilterAll(bins, (b: seq<Component>) => b != []);
  }

  lemma {:induction false} FullAtMost(bins: Bins)
    ensures FullBins(bins) <= |Flatten(bins)|
  {
    if bins != [] {
      var init, last := bins[..|bins| - 1], bins[|bins| - 1];
      FullAtMost(init);
      FullSnoc(init, last);
      FlattenSnoc(init, last);
      assert bins == init + [last];
    }
  }

  /** A merge never fills a bin: it makes one of two. */
  lemma FullMerge(r: Bins, i: nat)
    requires 1 <= i <= |r| - 2
    ensures FullBins(MergeAt(r, i)) <= FullBins(r)
  {
    var head, tail := r[..i - 1], r[i + 2..];
    MergeAtShape(r, i);
    assert r == head + [r[i - 1]] + [r[i]] + [r[i + 1]] + tail;
    FullConcat(head + [r[i - 1]] + [r[i]] + [r[i + 1]], tail);
    FullSnoc(head + [r[i - 1]] + [r[i]], r[i + 1]);
    FullSnoc(head + [r[i - 1]], r[i]);
    FullSnoc(head, r[i - 1]);
    FullConcat(head + [r[i + 1]] + [r[i - 1] + r[i]], tail);
    FullSnoc(head + [r[i + 1]], r[i - 1] + r[i]);
    FullSnoc(head, r[i + 1]);
  }

  lemma {:induction false} FullPass(r: Bins, i: int, lo: nat, limit: nat)
    requires 1 <= lo <= i + 2 <= |r|
    ensures FullBins(PassFrom(r, i, lo, limit)) <= FullBins(r)
    decreases i + 2
  {
    if i >= lo && |r| > limit {
      FullMerge(r, i);
      FullPass(MergeAt(r, i), i - 2, lo, limit);
    }
  }

  lemma {:induction false} FullFold(r: Bins, lo: nat, limit: nat)
    requires 1 <= lo < limit
    ensures FullBins(Fold(r, lo, limit)) <= FullBins(r)
    decreases |r|
  {
    if |r| > limit {
      FullPass(r, LastPosition(|r|, lo), lo, limit);
      FullFold(Pass(r, lo, limit), lo, limit);
    }
  }

  // ---- nothing becomes empty by folding ----

  lemma MergeNoneEmpty(r: Bins, i: nat)
    requires 1 <= i <= |r| - 2 && NoneEmpty(r)
    ensures NoneEmpty(MergeAt(r, i))
  {
    MergeAtShape(r, i);
  }

  lemma {:induction false} PassNoneEmpty(r: Bins, i: int, lo: nat, limit: nat)
    requires 1 <= lo <= i + 2 <= |r| && NoneEmpty(r)
    ensures NoneEmpty(PassFrom(r, i, lo, limit))
    decreases i + 2
  {
    if i >= lo && |r| > limit {
      MergeNoneEmpty(r, i);
      PassNoneEmpty(MergeAt(r, i), i - 2, lo, limit);
    }
  }

  lemma {:induction false} FoldNoneEmpty(r: Bins, lo: nat, limit: nat)
    requires 1 <= lo < limit && NoneEmpty(r)
    ensures NoneEmpty(Fold(r, lo, limit))
    decreases |r|
  {
    if |r| > limit {
      PassNoneEmpty(r, LastPosition(|r|, lo), lo, limit);
      FoldNoneEmpty(Pass(r, lo, limit), lo, limit);
    }
  }

  /** With fewer full bins than the limit, folding never gets rid of all empty ones. */
  lemma FoldKeepsEmpty(r: Bins, lo: nat, limit: nat)
    requires 1 <= lo < limit && !NoneEmpty(r) && FullBins(r) < limit
    ensures !NoneEmpty(Fold(r, lo, limit))
  {
    FullFold(r, lo, limit);
    if |r| > limit && NoneEmpty(Fold(r, lo, limit)) {
      NoneEmptyFull(Fold(r, lo, limit));
    }
  }

  // ---- the bins before folding ----

  lemma {:induction false} FullAssigned(p: seq<seq<Component>>, k: nat, perBin: nat)
    requires LOW < k <= |p| == PARTITIONS
    ensures FullBins(AssignedUpTo(p, k, perBin)) + |p[LOW]| <= |Flatten(p[..k])| + 1
    decreases k
  {
    var m: nat := k - 1;
    assert |Flatten(p[..k])| == |Flatten(p[..m])| + |p[m]| by {
      assert p[..k] == p[..m] + [p[m]];
      FlattenSnoc(p[..m], p[m]);
    }
    AssignedStep(p, m, perBin);
    FullConcat(AssignedUpTo(p, m, perBin), Added(p, m, perBin));
    if m == LOW {
      AssignedHolds(p, m, perBin);
      FullAtMost(AssignedUpTo(p, m, perBin));
      FullLow(p, m, perBin);
    } else {
      FullAssigned(p, m, perBin);
      AddedBins(p, m, perBin);
      FullAtMost(Added(p, m, perBin));
    }
  }

  lemma FullLow(p: seq<seq<Component>>, k: nat, perBin: nat)
    requires k == LOW && |p| == PARTITIONS
    ensures FullBins(Added(p, k, perBin)) <= 1
  {
    FullSnoc([], p[LOW]);
    assert [] + [p[LOW]] == [p[LOW]];
  }

  predicate EmptyPair(bins: Bins, i: nat)
    requires i < |bins| - 1
  {
    bins[i] == [] && bins[i + 1] == []
  }

  /** No two neighbours are empty, and the last bin is not. */
  ghost predicate Spaced(bins: Bins) {
    && (forall i: nat | i < |bins| - 1 :: !EmptyPair(bins, i))
    && (bins != [] ==> bins[|bins| - 1] != [])
  }

  lemma SpacedConcat(a: Bins, b: Bins)
    requires Spaced(a) && Spaced(b)
    ensures Spaced(a + b)
  {
    forall i: nat | i < |a + b| - 1
      ensures !EmptyPair(a + b, i)
    {
      if i >= |a| {
        assert !EmptyPair(b, i - |a|);
      } else if i < |a| - 1 {
        assert !EmptyPair(a, i);
      }
    }
  }

  lemma CutSpaced(pkgs: seq<Component>, perBin: nat)
    ensures Spaced(CutFrom([], pkgs, perBin))
  {
    CutBins([], pkgs, perBin);
    if pkgs != [] && perBin == 0 {
      CutBins([pkgs[0]], pkgs[1..], perBin);
      var rest := CutFrom([pkgs[0]], pkgs[1..], perBin);
      assert CutFrom([], pkgs, perBin) == [[]] + rest;
      assert [] + pkgs == pkgs;
      assert forall i | 0 <= i < |rest| :: rest[i] in rest && rest[i] != [];
    } else {
      var bins := CutFrom([], pkgs, perBin);
      assert forall i | 0 <= i < |bins| :: bins[i] in bins && bins[i] != [];
    }
  }

  /** Before folding, only the first bin of a bucket can be empty. */
  lemma {:induction false} AssignedSpaced(p: seq<seq<Component>>, k: nat, perBin: nat)
    requires 1 <= k <= |p| == PARTITIONS
    ensures Spaced(AssignedUpTo(p, k, perBin))
    decreases k
  {
    if k == 1 {
      SinglesSpaced(p[HIGH]);
    } else {
      AssignedSpaced(p, k - 1, perBin);
      SpacedStep(p, k - 1, perBin);
    }
  }

  lemma SpacedStep(p: seq<seq<Component>>, k: nat, perBin: nat)
    requires 1 <= k < |p| == PARTITIONS && Spaced(AssignedUpTo(p, k, perBin))
    ensures Spaced(AssignedUpTo(p, k + 1, perBin))
  {
    AssignedStep(p, k, perBin);
    AddedSpaced(p, k, perBin);
    SpacedConcat(AssignedUpTo(p, k, perBin), Added(p, k, perBin));
  }

  lemma SinglesSpaced(cs: seq<Component>)
    ensures Spaced(Singletons(cs))
  {
  }

  lemma AddedSpaced(p: seq<seq<Component>>, k: nat, perBin: nat)
    requires 1 <= k < |p| == PARTITIONS
    ensures Spaced(Added(p, k, perBin))
  {
    if k != LOW {
      CutSpaced(p[k], perBin);
    }
  }

  /** So at least half of the bins hold something. */
  lemma {:induction false} HalfFull(bins: Bins)
    requires Spaced(bins)
    ensures 2 * FullBins(bins) >= |bins|
    decreases |bins|
  {
    if bins != [] {
      var n := |bins| - 1;
      FullSnoc(bins[..n], bins[n]);
      assert bins == bins[..n] + [bins[n]];
      if n > 0 && bins[n - 1] == [] {
        FullSnoc(bins[..n - 1], bins[n - 1]);
        assert bins[..n] == bins[..n - 1] + [bins[n - 1]];
        assert n > 1 ==> !EmptyPair(bins, n - 2);
        SpacedPrefix(bins, n - 1);
        HalfFull(bins[..n - 1]);
      } else {
        SpacedPrefix(bins, n);
        HalfFull(bins[..n]);
      }
    }
  }

  lemma SpacedPrefix(bins: Bins, n: nat)
    requires Spaced(bins) && n <= |bins| && (n > 0 ==> bins[n - 1] != [])
    ensures Spaced(bins[..n])
  {
    forall i: nat | i < n - 1
      ensures !EmptyPair(bins[..n], i)
    {
      assert !EmptyPair(bins, i);
    }
  }

  lemma {:induction false} BinsFilled(p: seq<seq<Component>>, k: nat, perBin: nat)
    requires 1 <= k <= |p| == PARTITIONS && perBin >= 1
    ensures NoneEmpty(AssignedUpTo(p, k, perBin))
    decreases k
  {
    if k > 1 {
      BinsFilled(p, k - 1, perBin);
      if k - 1 != LOW {
        CutBins([], p[k - 1], perBin);
        var cut := CutFrom([], p[k - 1], perBin);
        assert forall i | 0 <= i < |cut| :: cut[i] in cut;
      }
    }
  }

  /** With no component allowed in a bin, each bucket starts with an empty one. */
  lemma {:induction false} SomeBinEmpty(p: seq<seq<Component>>, k: nat, j: nat)
    requires FIRST_BUCKET <= j < k <= |p| == PARTITIONS && p[j] != []
    ensures [] in AssignedUpTo(p, k, 0)
    decreases k
  {
    if j == k - 1 {
      CutBins([], p[j], 0);
    } else {
      SomeBinEmpty(p, k - 1, j);
    }
  }

  lemma UnfoldedEmpty(cs: seq<Component>, p: seq<seq<Component>>, limitHs: nat, perBin: nat, lim: Limits)
    requires IsPartition(p, cs, limitHs, lim) && Remaining(cs, limitHs, lim) != []
    ensures NoneEmpty(Assigned(p, perBin)) <==> perBin >= 1
  {
    if perBin >= 1 {
      BinsFilled(p, |p|, perBin);
    } else {
      SomeBucket(p, cs, limitHs, lim);
      var j :| FIRST_BUCKET <= j < PARTITIONS && p[j] != [];
      SomeBinEmpty(p, |p|, j);
    }
  }

  lemma SomeBucket(p: seq<seq<Component>>, cs: seq<Component>, limitHs: nat, lim: Limits)
    requires IsPartition(p, cs, limitHs, lim) && Remaining(cs, limitHs, lim) != []
    ensures exists j :: FIRST_BUCKET <= j < PARTITIONS && p[j] != []
  {
    var remaining := Remaining(cs, limitHs, lim);
    BucketsHoldRemaining(p, cs, limitHs, lim);
    Sorting.SameContents(Flatten(p[FIRST_BUCKET..]), remaining);
    FlattenMembers(p[FIRST_BUCKET..]);
    var c := remaining[0];
    assert c in remaining;
    var j :| 0 <= j < |p[FIRST_BUCKET..]| && c in p[FIRST_BUCKET..][j];
    assert p[FIRST_BUCKET + j] != [];
  }

  // ---- the bins of a packing ----

  lemma ShareZero(n: nat, bins: nat)
    requires bins >= 1
    ensures Share(n, bins) == 0 <==> n < bins
  {
  }

  lemma FullUnfolded(p: seq<seq<Component>>, cs: seq<Component>, perBin: nat)
    requires |p| == PARTITIONS && multiset(Flatten(p)) == multiset(cs)
    ensures FullBins(Assigned(p, perBin)) + |p[LOW]| <= |cs| + 1
  {
    FullAssigned(p, |p|, perBin);
    assert p[..|p|] == p;
    assert |Flatten(p)| == |multiset(Flatten(p))| == |multiset(cs)| == |cs|;
  }

  /** When no component is allowed in a bin, there are fewer full ones than bins to fold into. */
  lemma FewFull(cs: seq<Component>, binSize: nat, limitMax: nat, limitHs: nat, lim: Limits, bins: Bins)
    requires limitHs + 2 + limitMax < binSize && !Stops(cs, limitHs, lim)
    requires PerBin(cs, binSize, limitMax, limitHs, lim) == 0 && bins == Assigned(Parts(cs, limitHs, lim), 0)
    ensures FullBins(bins) < binSize - 1 - limitMax
  {
    ShareZero(|cs| - limitHs - |Low(cs, lim)|, binSize - (limitHs + (2 + limitMax)));
    PartsKept(cs, limitHs, lim);
    PartsArePartition(cs, limitHs, lim);
    var none := PerBin(cs, binSize, limitMax, limitHs, lim);
    FullUnfolded(Parts(cs, limitHs, lim), cs, none);
  }

  /** No bin is empty exactly if each may hold a component, however many are folded. */
  lemma NoBinEmpty(cs: seq<Component>, binSize: nat, limitMax: nat, limitHs: nat, lim: Limits)
    requires limitHs + 2 + limitMax < binSize && !Stops(cs, limitHs, lim)
    ensures NoneEmpty(PackedBySize(cs, binSize, limitMax, limitHs, lim).result)
      <==> PerBin(cs, binSize, limitMax, limitHs, lim) >= 1
  {
    var p, perBin := Parts(cs, limitHs, lim), PerBin(cs, binSize, limitMax, limitHs, lim);
    PartsArePartition(cs, limitHs, lim);
    if perBin == 0 {
      FewFull(cs, binSize, limitMax, limitHs, lim, Assigned(p, perBin));
    }
    FoldedEmpty(cs, p, perBin, limitHs, binSize - 1 - limitMax, lim);
  }

  lemma FoldedEmpty(cs: seq<Component>, p: seq<seq<Component>>, perBin: nat, limitHs: nat, limit: nat, lim: Limits)
    requires IsPartition(p, cs, limitHs, lim) && Remaining(cs, limitHs, lim) != [] && 1 + limitHs < limit
    requires perBin == 0 ==> FullBins(Assigned(p, perBin)) < limit
    ensures NoneEmpty(Fold(Assigned(p, perBin), 1 + limitHs, limit)) <==> perBin >= 1
  {
    UnfoldedEmpty(cs, p, limitHs, perBin, lim);
    FoldEmpties(Assigned(p, perBin), perBin, 1 + limitHs, limit);
  }

  lemma FoldEmpties(bins: Bins, perBin: nat, lo: nat, limit: nat)
    requires 1 <= lo < limit && (NoneEmpty(bins) <==> perBin >= 1) && (perBin == 0 ==> FullBins(bins) < limit)
    ensures NoneEmpty(Fold(bins, lo, limit)) <==> perBin >= 1
  {
    if perBin >= 1 {
      FoldNoneEmpty(bins, lo, limit);
    } else {
      FoldKeepsEmpty(bins, lo, limit);
    }
  }

  /** How many components each bin of a bucket may hold. */
  function Room(cs: seq<Component>, binSize: nat, cut: nat -> nat, lim: Limits): nat
    requires IsCutoff(cut) && binSize >= MIN_CHUNKED_LAYERS
    requires NeedsPacking(cs, binSize) && !Unpackable(cs, binSize, cut, lim)
  {
    PerBin(NonMax(cs), binSize, Min(|MaxOnly(cs)|, 1), HighLimit(cs, binSize, cut), lim)
  }

  /** In the packing as a whole no bin but the last, reserved one is empty, exactly if nothing had to
      be packed by size or there was room for a component in each bin. */
  lemma OnlyReservedEmpty(cs: seq<Component>, binSize: nat, cut: nat -> nat, lim: Limits, r: Bins)
    requires IsCutoff(cut) && Packed(cs, binSize, cut, lim) == Returned(r) && cs != []
    ensures NoneEmpty(r[..|r| - 1]) <==> !NeedsPacking(cs, binSize) || Room(cs, binSize, cut, lim) >= 1
  {
    if |cs| < binSize {
      assert r[..|r| - 1] == Singletons(cs);
    } else {
      var bins, max := SizedBins(cs, binSize, cut, lim).result, MaxOnly(cs);
      assert r[..|r| - 1] == bins + if max == [] then [] else [max];
      assert forall i | 0 <= i < |bins| :: r[..|r| - 1][i] == bins[i];
      if NeedsPacking(cs, binSize) {
        NoBinEmpty(NonMax(cs), binSize, Min(|max|, 1), HighLimit(cs, binSize, cut), lim);
      }
    }
  }
}
