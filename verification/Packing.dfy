/** Assignment of components to a bounded number of bins (lib/src/chunking.rs, `basic_packing`
    without a prior build). */
module Packing {
  import opened Outcomes
  import opened Seqs
  import opened Partitions
  import opened Folding

  const MIN_CHUNKED_LAYERS := 4
  const MAX_FREQUENCY := 0xFFFF_FFFF

  // ---- bin assignment ----

  /** Cuts a bucket into bins, the first of which already holds `bin`. */
  function CutFrom(bin: seq<Component>, pkgs: seq<Component>, perBin: nat): Bins
    decreases |pkgs|
  {
    if pkgs == [] then (if bin == [] then [] else [bin])
    else if |bin| < perBin then CutFrom(bin + [pkgs[0]], pkgs[1..], perBin)
    else [bin] + CutFrom([pkgs[0]], pkgs[1..], perBin)
  }

  /** The bins that partition `k` adds: the low-size components share one, buckets are cut. */
  function Added(p: seq<seq<Component>>, k: nat, perBin: nat): Bins
    requires 1 <= k < |p| == PARTITIONS
  {
    if k == LOW then (if p[LOW] == [] then [] else [p[LOW]]) else CutFrom([], p[k], perBin)
  }

  /** The bins when the first `k` partitions are assigned; kept high-size components get one each. */
  function AssignedUpTo(p: seq<seq<Component>>, k: nat, perBin: nat): Bins
    requires 1 <= k <= |p| == PARTITIONS
  {
    if k == 1 then Singletons(p[HIGH])
    else
      AssignedUpTo(p, k - 1, perBin) + Added(p, k - 1, perBin)
  }

  lemma AssignedStep(p: seq<seq<Component>>, k: nat, perBin: nat)
    requires 1 <= k < |p| == PARTITIONS
    ensures AssignedUpTo(p, k + 1, perBin) == AssignedUpTo(p, k, perBin) + Added(p, k, perBin)
  {
  }

  function Assigned(p: seq<seq<Component>>, perBin: nat): Bins
    requires |p| == PARTITIONS
  {
    AssignedUpTo(p, |p|, perBin)
  }

  method AppendBucket(bins: Bins, pkgs: seq<Component>, perBin: nat) returns (r: Bins)
    ensures r == bins + CutFrom([], pkgs, perBin)
    ensures Flatten(r) == Flatten(bins) + pkgs
    ensures forall i | |bins| <= i < |r| :: |r[i]| <= perBin + 1
  {
    CutBins([], pkgs, perBin);
    FlattenConcat(bins, CutFrom([], pkgs, perBin));
    r := bins;
    var bin: seq<Component> := [];
    assert pkgs[0..] == pkgs;
    for i := 0 to |pkgs|
      invariant r + CutFrom(bin, pkgs[i..], perBin) == bins + CutFrom([], pkgs, perBin)
      invariant i == |pkgs| ==> bin == []
    {
      CutStep(r, bin, pkgs, i, perBin);
      if |bin| < perBin {
        bin := bin + [pkgs[i]];
      } else {
        r := r + [bin];
        bin := [pkgs[i]];
      }
      if i == |pkgs| - 1 && bin != [] {
        r := r + [bin];
        bin := [];
      }
    }
  }

  lemma CutStep(r: Bins, bin: seq<Component>, pkgs: seq<Component>, i: nat, perBin: nat)
    requires i < |pkgs|
    ensures r + CutFrom(bin, pkgs[i..], perBin)
      == if |bin| < perBin then r + CutFrom(bin + [pkgs[i]], pkgs[i + 1..], perBin)
         else r + [bin] + CutFrom([pkgs[i]], pkgs[i + 1..], perBin)
  {
    assert pkgs[i..][1..] == pkgs[i + 1..];
  }

  method AssignBins(p: seq<seq<Component>>, perBin: nat) returns (r: Bins)
    requires |p| == PARTITIONS
    ensures r == Assigned(p, perBin) && Flatten(r) == Flatten(p)
    ensures |p[HIGH]| <= |r| && r[..|p[HIGH]|] == Singletons(p[HIGH])
  {
    r := Singletons(p[HIGH]);
    for k := 1 to |p|
      invariant r == AssignedUpTo(p, k, perBin)
    {
      AssignedStep(p, k, perBin);
      if k == LOW {
        if p[k] != [] { r := r + [p[k]]; }
      } else {
        r := AppendBucket(r, p[k], perBin);
      }
    }
    AllAssigned(p, perBin);
  }

  /** Nothing is lost, in order; no bin is longer than it may be, and an empty one appears exactly
      when no component is allowed in a bin. */
  lemma {:induction false} CutBins(bin: seq<Component>, pkgs: seq<Component>, perBin: nat)
    requires |bin| <= perBin + 1
    ensures Flatten(CutFrom(bin, pkgs, perBin)) == bin + pkgs
    ensures forall b | b in CutFrom(bin, pkgs, perBin) :: |b| <= perBin + 1
    ensures [] in CutFrom(bin, pkgs, perBin) <==> bin == [] && perBin == 0 && pkgs != []
    decreases |pkgs|
  {
    if pkgs == [] {
      FlattenSnoc([], bin);
    } else if |bin| < perBin {
      CutBins(bin + [pkgs[0]], pkgs[1..], perBin);
      assert bin + [pkgs[0]] + pkgs[1..] == bin + pkgs;
    } else {
      CutBins([pkgs[0]], pkgs[1..], perBin);
      assert [pkgs[0]] + pkgs[1..] == pkgs;
    }
  }

  lemma {:induction false} AssignedHolds(p: seq<seq<Component>>, k: nat, perBin: nat)
    requires 1 <= k <= |p| == PARTITIONS
    ensures Flatten(AssignedUpTo(p, k, perBin)) == Flatten(p[..k])
    ensures Singletons(p[HIGH]) <= AssignedUpTo(p, k, perBin)
    decreases k
  {
    if k == 1 {
      KeptHold(p, k, perBin);
    } else {
      AssignedHolds(p, k - 1, perBin);
      NextHolds(p, k - 1, perBin);
    }
  }

  lemma KeptHold(p: seq<seq<Component>>, k: nat, perBin: nat)
    requires k == 1 && |p| == PARTITIONS
    ensures Flatten(AssignedUpTo(p, k, perBin)) == Flatten(p[..k])
    ensures AssignedUpTo(p, k, perBin) == Singletons(p[HIGH])
  {
    FlattenSingletons(p[HIGH]);
    FlattenSnoc([], p[HIGH]);
    assert p[..k] == [] + [p[HIGH]];
  }

  lemma NextHolds(p: seq<seq<Component>>, k: nat, perBin: nat)
    requires 1 <= k < |p| == PARTITIONS
    requires Flatten(AssignedUpTo(p, k, perBin)) == Flatten(p[..k])
    ensures Flatten(AssignedUpTo(p, k + 1, perBin)) == Flatten(p[..k + 1])
    ensures AssignedUpTo(p, k, perBin) <= AssignedUpTo(p, k + 1, perBin)
  {
    AssignedStep(p, k, perBin);
    AddedBins(p, k, perBin);
    FlattenConcat(AssignedUpTo(p, k, perBin), Added(p, k, perBin));
    FlattenSnoc(p[..k], p[k]);
    assert p[..k + 1] == p[..k] + [p[k]];
  }

  lemma AddedBins(p: seq<seq<Component>>, k: nat, perBin: nat)
    requires 1 <= k < |p| == PARTITIONS
    ensures Flatten(Added(p, k, perBin)) == p[k]
  {
    FlattenSnoc([], p[k]);
    CutBins([], p[k], perBin);
  }

  lemma AllAssigned(p: seq<seq<Component>>, perBin: nat)
    requires |p| == PARTITIONS
    ensures var r := Assigned(p, perBin);
      Flatten(r) == Flatten(p) && |p[HIGH]| <= |r| && r[..|p[HIGH]|] == Singletons(p[HIGH])
  {
    AssignedHolds(p, |p|, perBin);
    assert p[..|p|] == p;
  }

  // ---- the packing ----

  function NonMax(cs: seq<Component>): seq<Component> {
    Filter(cs, (c: Component) => c.frequency != MAX_FREQUENCY)
  }

  function MaxOnly(cs: seq<Component>): seq<Component> {
    Filter(cs, (c: Component) => c.frequency == MAX_FREQUENCY)
  }

  lemma {:induction false} MaxSplit(cs: seq<Component>)
    ensures multiset(NonMax(cs)) + multiset(MaxOnly(cs)) == multiset(cs)
  {
    if cs != [] {
      MaxSplit(cs[..|cs| - 1]);
      assert cs == cs[..|cs| - 1] + [cs[|cs| - 1]];
    }
  }

  /** Bins kept for low-size, new and max-frequency components. */
  function ReservedBins(cs: seq<Component>): nat {
    2 + Min(|MaxOnly(cs)|, 1)
  }

  function HighLimit(cs: seq<Component>, binSize: nat, cut: nat -> nat): nat {
    if binSize <= ReservedBins(cs) then 0 else cut(binSize - ReservedBins(cs))
  }

  /** The share of bins for high-size components: 60% in the program, any smaller number here. */
  ghost predicate IsCutoff(cut: nat -> nat) {
    forall x: nat | x >= 1 :: cut(x) < x
  }

  predicate NeedsPacking(cs: seq<Component>, binSize: nat) {
    |cs| >= binSize && NonMax(cs) != []
  }

  /** When the unwrap of the partitioning or the subtraction after it would stop the program. */
  predicate Unpackable(cs: seq<Component>, binSize: nat, cut: nat -> nat, lim: Limits) {
    var limitHs := HighLimit(cs, binSize, cut);
    NeedsPacking(cs, binSize) && Stops(NonMax(cs), limitHs, lim)
  }

  // ---- the result as a function ----

  /** Components in each bin of a bucket, as far as the bins go. */
  function PerBin(cs: seq<Component>, binSize: nat, limitMax: nat, limitHs: nat, lim: Limits): nat
    requires limitHs + 2 + limitMax < binSize && |cs| >= limitHs + |Low(cs, lim)|
  {
    Share(|cs| - limitHs - |Low(cs, lim)|, binSize - (limitHs + (2 + limitMax)))
  }

  function Share(n: nat, bins: nat): nat
    requires bins >= 1
  {
    n / bins
  }

  function Unfolded(cs: seq<Component>, binSize: nat, limitMax: nat, limitHs: nat, lim: Limits): Bins
    requires limitHs + 2 + limitMax < binSize && |cs| >= limitHs + |Low(cs, lim)|
  {
    PartsArePartition(cs, limitHs, lim);
    Assigned(Parts(cs, limitHs, lim), PerBin(cs, binSize, limitMax, limitHs, lim))
  }

  function FoldedBins(cs: seq<Component>, binSize: nat, limitMax: nat, limitHs: nat, lim: Limits): Bins
    requires limitHs + 2 + limitMax < binSize && |cs| >= limitHs + |Low(cs, lim)|
  {
    Fold(Unfolded(cs, binSize, limitMax, limitHs, lim), 1 + limitHs, binSize - 1 - limitMax)
  }

  predicate Stops(cs: seq<Component>, limitHs: nat, lim: Limits) {
    Remaining(cs, limitHs, lim) == [] || |cs| < limitHs + |Low(cs, lim)|
  }

  function PackedBySize(cs: seq<Component>, binSize: nat, limitMax: nat, limitHs: nat, lim: Limits): Outcome<Bins>
    requires limitHs + 2 + limitMax < binSize
  {
    if Stops(cs, limitHs, lim) then Panic
    else Returned(FoldedBins(cs, binSize, limitMax, limitHs, lim))
  }

  /** The bin for the most frequently changed components and the empty one for new ones go last. */
  function Closed(bins: Bins, maxFrequency: seq<Component>): Bins {
    bins + (if maxFrequency == [] then [] else [maxFrequency]) + [[]]
  }

  /** The bins for the components below the maximal frequency. */
  function SizedBins(cs: seq<Component>, binSize: nat, cut: nat -> nat, lim: Limits): Outcome<Bins>
    requires IsCutoff(cut) && binSize >= MIN_CHUNKED_LAYERS
  {
    if NonMax(cs) == [] then Returned([])
    else PackedBySize(NonMax(cs), binSize, Min(|MaxOnly(cs)|, 1), HighLimit(cs, binSize, cut), lim)
  }

  function Packed(cs: seq<Component>, binSize: nat, cut: nat -> nat, lim: Limits): Outcome<Bins>
    requires IsCutoff(cut)
  {
    if binSize < MIN_CHUNKED_LAYERS then Error
    else if |cs| < binSize then Returned(if cs == [] then [] else Singletons(cs) + [[]])
    else
      match SizedBins(cs, binSize, cut, lim)
      case Error => Error
      case Panic => Panic
      case Returned(bins) => Returned(Closed(bins, MaxOnly(cs)))
  }

  method BasicPacking(cs: seq<Component>, binSize: nat, cut: nat -> nat, lim: Limits) returns (r: Outcome<Bins>)
    requires IsCutoff(cut)
    ensures r == Packed(cs, binSize, cut, lim)
    ensures r.Error? <==> binSize < 4
    ensures r.Panic? <==> binSize >= MIN_CHUNKED_LAYERS && Unpackable(cs, binSize, cut, lim)
    ensures r.Returned? ==>
      && |r.result| <= binSize
      && multiset(Flatten(r.result)) == multiset(cs)
      && (cs != [] ==> r.result != [] && r.result[|r.result| - 1] == [])
    ensures r.Returned? && NeedsPacking(cs, binSize) ==>
      var kept := Kept(NonMax(cs), HighLimit(cs, binSize, cut), lim);
      kept < |r.result| && r.result[..kept] == Singletons(High(NonMax(cs), lim)[..kept])
  {
    PackedMeaning(cs, binSize, cut, lim);
    if binSize < MIN_CHUNKED_LAYERS { return Error; }
    if |cs| < binSize {
      var few := Singletons(cs);
      if |cs| > 0 { few := few + [[]]; }
      return Returned(few);
    }
    var sized := SizeBins(cs, binSize, cut, lim);
    if sized.Panic? { return Panic; }
    var bins, maxFrequency := sized.result, MaxOnly(cs);
    if maxFrequency != [] { bins := bins + [maxFrequency]; }
    assert bins + [[]] == Closed(sized.result, maxFrequency);
    return Returned(bins + [[]]);
  }

  method SizeBins(cs: seq<Component>, binSize: nat, cut: nat -> nat, lim: Limits) returns (r: Outcome<Bins>)
    requires IsCutoff(cut) && binSize >= MIN_CHUNKED_LAYERS
    ensures r == SizedBins(cs, binSize, cut, lim)
    ensures !r.Error?
  {
    var components, limitMax := NonMax(cs), Min(|MaxOnly(cs)|, 1);
    if components == [] { return Returned([]); }
    assert cut(binSize - (2 + limitMax)) == HighLimit(cs, binSize, cut);
    r := PackBySize(components, binSize, limitMax, cut(binSize - (2 + limitMax)), lim);
  }

  /** Bounded, a permutation, with each kept component alone in its leading bin and an empty bin
      last; and exactly when there is no result. */
  lemma PackedMeaning(cs: seq<Component>, binSize: nat, cut: nat -> nat, lim: Limits)
    requires IsCutoff(cut)
    ensures var r := Packed(cs, binSize, cut, lim);
      && (r.Error? <==> binSize < MIN_CHUNKED_LAYERS)
      && (r.Panic? <==> binSize >= MIN_CHUNKED_LAYERS && Unpackable(cs, binSize, cut, lim))
      && (r.Returned? ==>
            && |r.result| <= binSize && multiset(Flatten(r.result)) == multiset(cs)
            && (cs != [] ==> r.result != [] && r.result[|r.result| - 1] == []))
    ensures var r := Packed(cs, binSize, cut, lim);
      r.Returned? && NeedsPacking(cs, binSize) ==>
        var kept := Kept(NonMax(cs), HighLimit(cs, binSize, cut), lim);
        kept < |r.result| && r.result[..kept] == Singletons(High(NonMax(cs), lim)[..kept])
  {
    if MIN_CHUNKED_LAYERS <= binSize {
      if |cs| < binSize {
        FlattenSingletons(cs);
        FlattenSnoc(Singletons(cs), []);
      } else {
        SizedMeaning(cs, binSize, cut, lim);
      }
    }
  }

  lemma SizedMeaning(cs: seq<Component>, binSize: nat, cut: nat -> nat, lim: Limits)
    requires IsCutoff(cut) && MIN_CHUNKED_LAYERS <= binSize <= |cs|
    ensures var sized := SizedBins(cs, binSize, cut, lim);
      && !sized.Error? && (sized.Panic? <==> Unpackable(cs, binSize, cut, lim))
      && (sized.Returned? ==>
            var r, kept := Closed(sized.result, MaxOnly(cs)), Kept(NonMax(cs), HighLimit(cs, binSize, cut), lim);
            && |r| <= binSize && multiset(Flatten(r)) == multiset(cs) && r != [] && r[|r| - 1] == []
            && (NonMax(cs) != [] ==> kept < |r| && r[..kept] == Singletons(High(NonMax(cs), lim)[..kept])))
  {
    MaxSplit(cs);
    var sized := SizedBins(cs, binSize, cut, lim);
    if NonMax(cs) != [] {
      PackedBySizeHolds(NonMax(cs), binSize, Min(|MaxOnly(cs)|, 1), HighLimit(cs, binSize, cut), lim);
    }
    if sized.Returned? {
      ClosingBins(sized.result, MaxOnly(cs));
    }
  }

  /** The components of the highest frequency share the bin before the last, and no other bin has one,
      unless there are so few components that each gets its own bin. */
  lemma MostFrequentTogether(cs: seq<Component>, binSize: nat, cut: nat -> nat, lim: Limits)
    requires IsCutoff(cut) && Packed(cs, binSize, cut, lim).Returned?
    ensures var r := Packed(cs, binSize, cut, lim).result;
      forall i, c | 0 <= i < |r| && c in r[i] ::
        if |cs| < binSize then r[i] == [c]
        else c.frequency == 0xFFFF_FFFF <==> i == |r| - 2 && exists d :: d in cs && d.frequency == 0xFFFF_FFFF
  {
    if |cs| < binSize {
      assert forall i | 0 <= i < |cs| :: Singletons(cs)[i] == [cs[i]];
    } else {
      SizedMeaning(cs, binSize, cut, lim);
      var bins, most := SizedBins(cs, binSize, cut, lim).result, MaxOnly(cs);
      FilterMembers(cs, (c: Component) => c.frequency == MAX_FREQUENCY);
      SizedBelowMax(cs, binSize, cut, lim);
      if most == [] {
        assert forall d | d in cs :: d !in most && d.frequency != MAX_FREQUENCY;
        assert Closed(bins, most) == bins + [[]];
      } else {
        assert most[0] in most && most[0] in cs && most[0].frequency == MAX_FREQUENCY;
        assert Closed(bins, most) == bins + [most] + [[]];
      }
    }
  }

  lemma SizedBelowMax(cs: seq<Component>, binSize: nat, cut: nat -> nat, lim: Limits)
    requires IsCutoff(cut) && MIN_CHUNKED_LAYERS <= binSize && SizedBins(cs, binSize, cut, lim).Returned?
    ensures var bins := SizedBins(cs, binSize, cut, lim).result;
      forall i, c | 0 <= i < |bins| && c in bins[i] :: c.frequency != MAX_FREQUENCY
  {
    var bins := SizedBins(cs, binSize, cut, lim).result;
    if NonMax(cs) != [] {
      PackedBySizeHolds(NonMax(cs), binSize, Min(|MaxOnly(cs)|, 1), HighLimit(cs, binSize, cut), lim);
      FlattenMembers(bins);
      FilterMembers(cs, (c: Component) => c.frequency != MAX_FREQUENCY);
      forall i, c: Component | 0 <= i < |bins| && c in bins[i]
        ensures c.frequency != MAX_FREQUENCY
      {
        assert c in Flatten(bins);
        assert c in multiset(Flatten(bins));
        assert c in NonMax(cs);
      }
    }
  }

  /** The components that are large and below the highest frequency. */
  function Large(cs: seq<Component>, lim: Limits): seq<Component> {
    Filter(cs, (c: Component) => c.frequency != 0xFFFF_FFFF && c.size as real >= lim.sizeHigh)
  }

  /** Two bins are set aside, and a third if any component has the highest frequency. */
  ghost function SetAside(cs: seq<Component>): nat {
    if exists c :: c in cs && c.frequency == 0xFFFF_FFFF then 3 else 2
  }

  /** The large components get a bin each, in front, as many as their share of the bins allows. */
  lemma LargeAlone(cs: seq<Component>, binSize: nat, cut: nat -> nat, lim: Limits)
    requires IsCutoff(cut) && binSize <= |cs| && Packed(cs, binSize, cut, lim).Returned?
    requires exists c :: c in cs && c.frequency != 0xFFFF_FFFF
    ensures var r, large, aside := Packed(cs, binSize, cut, lim).result, Large(cs, lim), SetAside(cs);
      var kept := Min(if binSize <= aside then 0 else cut(binSize - aside), |large|);
      kept < |r| && r[..kept] == Singletons(large[..kept])
  {
    LargeIsHigh(cs, lim);
    AsideIsReserved(cs);
    HighAlone(cs, binSize, cut, lim);
  }

  lemma HighAlone(cs: seq<Component>, binSize: nat, cut: nat -> nat, lim: Limits)
    requires IsCutoff(cut) && binSize <= |cs| && NonMax(cs) != [] && Packed(cs, binSize, cut, lim).Returned?
    ensures var r, high := Packed(cs, binSize, cut, lim).result, High(NonMax(cs), lim);
      var kept := Min(HighLimit(cs, binSize, cut), |high|);
      kept < |r| && r[..kept] == Singletons(high[..kept])
  {
    PackedMeaning(cs, binSize, cut, lim);
  }

  lemma AsideIsReserved(cs: seq<Component>)
    ensures SetAside(cs) == ReservedBins(cs)
    ensures NonMax(cs) != [] <==> exists c :: c in cs && c.frequency != 0xFFFF_FFFF
  {
    FilterMembers(cs, (c: Component) => c.frequency == MAX_FREQUENCY);
    FilterMembers(cs, (c: Component) => c.frequency != MAX_FREQUENCY);
    if MaxOnly(cs) != [] {
      assert MaxOnly(cs)[0] in MaxOnly(cs);
    }
    if NonMax(cs) != [] {
      assert NonMax(cs)[0] in NonMax(cs);
    }
  }

  lemma {:induction false} LargeIsHigh(cs: seq<Component>, lim: Limits)
    ensures High(NonMax(cs), lim) == Large(cs, lim)
  {
    if cs != [] {
      var init, x := cs[..|cs| - 1], cs[|cs| - 1];
      LargeIsHigh(init, lim);
      if x.frequency != MAX_FREQUENCY {
        assert NonMax(cs) == NonMax(init) + [x];
        assert (NonMax(init) + [x])[..|NonMax(init)|] == NonMax(init);
      }
    }
  }

  lemma ClosingBins(bins: Bins, maxFrequency: seq<Component>)
    ensures var r := Closed(bins, maxFrequency);
      && |r| == |bins| + Min(|maxFrequency|, 1) + 1 && bins <= r && r[|r| - 1] == []
      && Flatten(r) == Flatten(bins) + maxFrequency
  {
    FlattenSnoc(bins, maxFrequency);
    FlattenSnoc(if maxFrequency != [] then bins + [maxFrequency] else bins, []);
    assert bins + [] == bins;
  }

  method PackBySize(components: seq<Component>, binSize: nat, limitMax: nat, limitHs: nat, lim: Limits)
    returns (r: Outcome<Bins>)
    requires limitHs + 2 + limitMax < binSize
    ensures r == PackedBySize(components, binSize, limitMax, limitHs, lim)
    ensures !r.Error? && (r.Panic? <==> Stops(components, limitHs, lim))
    ensures r.Returned? ==>
      && |r.result| <= binSize - 1 - limitMax
      && multiset(Flatten(r.result)) == multiset(components)
      && var kept := Kept(components, limitHs, lim);
         kept <= |r.result| && r.result[..kept] == Singletons(High(components, lim)[..kept])
  {
    PackedBySizeHolds(components, binSize, limitMax, limitHs, lim);
    r := FoldedBySize(components, binSize, limitMax, limitHs, lim);
  }

  method FoldedBySize(components: seq<Component>, binSize: nat, limitMax: nat, limitHs: nat, lim: Limits)
    returns (r: Outcome<Bins>)
    requires limitHs + 2 + limitMax < binSize
    ensures Stops(components, limitHs, lim) ==> r == Panic
    ensures !Stops(components, limitHs, lim) ==>
      r == Returned(FoldedBins(components, binSize, limitMax, limitHs, lim))
  {
    var parts := GetPartitions(components, limitHs, lim);
    if parts.None? { return Panic; }
    var p := parts.value;
    if |components| < limitHs + |p[LOW]| { return Panic; }
    var bins := AssignAndFold(components, p, binSize, limitMax, limitHs, lim);
    return Returned(bins);
  }

  method AssignAndFold(components: seq<Component>, p: seq<seq<Component>>, binSize: nat, limitMax: nat, limitHs: nat,
                       lim: Limits)
    returns (bins: Bins)
    requires limitHs + 2 + limitMax < binSize && |p| == PARTITIONS && p[LOW] == Low(components, lim)
    requires |components| >= limitHs + |Low(components, lim)|
    ensures bins == Fold(Assigned(p, PerBin(components, binSize, limitMax, limitHs, lim)), 1 + limitHs,
                         binSize - 1 - limitMax)
  {
    var limitMs := binSize - (limitHs + (2 + limitMax));
    var perBin := Share(|components| - limitHs - |p[LOW]|, limitMs);
    assert perBin == PerBin(components, binSize, limitMax, limitHs, lim);
    bins := FoldParts(p, perBin, 1 + limitHs, binSize - 1 - limitMax);
  }

  method FoldParts(p: seq<seq<Component>>, perBin: nat, lo: nat, limit: nat) returns (bins: Bins)
    requires |p| == PARTITIONS && 1 <= lo < limit
    ensures bins == Fold(Assigned(p, perBin), lo, limit)
  {
    bins := AssignBins(p, perBin);
    bins := FoldBins(bins, lo, limit);
  }

  lemma PackedBySizeHolds(cs: seq<Component>, binSize: nat, limitMax: nat, limitHs: nat, lim: Limits)
    requires limitHs + 2 + limitMax < binSize
    ensures var r, kept := PackedBySize(cs, binSize, limitMax, limitHs, lim), Kept(cs, limitHs, lim);
      && !r.Error? && (r.Panic? <==> Stops(cs, limitHs, lim))
      && (r.Returned? ==>
            && |r.result| <= binSize - 1 - limitMax && multiset(Flatten(r.result)) == multiset(cs)
            && kept <= |r.result| && r.result[..kept] == Singletons(High(cs, lim)[..kept]))
  {
    if !Stops(cs, limitHs, lim) {
      var p, perBin := Parts(cs, limitHs, lim), PerBin(cs, binSize, limitMax, limitHs, lim);
      var lo, limit := 1 + limitHs, binSize - 1 - limitMax;
      var r := Fold(Assigned(p, perBin), lo, limit);
      assert PackedBySize(cs, binSize, limitMax, limitHs, lim) == Returned(r);
      PartsKept(cs, limitHs, lim);
      PackedHolds(p, perBin, lo, limit, r);
    }
  }

  lemma PartsKept(cs: seq<Component>, limitHs: nat, lim: Limits)
    ensures var p := Parts(cs, limitHs, lim);
      && |p| == PARTITIONS && p[HIGH] == High(cs, lim)[..Kept(cs, limitHs, lim)]
      && |p[HIGH]| == Kept(cs, limitHs, lim) <= limitHs && multiset(Flatten(p)) == multiset(cs)
  {
    PartsArePartition(cs, limitHs, lim);
    PartitionCovers(Parts(cs, limitHs, lim), cs, limitHs, lim);
  }

  lemma PackedHolds(p: seq<seq<Component>>, perBin: nat, lo: nat, limit: nat, r: Bins)
    requires 1 <= lo < limit && |p| == PARTITIONS && |p[HIGH]| < lo && r == Fold(Assigned(p, perBin), lo, limit)
    ensures |r| <= limit && multiset(Flatten(r)) == multiset(Flatten(p))
    ensures |p[HIGH]| <= |r| && r[..|p[HIGH]|] == Singletons(p[HIGH])
  {
    var bins, kept := Assigned(p, perBin), |p[HIGH]|;
    AllAssigned(p, perBin);
    FoldKeeps(bins, lo, limit);
    if |bins| > limit {
      ShorterPrefix(bins, Fold(bins, lo, limit), lo - 1, kept);
    }
  }
}
