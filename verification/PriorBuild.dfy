/** Reusing the layout of a previous image (lib/src/chunking.rs,
    `basic_packing_with_prior_build`; the layer annotation of lib/src/container/encapsulate.rs). */
module PriorBuild {
  import opened Outcomes
  import opened Text
  import opened Seqs
  import opened Sorting
  import opened Partitions
  import opened Folding
  import opened Packing

  const SEPARATOR := ','

  /** Byte order of strings. */
  predicate LexLe(a: string, b: string) {
    a == "" || (b != "" && (a[0] < b[0] || (a[0] == b[0] && LexLe(a[1..], b[1..]))))
  }

  function Names(bin: seq<Component>): (r: seq<string>)
    ensures |r| == |bin| && forall i | 0 <= i < |bin| :: r[i] == bin[i].name
  {
    seq(|bin|, i requires 0 <= i < |bin| => bin[i].name)
  }

  function NameSet(cs: seq<Component>): set<string> {
    set c | c in cs :: c.name
  }

  // ---- the annotation written on each layer ----

  function Annotation(bin: seq<Component>): string {
    Join(Sort(Names(bin), LexLe), SEPARATOR)
  }

  /** The annotations of the layers of an image built from a packing; the commit layer has none. */
  function Manifest(packing: Bins): (m: seq<Option<string>>)
    ensures |m| == 1 + |packing|
    ensures m[0] == None && forall i | 0 <= i < |packing| :: m[i + 1] == Some(Annotation(packing[i]))
  {
    [None] + seq(|packing|, i requires 0 <= i < |packing| => Some(Annotation(packing[i])))
  }

  predicate Annotated(layers: seq<Option<string>>) {
    forall l | l in layers :: l.Some?
  }

  function Decode(layers: seq<Option<string>>): (r: seq<seq<string>>)
    requires Annotated(layers)
    ensures |r| == |layers| && forall i | 0 <= i < |layers| :: r[i] == Split(layers[i].value, SEPARATOR)
  {
    seq(|layers|, i requires 0 <= i < |layers| => assert layers[i] in layers; Split(layers[i].value, SEPARATOR))
  }

  function AfterFirst<T>(s: seq<T>): seq<T> {
    if s == [] then [] else s[1..]
  }

  // ---- what the new build does with the old bins ----

  function OldNames(bins: seq<seq<string>>): set<string> {
    set b, n | b in bins && n in b && n != "" :: n
  }

  function Dedup(s: seq<string>): seq<string> {
    if s == [] then []
    else if s[0] in s[1..] then Dedup(s[1..])
    else [s[0]] + Dedup(s[1..])
  }

  /** The new names, as the ordered set difference lists them. */
  function Added(cs: seq<Component>, prev: set<string>): seq<string> {
    Sort(Filter(Dedup(Names(cs)), (n: string) => n !in prev), LexLe)
  }

  /** The names in bin `i` of the new build. */
  function NewNames(cs: seq<Component>, bins: seq<seq<string>>, i: nat): seq<string>
    requires i < |bins|
  {
    var names := NameSet(cs);
    var bin := bins[i] + if i == |bins| - 1 then Added(cs, OldNames(bins)) else [];
    Filter(bin, (n: string) => n != "" && n in names)
  }

  /** The first component of that name. */
  function Lookup(cs: seq<Component>, name: string): (c: Component)
    requires name in NameSet(cs)
    ensures c in cs && c.name == name
  {
    if cs[0].name == name then cs[0] else Lookup(cs[1..], name)
  }

  function LookupAll(cs: seq<Component>, names: seq<string>): (r: seq<Component>)
    requires forall n | n in names :: n in NameSet(cs)
    ensures |r| == |names| && forall i | 0 <= i < |names| :: r[i] == Lookup(cs, names[i])
  {
    seq(|names|, i requires 0 <= i < |names| => Lookup(cs, names[i]))
  }

  function NewBin(cs: seq<Component>, bins: seq<seq<string>>, i: nat): (r: seq<Component>)
    requires i < |bins|
    ensures Names(r) == NewNames(cs, bins, i)
    ensures forall c | c in r :: c in cs
  {
    FilterMembers(bins[i] + if i == |bins| - 1 then Added(cs, OldNames(bins)) else [],
                  (n: string) => n != "" && n in NameSet(cs));
    LookupAll(cs, NewNames(cs, bins, i))
  }

  function Repacked(cs: seq<Component>, bins: seq<seq<string>>): (r: Bins)
    ensures |r| == |bins| && forall i | 0 <= i < |bins| :: r[i] == NewBin(cs, bins, i)
  {
    seq(|bins|, i requires 0 <= i < |bins| => NewBin(cs, bins, i))
  }

  /** What packing with a prior build returns, or how it fails. */
  function PriorOutcome(cs: seq<Component>, binSize: nat, prior: seq<Option<string>>): Outcome<Bins> {
    var layers := AfterFirst(prior);
    if !Annotated(layers) then Error
    else
      var r := Repacked(cs, Decode(layers));
      if layers == [] || |Flatten(r)| != |cs| || |r| > binSize then Panic else Returned(r)
  }

  method PackWithPriorBuild(cs: seq<Component>, binSize: nat, prior: seq<Option<string>>) returns (r: Outcome<Bins>)
    ensures r == PriorOutcome(cs, binSize, prior)
  {
    var layers := AfterFirst(prior);
    var bins: seq<seq<string>> := [];
    for i := 0 to |layers|
      invariant Annotated(layers[..i]) && bins == Decode(layers[..i])
    {
      match layers[i] {
        case None =>
          assert layers[i] in layers;
          return Error;
        case Some(a) =>
          assert layers[..i + 1] == layers[..i] + [layers[i]];
          bins := bins + [Split(a, SEPARATOR)];
      }
    }
    assert layers[..|layers|] == layers;
    if bins == [] { return Panic; }
    var result := Repack(cs, bins);
    var count := 0;
    for i := 0 to |result|
      invariant count == |Flatten(result[..i])|
    {
      assert result[..i + 1] == result[..i] + [result[i]];
      FlattenSnoc(result[..i], result[i]);
      count := count + |result[i]|;
    }
    assert result[..|result|] == result;
    if count != |cs| || |result| > binSize { return Panic; }
    return Returned(result);
  }

  /** The mutation of the old bins: extend the last one, drop removed names, look names up. */
  method Repack(cs: seq<Component>, bins: seq<seq<string>>) returns (r: Bins)
    requires bins != []
    ensures r == Repacked(cs, bins)
  {
    var last := |bins| - 1;
    var curr := bins[last := Filter(bins[last], (n: string) => n != "") + Added(cs, OldNames(bins))];
    for i := 0 to |curr|
      invariant |curr| == |bins|
      invariant forall k | 0 <= k < i ::
        curr[k] == Filter(Extended(cs, bins, k), (n: string) => n !in OldNames(bins) - NameSet(cs))
      invariant forall k | i <= k < |curr| :: curr[k] == Extended(cs, bins, k)
    {
      curr := curr[i := Filter(curr[i], (n: string) => n !in OldNames(bins) - NameSet(cs))];
    }
    r := [];
    for i := 0 to |curr|
      invariant r == Repacked(cs, bins)[..i]
    {
      CarriedNames(cs, bins, i);
      var bin := LookupNonEmpty(cs, curr[i]);
      r := r + [bin];
    }
  }

  method LookupNonEmpty(cs: seq<Component>, names: seq<string>) returns (r: seq<Component>)
    requires forall n | n in names && n != "" :: n in NameSet(cs)
    ensures forall n | n in Filter(names, (n: string) => n != "") :: n in NameSet(cs)
    ensures r == LookupAll(cs, Filter(names, (n: string) => n != ""))
  {
    FilterMembers(names, (n: string) => n != "");
    r := [];
    for j := 0 to |names|
      invariant forall n | n in Filter(names[..j], (n: string) => n != "") :: n in NameSet(cs)
      invariant r == LookupAll(cs, Filter(names[..j], (n: string) => n != ""))
    {
      FilterSnoc(names, j, (n: string) => n != "");
      if names[j] != "" {
        r := r + [Lookup(cs, names[j])];
      }
    }
    assert names[..|names|] == names;
  }

  /** Bin `i` after the new names were added to the last bin. */
  ghost function Extended(cs: seq<Component>, bins: seq<seq<string>>, i: nat): seq<string>
    requires i < |bins|
  {
    if i == |bins| - 1 then Filter(bins[i], (n: string) => n != "") + Added(cs, OldNames(bins)) else bins[i]
  }

  lemma ExtendedMembers(cs: seq<Component>, bins: seq<seq<string>>, i: nat)
    requires i < |bins|
    ensures forall n | n in Extended(cs, bins, i) && n != "" :: n in OldNames(bins) || n in NameSet(cs)
  {
    AddedMembers(cs, OldNames(bins));
    FilterMembers(bins[i], (n: string) => n != "");
    assert bins[i] in bins;
  }

  /** The names left after extending and removing are those of the new build, apart from empty ones. */
  lemma CarriedNames(cs: seq<Component>, bins: seq<seq<string>>, i: nat)
    requires i < |bins|
    ensures var left := Filter(Extended(cs, bins, i), (n: string) => n !in OldNames(bins) - NameSet(cs));
      && Filter(left, (n: string) => n != "") == NewNames(cs, bins, i)
      && forall n | n in left && n != "" :: n in NameSet(cs)
  {
    var now, prev, ext := NameSet(cs), OldNames(bins), Extended(cs, bins, i);
    var full := (n: string) => n != "";
    var kept := (n: string) => n !in OldNames(bins) - NameSet(cs);
    var wanted := (n: string) => n != "" && n in now;
    ExtendedMembers(cs, bins, i);
    FilterMembers(ext, kept);
    FilterTwice(ext, kept, full, wanted);
    if i == |bins| - 1 {
      var added := Added(cs, prev);
      FilterConcat(Filter(bins[i], full), added, wanted);
      FilterConcat(bins[i], added, wanted);
      FilterTwice(bins[i], full, wanted, wanted);
    } else {
      assert bins[i] + [] == bins[i];
    }
  }

  lemma {:induction false} DedupMembers(s: seq<string>)
    ensures NoDup(Dedup(s))
    ensures forall x | x in s :: x in Dedup(s)
    ensures forall x | x in Dedup(s) :: x in s
  {
    if s != [] {
      DedupMembers(s[1..]);
      assert s == [s[0]] + s[1..];
    }
  }

  lemma AddedMembers(cs: seq<Component>, prev: set<string>)
    ensures forall n :: n in Added(cs, prev) <==> n in NameSet(cs) && n !in prev
    ensures NoDup(Added(cs, prev))
  {
    DedupMembers(Names(cs));
    FilterMembers(Dedup(Names(cs)), (n: string) => n !in prev);
    FilterNoDup(Dedup(Names(cs)), (n: string) => n !in prev);
    var s := Filter(Dedup(Names(cs)), (n: string) => n !in prev);
    SortPermutes(s, LexLe);
    PermutedNoDup(s, Added(cs, prev));
    forall n
      ensures n in Names(cs) <==> n in NameSet(cs)
    {
      if n in Names(cs) {
        var i :| 0 <= i < |cs| && Names(cs)[i] == n;
        assert cs[i] in cs;
      }
    }
  }

  lemma PermutedNoDup<T>(a: seq<T>, b: seq<T>)
    requires NoDup(a) && multiset(a) == multiset(b)
    ensures NoDup(b)
  {
    forall i, j | 0 <= i < j < |b|
      ensures b[i] != b[j]
    {
      NoDupCount(a, b[i]);
      if b[i] == b[j] {
        RepeatedCount(b, i, j);
      }
    }
  }

  lemma RepeatedCount<T>(s: seq<T>, i: nat, j: nat)
    requires i < j < |s| && s[i] == s[j]
    ensures multiset(s)[s[i]] >= 2
  {
    assert s == s[..j] + [s[j]] + s[j + 1..];
    assert s[..j][i] in multiset(s[..j]);
  }

  // ---- one build after another ----

  /** Distinct, non-empty names without the separator. */
  ghost predicate WellNamed(cs: seq<Component>) {
    NoDup(Names(cs)) && forall c | c in cs :: c.name != "" && SEPARATOR !in c.name
  }

  ghost predicate Packs(packing: Bins, cs: seq<Component>) {
    multiset(Flatten(packing)) == multiset(cs)
  }

  lemma NamesMembers(bin: seq<Component>)
    ensures forall n :: n in Names(bin) <==> n in NameSet(bin)
  {
    forall n | n in Names(bin)
      ensures n in NameSet(bin)
    {
      var i :| 0 <= i < |bin| && Names(bin)[i] == n;
      assert bin[i] in bin;
    }
    forall n | n in NameSet(bin)
      ensures n in Names(bin)
    {
      var c :| c in bin && c.name == n;
      var i :| 0 <= i < |bin| && bin[i] == c;
      assert Names(bin)[i] == n;
    }
  }

  /** The annotation codec: reading a layer's annotation gives back the sorted names. */
  lemma AnnotationRoundTrip(bin: seq<Component>)
    requires forall c | c in bin :: SEPARATOR !in c.name
    ensures Split(Annotation(bin), SEPARATOR) == if bin == [] then [""] else Sort(Names(bin), LexLe)
  {
    SortPermutes(Names(bin), LexLe);
    NamesMembers(bin);
    if bin != [] {
      SplitJoin(Sort(Names(bin), LexLe), SEPARATOR);
    }
  }

  ghost predicate UniqueNames(packing: Bins) {
    && (forall i | 0 <= i < |packing| :: NoDup(Names(packing[i])))
    && forall i, j | 0 <= i < j < |packing| :: NameSet(packing[i]) !! NameSet(packing[j])
  }

  lemma PackingMembers(packing: Bins, cs: seq<Component>)
    requires Packs(packing, cs)
    ensures forall i | 0 <= i < |packing| :: forall c | c in packing[i] :: c in cs
    ensures forall c | c in cs :: exists i :: 0 <= i < |packing| && c in packing[i]
  {
    FlattenMembers(packing);
    assert forall c | c in cs :: c in multiset(cs);
    assert forall c | c in Flatten(packing) :: c in multiset(Flatten(packing));
    forall c | c in cs
      ensures exists i :: 0 <= i < |packing| && c in packing[i]
    {
      assert c in multiset(Flatten(packing));
      assert c in Flatten(packing);
    }
  }

  lemma PackingUnique(packing: Bins, cs: seq<Component>)
    requires Packs(packing, cs) && NoDup(Names(cs))
    ensures UniqueNames(packing)
  {
    assert NoDup(cs) by {
      assert forall i | 0 <= i < |cs| :: Names(cs)[i] == cs[i].name;
    }
    PermutedNoDup(cs, Flatten(packing));
    SpreadIfNoDup(packing);
    PackingMembers(packing, cs);
    assert forall a, b | a in cs && b in cs && a.name == b.name :: a == b by {
      assert forall i, j | 0 <= i < j < |cs| :: Names(cs)[i] != Names(cs)[j];
    }
    forall i, k, l | 0 <= i < |packing| && 0 <= k < l < |packing[i]|
      ensures Names(packing[i])[k] != Names(packing[i])[l]
    {
      assert packing[i][k] in packing[i] && packing[i][l] in packing[i];
      assert packing[i][k] != packing[i][l];
    }
  }

  /** The bins read back from the manifest of a packing. */
  ghost predicate ReadBack(bins: seq<seq<string>>, packing: Bins) {
    && |bins| == |packing|
    && forall i | 0 <= i < |bins| ::
         && NoDup(bins[i])
         && forall n | n != "" :: n in bins[i] <==> n in NameSet(packing[i])
  }

  lemma ManifestReadBack(packing: Bins, cs: seq<Component>)
    requires Packs(packing, cs) && WellNamed(cs)
    ensures var layers := AfterFirst(Manifest(packing));
      Annotated(layers) && ReadBack(Decode(layers), packing)
  {
    var layers := AfterFirst(Manifest(packing));
    PackingMembers(packing, cs);
    PackingUnique(packing, cs);
    forall i | 0 <= i < |packing|
      ensures layers[i] == Some(Annotation(packing[i]))
      ensures NoDup(Split(Annotation(packing[i]), SEPARATOR))
      ensures forall n | n != "" :: n in Split(Annotation(packing[i]), SEPARATOR) <==> n in NameSet(packing[i])
    {
      AnnotationRoundTrip(packing[i]);
      SortPermutes(Names(packing[i]), LexLe);
      PermutedNoDup(Names(packing[i]), Sort(Names(packing[i]), LexLe));
      NamesMembers(packing[i]);
    }
  }

  /** Exactly which names each bin of the next build holds. */
  lemma NextNames(cs: seq<Component>, bins: seq<seq<string>>, packing: Bins, before: seq<Component>, i: nat)
    requires ReadBack(bins, packing) && i < |bins|
    requires Packs(packing, before) && WellNamed(before) && WellNamed(cs)
    ensures forall n :: n in NewNames(cs, bins, i) <==>
      && n in NameSet(cs)
      && (n in NameSet(packing[i]) || (i == |bins| - 1 && n !in NameSet(before)))
    ensures NoDup(NewNames(cs, bins, i))
  {
    var prev, now := OldNames(bins), NameSet(cs);
    var added := if i == |bins| - 1 then Added(cs, prev) else [];
    OldNamesReadBack(bins, packing, before);
    AddedMembers(cs, prev);
    FilterMembers(bins[i] + added, (n: string) => n != "" && n in now);
    var p := (n: string) => n != "" && n in now;
    FilterConcat(bins[i], added, p);
    FilterNoDup(bins[i], p);
    FilterNoDup(added, p);
    FilterMembers(bins[i], p);
    FilterMembers(added, p);
    var x, y := Filter(bins[i], p), Filter(added, p);
    forall k, l | 0 <= k < |x| && 0 <= l < |y|
      ensures x[k] != y[l]
    {
      assert x[k] in x && y[l] in y;
      assert x[k] in prev && y[l] !in prev;
    }
  }

  lemma OldNamesReadBack(bins: seq<seq<string>>, packing: Bins, cs: seq<Component>)
    requires ReadBack(bins, packing) && Packs(packing, cs) && WellNamed(cs)
    ensures OldNames(bins) == NameSet(cs)
    ensures forall i | 0 <= i < |packing| :: NameSet(packing[i]) <= NameSet(cs)
    ensures forall i | 0 <= i < |packing| :: forall n | n in bins[i] && n != "" :: n in OldNames(bins)
  {
    PackingMembers(packing, cs);
    forall n | n in NameSet(cs)
      ensures n in OldNames(bins)
    {
      var c :| c in cs && c.name == n;
      var i :| 0 <= i < |packing| && c in packing[i];
      assert n in bins[i] && bins[i] in bins;
    }
    forall n | n in OldNames(bins)
      ensures n in NameSet(cs)
    {
      var b :| b in bins && n in b && n != "";
      var i :| 0 <= i < |bins| && bins[i] == b;
      assert n in NameSet(packing[i]);
    }
    forall i | 0 <= i < |packing|
      ensures forall n | n in bins[i] && n != "" :: n in OldNames(bins)
    {
      assert bins[i] in bins;
    }
  }

  /** A package kept from the build before stays in its bin; a new one goes to the last bin. */
  ghost predicate Stable(before: Bins, previous: seq<Component>, after: Bins, cs: seq<Component>) {
    && |after| == |before|
    && forall n, i | n in NameSet(cs) && 0 <= i < |after| ::
         n in NameSet(after[i]) <==>
           if n in NameSet(previous) then n in NameSet(before[i]) else i == |after| - 1
  }

  lemma StableName(before: Bins, previous: seq<Component>, after: Bins, cs: seq<Component>, name: string, i: nat)
    requires Stable(before, previous, after, cs) && name in NameSet(previous) && name in NameSet(cs)
    requires i < |before|
    ensures |after| == |before| && (name in NameSet(before[i]) <==> name in NameSet(after[i]))
  {
  }

  lemma RepackedUnique(cs: seq<Component>, bins: seq<seq<string>>, packing: Bins, before: seq<Component>)
    requires ReadBack(bins, packing) && bins != []
    requires Packs(packing, before) && WellNamed(before) && WellNamed(cs)
    ensures Packs(Repacked(cs, bins), cs) && |Flatten(Repacked(cs, bins))| == |cs|
    ensures Stable(packing, before, Repacked(cs, bins), cs)
  {
    var r: Bins := Repacked(cs, bins);
    PackingUnique(packing, before);
    PackingMembers(packing, before);
    forall i | 0 <= i < |r|
      ensures NoDup(r[i])
      ensures forall n :: n in NameSet(r[i]) <==>
        n in NameSet(cs) && (n in NameSet(packing[i]) || (i == |bins| - 1 && n !in NameSet(before)))
    {
      NextNames(cs, bins, packing, before, i);
      NamesMembers(r[i]);
      assert forall k | 0 <= k < |r[i]| :: Names(r[i])[k] == r[i][k].name;
    }
    OldNamesReadBack(bins, packing, before);
    assert Spread(r) by {
      forall i, j | 0 <= i < j < |r|
        ensures forall c | c in r[i] :: c !in r[j]
      {
        assert NameSet(packing[i]) !! NameSet(packing[j]);
        assert forall c | c in r[i] :: c.name in NameSet(r[i]);
        assert forall c | c in r[j] :: c.name in NameSet(r[j]);
      }
    }
    FlattenNoDup(r);
    FlattenMembers(r);
    assert NoDup(cs) by {
      assert forall i | 0 <= i < |cs| :: Names(cs)[i] == cs[i].name;
    }
    forall c | c in cs
      ensures c in Flatten(r)
    {
      FoundInBin(c, cs, bins, packing, before);
    }
    SameElements(Flatten(r), cs);
  }

  lemma FoundInBin(c: Component, cs: seq<Component>, bins: seq<seq<string>>, packing: Bins, before: seq<Component>)
    requires ReadBack(bins, packing) && bins != []
    requires Packs(packing, before) && WellNamed(before) && WellNamed(cs) && c in cs
    ensures c in Flatten(Repacked(cs, bins))
  {
    var r: Bins := Repacked(cs, bins);
    var i := |bins| - 1;
    if c.name in NameSet(before) {
      PackingMembers(packing, before);
      var b :| b in before && b.name == c.name;
      i :| 0 <= i < |packing| && b in packing[i];
    }
    NextNames(cs, bins, packing, before, i);
    assert c.name in Names(r[i]);
    var k :| 0 <= k < |r[i]| && Names(r[i])[k] == c.name;
    var d := r[i][k];
    assert d in r[i] && d in cs && d.name == c.name;
    SameNameSame(cs, c, d);
    FlattenMembers(r);
  }

  lemma SameNameSame(cs: seq<Component>, a: Component, b: Component)
    requires NoDup(Names(cs)) && a in cs && b in cs && a.name == b.name
    ensures a == b
  {
    var i, j :| 0 <= i < |cs| && cs[i] == a && 0 <= j < |cs| && cs[j] == b;
    assert Names(cs)[i] == Names(cs)[j];
  }

  /** Building on a previous image succeeds, packs exactly the new components, and is stable. */
  lemma NextBuild(before: Bins, previous: seq<Component>, cs: seq<Component>, binSize: nat)
    requires before != [] && |before| <= binSize
    requires Packs(before, previous) && WellNamed(previous) && WellNamed(cs)
    ensures var r := PriorOutcome(cs, binSize, Manifest(before));
      r.Returned? && Packs(r.result, cs) && Stable(before, previous, r.result, cs)
  {
    ManifestReadBack(before, previous);
    RepackedUnique(cs, Decode(AfterFirst(Manifest(before))), before, previous);
  }

  // ---- any sequence of builds ----

  ghost predicate BuildRun(builds: seq<seq<Component>>, packings: seq<Bins>, binSize: nat) {
    && |builds| == |packings| >= 1
    && (forall k | 0 <= k < |builds| :: WellNamed(builds[k]))
    && Packs(packings[0], builds[0]) && packings[0] != [] && |packings[0]| <= binSize
    && forall k | 1 <= k < |builds| :: BuiltOn(builds[k], packings[k], packings[k - 1], binSize)
  }

  /** A packing that uses the manifest of the one before. */
  ghost predicate BuiltOn(cs: seq<Component>, packing: Bins, before: Bins, binSize: nat) {
    PriorOutcome(cs, binSize, Manifest(before)) == Returned(packing)
  }

  /** Every build packs its own components into the same number of bins, and is stable over the
      build before it. */
  lemma {:induction false} RunIsStable(builds: seq<seq<Component>>, packings: seq<Bins>, binSize: nat, k: nat)
    requires BuildRun(builds, packings, binSize) && k < |builds|
    ensures Packs(packings[k], builds[k]) && |packings[k]| == |packings[0]|
    ensures k > 0 ==> Stable(packings[k - 1], builds[k - 1], packings[k], builds[k])
  {
    if k > 0 {
      RunIsStable(builds, packings, binSize, k - 1);
      assert BuiltOn(builds[k], packings[k], packings[k - 1], binSize);
      NextBuild(packings[k - 1], builds[k - 1], builds[k], binSize);
    }
  }

  /** A run can always be continued: no assertion of the packing fires, whatever the next build. */
  lemma RunContinues(builds: seq<seq<Component>>, packings: seq<Bins>, binSize: nat, next: seq<Component>)
    requires BuildRun(builds, packings, binSize) && WellNamed(next)
    ensures PriorOutcome(next, binSize, Manifest(packings[|packings| - 1])).Returned?
  {
    var k := |builds| - 1;
    RunIsStable(builds, packings, binSize, k);
    NextBuild(packings[k], builds[k], next, binSize);
  }

  /** Packing `k` holds the package in that bin exactly if the one before does. */
  ghost predicate KeptFrom(packings: seq<Bins>, name: string, i: nat, k: nat)
    requires 0 < k < |packings|
  {
    && i < |packings[k]| == |packings[k - 1]|
    && (name in NameSet(packings[k - 1][i]) <==> name in NameSet(packings[k][i]))
  }

  lemma KeepsBinOnce(builds: seq<seq<Component>>, packings: seq<Bins>, binSize: nat, name: string, i: nat, k: nat)
    requires BuildRun(builds, packings, binSize) && 0 < k < |builds| && i < |packings[0]|
    requires name in NameSet(builds[k - 1]) && name in NameSet(builds[k])
    ensures |packings| == |builds| && KeptFrom(packings, name, i, k)
  {
    assert Stable(packings[k - 1], builds[k - 1], packings[k], builds[k]) && |packings[k]| == |packings[0]| by {
      RunIsStable(builds, packings, binSize, k);
    }
    StableName(packings[k - 1], builds[k - 1], packings[k], builds[k], name, i);
  }

  lemma {:induction false} KeptThroughout(packings: seq<Bins>, name: string, i: nat, j: nat, k: nat)
    requires j <= k < |packings| && i < |packings[j]| && forall m | j < m <= k :: KeptFrom(packings, name, i, m)
    ensures |packings[j]| == |packings[k]|
    ensures name in NameSet(packings[j][i]) <==> name in NameSet(packings[k][i])
    decreases k
  {
    if j < k {
      KeptThroughout(packings, name, i, j, k - 1);
      assert KeptFrom(packings, name, i, k);
    }
  }

  /** A package present in all builds from `j` to `k` is in the same bin in both. */
  lemma PackageKeepsBin(builds: seq<seq<Component>>, packings: seq<Bins>, binSize: nat, name: string,
                        i: nat, j: nat, k: nat)
    requires BuildRun(builds, packings, binSize) && j <= k < |builds| && i < |packings[j]|
    requires forall m | j <= m <= k :: name in NameSet(builds[m])
    ensures |packings[j]| == |packings[k]|
    ensures name in NameSet(packings[j][i]) <==> name in NameSet(packings[k][i])
  {
    RunIsStable(builds, packings, binSize, j);
    forall m | j < m <= k
      ensures KeptFrom(packings, name, i, m)
    {
      KeepsBinOnce(builds, packings, binSize, name, i, m);
    }
    KeptThroughout(packings, name, i, j, k);
  }

  /** After a build a bin is empty exactly if none of its packages is left and, for the last bin,
      no package is new. */
  lemma EmptyAfterBuild(before: Bins, previous: seq<Component>, after: Bins, cs: seq<Component>, i: nat)
    requires Packs(after, cs) && Stable(before, previous, after, cs) && Packs(before, previous) && i < |after|
    ensures after[i] == [] <==>
      && (forall n | n in NameSet(before[i]) :: n !in NameSet(cs))
      && (i == |after| - 1 ==> NameSet(cs) <= NameSet(previous))
  {
    PackingMembers(before, previous);
    PackingMembers(after, cs);
    assert forall n | n in NameSet(before[i]) :: n in NameSet(previous);
    if after[i] != [] {
      var n := after[i][0].name;
      assert after[i][0] in after[i] && n in NameSet(after[i]) && n in NameSet(cs);
    } else {
      assert NameSet(after[i]) == {};
    }
  }
}
