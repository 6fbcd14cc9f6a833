/** Reusing the layout of any image, whoever wrote its annotations: when that succeeds, and what it
    gives (lib/src/chunking.rs, `basic_packing_with_prior_build`). */
module PriorManifest {
  import opened Outcomes
  import opened Text
  import opened Seqs
  import opened Partitions
  import opened Folding
  import opened PriorBuild

  // ---- sizes of sequences and of their sets ----

  function SetOf<T>(s: seq<T>): set<T> {
    set x | x in s
  }

  lemma {:induction false} SetSize<T>(s: seq<T>)
    ensures |SetOf(s)| <= |s|
    ensures |SetOf(s)| == |s| <==> NoDup(s)
  {
    if s != [] {
      SetSize(s[1..]);
      assert s == [s[0]] + s[1..];
      assert SetOf(s) == {s[0]} + SetOf(s[1..]);
      if s[0] in s[1..] {
        assert SetOf(s) == SetOf(s[1..]);
        var i :| 0 <= i < |s[1..]| && s[1..][i] == s[0];
        assert s[i + 1] == s[0];
      } else {
        ConsNoDup(s);
      }
    }
  }

  lemma ConsNoDup<T>(s: seq<T>)
    requires s != [] && s[0] !in s[1..]
    ensures NoDup(s) <==> NoDup(s[1..])
  {
    if NoDup(s[1..]) {
      forall i, j | 0 <= i < j < |s|
        ensures s[i] != s[j]
      {
        assert s[1..][j - 1] == s[j];
        if i > 0 {
          assert s[1..][i - 1] == s[i];
        }
      }
    }
  }

  lemma SnocNoDup<T>(t: seq<T>, x: T)
    ensures NoDup(t + [x]) <==> NoDup(t) && x !in t
  {
    var s := t + [x];
    assert forall i | 0 <= i < |t| :: s[i] == t[i];
    if NoDup(s) {
      forall i | 0 <= i < |t|
        ensures t[i] != x
      {
        assert s[i] != s[|t|];
      }
    }
  }

  // ---- the names that a build retains ----

  /** The names listed that a component still has. */
  function Retained(names: set<string>, listed: seq<string>): seq<string> {
    Filter(listed, (n: string) => n != "" && n in names)
  }

  lemma RetainedConcat(names: set<string>, a: seq<string>, b: seq<string>)
    ensures Retained(names, a + b) == Retained(names, a) + Retained(names, b)
  {
    FilterConcat(a, b, (n: string) => n != "" && n in names);
  }

  lemma RetainedMembers(names: set<string>, listed: seq<string>)
    ensures forall n :: n in Retained(names, listed) <==> n in listed && n != "" && n in names
  {
    FilterMembers(listed, (n: string) => n != "" && n in names);
  }

  /** No name of the set is listed twice. */
  ghost predicate NoneTwice(listed: seq<string>, names: set<string>) {
    forall i, j | 0 <= i < j < |listed| && listed[i] in names :: listed[i] != listed[j]
  }

  lemma {:induction false} RetainedOnce(names: set<string>, listed: seq<string>)
    requires "" !in names
    ensures NoDup(Retained(names, listed)) <==> NoneTwice(listed, names)
  {
    if listed != [] {
      var init, x := listed[..|listed| - 1], listed[|listed| - 1];
      RetainedOnce(names, init);
      RetainedMembers(names, init);
      SnocNoDup(Retained(names, init), x);
      SnocNoneTwice(init, x, names);
      assert listed == init + [x];
    }
  }

  lemma SnocNoneTwice(init: seq<string>, x: string, names: set<string>)
    ensures NoneTwice(init + [x], names) <==> NoneTwice(init, names) && !(x in init && x in names)
  {
    var s := init + [x];
    assert forall i | 0 <= i < |init| :: s[i] == init[i];
    if NoneTwice(s, names) {
      forall i | 0 <= i < |init| && init[i] in names
        ensures init[i] != x
      {
        assert s[i] != s[|init|];
      }
    }
  }

  // ---- how many components are placed ----

  /** The names that a build adds. */
  function New(cs: seq<Component>, bins: seq<seq<string>>): seq<string> {
    Retained(NameSet(cs), Added(cs, OldNames(bins)))
  }

  lemma NewBinNames(cs: seq<Component>, bins: seq<seq<string>>, k: nat)
    requires k < |bins|
    ensures Names(NewBin(cs, bins, k))
      == Retained(NameSet(cs), bins[k]) + if k == |bins| - 1 then New(cs, bins) else []
  {
    var names := NameSet(cs);
    var added := if k == |bins| - 1 then Added(cs, OldNames(bins)) else [];
    RetainedConcat(names, bins[k], added);
    assert NewNames(cs, bins, k) == Retained(names, bins[k] + added);
  }

  lemma {:induction false} PlacedUpTo(cs: seq<Component>, bins: seq<seq<string>>, k: nat)
    requires bins != [] && k <= |bins|
    ensures |Flatten(Repacked(cs, bins)[..k])|
      == |Retained(NameSet(cs), Flatten(bins[..k]))| + if k == |bins| then |New(cs, bins)| else 0
  {
    if k > 0 {
      PlacedUpTo(cs, bins, k - 1);
      PlacedNext(cs, bins, k - 1);
    }
  }

  lemma PlacedNext(cs: seq<Component>, bins: seq<seq<string>>, k: nat)
    requires k < |bins|
    ensures |Flatten(Repacked(cs, bins)[..k + 1])|
      == |Flatten(Repacked(cs, bins)[..k])| + |Names(NewBin(cs, bins, k))|
    ensures Retained(NameSet(cs), Flatten(bins[..k + 1]))
      == Retained(NameSet(cs), Flatten(bins[..k])) + Retained(NameSet(cs), bins[k])
    ensures |Names(NewBin(cs, bins, k))|
      == |Retained(NameSet(cs), bins[k])| + if k == |bins| - 1 then |New(cs, bins)| else 0
  {
    var r := Repacked(cs, bins);
    NewBinNames(cs, bins, k);
    assert r[..k + 1] == r[..k] + [r[k]] && bins[..k + 1] == bins[..k] + [bins[k]];
    FlattenSnoc(r[..k], r[k]);
    FlattenSnoc(bins[..k], bins[k]);
    RetainedConcat(NameSet(cs), Flatten(bins[..k]), bins[k]);
  }

  lemma NewMembers(cs: seq<Component>, bins: seq<seq<string>>)
    ensures SetOf(New(cs, bins)) == NameSet(cs) - OldNames(bins) - {""} && NoDup(New(cs, bins))
  {
    var added := Added(cs, OldNames(bins));
    AddedMembers(cs, OldNames(bins));
    RetainedMembers(NameSet(cs), added);
    FilterNoDup(added, (n: string) => n != "" && n in NameSet(cs));
  }

  /** For any manifest: how many components the new build places. */
  lemma PlacedCount(cs: seq<Component>, bins: seq<seq<string>>)
    requires bins != []
    ensures |Flatten(Repacked(cs, bins))|
      == |Retained(NameSet(cs), Flatten(bins))| + |NameSet(cs) - OldNames(bins) - {""}|
  {
    var k := |bins|;
    PlacedUpTo(cs, bins, k);
    assert Repacked(cs, bins)[..k] == Repacked(cs, bins) && bins[..k] == bins;
    NewMembers(cs, bins);
    SetSize(New(cs, bins));
  }

  // ---- when that is all of them ----

  /** The components have different names, none of them empty. */
  ghost predicate Distinct(cs: seq<Component>) {
    NoDup(Names(cs)) && forall c | c in cs :: c.name != ""
  }

  lemma DistinctSize(cs: seq<Component>)
    requires Distinct(cs)
    ensures |NameSet(cs)| == |cs| && "" !in NameSet(cs)
  {
    NamesMembers(cs);
    SetSize(Names(cs));
    assert SetOf(Names(cs)) == NameSet(cs);
  }

  lemma ListedNames(bins: seq<seq<string>>)
    ensures forall n | n != "" :: n in Flatten(bins) <==> n in OldNames(bins)
  {
    FlattenMembers(bins);
    forall n | n in Flatten(bins) && n != ""
      ensures n in OldNames(bins)
    {
      var i :| 0 <= i < |bins| && n in bins[i];
      assert bins[i] in bins;
    }
    forall n | n in OldNames(bins)
      ensures n in Flatten(bins)
    {
      var b :| b in bins && n in b && n != "";
      var i :| 0 <= i < |bins| && bins[i] == b;
    }
  }

  lemma RetainedSize(names: set<string>, bins: seq<seq<string>>)
    requires "" !in names
    ensures var kept := Retained(names, Flatten(bins));
      |kept| >= |names * OldNames(bins)| && (|kept| == |names * OldNames(bins)| <==> NoDup(kept))
  {
    var kept := Retained(names, Flatten(bins));
    RetainedMembers(names, Flatten(bins));
    ListedNames(bins);
    SetSize(kept);
    assert SetOf(kept) == names * OldNames(bins);
  }

  /** Every component is placed once exactly if no name in use was listed twice. */
  lemma AllPlaced(cs: seq<Component>, bins: seq<seq<string>>)
    requires Distinct(cs) && bins != []
    ensures |Flatten(Repacked(cs, bins))| == |cs| <==> NoneTwice(Flatten(bins), NameSet(cs))
  {
    var names, were := NameSet(cs), OldNames(bins);
    DistinctSize(cs);
    PlacedCount(cs, bins);
    RetainedOnce(names, Flatten(bins));
    RetainedSize(names, bins);
    assert names - were - {""} == names - were;
    assert names == names * were + (names - were);
    assert |names| == |names * were| + |names - were|;
  }

  lemma PlacedNames(cs: seq<Component>, bins: seq<seq<string>>, i: nat)
    requires Distinct(cs) && i < |bins|
    ensures forall n | n in NameSet(cs) ::
      n in NameSet(NewBin(cs, bins, i)) <==> n in bins[i] || (i == |bins| - 1 && n !in Flatten(bins))
  {
    DistinctSize(cs);
    NewBinNames(cs, bins, i);
    NewMembers(cs, bins);
    RetainedMembers(NameSet(cs), bins[i]);
    NamesMembers(NewBin(cs, bins, i));
    ListedNames(bins);
    assert forall n :: n in New(cs, bins) <==> n in SetOf(New(cs, bins));
  }

  lemma PlacesAll(cs: seq<Component>, bins: seq<seq<string>>)
    requires Distinct(cs) && bins != [] && |Flatten(Repacked(cs, bins))| == |cs|
    ensures Packs(Repacked(cs, bins), cs)
  {
    var all := Flatten(Repacked(cs, bins));
    FlattenMembers(Repacked(cs, bins));
    FlattenMembers(bins);
    forall c | c in cs
      ensures c in all
    {
      var i := |bins| - 1;
      if c.name in Flatten(bins) {
        i :| 0 <= i < |bins| && c.name in bins[i];
      }
      PlacedNames(cs, bins, i);
      assert c.name in NameSet(NewBin(cs, bins, i));
      var d :| d in NewBin(cs, bins, i) && d.name == c.name;
      SameNameSame(cs, c, d);
      assert d in Repacked(cs, bins)[i];
    }
    assert NoDup(cs) by {
      assert forall i | 0 <= i < |cs| :: Names(cs)[i] == cs[i].name;
    }
    assert SetOf(all) == SetOf(cs);
    SetSize(all);
    SetSize(cs);
    SameElements(all, cs);
  }

  ghost predicate MissesAnnotation(prior: seq<Option<string>>) {
    exists i :: 1 <= i < |prior| && prior[i].None?
  }

  lemma MissedAnnotation(prior: seq<Option<string>>)
    ensures MissesAnnotation(prior) <==> !Annotated(AfterFirst(prior))
  {
    var layers := AfterFirst(prior);
    forall i | 1 <= i < |prior| && prior[i].None?
      ensures !Annotated(layers)
    {
      assert layers[i - 1] in layers;
    }
    if !Annotated(layers) {
      var i :| 0 <= i < |layers| && layers[i].None?;
      assert prior[i + 1].None?;
    }
  }

  /** Each name in use is in the bin that listed it, or in the last one if none did. */
  ghost predicate PlacedAsListed(r: Bins, bins: seq<seq<string>>, cs: seq<Component>) {
    && |r| == |bins|
    && forall i, n | 0 <= i < |r| && n in NameSet(cs) ::
         n in NameSet(r[i]) <==> n in bins[i] || (i == |r| - 1 && n !in Flatten(bins))
  }

  /** Building on any previous image.  It fails exactly if a layer after the first has no annotation;
      otherwise it succeeds exactly if there is such a layer, there are not too many, and the
      annotations list no name in use twice.  Then each component is placed once, as listed. */
  lemma AnyManifest(cs: seq<Component>, binSize: nat, prior: seq<Option<string>>)
    requires Distinct(cs)
    ensures var r := PriorOutcome(cs, binSize, prior);
      && (r.Error? <==> MissesAnnotation(prior))
      && (Annotated(AfterFirst(prior)) ==>
            var bins := Decode(AfterFirst(prior));
            && (r.Returned? <==> 2 <= |prior| <= binSize + 1 && NoneTwice(Flatten(bins), NameSet(cs)))
            && (r.Returned? ==> Packs(r.result, cs) && PlacedAsListed(r.result, bins, cs)))
  {
    MissedAnnotation(prior);
    if Annotated(AfterFirst(prior)) && AfterFirst(prior) != [] {
      ManifestPlaced(cs, Decode(AfterFirst(prior)));
    }
  }

  lemma ManifestPlaced(cs: seq<Component>, bins: seq<seq<string>>)
    requires Distinct(cs) && bins != []
    ensures |Flatten(Repacked(cs, bins))| == |cs| <==> NoneTwice(Flatten(bins), NameSet(cs))
    ensures |Flatten(Repacked(cs, bins))| == |cs| ==> Packs(Repacked(cs, bins), cs)
    ensures PlacedAsListed(Repacked(cs, bins), bins, cs)
  {
    AllPlaced(cs, bins);
    forall i | 0 <= i < |bins|
      ensures forall n | n in NameSet(cs) ::
        n in NameSet(NewBin(cs, bins, i)) <==> n in bins[i] || (i == |bins| - 1 && n !in Flatten(bins))
    {
      PlacedNames(cs, bins, i);
    }
    if |Flatten(Repacked(cs, bins))| == |cs| {
      PlacesAll(cs, bins);
    }
  }
}
