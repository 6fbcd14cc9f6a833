/** The size of a chunk is the size of the components of its bin (lib/src/chunking.rs,
    `compute_sizes` and `process_mapping`). */
module ChunkSizes {
  import opened Seqs
  import opened Sorting
  import opened Objects
  import opened Chunks
  import opened Components
  import opened ChunkMapping
  import P = Partitions
  import F = Folding
  import B = PriorBuild

  /** The owners come from a map: no object is listed twice. */
  ghost predicate Keyed(owners: Owners) {
    forall i, j | 0 <= i < j < |owners| :: owners[i].0 != owners[j].0
  }

  /** Every owned object is part of the whole, with the size that the repository gives. */
  ghost predicate Measured(owners: Owners, files: map<Sum, nat>, whole: Content) {
    forall o | o in owners :: o.0 in files && o.0 in whole && whole[o.0].size == files[o.0]
  }

  /** The objects that a component owns. */
  function Own(owners: Owners, id: string): set<Sum> {
    set o | o in owners && o.1 == id :: o.0
  }

  lemma {:induction false} TotalUnion(m: Content, a: set<Sum>, b: set<Sum>)
    requires a !! b
    ensures Total(Restrict(m, a + b)) == Total(Restrict(m, a)) + Total(Restrict(m, b))
    decreases a
  {
    if k :| k in a && k in m {
      TotalUnion(m, a - {k}, b);
      assert Restrict(m, a) - {k} == Restrict(m, a - {k});
      assert Restrict(m, a + b) - {k} == Restrict(m, a - {k} + b);
      TotalRemove(Restrict(m, a), k);
      TotalRemove(Restrict(m, a + b), k);
    } else {
      assert Restrict(m, a) == map[];
      assert Restrict(m, a + b) == Restrict(m, b);
    }
  }

  /** The sizes added up for a component are those of the distinct objects that it owns. */
  lemma {:induction false} OwnedTotal(owners: Owners, id: string, files: map<Sum, nat>, whole: Content)
    requires Keyed(owners) && Measured(owners, files, whole)
    ensures BytesOf(owners, id, files) == Total(Restrict(whole, Own(owners, id)))
  {
    if owners == [] {
      assert Restrict(whole, Own(owners, id)) == map[];
    } else {
      var before, o := owners[..|owners| - 1], owners[|owners| - 1];
      assert owners == before + [o];
      OwnedTotal(before, id, files, whole);
      OwnOneMore(before, o, id, whole);
    }
  }

  lemma OwnOneMore(before: Owners, o: (Sum, string), id: string, whole: Content)
    requires Keyed(before + [o]) && o.0 in whole
    ensures Total(Restrict(whole, Own(before + [o], id)))
      == Total(Restrict(whole, Own(before, id))) + if o.1 == id then whole[o.0].size else 0
  {
    var own := Own(before, id);
    if o.1 == id {
      assert Own(before + [o], id) == own + {o.0};
      assert o.0 !in own by {
        forall i | 0 <= i < |before| ensures before[i].0 != o.0 {
          assert (before + [o])[i] == before[i] && (before + [o])[|before|] == o;
        }
      }
      assert Restrict(whole, own + {o.0}) == Restrict(whole, own)[o.0 := whole[o.0]];
      TotalInsert(Restrict(whole, own), o.0, whole[o.0]);
    } else {
      assert Own(before + [o], id) == own;
    }
  }

  function SizeOf(bin: seq<P.Component>): nat {
    if bin == [] then 0 else bin[0].size + SizeOf(bin[1..])
  }

  lemma {:induction false} BinTotal(bin: seq<P.Component>, owners: Owners, whole: Content)
    requires forall i, j | 0 <= i < j < |bin| :: bin[i].id != bin[j].id
    requires Keyed(owners)
    requires forall c | c in bin :: c.size == Total(Restrict(whole, Own(owners, c.id)))
    ensures SizeOf(bin) == Total(Restrict(whole, Claim(bin, owners)))
  {
    if bin == [] {
      assert Restrict(whole, Claim(bin, owners)) == map[];
    } else {
      BinTotal(bin[1..], owners, whole);
      ClaimSplits(bin, owners);
      TotalUnion(whole, Own(owners, bin[0].id), Claim(bin[1..], owners));
    }
  }

  lemma ClaimSplits(bin: seq<P.Component>, owners: Owners)
    requires bin != [] && Keyed(owners) && forall i, j | 0 <= i < j < |bin| :: bin[i].id != bin[j].id
    ensures Claim(bin, owners) == Own(owners, bin[0].id) + Claim(bin[1..], owners)
    ensures Own(owners, bin[0].id) !! Claim(bin[1..], owners)
  {
    assert bin == [bin[0]] + bin[1..];
    assert BinIds(bin) == {bin[0].id} + BinIds(bin[1..]);
    assert bin[0].id !in BinIds(bin[1..]);
    forall o, p | o in owners && p in owners && o.0 == p.0
      ensures o == p
    {
      var i, j :| 0 <= i < |owners| && owners[i] == o && 0 <= j < |owners| && owners[j] == p;
    }
  }

  /** A component is as large as the objects that it owns, and the chunk that a bin takes as large as
      the components of the bin. */
  lemma ChunkSizes(bins: F.Bins, cs: seq<P.Component>, files: map<Sum, nat>, owners: Owners,
                   sources: map<string, SourceMeta>, whole: Content)
    requires Complete(files, owners, sources) && SizesOf(cs, files, owners, sources)
    requires Keyed(owners) && Measured(owners, files, whole) && multiset(Flatten(bins)) == multiset(cs)
    ensures forall c | c in cs :: c.size == Total(Restrict(whole, set o | o in owners && o.1 == c.id :: o.0))
    ensures forall i | 0 <= i < |bins| :: Total(Parts(whole, Claims(bins, owners))[i]) == SizeOf(bins[i])
  {
    forall c | c in cs
      ensures c.size == Total(Restrict(whole, Own(owners, c.id)))
    {
      OwnedTotal(owners, c.id, files, whole);
      assert Own(owners, c.id) == set o | o in owners && o.1 == c.id :: o.0;
    }
    assert SingleOwner(owners) by {
      forall a, b | a in owners && b in owners && a.0 == b.0
        ensures a == b
      {
        var i, j :| 0 <= i < |owners| && owners[i] == a && 0 <= j < |owners| && owners[j] == b;
      }
    }
    MappingCompletes(bins, cs, files, owners, sources, whole);
    forall i | 0 <= i < |bins|
      ensures Total(Restrict(whole, Claim(bins[i], owners))) == SizeOf(bins[i])
    {
      DistinctIds(bins, cs, i);
      BinTotal(bins[i], owners, whole);
    }
  }

  lemma DistinctIds(bins: F.Bins, cs: seq<P.Component>, i: nat)
    requires multiset(Flatten(bins)) == multiset(cs) && i < |bins|
    requires forall k, l | 0 <= k < l < |cs| :: cs[k].id != cs[l].id
    ensures forall c | c in bins[i] :: c in cs
    ensures forall k, l | 0 <= k < l < |bins[i]| :: bins[i][k].id != bins[i][l].id
  {
    assert NoDup(cs);
    B.PermutedNoDup(cs, Flatten(bins));
    SpreadIfNoDup(bins);
    FlattenMembers(bins);
    SameContents(Flatten(bins), cs);
    forall k, l | 0 <= k < l < |bins[i]|
      ensures bins[i][k].id != bins[i][l].id
    {
      var a, b := bins[i][k], bins[i][l];
      assert a in bins[i] && b in bins[i] && a != b;
      var x, y :| 0 <= x < |cs| && cs[x] == a && 0 <= y < |cs| && cs[y] == b;
      assert x < y || y < x;
    }
  }
}
