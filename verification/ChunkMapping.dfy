/** Moving the objects of a commit into chunks, and rebuilding the chunks from stored layers
    (lib/src/chunking.rs, `Chunking`; lib/src/container/store.rs, `chunking_from_layer_committed`). */
module ChunkMapping {
  import opened Outcomes
  import opened Seqs
  import opened Sorting
  import opened Paths
  import opened Objects
  import opened Chunks
  import opened Components
  import P = Partitions
  import F = Folding
  import K = Packing
  import B = PriorBuild

  const MAX_CHUNKS: nat := 64

  const ROOT: Path := [RootDir]

  // ---- contents taken in turn ----

  function Union(claims: seq<set<Sum>>): set<Sum> {
    set c, s | c in claims && s in c :: s
  }

  /** What the `i`-th claim gets: an object goes to the first claim that names it. */
  function PartAt(whole: Content, claims: seq<set<Sum>>, i: nat): Content
    requires i < |claims|
  {
    Restrict(whole - Union(claims[..i]), claims[i])
  }

  function Parts(whole: Content, claims: seq<set<Sum>>): (r: seq<Content>)
    ensures |r| == |claims| && forall i | 0 <= i < |claims| :: r[i] == PartAt(whole, claims, i)
  {
    seq(|claims|, i requires 0 <= i < |claims| => PartAt(whole, claims, i))
  }

  ghost predicate SubMap(a: Content, b: Content) {
    forall k | k in a :: k in b && a[k] == b[k]
  }

  /** The parts and the rest hold every object of the whole once, unchanged. */
  ghost predicate Cover(parts: seq<Content>, rest: Content, whole: Content) {
    && SubMap(rest, whole)
    && (forall i | 0 <= i < |parts| :: SubMap(parts[i], whole) && parts[i].Keys !! rest.Keys)
    && (forall i, j | 0 <= i < j < |parts| :: parts[i].Keys !! parts[j].Keys)
    && forall k | k in whole :: k in rest || exists i :: 0 <= i < |parts| && k in parts[i]
  }

  lemma UnionSnoc(claims: seq<set<Sum>>, i: nat)
    requires i < |claims|
    ensures Union(claims[..i + 1]) == Union(claims[..i]) + claims[i]
  {
    assert claims[..i + 1] == claims[..i] + [claims[i]];
  }

  /** Taking one more part out of the rest keeps the cover. */
  lemma CoverTake(parts: seq<Content>, rest: Content, whole: Content, claim: set<Sum>)
    requires Cover(parts, rest, whole)
    ensures Cover(parts + [Restrict(rest, claim)], rest - claim, whole)
  {
    var part := Restrict(rest, claim);
    var now := parts + [part];
    forall k | k in whole
      ensures k in rest - claim || exists i :: 0 <= i < |now| && k in now[i]
    {
      if k in rest {
        assert k !in claim || k in now[|parts|];
      } else {
        var i :| 0 <= i < |parts| && k in parts[i];
        assert k in now[i];
      }
    }
  }

  lemma PartsPrefix(whole: Content, claims: seq<set<Sum>>, i: nat)
    requires i < |claims|
    ensures Parts(whole, claims[..i + 1])
      == Parts(whole, claims[..i]) + [Restrict(whole - Union(claims[..i]), claims[i])]
    ensures whole - Union(claims[..i + 1]) == whole - Union(claims[..i]) - claims[i]
  {
    UnionSnoc(claims, i);
    assert forall k | 0 <= k <= i :: claims[..i + 1][..k] == claims[..k];
    assert forall k | 0 <= k <= i :: claims[..i][..k] == claims[..k];
  }

  /** Whatever the claims, the parts and what nobody claims are a disjoint cover. */
  lemma {:induction false} PartsCover(whole: Content, claims: seq<set<Sum>>)
    ensures Cover(Parts(whole, claims), whole - Union(claims), whole)
  {
    if claims == [] {
      assert whole - Union(claims) == whole;
    } else {
      var i := |claims| - 1;
      assert claims[..i + 1] == claims;
      PartsCover(whole, claims[..i]);
      PartsPrefix(whole, claims, i);
      CoverTake(Parts(whole, claims[..i]), whole - Union(claims[..i]), whole, claims[i]);
    }
  }

  function KeySets(parts: seq<Content>): (r: seq<set<Sum>>)
    ensures |r| == |parts| && forall i | 0 <= i < |parts| :: r[i] == parts[i].Keys
  {
    seq(|parts|, i requires 0 <= i < |parts| => parts[i].Keys)
  }

  lemma InUnion(claims: seq<set<Sum>>, k: Sum)
    ensures k in Union(claims) <==> exists i :: 0 <= i < |claims| && k in claims[i]
  {
    if k in Union(claims) {
      var c :| c in claims && k in c;
      var i :| 0 <= i < |claims| && claims[i] == c;
    }
  }

  lemma NotClaimedBefore(parts: seq<Content>, rest: Content, whole: Content, i: nat, k: Sum)
    requires Cover(parts, rest, whole) && i < |parts| && k in parts[i]
    ensures k !in Union(KeySets(parts)[..i])
  {
    var earlier := KeySets(parts)[..i];
    InUnion(earlier, k);
    forall j | 0 <= j < i
      ensures k !in earlier[j]
    {
      assert earlier[j] == parts[j].Keys && parts[j].Keys !! parts[i].Keys;
    }
  }

  lemma RestrictToPart(whole: Content, earlier: set<Sum>, part: Content)
    requires SubMap(part, whole) && part.Keys !! earlier
    ensures Restrict(whole - earlier, part.Keys) == part
  {
  }

  lemma PartRebuilt(parts: seq<Content>, rest: Content, whole: Content, i: nat)
    requires Cover(parts, rest, whole) && i < |parts|
    ensures PartAt(whole, KeySets(parts), i) == parts[i]
  {
    forall k | k in parts[i]
      ensures k !in Union(KeySets(parts)[..i])
    {
      NotClaimedBefore(parts, rest, whole, i, k);
    }
    RestrictToPart(whole, Union(KeySets(parts)[..i]), parts[i]);
  }

  lemma RestRebuilt(parts: seq<Content>, rest: Content, whole: Content)
    requires Cover(parts, rest, whole)
    ensures whole - Union(KeySets(parts)) == rest
  {
    forall k | k in whole
      ensures k in rest <==> k !in Union(KeySets(parts))
    {
      InUnion(KeySets(parts), k);
    }
  }

  /** A disjoint cover is rebuilt from the key sets of its parts alone. */
  lemma CoverRebuilt(parts: seq<Content>, rest: Content, whole: Content)
    requires Cover(parts, rest, whole)
    ensures Parts(whole, KeySets(parts)) == parts && whole - Union(KeySets(parts)) == rest
  {
    forall i | 0 <= i < |parts|
      ensures PartAt(whole, KeySets(parts), i) == parts[i]
    {
      PartRebuilt(parts, rest, whole, i);
    }
    RestRebuilt(parts, rest, whole);
  }

  // ---- what a bin claims ----

  function BinIds(bin: seq<P.Component>): set<string> {
    set c | c in bin :: c.id
  }

  /** The objects owned by the components of a bin. */
  function Claim(bin: seq<P.Component>, owners: Owners): set<Sum> {
    set o | o in owners && o.1 in BinIds(bin) :: o.0
  }

  function Claims(bins: F.Bins, owners: Owners): (r: seq<set<Sum>>)
    ensures |r| == |bins| && forall i | 0 <= i < |bins| :: r[i] == Claim(bins[i], owners)
  {
    seq(|bins|, i requires 0 <= i < |bins| => Claim(bins[i], owners))
  }

  predicate Known(bin: seq<P.Component>, owners: Owners) {
    forall c | c in bin :: c.id in Ids(owners)
  }

  /** Some component has no objects, so its lookup would fail. */
  predicate Unknown(bins: F.Bins, owners: Owners) {
    !Known(Flatten(bins), owners)
  }

  lemma NothingUnknown(bins: F.Bins, owners: Owners)
    ensures !Unknown(bins, owners) <==> forall i | 0 <= i < |bins| :: Known(bins[i], owners)
  {
    FlattenMembers(bins);
    if i :| 0 <= i < |bins| && !Known(bins[i], owners) {
      var c :| c in bins[i] && c.id !in Ids(owners);
      assert c in Flatten(bins);
    }
  }

  function NamesOf(bins: F.Bins): (r: seq<seq<string>>)
    ensures |r| == |bins| && forall i | 0 <= i < |bins| :: r[i] == B.Names(bins[i])
  {
    seq(|bins|, i requires 0 <= i < |bins| => B.Names(bins[i]))
  }

  /** The closing assertion of the mapping fires, or a lookup before it. */
  predicate LeavesWork(bins: F.Bins, owners: Owners, whole: Content) {
    Unknown(bins, owners) || whole - Union(Claims(bins, owners)) != map[]
  }

  function Owned(owners: Owners): set<Sum> {
    set o | o in owners :: o.0
  }

  /** When the packing holds each component and these are the owners, every lookup succeeds, and
      nothing stays unclaimed exactly if every object of the commit has an owner. */
  lemma AllClaimed(bins: F.Bins, cs: seq<P.Component>, owners: Owners, whole: Content)
    requires multiset(Flatten(bins)) == multiset(cs) && BinIds(cs) == Ids(owners)
    ensures !Unknown(bins, owners)
    ensures Union(Claims(bins, owners)) == Owned(owners)
    ensures whole - Union(Claims(bins, owners)) == map[] <==> whole.Keys <= Owned(owners)
  {
    SameContents(Flatten(bins), cs);
    var claims := Claims(bins, owners);
    forall s | s in Owned(owners)
      ensures s in Union(claims)
    {
      var o :| o in owners && o.0 == s;
      OwnerPacked(bins, cs, owners, o);
      InUnion(claims, s);
    }
    forall s | s in Union(claims)
      ensures s in Owned(owners)
    {
      InUnion(claims, s);
    }
    assert Union(claims) == Owned(owners);
    var left := whole - Owned(owners);
    if left == map[] {
      assert forall k | k in whole :: k in Owned(owners) || k in left;
    }
  }

  lemma OwnerPacked(bins: F.Bins, cs: seq<P.Component>, owners: Owners, o: (Sum, string))
    requires (forall c | c in cs :: c in Flatten(bins)) && BinIds(cs) == Ids(owners) && o in owners
    ensures exists i :: 0 <= i < |bins| && o.0 in Claims(bins, owners)[i]
  {
    assert o.1 in BinIds(cs);
    var c :| c in cs && c.id == o.1;
    FlattenMembers(bins);
    var i :| 0 <= i < |bins| && c in bins[i];
    assert o.0 in Claims(bins, owners)[i];
  }

  /** No object has two owners: the keys of an index map. */
  ghost predicate SingleOwner(owners: Owners) {
    forall a, b | a in owners && b in owners && a.0 == b.0 :: a == b
  }

  lemma SizedIds(cs: seq<P.Component>, files: map<Sum, nat>, owners: Owners, sources: map<string, SourceMeta>)
    requires Complete(files, owners, sources) && SizesOf(cs, files, owners, sources)
    ensures BinIds(cs) == Ids(owners) && P.Descending(cs)
  {
    forall i, j | 0 <= i < j < |cs|
      ensures cs[i].size >= cs[j].size
    {
      assert SizeThenId(cs[i], cs[j]);
    }
  }

  /** With sizes computed from the ownership map itself, the mapping completes exactly if every
      object of the commit has an owner, and then each object is in the chunk of its owner's bin. */
  lemma MappingCompletes(bins: F.Bins, cs: seq<P.Component>, files: map<Sum, nat>, owners: Owners,
                         sources: map<string, SourceMeta>, whole: Content)
    requires Complete(files, owners, sources) && SizesOf(cs, files, owners, sources) && SingleOwner(owners)
    requires multiset(Flatten(bins)) == multiset(cs)
    ensures !LeavesWork(bins, owners, whole) <==> whole.Keys <= Owned(owners)
    ensures !LeavesWork(bins, owners, whole) ==> Cover(Parts(whole, Claims(bins, owners)), map[], whole)
    ensures forall i | 0 <= i < |bins| ::
      Parts(whole, Claims(bins, owners))[i] == Restrict(whole, Claim(bins[i], owners))
  {
    SizedIds(cs, files, owners, sources);
    AllClaimed(bins, cs, owners, whole);
    assert Cover(Parts(whole, Claims(bins, owners)), whole - Union(Claims(bins, owners)), whole) by {
      PartsCover(whole, Claims(bins, owners));
    }
    forall i | 0 <= i < |bins|
      ensures PartAt(whole, Claims(bins, owners), i) == Restrict(whole, Claim(bins[i], owners))
    {
      ClaimsApart(bins, cs, owners, i);
      RestrictApart(whole, Union(Claims(bins, owners)[..i]), Claim(bins[i], owners));
    }
  }

  lemma RestrictApart(whole: Content, earlier: set<Sum>, claim: set<Sum>)
    requires claim !! earlier
    ensures Restrict(whole - earlier, claim) == Restrict(whole, claim)
  {
  }

  lemma BinIdsApart(bins: F.Bins, cs: seq<P.Component>, i: nat, j: nat)
    requires multiset(Flatten(bins)) == multiset(cs) && i < j < |bins|
    requires forall k, l | 0 <= k < l < |cs| :: cs[k].id != cs[l].id
    ensures BinIds(bins[i]) !! BinIds(bins[j])
  {
    assert NoDup(cs);
    B.PermutedNoDup(cs, Flatten(bins));
    SpreadIfNoDup(bins);
    FlattenMembers(bins);
    SameContents(Flatten(bins), cs);
    forall a, b | a in bins[i] && b in bins[j]
      ensures a.id != b.id
    {
      assert a in cs && b in cs && a != b;
      var k, l :| 0 <= k < |cs| && cs[k] == a && 0 <= l < |cs| && cs[l] == b;
      assert k < l || l < k;
    }
  }

  lemma ClaimsApart(bins: F.Bins, cs: seq<P.Component>, owners: Owners, i: nat)
    requires multiset(Flatten(bins)) == multiset(cs) && i < |bins| && SingleOwner(owners)
    requires forall k, l | 0 <= k < l < |cs| :: cs[k].id != cs[l].id
    ensures Claim(bins[i], owners) !! Union(Claims(bins, owners)[..i])
  {
    forall s | s in Claim(bins[i], owners)
      ensures s !in Union(Claims(bins, owners)[..i])
    {
      InUnion(Claims(bins, owners)[..i], s);
      forall j | 0 <= j < i
        ensures s !in Claim(bins[j], owners)
      {
        BinIdsApart(bins, cs, j, i);
      }
    }
  }

  // ---- the packing as a whole ----

  type Prior = Option<seq<Option<string>>>

  /** The outcome of packing, with or without the layers of a previous image. */
  ghost predicate PackingOf(p: Outcome<F.Bins>, cs: seq<P.Component>, binSize: nat, prior: Prior, cut: nat -> nat,
                            lim: P.Limits)
  {
    if binSize < K.MIN_CHUNKED_LAYERS then p.Error?
    else if prior.Some? then p == B.PriorOutcome(cs, binSize, prior.value)
    else
      && !p.Error? && (p.Panic? <==> K.Unpackable(cs, binSize, cut, lim))
      && (p.Returned? ==> |p.result| <= binSize && multiset(Flatten(p.result)) == multiset(cs))
  }

  method Pack(cs: seq<P.Component>, binSize: nat, prior: Prior, cut: nat -> nat, lim: P.Limits)
    returns (p: Outcome<F.Bins>)
    requires K.IsCutoff(cut)
    ensures PackingOf(p, cs, binSize, prior, cut, lim)
  {
    if prior.Some? {
      if binSize < K.MIN_CHUNKED_LAYERS { return Error; }
      p := B.PackWithPriorBuild(cs, binSize, prior.value);
    } else {
      p := K.BasicPacking(cs, binSize, cut, lim);
    }
  }

  // ---- inverting the ownership map ----

  lemma {:induction false} OwnedByMembers(owners: Owners, id: string)
    ensures forall s :: s in OwnedBy(owners, id) <==> (s, id) in owners
    ensures OwnedBy(owners, id) == [] <==> id !in Ids(owners)
  {
    if owners != [] {
      OwnedByMembers(owners[..|owners| - 1], id);
      assert owners == owners[..|owners| - 1] + [owners[|owners| - 1]];
    }
  }

  ghost predicate Inverts(rmap: map<string, seq<Sum>>, owners: Owners) {
    rmap.Keys == Ids(owners) && forall id | id in rmap :: rmap[id] == OwnedBy(owners, id)
  }

  method Invert(owners: Owners) returns (rmap: map<string, seq<Sum>>)
    ensures Inverts(rmap, owners)
  {
    rmap := map[];
    for i := 0 to |owners|
      invariant Inverts(rmap, owners[..i])
    {
      var (sum, id) := owners[i];
      assert owners[..i + 1] == owners[..i] + [owners[i]];
      OwnedByMembers(owners[..i], id);
      rmap := rmap[id := (if id in rmap then rmap[id] else []) + [sum]];
    }
    assert owners[..|owners|] == owners;
  }

  // ---- taking the bins in turn ----

  /** What the chunks hold, what they are annotated with, and what is left. */
  datatype Distribution = Distribution(contents: seq<Content>, packages: seq<seq<string>>, rest: Content)

  /** After the first `i` bins. */
  ghost predicate Taken(before: Distribution, now: Distribution, bins: F.Bins, owners: Owners, i: nat) {
    && i <= |bins| && (forall j | 0 <= j < i :: Known(bins[j], owners))
    && now.contents == before.contents + Parts(before.rest, Claims(bins, owners)[..i])
    && now.packages == before.packages + NamesOf(bins)[..i]
    && now.rest == before.rest - Union(Claims(bins, owners)[..i])
  }

  lemma NothingTaken(before: Distribution, bins: F.Bins, owners: Owners)
    ensures Taken(before, before, bins, owners, 0)
  {
    assert Parts(before.rest, Claims(bins, owners)[..0]) == []
      && before.rest - Union(Claims(bins, owners)[..0]) == before.rest;
  }

  lemma TakenMore(before: Distribution, now: Distribution, bins: F.Bins, owners: Owners, i: nat)
    requires i < |bins| && Taken(before, now, bins, owners, i)
    ensures var claim := Claim(bins[i], owners);
      var next := Distribution(now.contents + [Restrict(now.rest, claim)], now.packages + [B.Names(bins[i])],
                               now.rest - claim);
      Known(bins[i], owners) ==> Taken(before, next, bins, owners, i + 1)
  {
    PartsPrefix(before.rest, Claims(bins, owners), i);
    assert NamesOf(bins)[..i + 1] == NamesOf(bins)[..i] + [B.Names(bins[i])];
  }

  lemma AllTaken(before: Distribution, now: Distribution, bins: F.Bins, owners: Owners)
    requires Taken(before, now, bins, owners, |bins|)
    ensures now.contents == before.contents + Parts(before.rest, Claims(bins, owners))
    ensures now.packages == before.packages + NamesOf(bins) && now.rest == before.rest - Union(Claims(bins, owners))
    ensures forall i | 0 <= i < |bins| :: Known(bins[i], owners)
  {
    assert Claims(bins, owners)[..|bins|] == Claims(bins, owners) && NamesOf(bins)[..|bins|] == NamesOf(bins);
  }

  // ---- the chunking ----

  class Chunking {
    var remainder: Chunk
    var chunks: seq<Chunk>
    var max: nat
    var processed: bool
    var provided: nat
    var sized: nat

    ghost function Contents(): (r: seq<Content>)
      reads this, chunks
      ensures |r| == |chunks| && forall i | 0 <= i < |chunks| :: r[i] == chunks[i].content
    {
      seq(|chunks|, i requires 0 <= i < |chunks| reads this, chunks => chunks[i].content)
    }

    ghost function Packages(): (r: seq<seq<string>>)
      reads this, chunks
      ensures |r| == |chunks| && forall i | 0 <= i < |chunks| :: r[i] == chunks[i].packages
    {
      seq(|chunks|, i requires 0 <= i < |chunks| reads this, chunks => chunks[i].packages)
    }

    /** The chunks and the remainder are separate, correctly sized, and hold every object of the
        whole once, with its size and paths unchanged. */
    ghost predicate Valid(whole: Content)
      reads this, chunks, remainder
    {
      && NoDup(chunks) && remainder !in chunks
      && remainder.Sized() && (forall c | c in chunks :: c.Sized())
      && Cover(Contents(), remainder.content, whole)
    }

    /** Everything in a single chunk: the remainder. */
    constructor (c: Commit, env: Env)
      requires NoCollision(Occurrences(c.root, ROOT), env)
      ensures Valid(remainder.content) && fresh(remainder)
      ensures chunks == [] && max == 0 && !processed && provided == 0 && sized == 0
      ensures Records(remainder.content, Occurrences(c.root, ROOT), env)
    {
      chunks, max, processed, provided, sized := [], 0, false, 0, 0;
      remainder := new Chunk();
      new;
      assert [] + Occurrences(c.root, ROOT) == Occurrences(c.root, ROOT);
      remainder.Generate(c.root, ROOT, [], env);
    }

    /** Moves the objects of a bin into a new chunk; stops at a component without objects. */
    method TakeBin(bin: seq<P.Component>, rmap: map<string, seq<Sum>>, ghost owners: Owners) returns (r: Option<Chunk>)
      requires remainder.Sized() && Inverts(rmap, owners)
      modifies remainder`content, remainder`size
      ensures r.None? <==> exists c :: c in bin && c.id !in Ids(owners)
      ensures r.Some? ==> fresh(r.value) && r.value.packages == B.Names(bin)
      ensures r.Some? ==> remainder.Sized() && r.value.Sized()
      ensures r.Some? ==> r.value.content == Restrict(old(remainder.content), Claim(bin, owners))
      ensures r.Some? ==> remainder.content == old(remainder.content) - Claim(bin, owners)
    {
      var chunk := new Chunk();
      chunk.packages := B.Names(bin);
      for i := 0 to |bin|
        invariant forall c | c in bin[..i] :: c.id in Ids(owners)
        invariant remainder.Sized() && chunk.Sized() && chunk.packages == B.Names(bin)
        invariant chunk.content == Restrict(old(remainder.content), Claim(bin[..i], owners))
        invariant remainder.content == old(remainder.content) - Claim(bin[..i], owners)
      {
        assert bin[i] in bin;
        if bin[i].id !in rmap { return None; }
        ClaimMore(bin, i, owners, old(remainder.content));
        remainder.MoveAll(chunk, rmap[bin[i].id]);
      }
      assert bin[..|bin|] == bin;
      return Some(chunk);
    }

    /** Adds a chunk filled from the remainder. */
    method Push(chunk: Chunk, ghost rest: Content, ghost claim: set<Sum>, ghost whole: Content)
      requires NoDup(chunks) && remainder !in chunks && chunk !in chunks && chunk != remainder
      requires remainder.Sized() && chunk.Sized() && forall c | c in chunks :: c.Sized()
      requires Cover(Contents(), rest, whole)
      requires chunk.content == Restrict(rest, claim) && remainder.content == rest - claim
      modifies this`chunks
      ensures Valid(whole) && chunks == old(chunks) + [chunk]
      ensures Contents() == old(Contents()) + [Restrict(rest, claim)]
      ensures Packages() == old(Packages()) + [chunk.packages]
    {
      ghost var before := Contents();
      CoverTake(before, rest, whole, claim);
      chunks := chunks + [chunk];
      assert Contents() == before + [Restrict(rest, claim)];
    }

    /** The chunk of the next bin. */
    method TakeNext(bin: seq<P.Component>, rmap: map<string, seq<Sum>>, ghost owners: Owners, ghost whole: Content)
      returns (ok: bool)
      requires Valid(whole) && Inverts(rmap, owners)
      modifies this`chunks, remainder`content, remainder`size
      ensures ok <==> forall c | c in bin :: c.id in Ids(owners)
      ensures ok ==>
        Valid(whole) && Contents() == old(Contents()) + [Restrict(old(remainder.content), Claim(bin, owners))]
      ensures ok ==> remainder.content == old(remainder.content) - Claim(bin, owners)
      ensures ok ==> Packages() == old(Packages()) + [B.Names(bin)]
    {
      ghost var rest, before, packages := remainder.content, Contents(), Packages();
      var chunk := TakeBin(bin, rmap, owners);
      if chunk.None? { return false; }
      assert Contents() == before && Packages() == packages;
      Push(chunk.value, rest, Claim(bin, owners), whole);
      return true;
    }

    /** One chunk for each bin. */
    method TakeBins(bins: F.Bins, rmap: map<string, seq<Sum>>, ghost owners: Owners, ghost whole: Content)
      returns (ok: bool)
      requires Valid(whole) && Inverts(rmap, owners)
      modifies this`chunks, remainder`content, remainder`size
      ensures ok <==> !Unknown(bins, owners)
      ensures ok ==> Valid(whole)
      ensures ok ==> Contents() == old(Contents()) + Parts(old(remainder.content), Claims(bins, owners))
      ensures ok ==> remainder.content == old(remainder.content) - Union(Claims(bins, owners))
      ensures ok ==> Packages() == old(Packages()) + NamesOf(bins)
    {
      ghost var before := Distribution(Contents(), Packages(), remainder.content);
      NothingUnknown(bins, owners);
      NothingTaken(before, bins, owners);
      for i := 0 to |bins|
        invariant Valid(whole)
        invariant Taken(before, Distribution(Contents(), Packages(), remainder.content), bins, owners, i)
      {
        TakenMore(before, Distribution(Contents(), Packages(), remainder.content), bins, owners, i);
        ok := TakeNext(bins[i], rmap, owners, whole);
        if !ok {
          assert !Known(bins[i], owners);
          return;
        }
      }
      AllTaken(before, Distribution(Contents(), Packages(), remainder.content), bins, owners);
      return true;
    }

    /** Inverts the map and takes the bins; all objects must be gone from the remainder then. */
    method TakeAll(bins: F.Bins, owners: Owners, ghost whole: Content) returns (done: bool)
      requires Valid(whole)
      modifies this`chunks, remainder`content, remainder`size
      ensures done <==> !LeavesWork(bins, owners, old(remainder.content))
      ensures done ==> Valid(whole) && remainder.content == map[]
      ensures done ==> Contents() == old(Contents()) + Parts(old(remainder.content), Claims(bins, owners))
      ensures done ==> Packages() == old(Packages()) + NamesOf(bins)
    {
      var rmap := Invert(owners);
      done := TakeBins(bins, rmap, owners, whole);
      done := done && remainder.content == map[];
    }

    /** Packs the components and moves their objects into one chunk for each bin. */
    method PackAndTake(cs: seq<P.Component>, owners: Owners, prior: Prior, cut: nat -> nat, lim: P.Limits,
                       ghost whole: Content)
      returns (r: Outcome<()>, ghost packing: Outcome<F.Bins>)
      requires Valid(whole) && K.IsCutoff(cut)
      modifies this`chunks, remainder`content, remainder`size
      ensures !r.Panic? ==> Valid(whole)
      ensures PackingOf(packing, cs, max, prior, cut, lim) && (r.Error? <==> packing.Error?)
      ensures r.Panic? <==>
        packing.Panic? || (packing.Returned? && LeavesWork(packing.result, owners, old(remainder.content)))
      ensures r.Returned? ==> remainder.content == map[]
      ensures r.Returned? ==>
        Contents() == old(Contents()) + Parts(old(remainder.content), Claims(packing.result, owners))
      ensures r.Returned? ==> Packages() == old(Packages()) + NamesOf(packing.result)
    {
      var p := Pack(cs, max, prior, cut, lim);
      packing := p;
      if p.Error? { return Error, packing; }
      if p.Panic? { return Panic, packing; }
      var done := TakeAll(p.result, owners, whole);
      r := if done then Returned(()) else Panic;
    }

    /** Generates the chunks from the components and their objects.  A second call stops at an
        assertion; with no layers left nothing is done. */
    method ProcessMapping(cs: seq<P.Component>, owners: Owners, maxLayers: Option<nat>, prior: Prior, cut: nat -> nat,
                          lim: P.Limits, ghost whole: Content)
      returns (r: Outcome<()>, ghost packing: Outcome<F.Bins>)
      requires Valid(whole) && K.IsCutoff(cut) && (maxLayers.Some? ==> maxLayers.value >= 1)
      modifies this, remainder`content, remainder`size
      ensures processed && max == (if maxLayers.Some? then maxLayers.value else MAX_CHUNKS)
      ensures !r.Panic? ==> Valid(whole) && remainder == old(remainder)
      ensures old(processed) ==> r.Panic?
      ensures !old(processed) && max <= |old(chunks)| ==>
        r == Returned(()) && chunks == old(chunks) && remainder.content == old(remainder.content)
      ensures !old(processed) && max > |old(chunks)| ==>
        && PackingOf(packing, cs, max, prior, cut, lim) && provided == |cs|
        && sized == |Filter(cs, (c: P.Component) => c.size > 0)|
        && (r.Error? <==> packing.Error?)
        && (r.Panic? <==>
          packing.Panic? || (packing.Returned? && LeavesWork(packing.result, owners, old(remainder.content))))
        && (r.Returned? ==>
              && remainder.content == map[]
              && Contents() == old(Contents()) + Parts(old(remainder.content), Claims(packing.result, owners))
              && Packages() == old(Packages()) + NamesOf(packing.result))
    {
      packing := Error;
      max := if maxLayers.Some? then maxLayers.value else MAX_CHUNKS;
      if processed { return Panic, packing; }
      processed := true;
      assert Contents() == old(Contents()) && Packages() == old(Packages());
      if max <= |chunks| { return Returned(()), packing; }
      provided := |cs|;
      sized := |Filter(cs, (c: P.Component) => c.size > 0)|;
      assert Contents() == old(Contents()) && Packages() == old(Packages());
      r, packing := PackAndTake(cs, owners, prior, cut, lim, whole);
    }

    /** Moves the named objects into a new chunk; stops at a name that is no checksum. */
    method TakeNames(names: seq<string>) returns (r: Option<Chunk>)
      requires remainder.Sized()
      modifies remainder`content, remainder`size
      ensures r.Some? <==> forall n | n in names :: IsSha256(n)
      ensures r.Some? ==> fresh(r.value) && remainder.Sized() && r.value.Sized()
      ensures r.Some? ==> r.value.content == Restrict(old(remainder.content), SumSet(names))
      ensures r.Some? ==> remainder.content == old(remainder.content) - SumSet(names)
    {
      var chunk := new Chunk();
      for i := 0 to |names|
        invariant forall n | n in names[..i] :: IsSha256(n)
        invariant remainder.Sized() && chunk.Sized()
        invariant chunk.content == map[] + Restrict(old(remainder.content), SumSet(names[..i]))
        invariant remainder.content == old(remainder.content) - SumSet(names[..i])
      {
        assert names[i] in names;
        if !IsSha256(names[i]) { return None; }
        MovedOne(old(remainder.content), map[], names, i);
        assert names[..i + 1] == names[..i] + [names[i]];
        var moved := remainder.MoveObj(chunk, names[i]);
      }
      assert names[..|names|] == names;
      assert chunk.content == Restrict(old(remainder.content), SumSet(names));
      return Some(chunk);
    }

    /** Rebuilds one chunk from the file names of a stored layer. */
    method FromLayerCommitted(names: seq<string>, ghost whole: Content) returns (r: Result<()>)
      requires Valid(whole)
      modifies this`chunks, remainder`content, remainder`size
      ensures r.Ok? <==> forall n | n in names :: IsSha256(n)
      ensures r.Ok? ==>
        Valid(whole) && Contents() == old(Contents()) + [Restrict(old(remainder.content), SumSet(names))]
      ensures r.Ok? ==> remainder.content == old(remainder.content) - SumSet(names)
      ensures r.Ok? ==>
        |chunks| == |old(chunks)| + 1 && chunks[..|old(chunks)|] == old(chunks) && fresh(chunks[|old(chunks)|])
    {
      ghost var rest, before := remainder.content, Contents();
      var chunk := TakeNames(names);
      if chunk.None? { return Err; }
      assert Contents() == before;
      Push(chunk.value, rest, SumSet(names), whole);
      return Ok(());
    }
  }

  /** From a commit and the sizes computed for its components to one chunk for each bin.  If the
      packing holds each component once, nothing else can stop as long as every object has an owner,
      and each object ends up in the chunk of its owner. */
  method FromMapping(c: Commit, env: Env, files: map<Sum, nat>, owners: Owners, sources: map<string, SourceMeta>,
                     cs: seq<P.Component>, maxLayers: Option<nat>, prior: Prior, cut: nat -> nat, lim: P.Limits)
    returns (r: Outcome<Chunking>, ghost whole: Content, ghost packing: Outcome<F.Bins>)
    requires NoCollision(Occurrences(c.root, ROOT), env) && K.IsCutoff(cut) && SingleOwner(owners)
    requires Complete(files, owners, sources) && SizesOf(cs, files, owners, sources)
    requires maxLayers.Some? ==> maxLayers.value >= 1
    ensures Records(whole, Occurrences(c.root, ROOT), env)
    ensures PackingOf(packing, cs, if maxLayers.Some? then maxLayers.value else MAX_CHUNKS, prior, cut, lim)
    ensures r.Error? <==> packing.Error?
    ensures r.Panic? <==> packing.Panic? || (packing.Returned? && LeavesWork(packing.result, owners, whole))
    ensures packing.Returned? && multiset(Flatten(packing.result)) == multiset(cs) ==>
      (LeavesWork(packing.result, owners, whole) <==> !(whole.Keys <= Owned(owners)))
    ensures r.Returned? ==> fresh(r.result) && r.result.Valid(whole) && r.result.remainder.content == map[]
    ensures r.Returned? ==> r.result.Contents() == Parts(whole, Claims(packing.result, owners))
    ensures r.Returned? && multiset(Flatten(packing.result)) == multiset(cs) ==>
      r.result.Contents() == OwnedContents(whole, packing.result, owners)
    ensures r.Returned? ==> r.result.Packages() == NamesOf(packing.result)
  {
    var chunking := new Chunking(c, env);
    whole := chunking.remainder.content;
    var done;
    done, packing := chunking.ProcessMapping(cs, owners, maxLayers, prior, cut, lim, whole);
    if packing.Returned? && multiset(Flatten(packing.result)) == multiset(cs) {
      MappingCompletes(packing.result, cs, files, owners, sources, whole);
      assert Parts(whole, Claims(packing.result, owners)) == OwnedContents(whole, packing.result, owners);
    }
    match done
    case Error => r := Error;
    case Panic => r := Panic;
    case Returned(_) => r := Returned(chunking);
  }

  /** A build on a previous image whose packing held each component once never stops in the packing,
      and holds each component once. */
  lemma PriorPermutes(p: Outcome<F.Bins>, cs: seq<P.Component>, binSize: nat, before: F.Bins,
                      previous: seq<P.Component>, cut: nat -> nat, lim: P.Limits)
    requires PackingOf(p, cs, binSize, Some(B.Manifest(before)), cut, lim) && binSize >= K.MIN_CHUNKED_LAYERS
    requires before != [] && |before| <= binSize && B.Packs(before, previous) && B.WellNamed(previous)
      && B.WellNamed(cs)
    ensures p.Returned? && multiset(Flatten(p.result)) == multiset(cs)
  {
    B.NextBuild(before, previous, cs, binSize);
  }

  /** The objects of each bin's components. */
  ghost function OwnedContents(whole: Content, bins: F.Bins, owners: Owners): (r: seq<Content>)
    ensures |r| == |bins| && forall i | 0 <= i < |bins| :: r[i] == Restrict(whole, Claim(bins[i], owners))
  {
    seq(|bins|, i requires 0 <= i < |bins| => Restrict(whole, Claim(bins[i], owners)))
  }

  lemma ClaimMore(bin: seq<P.Component>, i: nat, owners: Owners, src: Content)
    requires i < |bin|
    ensures var s, x := Claim(bin[..i], owners), SumSet(OwnedBy(owners, bin[i].id));
      && src - s - x == src - Claim(bin[..i + 1], owners)
      && Restrict(src, s) + Restrict(src - s, x) == Restrict(src, Claim(bin[..i + 1], owners))
  {
    ClaimSnoc(bin, i, owners);
    var s, x := Claim(bin[..i], owners), SumSet(OwnedBy(owners, bin[i].id));
    assert (Restrict(src, s) + Restrict(src - s, x)).Keys == Restrict(src, s + x).Keys;
  }

  lemma ClaimSnoc(bin: seq<P.Component>, i: nat, owners: Owners)
    requires i < |bin|
    ensures Claim(bin[..i + 1], owners) == Claim(bin[..i], owners) + SumSet(OwnedBy(owners, bin[i].id))
  {
    var id := bin[i].id;
    OwnedByMembers(owners, id);
    assert bin[..i + 1] == bin[..i] + [bin[i]];
    assert BinIds(bin[..i + 1]) == BinIds(bin[..i]) + {id};
    forall s | s in Claim(bin[..i + 1], owners)
      ensures s in Claim(bin[..i], owners) || s in SumSet(OwnedBy(owners, id))
    {
      var o :| o in owners && o.1 in BinIds(bin[..i + 1]) && o.0 == s;
      assert o == (s, o.1);
    }
    forall s | s in SumSet(OwnedBy(owners, id))
      ensures s in Claim(bin[..i + 1], owners)
    {
      assert (s, id) in owners;
    }
  }
}
