/** The store of imported images: import, copy, removal, garbage collection and pruning
    (lib/src/container/store.rs, lib/src/container/deploy.rs). */
module ImageStore {
  import opened Outcomes
  import opened Seqs
  import opened ImageRef
  import opened StoreRefs
  import opened LayerGc
  import opened LayerSweep
  import opened ML = ManifestLayout

  // ---- the refs that an operation writes ----

  function Digests(layers: seq<ML.Layer>): (r: seq<string>)
    ensures |r| == |layers| && forall i | 0 <= i < |layers| :: r[i] == layers[i].digest
  {
    seq(|layers|, i requires 0 <= i < |layers| => layers[i].digest)
  }

  /** Every digest has a ref name, and is there already or can be fetched. */
  predicate Obtainable(present: Refs, digests: seq<string>, fetch: map<string, Commit>) {
    forall d | d in digests :: RefForLayer(d).Ok? && (HasLayer(present, d) || d in fetch)
  }

  /** The refs after fetching the digests that were not present. */
  function FetchAll(refs: Refs, present: Refs, digests: seq<string>, fetch: map<string, Commit>): Refs
    requires Obtainable(present, digests, fetch)
  {
    if digests == [] then refs
    else
      var d := digests[|digests| - 1];
      var before := FetchAll(refs, present, digests[..|digests| - 1], fetch);
      if HasLayer(present, d) then before else before[RefForLayer(d).value := fetch[d]]
  }

  /** Exactly the refs of the missing digests are new; no other ref changes. */
  lemma {:induction false} FetchAllWrites(refs: Refs, present: Refs, digests: seq<string>, fetch: map<string, Commit>)
    requires Obtainable(present, digests, fetch)
    ensures forall r | r in refs :: r in FetchAll(refs, present, digests, fetch)
    ensures forall d | d in digests && !HasLayer(present, d) ::
      HasLayer(FetchAll(refs, present, digests, fetch), d)
        && FetchAll(refs, present, digests, fetch)[RefForLayer(d).value] == fetch[d]
    ensures forall r | r in FetchAll(refs, present, digests, fetch) ::
      || (r in refs && FetchAll(refs, present, digests, fetch)[r] == refs[r])
      || exists d :: d in digests && !HasLayer(present, d) && RefForLayer(d) == Ok(r)
  {
    if digests != [] {
      var init, last := digests[..|digests| - 1], digests[|digests| - 1];
      assert digests == init + [last];
      FetchAllWrites(refs, present, init, fetch);
      forall d | d in digests && !HasLayer(present, d) && RefForLayer(d) == RefForLayer(last)
        ensures d == last
      {
        LayerRefReads(d);
        LayerRefReads(last);
      }
    }
  }

  /** The refs after copying layer refs from another repository. */
  function CopyAll(refs: Refs, src: Refs, digests: seq<string>): Refs
    requires forall d | d in digests :: HasLayer(src, d)
  {
    if digests == [] then refs
    else
      assert HasLayer(src, digests[|digests| - 1]);
      var r := RefForLayer(digests[|digests| - 1]).value;
      CopyAll(refs, src, digests[..|digests| - 1])[r := src[r]]
  }

  lemma CopyMore(refs: Refs, src: Refs, digests: seq<string>, i: nat)
    requires i < |digests| && (forall d | d in digests[..i] :: HasLayer(src, d)) && HasLayer(src, digests[i])
    ensures (forall d | d in digests[..i + 1] :: HasLayer(src, d)) && digests[..i + 1] == digests[..i] + [digests[i]]
    ensures var r := RefForLayer(digests[i]).value;
      CopyAll(refs, src, digests[..i + 1]) == CopyAll(refs, src, digests[..i])[r := src[r]]
  {
    assert digests[..i + 1] == digests[..i] + [digests[i]] && digests[..i + 1][..i] == digests[..i];
  }

  lemma FetchMore(refs: Refs, present: Refs, digests: seq<string>, i: nat, fetch: map<string, Commit>)
    requires i < |digests| && Obtainable(present, digests[..i], fetch) && Obtainable(present, [digests[i]], fetch)
    ensures Obtainable(present, digests[..i + 1], fetch) && digests[..i + 1] == digests[..i] + [digests[i]]
    ensures var before := FetchAll(refs, present, digests[..i], fetch);
      FetchAll(refs, present, digests[..i + 1], fetch)
        == if HasLayer(present, digests[i]) then before else before[RefForLayer(digests[i]).value := fetch[digests[i]]]
  {
    assert digests[i] in [digests[i]];
    assert digests[..i + 1] == digests[..i] + [digests[i]] && digests[..i + 1][..i] == digests[..i];
  }

  datatype Failure = BadLayout | BadReference | FetchFailed | GcFailed | QueryFailed

  datatype Imported = Imported(commit: Commit) | Failed(why: Failure)

  class ImageStore {
    var refs: Refs
    ghost var history: seq<Refs>

    /** Safe now, and after every single ref write so far. */
    ghost predicate Valid()
      reads this
    {
      Safe(refs) && forall h | h in history :: Safe(h)
    }

    constructor ()
      ensures Valid() && refs == map[] && history == []
    {
      refs, history := map[], [];
    }

    method SetRef(r: string, c: Commit)
      modifies this
      ensures refs == old(refs)[r := c] && history == old(history) + [refs]
    {
      refs := refs[r := c];
      history := history + [refs];
    }

    method DeleteRef(r: string)
      modifies this
      ensures refs == old(refs) - {r} && history == old(history) + [refs]
    {
      refs := refs - {r};
      history := history + [refs];
    }

    // ---- garbage collection ----

    /** The digests that the manifests of images and deployments name. */
    method ReferencedLayers() returns (r: Result<set<string>>)
      ensures r.Ok? <==> Readable(refs)
      ensures r.Ok? ==> forall d :: d in r.value <==> Referenced(refs, d)
    {
      var images := set i | i in refs && IsImageRef(i);
      var deployments := set i | i in refs && IsDeploymentRef(i);
      var found: set<string> := {};
      var todo := images;
      while todo != {}
        invariant todo <= images
        invariant forall i | i in images - todo :: ListedManifest(refs, i).Ok?
        invariant forall d :: d in found <==> exists i :: i in images - todo && d in ImageLayers(refs, i)
      {
        var i :| i in todo;
        var layers := ListedManifest(refs, i);
        if layers.Err? { return Err; }
        assert images - (todo - {i}) == images - todo + {i};
        todo, found := todo - {i}, found + ImageLayers(refs, i);
      }
      todo := deployments;
      ghost var named := found;
      while todo != {}
        invariant todo <= deployments
        invariant forall i | i in deployments - todo :: !refs[i].Corrupt?
        invariant forall d :: d in found <==>
          d in named || exists i :: i in deployments - todo && d in DeploymentLayers(refs, i)
      {
        var i :| i in todo;
        if refs[i].Corrupt? { return Err; }
        assert deployments - (todo - {i}) == deployments - todo + {i};
        todo, found := todo - {i}, found + DeploymentLayers(refs, i);
      }
      return Ok(found);
    }

    /** Deletes the layer refs that are not referenced, testing by removal from the set. */
    method Sweep(referenced: set<string>) returns (r: Result<nat>)
      requires forall d :: d in referenced <==> Referenced(refs, d)
      modifies this
      ensures r.Ok? <==> LayersReadable(old(refs))
      ensures r.Ok? ==> Collected(old(refs), refs, r.value)
      ensures forall k | k in refs :: k in old(refs) && refs[k] == old(refs)[k]
      ensures forall k | k in old(refs) && !IsLayerRef(k) :: k in refs
      ensures old(Valid()) && Readable(old(refs)) ==> Valid()
      ensures old(history) <= history
    {
      ghost var before := refs;
      var todo, left := (set k | k in refs && IsLayerRef(k)), referenced;
      var pruned := 0;
      while todo != {}
        invariant Swept(before, refs, todo, referenced, left) && |before| == |refs| + pruned
        invariant old(Valid()) && Readable(before) ==> Valid()
        invariant old(history) <= history
      {
        var k :| k in todo;
        if DigestOf(k).Err? {
          assert k in before;
          return Err;
        }
        var kept;
        kept, left := SweepOne(k, left, before, todo, referenced);
        if !kept { pruned := pruned + 1; }
        todo := todo - {k};
      }
      SweptAll(before, refs, referenced, left, pruned);
      return Ok(pruned);
    }

    /** One layer ref: kept if its digest is still to be met, deleted otherwise. */
    method SweepOne(k: string, left: set<string>, ghost before: Refs, ghost todo: set<string>,
                    ghost referenced: set<string>)
      returns (kept: bool, left': set<string>)
      requires Swept(before, refs, todo, referenced, left) && forall d :: d in referenced <==> Referenced(before, d)
      requires k in todo && DigestOf(k).Ok?
      modifies this
      ensures Swept(before, refs, todo - {k}, referenced, left')
      ensures |old(refs)| == |refs| + if kept then 0 else 1
      ensures Safe(before) && Readable(before) && old(Valid()) ==> Valid()
      ensures old(history) <= history
    {
      var digest := DigestOf(k).value;
      if digest in left {
        SweptKeep(before, refs, todo, referenced, left, k);
        return true, left - {digest};
      }
      SweptDrop(before, refs, todo, referenced, left, k);
      DropSafe(before, refs, todo, referenced, left, k);
      DeleteRef(k);
      return false, left;
    }

    /** Collects unused layer refs. */
    method GcImageLayers() returns (r: Result<nat>)
      modifies this
      ensures r.Ok? <==> Readable(old(refs)) && LayersReadable(old(refs))
      ensures r.Ok? ==> Collected(old(refs), refs, r.value)
      ensures r.Ok? && old(Valid()) ==> KeepsHeld(old(refs), refs)
      ensures !Readable(old(refs)) ==> refs == old(refs)
      ensures forall k | k in refs :: k in old(refs) && refs[k] == old(refs)[k]
      ensures forall k | k in old(refs) && !IsLayerRef(k) :: k in refs
      ensures old(Valid()) ==> Valid()
      ensures old(history) <= history
    {
      var referenced :- ReferencedLayers();
      r := Sweep(referenced);
      if r.Ok? && old(Valid()) {
        GcKeepsHeld(old(refs), refs, r.value);
      }
    }

    // ---- import and copy ----

    method SetLayer(d: string, c: Commit)
      requires Valid() && RefForLayer(d).Ok?
      modifies this
      ensures Valid() && refs == old(refs)[RefForLayer(d).value := c] && old(history) <= history
      ensures HasLayer(refs, d) && forall e | HasLayer(old(refs), e) :: HasLayer(refs, e)
    {
      LayerWriteSafe(refs, d, c);
      SetRef(RefForLayer(d).value, c);
    }

    method SetImage(image: ImageReference, c: Commit)
      requires Valid() && RefForImage(image).Ok? && Backed(refs, c)
      modifies this
      ensures Valid() && refs == old(refs)[RefForImage(image).value := c] && old(history) <= history
    {
      ImageWriteSafe(refs, image, c);
      SetRef(RefForImage(image).value, c);
    }

    /** Fetches the layers that were not present before the import. */
    method FetchLayers(present: Refs, digests: seq<string>, fetch: map<string, Commit>) returns (ok: bool)
      requires Valid() && forall d | d in digests :: RefForLayer(d).Ok?
      requires forall d | HasLayer(present, d) :: HasLayer(refs, d)
      modifies this
      ensures ok <==> Obtainable(present, digests, fetch)
      ensures ok ==> refs == FetchAll(old(refs), present, digests, fetch)
      ensures ok ==> forall d | d in digests :: HasLayer(refs, d)
      ensures forall d | HasLayer(old(refs), d) :: HasLayer(refs, d)
      ensures Valid() && old(history) <= history
    {
      for i := 0 to |digests|
        invariant Obtainable(present, digests[..i], fetch)
        invariant refs == FetchAll(old(refs), present, digests[..i], fetch)
        invariant forall d | d in digests[..i] :: HasLayer(refs, d)
        invariant forall d | HasLayer(old(refs), d) :: HasLayer(refs, d)
        invariant Valid() && old(history) <= history
      {
        var d := digests[i];
        assert d in digests;
        if !HasLayer(present, d) && d !in fetch { return false; }
        FetchMore(old(refs), present, digests, i, fetch);
        if !HasLayer(present, d) {
          SetLayer(d, fetch[d]);
        }
      }
      assert digests[..|digests|] == digests;
      return true;
    }

    /** Fetches all layers: chunk layers first, then the commit layer, then the derived ones. */
    method FetchImage(layout: Layout, image: ImageReference, fetch: map<string, Commit>) returns (r: Option<Failure>)
      requires Valid() && forall d | d in FetchOrder(layout) :: RefForLayer(d).Ok?
      modifies this
      ensures Valid() && old(history) <= history
      ensures r.None? <==> Obtainable(old(refs), FetchOrder(layout), fetch) && RefForImage(image).Ok?
      ensures r.Some? ==> r.value == FetchFailed || r.value == BadReference
      ensures r.None? ==> refs == FetchAll(old(refs), old(refs), FetchOrder(layout), fetch)
      ensures r.None? ==> forall d | d in FetchOrder(layout) :: HasLayer(refs, d)
    {
      var present := refs;
      var base, derived := Digests(layout.chunks) + [layout.commit.digest], Digests(layout.derived);
      assert FetchOrder(layout) == base + derived;
      var ok := FetchLayers(present, base, fetch);
      if !ok { return Some(FetchFailed); }
      if RefForImage(image).Err? { return Some(BadReference); }
      ok := FetchLayers(present, derived, fetch);
      if !ok { return Some(FetchFailed); }
      FetchAllConcat(present, present, base, derived, fetch);
      return None;
    }

    /** Writes the image ref, collects unless that is disabled, and queries the stored image. */
    method Finish(image: ImageReference, commit: Commit, disableGc: bool) returns (r: Imported, ghost merged: Refs)
      requires Valid() && RefForImage(image).Ok? && Backed(refs, commit) && commit.layers != []
      modifies this
      ensures Valid() && old(history) <= history
      ensures merged == old(refs)[RefForImage(image).value := commit] && Safe(merged)
      ensures r == if !disableGc && !Readable(merged) then Failed(GcFailed) else Imported(commit)
      ensures r.Imported? ==>
        && RefForImage(image).value in refs && refs[RefForImage(image).value] == commit && Backed(refs, commit)
        && if disableGc then refs == merged else exists n :: Collected(merged, refs, n)
    {
      SetImage(image, commit);
      merged := refs;
      ImageRefReads(image);
      KindsApart(RefForImage(image).value);
      SafeReadable(refs);
      if !disableGc {
        var gc := GcImageLayers();
        if gc.Err? { return Failed(GcFailed), merged; }
      }
      SafeQuery(refs, RefForImage(image).value);
      if !QueryImageCommit(refs, commit).Found? { return Failed(QueryFailed), merged; }
      return Imported(commit), merged;
    }

    /** Preparation and import of an image; `fetch` says what can be fetched.  Once everything was
        fetched, only collection can fail: the closing query cannot. */
    method Import(manifest: seq<ML.Layer>, config: ML.Config, image: ImageReference, fetch: map<string, Commit>,
                  id: string, disableGc: bool)
      returns (r: Imported, ghost merged: Refs)
      requires Valid()
      modifies this
      ensures Valid() && old(history) <= history
      ensures r == Failed(BadLayout) <==> !Parses(manifest, config)
      ensures r.Imported? || r == Failed(GcFailed) <==> Importable(old(refs), manifest, config, image, fetch)
      ensures Importable(old(refs), manifest, config, image, fetch) ==>
        && merged == AfterImport(old(refs), manifest, config, image, fetch, id)
        && (r == Failed(GcFailed) <==> !disableGc && !Readable(merged))
      ensures r.Imported? ==>
        && r.commit == Merge(id, Digests(manifest)) && Backed(refs, r.commit)
        && RefForImage(image).value in refs && refs[RefForImage(image).value] == r.commit
        && (if disableGc then refs == merged else exists n :: Collected(merged, refs, n))
        && Installed(old(refs), refs, manifest, image, fetch, id)
    {
      merged := refs;
      var parsed := ParseManifestLayout(manifest, config);
      if parsed.Err? { return Failed(BadLayout), merged; }
      FetchOrderObtainable(refs, manifest, config, fetch);
      if d :| d in Digests(manifest) && RefForLayer(d).Err? {
        return Failed(BadReference), merged;
      }
      var failure := FetchImage(parsed.value, image, fetch);
      if failure.Some? { return Failed(failure.value), merged; }
      r, merged := Finish(image, Merge(id, Digests(manifest)), disableGc);
      ImportInstalls(old(refs), manifest, config, image, fetch, id);
      if r.Imported? && !disableGc {
        ghost var n :| Collected(merged, refs, n);
        InstalledStays(old(refs), merged, refs, manifest, image, fetch, id, n);
      }
    }

    method CopyLayers(src: Refs, digests: seq<string>) returns (ok: bool)
      requires Valid()
      modifies this
      ensures Valid() && old(history) <= history
      ensures ok <==> forall d | d in digests :: HasLayer(src, d)
      ensures ok ==> refs == CopyAll(old(refs), src, digests) && forall d | d in digests :: HasLayer(refs, d)
    {
      for i := 0 to |digests|
        invariant Valid() && old(history) <= history
        invariant forall d | d in digests[..i] :: HasLayer(src, d)
        invariant forall d | d in digests[..i] :: HasLayer(refs, d)
        invariant refs == CopyAll(old(refs), src, digests[..i])
      {
        var d := digests[i];
        assert d in digests;
        if !HasLayer(src, d) { return false; }
        CopyMore(old(refs), src, digests, i);
        SetLayer(d, src[RefForLayer(d).value]);
      }
      assert digests[..|digests|] == digests;
      return true;
    }

    /** Copies an image from another repository, layers first. */
    method Copy(src: Refs, from: ImageReference, to: ImageReference) returns (r: Result<()>)
      requires Valid()
      modifies this
      ensures Valid() && old(history) <= history
      ensures r.Ok? <==> CanCopy(src, from) && RefForImage(to).Ok?
      ensures r.Ok? ==> refs == AfterCopy(old(refs), src, from, to)
      ensures r.Ok? ==> CopiedTo(old(refs), refs, src, RefForImage(from).value, RefForImage(to).value)
    {
      var source :- RefForImage(from);
      if source !in src || !src[source].Merge? { return Err; }
      var ok := CopyLayers(src, src[source].layers);
      if !ok || RefForImage(to).Err? { return Err; }
      SetImage(to, src[source]);
      CopyWrites(old(refs), src, from, to);
      return Ok(());
    }

    // ---- removal ----

    /** Removes an image; says whether it was there. */
    method RemoveImage(image: ImageReference) returns (r: Result<bool>)
      requires Valid()
      modifies this
      ensures Valid() && old(history) <= history
      ensures r.Ok? <==> RefForImage(image).Ok?
      ensures r.Err? ==> refs == old(refs)
      ensures r.Ok? ==>
        r.value == (RefForImage(image).value in old(refs)) && refs == old(refs) - {RefForImage(image).value}
    {
      var name :- RefForImage(image);
      if name in refs {
        ImageRefReads(image);
        ImageRemovalSafe(refs, name);
        DeleteRef(name);
        return Ok(true);
      }
      assert refs - {name} == refs;
      return Ok(false);
    }

    /** Removes several images; those that are there go even if others are missing. */
    method RemoveImages(images: seq<ImageReference>) returns (r: Result<()>)
      requires Valid()
      modifies this
      ensures Valid() && old(history) <= history
      ensures r.Ok? <==> AllThere(images, old(refs)) && NoDup(images)
      ensures (forall i | i in images :: RefForImage(i).Ok?) ==> refs == old(refs) - Names(images)
    {
      var missing := false;
      assert refs - Names(images[..0]) == refs;
      for k := 0 to |images|
        invariant Valid() && old(history) <= history
        invariant RemovedSoFar(images[..k], old(refs), refs, missing)
      {
        assert images[k] in images;
        var found :- RemoveImage(images[k]);
        RemovedNext(images, k, old(refs), missing);
        missing := missing || !found;
      }
      assert images[..|images|] == images;
      return if missing then Err else Ok(());
    }

    method RemoveNamed(name: string) returns (image: ImageReference)
      requires Valid() && name in refs && IsImageRef(name) && ImageOf(name).Ok?
      modifies this
      ensures Valid() && old(history) <= history
      ensures RefForImage(image) == Ok(name) && refs == old(refs) - {name}
    {
      ListedRef(refs, name);
      image := ImageOf(name).value;
      var found := RemoveImage(image);
    }

    /** Removes the images listed under the given refs, in any order. */
    method RemoveListed(gone: set<string>) returns (removed: seq<ImageReference>)
      requires Valid() && forall k | k in gone :: k in refs && IsImageRef(k) && ImageOf(k).Ok?
      modifies this
      ensures Valid() && old(history) <= history
      ensures refs == old(refs) - gone && |removed| == |gone|
      ensures ListedAs(removed, gone)
    {
      ghost var before := refs;
      var todo := gone;
      removed := [];
      assert before - (gone - todo) == before;
      while todo != {}
        invariant Removing(before, refs, gone, todo, removed)
        invariant Valid() && old(history) <= history
      {
        var name :| name in todo;
        assert name in gone && name in refs;
        var image := RemoveNamed(name);
        RemovingMore(before, refs, gone, todo, removed, name, image);
        removed, todo := removed + [image], todo - {name};
      }
      assert gone - {} == gone;
    }

    /** Removes the images that no deployment origin names. */
    method RemoveUndeployedImages(origins: seq<Option<string>>) returns (r: Result<seq<ImageReference>>)
      requires Valid()
      modifies this
      ensures Valid() && old(history) <= history
      ensures r.Ok? <==> Deployed(origins).Ok?
      ensures r.Err? ==> refs == old(refs)
      ensures r.Ok? ==> refs == old(refs) - Undeployed(old(refs), Deployed(origins).value)
      ensures r.Ok? ==> |r.value| == |Undeployed(old(refs), Deployed(origins).value)|
      ensures r.Ok? ==> ListedAs(r.value, Undeployed(old(refs), Deployed(origins).value))
    {
      var deployed :- ParseOrigins(origins);
      NamesReadable(refs);
      var removed := RemoveListed(Undeployed(refs, deployed));
      return Ok(removed);
    }

    /** Removes images that are not deployed, then the layers nobody needs; returns both counts. */
    method Prune(origins: seq<Option<string>>) returns (r: Result<(nat, nat)>)
      requires Valid()
      modifies this
      ensures Valid() && old(history) <= history
      ensures r.Ok? <==> Deployed(origins).Ok? && Readable(old(refs) - Undeployed(old(refs), Deployed(origins).value))
      ensures r.Ok? ==> Pruned(old(refs), refs, Deployed(origins).value, r.value.0, r.value.1)
      ensures r.Ok? ==> KeepsDeployed(old(refs), refs, origins) && KeepsStillHeld(old(refs), refs)
    {
      var removed :- RemoveUndeployedImages(origins);
      ghost var middle := refs;
      SafeReadable(refs);
      var layers :- GcImageLayers();
      BothPruned(old(refs), middle, refs, Deployed(origins).value, layers);
      PrunedKeeps(old(refs), middle, refs, origins);
      return Ok((|removed|, layers));
    }

    // ---- runs ----

    /** One operation.  Refs outside the store's own prefixes, such as those of deployments, can
        be set and deleted by anybody. */
    method Step(op: Operation)
      requires Valid()
      modifies this
      ensures Valid() && old(history) <= history
    {
      match op
      case ImportOp(manifest, config, image, fetch, id, disableGc) =>
        var imported, merged := Import(manifest, config, image, fetch, id, disableGc);
      case CopyOp(src, from, to) =>
        var copied := Copy(src, from, to);
      case RemoveOp(images) =>
        var done := RemoveImages(images);
      case GcOp =>
        var pruned := GcImageLayers();
      case PruneOp(origins) =>
        var pruned := Prune(origins);
      case OtherOp(name, commit) =>
        if !IsLayerRef(name) && !IsImageRef(name) {
          OtherWriteSafe(refs, name, if commit.Some? then commit.value else Plain(""));
          if commit.Some? {
            SetRef(name, commit.value);
          } else {
            DeleteRef(name);
          }
        }
    }

    /** Over any run and after every ref write in it, each image ref points to a merge commit all
        of whose layers have refs, so no query reports a missing base. */
    method Run(ops: seq<Operation>)
      requires Valid()
      modifies this
      ensures Valid() && old(history) <= history
      ensures forall h, r | h in history && r in h && IsImageRef(r) ::
        Backed(h, h[r]) && !QueryImageCommit(h, h[r]).MissingBase?
    {
      for i := 0 to |ops|
        invariant Valid() && old(history) <= history
      {
        Step(ops[i]);
      }
      forall h, r | h in history && r in h && IsImageRef(r)
        ensures Backed(h, h[r]) && !QueryImageCommit(h, h[r]).MissingBase?
      {
        SafeQuery(h, r);
      }
    }
  }

  datatype Operation =
    | ImportOp(manifest: seq<ML.Layer>, config: ML.Config, image: ImageReference, fetch: map<string, Commit>,
      id: string, disableGc: bool)
    | CopyOp(src: Refs, from: ImageReference, to: ImageReference)
    | RemoveOp(images: seq<ImageReference>)
    | GcOp
    | PruneOp(origins: seq<Option<string>>)
    | OtherOp(name: string, commit: Option<Commit>)

  /** The image and all its layers are in the source repository. */
  predicate CanCopy(src: Refs, from: ImageReference) {
    && RefForImage(from).Ok? && RefForImage(from).value in src && src[RefForImage(from).value].Merge?
    && forall d | d in src[RefForImage(from).value].layers :: HasLayer(src, d)
  }

  function AfterCopy(refs: Refs, src: Refs, from: ImageReference, to: ImageReference): Refs
    requires CanCopy(src, from) && RefForImage(to).Ok?
  {
    var commit := src[RefForImage(from).value];
    CopyAll(refs, src, commit.layers)[RefForImage(to).value := commit]
  }

  function Names(images: seq<ImageReference>): set<string> {
    set i | i in images && RefForImage(i).Ok? :: RefForImage(i).value
  }

  predicate AllThere(images: seq<ImageReference>, refs: Refs) {
    forall i | i in images :: RefForImage(i).Ok? && RefForImage(i).value in refs
  }

  /** The images are gone, and one was missing exactly if it was not there or had been listed. */
  ghost predicate RemovedSoFar(images: seq<ImageReference>, before: Refs, now: Refs, missing: bool) {
    && (forall i | i in images :: RefForImage(i).Ok?)
    && now == before - Names(images)
    && (!missing <==> AllThere(images, before) && NoDup(images))
  }

  lemma RemovedNext(images: seq<ImageReference>, k: nat, before: Refs, missing: bool)
    requires k < |images| && RefForImage(images[k]).Ok?
    requires RemovedSoFar(images[..k], before, before - Names(images[..k]), missing)
    ensures var now, name := before - Names(images[..k]), RefForImage(images[k]).value;
      RemovedSoFar(images[..k + 1], before, now - {name}, missing || name !in now)
  {
    var image, init := images[k], images[..k];
    assert images[..k + 1] == init + [image];
    NamesMore(init, image, before);
    NoDupSnoc(init, image);
  }

  /** An image is found exactly if it was there and has not been removed before. */
  lemma NamesMore(images: seq<ImageReference>, image: ImageReference, refs: Refs)
    requires RefForImage(image).Ok?
    ensures Names(images + [image]) == Names(images) + {RefForImage(image).value}
    ensures refs - Names(images) - {RefForImage(image).value} == refs - Names(images + [image])
    ensures RefForImage(image).value in refs - Names(images) <==> RefForImage(image).value in refs && image !in images
    ensures AllThere(images + [image], refs) <==> AllThere(images, refs) && RefForImage(image).value in refs
  {
    forall i | i in images && RefForImage(i).Ok? && RefForImage(i) == RefForImage(image)
      ensures i == image
    {
      ImageRefInjective(i, image);
    }
    assert Names(images + [image]) == Names(images) + {RefForImage(image).value};
  }

  lemma NoDupSnoc(images: seq<ImageReference>, image: ImageReference)
    ensures NoDup(images + [image]) <==> NoDup(images) && image !in images
  {
    var s := images + [image];
    if NoDup(s) {
      assert forall i | 0 <= i < |images| :: s[i] == images[i] && s[i] != s[|images|];
    }
  }

  // ---- deployment origins ----

  function Deployed(origins: seq<Option<string>>): Result<set<ImageReference>> {
    if origins == [] then Ok({})
    else
      var before :- Deployed(origins[..|origins| - 1]);
      match origins[|origins| - 1]
      case None => Ok(before)
      case Some(o) =>
        var image :- ParseOstreeImage(o);
        Ok(before + {image.imgref})
  }

  method ParseOrigins(origins: seq<Option<string>>) returns (r: Result<set<ImageReference>>)
    ensures r == Deployed(origins)
  {
    var images: set<ImageReference> := {};
    for i := 0 to |origins|
      invariant Deployed(origins[..i]) == Ok(images)
    {
      assert origins[..i + 1][..i] == origins[..i];
      if origins[i].Some? {
        var image := ParseOstreeImage(origins[i].value);
        if image.Err? {
          DeployedFails(origins, i + 1);
          return Err;
        }
        images := images + {image.value.imgref};
      }
    }
    assert origins[..|origins|] == origins;
    return Ok(images);
  }

  lemma {:induction false} DeployedFails(origins: seq<Option<string>>, i: nat)
    requires i <= |origins| && Deployed(origins[..i]).Err?
    ensures Deployed(origins).Err?
  {
    if i < |origins| {
      assert origins[..|origins| - 1][..i] == origins[..i];
      DeployedFails(origins[..|origins| - 1], i);
    } else {
      assert origins[..i] == origins;
    }
  }

  /** Some deployment was made from this image. */
  ghost predicate OriginNames(origins: seq<Option<string>>, image: ImageReference) {
    exists o | o in origins ::
      o.Some? && ParseOstreeImage(o.value).Ok? && ParseOstreeImage(o.value).value.imgref == image
  }

  /** An image is deployed exactly if an origin names it; there is no answer if one does not parse. */
  lemma {:induction false} DeployedIsNamed(origins: seq<Option<string>>)
    ensures Deployed(origins).Ok? <==> forall o | o in origins && o.Some? :: ParseOstreeImage(o.value).Ok?
    ensures Deployed(origins).Ok? ==>
      forall image :: image in Deployed(origins).value <==> OriginNames(origins, image)
  {
    if origins != [] {
      var init, last := origins[..|origins| - 1], origins[|origins| - 1];
      DeployedIsNamed(init);
      assert origins == init + [last] && last in origins;
      assert forall o | o in init :: o in origins;
      if Deployed(origins).Ok? {
        forall image
          ensures image in Deployed(origins).value <==> OriginNames(origins, image)
        {
          assert image in Deployed(init).value <==> OriginNames(init, image);
        }
      }
    }
  }

  /** Image refs that are listed as an image no deployment names. */
  function Undeployed(refs: Refs, deployed: set<ImageReference>): set<string> {
    set r | r in refs && IsImageRef(r) && ImageOf(r).Ok? && ImageOf(r).value !in deployed
  }

  lemma NamesReadable(refs: Refs)
    requires Safe(refs)
    ensures forall r | r in refs && IsImageRef(r) :: NameOf(r).Ok?
  {
    forall r | r in refs && IsImageRef(r) ensures NameOf(r).Ok? {
      assert CanonicalImage(r);
      var image :| RefForImage(image) == Ok(r);
      ImageRefReads(image);
    }
  }

  /** The ref of a listed image is the one it was listed from. */
  lemma ListedRef(refs: Refs, r: string)
    requires Safe(refs) && r in refs && IsImageRef(r) && ImageOf(r).Ok?
    ensures RefForImage(ImageOf(r).value) == Ok(r)
  {
    assert CanonicalImage(r);
    var image :| RefForImage(image) == Ok(r);
    ImageRefReads(image);
  }

  lemma OnlyImage(image: ImageReference, r: string)
    requires RefForImage(image) == Ok(r)
    ensures forall i | RefForImage(i) == Ok(r) :: i == image
  {
    forall i | RefForImage(i) == Ok(r) ensures i == image {
      ImageRefInjective(i, image);
    }
  }

  ghost predicate ListedAs(images: seq<ImageReference>, names: set<string>) {
    forall i :: i in images <==> RefForImage(i).Ok? && RefForImage(i).value in names
  }

  lemma ListedMore(images: seq<ImageReference>, names: set<string>, image: ImageReference, name: string)
    requires ListedAs(images, names) && RefForImage(image) == Ok(name)
    ensures ListedAs(images + [image], names + {name})
  {
    OnlyImage(image, name);
  }

  ghost predicate Removing(before: Refs, now: Refs, gone: set<string>, todo: set<string>,
                           removed: seq<ImageReference>)
  {
    && todo <= gone && |removed| + |todo| == |gone|
    && now == before - (gone - todo) && ListedAs(removed, gone - todo)
  }

  lemma RemovingMore(before: Refs, now: Refs, gone: set<string>, todo: set<string>, removed: seq<ImageReference>,
                     name: string, image: ImageReference)
    requires name in todo && RefForImage(image) == Ok(name)
    requires todo <= gone && |removed| + |todo| == |gone|
    requires now == before - (gone - todo) - {name} && ListedAs(removed, gone - todo)
    ensures Removing(before, now, gone, todo - {name}, removed + [image])
  {
    ListedMore(removed, gone - todo, image, name);
    assert gone - (todo - {name}) == gone - todo + {name};
  }

  lemma BothPruned(before: Refs, middle: Refs, after: Refs, deployed: set<ImageReference>, layers: nat)
    requires middle == before - Undeployed(before, deployed)
    requires Readable(middle) && Collected(middle, after, layers)
    ensures Pruned(before, after, deployed, |Undeployed(before, deployed)|, layers)
  {
    forall r | r in before && IsImageRef(r)
      ensures r in after <==> ImageOf(r).Ok? && ImageOf(r).value in deployed
    {
      KindsApart(r);
      if r in middle {
        assert ListedManifest(middle, r).Ok?;
      }
    }
    forall r | r in after && IsImageRef(r)
      ensures r in before && before[r] == after[r]
    {
      assert r in middle;
    }
  }

  /** After pruning: the surviving images are exactly those that a deployment origin names, and of
      the layers exactly those that a surviving image or a deployment needs. */
  ghost predicate Pruned(before: Refs, after: Refs, deployed: set<ImageReference>, images: nat, layers: nat) {
    && (forall r | r in before && IsImageRef(r) :: r in after <==> ImageOf(r).Ok? && ImageOf(r).value in deployed)
    && (forall r | r in after && IsImageRef(r) :: r in before && before[r] == after[r])
    && images == |Undeployed(before, deployed)|
    && Collected(before - Undeployed(before, deployed), after, layers)
  }

  /** Exactly the images of deployments stay. */
  ghost predicate KeepsDeployed(before: Refs, after: Refs, origins: seq<Option<string>>) {
    forall image | RefForImage(image).Ok? ::
      RefForImage(image).value in after <==> RefForImage(image).value in before && OriginNames(origins, image)
  }

  /** Exactly the layers held by what stays. */
  ghost predicate KeepsStillHeld(before: Refs, after: Refs) {
    forall d | RefForLayer(d).Ok? ::
      RefForLayer(d).value in after <==>
        RefForLayer(d).value in before && exists r :: r in after && Holds(before, r, d)
  }

  lemma PrunedKeeps(before: Refs, middle: Refs, after: Refs, origins: seq<Option<string>>)
    requires Deployed(origins).Ok? && middle == before - Undeployed(before, Deployed(origins).value)
    requires Readable(middle) && KeepsHeld(middle, after)
    requires forall k | k in after :: k in middle
    requires forall k | k in middle && !IsLayerRef(k) :: k in after
    ensures KeepsDeployed(before, after, origins) && KeepsStillHeld(before, after)
  {
    var deployed := Deployed(origins).value;
    DeployedIsNamed(origins);
    forall image | RefForImage(image).Ok?
      ensures RefForImage(image).value in after <==> RefForImage(image).value in before && OriginNames(origins, image)
    {
      ImageRefReads(image);
      KindsApart(RefForImage(image).value);
      if RefForImage(image).value in middle {
        assert ListedManifest(middle, RefForImage(image).value).Ok?;
      }
    }
    forall d | RefForLayer(d).Ok?
      ensures RefForLayer(d).value in after <==>
        RefForLayer(d).value in before && exists r :: r in after && Holds(before, r, d)
    {
      LayerRefReads(d);
      KindsApart(RefForLayer(d).value);
      HeldByOthers(before, middle, after, d);
    }
  }

  lemma HeldByOthers(before: Refs, middle: Refs, after: Refs, d: string)
    requires forall k | k in middle :: k in before && middle[k] == before[k]
    requires forall k | k in after :: k in middle
    requires forall k | k in middle && !IsLayerRef(k) :: k in after
    ensures Held(middle, d) <==> exists r :: r in after && Holds(before, r, d)
  {
    if r :| Holds(middle, r, d) {
      KindsApart(r);
      assert r in after && Holds(before, r, d);
    }
    if r :| r in after && Holds(before, r, d) {
      assert Holds(middle, r, d);
    }
  }

  /** In the order of fetching: chunks, commit layer, derived layers. */
  ghost function FetchOrder(l: Layout): seq<string> {
    Digests(l.chunks) + [l.commit.digest] + Digests(l.derived)
  }

  ghost predicate Importable(refs: Refs, manifest: seq<ML.Layer>, config: ML.Config, image: ImageReference,
                             fetch: map<string, Commit>)
  {
    Parses(manifest, config) && Obtainable(refs, Digests(manifest), fetch) && RefForImage(image).Ok?
  }

  lemma SameDigests(a: seq<ML.Layer>, b: seq<ML.Layer>)
    requires forall l :: l in a <==> l in b
    ensures forall d :: d in Digests(a) <==> d in Digests(b)
  {
    forall d | d in Digests(a) ensures d in Digests(b) {
      var i :| 0 <= i < |a| && Digests(a)[i] == d;
      assert a[i] in b;
      var j :| 0 <= j < |b| && b[j] == a[i];
      assert Digests(b)[j] == d;
    }
    forall d | d in Digests(b) ensures d in Digests(a) {
      var i :| 0 <= i < |b| && Digests(b)[i] == d;
      assert b[i] in a;
      var j :| 0 <= j < |a| && a[j] == b[i];
      assert Digests(a)[j] == d;
    }
  }

  lemma LayoutDigests(l: Layout)
    ensures forall d :: d in FetchOrder(l) <==> d in Digests(AllLayers(l))
  {
    assert Digests(AllLayers(l)) == [l.commit.digest] + Digests(l.chunks) + Digests(l.derived);
  }

  lemma FetchOrderObtainable(refs: Refs, manifest: seq<ML.Layer>, config: ML.Config, fetch: map<string, Commit>)
    requires Parses(manifest, config)
    ensures forall d :: d in FetchOrder(LayoutOf(manifest, config)) <==> d in Digests(manifest)
  {
    LayoutOrder(manifest, config);
    SameDigests(AllLayers(LayoutOf(manifest, config)), manifest);
    LayoutDigests(LayoutOf(manifest, config));
  }

  /** The refs when the image ref has been written. */
  ghost function AfterImport(refs: Refs, manifest: seq<ML.Layer>, config: ML.Config, image: ImageReference,
                             fetch: map<string, Commit>, id: string): Refs
    requires Importable(refs, manifest, config, image, fetch)
  {
    FetchOrderObtainable(refs, manifest, config, fetch);
    FetchAll(refs, refs, FetchOrder(LayoutOf(manifest, config)),
      fetch)[RefForImage(image).value := Merge(id, Digests(manifest))]
  }

  lemma {:induction false} FetchAllConcat(refs: Refs, present: Refs, a: seq<string>, b: seq<string>,
                                          fetch: map<string, Commit>)
    requires Obtainable(present, a, fetch) && Obtainable(present, b, fetch)
    ensures Obtainable(present, a + b, fetch)
    ensures FetchAll(refs, present, a + b, fetch) == FetchAll(FetchAll(refs, present, a, fetch), present, b, fetch)
  {
    if b == [] {
      assert a + b == a;
    } else {
      FetchAllConcat(refs, present, a, b[..|b| - 1], fetch);
      assert (a + b)[..|a + b| - 1] == a + b[..|b| - 1];
    }
  }

  // ---- what import and copy leave behind ----

  /** A layer of the manifest has its ref: the one from before, or what was fetched. */
  ghost predicate LayerInstalled(before: Refs, after: Refs, d: string, fetch: map<string, Commit>) {
    && RefForLayer(d).Ok? && RefForLayer(d).value in after
    && if RefForLayer(d).value in before then after[RefForLayer(d).value] == before[RefForLayer(d).value]
       else d in fetch && after[RefForLayer(d).value] == fetch[d]
  }

  /** The image with all layers of its manifest is there, whatever was collected; all other images and
      deployments are as before, and any other layer was there before. */
  ghost predicate Installed(before: Refs, after: Refs, manifest: seq<ML.Layer>, image: ImageReference,
                            fetch: map<string, Commit>, id: string)
  {
    && RefForImage(image).Ok?
    && var name := RefForImage(image).value;
    && name in after && after[name] == Merge(id, Digests(manifest))
    && (forall l | l in manifest :: LayerInstalled(before, after, l.digest, fetch))
    && (forall r | r in before && !IsLayerRef(r) && r != name :: r in after)
    && forall r | r in after && r != name ::
         (r in before && after[r] == before[r]) || exists l :: l in manifest && RefForLayer(l.digest) == Ok(r)
  }

  lemma ManifestDigests(manifest: seq<ML.Layer>)
    ensures forall l | l in manifest :: l.digest in Digests(manifest)
    ensures forall d | d in Digests(manifest) :: exists l :: l in manifest && l.digest == d
  {
    forall l | l in manifest
      ensures l.digest in Digests(manifest)
    {
      var i :| 0 <= i < |manifest| && manifest[i] == l;
      assert Digests(manifest)[i] == l.digest;
    }
    forall d | d in Digests(manifest)
      ensures exists l :: l in manifest && l.digest == d
    {
      var i :| 0 <= i < |manifest| && Digests(manifest)[i] == d;
      assert manifest[i] in manifest;
    }
  }

  ghost predicate Fetched(before: Refs, now: Refs, digests: seq<string>, fetch: map<string, Commit>) {
    && (forall r | r in before :: r in now)
    && (forall d | d in digests :: LayerInstalled(before, now, d, fetch))
    && forall r | r in now ::
         (r in before && now[r] == before[r]) || exists d :: d in digests && RefForLayer(d) == Ok(r)
  }

  /** Fetching in another order writes the same refs. */
  lemma FetchedRefs(refs: Refs, digests: seq<string>, order: seq<string>, fetch: map<string, Commit>)
    requires Obtainable(refs, digests, fetch) && forall d :: d in order <==> d in digests
    ensures Obtainable(refs, order, fetch)
    ensures Fetched(refs, FetchAll(refs, refs, order, fetch), digests, fetch)
  {
    FetchAllWrites(refs, refs, order, fetch);
    var now := FetchAll(refs, refs, order, fetch);
    forall d | d in digests
      ensures LayerInstalled(refs, now, d, fetch)
    {
      if HasLayer(refs, d) {
        FetchedKeeps(refs, refs, order, fetch, RefForLayer(d).value);
      }
    }
  }

  lemma {:induction false} FetchedKeeps(refs: Refs, present: Refs, digests: seq<string>, fetch: map<string, Commit>,
                                        r: string)
    requires Obtainable(present, digests, fetch) && r in refs && r in present
    ensures r in FetchAll(refs, present, digests, fetch) && FetchAll(refs, present, digests, fetch)[r] == refs[r]
  {
    if digests != [] {
      FetchedKeeps(refs, present, digests[..|digests| - 1], fetch, r);
    }
  }

  lemma ImageRefIsNoLayer(image: ImageReference)
    requires RefForImage(image).Ok?
    ensures IsImageRef(RefForImage(image).value) && !IsLayerRef(RefForImage(image).value)
    ensures forall d :: RefForLayer(d) != RefForImage(image)
  {
    ImageRefReads(image);
    KindsApart(RefForImage(image).value);
    forall d ensures RefForLayer(d) != RefForImage(image) {
      if RefForLayer(d).Ok? { LayerRefReads(d); }
    }
  }

  lemma ImportInstalls(refs: Refs, manifest: seq<ML.Layer>, config: ML.Config, image: ImageReference,
                       fetch: map<string, Commit>, id: string)
    requires Importable(refs, manifest, config, image, fetch)
    ensures Installed(refs, AfterImport(refs, manifest, config, image, fetch, id), manifest, image, fetch, id)
  {
    var order := FetchOrder(LayoutOf(manifest, config));
    FetchOrderObtainable(refs, manifest, config, fetch);
    FetchedRefs(refs, Digests(manifest), order, fetch);
    NamedInstalls(refs, FetchAll(refs, refs, order, fetch), manifest, image, fetch, id);
  }

  lemma NamedInstalls(before: Refs, now: Refs, manifest: seq<ML.Layer>, image: ImageReference,
                      fetch: map<string, Commit>, id: string)
    requires RefForImage(image).Ok? && Fetched(before, now, Digests(manifest), fetch)
    ensures Installed(before, now[RefForImage(image).value := Merge(id, Digests(manifest))], manifest, image, fetch, id)
  {
    ManifestDigests(manifest);
    ImageRefIsNoLayer(image);
  }

  /** Collection leaves what was installed. */
  lemma InstalledStays(before: Refs, merged: Refs, after: Refs, manifest: seq<ML.Layer>, image: ImageReference,
                       fetch: map<string, Commit>, id: string, n: nat)
    requires Installed(before, merged, manifest, image, fetch, id)
    requires Safe(merged) && Readable(merged) && Collected(merged, after, n)
    ensures Installed(before, after, manifest, image, fetch, id)
  {
    var name := RefForImage(image).value;
    ImageRefIsNoLayer(image);
    ManifestDigests(manifest);
    GcKeepsHeld(merged, after, n);
    forall l | l in manifest
      ensures LayerInstalled(before, after, l.digest, fetch)
    {
      assert LayerInstalled(before, merged, l.digest, fetch);
      assert Holds(merged, name, l.digest);
    }
  }

  /** The image's ref and those of its layers are the source's, and nothing else changed. */
  ghost predicate CopiedTo(before: Refs, after: Refs, src: Refs, from: string, to: string) {
    && from in src && src[from].Merge? && to in after && after[to] == src[from]
    && (forall d | d in src[from].layers ::
          HasLayer(src, d) && HasLayer(after, d) && after[RefForLayer(d).value] == src[RefForLayer(d).value])
    && (forall r | r in before :: r in after)
    && forall r | r in after && r != to ::
         (r in before && after[r] == before[r]) || exists d :: d in src[from].layers && RefForLayer(d) == Ok(r)
  }

  lemma {:induction false} CopyAllWrites(refs: Refs, src: Refs, digests: seq<string>)
    requires forall d | d in digests :: HasLayer(src, d)
    ensures var now := CopyAll(refs, src, digests);
      && (forall r | r in refs :: r in now)
      && (forall d | d in digests :: HasLayer(now, d) && now[RefForLayer(d).value] == src[RefForLayer(d).value])
      && forall r | r in now :: (r in refs && now[r] == refs[r]) || exists d :: d in digests && RefForLayer(d) == Ok(r)
  {
    if digests != [] {
      var init, last := digests[..|digests| - 1], digests[|digests| - 1];
      assert digests == init + [last];
      CopyAllWrites(refs, src, init);
    }
  }

  lemma CopyWrites(refs: Refs, src: Refs, from: ImageReference, to: ImageReference)
    requires CanCopy(src, from) && RefForImage(to).Ok?
    ensures CopiedTo(refs, AfterCopy(refs, src, from, to), src, RefForImage(from).value, RefForImage(to).value)
  {
    CopyAllWrites(refs, src, src[RefForImage(from).value].layers);
    ImageRefIsNoLayer(to);
  }
}
