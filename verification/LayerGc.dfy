/** What garbage collection of layer refs leaves (lib/src/container/store.rs, `gc_image_layers_impl`). */
module LayerGc {
  import opened Outcomes
  import opened ImageRef
  import opened RefEscape
  import opened StoreRefs

  function ManifestForImage(refs: Refs, image: ImageReference): Result<seq<string>> {
    var r :- RefForImage(image);
    if r in refs && refs[r].Merge? then Ok(refs[r].layers) else Err
  }

  /** The manifest found for a listed image ref: that of the ref written for what it parses to. */
  function ListedManifest(refs: Refs, r: string): Result<seq<string>> {
    var image :- ImageOf(r);
    ManifestForImage(refs, image)
  }

  function ImageLayers(refs: Refs, r: string): set<string> {
    match ListedManifest(refs, r)
    case Ok(layers) => set d | d in layers
    case Err => {}
  }

  function DeploymentLayers(refs: Refs, r: string): set<string> {
    if r in refs && refs[r].Merge? then set d | d in refs[r].layers else {}
  }

  /** Named by some image or deployment manifest. */
  ghost predicate Referenced(refs: Refs, d: string) {
    || (exists r :: r in refs && IsImageRef(r) && d in ImageLayers(refs, r))
    || (exists r :: r in refs && IsDeploymentRef(r) && d in DeploymentLayers(refs, r))
  }

  /** Everything can be read before the first removal. */
  ghost predicate Readable(refs: Refs) {
    forall r | r in refs ::
      && (IsImageRef(r) ==> ListedManifest(refs, r).Ok?)
      && (IsDeploymentRef(r) ==> !refs[r].Corrupt?)
  }

  ghost predicate LayersReadable(refs: Refs) {
    forall r | r in refs && IsLayerRef(r) :: DigestOf(r).Ok?
  }

  predicate SameDigest(r: string, s: string) {
    DigestOf(r).Ok? && DigestOf(r) == DigestOf(s)
  }

  ghost predicate Kept(refs: Refs, r: string) {
    r in refs && IsLayerRef(r)
  }

  /** The result of a successful collection, for any refs: of the layer refs that stand for a
      referenced digest exactly one stays, the other layer refs go, nothing else changes. */
  ghost predicate Collected(before: Refs, after: Refs, pruned: nat) {
    && (forall r | r in after :: r in before && after[r] == before[r])
    && (forall r | r in before && !IsLayerRef(r) :: r in after)
    && (forall r | Kept(after, r) :: DigestOf(r).Ok? && Referenced(before, DigestOf(r).value))
    && (forall r, s | Kept(after, r) && Kept(after, s) && SameDigest(r, s) :: r == s)
    && (forall r | Kept(before, r) && DigestOf(r).Ok? && Referenced(before, DigestOf(r).value) ::
          exists s :: Kept(after, s) && SameDigest(r, s))
    && |before| == |after| + pruned
  }

  // ---- images and deployments are untouched, so nothing changes what is referenced ----

  lemma SameImageLayers(before: Refs, after: Refs, r: string)
    requires forall r | r in after :: r in before && after[r] == before[r]
    requires forall r | r in before && !IsLayerRef(r) :: r in after
    ensures ListedManifest(before, r) == ListedManifest(after, r)
  {
    if ImageOf(r).Ok? && RefForImage(ImageOf(r).value).Ok? {
      ImageRefReads(ImageOf(r).value);
      KindsApart(RefForImage(ImageOf(r).value).value);
    }
  }

  lemma SameReferenced(before: Refs, after: Refs, d: string)
    requires forall r | r in after :: r in before && after[r] == before[r]
    requires forall r | r in before && !IsLayerRef(r) :: r in after
    ensures Referenced(before, d) <==> Referenced(after, d)
  {
    forall r
      ensures r in before && IsImageRef(r) && d in ImageLayers(before, r) <==>
        r in after && IsImageRef(r) && d in ImageLayers(after, r)
      ensures r in before && IsDeploymentRef(r) && d in DeploymentLayers(before, r) <==>
        r in after && IsDeploymentRef(r) && d in DeploymentLayers(after, r)
    {
      KindsApart(r);
      SameImageLayers(before, after, r);
    }
  }

  /** Collecting again removes nothing. */
  lemma GcIdempotent(before: Refs, after: Refs, again: Refs, n: nat, m: nat)
    requires Collected(before, after, n) && Collected(after, again, m)
    ensures m == 0 && again == after
  {
    forall r | Kept(after, r)
      ensures r in again
    {
      SameReferenced(before, after, DigestOf(r).value);
      var s :| Kept(again, s) && SameDigest(r, s);
      assert Kept(after, s);
    }
    assert again.Keys == after.Keys;
    assert again == after;
  }

  /** No referenced layer ref is lost exactly if no two refs stand for one referenced digest: the
      test by removal from the referenced set needs unescaping to be injective on the refs. */
  lemma KeepsAllReferenced(before: Refs, after: Refs, n: nat)
    requires Collected(before, after, n) && LayersReadable(before)
    ensures (forall r | Kept(before, r) && Referenced(before, DigestOf(r).value) :: r in after) <==>
      forall r, s | Kept(before, r) && Kept(before, s) && SameDigest(r, s) && Referenced(before, DigestOf(r).value) ::
        r == s
  {
    if forall r, s | Kept(before, r) && Kept(before, s) && SameDigest(r, s) && Referenced(before, DigestOf(r).value) ::
      r == s {
      forall r | Kept(before, r) && Referenced(before, DigestOf(r).value)
        ensures r in after
      {
        var s :| Kept(after, s) && SameDigest(r, s);
        assert Kept(before, s);
      }
    }
  }

  /** For refs written by the store, collection leaves exactly the layer refs whose digest an image
      or a deployment names. */
  lemma GcExact(before: Refs, after: Refs, n: nat)
    requires Canonical(before) && Collected(before, after, n)
    ensures forall r | Kept(before, r) :: r in after <==> Referenced(before, DigestOf(r).value)
    ensures forall d | RefForLayer(d).Ok? ::
      RefForLayer(d).value in after <==> RefForLayer(d).value in before && Referenced(before, d)
  {
    assert forall r | Kept(before, r) :: CanonicalLayer(r);
    assert forall r, s | Kept(before, r) && Kept(before, s) && SameDigest(r, s) :: r == s;
    KeepsAllReferenced(before, after, n);
    forall d | RefForLayer(d).Ok?
      ensures RefForLayer(d).value in after <==> RefForLayer(d).value in before && Referenced(before, d)
    {
      LayerRefReads(d);
      assert RefForLayer(d).value in before ==> Kept(before, RefForLayer(d).value);
    }
  }

  /** In a safe state the manifest read for an image ref is that of its own commit. */
  lemma CanonicalListed(refs: Refs, r: string)
    requires Safe(refs) && r in refs && IsImageRef(r) && ListedManifest(refs, r).Ok?
    ensures refs[r].Merge? && ListedManifest(refs, r) == Ok(refs[r].layers)
  {
    assert CanonicalImage(r);
    var image :| RefForImage(image) == Ok(r);
    ImageRefReads(image);
  }

  /** When everything is readable, a layer of a stored image is referenced. */
  lemma NeededIsReferenced(refs: Refs, i: string, r: string)
    requires Safe(refs) && Readable(refs) && i in refs && IsImageRef(i) && Needs(refs[i], r)
    ensures Referenced(refs, DigestOf(r).value)
  {
    CanonicalListed(refs, i);
    assert DigestOf(r).value in ImageLayers(refs, i);
  }

  /** Collection can only fail on a ref that it cannot read; in a safe state that is an image
      stored without a name, or a damaged deployment commit. */
  lemma SafeReadable(refs: Refs)
    requires Safe(refs)
    ensures LayersReadable(refs)
    ensures Readable(refs) <==> (forall r | r in refs ::
      (IsImageRef(r) ==> ImageOf(r).Ok?) && (IsDeploymentRef(r) ==> !refs[r].Corrupt?))
  {
    forall r | r in refs && IsLayerRef(r) ensures DigestOf(r).Ok? {
      assert CanonicalLayer(r);
    }
    forall r | r in refs && IsImageRef(r)
      ensures ListedManifest(refs, r).Ok? <==> ImageOf(r).Ok?
    {
      assert CanonicalImage(r) && Backed(refs, refs[r]);
      var image :| RefForImage(image) == Ok(r);
      ImageRefReads(image);
    }
  }

  // ---- what collection keeps, in terms of the commits that the refs point to ----

  /** A ref that holds on to a layer: that of a stored image, a deployment, a layered commit, or an
      image kept as a base, if its commit records a manifest with that layer. */
  predicate Holds(refs: Refs, r: string, d: string) {
    && r in refs && refs[r].Merge? && d in refs[r].layers
    && (Under("ostree/container/image", r) || Under("ostree/0", r) || Under("ostree/1", r)
        || Under("rpmostree/base", r) || Under("ostree/container/baseimage", r))
  }

  ghost predicate Held(refs: Refs, d: string) {
    exists r :: Holds(refs, r, d)
  }

  lemma ReferencedIsHeld(refs: Refs, d: string)
    requires Safe(refs) && Readable(refs)
    ensures Referenced(refs, d) <==> Held(refs, d)
  {
    if r :| r in refs && IsImageRef(r) && d in ImageLayers(refs, r) {
      CanonicalListed(refs, r);
      assert Holds(refs, r, d);
    }
    if r :| r in refs && IsDeploymentRef(r) && d in DeploymentLayers(refs, r) {
      assert Holds(refs, r, d);
    }
    if r :| Holds(refs, r, d) {
      if IsImageRef(r) {
        CanonicalListed(refs, r);
        assert d in ImageLayers(refs, r);
      } else {
        assert d in DeploymentLayers(refs, r);
      }
    }
  }

  /** Exactly the layers that are held stay. */
  ghost predicate KeepsHeld(before: Refs, after: Refs) {
    forall d | RefForLayer(d).Ok? ::
      RefForLayer(d).value in after <==> RefForLayer(d).value in before && Held(before, d)
  }

  /** From a safe state collection leaves exactly the layers whose digest is in the manifest of a
      stored image, a deployment or a base. */
  lemma GcKeepsHeld(before: Refs, after: Refs, n: nat)
    requires Safe(before) && Readable(before) && Collected(before, after, n)
    ensures KeepsHeld(before, after)
  {
    GcExact(before, after, n);
    forall d | RefForLayer(d).Ok?
      ensures RefForLayer(d).value in after <==> RefForLayer(d).value in before && Held(before, d)
    {
      ReferencedIsHeld(before, d);
    }
  }

  // ---- what goes wrong with refs that the store did not write ----

  /** The ref that stands for the digest `a:b`, and another that is read as the same digest. */
  lemma Aliases() returns (own: string, other: string)
    ensures RefForLayer("a:b") == Ok(own) && own != other && IsLayerRef(own) && IsLayerRef(other)
    ensures DigestOf(own) == Ok("a:b") == DigestOf(other)
  {
    UnescapeHasAliases();
    own, other := LAYER_PREFIX + "/" + ("a_3" + "A" + "_b"), LAYER_PREFIX + "/" + ("a_3" + "a" + "_b");
    assert other[|LAYER_PREFIX| + 1..] == "a_3" + "a" + "_b";
    assert own[|own| - 3] == 'A' && other[|other| - 3] == 'a';
    LayerRefReads("a:b");
  }

  ghost predicate AllBacked(refs: Refs) {
    forall r | r in refs && IsImageRef(r) :: Backed(refs, refs[r])
  }

  /** Two refs read as one digest, and the ref of an image with that layer. */
  ghost predicate Aliased(own: string, other: string, name: string, d: string) {
    && IsLayerRef(own) && IsLayerRef(other) && own != other
    && RefForLayer(d) == Ok(own) && DigestOf(own) == Ok(d) == DigestOf(other)
    && !IsLayerRef(name) && IsImageRef(name) && ImageOf(name).Ok? && RefForImage(ImageOf(name).value) == Ok(name)
  }

  function WithAlias(own: string, other: string, name: string, d: string): Refs {
    map[own := Plain(""), other := Plain(""), name := Merge("", [d])]
  }

  lemma AliasReferenced(own: string, other: string, name: string, d: string)
    requires Aliased(own, other, name, d)
    ensures Referenced(WithAlias(own, other, name, d), d)
  {
    var before := WithAlias(own, other, name, d);
    assert before[name] == Merge("", [d]);
    assert ListedManifest(before, name) == Ok([d]);
    assert d in ImageLayers(before, name);
  }

  /** With two refs for one referenced digest, dropping either is a possible outcome. */
  lemma EitherCanGo(before: Refs, own: string, other: string, d: string)
    requires Kept(before, own) && Kept(before, other) && own != other
    requires DigestOf(own) == Ok(d) == DigestOf(other) && Referenced(before, d)
    requires forall r | Kept(before, r) :: r == own || r == other
    ensures Collected(before, before - {own}, 1)
  {
    var after := before - {own};
    assert after.Keys == before.Keys - {own};
    forall r | Kept(after, r)
      ensures r == other
    {
      assert Kept(before, r);
    }
    forall r | Kept(before, r)
      ensures exists s :: Kept(after, s) && SameDigest(r, s)
    {
      assert Kept(after, other) && SameDigest(r, other);
    }
  }

  lemma AliasCollected(own: string, other: string, name: string, d: string)
    requires Aliased(own, other, name, d)
    ensures Collected(WithAlias(own, other, name, d), WithAlias(own, other, name, d) - {own}, 1)
  {
    AliasReferenced(own, other, name, d);
    AliasKept(own, other, name, d);
    EitherCanGo(WithAlias(own, other, name, d), own, other, d);
  }

  lemma AliasKept(own: string, other: string, name: string, d: string)
    requires IsLayerRef(own) && IsLayerRef(other) && !IsLayerRef(name)
    ensures Kept(WithAlias(own, other, name, d), own) && Kept(WithAlias(own, other, name, d), other)
    ensures forall r | Kept(WithAlias(own, other, name, d), r) :: r == own || r == other
  {
  }

  lemma AliasBacked(own: string, other: string, name: string, d: string)
    requires Aliased(own, other, name, d)
    ensures AllBacked(WithAlias(own, other, name, d)) && !AllBacked(WithAlias(own, other, name, d) - {own})
  {
    var before := WithAlias(own, other, name, d);
    KindsApart(own);
    KindsApart(other);
    OneImageBacked(before, own, other, name, d);
    OneImageLost(before - {own}, own, name, d);
  }

  lemma OneImageBacked(refs: Refs, own: string, other: string, name: string, d: string)
    requires refs.Keys == {own, other, name} && refs[name] == Merge("", [d]) && RefForLayer(d) == Ok(own)
    requires KindsDiffer(own, other, name)
    ensures AllBacked(refs)
  {
    assert HasLayer(refs, d);
  }

  lemma OneImageLost(refs: Refs, own: string, name: string, d: string)
    requires name in refs && IsImageRef(name) && refs[name] == Merge("", [d])
    requires RefForLayer(d) == Ok(own) && own !in refs
    ensures !AllBacked(refs)
  {
    assert !HasLayer(refs, d) && d in refs[name].layers;
    assert !Backed(refs, refs[name]);
  }

  predicate KindsDiffer(own: string, other: string, name: string) {
    !IsImageRef(own) && !IsImageRef(other) && name != own && name != other
  }

  /** A second ref for a layer's digest can make the collector delete the layer's own ref, and an
      image then points to a layer that is gone. */
  lemma AliasLosesLayer(image: ImageReference)
    requires RefForImage(image).Ok? && Named(image)
    ensures exists before, after :: Collected(before, after, 1) && AllBacked(before) && !AllBacked(after)
  {
    var own, other := Aliases();
    var name := RefForImage(image).value;
    ImageRefReads(image);
    KindsApart(name);
    AliasCollected(own, other, name, "a:b");
    AliasBacked(own, other, name, "a:b");
  }
}
