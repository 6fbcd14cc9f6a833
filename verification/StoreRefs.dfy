/** The names of the refs of the image store, and what a state of the refs means
    (lib/src/container/store.rs). */
module StoreRefs {
  import opened Outcomes
  import opened RefEscape
  import opened ImageRef

  const LAYER_PREFIX: string := "ostree/container/blob"
  const IMAGE_PREFIX: string := "ostree/container/image"
  const BASE_IMAGE_PREFIX: string := "ostree/container/baseimage"
  const BOOTED_PREFIX_0: string := "ostree/0"
  const BOOTED_PREFIX_1: string := "ostree/1"
  const RPMOSTREE_PREFIX: string := "rpmostree/base"

  /** What a commit's metadata says about a container image: nothing; a manifest digest with no
      readable manifest; or the digests of the manifest's layers. */
  datatype Commit =
    | Plain(id: string)
    | Corrupt(id: string)
    | Merge(id: string, layers: seq<string>)

  type Refs = map<string, Commit>

  predicate Under(prefix: string, r: string) { prefix + "/" <= r }

  predicate IsLayerRef(r: string) { Under(LAYER_PREFIX, r) }

  predicate IsImageRef(r: string) { Under(IMAGE_PREFIX, r) }

  predicate IsDeploymentRef(r: string) {
    || Under(BOOTED_PREFIX_0, r) || Under(BOOTED_PREFIX_1, r)
    || Under(RPMOSTREE_PREFIX, r) || Under(BASE_IMAGE_PREFIX, r)
  }

  function RefForLayer(digest: string): Result<string> { PrefixEscape(LAYER_PREFIX, digest) }

  function RefForImage(image: ImageReference): Result<string> { PrefixEscape(IMAGE_PREFIX, PrintImage(image)) }

  /** The digest that a layer ref stands for. */
  function DigestOf(r: string): Result<string> { UnprefixUnescape(LAYER_PREFIX, r) }

  function NameOf(r: string): Result<string> { UnprefixUnescape(IMAGE_PREFIX, r) }

  /** The image that an image ref is listed as. */
  function ImageOf(r: string): Result<ImageReference> {
    var name :- NameOf(r);
    ParseImage(name)
  }

  // ---- the three kinds of refs do not overlap ----

  lemma UnderAt(prefix: string, r: string, i: nat)
    requires Under(prefix, r) && i <= |prefix|
    ensures |r| > |prefix| && r[i] == if i == |prefix| then '/' else prefix[i]
  {
    assert (prefix + "/")[i] == r[i];
  }

  lemma KindsApart(r: string)
    ensures IsLayerRef(r) ==> !IsImageRef(r) && !IsDeploymentRef(r)
    ensures IsImageRef(r) ==> !IsDeploymentRef(r)
  {
    if IsLayerRef(r) {
      UnderAt(LAYER_PREFIX, r, 0);
      UnderAt(LAYER_PREFIX, r, 7);
      UnderAt(LAYER_PREFIX, r, 17);
      UnderAt(LAYER_PREFIX, r, 18);
    }
    if IsImageRef(r) {
      UnderAt(IMAGE_PREFIX, r, 0);
      UnderAt(IMAGE_PREFIX, r, 7);
      UnderAt(IMAGE_PREFIX, r, 17);
    }
    if IsDeploymentRef(r) {
      DeploymentShape(r);
    }
  }

  lemma DeploymentShape(r: string)
    requires IsDeploymentRef(r)
    ensures |r| > 8 && (r[0] == 'r' || r[7] == '0' || r[7] == '1' || (|r| > 18 && r[17] == 'b' && r[18] == 'a'))
  {
    if Under(BOOTED_PREFIX_0, r) {
      UnderAt(BOOTED_PREFIX_0, r, 7);
    } else if Under(BOOTED_PREFIX_1, r) {
      UnderAt(BOOTED_PREFIX_1, r, 7);
    } else if Under(RPMOSTREE_PREFIX, r) {
      UnderAt(RPMOSTREE_PREFIX, r, 0);
    } else {
      UnderAt(BASE_IMAGE_PREFIX, r, 17);
      UnderAt(BASE_IMAGE_PREFIX, r, 18);
    }
  }

  // ---- refs written by the store are read back as what they were written for ----

  lemma LayerRefReads(d: string)
    requires RefForLayer(d).Ok?
    ensures IsLayerRef(RefForLayer(d).value) && DigestOf(RefForLayer(d).value) == Ok(d)
  {
    PrefixedRoundTrip(LAYER_PREFIX, d);
  }

  /** Printed, escaped, listed, unescaped and parsed, a reference comes back as itself, and so its
      ref is found again; if it has no name it cannot be parsed. */
  lemma ImageRefReads(image: ImageReference)
    requires RefForImage(image).Ok?
    ensures IsImageRef(RefForImage(image).value)
    ensures NameOf(RefForImage(image).value) == Ok(PrintImage(image))
    ensures ImageOf(RefForImage(image).value) == if Named(image) then Ok(image) else Err
  {
    PrefixedRoundTrip(IMAGE_PREFIX, PrintImage(image));
    ImageRoundTrip(image);
  }

  lemma ImageRefInjective(a: ImageReference, b: ImageReference)
    requires RefForImage(a).Ok? && RefForImage(b).Ok?
    ensures RefForImage(a) == RefForImage(b) <==> a == b
  {
    PrintImageInjective(a, b);
    PrefixedRoundTrip(IMAGE_PREFIX, PrintImage(a));
    PrefixedRoundTrip(IMAGE_PREFIX, PrintImage(b));
  }

  /** A ref whose digest, written again, gives the same ref. */
  predicate CanonicalLayer(r: string) {
    DigestOf(r).Ok? && RefForLayer(DigestOf(r).value) == Ok(r)
  }

  ghost predicate CanonicalImage(r: string) {
    exists image :: RefForImage(image) == Ok(r)
  }

  /** All image and layer refs were produced by the store's own functions. */
  ghost predicate Canonical(refs: Refs) {
    forall r | r in refs :: (IsLayerRef(r) ==> CanonicalLayer(r)) && (IsImageRef(r) ==> CanonicalImage(r))
  }

  // ---- the store invariant ----

  predicate HasLayer(refs: Refs, d: string) {
    RefForLayer(d).Ok? && RefForLayer(d).value in refs
  }

  /** A merge commit all of whose layers have refs. */
  ghost predicate Backed(refs: Refs, c: Commit) {
    c.Merge? && forall d | d in c.layers :: HasLayer(refs, d)
  }

  ghost predicate Safe(refs: Refs) {
    Canonical(refs) && forall r | r in refs && IsImageRef(r) :: Backed(refs, refs[r])
  }

  datatype Query = Found(base: Commit, layers: seq<string>) | NotAnImage | NoLayers | BadDigest | MissingBase

  function QueryImageCommit(refs: Refs, c: Commit): Query {
    if !c.Merge? then NotAnImage
    else if c.layers == [] then NoLayers
    else
      match RefForLayer(c.layers[0])
      case Err => BadDigest
      case Ok(r) => if r in refs then Found(refs[r], c.layers) else MissingBase
  }

  /** In a safe state a query finds the base of every stored image: what its first layer's ref points to. */
  lemma SafeQuery(refs: Refs, r: string)
    requires Safe(refs) && r in refs && IsImageRef(r)
    ensures refs[r].Merge?
    ensures var layers := refs[r].layers;
      && (layers == [] ==> QueryImageCommit(refs, refs[r]).NoLayers?)
      && (layers != [] ==>
            HasLayer(refs, layers[0])
            && QueryImageCommit(refs, refs[r]) == Found(refs[RefForLayer(layers[0]).value], layers))
  {
    var c := refs[r];
    assert Backed(refs, c);
    if c.layers != [] {
      assert HasLayer(refs, c.layers[0]);
    }
  }

  // ---- single ref writes ----

  /** Any ref outside the store's two prefixes can change. */
  lemma OtherWriteSafe(refs: Refs, r: string, c: Commit)
    requires Safe(refs) && !IsLayerRef(r) && !IsImageRef(r)
    ensures Safe(refs[r := c]) && Safe(refs - {r})
  {
    var now, less := refs[r := c], refs - {r};
    forall i, d | i in refs && IsImageRef(i) && d in refs[i].layers
      ensures HasLayer(now, d) && HasLayer(less, d)
    {
      assert HasLayer(refs, d);
      LayerRefReads(d);
    }
  }

  lemma LayerWriteSafe(refs: Refs, d: string, c: Commit)
    requires Safe(refs) && RefForLayer(d).Ok?
    ensures Safe(refs[RefForLayer(d).value := c]) && HasLayer(refs[RefForLayer(d).value := c], d)
    ensures forall e | HasLayer(refs, e) :: HasLayer(refs[RefForLayer(d).value := c], e)
  {
    var r := RefForLayer(d).value;
    LayerRefReads(d);
    KindsApart(r);
    var now := refs[r := c];
    forall i, e | i in refs && IsImageRef(i) && e in refs[i].layers
      ensures HasLayer(now, e)
    {
      assert HasLayer(refs, e);
    }
  }

  lemma ImageWriteSafe(refs: Refs, image: ImageReference, c: Commit)
    requires Safe(refs) && RefForImage(image).Ok? && Backed(refs, c)
    ensures Safe(refs[RefForImage(image).value := c])
  {
    var r := RefForImage(image).value;
    assert IsImageRef(r) && !IsLayerRef(r) by {
      ImageRefReads(image);
      KindsApart(r);
    }
    BackedMore(refs, r, c);
  }

  lemma BackedMore(refs: Refs, r: string, c: Commit)
    requires Safe(refs) && Backed(refs, c) && IsImageRef(r) && CanonicalImage(r) && !IsLayerRef(r)
    ensures Safe(refs[r := c])
  {
    var now := refs[r := c];
    forall i, e | i in now && IsImageRef(i) && e in now[i].layers
      ensures HasLayer(now, e)
    {
      assert HasLayer(refs, e);
    }
  }

  lemma ImageRemovalSafe(refs: Refs, r: string)
    requires Safe(refs) && IsImageRef(r)
    ensures Safe(refs - {r})
  {
    var now := refs - {r};
    forall i, d | i in now && IsImageRef(i) && d in now[i].layers
      ensures HasLayer(now, d)
    {
      assert HasLayer(refs, d);
      LayerRefReads(d);
      KindsApart(RefForLayer(d).value);
    }
  }

  /** The commit is an image with that layer. */
  predicate Needs(c: Commit, r: string) {
    c.Merge? && DigestOf(r).Ok? && DigestOf(r).value in c.layers
  }

  /** A layer that no image names can go. */
  lemma LayerRemovalSafe(refs: Refs, r: string)
    requires Safe(refs) && IsLayerRef(r)
    requires forall i | i in refs && IsImageRef(i) :: !Needs(refs[i], r)
    ensures Safe(refs - {r})
  {
    var now := refs - {r};
    KindsApart(r);
    forall i, d | i in now && IsImageRef(i) && d in now[i].layers
      ensures HasLayer(now, d)
    {
      assert HasLayer(refs, d);
      LayerRefReads(d);
      assert !Needs(refs[i], r);
    }
  }
}
