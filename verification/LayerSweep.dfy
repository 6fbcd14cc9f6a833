/** The loop of the collector: layer refs are looked at in any order, and the first one met for a
    referenced digest uses it up (lib/src/container/store.rs, `gc_image_layers_impl`). */
module LayerSweep {
  import opened Outcomes
  import opened StoreRefs
  import opened LayerGc

  /** During a sweep: `todo` is still to be looked at, `left` are the digests not yet met. */
  ghost predicate Swept(before: Refs, now: Refs, todo: set<string>, referenced: set<string>, left: set<string>) {
    && (forall k | k in now :: k in before && now[k] == before[k])
    && (forall k | k in before && (!IsLayerRef(k) || k in todo) :: k in now)
    && (forall k | k in todo :: k in before && IsLayerRef(k))
    && left <= referenced
    && (forall k | Kept(before, k) && k !in todo :: DigestOf(k).Ok? && DigestOf(k).value !in left)
    && (forall k | Kept(now, k) && k !in todo :: DigestOf(k).Ok? && DigestOf(k).value in referenced)
    && (forall j, k | Kept(now, j) && Kept(now, k) && j !in todo && k !in todo && SameDigest(j, k) :: j == k)
    && forall d | d in referenced && d !in left :: exists k :: Kept(now, k) && k !in todo && DigestOf(k) == Ok(d)
  }

  lemma SweptKeep(before: Refs, now: Refs, todo: set<string>, referenced: set<string>, left: set<string>, k: string)
    requires Swept(before, now, todo, referenced, left)
    requires k in todo && DigestOf(k).Ok? && DigestOf(k).value in left
    ensures Swept(before, now, todo - {k}, referenced, left - {DigestOf(k).value})
  {
    assert Kept(now, k);
    forall d | d in referenced && d !in left - {DigestOf(k).value}
      ensures exists j :: Kept(now, j) && j !in todo - {k} && DigestOf(j) == Ok(d)
    {
      if d in left {
        assert DigestOf(k) == Ok(d);
      } else {
        var j :| Kept(now, j) && j !in todo && DigestOf(j) == Ok(d);
      }
    }
  }

  lemma SweptDrop(before: Refs, now: Refs, todo: set<string>, referenced: set<string>, left: set<string>, k: string)
    requires Swept(before, now, todo, referenced, left)
    requires k in todo && DigestOf(k).Ok? && DigestOf(k).value !in left
    ensures Swept(before, now - {k}, todo - {k}, referenced, left)
    ensures k in now && |now - {k}| == |now| - 1
  {
    assert (now - {k}).Keys == now.Keys - {k};
    forall d | d in referenced && d !in left
      ensures exists j :: Kept(now - {k}, j) && j !in todo - {k} && DigestOf(j) == Ok(d)
    {
      var j :| Kept(now, j) && j !in todo && DigestOf(j) == Ok(d);
      assert Kept(now - {k}, j);
    }
  }

  lemma SameDigestSame(refs: Refs, j: string, k: string)
    requires Canonical(refs) && Kept(refs, j) && Kept(refs, k) && SameDigest(j, k)
    ensures j == k
  {
    assert CanonicalLayer(j) && CanonicalLayer(k);
  }

  /** A digest met before belongs to another ref, so it is not the digest of a canonical one. */
  lemma NotUsedUp(before: Refs, todo: set<string>, referenced: set<string>, left: set<string>, k: string)
    requires Canonical(before) && Kept(before, k) && k in todo && DigestOf(k).Ok? && DigestOf(k).value !in left
    requires forall d | d in referenced && d !in left :: exists j ::
      Kept(before, j) && j !in todo && DigestOf(j) == Ok(d)
    ensures DigestOf(k).value !in referenced
  {
    forall j | Kept(before, j) && j !in todo
      ensures DigestOf(j) != DigestOf(k)
    {
      if SameDigest(k, j) {
        SameDigestSame(before, k, j);
      }
    }
  }

  lemma KeptBefore(before: Refs, now: Refs, todo: set<string>, referenced: set<string>, left: set<string>)
    requires Swept(before, now, todo, referenced, left)
    ensures forall d | d in referenced && d !in left :: exists j ::
      Kept(before, j) && j !in todo && DigestOf(j) == Ok(d)
    ensures forall k | k in todo :: Kept(before, k)
    ensures forall i | i in now :: i in before && before[i] == now[i]
  {
    forall d | d in referenced && d !in left
      ensures exists j :: Kept(before, j) && j !in todo && DigestOf(j) == Ok(d)
    {
      var j :| Kept(now, j) && j !in todo && DigestOf(j) == Ok(d);
      assert Kept(before, j);
    }
  }

  /** No image needs a ref that is dropped. */
  lemma DropSafe(before: Refs, now: Refs, todo: set<string>, referenced: set<string>, left: set<string>, k: string)
    requires Swept(before, now, todo, referenced, left) && forall d :: d in referenced <==> Referenced(before, d)
    requires k in todo && DigestOf(k).Ok? && DigestOf(k).value !in left
    ensures Safe(before) && Readable(before) && Safe(now) ==> Safe(now - {k})
  {
    if Safe(before) && Readable(before) && Safe(now) {
      KeptBefore(before, now, todo, referenced, left);
      NotUsedUp(before, todo, referenced, left, k);
      forall i | i in now && IsImageRef(i)
        ensures !Needs(now[i], k)
      {
        if Needs(now[i], k) {
          NeededIsReferenced(before, i, k);
        }
      }
      LayerRemovalSafe(now, k);
    }
  }

  lemma SweptAll(before: Refs, now: Refs, referenced: set<string>, left: set<string>, pruned: nat)
    requires Swept(before, now, {}, referenced, left) && (forall d :: d in referenced <==> Referenced(before, d))
    requires |before| == |now| + pruned
    ensures Collected(before, now, pruned) && LayersReadable(before)
  {
    forall r | Kept(before, r) && DigestOf(r).Ok? && Referenced(before, DigestOf(r).value)
      ensures exists s :: Kept(now, s) && SameDigest(r, s)
    {
      assert DigestOf(r).value !in left;
      var s :| Kept(now, s) && s !in {} && DigestOf(s) == Ok(DigestOf(r).value);
    }
  }
}
