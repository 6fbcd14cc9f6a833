/** When an exported image can be read back: two empty chunks are one and the same layer
    (lib/src/container/encapsulate.rs, `export_chunked`; lib/src/container/store.rs,
    `parse_manifest_layout`). */
module ImageLayers {
  import opened Outcomes
  import opened Seqs
  import opened Paths
  import opened Objects
  import opened ObjectPaths
  import opened TarStream
  import opened Chunks
  import opened ChunkMapping
  import opened Components
  import opened RoundTrip
  import opened Encapsulate
  import opened ML = ManifestLayout
  import P = Partitions
  import F = Folding
  import K = Packing
  import M = EmptyBins
  import B = PriorBuild
  import E = TarExport
  import I = TarImport

  /** The digests of a compressed and of an uncompressed layer. */
  datatype Hashes = Hashes(digest: seq<Entry> -> string, diffId: seq<Entry> -> string)

  /** No two different layers of the image share a digest or a diff id. */
  ghost predicate Separate(streams: seq<seq<Entry>>, h: Hashes) {
    forall i, j | 0 <= i < j < |streams| ::
      (h.digest(streams[i]) == h.digest(streams[j]) || h.diffId(streams[i]) == h.diffId(streams[j])) ==>
        streams[i] == streams[j]
  }

  /** The image that the writer makes of the commit layer and the annotated chunk layers. */
  ghost predicate ExportedAs(image: Image, streams: seq<seq<Entry>>, notes: seq<string>, h: Hashes) {
    && |image.layers| == |image.config.diffIds| == |streams| == |notes| + 1
    && (forall k | 0 <= k < |streams| ::
          && image.layers[k] == Layer(h.digest(streams[k]), if k == 0 then None else Some(notes[k - 1]))
          && image.config.diffIds[k] == h.diffId(streams[k]))
    && image.config.finalDiffId == Some(image.config.diffIds[|notes|])
  }

  /** Hashes the layers, annotates the chunks, and exports. */
  method WriteImage(commit: seq<Entry>, chunks: seq<seq<Entry>>, notes: seq<string>, h: Hashes) returns (image: Image)
    requires |notes| == |chunks|
    ensures ExportedAs(image, [commit] + chunks, notes, h)
  {
    var written: seq<Written> := [];
    for i := 0 to |chunks|
      invariant |written| == i
      invariant forall k | 0 <= k < i ::
        written[k] == Written(Layer(h.digest(chunks[k]), Some(notes[k])), h.diffId(chunks[k]))
    {
      written := written + [Written(Layer(h.digest(chunks[i]), Some(notes[i])), h.diffId(chunks[i]))];
    }
    image := ExportChunked(Written(Layer(h.digest(commit), None), h.diffId(commit)), written);
    ghost var streams := [commit] + chunks;
    forall k | 0 <= k < |streams|
      ensures image.layers[k] == Layer(h.digest(streams[k]), if k == 0 then None else Some(notes[k - 1]))
      ensures image.config.diffIds[k] == h.diffId(streams[k])
    {
      assert image.layers[k] == ([Written(Layer(h.digest(commit), None), h.diffId(commit))] + written)[k].layer;
    }
  }

  // ---- which layers are equal ----

  lemma CommitLayerDiffers(c: Commit, remainder: seq<E.ChunkItem>, items: seq<E.ChunkItem>, env: Env)
    requires env.Valid()
    ensures E.ExportFinal(c, remainder, env) != E.ExportChunk(items, env)
  {
    E.FinalLayout(c, remainder, env);
    assert E.ExportFinal(c, remainder, env)[0] == E.RootDirEntry(c);
    var w := E.START.(initDirs := true);
    E.ChunkShift(w, E.RepoStructure(), items, env);
    assert E.WriteStructure(E.START) == E.Shift(w, E.RepoStructure());
    E.StructureEntries();
    assert E.ExportChunk(items, env)[0] == E.RepoStructure()[0] && E.RepoStructure()[0] in E.RepoStructure();
    assert REPO[0] == Normal("sysroot");
  }

  /** Equal chunk layers hold the same objects. */
  lemma SameLayer(a: seq<E.ChunkItem>, b: seq<E.ChunkItem>, u: set<Object>, env: Env)
    requires Universe(u, env) && ItemObjects(a) <= u && ItemObjects(b) <= u && ClearItems(a) && ClearItems(b)
    requires E.ExportChunk(a, env) == E.ExportChunk(b, env)
    ensures ItemSums(a, env) == ItemSums(b, env)
  {
    ChunkLayer(a, {}, map[], u, env);
    ChunkLayer(b, {}, map[], u, env);
  }

  /** Chunk layers that can be imported and hold the objects of disjoint parts. */
  ghost predicate Holding(chunks: seq<seq<E.ChunkItem>>, parts: seq<Content>, env: Env) {
    && |chunks| == |parts|
    && (forall i | 0 <= i < |parts| :: ItemSums(chunks[i], env) == parts[i].Keys)
    && forall i, j | 0 <= i < j < |parts| :: parts[i].Keys !! parts[j].Keys
  }

  ghost predicate AllImportable(chunks: seq<seq<E.ChunkItem>>, u: set<Object>) {
    forall i | 0 <= i < |chunks| :: ItemObjects(chunks[i]) <= u && ClearItems(chunks[i])
  }

  lemma CoverHeld(c: Commit, parts: seq<Content>, whole: Content, chunks: seq<seq<E.ChunkItem>>, env: Env)
    requires ClearCommit(c) && ContentOf(whole, c, env) && Cover(parts, map[], whole) && ListsAll(chunks, parts, c, env)
    ensures Holding(chunks, parts, env) && AllImportable(chunks, Reachable(c, env))
  {
    forall i | 0 <= i < |chunks|
      ensures ItemSums(chunks[i], env) == parts[i].Keys && ItemObjects(chunks[i]) <= Reachable(c, env)
        && ClearItems(chunks[i])
    {
      SumsOfPart(c, parts, chunks, i, env);
      ListedClear(chunks[i], parts[i], whole, c, env);
    }
  }

  ghost predicate EqualIfEmpty(chunks: seq<seq<E.ChunkItem>>, parts: seq<Content>, i: nat, j: nat, env: Env)
    requires env.Valid() && |chunks| == |parts| && i < j < |parts|
  {
    E.ExportChunk(chunks[i], env) == E.ExportChunk(chunks[j], env) <==> parts[i] == map[] == parts[j]
  }

  ghost predicate EqualToLast(chunks: seq<seq<E.ChunkItem>>, parts: seq<Content>, i: nat, env: Env)
    requires env.Valid() && |chunks| == |parts| && i < |parts| - 1
  {
    EqualIfEmpty(chunks, parts, i, |parts| - 1, env)
  }

  /** Two such layers are equal exactly if both are empty. */
  lemma LayersEqual(chunks: seq<seq<E.ChunkItem>>, parts: seq<Content>, i: nat, j: nat, u: set<Object>, env: Env)
    requires Universe(u, env) && Holding(chunks, parts, env) && AllImportable(chunks, u) && i < j < |parts|
    ensures EqualIfEmpty(chunks, parts, i, j, env)
  {
    assert parts[i].Keys !! parts[j].Keys;
    if E.ExportChunk(chunks[i], env) == E.ExportChunk(chunks[j], env) {
      SameLayer(chunks[i], chunks[j], u, env);
      assert parts[i].Keys == {} == parts[j].Keys;
    } else if parts[i] == map[] == parts[j] {
      NoSums(chunks[i], env);
      NoSums(chunks[j], env);
    }
  }

  lemma NoSums(items: seq<E.ChunkItem>, env: Env)
    ensures ItemSums(items, env) == {} ==> items == []
  {
    if items != [] {
      assert env.fileSum(items[0].obj) in ItemSums(items, env);
    }
  }

  lemma SumsOfPart(c: Commit, parts: seq<Content>, chunks: seq<seq<E.ChunkItem>>, i: nat, env: Env)
    requires ListsAll(chunks, parts, c, env) && i < |parts|
    ensures ItemSums(chunks[i], env) == parts[i].Keys
  {
    assert Lists(chunks[i], parts[i], c, env);
  }

  ghost function Streams(c: Commit, chunks: seq<seq<E.ChunkItem>>, env: Env): (r: seq<seq<Entry>>)
    requires env.Valid()
    ensures |r| == 1 + |chunks| && r[0] == E.ExportFinal(c, [], env)
    ensures forall k | 0 < k < |r| :: r[k] == E.ExportChunk(chunks[k - 1], env)
  {
    [E.ExportFinal(c, [], env)] + ExportChunks(chunks, env)
  }

  /** The last chunk is not empty, or is the only empty one. */
  predicate OneEmpty<T(==)>(parts: seq<T>, empty: T)
    requires parts != []
  {
    parts[|parts| - 1] != empty || forall i | 0 <= i < |parts| - 1 :: parts[i] != empty
  }

  // ---- reading the image back ----

  /** Layers that are like the last one. */
  ghost predicate LikeLast(streams: seq<seq<Entry>>, k: nat)
    requires k < |streams|
  {
    streams[k] == streams[|streams| - 1]
  }

  /** The label is unambiguous exactly if no layer is like the last one. */
  lemma LastStandsAlone(image: Image, streams: seq<seq<Entry>>, notes: seq<string>, h: Hashes)
    requires ExportedAs(image, streams, notes, h) && Separate(streams, h) && notes != []
    ensures Unambiguous(image, |notes| + 1) <==> forall k | 0 <= k < |streams| - 1 :: !LikeLast(streams, k)
  {
    var layers, diffIds, n: nat := image.layers, image.config.diffIds, |notes|;
    assert forall k | 1 <= k <= n :: layers[k].annotation.Some?;
    if forall k | 0 <= k < n :: !LikeLast(streams, k) {
      forall k | 0 <= k < n
        ensures diffIds[k] != diffIds[n] && layers[k] != layers[n]
      {
        assert !LikeLast(streams, k);
      }
    } else {
      var k :| 0 <= k < n && LikeLast(streams, k);
      assert diffIds[..n][k] == diffIds[n];
    }
  }

  /** The first layer that is like the last one. */
  lemma TargetFound(image: Image, streams: seq<seq<Entry>>, notes: seq<string>, h: Hashes) returns (t: nat)
    requires ExportedAs(image, streams, notes, h) && Separate(streams, h)
    ensures t < |streams| && LikeLast(streams, t) && forall k | 0 <= k < t :: !LikeLast(streams, k)
    ensures Target(image.layers, image.config) == Ok(image.layers[t])
    ensures Parses(image.layers, image.config) <==>
      forall k | t < k < |streams| && LikeLast(streams, k) :: image.layers[k] != image.layers[t]
  {
    var layers, diffIds, n: nat := image.layers, image.config.diffIds, |notes|;
    t := Position(diffIds, diffIds[n]).value;
    assert diffIds[t] == h.diffId(streams[t]) && diffIds[n] == h.diffId(streams[n]);
    forall k | 0 <= k < t
      ensures !LikeLast(streams, k)
    {
      assert diffIds[k] != diffIds[n];
    }
    OnlyLikes(image, streams, notes, h, t);
  }

  lemma OnlyLikes(image: Image, streams: seq<seq<Entry>>, notes: seq<string>, h: Hashes, t: nat)
    requires ExportedAs(image, streams, notes, h) && Separate(streams, h)
    requires t < |streams| && LikeLast(streams, t) && forall k | 0 <= k < t :: !LikeLast(streams, k)
    ensures Once(image.layers, image.layers[t]) <==>
      forall k | t < k < |streams| && LikeLast(streams, k) :: image.layers[k] != image.layers[t]
  {
    var layers := image.layers;
    forall k | 0 <= k < |layers| && layers[k] == layers[t]
      ensures LikeLast(streams, k) && t <= k
    {
      assert h.digest(streams[k]) == h.digest(streams[t]);
      assert LikeLast(streams, k);
      if k < t {
        assert false;
      }
    }
  }

  /** The layers like the last one are the empty chunks, if it is one. */
  ghost predicate EmptiesAlike(streams: seq<seq<Entry>>, empty: seq<bool>) {
    && |streams| == 1 + |empty| && empty != [] && !LikeLast(streams, 0)
    && forall i: nat | i < |empty| - 1 :: AlikeAt(streams, empty, i)
  }

  ghost predicate AlikeAt(streams: seq<seq<Entry>>, empty: seq<bool>, i: nat)
    requires |streams| == 1 + |empty| && i < |empty| - 1
  {
    LikeLast(streams, i + 1) <==> empty[i] && empty[|empty| - 1]
  }

  /** The first empty chunk has the annotation of a later one. */
  ghost predicate NoteRepeated(empty: seq<bool>, notes: seq<string>)
    requires |empty| == |notes|
  {
    exists i, j | 0 <= i < j < |empty| :: FirstEmpty(empty, i) && empty[j] && notes[i] == notes[j]
  }

  predicate FirstEmpty(empty: seq<bool>, i: nat)
    requires i < |empty|
  {
    empty[i] && forall k | 0 <= k < i :: !empty[k]
  }

  lemma LikesByEmptiness(streams: seq<seq<Entry>>, empty: seq<bool>)
    requires EmptiesAlike(streams, empty)
    ensures (forall k | 0 <= k < |streams| - 1 :: !LikeLast(streams, k)) <==> OneEmpty(empty, true)
  {
    var n: nat := |empty|;
    if OneEmpty(empty, true) {
      forall k | 0 <= k < n
        ensures !LikeLast(streams, k)
      {
        if k > 0 {
          assert AlikeAt(streams, empty, k - 1);
        }
      }
    } else {
      var i :| 0 <= i < n - 1 && empty[i];
      assert AlikeAt(streams, empty, i) && LikeLast(streams, i + 1);
    }
  }

  lemma RecoveredByEmptiness(image: Image, streams: seq<seq<Entry>>, notes: seq<string>, empty: seq<bool>, h: Hashes)
    requires ExportedAs(image, streams, notes, h) && Separate(streams, h) && EmptiesAlike(streams, empty)
    ensures WrittenLayout(image, |streams|) <==> OneEmpty(empty, true)
  {
    LikesByEmptiness(streams, empty);
    LastStandsAlone(image, streams, notes, h);
    LayoutRecovered(image, |streams|);
  }

  lemma ParsesByEmptiness(image: Image, streams: seq<seq<Entry>>, notes: seq<string>, empty: seq<bool>, h: Hashes)
    requires ExportedAs(image, streams, notes, h) && Separate(streams, h) && EmptiesAlike(streams, empty)
    ensures Parses(image.layers, image.config) <==> OneEmpty(empty, true) || !NoteRepeated(empty, notes)
  {
    RecoveredByEmptiness(image, streams, notes, empty, h);
    if !OneEmpty(empty, true) {
      var t := TargetFound(image, streams, notes, h);
      LikesAreEmpty(streams, empty);
      SameAsTarget(image, streams, notes, h, t);
      NotedLikeTarget(streams, notes, empty, t);
    }
  }

  lemma SameAsTarget(image: Image, streams: seq<seq<Entry>>, notes: seq<string>, h: Hashes, t: nat)
    requires ExportedAs(image, streams, notes, h) && 1 <= t < |streams| && LikeLast(streams, t)
    ensures forall k | t < k < |streams| && LikeLast(streams, k) ::
      image.layers[k] == image.layers[t] <==> notes[k - 1] == notes[t - 1]
  {
  }

  lemma NotedLikeTarget(streams: seq<seq<Entry>>, notes: seq<string>, empty: seq<bool>, t: nat)
    requires |empty| == |notes| && |streams| == 1 + |empty| && t < |streams| && LikeLast(streams, t)
      && !LikeLast(streams, 0)
    requires (forall k | 0 <= k < t :: !LikeLast(streams, k)) && forall i | 0 <= i < |empty| ::
      LikeLast(streams, i + 1) <==> empty[i]
    ensures t >= 1
    ensures NoteRepeated(empty, notes) <==>
      exists k :: t < k < |streams| && LikeLast(streams, k) && notes[k - 1] == notes[t - 1]
  {
    var i: nat := t - 1;
    assert LikeLast(streams, i + 1);
    forall k | 0 <= k < i
      ensures !empty[k]
    {
      assert !LikeLast(streams, k + 1);
    }
    RepeatsOf(empty, notes, i, streams);
  }

  /** If the last chunk is empty, the layers like it are those of the empty chunks. */
  lemma LikesAreEmpty(streams: seq<seq<Entry>>, empty: seq<bool>)
    requires EmptiesAlike(streams, empty) && empty[|empty| - 1]
    ensures !LikeLast(streams, 0) && forall i | 0 <= i < |empty| :: LikeLast(streams, i + 1) <==> empty[i]
  {
    var last: nat := |empty| - 1;
    forall i | 0 <= i < |empty|
      ensures LikeLast(streams, i + 1) <==> empty[i]
    {
      assert i < last ==> AlikeAt(streams, empty, i);
    }
  }

  lemma RepeatsOf(empty: seq<bool>, notes: seq<string>, i: nat, streams: seq<seq<Entry>>)
    requires |empty| == |notes| && |streams| == 1 + |empty| && i < |empty| && FirstEmpty(empty, i)
    requires forall k | 0 <= k < |empty| :: LikeLast(streams, k + 1) <==> empty[k]
    ensures NoteRepeated(empty, notes) <==>
      exists k :: i + 1 < k < |streams| && LikeLast(streams, k) && notes[k - 1] == notes[i]
  {
    if NoteRepeated(empty, notes) {
      var e, j :| 0 <= e < j < |empty| && FirstEmpty(empty, e) && empty[j] && notes[e] == notes[j];
      assert e == i && LikeLast(streams, j + 1) && notes[(j + 1) - 1] == notes[i];
    }
    if k :| i + 1 < k < |streams| && LikeLast(streams, k) && notes[k - 1] == notes[i] {
      var j := k - 1;
      assert LikeLast(streams, j + 1) && empty[j];
    }
  }

  function Empties<T(==)>(parts: seq<T>, empty: T): (r: seq<bool>)
    ensures |r| == |parts| && forall i | 0 <= i < |r| :: r[i] == (parts[i] == empty)
  {
    seq(|parts|, i requires 0 <= i < |parts| => parts[i] == empty)
  }

  lemma StreamsAlike(c: Commit, parts: seq<Content>, chunks: seq<seq<E.ChunkItem>>, env: Env)
    requires env.Valid() && |chunks| == |parts| && parts != []
    requires forall i: nat | i < |parts| - 1 :: EqualToLast(chunks, parts, i, env)
    ensures EmptiesAlike(Streams(c, chunks, env), Empties(parts, map[]))
  {
    var streams, empty, n := Streams(c, chunks, env), Empties(parts, map[]), |parts|;
    assert streams[n] == E.ExportChunk(chunks[n - 1], env);
    assert !LikeLast(streams, 0) by { CommitLayerDiffers(c, [], chunks[n - 1], env); }
    forall i: nat | i < n - 1
      ensures AlikeAt(streams, empty, i)
    {
      assert streams[i + 1] == E.ExportChunk(chunks[i], env) && EqualToLast(chunks, parts, i, env);
    }
  }

  lemma LastEqual(chunks: seq<seq<E.ChunkItem>>, parts: seq<Content>, u: set<Object>, env: Env)
    requires Universe(u, env) && Holding(chunks, parts, env) && AllImportable(chunks, u)
    ensures forall i: nat | i < |parts| - 1 :: EqualToLast(chunks, parts, i, env)
  {
    forall i: nat | i < |parts| - 1
      ensures EqualToLast(chunks, parts, i, env)
    {
      LayersEqual(chunks, parts, i, |parts| - 1, u, env);
    }
  }

  /** An exported image is read back as it was written exactly if its last chunk is the only empty
      one, or is not empty.  Otherwise it is refused if the first empty chunk has the annotation of
      another one, and misread if not. */
  lemma ImageParses(image: Image, c: Commit, parts: seq<Content>, chunks: seq<seq<E.ChunkItem>>, notes: seq<string>,
                    h: Hashes, u: set<Object>, env: Env)
    requires Universe(u, env) && Holding(chunks, parts, env) && AllImportable(chunks, u) && parts != []
      && |notes| == |parts|
    requires ExportedAs(image, Streams(c, chunks, env), notes, h) && Separate(Streams(c, chunks, env), h)
    ensures WrittenLayout(image, 1 + |parts|) <==> OneEmpty(Empties(parts, map[]), true)
    ensures Parses(image.layers, image.config) <==>
      OneEmpty(Empties(parts, map[]), true) || !NoteRepeated(Empties(parts, map[]), notes)
  {
    assert EmptiesAlike(Streams(c, chunks, env), Empties(parts, map[])) by {
      LastEqual(chunks, parts, u, env);
      StreamsAlike(c, parts, chunks, env);
    }
    RecoveredByEmptiness(image, Streams(c, chunks, env), notes, Empties(parts, map[]), h);
    ParsesByEmptiness(image, Streams(c, chunks, env), notes, Empties(parts, map[]), h);
  }

  // ---- images of packings ----

  /** Bins whose components own nothing of the commit. */
  ghost function Idle(bins: F.Bins, owners: Owners, whole: Content): (r: seq<bool>)
    ensures |r| == |bins| && forall i | 0 <= i < |r| :: r[i] <==> Claim(bins[i], owners) !! whole.Keys
  {
    seq(|bins|, i requires 0 <= i < |bins| => Claim(bins[i], owners) !! whole.Keys)
  }

  lemma IdleChunks(bins: F.Bins, owners: Owners, whole: Content)
    ensures Empties(OwnedContents(whole, bins, owners), map[]) == Idle(bins, owners, whole)
  {
    forall i | 0 <= i < |bins|
      ensures Restrict(whole, Claim(bins[i], owners)) == map[] <==> Claim(bins[i], owners) !! whole.Keys
    {
      var part := Restrict(whole, Claim(bins[i], owners));
      if Claim(bins[i], owners) !! whole.Keys {
        assert part.Keys == {};
      } else {
        var s :| s in Claim(bins[i], owners) && s in whole;
        assert s in part;
      }
    }
  }

  /** When all owned objects are the commit's, a bin is idle exactly if it is empty. */
  lemma IdleIsEmpty(bins: F.Bins, cs: seq<P.Component>, files: map<Sum, nat>, owners: Owners,
                    sources: map<string, SourceMeta>, whole: Content)
    requires Complete(files, owners, sources) && SizesOf(cs, files, owners, sources)
    requires multiset(Flatten(bins)) == multiset(cs) && Owned(owners) <= whole.Keys
    ensures Idle(bins, owners, whole) == Empties(bins, [])
  {
    SizedIds(cs, files, owners, sources);
    FlattenMembers(bins);
    Sorting.SameContents(Flatten(bins), cs);
    forall i | 0 <= i < |bins|
      ensures Claim(bins[i], owners) !! whole.Keys <==> bins[i] == []
    {
      if bins[i] != [] {
        assert bins[i][0] in bins[i] && bins[i][0] in Flatten(bins);
        OwnsSomething(bins[i], cs, owners, whole);
      }
    }
  }

  lemma OwnsSomething(bin: seq<P.Component>, cs: seq<P.Component>, owners: Owners, whole: Content)
    requires bin != [] && bin[0] in cs && BinIds(cs) == Ids(owners) && Owned(owners) <= whole.Keys
    ensures !(Claim(bin, owners) !! whole.Keys)
  {
    assert bin[0].id in BinIds(cs) && bin[0].id in BinIds(bin);
    var o :| o in owners && o.1 == bin[0].id;
    assert o.0 in Claim(bin, owners) && o.0 in Owned(owners);
  }

  /** The chunks of a packing whose components own all of the commit's objects, and maybe others. */
  ghost predicate ChunksOf(chunks: seq<seq<E.ChunkItem>>, c: Commit, bins: F.Bins, cs: seq<P.Component>,
                           files: map<Sum, nat>, owners: Owners, sources: map<string, SourceMeta>, whole: Content,
                           env: Env)
  {
    && Complete(files, owners, sources) && SizesOf(cs, files, owners, sources) && SingleOwner(owners)
    && multiset(Flatten(bins)) == multiset(cs) && whole.Keys <= Owned(owners)
    && ClearCommit(c) && ContentOf(whole, c, env)
    && ListsAll(chunks, OwnedContents(whole, bins, owners), c, env)
  }

  /** The image made of these chunks, each annotated with the names of its bin. */
  ghost predicate ImageOf(image: Image, c: Commit, bins: F.Bins, chunks: seq<seq<E.ChunkItem>>, h: Hashes, env: Env)
    requires env.Valid()
  {
    && bins != [] && ExportedAs(image, Streams(c, chunks, env), Notes(bins), h)
    && Separate(Streams(c, chunks, env), h)
  }

  function Notes(bins: F.Bins): (r: seq<string>)
    ensures |r| == |bins| && forall i | 0 <= i < |bins| :: r[i] == B.Annotation(bins[i])
  {
    seq(|bins|, i requires 0 <= i < |bins| => B.Annotation(bins[i]))
  }

  /** The image of a packing is read back as it was written exactly if no bin but the last is idle,
      or the last is not.  Otherwise it is refused if the first idle bin has the annotation of
      another one, and misread if not. */
  lemma PackedImageRead(image: Image, c: Commit, bins: F.Bins, cs: seq<P.Component>, files: map<Sum, nat>,
                        owners: Owners, sources: map<string, SourceMeta>, whole: Content, chunks: seq<seq<E.ChunkItem>>,
                        h: Hashes, env: Env)
    requires Universe(Reachable(c, env), env) && ImageOf(image, c, bins, chunks, h, env)
    requires ChunksOf(chunks, c, bins, cs, files, owners, sources, whole, env)
    ensures WrittenLayout(image, 1 + |bins|) <==> OneEmpty(Idle(bins, owners, whole), true)
    ensures Parses(image.layers, image.config) <==>
      OneEmpty(Idle(bins, owners, whole), true) || !NoteRepeated(Idle(bins, owners, whole), Notes(bins))
  {
    var parts := PackedHeld(c, bins, cs, files, owners, sources, whole, chunks, env);
    ImageParses(image, c, parts, chunks, Notes(bins), h, Reachable(c, env), env);
  }

  lemma PackedHeld(c: Commit, bins: F.Bins, cs: seq<P.Component>, files: map<Sum, nat>, owners: Owners,
                   sources: map<string, SourceMeta>, whole: Content, chunks: seq<seq<E.ChunkItem>>, env: Env)
    returns (parts: seq<Content>)
    requires ChunksOf(chunks, c, bins, cs, files, owners, sources, whole, env)
    ensures Holding(chunks, parts, env) && AllImportable(chunks, Reachable(c, env))
    ensures |parts| == |bins| && Empties(parts, map[]) == Idle(bins, owners, whole)
  {
    parts := OwnedContents(whole, bins, owners);
    IdleChunks(bins, owners, whole);
    PackedCover(bins, cs, files, owners, sources, whole);
    CoverHeld(c, parts, whole, chunks, env);
  }

  lemma PackedCover(bins: F.Bins, cs: seq<P.Component>, files: map<Sum, nat>, owners: Owners,
                    sources: map<string, SourceMeta>, whole: Content)
    requires Complete(files, owners, sources) && SizesOf(cs, files, owners, sources) && SingleOwner(owners)
    requires multiset(Flatten(bins)) == multiset(cs) && whole.Keys <= Owned(owners)
    ensures Cover(OwnedContents(whole, bins, owners), map[], whole)
  {
    MappingCompletes(bins, cs, files, owners, sources, whole);
    assert OwnedContents(whole, bins, owners) == Parts(whole, Claims(bins, owners));
  }

  /** When the components own nothing else, the image can be read back exactly if no bin but the last
      is empty, or the last is not; and then it is read as it was written. */
  lemma PackedImageParses(image: Image, c: Commit, bins: F.Bins, cs: seq<P.Component>, files: map<Sum, nat>,
                          owners: Owners, sources: map<string, SourceMeta>, whole: Content,
                          chunks: seq<seq<E.ChunkItem>>, h: Hashes, env: Env)
    requires Universe(Reachable(c, env), env) && ImageOf(image, c, bins, chunks, h, env)
    requires ChunksOf(chunks, c, bins, cs, files, owners, sources, whole, env) && Owned(owners) <= whole.Keys
    ensures Parses(image.layers, image.config) <==> OneEmpty(Empties(bins, []), true)
    ensures Parses(image.layers, image.config) ==> WrittenLayout(image, 1 + |bins|)
  {
    PackedImageRead(image, c, bins, cs, files, owners, sources, whole, chunks, h, env);
    IdleIsEmpty(bins, cs, files, owners, sources, whole);
    EmptyNotes(bins);
  }

  /** Empty bins have one annotation. */
  lemma EmptyNotes(bins: F.Bins)
    requires bins != []
    ensures OneEmpty(Empties(bins, []), true) || NoteRepeated(Empties(bins, []), Notes(bins))
  {
    var empty, last := Empties(bins, []), |bins| - 1;
    if !OneEmpty(empty, true) {
      var k :| 0 <= k < last && empty[k];
      var i := First(empty, k);
      assert FirstEmpty(empty, i) && empty[last] && Notes(bins)[i] == Notes(bins)[last];
    }
  }

  lemma First(empty: seq<bool>, k: nat) returns (i: nat)
    requires k < |empty| && empty[k]
    ensures i <= k && FirstEmpty(empty, i)
  {
    i := 0;
    while !empty[i]
      invariant i <= k && forall j | 0 <= j < i :: !empty[j]
      decreases k - i
    {
      i := i + 1;
    }
  }

  // ---- what this means for a packing, before it is done ----

  /** For an image packed without a previous one: exactly if nothing had to be packed by size or
      there was room for a component in each bin. */
  lemma FirstImageParses(image: Image, c: Commit, bins: F.Bins, cs: seq<P.Component>, files: map<Sum, nat>,
                         owners: Owners, sources: map<string, SourceMeta>, whole: Content,
                         chunks: seq<seq<E.ChunkItem>>, h: Hashes, env: Env, binSize: nat, cut: nat -> nat,
                         lim: P.Limits)
    requires Universe(Reachable(c, env), env) && ImageOf(image, c, bins, chunks, h, env)
    requires ChunksOf(chunks, c, bins, cs, files, owners, sources, whole, env) && Owned(owners) <= whole.Keys
    requires K.IsCutoff(cut) && K.Packed(cs, binSize, cut, lim) == Returned(bins)
    ensures Parses(image.layers, image.config) <==> !K.NeedsPacking(cs, binSize) || M.Room(cs, binSize, cut, lim) >= 1
  {
    PackedImageParses(image, c, bins, cs, files, owners, sources, whole, chunks, h, env);
    assert cs != [] by {
      assert bins != [];
    }
    K.PackedMeaning(cs, binSize, cut, lim);
    M.OnlyReservedEmpty(cs, binSize, cut, lim, bins);
    EmptyButLast(bins);
  }

  lemma EmptyButLast(bins: F.Bins)
    requires bins != [] && bins[|bins| - 1] == []
    ensures OneEmpty(Empties(bins, []), true) <==> M.NoneEmpty(bins[..|bins| - 1])
  {
    assert forall i | 0 <= i < |bins| - 1 :: Empties(bins, [])[i] == (bins[..|bins| - 1][i] == []);
  }

  /** A package of the build is in that bin: it was there before, or it is new and the bin the last. */
  ghost predicate Fed(before: F.Bins, previous: seq<P.Component>, cs: seq<P.Component>, i: nat)
    requires i < |before|
  {
    exists n :: n in B.NameSet(cs) && (n in B.NameSet(before[i]) || (i == |before| - 1 && n !in B.NameSet(previous)))
  }

  lemma FedNotEmpty(before: F.Bins, previous: seq<P.Component>, after: F.Bins, cs: seq<P.Component>, i: nat)
    requires B.Packs(after, cs) && B.Stable(before, previous, after, cs) && B.Packs(before, previous) && i < |after|
    ensures after[i] == [] <==> !Fed(before, previous, cs, i)
  {
    B.EmptyAfterBuild(before, previous, after, cs, i);
  }

  lemma RebuiltEmpties(before: F.Bins, previous: seq<P.Component>, after: F.Bins, cs: seq<P.Component>)
    requires B.Packs(after, cs) && B.Stable(before, previous, after, cs) && B.Packs(before, previous) && after != []
    ensures OneEmpty(Empties(after, []), true) <==>
      Fed(before, previous, cs, |before| - 1) || forall i | 0 <= i < |before| - 1 :: Fed(before, previous, cs, i)
  {
    forall i | 0 <= i < |after|
      ensures Empties(after, [])[i] <==> !Fed(before, previous, cs, i)
    {
      FedNotEmpty(before, previous, after, cs, i);
    }
  }

  /** For an image built on a previous one: exactly if the last bin or all others keep or get a
      package. */
  lemma RebuiltImageParses(image: Image, c: Commit, bins: F.Bins, cs: seq<P.Component>, files: map<Sum, nat>,
                           owners: Owners, sources: map<string, SourceMeta>, whole: Content,
                           chunks: seq<seq<E.ChunkItem>>, h: Hashes, env: Env, binSize: nat, before: F.Bins,
                           previous: seq<P.Component>)
    requires Universe(Reachable(c, env), env) && ImageOf(image, c, bins, chunks, h, env)
    requires ChunksOf(chunks, c, bins, cs, files, owners, sources, whole, env) && Owned(owners) <= whole.Keys
    requires before != [] && |before| <= binSize && B.Packs(before, previous) && B.WellNamed(previous)
      && B.WellNamed(cs)
    requires B.PriorOutcome(cs, binSize, B.Manifest(before)) == Returned(bins)
    ensures |before| == |bins|
    ensures Parses(image.layers, image.config) <==>
      Fed(before, previous, cs, |before| - 1) || forall i | 0 <= i < |before| - 1 :: Fed(before, previous, cs, i)
  {
    PackedImageParses(image, c, bins, cs, files, owners, sources, whole, chunks, h, env);
    B.NextBuild(before, previous, cs, binSize);
    RebuiltEmpties(before, previous, bins, cs);
  }

  /** For example, when the only package of a bin is removed and the reserved bin is still unused. */
  lemma RemovedPackage(a: P.Component, b: P.Component, kept: P.Component, binSize: nat, before: F.Bins, after: F.Bins)
    requires B.WellNamed([a, b]) && B.WellNamed([kept]) && kept.name == b.name && binSize >= K.MIN_CHUNKED_LAYERS
    requires before == [[a], [b], []] && after == [[], [kept], []]
    ensures B.PriorOutcome([kept], binSize, B.Manifest(before)) == Returned(after)
    ensures !OneEmpty(Empties(after, []), true)
  {
    var previous := [a, b];
    assert B.Packs(before, previous) by {
      TwoPacked(a, b, before);
    }
    assert B.Names(previous)[0] != B.Names(previous)[1];
    OneRemoved(a, b, kept, binSize, before, previous);
  }

  lemma OneRemoved(a: P.Component, b: P.Component, kept: P.Component, binSize: nat, before: F.Bins,
                   previous: seq<P.Component>)
    requires before == [[a], [b], []] && previous == [a, b] && a.name != b.name == kept.name && binSize >= 3
    requires B.Packs(before, previous) && B.WellNamed(previous) && B.WellNamed([kept])
    ensures B.PriorOutcome([kept], binSize, B.Manifest(before)) == Returned([[], [kept], []])
  {
    B.NextBuild(before, previous, [kept], binSize);
    OneKept(a, b, kept, before, previous, B.PriorOutcome([kept], binSize, B.Manifest(before)).result);
  }

  lemma TwoPacked(a: P.Component, b: P.Component, bins: F.Bins)
    requires bins == [[a], [b], []]
    ensures Flatten(bins) == [a, b]
  {
    assert Singletons([a, b]) == bins[..2] && bins == bins[..2] + [[]];
    FlattenSnoc(bins[..2], []);
    FlattenSingletons([a, b]);
  }

  lemma OneKept(a: P.Component, b: P.Component, kept: P.Component, before: F.Bins, previous: seq<P.Component>,
                after: F.Bins)
    requires before == [[a], [b], []] && previous == [a, b] && a.name != b.name == kept.name
    requires B.Packs(before, previous) && B.Packs(after, [kept]) && B.Stable(before, previous, after, [kept])
    ensures after == [[], [kept], []]
  {
    assert forall n | n in B.NameSet([kept]) :: n == kept.name;
    assert b in previous && b.name in B.NameSet(previous);
    FedNotEmpty(before, previous, after, [kept], 0);
    FedNotEmpty(before, previous, after, [kept], 2);
    assert after == [[], after[1], []];
    MiddleHolds(after, after[1], kept);
  }

  lemma MiddleHolds(bins: F.Bins, bin: seq<P.Component>, x: P.Component)
    requires bins == [[], bin, []] && B.Packs(bins, [x])
    ensures bin == [x]
  {
    assert Flatten(bins) == bin by { MiddleOnly(bins, bin); }
    Sorting.SameContents(bin, [x]);
    assert bin[0] in bin;
  }

  lemma MiddleOnly(bins: F.Bins, bin: seq<P.Component>)
    requires bins == [[], bin, []]
    ensures Flatten(bins) == bin
  {
    assert bins[1..] == [bin] + [[]];
    FlattenSnoc([bin], []);
    FlattenSnoc([], bin);
    assert [] + bin == bin;
  }

  /** So the image built then cannot be read back. */
  lemma RemovedNotRead(image: Image, c: Commit, a: P.Component, b: P.Component, kept: P.Component, files: map<Sum, nat>,
                       owners: Owners, sources: map<string, SourceMeta>, whole: Content, chunks: seq<seq<E.ChunkItem>>,
                       h: Hashes, env: Env, before: F.Bins, bins: F.Bins, binSize: nat)
    requires B.WellNamed([a, b]) && B.WellNamed([kept]) && kept.name == b.name && binSize >= K.MIN_CHUNKED_LAYERS
    requires before == [[a], [b], []] && B.PriorOutcome([kept], binSize, B.Manifest(before)) == Returned(bins)
    requires Universe(Reachable(c, env), env) && ImageOf(image, c, bins, chunks, h, env)
    requires ChunksOf(chunks, c, bins, [kept], files, owners, sources, whole, env) && Owned(owners) <= whole.Keys
    ensures !Parses(image.layers, image.config)
  {
    RemovedPackage(a, b, kept, binSize, before, [[], [kept], []]);
    PackedImageParses(image, c, bins, [kept], files, owners, sources, whole, chunks, h, env);
  }
}
