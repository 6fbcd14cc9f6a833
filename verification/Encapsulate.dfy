/** A chunked commit written as layers, imported, and split into the same chunks again
    (lib/src/container/encapsulate.rs, lib/src/container/store.rs, `export_to_oci`). */
module Encapsulate {
  import opened Outcomes
  import opened Paths
  import opened Objects
  import opened ObjectPaths
  import opened Chunks
  import opened ChunkMapping
  import opened RoundTrip
  import opened Components
  import opened Folding
  import P = Partitions
  import K = Packing
  import E = TarExport
  import I = TarImport

  // ---- the walk meets exactly the files of the tree ----

  lemma {:induction false} FileOccurrencesOf(fs: seq<File>, path: Path)
    ensures forall f | f in fs :: exists o :: o in FileOccurrences(fs, path) && o.obj == f.obj
    ensures forall o | o in FileOccurrences(fs, path) :: o.obj in FilesIn(fs)
  {
    if fs != [] {
      var init, f := fs[..|fs| - 1], fs[|fs| - 1];
      FileOccurrencesOf(init, path);
      assert fs == init + [f];
      assert Occurrence(f.obj, path + [Normal(f.name)]) in FileOccurrences(fs, path);
      forall g | g in init
        ensures exists o :: o in FileOccurrences(fs, path) && o.obj == g.obj
      {
        var o :| o in FileOccurrences(init, path) && o.obj == g.obj;
        assert o in FileOccurrences(fs, path);
      }
    }
  }

  ghost predicate Meets(occ: seq<Occurrence>, files: set<FileObj>) {
    && (forall f | f in files :: exists o :: o in occ && o.obj == f)
    && forall o | o in occ :: o.obj in files
  }

  lemma MeetsBoth(a: seq<Occurrence>, b: seq<Occurrence>, x: set<FileObj>, y: set<FileObj>)
    requires Meets(a, x) && Meets(b, y)
    ensures Meets(a + b, x + y)
  {
    forall f | f in x + y
      ensures exists o :: o in a + b && o.obj == f
    {
      if f in x {
        var o :| o in a && o.obj == f;
        assert o in a + b;
      } else {
        var o :| o in b && o.obj == f;
        assert o in a + b;
      }
    }
  }

  lemma {:induction false} OccurrencesOf(t: Tree, path: Path)
    ensures Meets(Occurrences(t, path), FilesOf(t))
    decreases t, 0
  {
    FileOccurrencesOf(t.files, path);
    DirOccurrencesOf(t.dirs, path);
    MeetsBoth(FileOccurrences(t.files, path), DirOccurrences(t.dirs, path), FilesIn(t.files), FilesBelow(t.dirs));
  }

  lemma {:induction false} DirOccurrencesOf(ds: seq<Dir>, path: Path)
    ensures Meets(DirOccurrences(ds, path), FilesBelow(ds))
    decreases ds, 0
  {
    if ds != [] {
      var here := path + [Normal(ds[0].name)];
      OccurrencesOf(ds[0].tree, here);
      DirOccurrencesOf(ds[1..], path);
      MeetsBoth(Occurrences(ds[0].tree, here), DirOccurrences(ds[1..], path), FilesOf(ds[0].tree), FilesBelow(ds[1..]));
    }
  }

  /** What the collected content says about the commit. */
  ghost predicate ContentOf(m: Content, c: Commit, env: Env) {
    Records(m, Occurrences(c.root, ROOT), env)
  }

  lemma CommitNoCollision(c: Commit, env: Env)
    requires CollisionFree(FileObjects(c.root), env)
    ensures NoCollision(Occurrences(c.root, ROOT), env)
  {
    OccurrencesOf(c.root, ROOT);
    forall a, b | a in Occurrences(c.root, ROOT) && b in Occurrences(c.root, ROOT)
      && env.fileSum(a.obj) == env.fileSum(b.obj)
      ensures a.obj == b.obj
    {
      assert FileO(a.obj) in FileObjects(c.root) && FileO(b.obj) in FileObjects(c.root);
    }
  }

  /** The layer of a chunk lists each object of its content, loaded by checksum, with its paths. */
  ghost predicate Lists(items: seq<E.ChunkItem>, m: Content, c: Commit, env: Env) {
    && (forall i | i in items ::
          i.obj in FilesOf(c.root) && env.fileSum(i.obj) in m && i.paths == m[env.fileSum(i.obj)].paths)
    && forall s | s in m :: s in ItemSums(items, env)
  }

  ghost predicate ListsAll(chunks: seq<seq<E.ChunkItem>>, parts: seq<Content>, c: Commit, env: Env) {
    |chunks| == |parts| && forall i | 0 <= i < |parts| :: Lists(chunks[i], parts[i], c, env)
  }

  /** No file of the commit lies where the importer expects the repository's own objects. */
  ghost predicate ClearCommit(c: Commit) {
    forall o | o in Occurrences(c.root, ROOT) :: ClearPath(o.path)
  }

  lemma {:induction false} PathsOccur(occ: seq<Occurrence>, sum: Sum, env: Env)
    ensures forall p | p in PathsOf(occ, sum, env) :: exists o :: o in occ && o.path == p
  {
    if occ != [] {
      var init := occ[..|occ| - 1];
      PathsOccur(init, sum, env);
      assert occ == init + [occ[|occ| - 1]];
      forall p | p in PathsOf(occ, sum, env)
        ensures exists o :: o in occ && o.path == p
      {
        if p in PathsOf(init, sum, env) {
          var o :| o in init && o.path == p;
          assert o in occ;
        } else {
          assert occ[|occ| - 1].path == p;
        }
      }
    }
  }

  lemma ListedClear(items: seq<E.ChunkItem>, m: Content, whole: Content, c: Commit, env: Env)
    requires ContentOf(whole, c, env) && SubMap(m, whole) && Lists(items, m, c, env) && ClearCommit(c)
    ensures ClearItems(items) && ItemObjects(items) <= FileObjects(c.root)
  {
    forall i | i in items
      ensures forall p | p in i.paths :: ClearPath(p)
    {
      PathsOccur(Occurrences(c.root, ROOT), env.fileSum(i.obj), env);
    }
  }

  lemma ListedObject(items: seq<E.ChunkItem>, m: Content, c: Commit, f: FileObj, env: Env)
    requires Lists(items, m, c, env) && CollisionFree(FileObjects(c.root), env)
    requires f in FilesOf(c.root) && env.fileSum(f) in m
    ensures FileO(f) in ItemObjects(items)
  {
    var i :| i in items && env.fileSum(i.obj) == env.fileSum(f);
    assert FileO(i.obj) in FileObjects(c.root) && FileO(f) in FileObjects(c.root);
    assert SameKind(FileO(i.obj), FileO(f)) && env.Digest(FileO(i.obj)) == env.Digest(FileO(f));
  }

  /** A cover of the commit's content, written out, is a complete chunking. */
  lemma CoverIsComplete(c: Commit, parts: seq<Content>, rest: Content, whole: Content, chunks: seq<seq<E.ChunkItem>>,
                        remainder: seq<E.ChunkItem>, env: Env)
    requires ContentOf(whole, c, env) && Cover(parts, rest, whole) && ClearCommit(c)
    requires ListsAll(chunks, parts, c, env) && Lists(remainder, rest, c, env)
    requires CollisionFree(FileObjects(c.root), env)
    ensures CompleteChunking(c, chunks, remainder)
  {
    ListedClear(remainder, rest, whole, c, env);
    forall i | 0 <= i < |chunks|
      ensures ClearItems(chunks[i]) && ItemObjects(chunks[i]) <= FileObjects(c.root)
    {
      ListedClear(chunks[i], parts[i], whole, c, env);
    }
    forall o | o in FileObjects(c.root)
      ensures o in AllObjects(chunks) + ItemObjects(remainder)
    {
      EveryFileListed(c, parts, rest, whole, chunks, remainder, o.file, env);
    }
    forall o | o in AllObjects(chunks)
      ensures o in FileObjects(c.root)
    {
      var k, i :| k in chunks && i in k && o == FileO(i.obj);
      var n :| 0 <= n < |chunks| && chunks[n] == k;
      assert o in ItemObjects(chunks[n]);
    }
  }

  lemma EveryFileListed(c: Commit, parts: seq<Content>, rest: Content, whole: Content, chunks: seq<seq<E.ChunkItem>>,
                        remainder: seq<E.ChunkItem>, f: FileObj, env: Env)
    requires ContentOf(whole, c, env) && Cover(parts, rest, whole)
    requires ListsAll(chunks, parts, c, env) && Lists(remainder, rest, c, env)
    requires CollisionFree(FileObjects(c.root), env) && f in FilesOf(c.root)
    ensures FileO(f) in AllObjects(chunks) + ItemObjects(remainder)
  {
    OccurrencesOf(c.root, ROOT);
    var sum := env.fileSum(f);
    assert sum in whole;
    if sum in rest {
      ListedObject(remainder, rest, c, f, env);
    } else {
      var n :| 0 <= n < |parts| && sum in parts[n];
      ListedObject(chunks[n], parts[n], c, f, env);
      var i :| i in chunks[n] && FileO(f) == FileO(i.obj);
      assert chunks[n] in chunks;
    }
  }

  /** Encapsulating a commit in any chunks and importing the layers gives the commit back. */
  lemma EncapsulateRoundTrip(c: Commit, parts: seq<Content>, rest: Content, whole: Content,
                             chunks: seq<seq<E.ChunkItem>>, remainder: seq<E.ChunkItem>, repo: set<Object>,
                             detached: map<Sum, Detached>, env: Env)
    requires Universe(repo + Reachable(c, env), env) && CommitFits(c, env) && ClearCommit(c)
    requires ContentOf(whole, c, env) && Cover(parts, rest, whole)
    requires ListsAll(chunks, parts, c, env) && Lists(remainder, rest, c, env)
    ensures var r := ImportImage(repo, detached, ExportChunks(chunks, env), E.ExportFinal(c, remainder, env), env);
      && r.Ok? && r.value.mode == I.CommitMode(Some(env.commitSum(env.FlatCommit(c))))
      && repo + FileObjects(c.root) <= r.value.repo <= repo + Reachable(c, env)
      && (r.value.repo == repo + Reachable(c, env) <==> SysrootElsewhere(c, repo, env))
  {
    assert FileObjects(c.root) <= repo + Reachable(c, env);
    CoverIsComplete(c, parts, rest, whole, chunks, remainder, env);
    ChunkedRoundTrip(c, chunks, remainder, repo, detached, env);
  }

  // ---- commits with no or an empty `/sysroot` ----

  lemma {:induction false} OccurrencesBelow(t: Tree, path: Path)
    ensures forall o | o in Occurrences(t, path) :: path < o.path
    decreases t, 0
  {
    FilesAt(t.files, path);
    DirOccurrencesBelow(t.dirs, path);
  }

  lemma {:induction false} DirOccurrencesBelow(ds: seq<Dir>, path: Path)
    ensures forall o | o in DirOccurrences(ds, path) :: path < o.path
    decreases ds, 0
  {
    if ds != [] {
      OccurrencesBelow(ds[0].tree, path + [Normal(ds[0].name)]);
      DirOccurrencesBelow(ds[1..], path);
    }
  }

  lemma {:induction false} FilesAt(fs: seq<File>, path: Path)
    ensures forall o | o in FileOccurrences(fs, path) :: path < o.path && |o.path| == |path| + 1
  {
    if fs != [] {
      FilesAt(fs[..|fs| - 1], path);
    }
  }

  /** In the root, or in a directory of it other than `/sysroot`. */
  predicate OutsideSysroot(p: Path) {
    |p| >= 2 && p[0] == RootDir && (|p| > 2 ==> p[1] != Normal("sysroot"))
  }

  lemma {:induction false} DirsOutsideSysroot(ds: seq<Dir>)
    requires forall d | d in ds && d.name == "sysroot" :: d.tree == Tree([], [])
    ensures forall o | o in DirOccurrences(ds, ROOT) :: OutsideSysroot(o.path)
  {
    if ds != [] {
      var here := ROOT + [Normal(ds[0].name)];
      assert ds[0] in ds && forall d | d in ds[1..] :: d in ds;
      DirsOutsideSysroot(ds[1..]);
      OccurrencesBelow(ds[0].tree, here);
      forall o | o in Occurrences(ds[0].tree, here)
        ensures OutsideSysroot(o.path)
      {
        assert o.path[0] == here[0] && o.path[1] == here[1];
      }
    }
  }

  lemma OutsideIsClear(p: Path)
    requires OutsideSysroot(p)
    ensures ClearPath(p)
  {
    var q := p[1..];
    assert REPO[0] == Normal("sysroot") && |REPO| == 3;
    assert E.USR_ETC <= q ==> q[1..][0] == Normal("etc");
  }

  /** The paths of such a commit are never taken for the repository's own objects. */
  lemma EmptySysrootClear(c: Commit)
    requires SysrootEmpty(c)
    ensures ClearCommit(c)
  {
    FilesAt(c.root.files, ROOT);
    DirsOutsideSysroot(c.root.dirs);
    forall o | o in Occurrences(c.root, ROOT)
      ensures ClearPath(o.path)
    {
      OutsideIsClear(o.path);
    }
  }

  /** So they come back whole, if there is no `/sysroot` or an empty directory is found elsewhere. */
  lemma EmptySysrootRoundTrip(c: Commit, parts: seq<Content>, rest: Content, whole: Content,
                              chunks: seq<seq<E.ChunkItem>>, remainder: seq<E.ChunkItem>, repo: set<Object>,
                              detached: map<Sum, Detached>, env: Env)
    requires Universe(repo + Reachable(c, env), env) && CommitFits(c, env) && SysrootEmpty(c)
    requires ContentOf(whole, c, env) && Cover(parts, rest, whole)
    requires ListsAll(chunks, parts, c, env) && Lists(remainder, rest, c, env)
    ensures var r := ImportImage(repo, detached, ExportChunks(chunks, env), E.ExportFinal(c, remainder, env), env);
      && r.Ok? && r.value.mode == I.CommitMode(Some(env.commitSum(env.FlatCommit(c))))
      && (r.value.repo == repo + Reachable(c, env) <==>
            !HasSysroot(c.root.dirs) || TreeO(env.Flat(Tree([], []))) in repo + Carried(c.root, true, env))
  {
    EmptySysrootClear(c);
    EncapsulateRoundTrip(c, parts, rest, whole, chunks, remainder, repo, detached, env);
    SysrootAbsentOrEmpty(c, repo, env);
  }

  // ---- and back to chunks ----

  /** The names in the commit stored for a layer: those of the tracked set of its import. */
  ghost predicate StoredNames(names: seq<string>, layer: seq<E.ChunkItem>, repo: set<Object>, env: Env)
    requires env.Valid()
  {
    var r := I.ImportAll(NewObjectSet(repo, map[]), I.ReadAll(E.ExportChunk(layer, env)), env);
    r.Ok? && r.value.mode == I.ObjectSet(SumSet(names))
  }

  function NameSets(stored: seq<seq<string>>): (r: seq<set<Sum>>)
    ensures |r| == |stored| && forall i | 0 <= i < |stored| :: r[i] == SumSet(stored[i])
  {
    seq(|stored|, i requires 0 <= i < |stored| => SumSet(stored[i]))
  }

  lemma LayerNames(names: seq<string>, items: seq<E.ChunkItem>, m: Content, whole: Content, c: Commit,
                   repo: set<Object>, env: Env)
    requires Universe(repo + Reachable(c, env), env) && ClearCommit(c)
    requires ContentOf(whole, c, env) && SubMap(m, whole) && Lists(items, m, c, env)
    requires StoredNames(names, items, repo, env)
    ensures SumSet(names) == m.Keys && forall n | n in names :: IsSha256(n)
  {
    var u := repo + Reachable(c, env);
    ListedClear(items, m, whole, c, env);
    assert ItemObjects(items) <= u;
    ChunkLayer(items, repo, map[], u, env);
    assert ItemSums(items, env) == m.Keys;
    assert forall n | n in names :: n in SumSet(names);
  }

  /** Rebuilding chunks from the stored layers of an import gives the chunks that were written. */
  lemma ReexportRebuilds(c: Commit, parts: seq<Content>, rest: Content, whole: Content, chunks: seq<seq<E.ChunkItem>>,
                         stored: seq<seq<string>>, repos: seq<set<Object>>, env: Env)
    requires |stored| == |repos| == |parts| && ClearCommit(c)
    requires ContentOf(whole, c, env) && Cover(parts, rest, whole) && ListsAll(chunks, parts, c, env)
    requires forall i | 0 <= i < |parts| ::
      Universe(repos[i] + Reachable(c, env), env) && StoredNames(stored[i], chunks[i], repos[i], env)
    ensures forall i | 0 <= i < |stored| :: forall n | n in stored[i] :: IsSha256(n)
    ensures Parts(whole, NameSets(stored)) == parts && whole - Union(NameSets(stored)) == rest
  {
    forall i | 0 <= i < |parts|
      ensures SumSet(stored[i]) == parts[i].Keys && forall n | n in stored[i] :: IsSha256(n)
    {
      LayerNames(stored[i], chunks[i], parts[i], whole, c, repos[i], env);
    }
    assert NameSets(stored) == KeySets(parts);
    CoverRebuilt(parts, rest, whole);
  }

  /** The first `i` layers are taken. */
  ghost predicate Replayed(contents: seq<Content>, rest: Content, whole: Content, stored: seq<seq<string>>, i: nat) {
    && i <= |stored| && (forall k | 0 <= k < i :: AllSums(stored[k]))
    && contents == Parts(whole, NameSets(stored)[..i]) && rest == whole - Union(NameSets(stored)[..i])
  }

  predicate AllSums(names: seq<string>) {
    forall n | n in names :: IsSha256(n)
  }

  lemma NothingReplayed(whole: Content, stored: seq<seq<string>>)
    ensures Replayed([], whole, whole, stored, 0)
  {
    var none := NameSets(stored)[..0];
    assert Parts(whole, none) == [] && whole - Union(none) == whole;
  }

  lemma ReplayedMore(contents: seq<Content>, rest: Content, whole: Content, stored: seq<seq<string>>, i: nat)
    requires Replayed(contents, rest, whole, stored, i) && i < |stored| && AllSums(stored[i])
    ensures Replayed(contents + [Restrict(rest, SumSet(stored[i]))], rest - SumSet(stored[i]), whole, stored, i + 1)
  {
    PartsPrefix(whole, NameSets(stored), i);
  }

  lemma AllReplayed(contents: seq<Content>, rest: Content, whole: Content, stored: seq<seq<string>>)
    requires Replayed(contents, rest, whole, stored, |stored|)
    ensures contents == Parts(whole, NameSets(stored)) && rest == whole - Union(NameSets(stored))
  {
    assert NameSets(stored)[..|stored|] == NameSets(stored);
  }

  /** Starts from the stored commit and takes the layers in turn. */
  method Reexport(c: Commit, stored: seq<seq<string>>, env: Env) returns (r: Option<Chunking>, ghost whole: Content)
    requires NoCollision(Occurrences(c.root, ROOT), env)
    ensures ContentOf(whole, c, env)
    ensures r.Some? <==> forall i | 0 <= i < |stored| :: AllSums(stored[i])
    ensures r.Some? ==> r.value.Valid(whole) && r.value.Contents() == Parts(whole, NameSets(stored))
    ensures r.Some? ==> r.value.remainder.content == whole - Union(NameSets(stored))
  {
    var chunking := new Chunking(c, env);
    whole := chunking.remainder.content;
    NothingReplayed(whole, stored);
    for i := 0 to |stored|
      invariant fresh(chunking) && fresh(chunking.remainder) && chunking.Valid(whole)
      invariant Replayed(chunking.Contents(), chunking.remainder.content, whole, stored, i)
    {
      ghost var contents, rest := chunking.Contents(), chunking.remainder.content;
      var step := chunking.FromLayerCommitted(stored[i], whole);
      if step.Err? { return None, whole; }
      ReplayedMore(contents, rest, whole, stored, i);
    }
    AllReplayed(chunking.Contents(), chunking.remainder.content, whole, stored);
    return Some(chunking), whole;
  }

  // ---- the whole way ----

  /** The items of a chunk: its objects, loaded by checksum, with their paths, in some order. */
  method ListItems(m: Content, ghost whole: Content, c: Commit, env: Env) returns (items: seq<E.ChunkItem>)
    requires ContentOf(whole, c, env) && SubMap(m, whole)
    ensures Lists(items, m, c, env)
  {
    items := [];
    var todo := m.Keys;
    while todo != {}
      invariant todo <= m.Keys
      invariant forall i | i in items ::
        i.obj in FilesOf(c.root) && env.fileSum(i.obj) in m && i.paths == m[env.fileSum(i.obj)].paths
      invariant forall s | s in m && s !in todo :: s in ItemSums(items, env)
    {
      var sum :| sum in todo;
      StoredFile(whole, c, sum, env);
      var f :| f in FilesOf(c.root) && env.fileSum(f) == sum;
      SumsOfMore(items, E.ChunkItem(f, m[sum].paths), env);
      items := items + [E.ChunkItem(f, m[sum].paths)];
      todo := todo - {sum};
    }
  }

  lemma StoredFile(whole: Content, c: Commit, sum: Sum, env: Env)
    requires ContentOf(whole, c, env) && sum in whole
    ensures exists f :: f in FilesOf(c.root) && env.fileSum(f) == sum
  {
    OccurrencesOf(c.root, ROOT);
    PathsComeFrom(Occurrences(c.root, ROOT), sum, env);
  }

  /** The names under which a layer's objects are stored, in some order. */
  method ListNames(m: Content) returns (names: seq<string>)
    ensures SumSet(names) == m.Keys
  {
    names := [];
    var todo := m.Keys;
    while todo != {}
      invariant todo <= m.Keys && SumSet(names) == m.Keys - todo
    {
      var sum :| sum in todo;
      assert SumSet(names + [sum]) == SumSet(names) + {sum};
      names, todo := names + [sum], todo - {sum};
    }
  }

  method ListAll(parts: seq<Content>, ghost whole: Content, c: Commit, env: Env)
    returns (chunks: seq<seq<E.ChunkItem>>, stored: seq<seq<string>>)
    requires ContentOf(whole, c, env) && forall i | 0 <= i < |parts| :: SubMap(parts[i], whole)
    ensures ListsAll(chunks, parts, c, env)
    ensures |stored| == |parts| && forall i | 0 <= i < |parts| :: SumSet(stored[i]) == parts[i].Keys
  {
    chunks, stored := [], [];
    for i := 0 to |parts|
      invariant |chunks| == |stored| == i
      invariant forall k | 0 <= k < i :: Lists(chunks[k], parts[k], c, env) && SumSet(stored[k]) == parts[k].Keys
    {
      var items := ListItems(parts[i], whole, c, env);
      var names := ListNames(parts[i]);
      chunks, stored := chunks + [items], stored + [names];
    }
  }

  /** The repositories in which the chunk layers are imported one after another. */
  ghost function Repos(repo: set<Object>, chunks: seq<seq<E.ChunkItem>>): (r: seq<set<Object>>)
    ensures |r| == |chunks| && forall i | 0 <= i < |chunks| :: r[i] == repo + AllObjects(chunks[..i])
  {
    seq(|chunks|, i requires 0 <= i < |chunks| => repo + AllObjects(chunks[..i]))
  }

  /** The names listed for a chunk are those that its import stores. */
  lemma StoredByImport(c: Commit, parts: seq<Content>, rest: Content, whole: Content, chunks: seq<seq<E.ChunkItem>>,
                       names: seq<string>, i: nat, repo: set<Object>, env: Env)
    requires Universe(repo + Reachable(c, env), env) && ClearCommit(c) && ContentOf(whole, c, env)
    requires Cover(parts, rest, whole) && ListsAll(chunks, parts, c, env) && i < |parts|
      && SumSet(names) == parts[i].Keys
    ensures Universe(Repos(repo, chunks)[i] + Reachable(c, env), env)
    ensures StoredNames(names, chunks[i], Repos(repo, chunks)[i], env)
  {
    var before := AllObjects(chunks[..i]);
    EarlierObjects(c, parts, chunks, i, env);
    assert repo + before + Reachable(c, env) == repo + Reachable(c, env);
    ListedClear(chunks[i], parts[i], whole, c, env);
    assert ItemSums(chunks[i], env) == parts[i].Keys;
    NamesStored(chunks[i], names, repo + before, repo + Reachable(c, env), env);
  }

  lemma NamesStored(items: seq<E.ChunkItem>, names: seq<string>, repo: set<Object>, u: set<Object>, env: Env)
    requires Universe(u, env) && repo <= u && ItemObjects(items) <= u && ClearItems(items)
    requires SumSet(names) == ItemSums(items, env)
    ensures StoredNames(names, items, repo, env)
  {
    ChunkLayer(items, repo, map[], u, env);
  }

  lemma EarlierObjects(c: Commit, parts: seq<Content>, chunks: seq<seq<E.ChunkItem>>, i: nat, env: Env)
    requires ListsAll(chunks, parts, c, env) && i < |parts|
    ensures AllObjects(chunks[..i]) <= FileObjects(c.root)
  {
    forall o | o in AllObjects(chunks[..i])
      ensures o in FileObjects(c.root)
    {
      var k, item :| k in chunks[..i] && item in k && o == FileO(item.obj);
      var n :| 0 <= n < i && chunks[..i][n] == k;
      assert Lists(chunks[n], parts[n], c, env);
    }
  }

  /** What the chunks of a commit go through: written as layers, imported, and rebuilt. */
  lemma ThereAndBack(c: Commit, parts: seq<Content>, whole: Content, chunks: seq<seq<E.ChunkItem>>,
                     stored: seq<seq<string>>, repo: set<Object>, detached: map<Sum, Detached>, env: Env)
    requires Universe(repo + Reachable(c, env), env) && CommitFits(c, env) && ClearCommit(c)
    requires ContentOf(whole, c, env) && Cover(parts, map[], whole) && ListsAll(chunks, parts, c, env)
    requires |stored| == |parts| && forall i | 0 <= i < |parts| :: SumSet(stored[i]) == parts[i].Keys
    ensures var r := ImportImage(repo, detached, ExportChunks(chunks, env), E.ExportFinal(c, [], env), env);
      && r.Ok? && r.value.mode == I.CommitMode(Some(env.commitSum(env.FlatCommit(c))))
      && repo + FileObjects(c.root) <= r.value.repo <= repo + Reachable(c, env)
      && (r.value.repo == repo + Reachable(c, env) <==> SysrootElsewhere(c, repo, env))
    ensures forall i | 0 <= i < |stored| :: forall n | n in stored[i] :: IsSha256(n)
    ensures Parts(whole, NameSets(stored)) == parts && whole - Union(NameSets(stored)) == map[]
  {
    EncapsulateRoundTrip(c, parts, map[], whole, chunks, [], repo, detached, env);
    forall i | 0 <= i < |parts|
      ensures Universe(Repos(repo, chunks)[i] + Reachable(c, env), env)
        && StoredNames(stored[i], chunks[i], Repos(repo, chunks)[i], env)
    {
      StoredByImport(c, parts, map[], whole, chunks, stored[i], i, repo, env);
    }
    ReexportRebuilds(c, parts, map[], whole, chunks, stored, Repos(repo, chunks), env);
  }

  /** From a commit to chunks, to layers, to a repository, and back to the same chunks.  Whatever
      the packing, if the mapping completes then the import gives the commit back, and replaying the
      stored layers gives the chunks back. */
  method WholeWay(c: Commit, env: Env, files: map<Sum, nat>, owners: Owners, sources: map<string, SourceMeta>,
                  cs: seq<P.Component>, maxLayers: Option<nat>, prior: Prior, cut: nat -> nat, lim: P.Limits,
                  repo: set<Object>, detached: map<Sum, Detached>)
    returns (r: Outcome<Chunking>, image: Result<I.State>, again: Option<Chunking>, ghost packing: Outcome<Bins>,
             ghost whole: Content)
    requires Universe(repo + Reachable(c, env), env) && CommitFits(c, env) && ClearCommit(c)
    requires K.IsCutoff(cut) && SingleOwner(owners) && (maxLayers.Some? ==> maxLayers.value >= 1)
    requires Complete(files, owners, sources) && SizesOf(cs, files, owners, sources)
    ensures ContentOf(whole, c, env)
      && PackingOf(packing, cs, if maxLayers.Some? then maxLayers.value else MAX_CHUNKS, prior, cut, lim)
    ensures r.Error? <==> packing.Error?
    ensures r.Panic? <==> packing.Panic? || (packing.Returned? && LeavesWork(packing.result, owners, whole))
    ensures r.Returned? ==>
      && image.Ok? && image.value.mode == I.CommitMode(Some(env.commitSum(env.FlatCommit(c))))
      && repo + FileObjects(c.root) <= image.value.repo <= repo + Reachable(c, env)
      && (image.value.repo == repo + Reachable(c, env) <==> SysrootElsewhere(c, repo, env))
    ensures r.Returned? ==>
      again.Some? && again.value.Contents() == r.result.Contents() && again.value.remainder.content == map[]
  {
    image, again := Err, None;
    r, packing, whole := Chunked(c, env, files, owners, sources, cs, maxLayers, prior, cut, lim);
    if !r.Returned? { return; }
    var contents := CollectContents(r.result);
    image, again := Onward(c, env, contents, whole, repo, detached);
  }

  method Chunked(c: Commit, env: Env, files: map<Sum, nat>, owners: Owners, sources: map<string, SourceMeta>,
                 cs: seq<P.Component>, maxLayers: Option<nat>, prior: Prior, cut: nat -> nat, lim: P.Limits)
    returns (r: Outcome<Chunking>, ghost packing: Outcome<Bins>, ghost whole: Content)
    requires CollisionFree(FileObjects(c.root), env)
    requires K.IsCutoff(cut) && SingleOwner(owners) && (maxLayers.Some? ==> maxLayers.value >= 1)
    requires Complete(files, owners, sources) && SizesOf(cs, files, owners, sources)
    ensures ContentOf(whole, c, env)
      && PackingOf(packing, cs, if maxLayers.Some? then maxLayers.value else MAX_CHUNKS, prior, cut, lim)
    ensures r.Error? <==> packing.Error?
    ensures r.Panic? <==> packing.Panic? || (packing.Returned? && LeavesWork(packing.result, owners, whole))
    ensures r.Returned? ==> fresh(r.result) && r.result.Valid(whole) && r.result.remainder.content == map[]
  {
    CommitNoCollision(c, env);
    r, whole, packing := FromMapping(c, env, files, owners, sources, cs, maxLayers, prior, cut, lim);
  }

  method CollectContents(chunking: Chunking) returns (contents: seq<Content>)
    ensures contents == chunking.Contents()
  {
    contents := [];
    for i := 0 to |chunking.chunks|
      invariant contents == chunking.Contents()[..i]
    {
      contents := contents + [chunking.chunks[i].content];
    }
  }

  /** The chunks written, imported, and rebuilt. */
  method Onward(c: Commit, env: Env, contents: seq<Content>, ghost whole: Content, repo: set<Object>,
                detached: map<Sum, Detached>)
    returns (image: Result<I.State>, again: Option<Chunking>)
    requires Universe(repo + Reachable(c, env), env) && CommitFits(c, env) && ClearCommit(c)
    requires ContentOf(whole, c, env) && Cover(contents, map[], whole)
    ensures image.Ok? && image.value.mode == I.CommitMode(Some(env.commitSum(env.FlatCommit(c))))
    ensures repo + FileObjects(c.root) <= image.value.repo <= repo + Reachable(c, env)
    ensures image.value.repo == repo + Reachable(c, env) <==> SysrootElsewhere(c, repo, env)
    ensures again.Some? && again.value.Contents() == contents && again.value.remainder.content == map[]
  {
    CommitNoCollision(c, env);
    var chunks, stored := ListAll(contents, whole, c, env);
    ThereAndBack(c, contents, whole, chunks, stored, repo, detached, env);
    image := ImportImage(repo, detached, ExportChunks(chunks, env), E.ExportFinal(c, [], env), env);
    ghost var same;
    again, same := Reexport(c, stored, env);
    SameRecords(whole, same, Occurrences(c.root, ROOT), env);
  }

  /** The walk of a commit always gives the same content. */
  lemma SameRecords(a: Content, b: Content, occ: seq<Occurrence>, env: Env)
    requires Records(a, occ, env) && Records(b, occ, env)
    ensures a == b
  {
    forall s
      ensures s in a <==> s in b
      ensures s in a ==> a[s] == b[s]
    {
      if s in a {
        PathsComeFrom(occ, s, env);
      }
    }
  }
}
