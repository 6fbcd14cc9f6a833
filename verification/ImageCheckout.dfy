/** What extracting all layers of a chunked image gives: every file and directory of the commit at its
    own place (lib/src/tar/export.rs, lib/src/container/encapsulate.rs). */
module ImageCheckout {
  import opened Outcomes
  import opened Seqs
  import opened Paths
  import opened Objects
  import opened ObjectPaths
  import opened TarStream
  import opened Chunks
  import opened ChunkMapping
  import opened PathMaps
  import opened Extraction
  import opened RoundTrip
  import opened Encapsulate
  import opened Checkout
  import E = TarExport

  // ---- one layer after another ----

  /** A chunk layer on top of what was extracted before. */
  lemma ChunkOnTop(pre: seq<Entry>, items: seq<E.ChunkItem>, u: set<Object>, env: Env)
    requires env.Valid() && CollisionFree(u, env) && ItemObjects(items) <= u && ClearItems(items) && AllAbsolute(items)
    ensures Outside(Extract(pre + E.ExportChunk(items, env))) == Shown(WithParents(Outside(Extract(pre))), items)
  {
    var w := E.WriteStructure(E.START);
    var w' := E.Shift(w, pre);
    assert w.out == E.RepoStructure() && w'.content == {};
    StructureShows(pre);
    ItemsShow(w', items, u, env);
    E.ChunkShift(w, pre, items, env);
  }

  /** The final layer, then the chunk layers. */
  function Stream(c: Commit, remainder: seq<E.ChunkItem>, chunks: seq<seq<E.ChunkItem>>, env: Env): seq<Entry>
    requires env.Valid()
  {
    if chunks == [] then E.ExportFinal(c, remainder, env)
    else Stream(c, remainder, chunks[..|chunks| - 1], env) + E.ExportChunk(chunks[|chunks| - 1], env)
  }

  /** All items of the image. */
  function AllItems(remainder: seq<E.ChunkItem>, chunks: seq<seq<E.ChunkItem>>): seq<E.ChunkItem> {
    if chunks == [] then remainder else AllItems(remainder, chunks[..|chunks| - 1]) + chunks[|chunks| - 1]
  }

  ghost predicate Extractable(items: seq<E.ChunkItem>, u: set<Object>) {
    && ItemObjects(items) <= u && ClearItems(items) && AllAbsolute(items) && Consistent(items)
    && !Placed(items, SYSROOT) && !Placed(items, SYSROOT_OSTREE)
  }

  lemma PlacedEither(a: seq<E.ChunkItem>, b: seq<E.ChunkItem>, q: Path, f: FileObj)
    ensures PlacedAs(a + b, q, f) <==> PlacedAs(a, q, f) || PlacedAs(b, q, f)
  {
    var items := a + b;
    if PlacedAs(a, q, f) {
      var i, p :| 0 <= i < |a| && p in a[i].paths && Places(p, q) && a[i].obj == f;
      assert items[i] == a[i];
    }
    if PlacedAs(b, q, f) {
      var i, p :| 0 <= i < |b| && p in b[i].paths && Places(p, q) && b[i].obj == f;
      assert items[|a| + i] == b[i];
    }
    if PlacedAs(items, q, f) {
      var i, p :| 0 <= i < |items| && p in items[i].paths && Places(p, q) && items[i].obj == f;
      if i < |a| {
        assert a[i] == items[i];
      } else {
        assert b[i - |a|] == items[i];
      }
    }
  }

  lemma PlacedIsAs(items: seq<E.ChunkItem>, q: Path)
    ensures Placed(items, q) <==> exists f :: PlacedAs(items, q, f)
  {
    if Placed(items, q) {
      var i, p :| 0 <= i < |items| && p in items[i].paths && Places(p, q);
      assert PlacedAs(items, q, items[i].obj);
    }
  }

  lemma ExtractableParts(a: seq<E.ChunkItem>, b: seq<E.ChunkItem>, u: set<Object>)
    requires Extractable(a + b, u)
    ensures Extractable(a, u) && Extractable(b, u)
  {
    assert forall i | i in a :: i in a + b;
    assert forall i | i in b :: i in a + b;
    forall q, f | PlacedAs(a, q, f) || PlacedAs(b, q, f)
      ensures PlacedAs(a + b, q, f)
    {
      PlacedEither(a, b, q, f);
    }
    PlacedIsAs(a, SYSROOT);
    PlacedIsAs(b, SYSROOT);
    PlacedIsAs(a + b, SYSROOT);
    PlacedIsAs(a, SYSROOT_OSTREE);
    PlacedIsAs(b, SYSROOT_OSTREE);
    PlacedIsAs(a + b, SYSROOT_OSTREE);
  }

  /** What is found at `q` once these items are extracted. */
  ghost predicate FoundAt(c: Commit, items: seq<E.ChunkItem>, q: Path, found: Option<Node>) {
    && (forall f | PlacedAs(items, q, f) :: found == Some(NodeFor(f)))
    && (!Placed(items, q) ==> BaseAt(c, q, found))
  }

  lemma NoDirAtSysroot(c: Commit, q: Path, m: DirMeta)
    requires q == SYSROOT || q == SYSROOT_OSTREE
    ensures !DirPlaced(c, q, m)
  {
    forall p | Places(p, q)
      ensures p[1] == Normal("sysroot")
    {
      assert q[0] != Normal("etc");
      assert ([RootDir] + q)[1] == q[0];
    }
  }

  lemma FoundOnTop(c: Commit, before: seq<E.ChunkItem>, items: seq<E.ChunkItem>, fs: FileSystem, q: Path,
                   u: set<Object>)
    requires Extractable(before + items, u) && FoundAt(c, before, q, At(fs, q))
    ensures FoundAt(c, before + items, q, At(Shown(WithParents(fs), items), q))
  {
    ExtractableParts(before, items, u);
    ShownAt(WithParents(fs), items, q);
    PlacedIsAs(before, q);
    PlacedIsAs(items, q);
    PlacedIsAs(before + items, q);
    forall f
      ensures PlacedAs(before + items, q, f) <==> PlacedAs(before, q, f) || PlacedAs(items, q, f)
    {
      PlacedEither(before, items, q, f);
    }
    if q == SYSROOT || q == SYSROOT_OSTREE {
      forall m
        ensures !DirPlaced(c, q, m)
      {
        NoDirAtSysroot(c, q, m);
      }
    } else {
      assert At(WithParents(fs), q) == At(fs, q);
    }
  }

  /** Outside the repository, the layers of an image extract to all their files and to the directories
      of the commit, each at its place. */
  lemma {:induction false} ImageExtracts(c: Commit, remainder: seq<E.ChunkItem>, chunks: seq<seq<E.ChunkItem>>, q: Path,
                                         u: set<Object>, env: Env)
    requires env.Valid() && CollisionFree(u, env) && DirsConsistent(c) && !(REPO <= q)
    requires Extractable(AllItems(remainder, chunks), u)
    ensures FoundAt(c, AllItems(remainder, chunks), q, At(Outside(Extract(Stream(c, remainder, chunks, env))), q))
  {
    if chunks == [] {
      FinalCheckout(c, remainder, u, env);
      PlacedIsAs(remainder, q);
    } else {
      var init, last := chunks[..|chunks| - 1], chunks[|chunks| - 1];
      var before := AllItems(remainder, init);
      ExtractableParts(before, last, u);
      ImageExtracts(c, remainder, init, q, u, env);
      ChunkOnTop(Stream(c, remainder, init, env), last, u, env);
      FoundOnTop(c, before, last, Outside(Extract(Stream(c, remainder, init, env))), q, u);
    }
  }

  // ---- from the commit to its layers ----

  /** A file of the commit is found there. */
  ghost predicate FilePlaced(c: Commit, q: Path, f: FileObj) {
    exists p :: Places(p, q) && Leads(c.root, p[1..], f)
  }

  ghost predicate FilesConsistent(c: Commit) {
    forall q, f, g | FilePlaced(c, q, f) && FilePlaced(c, q, g) :: f == g
  }

  /** No file lies where the repository or a directory above it is. */
  ghost predicate BesideRepo(c: Commit) {
    forall q, f | FilePlaced(c, q, f) :: !(REPO <= q) && q != SYSROOT && q != SYSROOT_OSTREE
  }

  lemma {:induction false} LeadsByNames(t: Tree, names: Path, f: FileObj)
    requires Leads(t, names, f)
    ensures names != [] && forall i | 0 <= i < |names| :: names[i].Normal?
    decreases |names|
  {
    if LeadsThrough(t.dirs, names, f) {
      var d :| d in t.dirs && names[0] == Normal(d.name) && Leads(d.tree, names[1..], f);
      LeadsByNames(d.tree, names[1..], f);
      assert forall i | 0 < i < |names| :: names[i] == names[1..][i - 1];
    }
  }

  /** The occurrences of a commit are its files with the paths that lead to them. */
  lemma CommitOccurrence(c: Commit, o: Occurrence)
    ensures o in Occurrences(c.root, ROOT) <==> [RootDir] < o.path && Leads(c.root, o.path[1..], o.obj)
    ensures o in Occurrences(c.root, ROOT) ==> IsAbsolute(o.path)
  {
    OccurrenceLeads(c.root, ROOT, o);
    if o in Occurrences(c.root, ROOT) {
      LeadsByNames(c.root, o.path[1..], o.obj);
      assert forall i | 0 < i < |o.path| :: o.path[i] == o.path[1..][i - 1];
    }
  }

  lemma {:induction false} PathsMembers(occ: seq<Occurrence>, sum: Sum, p: Path, env: Env)
    ensures p in PathsOf(occ, sum, env) <==> exists o | o in occ :: o.path == p && env.fileSum(o.obj) == sum
  {
    if occ != [] {
      var init, last := occ[..|occ| - 1], occ[|occ| - 1];
      PathsMembers(init, sum, p, env);
      assert occ == init + [last];
      if o :| o in occ && o.path == p && env.fileSum(o.obj) == sum {
        assert o in init || o == last;
      }
    }
  }

  /** An item of a layer names the places of its object in the commit, all of them. */
  lemma ItemPaths(items: seq<E.ChunkItem>, m: Content, whole: Content, c: Commit, i: E.ChunkItem, p: Path, env: Env)
    requires CollisionFree(FileObjects(c.root), env) && ContentOf(whole, c, env)
    requires SubMap(m, whole) && Lists(items, m, c, env) && i in items
    ensures p in i.paths <==> [RootDir] < p && Leads(c.root, p[1..], i.obj)
  {
    var occ, sum := Occurrences(c.root, ROOT), env.fileSum(i.obj);
    assert i.paths == PathsOf(occ, sum, env);
    PathsMembers(occ, sum, p, env);
    CommitOccurrence(c, Occurrence(i.obj, p));
    if o :| o in occ && o.path == p && env.fileSum(o.obj) == sum {
      OccurrencesOf(c.root, ROOT);
      SameFile(c, o.obj, i.obj, env);
      assert o == Occurrence(i.obj, p);
    }
  }

  lemma SameFile(c: Commit, f: FileObj, g: FileObj, env: Env)
    requires CollisionFree(FileObjects(c.root), env) && f in FilesOf(c.root) && g in FilesOf(c.root)
    requires env.fileSum(f) == env.fileSum(g)
    ensures f == g
  {
    assert FileO(f) in FileObjects(c.root) && FileO(g) in FileObjects(c.root);
    assert SameKind(FileO(f), FileO(g)) && env.Digest(FileO(f)) == env.Digest(FileO(g));
  }

  lemma ItemPlaced(items: seq<E.ChunkItem>, m: Content, whole: Content, c: Commit, q: Path, f: FileObj, env: Env)
    requires CollisionFree(FileObjects(c.root), env) && ContentOf(whole, c, env)
    requires SubMap(m, whole) && Lists(items, m, c, env)
    ensures PlacedAs(items, q, f) ==> FilePlaced(c, q, f)
    ensures FilePlaced(c, q, f) && f in FilesOf(c.root) && env.fileSum(f) in m ==> PlacedAs(items, q, f)
  {
    if PlacedAs(items, q, f) {
      var k, p :| 0 <= k < |items| && p in items[k].paths && Places(p, q) && items[k].obj == f;
      ItemPaths(items, m, whole, c, items[k], p, env);
    }
    if FilePlaced(c, q, f) && f in FilesOf(c.root) && env.fileSum(f) in m {
      var p :| Places(p, q) && Leads(c.root, p[1..], f);
      var i :| i in items && env.fileSum(i.obj) == env.fileSum(f);
      SameFile(c, i.obj, f, env);
      ItemPaths(items, m, whole, c, i, p, env);
      var k :| 0 <= k < |items| && items[k] == i;
    }
  }

  lemma PlacedFile(c: Commit, q: Path, f: FileObj, env: Env)
    requires FilePlaced(c, q, f)
    ensures f in FilesOf(c.root) && exists o | o in Occurrences(c.root, ROOT) :: o.obj == f
  {
    var p :| Places(p, q) && Leads(c.root, p[1..], f);
    CommitOccurrence(c, Occurrence(f, p));
    OccurrencesOf(c.root, ROOT);
  }

  ghost predicate InSome(parts: seq<Content>, rest: Content, sum: Sum) {
    sum in rest || exists i :: 0 <= i < |parts| && sum in parts[i]
  }

  lemma InSomeInit(parts: seq<Content>, rest: Content, sum: Sum, n: nat)
    requires |parts| == n + 1
    ensures InSome(parts, rest, sum) <==> InSome(parts[..n], rest, sum) || sum in parts[n]
  {
    if i :| 0 <= i < |parts| && sum in parts[i] {
      assert i < n ==> parts[..n][i] == parts[i];
    }
    if i :| 0 <= i < n && sum in parts[..n][i] {
      assert parts[..n][i] == parts[i];
    }
  }

  /** The layers show files of the commit, and all of those in some part. */
  lemma {:induction false} AllPlaced(c: Commit, parts: seq<Content>, rest: Content, whole: Content,
                                     chunks: seq<seq<E.ChunkItem>>, remainder: seq<E.ChunkItem>, q: Path, f: FileObj,
                                     env: Env)
    requires CollisionFree(FileObjects(c.root), env) && ContentOf(whole, c, env)
    requires SubMap(rest, whole) && (forall i | 0 <= i < |parts| :: SubMap(parts[i], whole))
    requires ListsAll(chunks, parts, c, env) && Lists(remainder, rest, c, env)
    ensures PlacedAs(AllItems(remainder, chunks), q, f) ==> FilePlaced(c, q, f)
    ensures FilePlaced(c, q, f) && InSome(parts, rest, env.fileSum(f)) ==> PlacedAs(AllItems(remainder, chunks), q, f)
    decreases |chunks|
  {
    if FilePlaced(c, q, f) {
      PlacedFile(c, q, f, env);
    }
    if chunks == [] {
      ItemPlaced(remainder, rest, whole, c, q, f, env);
    } else {
      var n := |chunks| - 1;
      AllPlaced(c, parts[..n], rest, whole, chunks[..n], remainder, q, f, env);
      InSomeInit(parts, rest, env.fileSum(f), n);
      LastPlaced(c, parts[n], whole, AllItems(remainder, chunks[..n]), chunks[n], q, f, env);
    }
  }

  lemma LastPlaced(c: Commit, part: Content, whole: Content, before: seq<E.ChunkItem>, last: seq<E.ChunkItem>, q: Path,
                   f: FileObj, env: Env)
    requires CollisionFree(FileObjects(c.root), env) && ContentOf(whole, c, env)
    requires SubMap(part, whole) && Lists(last, part, c, env)
    requires PlacedAs(before, q, f) ==> FilePlaced(c, q, f)
    ensures PlacedAs(before, q, f) ==> PlacedAs(before + last, q, f)
    ensures PlacedAs(before + last, q, f) ==> FilePlaced(c, q, f)
    ensures FilePlaced(c, q, f) && f in FilesOf(c.root) && env.fileSum(f) in part ==> PlacedAs(before + last, q, f)
  {
    ItemPlaced(last, part, whole, c, q, f, env);
    PlacedEither(before, last, q, f);
  }

  lemma CoverPlaced(c: Commit, parts: seq<Content>, rest: Content, whole: Content, chunks: seq<seq<E.ChunkItem>>,
                    remainder: seq<E.ChunkItem>, q: Path, f: FileObj, env: Env)
    requires CollisionFree(FileObjects(c.root), env) && ContentOf(whole, c, env) && Cover(parts, rest, whole)
    requires ListsAll(chunks, parts, c, env) && Lists(remainder, rest, c, env)
    ensures PlacedAs(AllItems(remainder, chunks), q, f) <==> FilePlaced(c, q, f)
  {
    AllPlaced(c, parts, rest, whole, chunks, remainder, q, f, env);
    if FilePlaced(c, q, f) {
      PlacedFile(c, q, f, env);
      assert env.fileSum(f) in whole;
    }
  }

  /** The items of a layer can be extracted. */
  lemma ItemsClear(items: seq<E.ChunkItem>, m: Content, whole: Content, c: Commit, env: Env)
    requires CollisionFree(FileObjects(c.root), env) && ContentOf(whole, c, env) && BesideRepo(c)
    requires SubMap(m, whole) && Lists(items, m, c, env)
    ensures ItemObjects(items) <= FileObjects(c.root) && ClearItems(items) && AllAbsolute(items)
  {
    forall i, p | i in items && p in i.paths
      ensures IsAbsolute(p) && ClearPath(p)
    {
      ItemPaths(items, m, whole, c, i, p, env);
      CommitOccurrence(c, Occurrence(i.obj, p));
      PlaceIs(p);
      assert FilePlaced(c, E.PathForTar(p), i.obj);
    }
  }

  lemma ClearBoth(a: seq<E.ChunkItem>, b: seq<E.ChunkItem>, u: set<Object>)
    requires ItemObjects(a) <= u && ClearItems(a) && AllAbsolute(a)
    requires ItemObjects(b) <= u && ClearItems(b) && AllAbsolute(b)
    ensures ItemObjects(a + b) <= u && ClearItems(a + b) && AllAbsolute(a + b)
  {
  }

  lemma {:induction false} AllClear(c: Commit, parts: seq<Content>, rest: Content, whole: Content,
                                    chunks: seq<seq<E.ChunkItem>>, remainder: seq<E.ChunkItem>, env: Env)
    requires CollisionFree(FileObjects(c.root), env) && ContentOf(whole, c, env) && BesideRepo(c)
    requires SubMap(rest, whole) && (forall i | 0 <= i < |parts| :: SubMap(parts[i], whole))
    requires ListsAll(chunks, parts, c, env) && Lists(remainder, rest, c, env)
    ensures var items := AllItems(remainder, chunks);
      ItemObjects(items) <= FileObjects(c.root) && ClearItems(items) && AllAbsolute(items)
    decreases |chunks|
  {
    if chunks == [] {
      ItemsClear(remainder, rest, whole, c, env);
    } else {
      var n := |chunks| - 1;
      AllClear(c, parts[..n], rest, whole, chunks[..n], remainder, env);
      ItemsClear(chunks[n], parts[n], whole, c, env);
      ClearBoth(AllItems(remainder, chunks[..n]), chunks[n], FileObjects(c.root));
    }
  }

  lemma CoverExtractable(c: Commit, parts: seq<Content>, rest: Content, whole: Content, chunks: seq<seq<E.ChunkItem>>,
                         remainder: seq<E.ChunkItem>, env: Env)
    requires CollisionFree(FileObjects(c.root), env) && ContentOf(whole, c, env) && Cover(parts, rest, whole)
    requires ListsAll(chunks, parts, c, env) && Lists(remainder, rest, c, env)
    requires BesideRepo(c) && FilesConsistent(c)
    ensures Extractable(AllItems(remainder, chunks), FileObjects(c.root))
  {
    var items := AllItems(remainder, chunks);
    AllClear(c, parts, rest, whole, chunks, remainder, env);
    forall q, f
      ensures PlacedAs(items, q, f) <==> FilePlaced(c, q, f)
    {
      CoverPlaced(c, parts, rest, whole, chunks, remainder, q, f, env);
    }
    PlacedIsAs(items, SYSROOT);
    PlacedIsAs(items, SYSROOT_OSTREE);
  }

  /** Extracting all layers of a complete chunking gives the commit: outside the repository, every file
      is found at its place, with its owner, mode and contents, and where there is no file there are
      the commit's directories. */
  lemma CommitCheckout(c: Commit, parts: seq<Content>, rest: Content, whole: Content, chunks: seq<seq<E.ChunkItem>>,
                       remainder: seq<E.ChunkItem>, q: Path, env: Env)
    requires env.Valid() && CollisionFree(FileObjects(c.root), env)
    requires ContentOf(whole, c, env) && Cover(parts, rest, whole)
    requires ListsAll(chunks, parts, c, env) && Lists(remainder, rest, c, env)
    requires BesideRepo(c) && FilesConsistent(c) && DirsConsistent(c) && !(REPO <= q)
    ensures var found := At(Extract(Stream(c, remainder, chunks, env)), q);
      && (forall f | FilePlaced(c, q, f) :: found == Some(NodeFor(f)))
      && ((forall f :: !FilePlaced(c, q, f)) ==> BaseAt(c, q, found))
  {
    var items := AllItems(remainder, chunks);
    CoverExtractable(c, parts, rest, whole, chunks, remainder, env);
    ImageExtracts(c, remainder, chunks, q, FileObjects(c.root), env);
    OutsideAt(Extract(Stream(c, remainder, chunks, env)), q);
    forall f
      ensures PlacedAs(items, q, f) <==> FilePlaced(c, q, f)
    {
      CoverPlaced(c, parts, rest, whole, chunks, remainder, q, f, env);
    }
    PlacedIsAs(items, q);
  }

  // ---- commits for which the places are distinct ----

  /** Within each directory names are used once. */
  ghost predicate UniqueNames(t: Tree)
    decreases t, 1
  {
    && (forall x, y | x in t.files && y in t.files && x.name == y.name :: x == y)
    && (forall x, y | x in t.dirs && y in t.dirs && x.name == y.name :: x == y)
    && (forall x, d | x in t.files && d in t.dirs :: x.name != d.name)
    && UniqueBelow(t.dirs)
  }

  ghost predicate UniqueBelow(ds: seq<Dir>)
    decreases ds, 0
  {
    forall d | d in ds :: UniqueNames(d.tree)
  }

  lemma {:induction false} LeadsOnce(t: Tree, names: Path, f: FileObj, g: FileObj)
    requires UniqueNames(t) && Leads(t, names, f) && Leads(t, names, g)
    ensures f == g
    decreases |names|
  {
    if |names| > 1 {
      var d :| d in t.dirs && names[0] == Normal(d.name) && Leads(d.tree, names[1..], f);
      LeadsOnce(d.tree, names[1..], f, g);
    }
  }

  lemma {:induction false} DirLeadsOnce(t: Tree, names: Path, m: DirMeta, n: DirMeta)
    requires UniqueNames(t) && LeadsToDir(t.dirs, names, m) && LeadsToDir(t.dirs, names, n)
    ensures m == n
    decreases |names|
  {
    if |names| > 1 {
      var d :| d in t.dirs && names[0] == Normal(d.name) && LeadsToDir(d.tree.dirs, names[1..], m);
      DirLeadsOnce(d.tree, names[1..], m, n);
    }
  }

  /** As commits are made for images: configuration is in `/usr/etc` only, and `/sysroot` is a
      directory without anything in it, if there is one. */
  ghost predicate IsImageCommit(c: Commit) {
    && UniqueNames(c.root) && SysrootEmpty(c)
    && (forall x | x in c.root.files :: x.name != "etc" && x.name != "sysroot")
    && forall d | d in c.root.dirs :: d.name != "etc"
  }

  lemma OnePlace(p: Path, r: Path, q: Path)
    requires Places(p, q) && Places(r, q) && p[1] != Normal("etc") && r[1] != Normal("etc")
    ensures p == r
  {
    assert q != [] && q[0] != Normal("etc") ==> p == [RootDir] + q == r;
    if q[0] == Normal("etc") {
      assert ([RootDir] + q)[1] == q[0];
    }
  }

  lemma FileTop(c: Commit, p: Path, f: FileObj)
    requires IsImageCommit(c) && |p| >= 2 && Leads(c.root, p[1..], f)
    ensures p[1] != Normal("etc") && p[1] != Normal("sysroot")
  {
    var names := p[1..];
    assert names[0] == p[1];
    if LeadsThrough(c.root.dirs, names, f) {
      var d :| d in c.root.dirs && names[0] == Normal(d.name) && Leads(d.tree, names[1..], f);
      assert !Leads(Tree([], []), names[1..], f);
    }
  }

  lemma DirTop(c: Commit, p: Path, m: DirMeta)
    requires IsImageCommit(c) && |p| >= 2 && LeadsToDir(c.root.dirs, p[1..], m)
    ensures p[1] != Normal("etc")
  {
    assert p[1..][0] == p[1];
  }

  /** For such a commit no two files and no two directories share a place, and none is where the
      repository is. */
  lemma ImageCommitPlaces(c: Commit)
    requires IsImageCommit(c)
    ensures FilesConsistent(c) && DirsConsistent(c) && BesideRepo(c)
  {
    forall q, f, g | FilePlaced(c, q, f) && FilePlaced(c, q, g)
      ensures f == g
    {
      var p :| Places(p, q) && Leads(c.root, p[1..], f);
      var r :| Places(r, q) && Leads(c.root, r[1..], g);
      FileTop(c, p, f);
      FileTop(c, r, g);
      OnePlace(p, r, q);
      LeadsOnce(c.root, p[1..], f, g);
    }
    forall q, m, n | DirPlaced(c, q, m) && DirPlaced(c, q, n)
      ensures m == n
    {
      var p :| Places(p, q) && p[1] != Normal("sysroot") && LeadsToDir(c.root.dirs, p[1..], m);
      var r :| Places(r, q) && r[1] != Normal("sysroot") && LeadsToDir(c.root.dirs, r[1..], n);
      DirTop(c, p, m);
      DirTop(c, r, n);
      OnePlace(p, r, q);
      DirLeadsOnce(c.root, p[1..], m, n);
    }
    forall q, f | FilePlaced(c, q, f)
      ensures !(REPO <= q) && q != SYSROOT && q != SYSROOT_OSTREE
    {
      var p :| Places(p, q) && Leads(c.root, p[1..], f);
      FileTop(c, p, f);
      assert q != [] && q[0] != Normal("sysroot") by {
        assert p == [RootDir] + q ==> p[1] == q[0];
      }
    }
  }
}
