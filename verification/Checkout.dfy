/** What extracting exported layers gives: the checkout of the commit (lib/src/tar/export.rs). */
module Checkout {
  import opened Outcomes
  import opened Paths
  import opened Objects
  import opened ObjectPaths
  import opened TarStream
  import opened Chunks
  import opened PathMaps
  import opened Extraction
  import opened RoundTrip
  import E = TarExport

  /** The file, with its owner, mode, and contents or target. */
  function NodeFor(f: FileObj): Node {
    match f
    case Regular(uid, gid, mode, _, data) => FileNode(uid, gid, mode, data)
    case Symlink(uid, gid, _, target) => SymlinkNode(uid, gid, target)
  }

  /** An absolute path of names. */
  predicate IsAbsolute(p: Path) {
    |p| >= 2 && p[0] == RootDir && forall i | 0 < i < |p| :: p[i].Normal?
  }

  /** Where a path of the commit is found in an archive: without the leading `/`, and with `/etc`
      instead of `/usr/etc`. */
  predicate Places(p: Path, q: Path) {
    && IsAbsolute(p)
    && ((p == [RootDir] + q && !([RootDir, Normal("usr"), Normal("etc")] <= p))
        || (p == [RootDir, Normal("usr")] + q && q != [] && q[0] == Normal("etc")))
  }

  lemma PlaceIs(p: Path)
    requires IsAbsolute(p)
    ensures Places(p, E.PathForTar(p)) && Inner(E.PathForTar(p)) == E.PathForTar(p)
    ensures forall q | Places(p, q) :: q == E.PathForTar(p)
  {
    var r := p[1..];
    assert p == [RootDir] + r && [RootDir] <= p;
    assert E.USR_ETC <= r <==> [RootDir, Normal("usr"), Normal("etc")] <= p;
    if E.USR_ETC <= r {
      assert p[1] == Normal("usr") && p == [RootDir, Normal("usr")] + r[1..];
    }
    forall q | Places(p, q)
      ensures q == E.PathForTar(p)
    {
      if p == [RootDir, Normal("usr")] + q && q != [] && q[0] == Normal("etc") {
        assert p[1] == Normal("usr") && p[2] == Normal("etc") && q == p[2..];
      } else {
        assert q == p[1..];
      }
    }
  }

  /** The part of the extracted files that is not the repository's. */
  function Outside(fs: FileSystem): FileSystem {
    map q | q in fs && !(REPO <= q) :: fs[q]
  }

  // ---- entries of the repository do not show ----

  lemma InRepoHidden(out: seq<Entry>, e: Entry)
    requires REPO <= e.path
    ensures Outside(Extract(out + [e])) == Outside(Extract(out))
  {
    assert e.path[0] == REPO[0];
    ExtractSnoc(out, e);
  }

  lemma {:induction false} AllHidden(out: seq<Entry>, more: seq<Entry>)
    requires forall e | e in more :: REPO <= e.path
    ensures Outside(Extract(out + more)) == Outside(Extract(out))
  {
    if more == [] {
      assert out + more == out;
    } else {
      var init, last := more[..|more| - 1], more[|more| - 1];
      AllHidden(out, init);
      InRepoHidden(out + init, last);
      assert out + more == out + init + [last] && last in more;
    }
  }

  // ---- the objects in the repository, as targets of hard links ----

  function ContentPath(sum: Sum): Path
    requires IsSha256(sum)
  {
    ObjectPath(sum, Suffix(FileK))
  }

  /** Each object of `u` with one of these checksums can be found under its name. */
  ghost predicate Stored(out: seq<Entry>, sums: set<Sum>, u: set<Object>, env: Env)
    requires env.Valid()
  {
    forall f | FileO(f) in u && env.fileSum(f) in sums ::
      At(Extract(out), ContentPath(env.fileSum(f))) == Some(NodeFor(f))
  }

  /** An entry elsewhere does not change what is stored. */
  lemma StillStored(out: seq<Entry>, e: Entry, sums: set<Sum>, u: set<Object>, env: Env)
    requires env.Valid() && Stored(out, sums, u, env)
    requires forall s | s in sums && IsSha256(s) :: Inner(e.path) != ContentPath(s)
    ensures Stored(out + [e], sums, u, env)
  {
    ExtractSnoc(out, e);
  }

  lemma ObjectPathShape(sum: Sum, suffix: string)
    requires IsSha256(sum)
    ensures REPO <= ObjectPath(sum, suffix) && Inner(ObjectPath(sum, suffix)) == ObjectPath(sum, suffix)
  {
    assert ObjectPath(sum, suffix)[0] == REPO[0];
  }

  /** An object file of another kind. */
  lemma OtherObjectStored(out: seq<Entry>, e: Entry, sum: Sum, suffix: string, sums: set<Sum>, u: set<Object>, env: Env)
    requires env.Valid() && Stored(out, sums, u, env) && IsSha256(sum) && '.' !in suffix && suffix != "file"
    requires e.path == ObjectPath(sum, suffix)
    ensures Stored(out + [e], sums, u, env) && Outside(Extract(out + [e])) == Outside(Extract(out))
  {
    ObjectPathShape(sum, suffix);
    InRepoHidden(out, e);
    forall s | s in sums && IsSha256(s)
      ensures Inner(e.path) != ContentPath(s)
    {
      NamesDiffer(sum, suffix, s, Suffix(FileK));
    }
    StillStored(out, e, sums, u, env);
  }

  lemma FileStored(out: seq<Entry>, f: FileObj, sums: set<Sum>, u: set<Object>, env: Env)
    requires env.Valid() && Stored(out, sums, u, env) && FileO(f) in u && CollisionFree(u, env)
    ensures var out' := out + [E.FileEntry(env.fileSum(f), f)];
      Stored(out', sums + {env.fileSum(f)}, u, env) && Outside(Extract(out')) == Outside(Extract(out))
  {
    var sum := env.fileSum(f);
    var e := E.FileEntry(sum, f);
    ObjectPathShape(sum, Suffix(FileK));
    InRepoHidden(out, e);
    ExtractSnoc(out, e);
    forall g | FileO(g) in u && env.fileSum(g) in sums + {sum}
      ensures At(Extract(out + [e]), ContentPath(env.fileSum(g))) == Some(NodeFor(g))
    {
      if env.fileSum(g) == sum {
        assert SameKind(FileO(g), FileO(f)) && env.Digest(FileO(g)) == env.Digest(FileO(f));
      } else {
        NamesDiffer(env.fileSum(g), Suffix(FileK), sum, Suffix(FileK));
      }
    }
  }

  /** Writing an object adds it to those stored and shows nothing. */
  lemma ContentStored(w: E.State, f: FileObj, u: set<Object>, env: Env)
    requires env.Valid() && Stored(w.out, w.content, u, env) && FileO(f) in u && CollisionFree(u, env)
    ensures var w' := E.AppendContent(w, f, env);
      && Stored(w'.out, w'.content, u, env) && env.fileSum(f) in w'.content
      && Outside(Extract(w'.out)) == Outside(Extract(w.out))
  {
    var sum, x := env.fileSum(f), env.xattrSum(f.xattrs);
    if sum !in w.content {
      var out := w.out;
      if x !in w.xattrs {
        OtherObjectStored(out, DefaultData(ObjectPath(x, XATTRS), f.xattrs), x, XATTRS, w.content, u, env);
        out := out + [DefaultData(ObjectPath(x, XATTRS), f.xattrs)];
      }
      var link := DefaultLink(ObjectPath(sum, XATTRS_LINK), ObjectPath(x, XATTRS));
      OtherObjectStored(out, link, sum, XATTRS_LINK, w.content, u, env);
      FileStored(out + [link], f, w.content, u, env);
    }
  }

  // ---- hard links ----

  lemma LinkShows(out: seq<Entry>, f: FileObj, p: Path, sums: set<Sum>, u: set<Object>, env: Env)
    requires env.Valid() && Stored(out, sums, u, env) && FileO(f) in u && env.fileSum(f) in sums
    requires IsAbsolute(p) && ClearPath(p)
    ensures var out', q := out + [E.HardlinkEntry(f, E.PathForTar(p), env)], E.PathForTar(p);
      Stored(out', sums, u, env) && Outside(Extract(out')) == Outside(Extract(out))[q := NodeFor(f)]
  {
    var e, q := E.HardlinkEntry(f, E.PathForTar(p), env), E.PathForTar(p);
    PlaceIs(p);
    ObjectPathShape(env.fileSum(f), Suffix(FileK));
    ExtractSnoc(out, e);
    forall s | s in sums && IsSha256(s)
      ensures Inner(e.path) != ContentPath(s)
    {
      ObjectPathShape(s, Suffix(FileK));
    }
    StillStored(out, e, sums, u, env);
    assert Extract(out + [e]) == Extract(out)[q := NodeFor(f)];
  }

  function Linked(fs: FileSystem, f: FileObj, paths: seq<Path>): FileSystem {
    if paths == [] then fs
    else Linked(fs, f, paths[..|paths| - 1])[E.PathForTar(paths[|paths| - 1]) := NodeFor(f)]
  }

  ghost predicate AllAbsolute(items: seq<E.ChunkItem>) {
    forall i | i in items :: forall p | p in i.paths :: IsAbsolute(p)
  }

  lemma {:induction false} LinksShow(w: E.State, f: FileObj, paths: seq<Path>, u: set<Object>, env: Env)
    requires env.Valid() && Stored(w.out, w.content, u, env) && FileO(f) in u && env.fileSum(f) in w.content
    requires forall p | p in paths :: IsAbsolute(p) && ClearPath(p)
    ensures var w' := E.AppendHardlinks(w, f, paths, env);
      && w'.content == w.content && Stored(w'.out, w.content, u, env)
      && Outside(Extract(w'.out)) == Linked(Outside(Extract(w.out)), f, paths)
  {
    if paths != [] {
      var init, last := paths[..|paths| - 1], paths[|paths| - 1];
      LinksShow(w, f, init, u, env);
      assert last in paths;
      LinkShows(E.AppendHardlinks(w, f, init, env).out, f, last, w.content, u, env);
    }
  }

  function Shown(fs: FileSystem, items: seq<E.ChunkItem>): FileSystem {
    if items == [] then fs
    else
      var last := items[|items| - 1];
      Linked(Shown(fs, items[..|items| - 1]), last.obj, last.paths)
  }

  lemma {:induction false} ItemsShow(w: E.State, items: seq<E.ChunkItem>, u: set<Object>, env: Env)
    requires env.Valid() && CollisionFree(u, env) && Stored(w.out, w.content, u, env)
    requires ItemObjects(items) <= u && ClearItems(items) && AllAbsolute(items)
    ensures var w' := E.WriteChunk(w, items, env);
      Stored(w'.out, w'.content, u, env) && Outside(Extract(w'.out)) == Shown(Outside(Extract(w.out)), items)
  {
    if items != [] {
      var init, last := items[..|items| - 1], items[|items| - 1];
      assert items == init + [last] && last in items && FileO(last.obj) in ItemObjects(items);
      assert ItemObjects(init) <= ItemObjects(items);
      ItemsShow(w, init, u, env);
      var w1 := E.WriteChunk(w, init, env);
      ContentStored(w1, last.obj, u, env);
      LinksShow(E.AppendContent(w1, last.obj, env), last.obj, last.paths, u, env);
    }
  }

  // ---- in terms of the items alone ----

  /** Some item has a path that is found at `q`. */
  ghost predicate Placed(items: seq<E.ChunkItem>, q: Path) {
    exists i, p :: 0 <= i < |items| && p in items[i].paths && Places(p, q)
  }

  ghost predicate PlacedAs(items: seq<E.ChunkItem>, q: Path, f: FileObj) {
    exists i, p :: 0 <= i < |items| && p in items[i].paths && Places(p, q) && items[i].obj == f
  }

  /** No two different files are found at one place. */
  ghost predicate Consistent(items: seq<E.ChunkItem>) {
    forall q, f, g | PlacedAs(items, q, f) && PlacedAs(items, q, g) :: f == g
  }

  lemma {:induction false} LinkedAt(fs: FileSystem, f: FileObj, paths: seq<Path>, q: Path)
    requires forall p | p in paths :: IsAbsolute(p)
    ensures At(Linked(fs, f, paths), q) == if exists p | p in paths :: Places(p, q) then Some(NodeFor(f)) else At(fs, q)
  {
    if paths != [] {
      var init, last := paths[..|paths| - 1], paths[|paths| - 1];
      LinkedAt(fs, f, init, q);
      PlaceIs(last);
      assert paths == init + [last] && last in paths;
      assert q == E.PathForTar(last) <==> Places(last, q);
    }
  }

  /** What is shown at a place is the file placed there. */
  lemma {:induction false} ShownAt(fs: FileSystem, items: seq<E.ChunkItem>, q: Path)
    requires AllAbsolute(items) && Consistent(items)
    ensures forall f | PlacedAs(items, q, f) :: At(Shown(fs, items), q) == Some(NodeFor(f))
    ensures !Placed(items, q) ==> At(Shown(fs, items), q) == At(fs, q)
  {
    if items != [] {
      var init, last := items[..|items| - 1], items[|items| - 1];
      assert items == init + [last] && last in items;
      PlacedMore(init, last);
      ShownAt(fs, init, q);
      LinkedAt(Shown(fs, init), last.obj, last.paths, q);
      if p :| p in last.paths && Places(p, q) {
        assert PlacedAs(items, q, last.obj);
      }
      forall f | PlacedAs(items, q, f)
        ensures At(Shown(fs, items), q) == Some(NodeFor(f))
      {
        var i, p :| 0 <= i < |items| && p in items[i].paths && Places(p, q) && items[i].obj == f;
        assert i < |init| ==> init[i] == items[i] && PlacedAs(init, q, f);
      }
    }
  }

  lemma PlacedMore(init: seq<E.ChunkItem>, last: E.ChunkItem)
    ensures forall q, f | PlacedAs(init, q, f) :: PlacedAs(init + [last], q, f)
    ensures forall q | Placed(init, q) :: Placed(init + [last], q)
    ensures Consistent(init + [last]) ==> Consistent(init)
  {
    var items := init + [last];
    forall q, f | PlacedAs(init, q, f)
      ensures PlacedAs(items, q, f)
    {
      var i, p :| 0 <= i < |init| && p in init[i].paths && Places(p, q) && init[i].obj == f;
      assert items[i] == init[i];
    }
    forall q | Placed(init, q)
      ensures Placed(items, q)
    {
      var i, p :| 0 <= i < |init| && p in init[i].paths && Places(p, q);
      assert items[i] == init[i];
    }
  }

  // ---- a chunk layer ----

  const SYSROOT: Path := [Normal("sysroot")]
  const SYSROOT_OSTREE: Path := [Normal("sysroot"), Normal("ostree")]

  const DEFAULT_DIRECTORY := Directory(0, 0, 0x1ED)

  /** Every layer brings the two directories above the repository. */
  function WithParents(fs: FileSystem): FileSystem {
    fs[SYSROOT := DEFAULT_DIRECTORY][SYSROOT_OSTREE := DEFAULT_DIRECTORY]
  }

  lemma StructureParts(first: Entry, second: Entry) returns (rest: seq<Entry>)
    requires first == DefaultDir(SYSROOT) && second == DefaultDir(SYSROOT_OSTREE)
    ensures E.RepoStructure() == [first, second] + rest && forall e | e in rest :: REPO <= e.path
  {
    assert E.OBJECTS[..1] == SYSROOT && E.OBJECTS[..2] == SYSROOT_OSTREE && E.OBJECTS[..3] == REPO;
    assert E.ParentDirs() == [first, second, DefaultDir(E.OBJECTS[..3]), DefaultDir(E.OBJECTS[..4])];
    rest := [DefaultDir(E.OBJECTS[..3]), DefaultDir(E.OBJECTS[..4])] + E.HashDirs() + E.OtherDirs() + [E.ConfigEntry()];
    assert forall e | e in E.HashDirs() :: REPO <= e.path;
    assert forall e | e in E.OtherDirs() :: REPO <= e.path;
  }

  lemma DirShows(out: seq<Entry>, e: Entry)
    requires e.body.DirB? && !(REPO <= Inner(e.path))
    ensures Outside(Extract(out + [e])) == Outside(Extract(out))[Inner(e.path) := Directory(e.uid, e.gid, e.mode)]
  {
    ExtractSnoc(out, e);
  }

  lemma TwoDirsShow(out: seq<Entry>, first: Entry, second: Entry, rest: seq<Entry>)
    requires first == DefaultDir(SYSROOT) && second == DefaultDir(SYSROOT_OSTREE)
    requires forall e | e in rest :: REPO <= e.path
    ensures Outside(Extract(out + [first] + [second] + rest)) == WithParents(Outside(Extract(out)))
  {
    assert |REPO| == 3 && Inner(SYSROOT) == SYSROOT && Inner(SYSROOT_OSTREE) == SYSROOT_OSTREE;
    DirShows(out, first);
    DirShows(out + [first], second);
    AllHidden(out + [first] + [second], rest);
  }

  lemma StructureShows(out: seq<Entry>)
    ensures Outside(Extract(out + E.RepoStructure())) == WithParents(Outside(Extract(out)))
  {
    var first, second := DefaultDir(SYSROOT), DefaultDir(SYSROOT_OSTREE);
    var rest := StructureParts(first, second);
    TwoDirsShow(out, first, second, rest);
    InFour(out, first, second, rest);
  }

  lemma InFour(out: seq<Entry>, first: Entry, second: Entry, rest: seq<Entry>)
    ensures out + ([first, second] + rest) == out + [first] + [second] + rest
  {
  }

  lemma PlacedOutside(items: seq<E.ChunkItem>, q: Path)
    requires ClearItems(items) && AllAbsolute(items) && Placed(items, q)
    ensures !(REPO <= q)
  {
    var i, p :| 0 <= i < |items| && p in items[i].paths && Places(p, q);
    assert items[i] in items;
    PlaceIs(p);
  }

  lemma OutsideAt(fs: FileSystem, q: Path)
    requires !(REPO <= q)
    ensures At(Outside(fs), q) == At(fs, q)
  {
  }

  /** Outside the repository, a chunk layer extracts to the files of the chunk at their places, and
      nothing else but the two directories above the repository. */
  lemma ChunkCheckout(items: seq<E.ChunkItem>, u: set<Object>, env: Env)
    requires env.Valid() && CollisionFree(u, env) && ItemObjects(items) <= u
    requires ClearItems(items) && AllAbsolute(items) && Consistent(items)
    ensures forall q, f | PlacedAs(items, q, f) :: At(Extract(E.ExportChunk(items, env)), q) == Some(NodeFor(f))
    ensures forall q | !(REPO <= q) && !Placed(items, q) ::
      At(Extract(E.ExportChunk(items, env)), q)
        == if q == SYSROOT || q == SYSROOT_OSTREE then Some(DEFAULT_DIRECTORY) else None
  {
    var w := E.WriteStructure(E.START);
    assert w.out == [] + E.RepoStructure() && w.content == {};
    StructureShows([]);
    ItemsShow(w, items, u, env);
    var fs, base := Extract(E.ExportChunk(items, env)), WithParents(map[]);
    assert Outside(map[]) == map[] && Outside(fs) == Shown(base, items);
    forall q, f | PlacedAs(items, q, f)
      ensures At(fs, q) == Some(NodeFor(f))
    {
      assert Placed(items, q);
      PlacedOutside(items, q);
      OutsideAt(fs, q);
      ShownAt(base, items, q);
    }
    forall q | !(REPO <= q) && !Placed(items, q)
      ensures At(fs, q) == if q == SYSROOT || q == SYSROOT_OSTREE then Some(DEFAULT_DIRECTORY) else None
    {
      OutsideAt(fs, q);
      ShownAt(base, items, q);
    }
  }

  // ---- the directories of a commit ----

  datatype DirAt = DirAt(path: Path, meta: DirMeta)

  /** The directories that are written, in order, with their paths. */
  function DirsBelow(ds: seq<Dir>, path: Path, isRoot: bool): seq<DirAt>
    decreases ds
  {
    if ds == [] then []
    else
      var here := path + [Normal(ds[0].name)];
      (if isRoot && ds[0].name == "sysroot" then []
       else [DirAt(here, ds[0].meta)] + DirsBelow(ds[0].tree.dirs, here, false))
      + DirsBelow(ds[1..], path, isRoot)
  }

  /** Following these names leads to a directory. */
  predicate LeadsToDir(ds: seq<Dir>, names: Path, m: DirMeta)
    decreases |names|
  {
    && names != []
    && exists d | d in ds ::
         && names[0] == Normal(d.name)
         && if |names| == 1 then d.meta == m else LeadsToDir(d.tree.dirs, names[1..], m)
  }

  /** All directories are written, apart from those at and below `/sysroot`. */
  lemma {:induction false} DirWritten(ds: seq<Dir>, path: Path, isRoot: bool, d: DirAt)
    ensures d in DirsBelow(ds, path, isRoot) <==>
      && path < d.path && LeadsToDir(ds, d.path[|path|..], d.meta)
      && !(isRoot && d.path[|path|] == Normal("sysroot"))
    decreases ds
  {
    if ds != [] {
      var here := path + [Normal(ds[0].name)];
      DirWritten(ds[0].tree.dirs, here, false, d);
      DirWritten(ds[1..], path, isRoot, d);
      assert ds == [ds[0]] + ds[1..];
      OneDir(ds[0], path, d);
      if path < d.path {
        LeadsEither(ds[0], ds[1..], d.path[|path|..], d.meta);
        assert d.path == path + d.path[|path|..];
        assert d.path[|path|] == d.path[|path|..][0];
      }
    }
  }

  lemma LeadsEither(d: Dir, ds: seq<Dir>, names: Path, m: DirMeta)
    ensures LeadsToDir([d] + ds, names, m) <==> LeadsToDir([d], names, m) || LeadsToDir(ds, names, m)
  {
  }

  /** A directory, or below it. */
  lemma OneDir(x: Dir, path: Path, d: DirAt)
    ensures var here := path + [Normal(x.name)];
      (path < d.path && LeadsToDir([x], d.path[|path|..], d.meta)) <==>
        d == DirAt(here, x.meta) || (here < d.path && LeadsToDir(x.tree.dirs, d.path[|here|..], d.meta))
  {
    var here := path + [Normal(x.name)];
    if path < d.path {
      var names := d.path[|path|..];
      assert d.path == path + names;
      assert d.path[|here|..] == names[1..];
      assert here <= d.path <==> names[0] == Normal(x.name);
      assert |names| == 1 && names[0] == Normal(x.name) ==> d.path == here;
    }
  }

  function Made(fs: FileSystem, ds: seq<DirAt>): FileSystem {
    if ds == [] then fs
    else
      var d := ds[|ds| - 1];
      Made(fs, ds[..|ds| - 1])[E.PathForTar(d.path) := Directory(d.meta.uid, d.meta.gid, d.meta.mode)]
  }

  lemma {:induction false} MadeConcat(fs: FileSystem, a: seq<DirAt>, b: seq<DirAt>)
    ensures Made(fs, a + b) == Made(Made(fs, a), b)
  {
    if b == [] {
      assert a + b == a;
    } else {
      MadeConcat(fs, a, b[..|b| - 1]);
      assert (a + b)[..|a + b| - 1] == a + b[..|b| - 1];
    }
  }

  /** An absolute path, or the root, that does not lead into `/sysroot`. */
  predicate IsWalked(p: Path) {
    p == [RootDir] || (IsAbsolute(p) && p[1] != Normal("sysroot"))
  }

  /** The path with which the walk visits a directory. */
  function Visited(p: Path): Path {
    [CurDir] + if p == [RootDir] then [] else E.PathForTar(p)
  }

  lemma VisitedBelow(p: Path, name: string)
    requires IsWalked(p) && (p == [RootDir] ==> name != "sysroot")
    ensures IsWalked(p + [Normal(name)]) && E.MapPath(Visited(p) + [Normal(name)]) == Visited(p + [Normal(name)])
    ensures !(REPO <= E.PathForTar(p + [Normal(name)]))
  {
    var here := p + [Normal(name)];
    var r := here[1..];
    assert [RootDir] <= here && E.PathForTar(here) == E.MapPathV1(r);
    assert r[0] != Normal("sysroot") == REPO[0];
    if p != [RootDir] {
      assert r == p[1..] + [Normal(name)] && E.PathForTar(p) == E.MapPathV1(p[1..]);
    }
    MapBelow(if p == [RootDir] then [] else p[1..], name);
  }

  lemma MapBelow(r: Path, name: string)
    ensures E.MapPath([CurDir] + E.MapPathV1(r) + [Normal(name)]) == [CurDir] + E.MapPathV1(r + [Normal(name)])
  {
    var x := r + [Normal(name)];
    if E.USR_ETC <= r {
      assert x[1..] == r[1..] + [Normal(name)];
      assert ([CurDir] + r[1..] + [Normal(name)])[1] == Normal("etc");
    } else if E.USR_ETC <= x {
      var p := [CurDir] + r + [Normal(name)];
      assert p == [CurDir] + x && [CurDir] + E.USR_ETC <= p && p[3..] == x[2..];
      assert x[1..] == [Normal("etc")] + x[2..];
    } else {
      var p := [CurDir] + r + [Normal(name)];
      assert p == [CurDir] + x && p[1..] == x;
      assert !([CurDir] + E.USR_ETC <= p);
    }
  }

  lemma MetaHidden(w: E.State, m: DirMeta, env: Env)
    requires env.Valid()
    ensures Outside(Extract(E.AppendMetaObj(w, m, env).out)) == Outside(Extract(w.out))
  {
    ObjectPathShape(env.metaSum(m), Suffix(DirMetaK));
    InRepoHidden(w.out, DefaultData(ObjectPath(env.metaSum(m), Suffix(DirMetaK)), env.encMeta(m)));
  }

  lemma TreeHidden(w: E.State, t: TreeObj, env: Env)
    requires env.Valid()
    ensures Outside(Extract(E.AppendTreeObj(w, t, env).out)) == Outside(Extract(w.out))
  {
    ObjectPathShape(env.treeSum(t), Suffix(DirTreeK));
    InRepoHidden(w.out, DefaultData(ObjectPath(env.treeSum(t), Suffix(DirTreeK)), env.encTree(t)));
  }

  lemma {:induction false} TreeShows(w: E.State, p: Path, t: Tree, isRoot: bool, env: Env)
    requires env.Valid() && IsWalked(p) && (isRoot <==> p == [RootDir])
    ensures var w' := E.AppendDirtree(w, Visited(p), t, isRoot, env);
      w'.content == w.content && Outside(Extract(w'.out)) == Made(Outside(Extract(w.out)), DirsBelow(t.dirs, p, isRoot))
    decreases t, 1
  {
    TreeHidden(w, env.Flat(t), env);
    var w1 := E.AppendTreeObj(w, env.Flat(t), env);
    var w2 := if Visited(p) == [Normal("var"), Normal("tmp")] then w1.(varTmp := true) else w1;
    DirsShow(w2, p, t.dirs, isRoot, env);
  }

  lemma {:induction false} DirsShow(w: E.State, p: Path, ds: seq<Dir>, isRoot: bool, env: Env)
    requires env.Valid() && IsWalked(p) && (isRoot <==> p == [RootDir])
    ensures var w' := E.AppendDirs(w, Visited(p), ds, isRoot, env);
      w'.content == w.content && Outside(Extract(w'.out)) == Made(Outside(Extract(w.out)), DirsBelow(ds, p, isRoot))
    decreases ds, 0
  {
    if ds != [] {
      var d := ds[0];
      MetaHidden(w, d.meta, env);
      var w1 := E.AppendMetaObj(w, d.meta, env);
      if isRoot && d.name == "sysroot" {
        DirsShow(w1, p, ds[1..], isRoot, env);
        assert [] + DirsBelow(ds[1..], p, isRoot) == DirsBelow(ds[1..], p, isRoot);
      } else {
        var here := p + [Normal(d.name)];
        VisitedBelow(p, d.name);
        var w2 := E.AppendDirEntry(w1, Visited(here), d.meta);
        DirEntryShows(w1.out, here, d.meta);
        TreeShows(w2, here, d.tree, false, env);
        var w3 := E.AppendDirtree(w2, Visited(here), d.tree, false, env);
        DirsShow(w3, p, ds[1..], isRoot, env);
        ThreeMade(Outside(Extract(w.out)), DirAt(here, d.meta), DirsBelow(d.tree.dirs, here, false),
                  DirsBelow(ds[1..], p, isRoot));
      }
    }
  }

  lemma DirEntryShows(out: seq<Entry>, here: Path, m: DirMeta)
    requires here != [RootDir] && !(REPO <= E.PathForTar(here))
    ensures var e := Entry(Visited(here), m.uid, m.gid, m.mode, 0, DirB);
      Outside(Extract(out + [e])) == Outside(Extract(out))[E.PathForTar(here) := Directory(m.uid, m.gid, m.mode)]
  {
    var e := Entry(Visited(here), m.uid, m.gid, m.mode, 0, DirB);
    assert Inner(e.path) == E.PathForTar(here);
    DirShows(out, e);
  }

  lemma ThreeMade(fs: FileSystem, d: DirAt, below: seq<DirAt>, more: seq<DirAt>)
    ensures var dir := Directory(d.meta.uid, d.meta.gid, d.meta.mode);
      Made(Made(fs[E.PathForTar(d.path) := dir], below), more) == Made(fs, [d] + below + more)
  {
    MadeConcat(fs, [d], below);
    MadeConcat(fs, [d] + below, more);
    assert [d][..0] == [];
  }

  // ---- the final layer ----

  /** A directory of the commit, not at or below `/sysroot`, is found there. */
  ghost predicate DirPlaced(c: Commit, q: Path, m: DirMeta) {
    exists p :: Places(p, q) && p[1] != Normal("sysroot") && LeadsToDir(c.root.dirs, p[1..], m)
  }

  /** No two directories that differ are found at one place. */
  ghost predicate DirsConsistent(c: Commit) {
    forall q, m, n | DirPlaced(c, q, m) && DirPlaced(c, q, n) :: m == n
  }

  lemma WalkedDirs(c: Commit, d: DirAt)
    requires d in DirsBelow(c.root.dirs, [RootDir], true)
    ensures IsAbsolute(d.path) && d.path[1] != Normal("sysroot") && LeadsToDir(c.root.dirs, d.path[1..], d.meta)
  {
    DirWritten(c.root.dirs, [RootDir], true, d);
    NamesOnly(c.root.dirs, d.path[1..], d.meta);
    assert forall i | 0 < i < |d.path| :: d.path[i] == d.path[1..][i - 1];
  }

  lemma {:induction false} NamesOnly(ds: seq<Dir>, names: Path, m: DirMeta)
    requires LeadsToDir(ds, names, m)
    ensures names != [] && forall i | 0 <= i < |names| :: names[i].Normal?
    decreases |names|
  {
    if |names| > 1 {
      var d :| d in ds && names[0] == Normal(d.name) && LeadsToDir(d.tree.dirs, names[1..], m);
      NamesOnly(d.tree.dirs, names[1..], m);
      assert forall i | 0 < i < |names| :: names[i] == names[1..][i - 1];
    }
  }

  /** A directory is found at its place whatever others are made. */
  lemma {:induction false} MadeAt(fs: FileSystem, c: Commit, ds: seq<DirAt>, q: Path, m: DirMeta)
    requires DirsConsistent(c) && forall d | d in ds :: d in DirsBelow(c.root.dirs, [RootDir], true)
    requires exists d | d in ds :: Places(d.path, q) && d.meta == m
    ensures At(Made(fs, ds), q) == Some(Directory(m.uid, m.gid, m.mode))
  {
    var init, last := ds[..|ds| - 1], ds[|ds| - 1];
    assert ds == init + [last] && last in ds;
    var d :| d in ds && Places(d.path, q) && d.meta == m;
    MadeLast(fs, c, init, last, q);
    if Places(last.path, q) {
      SameMeta(c, d, last, q);
    } else {
      assert d in init;
      MadeAt(fs, c, init, q, m);
    }
  }

  lemma MadeLast(fs: FileSystem, c: Commit, init: seq<DirAt>, last: DirAt, q: Path)
    requires last in DirsBelow(c.root.dirs, [RootDir], true)
    ensures At(Made(fs, init + [last]), q)
      == if Places(last.path, q) then Some(Directory(last.meta.uid, last.meta.gid, last.meta.mode))
         else At(Made(fs, init), q)
  {
    assert (init + [last])[..|init|] == init;
    WalkedDirs(c, last);
    PlaceIs(last.path);
  }

  lemma SameMeta(c: Commit, d: DirAt, e: DirAt, q: Path)
    requires DirsConsistent(c) && Places(d.path, q) && Places(e.path, q)
    requires d in DirsBelow(c.root.dirs, [RootDir], true) && e in DirsBelow(c.root.dirs, [RootDir], true)
    ensures d.meta == e.meta
  {
    WalkedDirs(c, d);
    WalkedDirs(c, e);
    assert DirPlaced(c, q, d.meta) && DirPlaced(c, q, e.meta);
  }

  lemma {:induction false} NotMadeAt(fs: FileSystem, c: Commit, ds: seq<DirAt>, q: Path)
    requires forall d | d in ds :: d in DirsBelow(c.root.dirs, [RootDir], true) && !Places(d.path, q)
    ensures At(Made(fs, ds), q) == At(fs, q)
  {
    if ds != [] {
      var init, last := ds[..|ds| - 1], ds[|ds| - 1];
      assert ds == init + [last] && last in ds;
      NotMadeAt(fs, c, init, q);
      WalkedDirs(c, last);
      PlaceIs(last.path);
    }
  }

  const VAR_TMP: Path := [Normal("var"), Normal("tmp")]

  const VAR_TMP_DIRECTORY := Directory(0, 0, 0x3FF)

  /** What a final layer shows apart from its files. */
  function FinalBase(c: Commit): FileSystem {
    var root := map[[] := Directory(c.meta.uid, c.meta.gid, c.meta.mode)];
    Made(WithParents(root), DirsBelow(c.root.dirs, [RootDir], true))[VAR_TMP := VAR_TMP_DIRECTORY]
  }

  lemma HeadShows(c: Commit, rootDir: Entry, env: Env)
    requires env.Valid() && rootDir == Entry([CurDir], c.meta.uid, c.meta.gid, c.meta.mode, 0, DirB)
    ensures AfterRoot(c, env).content == {}
    ensures Outside(Extract(AfterRoot(c, env).out))
      == WithParents(map[[] := Directory(c.meta.uid, c.meta.gid, c.meta.mode)])
  {
    var w1 := E.WriteStructure(E.AppendDirEntry(E.START, [CurDir], c.meta));
    assert w1.out == [rootDir] + E.RepoStructure();
    RootShows(rootDir);
    StructureShows([rootDir]);
    CommitHidden(w1, c, env);
    MetaHidden(E.AppendCommitObj(w1, c, env), c.meta, env);
  }

  lemma CommitShows(c: Commit, env: Env)
    requires env.Valid()
    ensures E.WriteCommit(E.START, c, env).content == {}
    ensures Outside(Extract(E.WriteCommit(E.START, c, env).out)) == FinalBase(c)
  {
    var w := AfterRoot(c, env);
    HeadShows(c, Entry([CurDir], c.meta.uid, c.meta.gid, c.meta.mode, 0, DirB), env);
    TreeShows(w, [RootDir], c.root, true, env);
    assert Visited([RootDir]) == [CurDir];
    VarTmpShows(w, E.AppendDirtree(w, [CurDir], c.root, true, env), c, env);
  }

  lemma VarTmpShows(w: E.State, w': E.State, c: Commit, env: Env)
    requires env.Valid() && w' == E.AppendDirtree(w, [CurDir], c.root, true, env) && !w.varTmp
    ensures E.AppendStandardVar(w').content == w'.content
    ensures Outside(Extract(E.AppendStandardVar(w').out)) == Outside(Extract(w'.out))[VAR_TMP := VAR_TMP_DIRECTORY]
  {
    E.VarTmpUnseen(w, [CurDir], c.root, true, env);
    DirShows(w'.out, Entry(VAR_TMP, 0, 0, 0x3FF, 0, DirB));
  }

  lemma RootShows(e: Entry)
    requires e.path == [CurDir] && e.body.DirB?
    ensures Outside(Extract([e])) == map[[] := Directory(e.uid, e.gid, e.mode)]
  {
    DirShows([], e);
    assert [] + [e] == [e] && Outside(map[]) == map[] && Inner(e.path) == [] && |REPO| == 3;
  }

  lemma CommitHidden(w: E.State, c: Commit, env: Env)
    requires env.Valid()
    ensures Outside(Extract(E.AppendCommitObj(w, c, env).out)) == Outside(Extract(w.out))
  {
    var sum := env.commitSum(env.FlatCommit(c));
    ObjectPathShape(sum, Suffix(CommitK));
    ObjectPathShape(sum, Suffix(CommitMetaK));
    InRepoHidden(w.out, E.CommitEntry(c, env));
    if c.detached.Some? {
      InRepoHidden(w.out + [E.CommitEntry(c, env)], E.DetachedEntry(sum, c.detached.value, env));
    }
  }

  /** What is found where no file is: `/var/tmp`, the commit's directories, the root, and the two
      directories above the repository. */
  ghost predicate BaseAt(c: Commit, q: Path, found: Option<Node>) {
    if q == VAR_TMP then found == Some(VAR_TMP_DIRECTORY)
    else if exists m :: DirPlaced(c, q, m) then
      exists m :: DirPlaced(c, q, m) && found == Some(Directory(m.uid, m.gid, m.mode))
    else if q == [] then found == Some(Directory(c.meta.uid, c.meta.gid, c.meta.mode))
    else found == if q == SYSROOT || q == SYSROOT_OSTREE then Some(DEFAULT_DIRECTORY) else None
  }

  lemma FinalBaseAt(c: Commit, q: Path)
    requires DirsConsistent(c)
    ensures BaseAt(c, q, At(FinalBase(c), q))
  {
    var root := map[[] := Directory(c.meta.uid, c.meta.gid, c.meta.mode)];
    if m :| DirPlaced(c, q, m) {
      PlacedMade(WithParents(root), c, q, m);
    } else {
      NothingMade(WithParents(root), c, q);
    }
  }

  lemma PlacedMade(fs: FileSystem, c: Commit, q: Path, m: DirMeta)
    requires DirsConsistent(c) && DirPlaced(c, q, m)
    ensures At(Made(fs, DirsBelow(c.root.dirs, [RootDir], true)), q) == Some(Directory(m.uid, m.gid, m.mode))
  {
    var p :| Places(p, q) && p[1] != Normal("sysroot") && LeadsToDir(c.root.dirs, p[1..], m);
    DirWritten(c.root.dirs, [RootDir], true, DirAt(p, m));
    assert [RootDir] < p;
    MadeAt(fs, c, DirsBelow(c.root.dirs, [RootDir], true), q, m);
  }

  lemma NothingMade(fs: FileSystem, c: Commit, q: Path)
    requires forall m :: !DirPlaced(c, q, m)
    ensures At(Made(fs, DirsBelow(c.root.dirs, [RootDir], true)), q) == At(fs, q)
  {
    var ds := DirsBelow(c.root.dirs, [RootDir], true);
    forall d | d in ds
      ensures !Places(d.path, q)
    {
      WalkedDirs(c, d);
      assert Places(d.path, q) ==> DirPlaced(c, q, d.meta);
    }
    NotMadeAt(fs, c, ds, q);
  }

  /** Outside the repository, the final layer extracts to the directories of the commit and the
      remaining files, each at its place. */
  lemma FinalCheckout(c: Commit, remainder: seq<E.ChunkItem>, u: set<Object>, env: Env)
    requires env.Valid() && CollisionFree(u, env) && ItemObjects(remainder) <= u && DirsConsistent(c)
    requires ClearItems(remainder) && AllAbsolute(remainder) && Consistent(remainder)
    ensures forall q, f | PlacedAs(remainder, q, f) ::
      At(Extract(E.ExportFinal(c, remainder, env)), q) == Some(NodeFor(f))
    ensures forall q | !(REPO <= q) && !Placed(remainder, q) ::
      BaseAt(c, q, At(Extract(E.ExportFinal(c, remainder, env)), q))
  {
    var w, fs := E.WriteCommit(E.START, c, env), Extract(E.ExportFinal(c, remainder, env));
    CommitShows(c, env);
    ItemsShow(w, remainder, u, env);
    forall q, f | PlacedAs(remainder, q, f)
      ensures At(fs, q) == Some(NodeFor(f))
    {
      assert Placed(remainder, q);
      PlacedOutside(remainder, q);
      OutsideAt(fs, q);
      ShownAt(FinalBase(c), remainder, q);
    }
    forall q | !(REPO <= q) && !Placed(remainder, q)
      ensures BaseAt(c, q, At(fs, q))
    {
      OutsideAt(fs, q);
      ShownAt(FinalBase(c), remainder, q);
      FinalBaseAt(c, q);
    }
  }
}
