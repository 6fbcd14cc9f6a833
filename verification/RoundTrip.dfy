/** A chunked image imports to exactly the commit that was exported. */
module RoundTrip {
  import opened Outcomes
  import opened Paths
  import opened Objects
  import opened ObjectPaths
  import opened TarStream
  import E = TarExport
  import I = TarImport

  // ---- entries read back as what they were written for ----

  lemma ObjectEntry(e: Entry, sum: Sum, suffix: string)
    requires IsSha256(sum) && '.' !in suffix && !e.body.DirB? && e.path == ObjectPath(sum, suffix)
    ensures I.FilterEntry(e) == Some(InRepo(sum, suffix))
    ensures I.ReadEntry(e) == I.ObjectItem(e, InRepo(sum, suffix)[1..])
    ensures ParseObject(InRepo(sum, suffix)[1..]) == Ok((sum, suffix))
    ensures ParseObject(InRepo(sum, suffix)) == Ok((sum, suffix))
  {
    var p := InRepo(sum, suffix);
    var name := sum[2..] + "." + suffix;
    assert Strip(e.path, REPO) == Some(p) by { assert e.path[3..] == p; }
    assert name[62] == '.' && name != "config";
    assert p[0] == Normal("objects") != Normal("refs");
    ParsePrinted(sum, suffix);
  }

  predicate IsDirKind(k: ObjKind) { k == DirTreeK || k == DirMetaK }

  lemma DirObjectItem(e: Entry, p: Path, sum: Sum, k: ObjKind)
    requires IsDirKind(k) && ParseObject(p) == Ok((sum, Suffix(k)))
    ensures I.ObjectItem(e, p) == I.MetaI(sum, k, e.body)
  {
    SuffixKind(k);
  }

  lemma DirEntryReads(e: Entry, sum: Sum, k: ObjKind)
    requires IsDirKind(k) && IsSha256(sum) && e.path == ObjectPath(sum, Suffix(k)) && !e.body.DirB?
    ensures I.ReadEntry(e) == I.MetaI(sum, k, e.body)
    ensures I.SecondItem(e) == I.MetaI(sum, k, e.body)
  {
    SuffixKind(k);
    ObjectEntry(e, sum, Suffix(k));
    DirObjectItem(e, InRepo(sum, Suffix(k))[1..], sum, k);
    DirObjectItem(e, InRepo(sum, Suffix(k)), sum, k);
  }

  lemma XattrsEntryReads(x: Sum, data: Bytes)
    requires IsSha256(x)
    ensures I.ReadEntry(DefaultData(ObjectPath(x, XATTRS), data)) == I.XattrsI(x, RegB(data))
  {
    ObjectEntry(DefaultData(ObjectPath(x, XATTRS), data), x, XATTRS);
  }

  lemma LinkEntryReads(sum: Sum, x: Sum)
    requires IsSha256(sum) && IsSha256(x)
    ensures I.ReadEntry(DefaultLink(ObjectPath(sum, XATTRS_LINK), ObjectPath(x, XATTRS))) == I.LinkI(sum, x)
  {
    var e := DefaultLink(ObjectPath(sum, XATTRS_LINK), ObjectPath(x, XATTRS));
    ObjectEntry(e, sum, XATTRS_LINK);
    ParsePrinted(x, XATTRS);
    assert I.LinkItem(sum, e.body) == I.LinkI(sum, x);
  }

  lemma FileEntryHolds(sum: Sum, f: FileObj)
    requires IsSha256(sum)
    ensures I.ObjectOf(E.FileEntry(sum, f), f.xattrs) == Ok(f)
  {
  }

  lemma FileEntryReads(sum: Sum, f: FileObj)
    requires IsSha256(sum)
    ensures I.ReadEntry(E.FileEntry(sum, f)) == I.FileI(sum, E.FileEntry(sum, f))
  {
    var e := E.FileEntry(sum, f);
    ObjectEntry(e, sum, Suffix(FileK));
    FileObjectItem(e, InRepo(sum, Suffix(FileK))[1..], sum);
  }

  lemma FileObjectItem(e: Entry, p: Path, sum: Sum)
    requires ParseObject(p) == Ok((sum, Suffix(FileK)))
    ensures I.ObjectItem(e, p) == I.FileI(sum, e)
  {
    assert |Suffix(FileK)| == 4 && |"commit"| == 6;
  }

  lemma NamedEntryReads(e: Entry, sum: Sum, k: ObjKind)
    requires IsSha256(sum) && e.path == ObjectPath(sum, Suffix(k)) && !e.body.DirB?
    ensures I.FilterEntry(e).Some? && I.MetadataName(e) == Ok((sum, k))
  {
    SuffixKind(k);
    ObjectEntry(e, sum, Suffix(k));
    ParsePrintedKind(sum, k);
  }

  // ---- the importer follows the writer ----

  /** What the importer makes of the stream written after the prefix `pre`. */
  ghost function Imported(w: E.State, pre: seq<Entry>, st0: I.State, env: Env): Result<I.State>
    requires pre <= w.out
  {
    I.ImportAll(st0, I.ReadAll(w.out[|pre|..]), env)
  }

  ghost function Then(r: Result<I.State>, item: I.Item, env: Env): Result<I.State> {
    if r.Ok? then I.ImportItem(r.value, item, env) else Err
  }

  lemma PutStep(w: E.State, pre: seq<Entry>, st0: I.State, e: Entry, item: I.Item, env: Env)
    requires pre <= w.out && I.ReadEntry(e) == item
    ensures pre <= w.Put(e).out
    ensures Imported(w.Put(e), pre, st0, env) == Then(Imported(w, pre, st0, env), item, env)
  {
    var items := I.ReadAll(w.out[|pre|..]);
    assert w.Put(e).out[|pre|..] == w.out[|pre|..] + [e];
    assert I.ReadAll(w.out[|pre|..] + [e]) == items + [item];
    assert (items + [item])[..|items|] == items;
  }

  lemma PutDirObject(w: E.State, pre: seq<Entry>, st0: I.State, sum: Sum, k: ObjKind, data: Bytes, env: Env)
    requires pre <= w.out && IsDirKind(k) && IsSha256(sum)
    ensures var w' := w.Put(DefaultData(ObjectPath(sum, Suffix(k)), data));
      && pre <= w'.out
      && Imported(w', pre, st0, env) == Then(Imported(w, pre, st0, env), I.MetaI(sum, k, RegB(data)), env)
  {
    var e := DefaultData(ObjectPath(sum, Suffix(k)), data);
    DirEntryReads(e, sum, k);
    PutStep(w, pre, st0, e, I.MetaI(sum, k, RegB(data)), env);
  }

  lemma TreeAdded(st: I.State, t: TreeObj, env: Env)
    requires env.Valid() && st.mode.CommitMode? && |env.encTree(t)| <= I.MAX_METADATA_SIZE
    ensures I.ImportItem(st, I.MetaI(env.treeSum(t), DirTreeK, RegB(env.encTree(t))), env)
         == Ok(st.(repo := st.repo + {TreeO(t)}))
  {
  }

  lemma MetaAdded(st: I.State, m: DirMeta, env: Env)
    requires env.Valid() && st.mode.CommitMode? && |env.encMeta(m)| <= I.MAX_METADATA_SIZE
    ensures I.ImportItem(st, I.MetaI(env.metaSum(m), DirMetaK, RegB(env.encMeta(m))), env)
         == Ok(st.(repo := st.repo + {MetaO(m)}))
  {
  }

  lemma PutFile(w: E.State, pre: seq<Entry>, st0: I.State, sum: Sum, x: Sum, f: FileObj, env: Env)
    requires pre <= w.out && IsSha256(sum) && IsSha256(x)
    ensures var w' := w.Put(DefaultLink(ObjectPath(sum, XATTRS_LINK), ObjectPath(x, XATTRS))).Put(E.FileEntry(sum, f));
      && pre <= w'.out
      && Imported(w', pre, st0, env)
           == Then(Then(Imported(w, pre, st0, env), I.LinkI(sum, x), env), I.FileI(sum, E.FileEntry(sum, f)), env)
  {
    var link := DefaultLink(ObjectPath(sum, XATTRS_LINK), ObjectPath(x, XATTRS));
    LinkEntryReads(sum, x);
    PutStep(w, pre, st0, link, I.LinkI(sum, x), env);
    FileEntryReads(sum, f);
    PutStep(w.Put(link), pre, st0, E.FileEntry(sum, f), I.FileI(sum, E.FileEntry(sum, f)), env);
  }

  /** Objects that may be written or present: no collisions, and within the importer's limits. */
  ghost predicate Universe(u: set<Object>, env: Env) {
    && env.Valid() && CollisionFree(u, env)
    && (forall a, b | FileO(a) in u && FileO(b) in u && env.xattrSum(a.xattrs) == env.xattrSum(b.xattrs) ::
          a.xattrs == b.xattrs)
    && (forall f | FileO(f) in u :: |f.xattrs| <= I.MAX_XATTR_SIZE)
    && (forall t | TreeO(t) in u :: |env.encTree(t)| <= I.MAX_METADATA_SIZE)
    && (forall m | MetaO(m) in u :: |env.encMeta(m)| <= I.MAX_METADATA_SIZE)
  }

  /** Whether the writer has recorded an object as written. */
  predicate Marked(w: E.State, o: Object, env: Env) {
    match o
    case FileO(f) => env.fileSum(f) in w.content
    case TreeO(t) => env.treeSum(t) in w.trees
    case MetaO(m) => env.metaSum(m) in w.metas
    case CommitO(_) => false
  }

  ghost predicate CacheCovers(w: E.State, st: I.State, u: set<Object>, env: Env) {
    forall f | FileO(f) in u && env.xattrSum(f.xattrs) in w.xattrs ::
      env.xattrSum(f.xattrs) in st.xattrs && st.xattrs[env.xattrSum(f.xattrs)] == f.xattrs
  }

  /** The stream so far imports without error and has added exactly `objs`. */
  ghost predicate Follows(w: E.State, st: I.State, st0: I.State, objs: set<Object>, u: set<Object>, env: Env) {
    && st.next == None && st.detached == st0.detached
    && st.repo == st0.repo + objs && st0.repo <= u && objs <= u
    && (if st0.mode.ObjectSet? then st.mode == I.ObjectSet(w.content) else st.mode == st0.mode)
    && CacheCovers(w, st, u, env)
    && forall o | o in u && Marked(w, o, env) :: o in objs
  }

  ghost predicate Replays(w: E.State, pre: seq<Entry>, st0: I.State, objs: set<Object>, u: set<Object>, env: Env) {
    && pre <= w.out && Imported(w, pre, st0, env).Ok?
    && Follows(w, Imported(w, pre, st0, env).value, st0, objs, u, env)
  }

  lemma PutIgnored(w: E.State, pre: seq<Entry>, st0: I.State, objs: set<Object>, u: set<Object>, e: Entry, env: Env)
    requires Replays(w, pre, st0, objs, u, env) && I.ReadEntry(e) == I.Ignored
    ensures Replays(w.Put(e), pre, st0, objs, u, env)
  {
    PutStep(w, pre, st0, e, I.Ignored, env);
  }

  lemma MetaFollows(w: E.State, st: I.State, st0: I.State, objs: set<Object>, u: set<Object>, o: Object, w': E.State,
                    st': I.State, env: Env)
    requires Universe(u, env) && Follows(w, st, st0, objs, u, env) && o in u && !o.CommitO? && !o.FileO?
    requires w' == if o.TreeO? then w.(out := w'.out, trees := w.trees + {env.Digest(o)})
                   else w.(out := w'.out, metas := w.metas + {env.Digest(o)})
    requires st' == st.(repo := st.repo + {o})
    ensures Follows(w', st', st0, objs + {o}, u, env)
  {
    assert st.repo + {o} == st0.repo + (objs + {o});
    forall x | x in u && Marked(w', x, env)
      ensures x in objs + {o}
    {
      assert Marked(w, x, env) || (SameKind(x, o) && env.Digest(x) == env.Digest(o));
    }
  }

  lemma TreeObjReplays(w: E.State, pre: seq<Entry>, st0: I.State, objs: set<Object>, u: set<Object>, t: TreeObj,
                       env: Env)
    requires Universe(u, env) && Replays(w, pre, st0, objs, u, env) && TreeO(t) in u && st0.mode.CommitMode?
    ensures Replays(E.AppendTreeObj(w, t, env), pre, st0, objs + {TreeO(t)}, u, env)
  {
    if env.treeSum(t) in w.trees {
      AlreadyWritten(w, pre, st0, objs, u, TreeO(t), env);
    } else {
      var st := Imported(w, pre, st0, env).value;
      var w1 := w.(trees := w.trees + {env.treeSum(t)});
      PutDirObject(w1, pre, st0, env.treeSum(t), DirTreeK, env.encTree(t), env);
      TreeAdded(st, t, env);
      MetaFollows(w, st, st0, objs, u, TreeO(t), E.AppendTreeObj(w, t, env), st.(repo := st.repo + {TreeO(t)}), env);
    }
  }

  lemma MetaObjReplays(w: E.State, pre: seq<Entry>, st0: I.State, objs: set<Object>, u: set<Object>, m: DirMeta,
                       env: Env)
    requires Universe(u, env) && Replays(w, pre, st0, objs, u, env) && MetaO(m) in u && st0.mode.CommitMode?
    ensures Replays(E.AppendMetaObj(w, m, env), pre, st0, objs + {MetaO(m)}, u, env)
  {
    if env.metaSum(m) in w.metas {
      AlreadyWritten(w, pre, st0, objs, u, MetaO(m), env);
    } else {
      var st := Imported(w, pre, st0, env).value;
      var w1 := w.(metas := w.metas + {env.metaSum(m)});
      PutDirObject(w1, pre, st0, env.metaSum(m), DirMetaK, env.encMeta(m), env);
      MetaAdded(st, m, env);
      MetaFollows(w, st, st0, objs, u, MetaO(m), E.AppendMetaObj(w, m, env), st.(repo := st.repo + {MetaO(m)}), env);
    }
  }

  lemma AlreadyWritten(w: E.State, pre: seq<Entry>, st0: I.State, objs: set<Object>, u: set<Object>, o: Object,
                       env: Env)
    requires Replays(w, pre, st0, objs, u, env) && o in u && Marked(w, o, env)
    ensures Replays(w, pre, st0, objs + {o}, u, env)
  {
    assert objs + {o} == objs;
  }

  // ---- file objects ----

  /** Caching the xattrs, if that has not happened yet. */
  lemma XattrsCached(w: E.State, pre: seq<Entry>, st0: I.State, objs: set<Object>, u: set<Object>, f: FileObj, env: Env)
    returns (w': E.State, st': I.State)
    requires Universe(u, env) && Replays(w, pre, st0, objs, u, env) && FileO(f) in u
    ensures var x := env.xattrSum(f.xattrs);
      && w' == (if x in w.xattrs then w
        else w.(xattrs := w.xattrs + {x}).Put(DefaultData(ObjectPath(x, XATTRS), f.xattrs)))
      && pre <= w'.out && Imported(w', pre, st0, env) == Ok(st')
      && Follows(w', st', st0, objs, u, env) && x in w'.xattrs
  {
    var x, st := env.xattrSum(f.xattrs), Imported(w, pre, st0, env).value;
    if x in w.xattrs {
      w', st' := w, st;
    } else {
      var w1 := w.(xattrs := w.xattrs + {x});
      var e := DefaultData(ObjectPath(x, XATTRS), f.xattrs);
      XattrsEntryReads(x, f.xattrs);
      PutStep(w1, pre, st0, e, I.XattrsI(x, RegB(f.xattrs)), env);
      assert Imported(w1, pre, st0, env) == Ok(st);
      w', st' := w1.Put(e), st.(xattrs := st.xattrs[x := f.xattrs]);
    }
  }

  /** The file entry, after its link, adds the file. */
  lemma FileAdded(st: I.State, f: FileObj, u: set<Object>, env: Env)
    requires Universe(u, env) && FileO(f) in u && st.repo <= u
    requires env.xattrSum(f.xattrs) in st.xattrs && st.xattrs[env.xattrSum(f.xattrs)] == f.xattrs
    ensures var sum := env.fileSum(f);
      I.ImportContent(st.(next := Some((sum, env.xattrSum(f.xattrs)))), E.FileEntry(sum, f), sum, env)
        == Ok(st.(next := None, repo := st.repo + {FileO(f)}))
  {
    var sum := env.fileSum(f);
    assert I.ObjectOf(E.FileEntry(sum, f), f.xattrs) == Ok(f) by { FileEntryHolds(sum, f); }
    if I.HasFile(st.repo, sum, env) {
      KnownFile(st.repo, f, u, env);
    }
  }

  lemma KnownFile(repo: set<Object>, f: FileObj, u: set<Object>, env: Env)
    requires Universe(u, env) && FileO(f) in u && repo <= u && I.HasFile(repo, env.fileSum(f), env)
    ensures repo + {FileO(f)} == repo
  {
    var o :| o in repo && o.FileO? && env.fileSum(o.file) == env.fileSum(f);
    assert SameKind(o, FileO(f)) && o == FileO(f);
  }

  lemma ContentReplays(w: E.State, pre: seq<Entry>, st0: I.State, objs: set<Object>, u: set<Object>, f: FileObj,
                       env: Env)
    requires Universe(u, env) && Replays(w, pre, st0, objs, u, env) && FileO(f) in u
    ensures Replays(E.AppendContent(w, f, env), pre, st0, objs + {FileO(f)}, u, env)
  {
    var sum, x := env.fileSum(f), env.xattrSum(f.xattrs);
    if sum in w.content {
      AlreadyWritten(w, pre, st0, objs, u, FileO(f), env);
    } else {
      var w1, st := XattrsCached(w, pre, st0, objs, u, f, env);
      var w2 := w1.(content := w1.content + {sum});
      assert Imported(w2, pre, st0, env) == Ok(st);
      PutFile(w2, pre, st0, sum, x, f, env);
      FileAdded(st, f, u, env);
      var w4 := E.AppendContent(w, f, env);
      FileFollows(w1, st, st0, objs, u, f, w4, Imported(w4, pre, st0, env), env);
    }
  }

  lemma FileFollows(w: E.State, st: I.State, st0: I.State, objs: set<Object>, u: set<Object>, f: FileObj, w': E.State,
                    r: Result<I.State>, env: Env)
    requires Universe(u, env) && Follows(w, st, st0, objs, u, env) && FileO(f) in u
    requires var sum := env.fileSum(f);
      && sum !in w.content && w' == w.(out := w'.out, content := w.content + {sum})
      && r == I.Track(st.(next := None, repo := st.repo + {FileO(f)}), sum)
    ensures r.Ok? && Follows(w', r.value, st0, objs + {FileO(f)}, u, env)
  {
    assert st.repo + {FileO(f)} == st0.repo + (objs + {FileO(f)});
    forall x | x in u && Marked(w', x, env)
      ensures x in objs + {FileO(f)}
    {
      assert Marked(w, x, env) || (SameKind(x, FileO(f)) && env.Digest(x) == env.Digest(FileO(f)));
    }
  }

  /** A checkout path that the importer does not take for part of the repository. */
  predicate ClearPath(p: Path) { !(REPO <= E.PathForTar(p)) }

  lemma {:induction false} HardlinksReplay(w: E.State, pre: seq<Entry>, st0: I.State, objs: set<Object>, u: set<Object>,
                                           f: FileObj, paths: seq<Path>, env: Env)
    requires env.Valid() && Replays(w, pre, st0, objs, u, env) && forall p | p in paths :: ClearPath(p)
    ensures Replays(E.AppendHardlinks(w, f, paths, env), pre, st0, objs, u, env)
  {
    if paths != [] {
      var p := paths[|paths| - 1];
      HardlinksReplay(w, pre, st0, objs, u, f, paths[..|paths| - 1], env);
      assert p in paths;
      var e := E.HardlinkEntry(f, E.PathForTar(p), env);
      assert e.path == E.PathForTar(p);
      assert I.FilterEntry(e) == None;
      PutIgnored(E.AppendHardlinks(w, f, paths[..|paths| - 1], env), pre, st0, objs, u, e, env);
    }
  }

  function ItemObjects(items: seq<E.ChunkItem>): set<Object> {
    set i | i in items :: FileO(i.obj)
  }

  ghost predicate ClearItems(items: seq<E.ChunkItem>) {
    forall i | i in items :: forall p | p in i.paths :: ClearPath(p)
  }

  lemma {:induction false} ChunkReplays(w: E.State, pre: seq<Entry>, st0: I.State, objs: set<Object>, u: set<Object>,
                                        items: seq<E.ChunkItem>, env: Env)
    requires Universe(u, env) && Replays(w, pre, st0, objs, u, env)
    requires ItemObjects(items) <= u && ClearItems(items)
    ensures Replays(E.WriteChunk(w, items, env), pre, st0, objs + ItemObjects(items), u, env)
  {
    if items == [] {
      assert objs + ItemObjects(items) == objs;
    } else {
      var init, last := items[..|items| - 1], items[|items| - 1];
      assert items == init + [last] && last in items;
      assert ItemObjects(items) == ItemObjects(init) + {FileO(last.obj)};
      ChunkReplays(w, pre, st0, objs, u, init, env);
      var w1 := E.WriteChunk(w, init, env);
      ContentReplays(w1, pre, st0, objs + ItemObjects(init), u, last.obj, env);
      assert objs + ItemObjects(init) + {FileO(last.obj)} == objs + ItemObjects(items);
      var w2, objs2 := E.AppendContent(w1, last.obj, env), objs + ItemObjects(items);
      HardlinksReplay(w2, pre, st0, objs2, u, last.obj, last.paths, env);
    }
  }

  // ---- directory structure ----

  /** The metadata objects the final layer carries: all but those only found below `/sysroot`. */
  function Carried(t: Tree, isRoot: bool, env: Env): set<Object>
    decreases t, 0
  {
    {TreeO(env.Flat(t))} + CarriedBelow(t.dirs, isRoot, env)
  }

  function CarriedBelow(ds: seq<Dir>, isRoot: bool, env: Env): set<Object>
    decreases ds, 0
  {
    if ds == [] then {}
    else
      {MetaO(ds[0].meta)}
      + (if isRoot && ds[0].name == "sysroot" then {} else Carried(ds[0].tree, false, env))
      + CarriedBelow(ds[1..], isRoot, env)
  }

  lemma {:induction false} DirtreeReplays(w: E.State, pre: seq<Entry>, st0: I.State, objs: set<Object>, u: set<Object>,
                                          path: Path, t: Tree, isRoot: bool, env: Env)
    requires Universe(u, env) && Replays(w, pre, st0, objs, u, env) && st0.mode.CommitMode?
    requires Carried(t, isRoot, env) <= u
    ensures Replays(E.AppendDirtree(w, path, t, isRoot, env), pre, st0, objs + Carried(t, isRoot, env), u, env)
    decreases t, 1
  {
    var o := TreeO(env.Flat(t));
    TreeObjReplays(w, pre, st0, objs, u, env.Flat(t), env);
    var w1 := E.AppendTreeObj(w, env.Flat(t), env);
    var w2 := if path == [Normal("var"), Normal("tmp")] then w1.(varTmp := true) else w1;
    assert Replays(w2, pre, st0, objs + {o}, u, env);
    DirsReplay(w2, pre, st0, objs + {o}, u, path, t.dirs, isRoot, env);
    assert objs + {o} + CarriedBelow(t.dirs, isRoot, env) == objs + Carried(t, isRoot, env);
  }

  lemma {:induction false} DirsReplay(w: E.State, pre: seq<Entry>, st0: I.State, objs: set<Object>, u: set<Object>,
                                      path: Path, ds: seq<Dir>, isRoot: bool, env: Env)
    requires Universe(u, env) && Replays(w, pre, st0, objs, u, env) && st0.mode.CommitMode?
    requires CarriedBelow(ds, isRoot, env) <= u
    ensures Replays(E.AppendDirs(w, path, ds, isRoot, env), pre, st0, objs + CarriedBelow(ds, isRoot, env), u, env)
    decreases ds, 0
  {
    if ds == [] {
      assert objs + CarriedBelow(ds, isRoot, env) == objs;
    } else {
      var d := ds[0];
      MetaObjReplays(w, pre, st0, objs, u, d.meta, env);
      var w1, objs1 := E.AppendMetaObj(w, d.meta, env), objs + {MetaO(d.meta)};
      var w2, objs2 := w1, objs1;
      if !(isRoot && d.name == "sysroot") {
        var sub := E.MapPath(path + [Normal(d.name)]);
        var e := Entry(sub, d.meta.uid, d.meta.gid, d.meta.mode, 0, DirB);
        PutIgnored(w1, pre, st0, objs1, u, e, env);
        DirtreeReplays(w1.Put(e), pre, st0, objs1, u, sub, d.tree, false, env);
        w2 := E.AppendDirtree(w1.Put(e), sub, d.tree, false, env);
        objs2 := objs1 + Carried(d.tree, false, env);
      }
      DirsReplay(w2, pre, st0, objs2, u, path, ds[1..], isRoot, env);
      assert objs2 + CarriedBelow(ds[1..], isRoot, env) == objs + CarriedBelow(ds, isRoot, env);
    }
  }

  // ---- chunk layers ----

  lemma StructureIgnored()
    ensures forall e | e in E.RepoStructure() :: I.FilterEntry(e) == None && I.ReadEntry(e) == I.Ignored
  {
    E.StructureEntries();
    assert Strip(E.ConfigEntry().path, REPO) == Some([Normal("config")]) by {
      assert E.ConfigEntry().path[3..] == [Normal("config")];
    }
  }

  lemma {:induction false} IgnoredAll(st: I.State, items: seq<I.Item>, env: Env)
    requires forall i | 0 <= i < |items| :: items[i] == I.Ignored
    ensures I.ImportAll(st, items, env) == Ok(st)
  {
    if items != [] {
      IgnoredAll(st, items[..|items| - 1], env);
    }
  }

  function NewObjectSet(repo: set<Object>, detached: map<Sum, Detached>): I.State {
    I.State(repo, detached, map[], None, I.ObjectSet({}))
  }

  function ItemSums(items: seq<E.ChunkItem>, env: Env): set<Sum> {
    set i | i in items :: env.fileSum(i.obj)
  }

  lemma {:induction false} HardlinksContent(w: E.State, f: FileObj, paths: seq<Path>, env: Env)
    requires env.Valid()
    ensures E.AppendHardlinks(w, f, paths, env).content == w.content
  {
    if paths != [] {
      HardlinksContent(w, f, paths[..|paths| - 1], env);
    }
  }

  lemma {:induction false} ChunkContent(w: E.State, items: seq<E.ChunkItem>, env: Env)
    requires env.Valid()
    ensures E.WriteChunk(w, items, env).content == w.content + ItemSums(items, env)
  {
    if items != [] {
      var init, last := items[..|items| - 1], items[|items| - 1];
      ChunkContent(w, init, env);
      SumsOfMore(init, last, env);
      assert items == init + [last];
      var w1 := E.WriteChunk(w, init, env);
      ContentMarked(w1, last.obj, env);
      HardlinksContent(E.AppendContent(w1, last.obj, env), last.obj, last.paths, env);
    }
  }

  lemma SumsOfMore(init: seq<E.ChunkItem>, last: E.ChunkItem, env: Env)
    ensures ItemSums(init + [last], env) == ItemSums(init, env) + {env.fileSum(last.obj)}
  {
    assert last in init + [last];
  }

  lemma ContentMarked(w: E.State, f: FileObj, env: Env)
    requires env.Valid()
    ensures E.AppendContent(w, f, env).content == w.content + {env.fileSum(f)}
  {
  }

  /** A chunk layer imports, adds exactly its files, and tracks exactly their checksums. */
  lemma ChunkLayer(items: seq<E.ChunkItem>, repo: set<Object>, detached: map<Sum, Detached>, u: set<Object>, env: Env)
    requires Universe(u, env) && repo <= u && ItemObjects(items) <= u && ClearItems(items)
    ensures var r := I.ImportAll(NewObjectSet(repo, detached), I.ReadAll(E.ExportChunk(items, env)), env);
      && r.Ok? && r.value.repo == repo + ItemObjects(items) && r.value.next == None
      && r.value.detached == detached && r.value.mode == I.ObjectSet(ItemSums(items, env))
  {
    var w0 := E.WriteStructure(E.START);
    var pre: seq<Entry> := [];
    ObjectSetStart(repo, detached, u, pre, env);
    ChunkReplays(w0, pre, NewObjectSet(repo, detached), {}, u, items, env);
    assert w0.content == {} && {} + ItemSums(items, env) == ItemSums(items, env);
    ChunkContent(w0, items, env);
    assert {} + ItemObjects(items) == ItemObjects(items);
    ObjectSetEnd(E.WriteChunk(w0, items, env), pre, repo, detached, ItemObjects(items), u, env);
  }

  lemma ObjectSetStart(repo: set<Object>, detached: map<Sum, Detached>, u: set<Object>, pre: seq<Entry>, env: Env)
    requires Universe(u, env) && repo <= u && pre == []
    ensures Replays(E.WriteStructure(E.START), pre, NewObjectSet(repo, detached), {}, u, env)
  {
    var st0, w0 := NewObjectSet(repo, detached), E.WriteStructure(E.START);
    StructureIgnored();
    IgnoredAll(st0, I.ReadAll(w0.out), env);
    assert w0.out[|pre|..] == w0.out;
  }

  lemma ObjectSetEnd(w: E.State, pre: seq<Entry>, repo: set<Object>, detached: map<Sum, Detached>, objs: set<Object>,
                     u: set<Object>, env: Env)
    requires pre == [] && Replays(w, pre, NewObjectSet(repo, detached), objs, u, env)
    ensures var r := I.ImportAll(NewObjectSet(repo, detached), I.ReadAll(w.out), env);
      && r.Ok? && r.value.repo == repo + objs && r.value.next == None
      && r.value.detached == detached && r.value.mode == I.ObjectSet(w.content)
  {
    assert w.out[|pre|..] == w.out;
  }

  /** Importing chunk layers one after another, each with an importer of its own. */
  function ImportChunks(repo: set<Object>, detached: map<Sum, Detached>, layers: seq<seq<Entry>>,
                        env: Env): Result<set<Object>>
  {
    if layers == [] then Ok(repo)
    else
      var before :- ImportChunks(repo, detached, layers[..|layers| - 1], env);
      var st :- I.ImportAll(NewObjectSet(before, detached), I.ReadAll(layers[|layers| - 1]), env);
      Ok(st.repo)
  }

  function ExportChunks(chunks: seq<seq<E.ChunkItem>>, env: Env): (r: seq<seq<Entry>>)
    requires env.Valid()
    ensures |r| == |chunks| && forall i | 0 <= i < |chunks| :: r[i] == E.ExportChunk(chunks[i], env)
  {
    seq(|chunks|, i requires 0 <= i < |chunks| => E.ExportChunk(chunks[i], env))
  }

  function AllObjects(chunks: seq<seq<E.ChunkItem>>): set<Object> {
    set k, i | k in chunks && i in k :: FileO(i.obj)
  }

  lemma {:induction false} ChunkLayers(chunks: seq<seq<E.ChunkItem>>, repo: set<Object>, detached: map<Sum, Detached>,
                                       u: set<Object>, env: Env)
    requires Universe(u, env) && repo <= u && AllObjects(chunks) <= u && forall k | k in chunks :: ClearItems(k)
    ensures ImportChunks(repo, detached, ExportChunks(chunks, env), env) == Ok(repo + AllObjects(chunks))
  {
    if chunks == [] {
      assert repo + AllObjects(chunks) == repo;
    } else {
      var init, last := chunks[..|chunks| - 1], chunks[|chunks| - 1];
      assert chunks == init + [last] && last in chunks;
      OneMoreChunk(init, last, repo, env);
      ChunkLayers(init, repo, detached, u, env);
      NextLayer(init, last, repo, detached, u, env);
    }
  }

  lemma NextLayer(init: seq<seq<E.ChunkItem>>, last: seq<E.ChunkItem>, repo: set<Object>, detached: map<Sum, Detached>,
                  u: set<Object>, env: Env)
    requires Universe(u, env) && repo + AllObjects(init) <= u && ItemObjects(last) <= u && ClearItems(last)
    requires ImportChunks(repo, detached, ExportChunks(init, env), env) == Ok(repo + AllObjects(init))
    ensures ImportChunks(repo, detached, ExportChunks(init + [last], env), env) == Ok(repo + AllObjects(init + [last]))
  {
    OneMoreChunk(init, last, repo, env);
    ChunkLayer(last, repo + AllObjects(init), detached, u, env);
    LastLayer(repo, detached, ExportChunks(init + [last], env), repo + AllObjects(init), env);
  }

  lemma LastLayer(repo: set<Object>, detached: map<Sum, Detached>, layers: seq<seq<Entry>>, before: set<Object>,
                  env: Env)
    requires layers != [] && ImportChunks(repo, detached, layers[..|layers| - 1], env) == Ok(before)
    requires I.ImportAll(NewObjectSet(before, detached), I.ReadAll(layers[|layers| - 1]), env).Ok?
    ensures ImportChunks(repo, detached, layers, env)
         == Ok(I.ImportAll(NewObjectSet(before, detached), I.ReadAll(layers[|layers| - 1]), env).value.repo)
  {
  }

  lemma OneMoreChunk(init: seq<seq<E.ChunkItem>>, last: seq<E.ChunkItem>, repo: set<Object>, env: Env)
    requires env.Valid()
    ensures AllObjects(init + [last]) == AllObjects(init) + ItemObjects(last)
    ensures repo + AllObjects(init) + ItemObjects(last) == repo + AllObjects(init + [last])
    ensures ExportChunks(init + [last], env)[..|init|] == ExportChunks(init, env)
  {
    var chunks := init + [last];
    assert last in chunks && forall k | k in init :: k in chunks;
  }

  // ---- the final layer ----

  function NewCommit(repo: set<Object>, detached: map<Sum, Detached>): I.State {
    I.State(repo, detached, map[], None, I.CommitMode(None))
  }

  function AddDetached(detached: map<Sum, Detached>, c: Commit, env: Env): map<Sum, Detached> {
    if c.detached.None? then detached else detached[env.commitSum(env.FlatCommit(c)) := c.detached.value]
  }

  ghost predicate CommitFits(c: Commit, env: Env) {
    && |env.encCommit(env.FlatCommit(c))| <= I.MAX_METADATA_SIZE
    && |env.encMeta(c.meta)| <= I.MAX_METADATA_SIZE
    && (c.detached.Some? ==> |env.encDetached(c.detached.value)| <= I.MAX_METADATA_SIZE)
  }

  /** The entry after the commit object. */
  function SecondEntry(c: Commit, env: Env): Entry
    requires env.Valid()
  {
    if c.detached.Some? then E.DetachedEntry(env.commitSum(env.FlatCommit(c)), c.detached.value, env)
    else DefaultData(ObjectPath(env.metaSum(c.meta), Suffix(DirMetaK)), env.encMeta(c.meta))
  }

  /** The state after the commit object and the entry after it. */
  function Head(st0: I.State, c: Commit, env: Env): I.State {
    st0.(repo := st0.repo + {CommitO(env.FlatCommit(c))} + if c.detached.Some? then {} else {MetaO(c.meta)},
         detached := AddDetached(st0.detached, c, env),
         mode := I.CommitMode(Some(env.commitSum(env.FlatCommit(c)))))
  }

  /** The head of the layer, once the names of its two entries are read. */
  lemma HeadOfNamed(st0: I.State, c: Commit, second: Entry, nextSum: Sum, k: ObjKind, env: Env)
    requires env.Valid() && CommitFits(c, env) && st0.mode.CommitMode?
    requires c.detached.Some? ==> k == CommitMetaK && second.body == RegB(env.encDetached(c.detached.value))
    requires c.detached.None? ==>
      k == DirMetaK && I.SecondItem(second) == I.MetaI(env.metaSum(c.meta), DirMetaK, RegB(env.encMeta(c.meta)))
    ensures var o := env.FlatCommit(c);
      I.ImportHead(st0, env.commitSum(o), RegB(env.encCommit(o)), nextSum, k, second, None, env)
        == Ok(Head(st0, c, env))
  {
    var o := env.FlatCommit(c);
    var written := st0.(repo := st0.repo + {CommitO(o)});
    if c.detached.Some? {
      assert I.ReadDetached(second.body, env) == Ok(c.detached.value);
      assert st0.repo + {CommitO(o)} + {} == st0.repo + {CommitO(o)};
    } else {
      MetaAdded(written, c.meta, env);
    }
  }

  lemma HeadNames(c: Commit, env: Env)
    requires env.Valid()
    ensures var sum, first, second := env.commitSum(env.FlatCommit(c)), E.CommitEntry(c, env), SecondEntry(c, env);
      && I.FilterEntry(first).Some? && I.FilterEntry(second).Some?
      && I.MetadataName(first) == Ok((sum, CommitK))
      && (c.detached.Some? ==> I.MetadataName(second) == Ok((sum, CommitMetaK)))
      && (c.detached.None? ==> I.MetadataName(second) == Ok((env.metaSum(c.meta), DirMetaK)))
      && (c.detached.None? ==>
        I.SecondItem(second) == I.MetaI(env.metaSum(c.meta), DirMetaK, RegB(env.encMeta(c.meta))))
  {
    var sum, second := env.commitSum(env.FlatCommit(c)), SecondEntry(c, env);
    NamedEntryReads(E.CommitEntry(c, env), sum, CommitK);
    if c.detached.Some? {
      NamedEntryReads(second, sum, CommitMetaK);
    } else {
      NamedEntryReads(second, env.metaSum(c.meta), DirMetaK);
      DirEntryReads(second, env.metaSum(c.meta), DirMetaK);
    }
  }

  lemma HeadImports(st0: I.State, c: Commit, env: Env)
    requires env.Valid() && CommitFits(c, env) && st0.mode.CommitMode?
    ensures I.ImportFirstTwo(st0, E.CommitEntry(c, env), SecondEntry(c, env), None, env) == Ok(Head(st0, c, env))
  {
    HeadNames(c, env);
    var second := SecondEntry(c, env);
    var (nextSum, k) := I.MetadataName(second).value;
    HeadOfNamed(st0, c, second, nextSum, k, env);
  }

  /** The entries before the commit object. */
  function Preamble(c: Commit): seq<Entry> {
    [Entry([CurDir], c.meta.uid, c.meta.gid, c.meta.mode, 0, DirB)] + E.RepoStructure()
  }

  /** The writer after the commit object and the root's metadata. */
  function AfterRoot(c: Commit, env: Env): E.State
    requires env.Valid()
  {
    var w := E.WriteStructure(E.AppendDirEntry(E.START, [CurDir], c.meta));
    E.AppendMetaObj(E.AppendCommitObj(w, c, env), c.meta, env)
  }

  lemma RootReplays(st0: I.State, c: Commit, u: set<Object>, env: Env)
    requires Universe(u, env) && CommitFits(c, env) && st0.mode.CommitMode? && st0.next == None
    requires st0.repo <= u && CommitO(env.FlatCommit(c)) in u && MetaO(c.meta) in u
    ensures Replays(AfterRoot(c, env), FinalPrefix(c, env), Head(st0, c, env), {MetaO(c.meta)}, u, env)
  {
    if c.detached.Some? {
      SignedRootReplays(st0, c, u, env);
    } else {
      PlainRootReplays(st0, c, u, env);
    }
  }

  lemma SignedRootReplays(st0: I.State, c: Commit, u: set<Object>, env: Env)
    requires Universe(u, env) && CommitFits(c, env) && st0.mode.CommitMode? && st0.next == None
    requires st0.repo <= u && CommitO(env.FlatCommit(c)) in u && MetaO(c.meta) in u
    requires c.detached.Some?
    ensures Replays(AfterRoot(c, env), FinalPrefix(c, env), Head(st0, c, env), {MetaO(c.meta)}, u, env)
  {
    var pre, head := FinalPrefix(c, env), Head(st0, c, env);
    var w0 := E.WriteStructure(E.AppendDirEntry(E.START, [CurDir], c.meta));
    assert w0.out == Preamble(c);
    var w := E.AppendCommitObj(w0, c, env);
    assert w.out == pre && w.out[|pre|..] == [];
    assert Imported(w, pre, head, env) == Ok(head);
    assert Replays(w, pre, head, {}, u, env);
    MetaObjReplays(w, pre, head, {}, u, c.meta, env);
    assert {} + {MetaO(c.meta)} == {MetaO(c.meta)};
  }

  /** Without detached metadata the root's metadata object is the second entry. */
  lemma PlainRootReplays(st0: I.State, c: Commit, u: set<Object>, env: Env)
    requires Universe(u, env) && CommitFits(c, env) && st0.mode.CommitMode? && st0.next == None
    requires st0.repo <= u && CommitO(env.FlatCommit(c)) in u && MetaO(c.meta) in u
    requires c.detached.None?
    ensures Replays(AfterRoot(c, env), FinalPrefix(c, env), Head(st0, c, env), {MetaO(c.meta)}, u, env)
  {
    var pre, head := FinalPrefix(c, env), Head(st0, c, env);
    var w := AfterRoot(c, env);
    assert E.WriteStructure(E.AppendDirEntry(E.START, [CurDir], c.meta)).out == Preamble(c);
    assert w.out == pre && w.out[|pre|..] == [];
    assert Imported(w, pre, head, env) == Ok(head);
    assert head.repo + {MetaO(c.meta)} == head.repo;
    forall o | o in u && Marked(w, o, env)
      ensures o in {MetaO(c.meta)}
    {
      assert SameKind(o, MetaO(c.meta)) && env.Digest(o) == env.Digest(MetaO(c.meta));
    }
  }

  lemma CommitReplays(st0: I.State, c: Commit, remainder: seq<E.ChunkItem>, u: set<Object>, env: Env)
    requires Universe(u, env) && CommitFits(c, env) && st0.mode.CommitMode? && st0.next == None
    requires st0.repo <= u && {CommitO(env.FlatCommit(c)), MetaO(c.meta)} + Carried(c.root, true, env) <= u
    requires ItemObjects(remainder) <= u && ClearItems(remainder)
    ensures Replays(E.WriteChunk(E.WriteCommit(E.START, c, env), remainder, env),
                    FinalPrefix(c, env),
                    Head(st0, c, env), {MetaO(c.meta)} + Carried(c.root, true, env) + ItemObjects(remainder), u, env)
  {
    var pre, head := FinalPrefix(c, env), Head(st0, c, env);
    RootReplays(st0, c, u, env);
    var w1, objs1 := AfterRoot(c, env), {MetaO(c.meta)};
    DirtreeReplays(w1, pre, head, objs1, u, [CurDir], c.root, true, env);
    var w2, objs2 := E.AppendDirtree(w1, [CurDir], c.root, true, env), objs1 + Carried(c.root, true, env);
    if !w2.varTmp {
      PutIgnored(w2, pre, head, objs2, u, Entry([Normal("var"), Normal("tmp")], 0, 0, 0x3FF, 0, DirB), env);
    }
    ChunkReplays(E.WriteCommit(E.START, c, env), pre, head, objs2, u, remainder, env);
  }

  lemma PreambleIgnored(c: Commit)
    ensures forall i | 0 <= i < |Preamble(c)| :: I.FilterEntry(Preamble(c)[i]) == None
  {
    StructureIgnored();
    forall i | 0 <= i < |Preamble(c)|
      ensures I.FilterEntry(Preamble(c)[i]) == None
    {
      if i > 0 {
        assert Preamble(c)[i] == E.RepoStructure()[i - 1] && Preamble(c)[i] in E.RepoStructure();
      }
    }
  }

  /** Reading a stream that starts like an exported commit layer. */
  lemma ImportAfterPreamble(st0: I.State, c: Commit, n: nat, out: seq<Entry>, env: Env)
    requires env.Valid() && CommitFits(c, env) && st0.mode.CommitMode?
    requires n == |Preamble(c)| && Preamble(c) + [E.CommitEntry(c, env), SecondEntry(c, env)] <= out
    ensures I.ImportCommit(st0, out, None, env) == I.ImportAll(Head(st0, c, env), I.ReadAll(out[n + 2..]), env)
  {
    var first, second := E.CommitEntry(c, env), SecondEntry(c, env);
    assert out[n] == first && out[n + 1] == second;
    assert I.FilterEntry(first).Some? && I.FilterEntry(second).Some? by { HeadNames(c, env); }
    forall k | 0 <= k < n
      ensures I.FilterEntry(out[k]).None?
    {
      PreambleIgnored(c);
      assert out[k] == Preamble(c)[k];
    }
    I.ImportCommitAt(st0, out, n, None, env);
    HeadImports(st0, c, env);
  }

  /** The prefix of the final layer that is read specially. */
  function FinalPrefix(c: Commit, env: Env): seq<Entry>
    requires env.Valid()
  {
    Preamble(c) + [E.CommitEntry(c, env), SecondEntry(c, env)]
  }

  lemma ImportIsReplay(st0: I.State, c: Commit, w: E.State, env: Env)
    requires env.Valid() && CommitFits(c, env) && st0.mode.CommitMode? && FinalPrefix(c, env) <= w.out
    ensures I.ImportCommit(st0, w.out, None, env) == Imported(w, FinalPrefix(c, env), Head(st0, c, env), env)
  {
    ImportAfterPreamble(st0, c, |Preamble(c)|, w.out, env);
  }

  /** What an import of the final layer adds to the repository. */
  function FinalObjects(c: Commit, remainder: seq<E.ChunkItem>, env: Env): set<Object> {
    {CommitO(env.FlatCommit(c)), MetaO(c.meta)} + Carried(c.root, true, env) + ItemObjects(remainder)
  }

  lemma FinalLayer(c: Commit, remainder: seq<E.ChunkItem>, repo: set<Object>, detached: map<Sum, Detached>,
                   u: set<Object>, env: Env)
    requires Universe(u, env) && CommitFits(c, env) && repo + FinalObjects(c, remainder, env) <= u
      && ClearItems(remainder)
    ensures var r := I.ImportCommit(NewCommit(repo, detached), E.ExportFinal(c, remainder, env), None, env);
      && r.Ok? && r.value.repo == repo + FinalObjects(c, remainder, env)
      && r.value.detached == AddDetached(detached, c, env)
      && r.value.mode == I.CommitMode(Some(env.commitSum(env.FlatCommit(c))))
  {
    var st0 := NewCommit(repo, detached);
    CommitReplays(st0, c, remainder, u, env);
    ImportIsReplay(st0, c, E.WriteChunk(E.WriteCommit(E.START, c, env), remainder, env), env);
    HeadAndRest(repo, detached, c, remainder, env);
  }

  /** With a remote, the head of the layer is read exactly if there is detached metadata that passes
      the remote's check. */
  lemma HeadVerified(st0: I.State, c: Commit, verify: (CommitObj, Detached) -> bool, env: Env)
    requires env.Valid() && CommitFits(c, env) && st0.mode.CommitMode?
    ensures I.ImportFirstTwo(st0, E.CommitEntry(c, env), SecondEntry(c, env), Some(verify), env)
      == if c.detached.Some? && verify(env.FlatCommit(c), c.detached.value) then Ok(Head(st0, c, env)) else Err
  {
    HeadNames(c, env);
    HeadImports(st0, c, env);
    if c.detached.Some? {
      assert I.ReadDetached(SecondEntry(c, env).body, env) == Ok(c.detached.value);
    }
  }

  lemma VerifiedAfterPreamble(st0: I.State, c: Commit, n: nat, out: seq<Entry>,
                              verify: (CommitObj, Detached) -> bool, env: Env)
    requires env.Valid() && CommitFits(c, env) && st0.mode.CommitMode?
    requires n == |Preamble(c)| && Preamble(c) + [E.CommitEntry(c, env), SecondEntry(c, env)] <= out
    ensures I.ImportCommit(st0, out, Some(verify), env)
      == if c.detached.Some? && verify(env.FlatCommit(c), c.detached.value) then I.ImportCommit(st0, out, None, env)
         else Err
  {
    var first, second := E.CommitEntry(c, env), SecondEntry(c, env);
    assert out[n] == first && out[n + 1] == second;
    assert I.FilterEntry(first).Some? && I.FilterEntry(second).Some? by { HeadNames(c, env); }
    forall k | 0 <= k < n
      ensures I.FilterEntry(out[k]).None?
    {
      PreambleIgnored(c);
      assert out[k] == Preamble(c)[k];
    }
    I.ImportCommitAt(st0, out, n, None, env);
    I.ImportCommitAt(st0, out, n, Some(verify), env);
    HeadImports(st0, c, env);
    HeadVerified(st0, c, verify, env);
  }

  lemma FinalStarts(c: Commit, remainder: seq<E.ChunkItem>, env: Env)
    requires env.Valid()
    ensures Preamble(c) + [E.CommitEntry(c, env), SecondEntry(c, env)] <= E.ExportFinal(c, remainder, env)
  {
    E.FinalLayout(c, remainder, env);
  }

  /** For a remote the final layer imports exactly if the commit has detached metadata that passes the
      remote's check, and then as it does without one. */
  lemma FinalLayerVerified(c: Commit, remainder: seq<E.ChunkItem>, repo: set<Object>, detached: map<Sum, Detached>,
                           u: set<Object>, verify: (CommitObj, Detached) -> bool, env: Env)
    requires Universe(u, env) && CommitFits(c, env) && repo + FinalObjects(c, remainder, env) <= u
      && ClearItems(remainder)
    ensures var st0, out := NewCommit(repo, detached), E.ExportFinal(c, remainder, env);
      && (I.ImportCommit(st0, out, Some(verify), env).Ok? <==>
            c.detached.Some? && verify(env.FlatCommit(c), c.detached.value))
      && (I.ImportCommit(st0, out, Some(verify), env).Ok? ==>
            I.ImportCommit(st0, out, Some(verify), env) == I.ImportCommit(st0, out, None, env))
  {
    FinalStarts(c, remainder, env);
    FinalLayer(c, remainder, repo, detached, u, env);
    VerifiedAfterPreamble(NewCommit(repo, detached), c, |Preamble(c)|, E.ExportFinal(c, remainder, env), verify, env);
  }

  lemma HeadAndRest(repo: set<Object>, detached: map<Sum, Detached>, c: Commit, remainder: seq<E.ChunkItem>, env: Env)
    ensures Head(NewCommit(repo, detached), c, env).repo
      + ({MetaO(c.meta)} + Carried(c.root, true, env) + ItemObjects(remainder))
         == repo + FinalObjects(c, remainder, env)
  {
  }

  // ---- what is reachable and what is carried ----

  function SysrootStructure(ds: seq<Dir>, env: Env): set<Object> {
    if ds == [] then {}
    else (if ds[0].name == "sysroot" then StructureOf(ds[0].tree, env) else {}) + SysrootStructure(ds[1..], env)
  }

  lemma {:induction false} CarriedIsStructure(t: Tree, env: Env)
    ensures Carried(t, false, env) == StructureOf(t, env)
    decreases t, 1
  {
    CarriedBelowIsStructure(t.dirs, env);
  }

  lemma {:induction false} CarriedBelowIsStructure(ds: seq<Dir>, env: Env)
    ensures CarriedBelow(ds, false, env) == StructureBelow(ds, env)
    decreases ds, 0
  {
    if ds != [] {
      CarriedIsStructure(ds[0].tree, env);
      CarriedBelowIsStructure(ds[1..], env);
    }
  }

  lemma {:induction false} CarriedBelowRoot(ds: seq<Dir>, env: Env)
    ensures StructureBelow(ds, env) == CarriedBelow(ds, true, env) + SysrootStructure(ds, env)
  {
    if ds != [] {
      CarriedIsStructure(ds[0].tree, env);
      CarriedBelowRoot(ds[1..], env);
    }
  }

  /** Every directory object below `/sysroot` also occurs elsewhere in the commit, or is already there. */
  ghost predicate SysrootElsewhere(c: Commit, repo: set<Object>, env: Env) {
    SysrootStructure(c.root.dirs, env) <= repo + {MetaO(c.meta)} + Carried(c.root, true, env)
  }

  // ---- the theorem ----

  /** Importing all chunk layers and then the final layer. */
  function ImportImage(repo: set<Object>, detached: map<Sum, Detached>, chunks: seq<seq<Entry>>, final: seq<Entry>,
                       env: Env): Result<I.State>
  {
    var before :- ImportChunks(repo, detached, chunks, env);
    I.ImportCommit(NewCommit(before, detached), final, None, env)
  }

  /** A chunking that covers the files of a commit, with paths outside the object store. */
  ghost predicate CompleteChunking(c: Commit, chunks: seq<seq<E.ChunkItem>>, remainder: seq<E.ChunkItem>) {
    && AllObjects(chunks) + ItemObjects(remainder) == FileObjects(c.root)
    && (forall k | k in chunks :: ClearItems(k)) && ClearItems(remainder)
  }

  /** The chunked round trip: the import never fails, returns the exported commit, and adds to the
      repository nothing that the commit does not reach; and it adds all that the commit reaches
      exactly when the directory objects below `/sysroot` occur elsewhere. */
  lemma ChunkedRoundTrip(c: Commit, chunks: seq<seq<E.ChunkItem>>, remainder: seq<E.ChunkItem>, repo: set<Object>,
                         detached: map<Sum, Detached>, env: Env)
    requires Universe(repo + Reachable(c, env), env) && CommitFits(c, env) && CompleteChunking(c, chunks, remainder)
    ensures var r := ImportImage(repo, detached, ExportChunks(chunks, env), E.ExportFinal(c, remainder, env), env);
      && r.Ok? && r.value.mode == I.CommitMode(Some(env.commitSum(env.FlatCommit(c))))
      && r.value.detached == AddDetached(detached, c, env)
      && repo + FileObjects(c.root) <= r.value.repo <= repo + Reachable(c, env)
      && (r.value.repo == repo + Reachable(c, env) <==> SysrootElsewhere(c, repo, env))
  {
    var u := repo + Reachable(c, env);
    FilesAndCarried(c, chunks, remainder, repo, env);
    ChunkLayers(chunks, repo, detached, u, env);
    var mid := repo + AllObjects(chunks);
    FinalLayer(c, remainder, mid, detached, u, env);
    FinalExact(c, repo, mid + FinalObjects(c, remainder, env), env);
  }

  lemma FilesAndCarried(c: Commit, chunks: seq<seq<E.ChunkItem>>, remainder: seq<E.ChunkItem>, repo: set<Object>,
                        env: Env)
    requires AllObjects(chunks) + ItemObjects(remainder) == FileObjects(c.root)
    ensures AllObjects(chunks) <= Reachable(c, env) && FinalObjects(c, remainder, env) <= Reachable(c, env)
    ensures repo + AllObjects(chunks) + FinalObjects(c, remainder, env)
         == repo + FileObjects(c.root) + ({CommitO(env.FlatCommit(c)), MetaO(c.meta)} + Carried(c.root, true, env))
  {
    CarriedBelowRoot(c.root.dirs, env);
  }

  lemma FinalExact(c: Commit, repo: set<Object>, end: set<Object>, env: Env)
    requires end == repo + FileObjects(c.root)
      + ({CommitO(env.FlatCommit(c)), MetaO(c.meta)} + Carried(c.root, true, env))
    ensures end <= repo + Reachable(c, env)
    ensures end == repo + Reachable(c, env) <==> SysrootElsewhere(c, repo, env)
  {
    CarriedBelowRoot(c.root.dirs, env);
    assert Reachable(c, env) == FileObjects(c.root) + {CommitO(env.FlatCommit(c)), MetaO(c.meta)}
      + Carried(c.root, true, env) + SysrootStructure(c.root.dirs, env);
    OnlyStructure(c.root.dirs, env);
    assert SysrootStructure(c.root.dirs, env) !! FileObjects(c.root) + {CommitO(env.FlatCommit(c))};
  }

  lemma {:induction false} OnlyStructure(ds: seq<Dir>, env: Env)
    ensures forall o | o in SysrootStructure(ds, env) :: o.TreeO? || o.MetaO?
  {
    if ds != [] {
      OnlyStructure(ds[1..], env);
      StructureKinds(ds[0].tree, env);
    }
  }

  lemma {:induction false} StructureKinds(t: Tree, env: Env)
    ensures forall o | o in StructureOf(t, env) :: o.TreeO? || o.MetaO?
    decreases t, 1
  {
    StructureBelowKinds(t.dirs, env);
  }

  lemma {:induction false} StructureBelowKinds(ds: seq<Dir>, env: Env)
    ensures forall o | o in StructureBelow(ds, env) :: o.TreeO? || o.MetaO?
    decreases ds, 0
  {
    if ds != [] {
      StructureKinds(ds[0].tree, env);
      StructureBelowKinds(ds[1..], env);
    }
  }

  predicate HasSysroot(ds: seq<Dir>) {
    exists d :: d in ds && d.name == "sysroot"
  }

  predicate SysrootEmpty(c: Commit) {
    forall d | d in c.root.dirs && d.name == "sysroot" :: d.tree == Tree([], [])
  }

  /** In particular: with no `/sysroot` or an empty one, exactly if there is none, or an empty
      directory is found elsewhere. */
  lemma SysrootAbsentOrEmpty(c: Commit, repo: set<Object>, env: Env)
    requires SysrootEmpty(c)
    ensures SysrootElsewhere(c, repo, env) <==>
      !HasSysroot(c.root.dirs) || TreeO(env.Flat(Tree([], []))) in repo + Carried(c.root, true, env)
  {
    EmptySysroots(c.root.dirs, env);
  }

  /** But not for a commit with nothing but an empty `/sysroot`: its directory object is lost. */
  lemma SysrootLost(c: Commit, m: DirMeta, env: Env)
    requires env.Valid() && c.root == Tree([], [Dir("sysroot", m, Tree([], []))])
    ensures !SysrootElsewhere(c, {}, env) && TreeO(env.Flat(Tree([], []))) in Reachable(c, env)
  {
    var empty, d := Tree([], []), Dir("sysroot", m, Tree([], []));
    assert env.FlatDirs([]) == [] && env.FlatDirs([d])
      == [(d.name, env.TreeDigest(empty), env.metaSum(m))] + env.FlatDirs([d][1..]);
    assert |env.Flat(c.root).dirs| == 1 && |env.Flat(empty).dirs| == 0;
    assert [d][1..] == [] && StructureBelow([d], env) == {MetaO(m)} + StructureOf(empty, env) + StructureBelow([], env);
    assert SysrootStructure([d], env) == StructureOf(empty, env) + SysrootStructure([], env);
    assert CarriedBelow([d], true, env) == {MetaO(m)} + {} + CarriedBelow([], true, env);
    assert TreeO(env.Flat(empty)) in StructureOf(empty, env);
  }

  lemma {:induction false} EmptySysroots(ds: seq<Dir>, env: Env)
    requires forall d | d in ds && d.name == "sysroot" :: d.tree == Tree([], [])
    ensures SysrootStructure(ds, env) == if HasSysroot(ds) then {TreeO(env.Flat(Tree([], [])))} else {}
  {
    if ds != [] {
      EmptySysroots(ds[1..], env);
      assert ds[0] in ds && ds == [ds[0]] + ds[1..];
      assert HasSysroot(ds) <==> ds[0].name == "sysroot" || HasSysroot(ds[1..]);
      assert StructureOf(Tree([], []), env) == {TreeO(env.Flat(Tree([], [])))};
    }
  }
}
