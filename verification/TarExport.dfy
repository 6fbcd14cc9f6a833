/** Writing chunk layers and the final (commit) layer of a chunked image (lib/src/tar/export.rs). */
module TarExport {
  import opened Outcomes
  import opened Seqs
  import opened Paths
  import opened Objects
  import opened ObjectPaths
  import opened TarStream

  // ---- paths of the checkout ----

  const USR_ETC: Path := [Normal("usr"), Normal("etc")]

  /** `./usr/etc` goes back to `./etc`; used for directories. */
  function MapPath(p: Path): Path {
    if [CurDir] + USR_ETC <= p then [CurDir, Normal("etc")] + p[3..] else p
  }

  /** `usr/etc` goes back to `etc`. */
  function MapPathV1(p: Path): Path {
    if USR_ETC <= p then p[1..] else p
  }

  /** Paths of a chunk are absolute; in the stream they are relative. */
  function PathForTar(p: Path): Path {
    MapPathV1(if [RootDir] <= p then p[1..] else p)
  }

  // ---- the writer ----

  /** The stream written so far and the de-duplication sets. */
  datatype State = State(out: seq<Entry>, initDirs: bool, varTmp: bool,
                         trees: set<Sum>, metas: set<Sum>, content: set<Sum>, xattrs: set<Sum>)
  {
    function Put(e: Entry): State { this.(out := out + [e]) }
  }

  const START := State([], false, false, {}, {}, {}, {})

  function HexByte(d: nat): string
    requires d < 256
  {
    ["0123456789abcdef"[d / 16], "0123456789abcdef"[d % 16]]
  }

  const OBJECTS: Path := REPO + [Normal("objects")]

  function RepoDir(names: seq<string>): Entry {
    DefaultDir(REPO + seq(|names|, i requires 0 <= i < |names| => Normal(names[i])))
  }

  const REPO_CONFIG: Bytes := []  // the text of the configuration file does not matter here

  function ParentDirs(): seq<Entry> {
    seq(4, i requires 0 <= i < 4 => DefaultDir(OBJECTS[..i + 1]))
  }

  function HashDirs(): seq<Entry> {
    seq(256, d requires 0 <= d < 256 => DefaultDir(OBJECTS + [Normal(HexByte(d))]))
  }

  const REPO_SUBDIRS: seq<seq<string>> :=
    [["extensions"], ["refs"], ["refs", "heads"], ["refs", "mirrors"], ["refs", "remotes"], ["state"], ["tmp"],
      ["tmp", "cache"]]

  function OtherDirs(): seq<Entry> {
    seq(|REPO_SUBDIRS|, i requires 0 <= i < |REPO_SUBDIRS| => RepoDir(REPO_SUBDIRS[i]))
  }

  /** The directories of an empty repository, and its configuration file. */
  function RepoStructure(): seq<Entry> {
    ParentDirs() + HashDirs() + OtherDirs() + [ConfigEntry()]
  }

  function ConfigEntry(): Entry { DefaultData(REPO + [Normal("config")], REPO_CONFIG) }

  predicate InStore(p: Path) { p != [] && p[0] == REPO[0] }

  lemma StructureEntries()
    ensures forall e | e in RepoStructure() :: (e.body.DirB? || e == ConfigEntry()) && InStore(e.path)
  {
    assert OBJECTS[0] == REPO[0];
    assert forall e | e in ParentDirs() :: e.body.DirB? && InStore(e.path);
    assert forall e | e in HashDirs() :: e.body.DirB? && InStore(e.path);
    assert forall e | e in OtherDirs() :: e.body.DirB? && InStore(e.path);
  }

  function WriteStructure(w: State): State {
    if w.initDirs then w else w.(out := w.out + RepoStructure(), initDirs := true)
  }

  function AppendTreeObj(w: State, t: TreeObj, env: Env): State
    requires env.Valid()
  {
    var sum := env.treeSum(t);
    if sum in w.trees then w
    else w.(trees := w.trees + {sum}).Put(DefaultData(ObjectPath(sum, Suffix(DirTreeK)), env.encTree(t)))
  }

  function AppendMetaObj(w: State, m: DirMeta, env: Env): State
    requires env.Valid()
  {
    var sum := env.metaSum(m);
    if sum in w.metas then w
    else w.(metas := w.metas + {sum}).Put(DefaultData(ObjectPath(sum, Suffix(DirMetaK)), env.encMeta(m)))
  }

  function CommitEntry(c: Commit, env: Env): Entry
    requires env.Valid()
  {
    var o := env.FlatCommit(c);
    DefaultData(ObjectPath(env.commitSum(o), Suffix(CommitK)), env.encCommit(o))
  }

  function DetachedEntry(sum: Sum, d: Detached, env: Env): Entry
    requires IsSha256(sum)
  {
    DefaultData(ObjectPath(sum, Suffix(CommitMetaK)), env.encDetached(d))
  }

  function AppendCommitObj(w: State, c: Commit, env: Env): State
    requires env.Valid()
  {
    var w' := w.Put(CommitEntry(c, env));
    if c.detached.None? then w'
    else w'.Put(DetachedEntry(env.commitSum(env.FlatCommit(c)), c.detached.value, env))
  }

  function AppendXattrs(w: State, sum: Sum, xattrs: Bytes, env: Env): State
    requires env.Valid() && IsSha256(sum)
  {
    var x := env.xattrSum(xattrs);
    var w' := if x in w.xattrs then w
              else w.(xattrs := w.xattrs + {x}).Put(DefaultData(ObjectPath(x, XATTRS), xattrs));
    w'.Put(DefaultLink(ObjectPath(sum, XATTRS_LINK), ObjectPath(x, XATTRS)))
  }

  function FileEntry(sum: Sum, f: FileObj): Entry
    requires IsSha256(sum)
  {
    var p := ObjectPath(sum, Suffix(FileK));
    match f
    case Regular(uid, gid, mode, _, data) => Entry(p, uid, gid, mode, 0, RegB(data))
    case Symlink(uid, gid, _, target) => Entry(p, uid, gid, 0x1FF, 0, SymB(target))
  }

  /** Writes the object once, its xattrs before it. */
  function AppendContent(w: State, f: FileObj, env: Env): State
    requires env.Valid()
  {
    var sum := env.fileSum(f);
    if sum in w.content then w
    else AppendXattrs(w.(content := w.content + {sum}), sum, f.xattrs, env).Put(FileEntry(sum, f))
  }

  /** The file's place in the checkout: a hard link, unless it is an empty regular file. */
  function HardlinkEntry(f: FileObj, dest: Path, env: Env): Entry
    requires env.Valid()
  {
    var e := FileEntry(env.fileSum(f), f).(path := dest);
    if f.Regular? && f.data == [] then e else e.(body := LinkB(ObjectPath(env.fileSum(f), Suffix(FileK))))
  }

  function AppendHardlinks(w: State, f: FileObj, paths: seq<Path>, env: Env): State
    requires env.Valid()
  {
    if paths == [] then w
    else AppendHardlinks(w, f, paths[..|paths| - 1], env).Put(HardlinkEntry(f, PathForTar(paths[|paths| - 1]), env))
  }

  /** One object of a chunk with its checkout paths. */
  datatype ChunkItem = ChunkItem(obj: FileObj, paths: seq<Path>)

  function WriteChunk(w: State, items: seq<ChunkItem>, env: Env): State
    requires env.Valid()
  {
    if items == [] then w
    else
      var last := items[|items| - 1];
      AppendHardlinks(AppendContent(WriteChunk(w, items[..|items| - 1], env), last.obj, env), last.obj, last.paths, env)
  }

  /** A chunk layer. */
  function ExportChunk(items: seq<ChunkItem>, env: Env): seq<Entry>
    requires env.Valid()
  {
    WriteChunk(WriteStructure(START), items, env).out
  }

  function AppendDirEntry(w: State, path: Path, m: DirMeta): State {
    w.Put(Entry(path, m.uid, m.gid, m.mode, 0, DirB))
  }

  /** The directory structure below `path`, without file contents.  The root's `sysroot` is named
      but not entered. */
  function AppendDirtree(w: State, path: Path, t: Tree, isRoot: bool, env: Env): State
    requires env.Valid()
    decreases t, 0
  {
    var w1 := AppendTreeObj(w, env.Flat(t), env);
    var w2 := if path == [Normal("var"), Normal("tmp")] then w1.(varTmp := true) else w1;
    AppendDirs(w2, path, t.dirs, isRoot, env)
  }

  function AppendDirs(w: State, path: Path, ds: seq<Dir>, isRoot: bool, env: Env): State
    requires env.Valid()
    decreases ds, 0
  {
    if ds == [] then w
    else
      var d := ds[0];
      var w1 := AppendMetaObj(w, d.meta, env);
      var w2 := if isRoot && d.name == "sysroot" then w1
                else
                  var sub := MapPath(path + [Normal(d.name)]);
                  AppendDirtree(AppendDirEntry(w1, sub, d.meta), sub, d.tree, false, env);
      AppendDirs(w2, path, ds[1..], isRoot, env)
  }

  /** `./var/tmp`, unless the commit was seen to have it. */
  function AppendStandardVar(w: State): State {
    if w.varTmp then w
    else w.Put(Entry([Normal("var"), Normal("tmp")], 0, 0, 0x3FF, 0, DirB))
  }

  function WriteCommit(w: State, c: Commit, env: Env): State
    requires env.Valid()
  {
    var w1 := WriteStructure(AppendDirEntry(w, [CurDir], c.meta));
    var w2 := AppendMetaObj(AppendCommitObj(w1, c, env), c.meta, env);
    AppendStandardVar(AppendDirtree(w2, [CurDir], c.root, true, env))
  }

  /** The final layer: the commit and all directory metadata, then the remaining objects. */
  function ExportFinal(c: Commit, remainder: seq<ChunkItem>, env: Env): seq<Entry>
    requires env.Valid()
  {
    WriteChunk(WriteCommit(START, c, env), remainder, env).out
  }

  // ---- the writer object ----

  class OstreeTarWriter {
    const env: Env
    var out: seq<Entry>
    var wroteInitDirs: bool
    var wroteVarTmp: bool
    var wroteDirtree: set<Sum>
    var wroteDirmeta: set<Sum>
    var wroteContent: set<Sum>
    var wroteXattrs: set<Sum>

    ghost function View(): State
      reads this
    {
      State(out, wroteInitDirs, wroteVarTmp, wroteDirtree, wroteDirmeta, wroteContent, wroteXattrs)
    }

    constructor (env: Env)
      ensures View() == START && this.env == env
    {
      this.env := env;
      out, wroteInitDirs, wroteVarTmp := [], false, false;
      wroteDirtree, wroteDirmeta, wroteContent, wroteXattrs := {}, {}, {}, {};
    }

    method WriteRepoStructure()
      modifies this
      ensures View() == WriteStructure(old(View()))
    {
      if !wroteInitDirs {
        out := out + RepoStructure();
        wroteInitDirs := true;
      }
    }

    method AppendDirtreeObject(t: TreeObj)
      requires env.Valid()
      modifies this
      ensures View() == AppendTreeObj(old(View()), t, env)
    {
      var sum := env.treeSum(t);
      if sum !in wroteDirtree {
        wroteDirtree := wroteDirtree + {sum};
        out := out + [DefaultData(ObjectPath(sum, Suffix(DirTreeK)), env.encTree(t))];
      }
    }

    method AppendDirmetaObject(m: DirMeta)
      requires env.Valid()
      modifies this
      ensures View() == AppendMetaObj(old(View()), m, env)
    {
      var sum := env.metaSum(m);
      if sum !in wroteDirmeta {
        wroteDirmeta := wroteDirmeta + {sum};
        out := out + [DefaultData(ObjectPath(sum, Suffix(DirMetaK)), env.encMeta(m))];
      }
    }

    method AppendContentObject(f: FileObj)
      requires env.Valid()
      modifies this
      ensures View() == AppendContent(old(View()), f, env)
    {
      var sum := env.fileSum(f);
      if sum !in wroteContent {
        wroteContent := wroteContent + {sum};
        var x := env.xattrSum(f.xattrs);
        if x !in wroteXattrs {
          wroteXattrs := wroteXattrs + {x};
          out := out + [DefaultData(ObjectPath(x, XATTRS), f.xattrs)];
        }
        out := out + [DefaultLink(ObjectPath(sum, XATTRS_LINK), ObjectPath(x, XATTRS))];
        out := out + [FileEntry(sum, f)];
      }
    }

    method WriteChunkItems(items: seq<ChunkItem>)
      requires env.Valid()
      modifies this
      ensures View() == WriteChunk(old(View()), items, env)
    {
      for i := 0 to |items|
        invariant View() == WriteChunk(old(View()), items[..i], env)
      {
        assert items[..i + 1][..i] == items[..i];
        AppendContentObject(items[i].obj);
        ghost var w := View();
        for j := 0 to |items[i].paths|
          invariant View() == AppendHardlinks(w, items[i].obj, items[i].paths[..j], env)
        {
          assert items[i].paths[..j + 1][..j] == items[i].paths[..j];
          out := out + [HardlinkEntry(items[i].obj, PathForTar(items[i].paths[j]), env)];
        }
        assert items[i].paths[..|items[i].paths|] == items[i].paths;
      }
      assert items[..|items|] == items;
    }

    method WriteDirtree(path: Path, t: Tree, isRoot: bool)
      requires env.Valid()
      modifies this
      ensures View() == AppendDirtree(old(View()), path, t, isRoot, env)
      decreases t
    {
      AppendDirtreeObject(env.Flat(t));
      if path == [Normal("var"), Normal("tmp")] {
        wroteVarTmp := true;
      }
      ghost var w := View();
      for i := 0 to |t.dirs|
        invariant AppendDirs(w, path, t.dirs, isRoot, env) == AppendDirs(View(), path, t.dirs[i..], isRoot, env)
      {
        var d := t.dirs[i];
        assert t.dirs[i..][0] == d && t.dirs[i..][1..] == t.dirs[i + 1..];
        AppendDirmetaObject(d.meta);
        if isRoot && d.name == "sysroot" { continue; }
        var sub := MapPath(path + [Normal(d.name)]);
        out := out + [Entry(sub, d.meta.uid, d.meta.gid, d.meta.mode, 0, DirB)];
        WriteDirtree(sub, d.tree, false);
      }
    }

    method WriteCommitStructure(c: Commit)
      requires env.Valid()
      modifies this
      ensures View() == WriteCommit(old(View()), c, env)
    {
      out := out + [Entry([CurDir], c.meta.uid, c.meta.gid, c.meta.mode, 0, DirB)];
      WriteRepoStructure();
      out := out + [CommitEntry(c, env)];
      if c.detached.Some? {
        out := out + [DetachedEntry(env.commitSum(env.FlatCommit(c)), c.detached.value, env)];
      }
      AppendDirmetaObject(c.meta);
      WriteDirtree([CurDir], c.root, true);
      if !wroteVarTmp {
        out := out + [Entry([Normal("var"), Normal("tmp")], 0, 0, 0x3FF, 0, DirB)];
      }
    }
  }

  // ---- /var/tmp is never recognised ----

  lemma {:induction false} VarTmpUnseen(w: State, path: Path, t: Tree, isRoot: bool, env: Env)
    requires env.Valid() && [CurDir] <= path
    ensures AppendDirtree(w, path, t, isRoot, env).varTmp == w.varTmp
    decreases t, 1
  {
    assert path[0] == CurDir;
    VarTmpUnseenDirs(AppendTreeObj(w, env.Flat(t), env), path, t.dirs, isRoot, env);
  }

  lemma {:induction false} VarTmpUnseenDirs(w: State, path: Path, ds: seq<Dir>, isRoot: bool, env: Env)
    requires env.Valid() && [CurDir] <= path
    ensures AppendDirs(w, path, ds, isRoot, env).varTmp == w.varTmp
    decreases ds, 0
  {
    if ds != [] {
      var d := ds[0];
      var w1 := AppendMetaObj(w, d.meta, env);
      var w2 := w1;
      if !(isRoot && d.name == "sysroot") {
        var sub := MapPath(path + [Normal(d.name)]);
        w2 := AppendDirtree(AppendDirEntry(w1, sub, d.meta), sub, d.tree, false, env);
        VarTmpUnseen(AppendDirEntry(w1, sub, d.meta), sub, d.tree, false, env);
      }
      VarTmpUnseenDirs(w2, path, ds[1..], isRoot, env);
    }
  }

  /** Directory paths start with `./`, so the check for `var/tmp` never succeeds and the
      synthesised `var/tmp` is written for every commit, even one that has its own. */
  lemma VarTmpAlwaysWritten(c: Commit, env: Env)
    requires env.Valid()
    ensures var out := WriteCommit(START, c, env).out;
      out != [] && out[|out| - 1] == Entry([Normal("var"), Normal("tmp")], 0, 0, 0x3FF, 0, DirB)
  {
    var w1 := WriteStructure(AppendDirEntry(START, [CurDir], c.meta));
    var w := AppendMetaObj(AppendCommitObj(w1, c, env), c.meta, env);
    VarTmpUnseen(w, [CurDir], c.root, true, env);
  }

  // ---- so a commit with a `/var/tmp` gets it twice ----

  predicate IsVarTmp(p: Path) {
    p == [Normal("var"), Normal("tmp")] || p == [CurDir, Normal("var"), Normal("tmp")]
  }

  /** The directory entries for `/var/tmp`. */
  function VarTmpEntries(out: seq<Entry>): seq<Entry> {
    Filter(out, (e: Entry) => e.body.DirB? && IsVarTmp(e.path))
  }

  /** How often the walk below `path` writes the directory. */
  function VarTmpDirs(path: Path, ds: seq<Dir>, isRoot: bool): nat
    decreases ds
  {
    if ds == [] then 0
    else
      var sub := MapPath(path + [Normal(ds[0].name)]);
      (if isRoot && ds[0].name == "sysroot" then 0
       else (if IsVarTmp(sub) then 1 else 0) + VarTmpDirs(sub, ds[0].tree.dirs, false))
      + VarTmpDirs(path, ds[1..], isRoot)
  }

  lemma PutCounts(w: State, e: Entry)
    ensures |VarTmpEntries(w.Put(e).out)| == |VarTmpEntries(w.out)| + if e.body.DirB? && IsVarTmp(e.path) then 1 else 0
  {
    assert (w.out + [e])[..|w.out|] == w.out;
  }

  lemma ObjectsDoNotCount(w: State, t: TreeObj, m: DirMeta, env: Env)
    requires env.Valid()
    ensures |VarTmpEntries(AppendTreeObj(w, t, env).out)| == |VarTmpEntries(w.out)|
    ensures |VarTmpEntries(AppendMetaObj(w, m, env).out)| == |VarTmpEntries(w.out)|
  {
    PutCounts(w, DefaultData(ObjectPath(env.treeSum(t), Suffix(DirTreeK)), env.encTree(t)));
    PutCounts(w, DefaultData(ObjectPath(env.metaSum(m), Suffix(DirMetaK)), env.encMeta(m)));
  }

  lemma {:induction false} DirtreeCounts(w: State, path: Path, t: Tree, isRoot: bool, env: Env)
    requires env.Valid()
    ensures |VarTmpEntries(AppendDirtree(w, path, t, isRoot, env).out)|
      == |VarTmpEntries(w.out)| + VarTmpDirs(path, t.dirs, isRoot)
    decreases t, 1
  {
    var w1 := AppendTreeObj(w, env.Flat(t), env);
    ObjectsDoNotCount(w, env.Flat(t), DirMeta(0, 0, 0, []), env);
    DirsCount(if path == [Normal("var"), Normal("tmp")] then w1.(varTmp := true) else w1, path, t.dirs, isRoot, env);
  }

  lemma {:induction false} DirsCount(w: State, path: Path, ds: seq<Dir>, isRoot: bool, env: Env)
    requires env.Valid()
    ensures |VarTmpEntries(AppendDirs(w, path, ds, isRoot, env).out)|
      == |VarTmpEntries(w.out)| + VarTmpDirs(path, ds, isRoot)
    decreases ds, 0
  {
    if ds != [] {
      var d := ds[0];
      var w1, w2 := AppendMetaObj(w, d.meta, env), AppendMetaObj(w, d.meta, env);
      ObjectsDoNotCount(w, TreeObj([], []), d.meta, env);
      if !(isRoot && d.name == "sysroot") {
        var sub := MapPath(path + [Normal(d.name)]);
        PutCounts(w1, Entry(sub, d.meta.uid, d.meta.gid, d.meta.mode, 0, DirB));
        DirtreeCounts(AppendDirEntry(w1, sub, d.meta), sub, d.tree, false, env);
        w2 := AppendDirtree(AppendDirEntry(w1, sub, d.meta), sub, d.tree, false, env);
      }
      DirsCount(w2, path, ds[1..], isRoot, env);
    }
  }

  lemma StructureElsewhere()
    ensures VarTmpEntries(RepoStructure()) == []
  {
    assert REPO[0] == Normal("sysroot") != Normal("var");
    StructureEntries();
    FilterAll(RepoStructure(), (e: Entry) => e.body.DirB? && IsVarTmp(e.path));
  }

  predicate Named(ds: seq<Dir>, name: string) { exists d :: d in ds && d.name == name }

  /** The commit has a `/var/tmp` of its own. */
  predicate HasVarTmp(root: Tree) {
    exists d :: d in root.dirs && d.name == "var" && Named(d.tree.dirs, "tmp")
  }

  /** Nowhere else does the walk come to that path. */
  lemma {:induction false} NotBelow(path: Path, ds: seq<Dir>)
    requires |path| >= 2 && path[0] == CurDir && (path[1] != Normal("var") || |path| >= 3)
    ensures VarTmpDirs(path, ds, false) == 0
    decreases ds
  {
    if ds != [] {
      var sub := MapPath(path + [Normal(ds[0].name)]);
      assert |sub| >= 2 && sub[0] == CurDir && (sub[1] != Normal("var") || |sub| >= 4);
      NotBelow(sub, ds[0].tree.dirs);
      NotBelow(path, ds[1..]);
    }
  }

  lemma {:induction false} BelowVar(path: Path, ds: seq<Dir>)
    requires path == [CurDir, Normal("var")]
    ensures VarTmpDirs(path, ds, false) > 0 <==> Named(ds, "tmp")
  {
    if ds != [] {
      var sub := path + [Normal(ds[0].name)];
      assert ([CurDir] + USR_ETC)[1] == Normal("usr") && sub[1] == Normal("var");
      assert MapPath(sub) == sub;
      assert sub == [CurDir, Normal("var"), Normal(ds[0].name)];
      NotBelow(sub, ds[0].tree.dirs);
      BelowVar(path, ds[1..]);
      assert ds == [ds[0]] + ds[1..];
      assert Named(ds, "tmp") <==> ds[0].name == "tmp" || Named(ds[1..], "tmp");
    }
  }

  lemma {:induction false} BelowRoot(path: Path, ds: seq<Dir>)
    requires path == [CurDir]
    ensures VarTmpDirs(path, ds, true) > 0 <==> HasVarTmp(Tree([], ds))
  {
    if ds != [] {
      var sub := path + [Normal(ds[0].name)];
      assert MapPath(sub) == sub == [CurDir, Normal(ds[0].name)];
      if ds[0].name == "var" {
        BelowVar(sub, ds[0].tree.dirs);
        assert ds[0].name != "sysroot";
      } else {
        NotBelow(sub, ds[0].tree.dirs);
      }
      BelowRoot(path, ds[1..]);
      assert ds == [ds[0]] + ds[1..];
      RootSplit(ds);
    }
  }

  lemma RootSplit(ds: seq<Dir>)
    requires ds != []
    ensures HasVarTmp(Tree([], ds)) <==>
      (ds[0].name == "var" && Named(ds[0].tree.dirs, "tmp")) || HasVarTmp(Tree([], ds[1..]))
  {
    assert ds == [ds[0]] + ds[1..];
    if d :| d in ds[1..] && d.name == "var" && Named(d.tree.dirs, "tmp") {
      assert d in Tree([], ds).dirs;
    }
  }

  /** The stream of a commit has one directory entry for `/var/tmp` exactly if the commit has none;
      otherwise there are more. */
  lemma VarTmpTwice(c: Commit, env: Env)
    requires env.Valid()
    ensures |VarTmpEntries(WriteCommit(START, c, env).out)| == 1 + VarTmpDirs([CurDir], c.root.dirs, true)
    ensures |VarTmpEntries(WriteCommit(START, c, env).out)| == 1 <==> !HasVarTmp(c.root)
  {
    var w0 := AppendDirEntry(START, [CurDir], c.meta);
    PutCounts(START, Entry([CurDir], c.meta.uid, c.meta.gid, c.meta.mode, 0, DirB));
    StructureElsewhere();
    FilterConcat(w0.out, RepoStructure(), (e: Entry) => e.body.DirB? && IsVarTmp(e.path));
    var w1 := WriteStructure(w0);
    CommitDoesNotCount(w1, c, env);
    var w2 := AppendMetaObj(AppendCommitObj(w1, c, env), c.meta, env);
    ObjectsDoNotCount(AppendCommitObj(w1, c, env), TreeObj([], []), c.meta, env);
    DirtreeCounts(w2, [CurDir], c.root, true, env);
    VarTmpUnseen(w2, [CurDir], c.root, true, env);
    PutCounts(AppendDirtree(w2, [CurDir], c.root, true, env),
      Entry([Normal("var"), Normal("tmp")], 0, 0, 0x3FF, 0, DirB));
    BelowRoot([CurDir], c.root.dirs);
    assert HasVarTmp(c.root) <==> HasVarTmp(Tree([], c.root.dirs));
  }

  lemma CommitDoesNotCount(w: State, c: Commit, env: Env)
    requires env.Valid()
    ensures |VarTmpEntries(AppendCommitObj(w, c, env).out)| == |VarTmpEntries(w.out)|
  {
    PutCounts(w, CommitEntry(c, env));
    if c.detached.Some? {
      PutCounts(w.Put(CommitEntry(c, env)), DetachedEntry(env.commitSum(env.FlatCommit(c)), c.detached.value, env));
    }
  }

  // ---- writing does not depend on what was written before ----

  /** The same writer with `x` already in the stream. */
  function Shift(w: State, x: seq<Entry>): State { w.(out := x + w.out) }

  lemma PutShift(w: State, x: seq<Entry>, e: Entry)
    ensures Shift(w, x).Put(e) == Shift(w.Put(e), x)
  {
    assert x + w.out + [e] == x + (w.out + [e]);
  }

  lemma TreeObjShift(w: State, x: seq<Entry>, t: TreeObj, env: Env)
    requires env.Valid()
    ensures AppendTreeObj(Shift(w, x), t, env) == Shift(AppendTreeObj(w, t, env), x)
  {
    var sum := env.treeSum(t);
    PutShift(w.(trees := w.trees + {sum}), x, DefaultData(ObjectPath(sum, Suffix(DirTreeK)), env.encTree(t)));
  }

  lemma MetaObjShift(w: State, x: seq<Entry>, m: DirMeta, env: Env)
    requires env.Valid()
    ensures AppendMetaObj(Shift(w, x), m, env) == Shift(AppendMetaObj(w, m, env), x)
  {
    var sum := env.metaSum(m);
    PutShift(w.(metas := w.metas + {sum}), x, DefaultData(ObjectPath(sum, Suffix(DirMetaK)), env.encMeta(m)));
  }

  lemma ContentShift(w: State, x: seq<Entry>, f: FileObj, env: Env)
    requires env.Valid()
    ensures AppendContent(Shift(w, x), f, env) == Shift(AppendContent(w, f, env), x)
  {
    var sum, xs := env.fileSum(f), env.xattrSum(f.xattrs);
    if sum !in w.content {
      var w1 := w.(content := w.content + {sum});
      var w2 := w1;
      if xs !in w1.xattrs {
        PutShift(w1.(xattrs := w1.xattrs + {xs}), x, DefaultData(ObjectPath(xs, XATTRS), f.xattrs));
        w2 := w1.(xattrs := w1.xattrs + {xs}).Put(DefaultData(ObjectPath(xs, XATTRS), f.xattrs));
      }
      var link := DefaultLink(ObjectPath(sum, XATTRS_LINK), ObjectPath(xs, XATTRS));
      PutShift(w2, x, link);
      PutShift(w2.Put(link), x, FileEntry(sum, f));
    }
  }

  lemma {:induction false} HardlinksShift(w: State, x: seq<Entry>, f: FileObj, paths: seq<Path>, env: Env)
    requires env.Valid()
    ensures AppendHardlinks(Shift(w, x), f, paths, env) == Shift(AppendHardlinks(w, f, paths, env), x)
  {
    if paths != [] {
      var init, p := paths[..|paths| - 1], paths[|paths| - 1];
      HardlinksShift(w, x, f, init, env);
      PutShift(AppendHardlinks(w, f, init, env), x, HardlinkEntry(f, PathForTar(p), env));
    }
  }

  lemma {:induction false} ChunkShift(w: State, x: seq<Entry>, items: seq<ChunkItem>, env: Env)
    requires env.Valid()
    ensures WriteChunk(Shift(w, x), items, env) == Shift(WriteChunk(w, items, env), x)
  {
    if items != [] {
      var init, last := items[..|items| - 1], items[|items| - 1];
      ChunkShift(w, x, init, env);
      ContentShift(WriteChunk(w, init, env), x, last.obj, env);
      HardlinksShift(AppendContent(WriteChunk(w, init, env), last.obj, env), x, last.obj, last.paths, env);
    }
  }

  lemma {:induction false} DirtreeShift(w: State, x: seq<Entry>, path: Path, t: Tree, isRoot: bool, env: Env)
    requires env.Valid()
    ensures AppendDirtree(Shift(w, x), path, t, isRoot, env) == Shift(AppendDirtree(w, path, t, isRoot, env), x)
    decreases t, 1
  {
    TreeObjShift(w, x, env.Flat(t), env);
    var w1 := AppendTreeObj(w, env.Flat(t), env);
    DirsShift(if path == [Normal("var"), Normal("tmp")] then w1.(varTmp := true) else w1, x, path, t.dirs, isRoot, env);
  }

  lemma {:induction false} DirsShift(w: State, x: seq<Entry>, path: Path, ds: seq<Dir>, isRoot: bool, env: Env)
    requires env.Valid()
    ensures AppendDirs(Shift(w, x), path, ds, isRoot, env) == Shift(AppendDirs(w, path, ds, isRoot, env), x)
    decreases ds, 0
  {
    if ds != [] {
      var d := ds[0];
      MetaObjShift(w, x, d.meta, env);
      var w1 := AppendMetaObj(w, d.meta, env);
      var w2 := w1;
      if !(isRoot && d.name == "sysroot") {
        var sub := MapPath(path + [Normal(d.name)]);
        PutShift(w1, x, Entry(sub, d.meta.uid, d.meta.gid, d.meta.mode, 0, DirB));
        DirtreeShift(AppendDirEntry(w1, sub, d.meta), x, sub, d.tree, false, env);
        w2 := AppendDirtree(AppendDirEntry(w1, sub, d.meta), sub, d.tree, false, env);
      }
      DirsShift(w2, x, path, ds[1..], isRoot, env);
    }
  }

  /** Everything after the root's metadata object in a final layer. */
  function FinalTail(c: Commit, remainder: seq<ChunkItem>, env: Env): seq<Entry>
    requires env.Valid()
  {
    var w := START.(initDirs := true, metas := {env.metaSum(c.meta)});
    WriteChunk(AppendStandardVar(AppendDirtree(w, [CurDir], c.root, true, env)), remainder, env).out
  }

  function RootMetaEntry(c: Commit, env: Env): Entry
    requires env.Valid()
  {
    DefaultData(ObjectPath(env.metaSum(c.meta), Suffix(DirMetaK)), env.encMeta(c.meta))
  }

  function DetachedEntries(c: Commit, env: Env): seq<Entry>
    requires env.Valid()
  {
    if c.detached.None? then [] else [DetachedEntry(env.commitSum(env.FlatCommit(c)), c.detached.value, env)]
  }

  function RootDirEntry(c: Commit): Entry {
    Entry([CurDir], c.meta.uid, c.meta.gid, c.meta.mode, 0, DirB)
  }

  /** What comes before the directory structure. */
  function FinalHead(c: Commit, env: Env): seq<Entry>
    requires env.Valid()
  {
    [RootDirEntry(c)] + RepoStructure() + [CommitEntry(c, env)] + DetachedEntries(c, env) + [RootMetaEntry(c, env)]
  }

  lemma HeadWritten(c: Commit, env: Env)
    requires env.Valid()
    ensures AppendMetaObj(AppendCommitObj(WriteStructure(AppendDirEntry(START, [CurDir], c.meta)), c, env), c.meta, env)
      == Shift(START.(initDirs := true, metas := {env.metaSum(c.meta)}), FinalHead(c, env))
  {
  }

  lemma VarShift(w: State, x: seq<Entry>)
    ensures AppendStandardVar(Shift(w, x)) == Shift(AppendStandardVar(w), x)
  {
    PutShift(w, x, Entry([Normal("var"), Normal("tmp")], 0, 0, 0x3FF, 0, DirB));
  }

  lemma HeadAndTail(c: Commit, remainder: seq<ChunkItem>, env: Env)
    requires env.Valid()
    ensures ExportFinal(c, remainder, env) == FinalHead(c, env) + FinalTail(c, remainder, env)
  {
    var w, head := START.(initDirs := true, metas := {env.metaSum(c.meta)}), FinalHead(c, env);
    HeadWritten(c, env);
    DirtreeShift(w, head, [CurDir], c.root, true, env);
    VarShift(AppendDirtree(w, [CurDir], c.root, true, env), head);
    ChunkShift(AppendStandardVar(AppendDirtree(w, [CurDir], c.root, true, env)), head, remainder, env);
  }

  /** The layout of a final layer; only one part depends on the detached metadata. */
  lemma FinalLayout(c: Commit, remainder: seq<ChunkItem>, env: Env)
    requires env.Valid()
    ensures ExportFinal(c, remainder, env)
      == [RootDirEntry(c)] + RepoStructure() + [CommitEntry(c, env)]
         + (DetachedEntries(c, env) + ([RootMetaEntry(c, env)] + FinalTail(c, remainder, env)))
  {
    HeadAndTail(c, remainder, env);
    Reassociate([RootDirEntry(c)] + RepoStructure() + [CommitEntry(c, env)], DetachedEntries(c, env),
                [RootMetaEntry(c, env)], FinalTail(c, remainder, env));
  }

  lemma Reassociate<T>(a: seq<T>, b: seq<T>, c: seq<T>, d: seq<T>)
    ensures a + b + c + d == a + (b + (c + d))
  {
  }
}
