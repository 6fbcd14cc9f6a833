/** The form of every layer that is written: each object once, and each entry of the repository after
    its directory (lib/src/tar/export.rs). */
module LayerForm {
  import opened Outcomes
  import opened Paths
  import opened Objects
  import opened ObjectPaths
  import opened TarStream
  import opened RoundTrip
  import E = TarExport

  // ---- names of objects ----

  datatype Label = Kind(k: ObjKind) | Xattrs | XattrsLink

  /** The objects whose entries have been written. */
  type Written = set<(Sum, Label)>

  function Extension(l: Label): string {
    match l
    case Kind(k) => Suffix(k)
    case Xattrs => XATTRS
    case XattrsLink => XATTRS_LINK
  }

  lemma ExtensionsDiffer(a: Label, b: Label)
    ensures '.' !in Extension(a) && (Extension(a) == Extension(b) <==> a == b)
  {
    if a.Kind? { SuffixKind(a.k); }
    if b.Kind? { SuffixKind(b.k); }
    assert KindOf(XATTRS) == KindOf(XATTRS_LINK) == None;
  }

  function NameOf(sum: Sum, l: Label): Path
    requires IsSha256(sum)
  {
    ObjectPath(sum, Extension(l))
  }

  lemma OneName(s: Sum, a: Label, t: Sum, b: Label)
    requires IsSha256(s) && IsSha256(t)
    ensures NameOf(s, a) == NameOf(t, b) <==> s == t && a == b
  {
    ExtensionsDiffer(a, b);
    ExtensionsDiffer(b, b);
    if s != t || a != b {
      NamesDiffer(s, Extension(a), t, Extension(b));
    }
  }

  // ---- the form of a stream ----

  predicate InRepository(p: Path) { REPO <= p }

  /** Three levels below the repository: the place of an object. */
  predicate IsObjectName(p: Path) { InRepository(p) && |p| == |REPO| + 3 }

  /** No object is written twice. */
  ghost predicate ObjectsOnce(out: seq<Entry>) {
    forall i, j | 0 <= i < j < |out| && IsObjectName(out[i].path) :: out[j].path != out[i].path
  }

  ghost predicate DirectoryBefore(out: seq<Entry>, i: nat)
    requires i < |out| && InRepository(out[i].path)
  {
    exists j :: 0 <= j < i && out[j].body.DirB? && out[j].path == out[i].path[..|out[i].path| - 1]
  }

  /** Every entry of the repository comes after the directory that it is in. */
  ghost predicate DirectoriesFirst(out: seq<Entry>) {
    forall i | 0 <= i < |out| && InRepository(out[i].path) :: DirectoryBefore(out, i)
  }

  // ---- one entry more ----

  function HashDir(d: nat): Path
    requires d < 256
  {
    E.OBJECTS + [Normal(E.HexByte(d))]
  }

  ghost predicate HasHashDirs(out: seq<Entry>) {
    forall d | 0 <= d < 256 :: DefaultDir(HashDir(d)) in out
  }

  ghost predicate Recorded(out: seq<Entry>, written: Written) {
    && (forall k | k in written :: IsSha256(k.0))
    && forall e | e in out && IsObjectName(e.path) ::
         exists k :: k in written && IsSha256(k.0) && e.path == NameOf(k.0, k.1)
  }

  ghost predicate Formed(out: seq<Entry>, written: Written) {
    ObjectsOnce(out) && DirectoriesFirst(out) && HasHashDirs(out) && Recorded(out, written)
  }

  lemma DirectoriesMore(out: seq<Entry>, e: Entry)
    requires DirectoriesFirst(out)
    requires InRepository(e.path) ==> exists d :: d in out && d.body.DirB? && d.path == e.path[..|e.path| - 1]
    ensures DirectoriesFirst(out + [e])
  {
    var all := out + [e];
    forall i | 0 <= i < |all| && InRepository(all[i].path)
      ensures DirectoryBefore(all, i)
    {
      if i < |out| {
        assert DirectoryBefore(out, i);
        var j :| 0 <= j < i && out[j].body.DirB? && out[j].path == out[i].path[..|out[i].path| - 1];
        assert all[j] == out[j];
      } else {
        var d :| d in out && d.body.DirB? && d.path == e.path[..|e.path| - 1];
        var j :| 0 <= j < |out| && out[j] == d;
        assert all[j] == d;
      }
    }
  }

  lemma OtherFormed(out: seq<Entry>, written: Written, e: Entry)
    requires Formed(out, written) && !InRepository(e.path)
    ensures Formed(out + [e], written)
  {
    DirectoriesMore(out, e);
  }

  lemma ObjectFormed(out: seq<Entry>, written: Written, e: Entry, sum: Sum, l: Label)
    requires Formed(out, written) && IsSha256(sum) && (sum, l) !in written && e.path == NameOf(sum, l)
    ensures Formed(out + [e], written + {(sum, l)})
  {
    forall x | x in out && IsObjectName(x.path)
      ensures x.path != e.path
    {
      var k :| k in written && IsSha256(k.0) && x.path == NameOf(k.0, k.1);
      OneName(k.0, k.1, sum, l);
      assert k == (k.0, k.1);
    }
    ObjectDirectory(out, sum, l);
    DirectoriesMore(out, e);
    RecordedMore(out, written, e, sum, l);
  }

  lemma ObjectDirectory(out: seq<Entry>, sum: Sum, l: Label)
    requires HasHashDirs(out) && IsSha256(sum)
    ensures var p := NameOf(sum, l);
      exists d :: d in out && d.body.DirB? && d.path == p[..|p| - 1]
  {
    var p := NameOf(sum, l);
    HashDirOf(sum);
    var d :| 0 <= d < 256 && E.HexByte(d) == sum[..2];
    assert p[..|p| - 1] == HashDir(d);
    assert DefaultDir(HashDir(d)) in out;
  }

  lemma RecordedMore(out: seq<Entry>, written: Written, e: Entry, sum: Sum, l: Label)
    requires Recorded(out, written) && IsSha256(sum) && e.path == NameOf(sum, l)
    ensures Recorded(out + [e], written + {(sum, l)})
  {
    forall x | x in out + [e] && IsObjectName(x.path)
      ensures exists k :: k in written + {(sum, l)} && IsSha256(k.0) && x.path == NameOf(k.0, k.1)
    {
      if x in out {
        var k :| k in written && IsSha256(k.0) && x.path == NameOf(k.0, k.1);
        assert k in written + {(sum, l)};
      } else {
        assert (sum, l) in written + {(sum, l)};
      }
    }
  }

  lemma HashDirOf(sum: Sum)
    requires IsSha256(sum)
    ensures exists d :: 0 <= d < 256 && E.HexByte(d) == sum[..2]
  {
    assert sum[0] in sum && sum[1] in sum;
    DigitIs(sum[0]);
    DigitIs(sum[1]);
    var a :| 0 <= a < 16 && "0123456789abcdef"[a] == sum[0];
    var b :| 0 <= b < 16 && "0123456789abcdef"[b] == sum[1];
    var d := 16 * a + b;
    assert d / 16 == a && d % 16 == b;
    assert E.HexByte(d) == [sum[0], sum[1]] == sum[..2];
  }

  lemma DigitIs(c: char)
    requires '0' <= c <= '9' || 'a' <= c <= 'f'
    ensures exists a :: 0 <= a < 16 && "0123456789abcdef"[a] == c
  {
    var a := if c <= '9' then c as int - '0' as int else c as int - 'a' as int + 10;
    assert "0123456789abcdef"[a] == c;
  }

  // ---- the directories of an empty repository ----

  /** Where the directory of the `i`-th entry is among those before it. */
  function ParentAt(i: nat): nat
    requires 2 <= i < 269
  {
    if i < 4 then i - 1
    else if i < 260 then 3
    else if 262 <= i <= 264 then 261
    else if i == 267 then 266
    else 2
  }

  lemma StructureLevels(i: nat)
    requires i < |E.RepoStructure()|
    ensures |E.RepoStructure()| == 269
    ensures var p := E.RepoStructure()[i].path;
      && 1 <= |p| <= 5
      && (i < 4 ==> p == E.OBJECTS[..i + 1])
      && (4 <= i < 260 ==> p == HashDir(i - 4))
      && (260 <= i < 268 ==> E.RepoStructure()[i] == E.RepoDir(E.REPO_SUBDIRS[i - 260]))
      && (i < 268 ==> E.RepoStructure()[i].body.DirB?)
      && (i == 268 ==> p == REPO + [Normal("config")])
  {
    assert |E.REPO_SUBDIRS| == 8;
  }

  lemma StructureParent(i: nat)
    requires 2 <= i < 269 == |E.RepoStructure()|
    ensures var s, j := E.RepoStructure(), ParentAt(i);
      j < i && s[j].body.DirB? && s[j].path == s[i].path[..|s[i].path| - 1]
  {
    var j := ParentAt(i);
    StructureLevels(i);
    StructureLevels(j);
    if 260 <= i < 268 {
      SubdirParent(i - 260);
    }
  }

  lemma SubdirParent(k: nat)
    requires k < 8 == |E.REPO_SUBDIRS|
    ensures var p := E.RepoDir(E.REPO_SUBDIRS[k]).path;
      |p| > |REPO| && p[..|p| - 1] == if 2 <= k <= 4 then E.RepoDir(E.REPO_SUBDIRS[1]).path
                                      else if k == 7 then E.RepoDir(E.REPO_SUBDIRS[6]).path
                                      else REPO
  {
  }

  /** After entries elsewhere, the structure is a stream of the right form. */
  lemma StructureFormed(before: seq<Entry>)
    requires forall e | e in before :: !InRepository(e.path)
    ensures Formed(before + E.RepoStructure(), {})
  {
    var s := E.RepoStructure();
    var out := before + s;
    StructureLevels(0);
    assert |s| == 269;
    forall i | |before| <= i < |out|
      ensures !IsObjectName(out[i].path)
      ensures InRepository(out[i].path) ==> DirectoryBefore(out, i)
    {
      var k := i - |before|;
      StructureLevels(k);
      if k >= 2 {
        StructureParent(k);
        assert out[|before| + ParentAt(k)] == s[ParentAt(k)];
      } else {
        assert !InRepository(s[k].path);
      }
    }
    forall i | 0 <= i < |before|
      ensures out[i] in before
    {
    }
    forall d | 0 <= d < 256
      ensures DefaultDir(HashDir(d)) in out
    {
      assert s[4 + d] == DefaultDir(HashDir(d));
      assert out[|before| + 4 + d] == s[4 + d];
    }
    assert forall e | e in out :: !IsObjectName(e.path);
  }

  // ---- the writer ----

  function Labelled(sums: set<Sum>, l: Label): Written {
    set s | s in sums :: (s, l)
  }

  /** What the four sets of the writer stand for. */
  function Marks(w: E.State): Written {
    Labelled(w.trees, Kind(DirTreeK)) + Labelled(w.metas, Kind(DirMetaK))
    + Labelled(w.content, Kind(FileK)) + Labelled(w.content, XattrsLink) + Labelled(w.xattrs, Xattrs)
  }

  lemma LabelledMore(sums: set<Sum>, l: Label, sum: Sum)
    ensures Labelled(sums + {sum}, l) == Labelled(sums, l) + {(sum, l)}
  {
  }

  lemma MarksMore(w: E.State, sum: Sum)
    ensures Marks(w.(trees := w.trees + {sum})) == Marks(w) + {(sum, Kind(DirTreeK))}
    ensures Marks(w.(metas := w.metas + {sum})) == Marks(w) + {(sum, Kind(DirMetaK))}
    ensures Marks(w.(xattrs := w.xattrs + {sum})) == Marks(w) + {(sum, Xattrs)}
    ensures Marks(w.(content := w.content + {sum})) == Marks(w) + {(sum, XattrsLink), (sum, Kind(FileK))}
  {
    LabelledMore(w.trees, Kind(DirTreeK), sum);
    LabelledMore(w.metas, Kind(DirMetaK), sum);
    LabelledMore(w.xattrs, Xattrs, sum);
    LabelledMore(w.content, XattrsLink, sum);
    LabelledMore(w.content, Kind(FileK), sum);
  }

  lemma InMarks(w: E.State, sum: Sum)
    ensures (sum, Kind(DirTreeK)) in Marks(w) <==> sum in w.trees
    ensures (sum, Kind(DirMetaK)) in Marks(w) <==> sum in w.metas
    ensures (sum, Xattrs) in Marks(w) <==> sum in w.xattrs
    ensures (sum, XattrsLink) in Marks(w) <==> sum in w.content
    ensures (sum, Kind(FileK)) in Marks(w) <==> sum in w.content
  {
  }

  lemma SameMarks(v: E.State, w: E.State)
    requires v.trees == w.trees && v.metas == w.metas && v.content == w.content && v.xattrs == w.xattrs
    ensures Marks(v) == Marks(w)
  {
  }

  /** The commit objects are written once, before everything else. */
  ghost predicate OfCommits(extra: Written) {
    forall k | k in extra :: k.1 == Kind(CommitK) || k.1 == Kind(CommitMetaK)
  }

  ghost predicate Good(w: E.State, extra: Written) {
    OfCommits(extra) && Formed(w.out, Marks(w) + extra)
  }

  lemma Added(a: Written, b: Written, extra: Written, k: (Sum, Label))
    requires b == a + {k}
    ensures b + extra == a + extra + {k}
  {
  }

  lemma TreeGood(w: E.State, extra: Written, t: TreeObj, env: Env)
    requires env.Valid() && Good(w, extra)
    ensures Good(E.AppendTreeObj(w, t, env), extra)
  {
    var sum, l := env.treeSum(t), Kind(DirTreeK);
    var marked := w.(trees := w.trees + {sum});
    InMarks(w, sum);
    if sum !in w.trees {
      var e := DefaultData(NameOf(sum, l), env.encTree(t));
      ObjectFormed(w.out, Marks(w) + extra, e, sum, l);
      MarksMore(w, sum);
      Added(Marks(w), Marks(marked), extra, (sum, l));
      SameMarks(marked.Put(e), marked);
      assert E.AppendTreeObj(w, t, env) == marked.Put(e);
    }
  }

  lemma MetaGood(w: E.State, extra: Written, m: DirMeta, env: Env)
    requires env.Valid() && Good(w, extra)
    ensures Good(E.AppendMetaObj(w, m, env), extra)
  {
    var sum, l := env.metaSum(m), Kind(DirMetaK);
    var marked := w.(metas := w.metas + {sum});
    InMarks(w, sum);
    if sum !in w.metas {
      var e := DefaultData(NameOf(sum, l), env.encMeta(m));
      ObjectFormed(w.out, Marks(w) + extra, e, sum, l);
      MarksMore(w, sum);
      Added(Marks(w), Marks(marked), extra, (sum, l));
      SameMarks(marked.Put(e), marked);
      assert E.AppendMetaObj(w, m, env) == marked.Put(e);
    }
  }

  /** The xattrs object, once. */
  lemma XattrsGood(w: E.State, extra: Written, xattrs: Bytes, env: Env)
    requires env.Valid() && Good(w, extra)
    ensures var x := env.xattrSum(xattrs);
      x !in w.xattrs ==> Good(w.(xattrs := w.xattrs + {x}).Put(DefaultData(NameOf(x, Xattrs), xattrs)), extra)
  {
    var x := env.xattrSum(xattrs);
    var marked, e := w.(xattrs := w.xattrs + {x}), DefaultData(NameOf(x, Xattrs), xattrs);
    InMarks(w, x);
    if x !in w.xattrs {
      ObjectFormed(w.out, Marks(w) + extra, e, x, Xattrs);
      MarksMore(w, x);
      Added(Marks(w), Marks(marked), extra, (x, Xattrs));
      SameMarks(marked.Put(e), marked);
    }
  }

  /** The link to the xattrs and the file itself. */
  lemma FileGood(w: E.State, extra: Written, link: Entry, e: Entry, sum: Sum)
    requires Good(w, extra) && IsSha256(sum) && sum !in w.content
    requires link.path == NameOf(sum, XattrsLink) && e.path == NameOf(sum, Kind(FileK))
    ensures Good(w.(content := w.content + {sum}).Put(link).Put(e), extra)
  {
    var marked, written := w.(content := w.content + {sum}), Marks(w) + extra;
    InMarks(w, sum);
    ObjectFormed(w.out, written, link, sum, XattrsLink);
    ObjectFormed(w.out + [link], written + {(sum, XattrsLink)}, e, sum, Kind(FileK));
    MarksMore(w, sum);
    SameMarks(marked.Put(link).Put(e), marked);
    Added(Marks(w), Marks(w) + {(sum, XattrsLink)}, extra, (sum, XattrsLink));
    assert Marks(marked) == Marks(w) + {(sum, XattrsLink)} + {(sum, Kind(FileK))};
    Added(Marks(w) + {(sum, XattrsLink)}, Marks(marked), extra, (sum, Kind(FileK)));
  }

  lemma ContentGood(w: E.State, extra: Written, f: FileObj, env: Env)
    requires env.Valid() && Good(w, extra)
    ensures Good(E.AppendContent(w, f, env), extra)
  {
    var sum, x := env.fileSum(f), env.xattrSum(f.xattrs);
    if sum !in w.content {
      var link := DefaultLink(NameOf(sum, XattrsLink), NameOf(x, Xattrs));
      XattrsGood(w, extra, f.xattrs, env);
      var w1 := if x in w.xattrs then w
                else w.(xattrs := w.xattrs + {x}).Put(DefaultData(NameOf(x, Xattrs), f.xattrs));
      FileGood(w1, extra, link, E.FileEntry(sum, f), sum);
      assert E.AppendContent(w, f, env)
        == w1.(content := w1.content + {sum}).Put(link).Put(E.FileEntry(sum, f));
    }
  }

  lemma OtherGood(w: E.State, extra: Written, e: Entry)
    requires Good(w, extra) && !InRepository(e.path)
    ensures Good(w.Put(e), extra)
  {
    OtherFormed(w.out, Marks(w) + extra, e);
    SameMarks(w, w.Put(e));
  }

  lemma {:induction false} LinksGood(w: E.State, extra: Written, f: FileObj, paths: seq<Path>, env: Env)
    requires env.Valid() && Good(w, extra) && forall p | p in paths :: ClearPath(p)
    ensures Good(E.AppendHardlinks(w, f, paths, env), extra)
  {
    if paths != [] {
      var init, last := paths[..|paths| - 1], paths[|paths| - 1];
      LinksGood(w, extra, f, init, env);
      assert last in paths;
      OtherGood(E.AppendHardlinks(w, f, init, env), extra, E.HardlinkEntry(f, E.PathForTar(last), env));
    }
  }

  lemma {:induction false} ItemsGood(w: E.State, extra: Written, items: seq<E.ChunkItem>, env: Env)
    requires env.Valid() && Good(w, extra) && ClearItems(items)
    ensures Good(E.WriteChunk(w, items, env), extra)
  {
    if items != [] {
      var init, last := items[..|items| - 1], items[|items| - 1];
      assert items == init + [last] && last in items;
      ItemsGood(w, extra, init, env);
      ContentGood(E.WriteChunk(w, init, env), extra, last.obj, env);
      LinksGood(E.AppendContent(E.WriteChunk(w, init, env), last.obj, env), extra, last.obj, last.paths, env);
    }
  }

  lemma {:induction false} DirtreeGood(w: E.State, extra: Written, path: Path, t: Tree, isRoot: bool, env: Env)
    requires env.Valid() && Good(w, extra) && [CurDir] <= path
    ensures Good(E.AppendDirtree(w, path, t, isRoot, env), extra)
    decreases t, 1
  {
    TreeGood(w, extra, env.Flat(t), env);
    var w1 := E.AppendTreeObj(w, env.Flat(t), env);
    assert path[0] == CurDir;
    DirsGood(w1, extra, path, t.dirs, isRoot, env);
  }

  lemma {:induction false} DirsGood(w: E.State, extra: Written, path: Path, ds: seq<Dir>, isRoot: bool, env: Env)
    requires env.Valid() && Good(w, extra) && [CurDir] <= path
    ensures Good(E.AppendDirs(w, path, ds, isRoot, env), extra)
    decreases ds, 0
  {
    if ds != [] {
      var d := ds[0];
      MetaGood(w, extra, d.meta, env);
      var w1 := E.AppendMetaObj(w, d.meta, env);
      var w2 := w1;
      if !(isRoot && d.name == "sysroot") {
        var sub := E.MapPath(path + [Normal(d.name)]);
        assert sub[0] == CurDir;
        OtherGood(w1, extra, Entry(sub, d.meta.uid, d.meta.gid, d.meta.mode, 0, DirB));
        DirtreeGood(E.AppendDirEntry(w1, sub, d.meta), extra, sub, d.tree, false, env);
        w2 := E.AppendDirtree(E.AppendDirEntry(w1, sub, d.meta), sub, d.tree, false, env);
      }
      DirsGood(w2, extra, path, ds[1..], isRoot, env);
    }
  }

  // ---- whole layers ----

  /** A chunk layer holds each object once, and each entry of the repository after its directory. */
  lemma ChunkForm(items: seq<E.ChunkItem>, env: Env)
    requires env.Valid() && ClearItems(items)
    ensures ObjectsOnce(E.ExportChunk(items, env)) && DirectoriesFirst(E.ExportChunk(items, env))
  {
    var w := E.WriteStructure(E.START);
    StructureFormed([]);
    assert [] + E.RepoStructure() == E.RepoStructure();
    assert Marks(w) + {} == {};
    ItemsGood(w, {}, items, env);
  }

  /** The objects of the commit itself. */
  function CommitMarks(sum: Sum, c: Commit): Written {
    if c.detached.None? then {(sum, Kind(CommitK))} else {(sum, Kind(CommitK)), (sum, Kind(CommitMetaK))}
  }

  lemma CommitFormed(out: seq<Entry>, c: Commit, env: Env)
    requires env.Valid() && Formed(out, {})
    ensures var sum, out1 := env.commitSum(env.FlatCommit(c)), out + [E.CommitEntry(c, env)];
      if c.detached.None? then Formed(out1, CommitMarks(sum, c))
      else Formed(out1 + [E.DetachedEntry(sum, c.detached.value, env)], CommitMarks(sum, c))
  {
    var sum, e := env.commitSum(env.FlatCommit(c)), E.CommitEntry(c, env);
    var first := {(sum, Kind(CommitK))};
    ObjectFormed(out, {}, e, sum, Kind(CommitK));
    assert {} + first == first;
    if c.detached.Some? {
      ObjectFormed(out + [e], first, E.DetachedEntry(sum, c.detached.value, env), sum, Kind(CommitMetaK));
      assert first + {(sum, Kind(CommitMetaK))} == CommitMarks(sum, c);
    }
  }

  lemma CommitGood(w: E.State, c: Commit, env: Env)
    requires env.Valid() && Formed(w.out, {}) && Marks(w) == {}
    ensures Good(E.AppendCommitObj(w, c, env), CommitMarks(env.commitSum(env.FlatCommit(c)), c))
  {
    var extra := CommitMarks(env.commitSum(env.FlatCommit(c)), c);
    CommitFormed(w.out, c, env);
    SameMarks(E.AppendCommitObj(w, c, env), w);
    assert {} + extra == extra;
  }

  /** And so does the final layer. */
  lemma FinalForm(c: Commit, remainder: seq<E.ChunkItem>, env: Env)
    requires env.Valid() && ClearItems(remainder)
    ensures ObjectsOnce(E.ExportFinal(c, remainder, env)) && DirectoriesFirst(E.ExportFinal(c, remainder, env))
  {
    var w1 := E.WriteStructure(E.AppendDirEntry(E.START, [CurDir], c.meta));
    var extra := CommitMarks(env.commitSum(env.FlatCommit(c)), c);
    StructureFormed(E.AppendDirEntry(E.START, [CurDir], c.meta).out);
    SameMarks(w1, E.START);
    CommitGood(w1, c, env);
    var w2 := E.AppendCommitObj(w1, c, env);
    MetaGood(w2, extra, c.meta, env);
    var w3 := E.AppendMetaObj(w2, c.meta, env);
    DirtreeGood(w3, extra, [CurDir], c.root, true, env);
    var w4 := E.AppendDirtree(w3, [CurDir], c.root, true, env);
    if !w4.varTmp {
      OtherGood(w4, extra, Entry([Normal("var"), Normal("tmp")], 0, 0, 0x3FF, 0, DirB));
    }
    ItemsGood(E.WriteCommit(E.START, c, env), extra, remainder, env);
  }
}
