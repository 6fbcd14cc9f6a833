/** Signing all files of a commit (lib/src/ima.rs). */
module Ima {
  import opened Outcomes

  type Sum = string
  type Bytes = seq<char>

  const IMA_XATTR: string := "security.ima"

  datatype FileObj =
    | Regular(meta: Bytes, xattrs: map<string, Bytes>, data: Bytes)
    | Link(meta: Bytes, target: string)

  datatype File = File(name: string, sum: Sum)

  datatype Dir = Dir(name: string, tree: Tree, meta: Sum)

  /** Files only by checksum. */
  datatype Tree = Tree(files: seq<File>, dirs: seq<Dir>)

  datatype Commit = Commit(info: Bytes, root: Tree, meta: Sum)

  type Files = map<Sum, FileObj>

  // ---- a pure map over the tree ----

  function Look(m: map<Sum, Sum>, s: Sum): Sum {
    if s in m then m[s] else s
  }

  function MapFiles(files: seq<File>, m: map<Sum, Sum>): seq<File> {
    if files == [] then []
    else MapFiles(files[..|files| - 1], m) + [files[|files| - 1].(sum := Look(m, files[|files| - 1].sum))]
  }

  function MapDirs(dirs: seq<Dir>, m: map<Sum, Sum>): seq<Dir>
    decreases dirs, 0
  {
    if dirs == [] then []
    else
      var d := dirs[|dirs| - 1];
      MapDirs(dirs[..|dirs| - 1], m) + [d.(tree := MapTree(d.tree, m))]
  }

  function MapTree(t: Tree, m: map<Sum, Sum>): Tree
    decreases t, 1
  {
    Tree(MapFiles(t.files, m), MapDirs(t.dirs, m))
  }

  // ---- the checksums in a tree ----

  function FileSums(files: seq<File>): set<Sum> {
    set f | f in files :: f.sum
  }

  function DirSums(dirs: seq<Dir>): set<Sum>
    decreases dirs, 0
  {
    if dirs == [] then {} else DirSums(dirs[..|dirs| - 1]) + Sums(dirs[|dirs| - 1].tree)
  }

  function Sums(t: Tree): set<Sum>
    decreases t, 1
  {
    FileSums(t.files) + DirSums(t.dirs)
  }

  // ---- which files are left alone ----

  predicate HasSignature(f: FileObj) {
    f.Regular? && IMA_XATTR in f.xattrs
  }

  /** Links, and signed files unless signatures are overwritten. */
  predicate LeftAlone(f: FileObj, overwrite: bool) {
    f.Link? || (HasSignature(f) && !overwrite)
  }

  function WithSignature(f: FileObj, sig: Bytes): FileObj
    requires f.Regular?
  {
    f.(xattrs := f.xattrs[IMA_XATTR := sig])
  }

  ghost predicate Injective(hash: FileObj -> Sum) {
    forall f, g | hash(f) == hash(g) :: f == g
  }

  /** What signing the `n`-th time answers; different times may give different signatures. */
  type Signer = (nat, Bytes) -> Option<Bytes>

  /** The second object is the first with the `n`-th signature. */
  predicate SignedAs(files: Files, overwrite: bool, sign: Signer, s: Sum, sum: Sum, n: nat) {
    && s in files && files[s].Regular? && !LeftAlone(files[s], overwrite)
    && sum in files && sign(n, files[s].data).Some?
    && files[sum] == WithSignature(files[s], sign(n, files[s].data).value)
  }

  ghost predicate WasSigned(files: Files, overwrite: bool, sign: Signer, s: Sum, sum: Sum) {
    exists n :: SignedAs(files, overwrite, sign, s, sum, n)
  }

  lemma StillSigned(before: Files, after: Files, overwrite: bool, sign: Signer, m: map<Sum, Sum>)
    requires forall k | k in before :: k in after && after[k] == before[k]
    requires forall s | s in m :: WasSigned(before, overwrite, sign, s, m[s])
    ensures forall s | s in m :: WasSigned(after, overwrite, sign, s, m[s])
  {
    forall s | s in m
      ensures WasSigned(after, overwrite, sign, s, m[s])
    {
      var n :| SignedAs(before, overwrite, sign, s, m[s], n);
      assert SignedAs(after, overwrite, sign, s, m[s], n);
    }
  }

  /** The same file with this signature: what it holds, its owner and mode, and all its other
      extended attributes stay. */
  predicate OnlySigned(f: FileObj, g: FileObj, sig: Bytes) {
    && f.Regular? && g.Regular? && g.meta == f.meta && g.data == f.data
    && g.xattrs.Keys == f.xattrs.Keys + {"security.ima"} && g.xattrs["security.ima"] == sig
    && forall k | k in f.xattrs && k != "security.ima" :: g.xattrs[k] == f.xattrs[k]
  }

  /** A link, or a file that has a signature already and is not to get another. */
  predicate KeepsSignature(f: FileObj, overwrite: bool) {
    f.Link? || ("security.ima" in f.xattrs && !overwrite)
  }

  /** In the mapped tree the object is the same if it keeps its signature, and differs in the
      signature alone if not. */
  ghost predicate MappedTo(files: Files, overwrite: bool, sign: Signer, s: Sum, sum: Sum) {
    && s in files && sum in files
    && if KeepsSignature(files[s], overwrite) then sum == s
       else exists n :: sign(n, files[s].data).Some? && OnlySigned(files[s], files[sum], sign(n, files[s].data).value)
  }

  ghost predicate FileMapped(files: Files, overwrite: bool, sign: Signer, f: File, g: File) {
    g.name == f.name && MappedTo(files, overwrite, sign, f.sum, g.sum)
  }

  /** File by file and directory by directory, in order. */
  ghost predicate TreeMapped(files: Files, overwrite: bool, sign: Signer, a: Tree, b: Tree)
    decreases a, 1
  {
    && |a.files| == |b.files|
    && (forall i | 0 <= i < |a.files| :: FileMapped(files, overwrite, sign, a.files[i], b.files[i]))
    && DirsMapped(files, overwrite, sign, a.dirs, b.dirs)
  }

  ghost predicate DirsMapped(files: Files, overwrite: bool, sign: Signer, a: seq<Dir>, b: seq<Dir>)
    decreases a, 0
  {
    |a| == |b| && forall i | 0 <= i < |a| ::
      b[i].name == a[i].name && b[i].meta == a[i].meta && TreeMapped(files, overwrite, sign, a[i].tree, b[i].tree)
  }

  lemma MoreMapped(files: Files, overwrite: bool, sign: Signer, a: seq<Dir>, b: seq<Dir>, x: Dir, y: Dir)
    requires DirsMapped(files, overwrite, sign, a, b)
    requires y.name == x.name && y.meta == x.meta && TreeMapped(files, overwrite, sign, x.tree, y.tree)
    ensures DirsMapped(files, overwrite, sign, a + [x], b + [y])
  {
  }

  class CommitRewriter {
    const overwrite: bool
    const hash: FileObj -> Sum
    const sign: Signer
    var files: Files
    var rewritten: map<Sum, Sum>
    var calls: nat

    /** Objects are stored under their checksums; what was rewritten was to be rewritten, and
        differs from the original in the signature alone. */
    ghost predicate Valid()
      reads this
    {
      && Injective(hash)
      && (forall s | s in files :: hash(files[s]) == s)
      && forall s | s in rewritten :: WasSigned(files, overwrite, sign, s, rewritten[s])
    }

    predicate Alone(s: Sum)
      reads this
    {
      s in files && LeftAlone(files[s], overwrite)
    }

    /** All of these have been looked at. */
    predicate Decided(sums: set<Sum>)
      reads this
    {
      forall s | s in sums :: s in rewritten || Alone(s)
    }

    predicate AllAlone(sums: set<Sum>)
      reads this
    {
      forall s | s in sums :: Alone(s)
    }

    /** The signer always answers. */
    ghost predicate Signs() {
      forall n, d :: sign(n, d).Some?
    }

    ghost predicate Unchanged(files: Files, rewritten: map<Sum, Sum>, calls: nat)
      reads this
    {
      this.files == files && this.rewritten == rewritten && this.calls == calls
    }

    constructor (overwrite: bool, hash: FileObj -> Sum, sign: Signer, files: Files)
      requires Injective(hash) && forall s | s in files :: hash(files[s]) == s
      ensures Valid() && this.overwrite == overwrite && this.hash == hash && this.sign == sign
      ensures this.files == files && rewritten == map[] && calls == 0
    {
      this.overwrite, this.hash, this.sign, this.files := overwrite, hash, sign, files;
      rewritten, calls := map[], 0;
    }

    /** The checksum of the signed file, or none if the file is left alone. */
    method MapFile(s: Sum) returns (r: Result<Option<Sum>>)
      requires Valid()
      modifies this`files, this`calls
      ensures Valid() && Grown(old(files), files, rewritten, rewritten)
      ensures r.Err? <==> s !in old(files) || (!old(Alone(s)) && sign(old(calls), old(files)[s].data).None?)
      ensures Alone(s) ==> r == Ok(None) && files == old(files) && calls == old(calls)
      ensures r == Ok(None) ==> Alone(s)
      ensures r.Ok? && r.value.Some? ==>
        SignedAs(files, overwrite, sign, s, r.value.value, old(calls)) && calls == old(calls) + 1
      ensures r.Ok? && r.value.Some? ==>
        var sig := sign(old(calls), old(files)[s].data);
        r.value.value in files && sig.Some? && OnlySigned(old(files)[s], files[r.value.value], sig.value)
      ensures r.Ok? ==> (r.value.None? <==> KeepsSignature(old(files)[s], overwrite))
    {
      if s !in files { return Err; }
      var f := files[s];
      if f.Link? { return Ok(None); }
      if IMA_XATTR in f.xattrs && !overwrite { return Ok(None); }
      var sig := sign(calls, f.data);
      calls := calls + 1;
      if sig.None? { return Err; }
      var signed := WithSignature(f, sig.value);
      var sum := hash(signed);
      if sum !in files {
        StillSigned(files, files[sum := signed], overwrite, sign, rewritten);
        files := files[sum := signed];
      }
      return Ok(Some(sum));
    }

    /** One file: the memoised answer, or a new one. */
    method MapEntry(s: Sum) returns (r: Result<Sum>)
      requires Valid()
      modifies this`files, this`calls, this`rewritten
      ensures Valid() && Grown(old(files), files, old(rewritten), rewritten)
      ensures old(Alone(s)) ==> r == Ok(s) && Unchanged(old(files), old(rewritten), old(calls))
      ensures Signs() && s in old(files) ==> r.Ok?
      ensures r.Ok? ==> Decided({s}) && r.value == Look(rewritten, s)
    {
      if s in rewritten {
        RewrittenNotAlone(s);
        return Ok(rewritten[s]);
      }
      var mapped :- MapFile(s);
      match mapped
      case None => return Ok(s);
      case Some(sum) =>
        GrownByOne(old(files), files, rewritten, s, sum);
        Remember(s, sum);
        return Ok(sum);
    }

    lemma DecidedMapped(s: Sum)
      requires Valid() && Decided({s})
      ensures MappedTo(files, overwrite, sign, s, Look(rewritten, s))
    {
      if s in rewritten {
        var n :| SignedAs(files, overwrite, sign, s, rewritten[s], n);
        assert OnlySigned(files[s], files[rewritten[s]], sign(n, files[s].data).value);
      } else {
        assert Alone(s);
      }
    }

    /** What the traversal returns is, file by file, the tree with signatures. */
    lemma {:induction false} TreeIsMapped(t: Tree)
      requires Valid() && Decided(Sums(t))
      ensures TreeMapped(files, overwrite, sign, t, MapTree(t, rewritten))
      decreases t, 1
    {
      FilesKeepShape(t.files, rewritten);
      forall i | 0 <= i < |t.files|
        ensures FileMapped(files, overwrite, sign, t.files[i], MapFiles(t.files, rewritten)[i])
      {
        assert t.files[i] in t.files && t.files[i].sum in Sums(t);
        DecidedMapped(t.files[i].sum);
      }
      DirsAreMapped(t.dirs);
    }

    lemma {:induction false} DirsAreMapped(dirs: seq<Dir>)
      requires Valid() && Decided(DirSums(dirs))
      ensures DirsMapped(files, overwrite, sign, dirs, MapDirs(dirs, rewritten))
      decreases dirs, 0
    {
      if dirs != [] {
        var init, last := dirs[..|dirs| - 1], dirs[|dirs| - 1];
        DirsAreMapped(init);
        TreeIsMapped(last.tree);
        MoreMapped(files, overwrite, sign, init, MapDirs(init, rewritten), last,
                   last.(tree := MapTree(last.tree, rewritten)));
        assert dirs == init + [last];
      }
    }

    lemma RewrittenNotAlone(s: Sum)
      requires Valid() && s in rewritten
      ensures !Alone(s)
    {
      var n :| SignedAs(files, overwrite, sign, s, rewritten[s], n);
    }

    method Remember(s: Sum, sum: Sum)
      requires Valid() && s !in rewritten && WasSigned(files, overwrite, sign, s, sum)
      modifies this`rewritten
      ensures Valid() && rewritten == old(rewritten)[s := sum]
    {
      rewritten := rewritten[s := sum];
    }

    method MapEntries(entries: seq<File>) returns (r: Result<seq<File>>)
      requires Valid()
      modifies this`files, this`calls, this`rewritten
      ensures Valid() && Grown(old(files), files, old(rewritten), rewritten)
      ensures Signs() && FileSums(entries) <= old(files).Keys ==> r.Ok?
      ensures r.Ok? ==> Decided(FileSums(entries)) && r.value == MapFiles(entries, rewritten)
      ensures old(AllAlone(FileSums(entries))) ==> r.Ok? && Unchanged(old(files), old(rewritten), old(calls))
    {
      var mapped: seq<File> := [];
      for i := 0 to |entries|
        invariant Valid() && Grown(old(files), files, old(rewritten), rewritten)
        invariant Decided(FileSums(entries[..i])) && mapped == MapFiles(entries[..i], rewritten)
        invariant old(AllAlone(FileSums(entries))) ==> Unchanged(old(files), old(rewritten), old(calls))
      {
        var f := entries[i];
        ghost var before := rewritten;
        OneMore(entries, i);
        var sum :- MapEntry(f.sum);
        SameFiles(entries[..i], before, rewritten);
        mapped := mapped + [f.(sum := sum)];
      }
      assert entries[..|entries|] == entries;
      return Ok(mapped);
    }

    method MapSubdirs(dirs: seq<Dir>) returns (r: Result<seq<Dir>>)
      requires Valid()
      modifies this`files, this`calls, this`rewritten
      ensures Valid() && Grown(old(files), files, old(rewritten), rewritten)
      ensures Signs() && DirSums(dirs) <= old(files).Keys ==> r.Ok?
      ensures r.Ok? ==> Decided(DirSums(dirs)) && r.value == MapDirs(dirs, rewritten)
      ensures old(AllAlone(DirSums(dirs))) ==> r.Ok? && Unchanged(old(files), old(rewritten), old(calls))
      decreases dirs, 0
    {
      var mapped: seq<Dir> := [];
      for i := 0 to |dirs|
        invariant Valid() && Grown(old(files), files, old(rewritten), rewritten)
        invariant Decided(DirSums(dirs[..i])) && mapped == MapDirs(dirs[..i], rewritten)
        invariant old(AllAlone(DirSums(dirs))) ==> Unchanged(old(files), old(rewritten), old(calls))
      {
        var d := dirs[i];
        assert dirs[..i + 1][..i] == dirs[..i];
        DirSumsPrefix(dirs, i + 1);
        ghost var before := rewritten;
        var tree :- MapDirtree(d.tree);
        SameDirs(dirs[..i], before, rewritten);
        mapped := mapped + [d.(tree := tree)];
      }
      assert dirs[..|dirs|] == dirs;
      return Ok(mapped);
    }

    /** The memoised traversal is a map over the tree with one function on checksums: the memo at
        the end.  A tree of files that are left alone is returned as it is. */
    method MapDirtree(t: Tree) returns (r: Result<Tree>)
      requires Valid()
      modifies this`files, this`calls, this`rewritten
      ensures Valid() && Grown(old(files), files, old(rewritten), rewritten)
      ensures Signs() && Sums(t) <= old(files).Keys ==> r.Ok?
      ensures r.Ok? ==> Decided(Sums(t)) && r.value == MapTree(t, rewritten)
      ensures old(AllAlone(Sums(t))) ==> r == Ok(t) && Unchanged(old(files), old(rewritten), old(calls))
      decreases t, 1
    {
      var newFiles :- MapEntries(t.files);
      ghost var before := rewritten;
      var newDirs :- MapSubdirs(t.dirs);
      SameFiles(t.files, before, rewritten);
      if old(AllAlone(Sums(t))) {
        MapAlone(t, rewritten);
      }
      return Ok(Tree(newFiles, newDirs));
    }

    /** In a rewritten tree every file is signed or a link. */
    lemma RewrittenAlone(t: Tree)
      requires Valid() && !overwrite && Decided(Sums(t))
      ensures AllAlone(Sums(MapTree(t, rewritten)))
    {
      MapKeepsShape(t, rewritten);
      forall s | s in Sums(t)
        ensures Alone(Look(rewritten, s))
      {
        if s in rewritten {
          var n :| SignedAs(files, overwrite, sign, s, rewritten[s], n);
        }
      }
    }

    method MapCommit(c: Commit) returns (r: Result<Commit>)
      requires Valid()
      modifies this`files, this`calls, this`rewritten
      ensures Valid() && Grown(old(files), files, old(rewritten), rewritten)
      ensures Signs() && Sums(c.root) <= old(files).Keys ==> r.Ok?
      ensures r.Ok? ==> Decided(Sums(c.root)) && r.value == c.(root := MapTree(c.root, rewritten))
      ensures r.Ok? ==> r.value.info == c.info && r.value.meta == c.meta
      ensures r.Ok? ==> TreeMapped(files, overwrite, sign, c.root, r.value.root)
      ensures old(AllAlone(Sums(c.root))) ==> r == Ok(c) && Unchanged(old(files), old(rewritten), old(calls))
    {
      var root :- MapDirtree(c.root);
      TreeIsMapped(c.root);
      return Ok(c.(root := root));
    }
  }

  /** Objects and memo entries are added, never changed. */
  ghost predicate Grown(files: Files, files': Files, m: map<Sum, Sum>, m': map<Sum, Sum>) {
    && (forall k | k in files :: k in files' && files'[k] == files[k])
    && forall k | k in m :: k in m' && m'[k] == m[k]
  }

  lemma GrownByOne(files: Files, files': Files, m: map<Sum, Sum>, s: Sum, sum: Sum)
    requires Grown(files, files', m, m) && s !in m
    ensures Grown(files, files', m, m[s := sum])
  {
  }

  // ---- a tree depends on the memo only at its own checksums ----

  lemma {:induction false} SameFiles(files: seq<File>, m: map<Sum, Sum>, n: map<Sum, Sum>)
    requires forall s | s in FileSums(files) :: Look(m, s) == Look(n, s)
    ensures MapFiles(files, m) == MapFiles(files, n)
  {
    if files != [] {
      var init, last := files[..|files| - 1], files[|files| - 1];
      assert files == init + [last] && last in files;
      SameFiles(init, m, n);
    }
  }

  lemma OneMore(files: seq<File>, i: nat)
    requires i < |files|
    ensures FileSums(files[..i + 1]) == FileSums(files[..i]) + {files[i].sum} && files[i].sum in FileSums(files)
    ensures files[..i + 1][..i] == files[..i]
  {
    assert files[..i + 1] == files[..i] + [files[i]] && files[i] in files;
  }

  lemma {:induction false} SameDirs(dirs: seq<Dir>, m: map<Sum, Sum>, n: map<Sum, Sum>)
    requires forall s | s in DirSums(dirs) :: Look(m, s) == Look(n, s)
    ensures MapDirs(dirs, m) == MapDirs(dirs, n)
    decreases dirs, 0
  {
    if dirs != [] {
      SameDirs(dirs[..|dirs| - 1], m, n);
      SameTree(dirs[|dirs| - 1].tree, m, n);
    }
  }

  lemma {:induction false} SameTree(t: Tree, m: map<Sum, Sum>, n: map<Sum, Sum>)
    requires forall s | s in Sums(t) :: Look(m, s) == Look(n, s)
    ensures MapTree(t, m) == MapTree(t, n)
    decreases t, 1
  {
    SameFiles(t.files, m, n);
    SameDirs(t.dirs, m, n);
  }

  lemma {:induction false} DirSumsPrefix(dirs: seq<Dir>, i: nat)
    requires i <= |dirs|
    ensures DirSums(dirs[..i]) <= DirSums(dirs)
  {
    if i < |dirs| {
      DirSumsPrefix(dirs[..|dirs| - 1], i);
      assert dirs[..|dirs| - 1][..i] == dirs[..i];
    } else {
      assert dirs[..i] == dirs;
    }
  }

  // ---- laws ----

  /** Mapping by a memo that leaves all checksums alone gives the tree back. */
  lemma {:induction false} MapAlone(t: Tree, m: map<Sum, Sum>)
    requires forall s | s in Sums(t) :: Look(m, s) == s
    ensures MapTree(t, m) == t
    decreases t, 1
  {
    FilesAlone(t.files, m);
    DirsAlone(t.dirs, m);
  }

  lemma {:induction false} FilesAlone(files: seq<File>, m: map<Sum, Sum>)
    requires forall s | s in FileSums(files) :: Look(m, s) == s
    ensures MapFiles(files, m) == files
  {
    if files != [] {
      var init, last := files[..|files| - 1], files[|files| - 1];
      assert files == init + [last] && last in files;
      FilesAlone(init, m);
    }
  }

  lemma {:induction false} DirsAlone(dirs: seq<Dir>, m: map<Sum, Sum>)
    requires forall s | s in DirSums(dirs) :: Look(m, s) == s
    ensures MapDirs(dirs, m) == dirs
    decreases dirs, 0
  {
    if dirs != [] {
      var init, last := dirs[..|dirs| - 1], dirs[|dirs| - 1];
      assert dirs == init + [last];
      DirsAlone(init, m);
      MapAlone(last.tree, m);
    }
  }

  /** The same tree up to file checksums: names, order, structure and directory metadata. */
  predicate SameShape(a: Tree, b: Tree)
    decreases a, 1
  {
    && |a.files| == |b.files| && (forall i | 0 <= i < |a.files| :: a.files[i].name == b.files[i].name)
    && SameDirShapes(a.dirs, b.dirs)
  }

  predicate SameDirShapes(a: seq<Dir>, b: seq<Dir>)
    decreases a, 0
  {
    |a| == |b| && forall i | 0 <= i < |a| ::
      a[i].name == b[i].name && a[i].meta == b[i].meta && SameShape(a[i].tree, b[i].tree)
  }

  lemma {:induction false} MapKeepsShape(t: Tree, m: map<Sum, Sum>)
    ensures SameShape(t, MapTree(t, m)) && Sums(MapTree(t, m)) == set s | s in Sums(t) :: Look(m, s)
    decreases t, 1
  {
    FilesKeepShape(t.files, m);
    DirsKeepShape(t.dirs, m);
  }

  lemma {:induction false} FilesKeepShape(files: seq<File>, m: map<Sum, Sum>)
    ensures |MapFiles(files, m)| == |files|
    ensures forall i | 0 <= i < |files| :: MapFiles(files, m)[i] == File(files[i].name, Look(m, files[i].sum))
    ensures FileSums(MapFiles(files, m)) == set s | s in FileSums(files) :: Look(m, s)
  {
    if files != [] {
      var init, last := files[..|files| - 1], files[|files| - 1];
      FilesKeepShape(init, m);
      assert files == init + [last];
    }
  }

  lemma {:induction false} DirsKeepShape(dirs: seq<Dir>, m: map<Sum, Sum>)
    ensures SameDirShapes(dirs, MapDirs(dirs, m)) && DirSums(MapDirs(dirs, m)) == set s | s in DirSums(dirs) ::
      Look(m, s)
    decreases dirs, 0
  {
    if dirs != [] {
      var init, last := dirs[..|dirs| - 1], dirs[|dirs| - 1];
      DirsKeepShape(init, m);
      MapKeepsShape(last.tree, m);
      var r, mapped := MapDirs(init, m), MapTree(last.tree, m);
      ShapesMore(init, r, last, last.(tree := mapped));
      SumsMore(r, last.(tree := mapped));
      assert dirs == init + [last];
      LooksMore(DirSums(init), Sums(last.tree), m);
    }
  }

  lemma LooksMore(a: set<Sum>, b: set<Sum>, m: map<Sum, Sum>)
    ensures (set s | s in a + b :: Look(m, s)) == (set s | s in a :: Look(m, s)) + set s | s in b :: Look(m, s)
  {
  }

  lemma SumsMore(dirs: seq<Dir>, d: Dir)
    ensures DirSums(dirs + [d]) == DirSums(dirs) + Sums(d.tree)
  {
    assert (dirs + [d])[..|dirs|] == dirs;
  }

  lemma ShapesMore(a: seq<Dir>, b: seq<Dir>, x: Dir, y: Dir)
    requires SameDirShapes(a, b) && x.name == y.name && x.meta == y.meta && SameShape(x.tree, y.tree)
    ensures SameDirShapes(a + [x], b + [y])
  {
  }

  /** Without overwriting, signing a signed commit again, with a fresh memo, returns that commit and
      signs nothing. */
  method SignTwice(c: Commit, hash: FileObj -> Sum, sign: Signer, again: Signer, files: Files)
    returns (first: Result<Commit>, second: Result<Commit>)
    requires Injective(hash) && forall s | s in files :: hash(files[s]) == s
    ensures (forall n, d :: sign(n, d).Some?) && Sums(c.root) <= files.Keys ==> first.Ok?
    ensures first.Ok? ==> second == first
    ensures first.Ok? ==> SameShape(c.root, first.value.root) && first.value == c.(root := first.value.root)
  {
    var rewriter := new CommitRewriter(false, hash, sign, files);
    first := rewriter.MapCommit(c);
    if first.Err? { return first, Err; }
    MapKeepsShape(c.root, rewriter.rewritten);
    rewriter.RewrittenAlone(c.root);
    var other := new CommitRewriter(false, hash, again, rewriter.files);
    assert other.AllAlone(Sums(first.value.root)) by {
      assert forall s | s in Sums(first.value.root) :: rewriter.Alone(s);
    }
    second := other.MapCommit(first.value);
  }
}
