/** Chunks of file objects, and the walk that collects the files of a commit
    (lib/src/chunking.rs, `Chunk` and `generate_chunking_recurse`). */
module Chunks {
  import opened Paths
  import opened Objects

  datatype Item = Item(size: nat, paths: seq<Path>)

  type Content = map<Sum, Item>

  // ---- total size ----

  ghost function Total(m: Content): nat
    decreases |m|
  {
    if m == map[] then 0
    else
      var k :| k in m;
      m[k].size + Total(m - {k})
  }

  lemma {:induction false} TotalRemove(m: Content, k: Sum)
    requires k in m
    ensures Total(m) == m[k].size + Total(m - {k})
    decreases |m|
  {
    var j :| j in m && Total(m) == m[j].size + Total(m - {j});
    if j != k {
      TotalRemove(m - {j}, k);
      TotalRemove(m - {k}, j);
      assert m - {j} - {k} == m - {k} - {j};
    }
  }

  lemma TotalInsert(m: Content, k: Sum, v: Item)
    requires k !in m
    ensures Total(m[k := v]) == Total(m) + v.size
  {
    TotalRemove(m[k := v], k);
    assert m[k := v] - {k} == m;
  }

  function Restrict(m: Content, s: set<Sum>): Content {
    map k | k in m && k in s :: m[k]
  }

  function SumSet(sums: seq<Sum>): set<Sum> {
    set s | s in sums
  }

  /** Moving one more object of a list. */
  lemma MovedOne(src: Content, dest: Content, sums: seq<Sum>, i: nat)
    requires i < |sums|
    ensures var s, x := SumSet(sums[..i]), sums[i];
      var left, filled := src - s, dest + Restrict(src, s);
      && left - {x} == src - SumSet(sums[..i + 1])
      && (if x in left then filled[x := left[x]] else filled) == dest + Restrict(src, SumSet(sums[..i + 1]))
  {
    assert sums[..i + 1] == sums[..i] + [sums[i]];
    assert SumSet(sums[..i + 1]) == SumSet(sums[..i]) + {sums[i]};
  }

  /** A group of file objects that becomes one layer. */
  class Chunk {
    var content: Content
    var size: nat
    var packages: seq<string>

    constructor ()
      ensures content == map[] && size == 0 && packages == []
    {
      content, size, packages := map[], 0, [];
    }

    /** The recorded size is the sum over the distinct objects. */
    ghost predicate Sized()
      reads this
    {
      size == Total(content)
    }

    /** Moves an object if it is there; an object that was moved before is ignored. */
    method MoveObj(dest: Chunk, sum: Sum) returns (moved: bool)
      requires this != dest && Sized() && dest.Sized() && (sum in content ==> sum !in dest.content)
      modifies this`content, this`size, dest`content, dest`size
      ensures Sized() && dest.Sized() && moved == (sum in old(content))
      ensures content == old(content) - {sum}
      ensures dest.content == if moved then old(dest.content)[sum := old(content)[sum]] else old(dest.content)
      ensures size + dest.size == old(size) + old(dest.size)
    {
      if sum in content {
        var item := content[sum];
        TotalRemove(content, sum);
        TotalInsert(dest.content, sum, item);
        content := content - {sum};
        dest.content := dest.content[sum := item];
        size := size - item.size;
        dest.size := dest.size + item.size;
        moved := true;
      } else {
        assert content - {sum} == content;
        moved := false;
      }
    }

    /** Moves the listed objects. */
    method MoveAll(dest: Chunk, sums: seq<Sum>)
      requires this != dest && Sized() && dest.Sized() && content.Keys !! dest.content.Keys
      modifies this`content, this`size, dest`content, dest`size
      ensures Sized() && dest.Sized() && content.Keys !! dest.content.Keys
      ensures content == old(content) - SumSet(sums)
      ensures dest.content == old(dest.content) + Restrict(old(content), SumSet(sums))
    {
      for i := 0 to |sums|
        invariant Sized() && dest.Sized() && content.Keys !! dest.content.Keys
        invariant content == old(content) - SumSet(sums[..i])
        invariant dest.content == old(dest.content) + Restrict(old(content), SumSet(sums[..i]))
      {
        MovedOne(old(content), old(dest.content), sums, i);
        var moved := MoveObj(dest, sums[i]);
      }
      assert sums[..|sums|] == sums;
    }

    /** Records one more file, under the directory walked. */
    method AddFile(f: FileObj, path: Path, ghost occ: seq<Occurrence>, env: Env)
      requires Sized() && Records(content, occ, env) && NoCollision(occ + [Occurrence(f, path)], env)
      modifies this`content, this`size
      ensures Sized() && Records(content, occ + [Occurrence(f, path)], env)
    {
      var sum, bytes := env.fileSum(f), FileSize(f);
      var item := if sum in content then content[sum] else Item(0, []);
      var next := Item(bytes, item.paths + [path]);
      AddedRecords(content, occ, f, path, env);
      AddedTotal(content, occ, f, path, env);
      if item.paths == [] {
        size := size + bytes;
      }
      content := content[sum := next];
    }

    method GenerateFiles(t: Tree, path: Path, ghost occ: seq<Occurrence>, env: Env)
      requires Sized() && Records(content, occ, env) && NoCollision(occ + Occurrences(t, path), env)
      modifies this`content, this`size
      ensures Sized() && Records(content, occ + FileOccurrences(t.files, path), env)
    {
      assert occ == occ + FileOccurrences([], path);
      for i := 0 to |t.files|
        invariant Sized() && Records(content, occ + FileOccurrences(t.files[..i], path), env)
      {
        var f := t.files[i];
        NextFile(occ, t, i, path, env);
        AddFile(f.obj, path + [Normal(f.name)], occ + FileOccurrences(t.files[..i], path), env);
      }
      assert t.files[..|t.files|] == t.files;
    }

    method GenerateDirs(dirs: seq<Dir>, path: Path, ghost occ: seq<Occurrence>, env: Env)
      requires Sized() && Records(content, occ, env) && NoCollision(occ + DirOccurrences(dirs, path), env)
      modifies this`content, this`size
      ensures Sized() && Records(content, occ + DirOccurrences(dirs, path), env)
      decreases dirs, 0
    {
      ghost var now, all := occ, occ + DirOccurrences(dirs, path);
      for i := 0 to |dirs|
        invariant now + DirOccurrences(dirs[i..], path) == all
        invariant Sized() && Records(content, now, env)
      {
        var d := dirs[i];
        NextDir(now, dirs, i, path, all, env);
        Generate(d.tree, path + [Normal(d.name)], now, env);
        now := now + Occurrences(d.tree, path + [Normal(d.name)]);
      }
      assert now == now + DirOccurrences([], path);
    }

    /** Records every file of a tree: first those of the directory, then its children's. */
    method Generate(t: Tree, path: Path, ghost occ: seq<Occurrence>, env: Env)
      requires Sized() && Records(content, occ, env) && NoCollision(occ + Occurrences(t, path), env)
      modifies this`content, this`size
      ensures Sized() && Records(content, occ + Occurrences(t, path), env)
      decreases t, 1
    {
      GenerateFiles(t, path, occ, env);
      ghost var now := occ + FileOccurrences(t.files, path);
      assert now + DirOccurrences(t.dirs, path) == occ + Occurrences(t, path);
      GenerateDirs(t.dirs, path, now, env);
    }
  }

  lemma NextFile(occ: seq<Occurrence>, t: Tree, i: nat, path: Path, env: Env)
    requires i < |t.files| && NoCollision(occ + Occurrences(t, path), env)
    ensures var next := occ + FileOccurrences(t.files[..i], path)
      + [Occurrence(t.files[i].obj, path + [Normal(t.files[i].name)])];
      next == occ + FileOccurrences(t.files[..i + 1], path) && NoCollision(next, env)
  {
    assert t.files[..i + 1][..i] == t.files[..i];
    FileOccurrencesPrefix(t.files, i + 1, path);
    var next := occ + FileOccurrences(t.files[..i + 1], path);
    assert forall o | o in next :: o in occ + Occurrences(t, path);
  }

  lemma NextDir(now: seq<Occurrence>, dirs: seq<Dir>, i: nat, path: Path, all: seq<Occurrence>, env: Env)
    requires i < |dirs| && now + DirOccurrences(dirs[i..], path) == all && NoCollision(all, env)
    ensures var next := now + Occurrences(dirs[i].tree, path + [Normal(dirs[i].name)]);
      next + DirOccurrences(dirs[i + 1..], path) == all && NoCollision(next, env)
  {
    assert dirs[i..][0] == dirs[i] && dirs[i..][1..] == dirs[i + 1..];
    var next := now + Occurrences(dirs[i].tree, path + [Normal(dirs[i].name)]);
    assert next + DirOccurrences(dirs[i + 1..], path) == all;
    assert forall o | o in next :: o in all;
  }

  lemma AddedTotal(m: Content, occ: seq<Occurrence>, f: FileObj, path: Path, env: Env)
    requires Records(m, occ, env) && NoCollision(occ + [Occurrence(f, path)], env)
    ensures var sum := env.fileSum(f);
      var paths := if sum in m then m[sum].paths else [];
      Total(m[sum := Item(FileSize(f), paths + [path])]) == Total(m) + if paths == [] then FileSize(f) else 0
  {
    var sum := env.fileSum(f);
    var paths := if sum in m then m[sum].paths else [];
    var next := Item(FileSize(f), paths + [path]);
    if sum in m {
      SameSize(m, occ, f, path, env);
      TotalRemove(m, sum);
      TotalInsert(m - {sum}, sum, next);
      assert (m - {sum})[sum := next] == m[sum := next];
    } else {
      TotalInsert(m, sum, next);
    }
  }

  // ---- the initial single chunk ----

  function FileSize(f: FileObj): nat {
    if f.Regular? then |f.data| else 0
  }

  datatype Occurrence = Occurrence(obj: FileObj, path: Path)

  /** Every file of a tree with its path, in the order of the walk. */
  function Occurrences(t: Tree, path: Path): seq<Occurrence>
    decreases t, 0
  {
    FileOccurrences(t.files, path) + DirOccurrences(t.dirs, path)
  }

  function FileOccurrences(fs: seq<File>, path: Path): seq<Occurrence> {
    if fs == [] then []
    else
      var init, f := fs[..|fs| - 1], fs[|fs| - 1];
      FileOccurrences(init, path) + [Occurrence(f.obj, path + [Normal(f.name)])]
  }

  function DirOccurrences(ds: seq<Dir>, path: Path): seq<Occurrence>
    decreases ds, 0
  {
    if ds == [] then []
    else Occurrences(ds[0].tree, path + [Normal(ds[0].name)]) + DirOccurrences(ds[1..], path)
  }

  /** Following these names from the tree leads to the file. */
  predicate Leads(t: Tree, names: Path, f: FileObj)
    decreases |names|, 1
  {
    LeadsToFile(t.files, names, f) || LeadsThrough(t.dirs, names, f)
  }

  predicate LeadsToFile(fs: seq<File>, names: Path, f: FileObj) {
    |names| == 1 && exists x | x in fs :: names[0] == Normal(x.name) && x.obj == f
  }

  predicate LeadsThrough(ds: seq<Dir>, names: Path, f: FileObj)
    decreases |names|, 0
  {
    |names| > 1 && exists d | d in ds :: names[0] == Normal(d.name) && Leads(d.tree, names[1..], f)
  }

  /** The walk finds an object at exactly the paths that lead to it. */
  lemma {:induction false} OccurrenceLeads(t: Tree, path: Path, o: Occurrence)
    ensures o in Occurrences(t, path) <==> path < o.path && Leads(t, o.path[|path|..], o.obj)
    decreases t, 0
  {
    FileOccurrenceLeads(t.files, path, o);
    DirOccurrenceLeads(t.dirs, path, o);
  }

  lemma {:induction false} FileOccurrenceLeads(fs: seq<File>, path: Path, o: Occurrence)
    ensures o in FileOccurrences(fs, path) <==> path < o.path && LeadsToFile(fs, o.path[|path|..], o.obj)
  {
    if fs != [] {
      var init, f := fs[..|fs| - 1], fs[|fs| - 1];
      FileOccurrenceLeads(init, path, o);
      assert fs == init + [f];
      if path < o.path && LeadsToFile(fs, o.path[|path|..], o.obj) && !LeadsToFile(init, o.path[|path|..], o.obj) {
        assert o.path == path + o.path[|path|..] == path + [Normal(f.name)];
      }
      if o == Occurrence(f.obj, path + [Normal(f.name)]) {
        assert o.path[|path|..] == [Normal(f.name)] && f in fs;
      }
    }
  }

  lemma {:induction false} DirOccurrenceLeads(ds: seq<Dir>, path: Path, o: Occurrence)
    ensures o in DirOccurrences(ds, path) <==> path < o.path && LeadsThrough(ds, o.path[|path|..], o.obj)
    decreases ds, 0
  {
    if ds != [] {
      var d, here := ds[0], path + [Normal(ds[0].name)];
      OccurrenceLeads(d.tree, here, o);
      DirOccurrenceLeads(ds[1..], path, o);
      assert ds == [d] + ds[1..];
      BelowDir(d, path, o);
    }
  }

  /** Below a directory of that name. */
  lemma BelowDir(d: Dir, path: Path, o: Occurrence)
    ensures var here := path + [Normal(d.name)];
      (here < o.path && Leads(d.tree, o.path[|here|..], o.obj))
      <==> (path < o.path && LeadsThrough([d], o.path[|path|..], o.obj))
  {
    var here := path + [Normal(d.name)];
    if path < o.path {
      var rest := o.path[|path|..];
      assert o.path == path + rest;
      assert |o.path| >= |here| ==> o.path[|here|..] == rest[1..];
      assert here <= o.path <==> rest[0] == Normal(d.name);
      assert Leads(d.tree, [], o.obj) == false;
    }
  }

  /** The paths at which an object occurs. */
  function PathsOf(occ: seq<Occurrence>, sum: Sum, env: Env): seq<Path> {
    if occ == [] then []
    else
      var before, o := PathsOf(occ[..|occ| - 1], sum, env), occ[|occ| - 1];
      if env.fileSum(o.obj) == sum then before + [o.path] else before
  }

  /** The content records exactly the occurrences: each object with its size and all its paths. */
  ghost predicate Records(m: Content, occ: seq<Occurrence>, env: Env) {
    && (forall s | s in m :: m[s].paths != [] && m[s].paths == PathsOf(occ, s, env))
    && (forall s | s !in m :: PathsOf(occ, s, env) == [])
    && forall o | o in occ ::
         var sum := env.fileSum(o.obj);
         sum in m && m[sum].size == if o.obj.Regular? then |o.obj.data| else 0
  }

  /** Objects with the same checksum are the same, so a size is never contradicted. */
  ghost predicate NoCollision(occ: seq<Occurrence>, env: Env) {
    forall a, b | a in occ && b in occ && env.fileSum(a.obj) == env.fileSum(b.obj) :: a.obj == b.obj
  }

  lemma SameSize(m: Content, occ: seq<Occurrence>, f: FileObj, path: Path, env: Env)
    requires Records(m, occ, env) && env.fileSum(f) in m && NoCollision(occ + [Occurrence(f, path)], env)
    ensures m[env.fileSum(f)].size == FileSize(f)
  {
    var sum := env.fileSum(f);
    PathsComeFrom(occ, sum, env);
    var o :| o in occ && env.fileSum(o.obj) == sum;
    var now := occ + [Occurrence(f, path)];
    assert o in now && Occurrence(f, path) in now;
  }

  lemma {:induction false} PathsComeFrom(occ: seq<Occurrence>, sum: Sum, env: Env)
    ensures PathsOf(occ, sum, env) != [] ==> exists o :: o in occ && env.fileSum(o.obj) == sum
  {
    if occ != [] {
      PathsComeFrom(occ[..|occ| - 1], sum, env);
      assert occ[|occ| - 1] in occ;
      assert forall o | o in occ[..|occ| - 1] :: o in occ;
    }
  }

  lemma AddedRecords(m: Content, occ: seq<Occurrence>, f: FileObj, path: Path, env: Env)
    requires Records(m, occ, env) && NoCollision(occ + [Occurrence(f, path)], env)
    ensures var sum := env.fileSum(f);
      Records(m[sum := Item(FileSize(f), (if sum in m then m[sum].paths else []) + [path])],
        occ + [Occurrence(f, path)], env)
  {
    var now := occ + [Occurrence(f, path)];
    forall s ensures PathsOf(now, s, env) == PathsOf(occ, s, env) + if s == env.fileSum(f) then [path] else [] {
      OnePathMore(occ, f, path, s, env);
    }
    forall o | o in occ && env.fileSum(o.obj) == env.fileSum(f)
      ensures o.obj == f
    {
      assert o in now && Occurrence(f, path) in now;
    }
  }

  lemma OnePathMore(occ: seq<Occurrence>, f: FileObj, path: Path, s: Sum, env: Env)
    ensures PathsOf(occ + [Occurrence(f, path)], s, env)
      == PathsOf(occ, s, env) + if s == env.fileSum(f) then [path] else []
  {
    assert (occ + [Occurrence(f, path)])[..|occ|] == occ;
  }

  lemma {:induction false} FileOccurrencesPrefix(fs: seq<File>, i: nat, path: Path)
    requires i <= |fs|
    ensures FileOccurrences(fs[..i], path) <= FileOccurrences(fs, path)
  {
    if i < |fs| {
      FileOccurrencesPrefix(fs[..|fs| - 1], i, path);
      assert fs[..|fs| - 1][..i] == fs[..i];
    } else {
      assert fs[..i] == fs;
    }
  }
}
