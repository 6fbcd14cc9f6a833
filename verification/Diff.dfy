/** Comparison of two commits' trees, skipping subtrees with equal checksums (lib/src/diff.rs). */
module Diff {
  import opened Outcomes

  type Name = string
  type Path = seq<Name>

  datatype Node = FileN(sum: string) | DirN(meta: string, tree: Tree)

  datatype Tree = Tree(entries: map<Name, Node>)

  /** The checksum of a directory's contents. */
  type Digest = Tree -> string

  datatype Change = AddedFile | AddedDir | RemovedFile | RemovedDir | ChangedFile | ChangedDir

  function Get(t: Tree, n: Name): Option<Node> {
    if n in t.entries then Some(t.entries[n]) else None
  }

  /** How two entries of one name differ, looking only at the entries themselves. */
  predicate Local(k: Change, from: Option<Node>, to: Option<Node>) {
    match (from, to)
    case (None, None) => false
    case (None, Some(b)) => k == if b.DirN? then AddedDir else AddedFile
    case (Some(a), None) => k == if a.DirN? then RemovedDir else RemovedFile
    case (Some(a), Some(b)) =>
      match a
      case DirN(meta, _) => k == ChangedDir && b.DirN? && b.meta != meta
      case FileN(sum) => k == ChangedFile && (b.DirN? || b.sum != sum)
  }

  /** A directory compared with something that is none: its children cannot be listed. */
  ghost predicate Mixed(from: Tree, to: Tree) {
    exists n :: n in from.entries && n in to.entries && from.entries[n].DirN? &&
      (to.entries[n].FileN? || Mixed(from.entries[n].tree, to.entries[n].tree))
  }

  // ---- the walk that never skips ----

  ghost function WalkName(k: Change, prefix: Path, from: Tree, to: Tree, n: Name): set<Path>
    requires n in from.entries || n in to.entries
    decreases from, 0
  {
    (if Local(k, Get(from, n), Get(to, n)) then {prefix + [n]} else {})
    + (if n in from.entries && n in to.entries && from.entries[n].DirN? && to.entries[n].DirN?
       then Walk(k, prefix + [n], from.entries[n].tree, to.entries[n].tree) else {})
  }

  ghost function Walk(k: Change, prefix: Path, from: Tree, to: Tree): set<Path>
    decreases from, 1
  {
    set n, q | n in from.entries.Keys + to.entries.Keys && q in WalkName(k, prefix, from, to, n) :: q
  }

  ghost function WalkOver(k: Change, prefix: Path, from: Tree, to: Tree, names: set<Name>): set<Path>
    requires names <= from.entries.Keys + to.entries.Keys
  {
    set n, q | n in names && q in WalkName(k, prefix, from, to, n) :: q
  }

  lemma WalkMore(prefix: Path, from: Tree, to: Tree, names: set<Name>, n: Name)
    requires names <= from.entries.Keys + to.entries.Keys && n in from.entries.Keys + to.entries.Keys
    ensures forall k ::
      WalkOver(k, prefix, from, to, names + {n})
        == WalkOver(k, prefix, from, to, names) + WalkName(k, prefix, from, to, n)
  {
  }

  /** What the second loop adds. */
  ghost function Additions(k: Change, prefix: Path, from: Tree, to: Tree, names: set<Name>): set<Path> {
    set n | n in names && n !in from.entries && Local(k, None, Get(to, n)) :: prefix + [n]
  }

  lemma AddMore(prefix: Path, from: Tree, to: Tree, names: set<Name>, n: Name)
    ensures forall k ::
      Additions(k, prefix, from, to, names + {n}) == Additions(k, prefix, from, to, names)
        + if n !in from.entries && Local(k, None, Get(to, n)) then {prefix + [n]} else {}
  {
  }

  lemma WalkSplits(prefix: Path, from: Tree, to: Tree)
    ensures forall k ::
      Walk(k, prefix, from, to) == WalkOver(k, prefix, from, to, from.entries.Keys)
        + Additions(k, prefix, from, to, to.entries.Keys)
  {
    forall k, n | n in to.entries && n !in from.entries
      ensures WalkName(k, prefix, from, to, n) == if Local(k, None, Get(to, n)) then {prefix + [n]} else {}
    {
    }
  }

  lemma {:induction false} WalkSelf(k: Change, prefix: Path, t: Tree)
    ensures Walk(k, prefix, t, t) == {}
    decreases t
  {
    forall n | n in t.entries
      ensures WalkName(k, prefix, t, t, n) == {}
    {
      if t.entries[n].DirN? {
        WalkSelf(k, prefix + [n], t.entries[n].tree);
      }
    }
  }

  lemma {:induction false} NotMixedSelf(t: Tree)
    ensures !Mixed(t, t)
    decreases t
  {
    forall n | n in t.entries && t.entries[n].DirN?
      ensures !Mixed(t.entries[n].tree, t.entries[n].tree)
    {
      NotMixedSelf(t.entries[n].tree);
    }
  }

  // ---- what the walk finds, path by path ----

  function At(t: Tree, p: Path): Option<Node> {
    if p == [] then None
    else if p[0] !in t.entries then None
    else if |p| == 1 then Some(t.entries[p[0]])
    else if t.entries[p[0]].DirN? then At(t.entries[p[0]].tree, p[1..])
    else None
  }

  /** All proper prefixes of the path are directories on both sides. */
  predicate Reached(from: Tree, to: Tree, p: Path) {
    |p| > 1 ==>
      && p[0] in from.entries && p[0] in to.entries && from.entries[p[0]].DirN? && to.entries[p[0]].DirN?
      && Reached(from.entries[p[0]].tree, to.entries[p[0]].tree, p[1..])
  }

  /** A path that the comparison looks at. */
  predicate Compared(from: Tree, to: Tree, p: Path) {
    p != [] && Reached(from, to, p)
  }

  predicate IsFile(n: Option<Node>) {
    n.Some? && n.value.FileN?
  }

  predicate IsDir(n: Option<Node>) {
    n.Some? && n.value.DirN?
  }

  /** The walk reports exactly the paths whose entries differ, below directories that both sides
      have; in particular nothing below an added or removed directory. */
  lemma {:induction false} WalkMeaning(k: Change, prefix: Path, from: Tree, to: Tree, q: Path)
    ensures q in Walk(k, prefix, from, to) <==>
      |q| > |prefix| && prefix <= q && Reached(from, to, q[|prefix|..])
      && Local(k, At(from, q[|prefix|..]), At(to, q[|prefix|..]))
    decreases from
  {
    forall n | n in from.entries && n in to.entries && from.entries[n].DirN? && to.entries[n].DirN?
      ensures q in Walk(k, prefix + [n], from.entries[n].tree, to.entries[n].tree) <==>
        |q| > |prefix| + 1 && prefix + [n] <= q && Reached(from.entries[n].tree, to.entries[n].tree, q[|prefix| + 1..])
        && Local(k, At(from.entries[n].tree, q[|prefix| + 1..]), At(to.entries[n].tree, q[|prefix| + 1..]))
    {
      WalkMeaning(k, prefix + [n], from.entries[n].tree, to.entries[n].tree, q);
    }
    forall n | n in from.entries.Keys + to.entries.Keys
      ensures q in WalkName(k, prefix, from, to, n) <==> InName(k, prefix, from, to, n, q)
    {
      NameMeaning(k, prefix, from, to, n, q);
    }
    if |q| > |prefix| && prefix <= q {
      assert q[|prefix|..][0] == q[|prefix|] && q[|prefix|..][1..] == q[|prefix| + 1..];
    }
  }

  ghost predicate InName(k: Change, prefix: Path, from: Tree, to: Tree, n: Name, q: Path) {
    |q| > |prefix| && prefix <= q && q[|prefix|] == n && Reached(from, to, q[|prefix|..])
    && Local(k, At(from, q[|prefix|..]), At(to, q[|prefix|..]))
  }

  lemma NameMeaning(k: Change, prefix: Path, from: Tree, to: Tree, n: Name, q: Path)
    requires n in from.entries.Keys + to.entries.Keys
    requires n in from.entries && n in to.entries && from.entries[n].DirN? && to.entries[n].DirN? ==>
      (q in Walk(k, prefix + [n], from.entries[n].tree, to.entries[n].tree) <==>
        |q| > |prefix| + 1 && prefix + [n] <= q && Reached(from.entries[n].tree, to.entries[n].tree, q[|prefix| + 1..])
        && Local(k, At(from.entries[n].tree, q[|prefix| + 1..]), At(to.entries[n].tree, q[|prefix| + 1..])))
    ensures q in WalkName(k, prefix, from, to, n) <==> InName(k, prefix, from, to, n, q)
  {
    if |q| > |prefix| && prefix <= q {
      assert q == prefix + q[|prefix|..];
      assert q[|prefix|..][1..] == q[|prefix| + 1..];
      if |q| == |prefix| + 1 {
        assert q == prefix + [q[|prefix|]];
      }
    }
  }

  // ---- the pruned walk ----

  /** Directories of both trees with equal checksums are equal, for those that get compared. */
  ghost predicate Distinguishes(digest: Digest, from: Tree, to: Tree) {
    forall n | n in from.entries && n in to.entries && from.entries[n].DirN? && to.entries[n].DirN? ::
      && (digest(from.entries[n].tree) == digest(to.entries[n].tree) ==> from.entries[n].tree == to.entries[n].tree)
      && Distinguishes(digest, from.entries[n].tree, to.entries[n].tree)
  }

  class FileTreeDiff {
    var addedFiles: set<Path>
    var addedDirs: set<Path>
    var removedFiles: set<Path>
    var removedDirs: set<Path>
    var changedFiles: set<Path>
    var changedDirs: set<Path>

    constructor ()
      ensures forall k :: Set(k) == {}
    {
      addedFiles, addedDirs, removedFiles, removedDirs, changedFiles, changedDirs := {}, {}, {}, {}, {}, {};
    }

    function Set(k: Change): set<Path>
      reads this
    {
      match k
      case AddedFile => addedFiles
      case AddedDir => addedDirs
      case RemovedFile => removedFiles
      case RemovedDir => removedDirs
      case ChangedFile => changedFiles
      case ChangedDir => changedDirs
    }

    /** What each set says of a path, in terms of what the two trees have there. */
    ghost predicate Tells(from: Tree, to: Tree)
      reads this
    {
      forall q :: TellsOf(from, to, q)
    }

    ghost predicate TellsOf(from: Tree, to: Tree, q: Path)
      reads this
    {
      && (q in addedFiles <==> Compared(from, to, q) && At(from, q).None? && IsFile(At(to, q)))
      && (q in addedDirs <==> Compared(from, to, q) && At(from, q).None? && IsDir(At(to, q)))
      && (q in removedFiles <==> Compared(from, to, q) && IsFile(At(from, q)) && At(to, q).None?)
      && (q in removedDirs <==> Compared(from, to, q) && IsDir(At(from, q)) && At(to, q).None?)
      && (q in changedFiles <==>
            Compared(from, to, q) && IsFile(At(from, q)) && At(to, q).Some? && At(to, q) != At(from, q))
      && (q in changedDirs <==>
            Compared(from, to, q) && IsDir(At(from, q)) && IsDir(At(to, q))
            && At(from, q).value.meta != At(to, q).value.meta)
    }

    lemma TellsWalk(from: Tree, to: Tree)
      requires forall k :: Set(k) == Walk(k, [], from, to)
      ensures Tells(from, to)
    {
      forall q
        ensures TellsOf(from, to, q)
      {
        forall k ensures q in Set(k) <==> Compared(from, to, q) && Local(k, At(from, q), At(to, q)) {
          WalkMeaning(k, [], from, to, q);
          assert q[0..] == q;
        }
        assert q in addedFiles <==> q in Set(AddedFile);
        assert q in addedDirs <==> q in Set(AddedDir);
        assert q in removedFiles <==> q in Set(RemovedFile);
        assert q in removedDirs <==> q in Set(RemovedDir);
        assert q in changedFiles <==> q in Set(ChangedFile);
        assert q in changedDirs <==> q in Set(ChangedDir);
      }
    }

    /** Adds exactly what the walk that never skips would add. */
    method DiffRecurse(prefix: Path, from: Tree, to: Tree, digest: Digest) returns (r: Result<()>)
      requires Distinguishes(digest, from, to)
      modifies this
      ensures r.Err? <==> Mixed(from, to)
      ensures r.Ok? ==> forall k :: Set(k) == old(Set(k)) + Walk(k, prefix, from, to)
      decreases from, 1
    {
      var todo, done := from.entries.Keys, {};
      while todo != {}
        invariant done !! todo && done + todo == from.entries.Keys
        invariant forall n | n in done && n in to.entries && from.entries[n].DirN? ::
          to.entries[n].DirN? && !Mixed(from.entries[n].tree, to.entries[n].tree)
        invariant forall k :: Set(k) == old(Set(k)) + WalkOver(k, prefix, from, to, done)
      {
        var n :| n in todo;
        WalkMore(prefix, from, to, done, n);
        var step := DiffFrom(prefix, from, to, n, digest);
        if step.Err? { return Err; }
        todo, done := todo - {n}, done + {n};
      }
      assert done == from.entries.Keys;
      WalkSplits(prefix, from, to);
      DiffTo(prefix, from, to);
      return Ok(());
    }

    method AddEntry(path: Path, entry: Node)
      modifies this
      ensures forall k :: Set(k) == old(Set(k)) + if Local(k, None, Some(entry)) then {path} else {}
    {
      if entry.DirN? {
        addedDirs := addedDirs + {path};
      } else {
        addedFiles := addedFiles + {path};
      }
    }

    /** The children of the target directory that the source does not have. */
    method DiffTo(prefix: Path, from: Tree, to: Tree)
      modifies this
      ensures forall k :: Set(k) == old(Set(k)) + Additions(k, prefix, from, to, to.entries.Keys)
    {
      var todo := to.entries.Keys;
      ghost var done: set<Name> := {};
      while todo != {}
        invariant done !! todo && done + todo == to.entries.Keys
        invariant forall k :: Set(k) == old(Set(k)) + Additions(k, prefix, from, to, done)
      {
        var n :| n in todo;
        AddMore(prefix, from, to, done, n);
        if n !in from.entries {
          AddEntry(prefix + [n], to.entries[n]);
        }
        todo, done := todo - {n}, done + {n};
      }
      assert done == to.entries.Keys;
    }

    /** One child of the source directory. */
    method DiffFrom(prefix: Path, from: Tree, to: Tree, n: Name, digest: Digest) returns (r: Result<()>)
      requires n in from.entries && Distinguishes(digest, from, to)
      modifies this
      ensures r.Err? <==>
        n in to.entries && from.entries[n].DirN?
        && (to.entries[n].FileN? || Mixed(from.entries[n].tree, to.entries[n].tree))
      ensures r.Ok? ==> forall k :: Set(k) == old(Set(k)) + WalkName(k, prefix, from, to, n)
      decreases from, 0
    {
      var path := prefix + [n];
      if n !in to.entries {
        if from.entries[n].DirN? {
          removedDirs := removedDirs + {path};
        } else {
          removedFiles := removedFiles + {path};
        }
        return Ok(());
      }
      if from.entries[n].FileN? {
        if to.entries[n].DirN? || from.entries[n].sum != to.entries[n].sum {
          changedFiles := changedFiles + {path};
        }
        return Ok(());
      }
      if to.entries[n].FileN? { return Err; }
      if digest(from.entries[n].tree) != digest(to.entries[n].tree) {
        var below := DiffRecurse(path, from.entries[n].tree, to.entries[n].tree, digest);
        if below.Err? { return Err; }
      } else {
        forall k ensures Walk(k, path, from.entries[n].tree, to.entries[n].tree) == {} {
          WalkSelf(k, path, from.entries[n].tree);
        }
        NotMixedSelf(from.entries[n].tree);
      }
      if from.entries[n].meta != to.entries[n].meta {
        changedDirs := changedDirs + {path};
      }
      return Ok(());
    }
  }

  /** The comparison of two trees: what a walk that never skips finds; nothing exactly if they
      agree. */
  method Compare(from: Tree, to: Tree, digest: Digest) returns (r: Result<FileTreeDiff>)
    requires Distinguishes(digest, from, to)
    ensures r.Err? <==> Mixed(from, to)
    ensures r.Ok? ==> forall k :: r.value.Set(k) == Walk(k, [], from, to)
    ensures r.Ok? ==> ((forall k :: r.value.Set(k) == {}) <==> from == to)
    ensures r.Ok? ==> r.value.Tells(from, to)
  {
    var diff := new FileTreeDiff();
    var done :- diff.DiffRecurse([], from, to, digest);
    EmptyIffEqual([], from, to);
    diff.TellsWalk(from, to);
    return Ok(diff);
  }

  // ---- laws ----

  ghost predicate NothingFound(prefix: Path, from: Tree, to: Tree) {
    forall k :: Walk(k, prefix, from, to) == {}
  }

  /** Nothing is reported exactly when the trees agree below their roots. */
  lemma {:induction false} EmptyIffEqual(prefix: Path, from: Tree, to: Tree)
    requires !Mixed(from, to)
    ensures NothingFound(prefix, from, to) <==> from == to
    decreases from
  {
    if from == to {
      forall k ensures Walk(k, prefix, from, to) == {} { WalkSelf(k, prefix, from); }
    }
    if NothingFound(prefix, from, to) {
      forall n | n in from.entries.Keys + to.entries.Keys
        ensures n in from.entries && n in to.entries && from.entries[n] == to.entries[n]
      {
        assert forall k :: WalkName(k, prefix, from, to, n) == {} by {
          forall k, q | q in WalkName(k, prefix, from, to, n) ensures false {
            assert q in Walk(k, prefix, from, to);
          }
        }
        SameEntry(prefix, from, to, n);
        if from.entries[n].DirN? {
          EmptyIffEqual(prefix + [n], from.entries[n].tree, to.entries[n].tree);
        }
      }
      assert from.entries == to.entries;
      assert from == to;
    }
  }

  lemma SameEntry(prefix: Path, from: Tree, to: Tree, n: Name)
    requires n in from.entries.Keys + to.entries.Keys && !Mixed(from, to)
    requires forall k :: WalkName(k, prefix, from, to, n) == {}
    ensures n in from.entries && n in to.entries
    ensures from.entries[n].FileN? ==> from.entries[n] == to.entries[n]
    ensures from.entries[n].DirN? ==> to.entries[n].DirN? && from.entries[n].meta == to.entries[n].meta
    ensures from.entries[n].DirN? ==> !Mixed(from.entries[n].tree, to.entries[n].tree)
    ensures from.entries[n].DirN? ==> NothingFound(prefix + [n], from.entries[n].tree, to.entries[n].tree)
  {
    forall k
      ensures !Local(k, Get(from, n), Get(to, n))
    {
      assert prefix + [n] !in WalkName(k, prefix, from, to, n);
    }
    assert !Local(AddedFile, Get(from, n), Get(to, n)) && !Local(AddedDir, Get(from, n), Get(to, n));
    assert !Local(RemovedFile, Get(from, n), Get(to, n)) && !Local(RemovedDir, Get(from, n), Get(to, n));
    assert !Local(ChangedFile, Get(from, n), Get(to, n)) && !Local(ChangedDir, Get(from, n), Get(to, n));
    if from.entries[n].DirN? {
      forall k
        ensures Walk(k, prefix + [n], from.entries[n].tree, to.entries[n].tree) == {}
      {
        assert WalkName(k, prefix, from, to, n) == {};
      }
    }
  }

  function Swapped(k: Change): Change {
    match k
    case AddedFile => RemovedFile
    case AddedDir => RemovedDir
    case RemovedFile => AddedFile
    case RemovedDir => AddedDir
    case ChangedFile => ChangedFile
    case ChangedDir => ChangedDir
  }

  /** Swapping the arguments swaps added with removed and keeps what changed. */
  lemma {:induction false} SwapArguments(k: Change, prefix: Path, from: Tree, to: Tree)
    requires !Mixed(from, to) && !Mixed(to, from)
    ensures Walk(k, prefix, from, to) == Walk(Swapped(k), prefix, to, from)
    decreases from
  {
    forall n | n in from.entries.Keys + to.entries.Keys
      ensures WalkName(k, prefix, from, to, n) == WalkName(Swapped(k), prefix, to, from, n)
    {
      assert Local(k, Get(from, n), Get(to, n)) == Local(Swapped(k), Get(to, n), Get(from, n));
      if n in from.entries && n in to.entries && from.entries[n].DirN? && to.entries[n].DirN? {
        SwapArguments(k, prefix + [n], from.entries[n].tree, to.entries[n].tree);
      }
    }
  }
}
