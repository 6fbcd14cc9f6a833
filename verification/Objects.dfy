/** Content-addressed objects and the trees they make up.  Hashes and serialisation are
    parameters: any functions, with collision-freedom asked only of the objects at hand. */
module Objects {
  import opened Outcomes
  import opened Text
  import opened Paths

  type Byte = b: int | 0 <= b < 256
  type Bytes = seq<Byte>
  type Sum = string

  datatype FileObj =
    | Regular(uid: nat, gid: nat, mode: nat, xattrs: Bytes, data: Bytes)
    | Symlink(uid: nat, gid: nat, xattrs: Bytes, target: string)

  datatype DirMeta = DirMeta(uid: nat, gid: nat, mode: nat, xattrs: Bytes)

  datatype TreeObj = TreeObj(files: seq<(string, Sum)>, dirs: seq<(string, Sum, Sum)>)

  datatype CommitObj = CommitObj(info: Bytes, tree: Sum, meta: Sum)

  /** Detached commit metadata (signatures). */
  datatype Detached = Detached(entries: map<string, Bytes>)

  datatype Object = FileO(file: FileObj) | TreeO(tree: TreeObj) | MetaO(meta: DirMeta) | CommitO(commit: CommitObj)

  // A whole directory tree, as a value.
  datatype File = File(name: string, obj: FileObj)
  datatype Dir = Dir(name: string, meta: DirMeta, tree: Tree)
  datatype Tree = Tree(files: seq<File>, dirs: seq<Dir>)
  datatype Commit = Commit(info: Bytes, meta: DirMeta, root: Tree, detached: Option<Detached>)

  predicate IsSha256(s: string) {
    |s| == 64 && forall c | c in s :: '0' <= c <= '9' || 'a' <= c <= 'f'
  }

  /** Hash functions and encodings. */
  datatype Env = Env(
    fileSum: FileObj -> Sum, treeSum: TreeObj -> Sum, metaSum: DirMeta -> Sum, commitSum: CommitObj -> Sum,
    xattrSum: Bytes -> Sum,
    encTree: TreeObj -> Bytes, decTree: Bytes -> TreeObj,
    encMeta: DirMeta -> Bytes, decMeta: Bytes -> DirMeta,
    encCommit: CommitObj -> Bytes, decCommit: Bytes -> CommitObj,
    encDetached: Detached -> Bytes, decDetached: Bytes -> Detached)
  {
    /** Digests are lower-case hexadecimal, and encodings can be read back. */
    ghost predicate Valid() {
      && (forall x :: IsSha256(fileSum(x))) && (forall x :: IsSha256(treeSum(x)))
      && (forall x :: IsSha256(metaSum(x))) && (forall x :: IsSha256(commitSum(x)))
      && (forall x :: IsSha256(xattrSum(x)))
      && (forall x :: decTree(encTree(x)) == x) && (forall x :: decMeta(encMeta(x)) == x)
      && (forall x :: decCommit(encCommit(x)) == x) && (forall x :: decDetached(encDetached(x)) == x)
    }

    function Digest(o: Object): Sum {
      match o
      case FileO(f) => fileSum(f)
      case TreeO(t) => treeSum(t)
      case MetaO(m) => metaSum(m)
      case CommitO(c) => commitSum(c)
    }

    function TreeDigest(t: Tree): Sum
      decreases t, 1
    {
      treeSum(Flat(t))
    }

    /** The dirtree object of a tree: names and digests of its entries. */
    function Flat(t: Tree): TreeObj
      decreases t, 0
    {
      TreeObj(FlatFiles(t.files), FlatDirs(t.dirs))
    }

    function FlatFiles(fs: seq<File>): seq<(string, Sum)> {
      if fs == [] then [] else [(fs[0].name, fileSum(fs[0].obj))] + FlatFiles(fs[1..])
    }

    function FlatDirs(ds: seq<Dir>): seq<(string, Sum, Sum)>
      decreases ds, 0
    {
      if ds == [] then []
      else [(ds[0].name, TreeDigest(ds[0].tree), metaSum(ds[0].meta))] + FlatDirs(ds[1..])
    }

    function FlatCommit(c: Commit): CommitObj {
      CommitObj(c.info, TreeDigest(c.root), metaSum(c.meta))
    }
  }

  // ---- reachable objects ----

  function FilesOf(t: Tree): set<FileObj> {
    FilesIn(t.files) + FilesBelow(t.dirs)
  }

  function FilesIn(fs: seq<File>): set<FileObj> {
    set f | f in fs :: f.obj
  }

  function FilesBelow(ds: seq<Dir>): set<FileObj> {
    if ds == [] then {} else FilesOf(ds[0].tree) + FilesBelow(ds[1..])
  }

  /** The dirtree and dirmeta objects of a tree and everything below it. */
  function StructureOf(t: Tree, env: Env): set<Object> {
    {TreeO(env.Flat(t))} + StructureBelow(t.dirs, env)
  }

  function StructureBelow(ds: seq<Dir>, env: Env): set<Object> {
    if ds == [] then {}
    else {MetaO(ds[0].meta)} + StructureOf(ds[0].tree, env) + StructureBelow(ds[1..], env)
  }

  function FileObjects(t: Tree): set<Object> {
    set f | f in FilesOf(t) :: FileO(f)
  }

  function Reachable(c: Commit, env: Env): set<Object> {
    {CommitO(env.FlatCommit(c)), MetaO(c.meta)} + StructureOf(c.root, env) + FileObjects(c.root)
  }

  /** No two different objects of one kind share a digest. */
  ghost predicate CollisionFree(s: set<Object>, env: Env) {
    forall a, b | a in s && b in s && SameKind(a, b) && env.Digest(a) == env.Digest(b) :: a == b
  }

  predicate SameKind(a: Object, b: Object) {
    a.FileO? == b.FileO? && a.TreeO? == b.TreeO? && a.MetaO? == b.MetaO? && a.CommitO? == b.CommitO?
  }
}
