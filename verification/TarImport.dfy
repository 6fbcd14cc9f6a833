/** Importing an exported tar stream (lib/src/tar/import.rs). */
module TarImport {
  import opened Outcomes
  import opened Paths
  import opened Objects
  import opened ObjectPaths
  import opened TarStream

  const MAX_XATTR_SIZE := 1024 * 1024
  const MAX_METADATA_SIZE := 10 * 1024 * 1024

  datatype Mode = CommitMode(commit: Option<Sum>) | ObjectSet(imported: set<Sum>)

  /** The repository as far as the importer changes it, and the importer's own state. */
  datatype State = State(
    repo: set<Object>, detached: map<Sum, Detached>,
    xattrs: map<Sum, Bytes>, next: Option<(Sum, Sum)>, mode: Mode)

  /** Signature check of a commit against its detached metadata, if a remote is configured. */
  type Remote = Option<(CommitObj, Detached) -> bool>

  predicate HasFile(repo: set<Object>, sum: Sum, env: Env) {
    exists o | o in repo :: o.FileO? && env.fileSum(o.file) == sum
  }

  // ---- what an entry means to the importer ----

  datatype Item =
    | Ignored                                             // not an object file of the repository
    | Malformed                                           // refused in every state
    | FileI(sum: Sum, entry: Entry)                       // .file
    | XattrsI(sum: Sum, body: Body)                       // .file-xattrs, or xattrs/<sum>
    | LinkI(sum: Sum, target: Sum)                        // .file-xattrs-link or .file.xattrs as a hard link
    | LinkDataI(sum: Sum, body: Body)                     // .file-xattrs-link holding the xattrs itself
    | MetaI(sum: Sum, kind: ObjKind, body: Body)          // other objects

  /** The path below the repository of an entry the importer looks at. */
  function FilterEntry(e: Entry): Option<Path> {
    if e.body.DirB? then None
    else
      match Strip(e.path, REPO)
      case None => None
      case Some(p) =>
        if FileName(p) == Some("config") || [Normal("refs")] <= p then None else Some(p)
  }

  function LinkItem(sum: Sum, body: Body): Item {
    match body
    case LinkB(to) => if ParseObject(to).Ok? then LinkI(sum, ParseObject(to).value.0) else Malformed
    case RegB(_) => LinkDataI(sum, body)
    case _ => Malformed
  }

  function OldLinkItem(sum: Sum, body: Body): Item {
    if !body.LinkB? then Malformed
    else
      match FileName(body.to)
      case None => Malformed
      case Some(target) => if IsSha256(target) then LinkI(sum, target) else Malformed
  }

  /** An entry whose path is read as an object name. */
  function ObjectItem(e: Entry, p: Path): Item {
    match ParseObject(p)
    case Err => Malformed
    case Ok((sum, ext)) =>
      if ext == "commit" then Malformed
      else if ext == "file" then FileI(sum, e)
      else if ext == XATTRS then XattrsI(sum, e.body)
      else if ext == XATTRS_LINK then LinkItem(sum, e.body)
      else if ext == "xattrs" then OldLinkItem(sum, e.body)
      else if KindOf(ext).None? then Malformed
      else MetaI(sum, KindOf(ext).value, e.body)
  }

  function SplitXattrsItem(e: Entry): Item {
    match FileName(e.path)
    case None => Malformed
    case Some(name) => if IsSha256(name) then XattrsI(name, e.body) else Malformed
  }

  function ReadEntry(e: Entry): Item {
    match FilterEntry(e)
    case None => Ignored
    case Some(p) =>
      if [Normal("objects")] <= p then ObjectItem(e, p[1..])
      else if [Normal("xattrs")] <= p then SplitXattrsItem(e)
      else Ignored
  }

  function ReadAll(es: seq<Entry>): (r: seq<Item>)
    ensures |r| == |es| && forall i | 0 <= i < |es| :: r[i] == ReadEntry(es[i])
  {
    seq(|es|, i requires 0 <= i < |es| => ReadEntry(es[i]))
  }

  // ---- the transition for one entry ----

  function CacheXattrs(st: State, body: Body, expected: Option<Sum>, env: Env): Result<(State, Sum)> {
    if !body.RegB? || |body.data| > MAX_XATTR_SIZE then Err
    else
      var sum := env.xattrSum(body.data);
      if expected.Some? && expected.value != sum then Err
      else Ok((st.(xattrs := st.xattrs[sum := body.data]), sum))
  }

  function ProcessXattrs(st: State, body: Body, sum: Sum, env: Env): Result<State> {
    var (st', _) :- CacheXattrs(st, body, Some(sum), env);
    Ok(st')
  }

  function ProcessLink(st: State, sum: Sum, target: Sum): Result<State> {
    if st.next.Some? then Err else Ok(st.(next := Some((sum, target))))
  }

  function ProcessLinkData(st: State, sum: Sum, body: Body, env: Env): Result<State> {
    if st.next.Some? then Err
    else
      var (st', target) :- CacheXattrs(st, body, None, env);
      Ok(st'.(next := Some((sum, target))))
  }

  function ObjectOf(e: Entry, xattrs: Bytes): Result<FileObj> {
    match e.body
    case RegB(data) => Ok(Regular(e.uid, e.gid, e.mode, xattrs, data))
    case SymB(target) => Ok(Symlink(e.uid, e.gid, xattrs, target))
    case _ => Err
  }

  function ImportContent(st: State, e: Entry, sum: Sum, env: Env): Result<State> {
    if st.next.None? || st.next.value.0 != sum then Err
    else
      var st' := st.(next := None);
      if HasFile(st.repo, sum, env) then Ok(st')
      else if st.next.value.1 !in st.xattrs then Err
      else
        var f :- ObjectOf(e, st.xattrs[st.next.value.1]);
        if env.fileSum(f) == sum then Ok(st'.(repo := st.repo + {FileO(f)})) else Err
  }

  function Track(st: State, sum: Sum): Result<State> {
    match st.mode
    case CommitMode(_) => Ok(st)
    case ObjectSet(imported) => if sum in imported then Err else Ok(st.(mode := ObjectSet(imported + {sum})))
  }

  function ImportFile(st: State, e: Entry, sum: Sum, env: Env): Result<State> {
    var st' :- ImportContent(st, e, sum, env);
    Track(st', sum)
  }

  function ImportMetadata(st: State, body: Body, sum: Sum, k: ObjKind, env: Env): Result<State> {
    if st.mode.ObjectSet? || !body.RegB? || |body.data| > MAX_METADATA_SIZE then Err
    else
      match k
      case DirTreeK =>
        var t := env.decTree(body.data);
        if env.treeSum(t) == sum then Ok(st.(repo := st.repo + {TreeO(t)})) else Err
      case DirMetaK =>
        var m := env.decMeta(body.data);
        if env.metaSum(m) == sum then Ok(st.(repo := st.repo + {MetaO(m)})) else Err
      case _ => Err
  }

  function ImportItem(st: State, item: Item, env: Env): Result<State> {
    match item
    case Ignored => Ok(st)
    case Malformed => Err
    case FileI(sum, e) => ImportFile(st, e, sum, env)
    case XattrsI(sum, body) => ProcessXattrs(st, body, sum, env)
    case LinkI(sum, target) => ProcessLink(st, sum, target)
    case LinkDataI(sum, body) => ProcessLinkData(st, sum, body, env)
    case MetaI(sum, k, body) => ImportMetadata(st, body, sum, k, env)
  }

  /** Importing a whole stream, entry after entry. */
  function ImportAll(st: State, items: seq<Item>, env: Env): Result<State> {
    if items == [] then Ok(st)
    else
      var before :- ImportAll(st, items[..|items| - 1], env);
      ImportItem(before, items[|items| - 1], env)
  }

  // ---- the commit layer ----

  /** The stream from the first entry on that the importer looks at. */
  function SkipIrrelevant(es: seq<Entry>): (r: seq<Entry>)
    ensures |r| <= |es| && (r != [] ==> FilterEntry(r[0]).Some?)
  {
    if es == [] || FilterEntry(es[0]).Some? then es else SkipIrrelevant(es[1..])
  }

  lemma {:induction false} SkipTo(es: seq<Entry>, j: nat)
    requires j < |es| && FilterEntry(es[j]).Some?
    requires forall k | 0 <= k < j :: FilterEntry(es[k]).None?
    ensures SkipIrrelevant(es) == es[j..]
    decreases j
  {
    if j > 0 {
      SkipTo(es[1..], j - 1);
      assert es[1..][j - 1..] == es[j..];
    } else {
      assert es[0..] == es;
    }
  }

  /** The checksum and kind in the name of an entry of the repository. */
  function MetadataName(e: Entry): Result<(Sum, ObjKind)> {
    match FilterEntry(e)
    case None => Err
    case Some(p) => ParseMetadataEntry(p)
  }

  /** The second entry of a commit layer as an ordinary object. */
  function SecondItem(e: Entry): Item {
    match FilterEntry(e)
    case None => Malformed
    case Some(p) => ObjectItem(e, p)
  }

  function ReadDetached(body: Body, env: Env): Result<Detached> {
    if !body.RegB? || |body.data| > MAX_METADATA_SIZE then Err else Ok(env.decDetached(body.data))
  }

  /** The commit object and the entry after it, given what their names say. */
  function ImportHead(st: State, sum: Sum, commitBody: Body, nextSum: Sum, nextKind: ObjKind, second: Entry,
                      remote: Remote, env: Env): Result<State>
  {
    if !commitBody.RegB? || |commitBody.data| > MAX_METADATA_SIZE then Err
    else
      var commit := env.decCommit(commitBody.data);
      var written := st.(repo := st.repo + {CommitO(commit)});
      if remote.Some? && (nextKind != CommitMetaK || nextSum != sum) then Err
      else if env.commitSum(commit) != sum then Err
      else if nextKind == CommitMetaK then
        var d :- ReadDetached(second.body, env);
        if remote.Some? && !remote.value(commit, d) then Err
        else Ok(written.(detached := st.detached[sum := d], mode := CommitMode(Some(sum))))
      else
        var st' :- ImportItem(written, SecondItem(second), env);
        Ok(st'.(mode := CommitMode(Some(sum))))
  }

  function ImportFirstTwo(st: State, first: Entry, second: Entry, remote: Remote, env: Env): Result<State> {
    var (sum, k) :- MetadataName(first);
    if k != CommitK then Err
    else
      var (nextSum, nextKind) :- MetadataName(second);
      ImportHead(st, sum, first.body, nextSum, nextKind, second, remote, env)
  }

  function ImportFrom(st: State, first: Entry, second: Entry, rest: seq<Entry>, remote: Remote,
                      env: Env): Result<State>
  {
    var head :- ImportFirstTwo(st, first, second, remote, env);
    ImportAll(head, ReadAll(rest), env)
  }

  function ImportCommit(st: State, es: seq<Entry>, remote: Remote, env: Env): Result<State> {
    var a := SkipIrrelevant(es);
    if a == [] then Err
    else
      var b := SkipIrrelevant(a[1..]);
      if b == [] then Err
      else ImportFrom(st, a[0], b[0], b[1..], remote, env)
  }

  /** The commit layer is read from its first two relevant entries on. */
  lemma ImportCommitAt(st: State, es: seq<Entry>, i: nat, remote: Remote, env: Env)
    requires i + 1 < |es| && FilterEntry(es[i]).Some? && FilterEntry(es[i + 1]).Some?
    requires forall k | 0 <= k < i :: FilterEntry(es[k]).None?
    ensures ImportCommit(st, es, remote, env) == ImportFrom(st, es[i], es[i + 1], es[i + 2..], remote, env)
  {
    SkipTo(es, i);
    var a := SkipIrrelevant(es);
    assert a[1..] == es[i + 1..] && a[1..][0] == es[i + 1];
    var zero: nat := 0;
    SkipTo(a[1..], zero);
    assert a[1..][zero..] == a[1..] && a[1..][1..] == es[i + 2..];
  }

  // ---- the importer object ----

  class Importer {
    var repo: set<Object>
    var detached: map<Sum, Detached>
    var xattrs: map<Sum, Bytes>
    var next: Option<(Sum, Sum)>
    var mode: Mode
    const env: Env

    ghost function View(): State
      reads this
    {
      State(repo, detached, xattrs, next, mode)
    }

    constructor ForCommit(repo: set<Object>, detached: map<Sum, Detached>, env: Env)
      ensures View() == State(repo, detached, map[], None, CommitMode(None)) && this.env == env
    {
      this.repo, this.detached, this.env := repo, detached, env;
      xattrs, next, mode := map[], None, CommitMode(None);
    }

    constructor ForObjectSet(repo: set<Object>, detached: map<Sum, Detached>, env: Env)
      ensures View() == State(repo, detached, map[], None, ObjectSet({})) && this.env == env
    {
      this.repo, this.detached, this.env := repo, detached, env;
      xattrs, next, mode := map[], None, ObjectSet({});
    }

    method CacheXattrsContent(body: Body, expected: Option<Sum>) returns (r: Result<Sum>)
      modifies this
      ensures r.Ok? <==> CacheXattrs(old(View()), body, expected, env).Ok?
      ensures r.Ok? ==> CacheXattrs(old(View()), body, expected, env) == Ok((View(), r.value))
    {
      if !body.RegB? || |body.data| > MAX_XATTR_SIZE { return Err; }
      var sum := env.xattrSum(body.data);
      if expected.Some? && expected.value != sum { return Err; }
      xattrs := xattrs[sum := body.data];
      return Ok(sum);
    }

    method ImportContentObject(e: Entry, sum: Sum) returns (ok: bool)
      modifies this
      ensures ok <==> ImportContent(old(View()), e, sum, env).Ok?
      ensures ok ==> ImportContent(old(View()), e, sum, env) == Ok(View())
    {
      if next.None? { return false; }
      var (file, cached) := next.value;
      next := None;
      if file != sum { return false; }
      if HasFile(repo, sum, env) { return true; }
      if cached !in xattrs { return false; }
      var f := ObjectOf(e, xattrs[cached]);
      if f.Err? || env.fileSum(f.value) != sum { return false; }
      repo := repo + {FileO(f.value)};
      return true;
    }

    method ImportOne(item: Item) returns (ok: bool)
      modifies this
      ensures ok <==> ImportItem(old(View()), item, env).Ok?
      ensures ok ==> ImportItem(old(View()), item, env) == Ok(View())
    {
      match item {
        case Ignored =>
          return true;
        case Malformed =>
          return false;
        case FileI(sum, e) =>
          ok := ImportContentObject(e, sum);
          if ok && mode.ObjectSet? {
            if sum in mode.imported { return false; }
            mode := ObjectSet(mode.imported + {sum});
          }
        case XattrsI(sum, body) =>
          var r := CacheXattrsContent(body, Some(sum));
          return r.Ok?;
        case LinkI(sum, target) =>
          if next.Some? { return false; }
          next := Some((sum, target));
          return true;
        case LinkDataI(sum, body) =>
          if next.Some? { return false; }
          var target := CacheXattrsContent(body, None);
          if target.Err? { return false; }
          next := Some((sum, target.value));
          return true;
        case MetaI(sum, k, body) =>
          var st := ImportMetadata(State(repo, detached, xattrs, next, mode), body, sum, k, env);
          if st.Err? { return false; }
          repo := st.value.repo;
          return true;
      }
    }

    method ImportObjects(es: seq<Entry>) returns (ok: bool)
      modifies this
      ensures ok <==> ImportAll(old(View()), ReadAll(es), env).Ok?
      ensures ok ==> ImportAll(old(View()), ReadAll(es), env) == Ok(View())
    {
      ghost var items := ReadAll(es);
      for i := 0 to |es|
        invariant ImportAll(old(View()), items[..i], env) == Ok(View())
      {
        assert items[..i + 1][..i] == items[..i];
        var done := ImportOne(ReadEntry(es[i]));
        if !done {
          ImportAllPrefix(old(View()), items, i + 1, env);
          return false;
        }
      }
      assert items[..|es|] == items;
      return true;
    }

    method ImportCommitHead(first: Entry, second: Entry, remote: Remote) returns (ok: bool)
      modifies this
      ensures ok <==> ImportFirstTwo(old(View()), first, second, remote, env).Ok?
      ensures ok ==> ImportFirstTwo(old(View()), first, second, remote, env) == Ok(View())
    {
      var name, nextName := MetadataName(first), MetadataName(second);
      if name.Err? || name.value.1 != CommitK || nextName.Err? { return false; }
      var sum, nextSum, nextKind := name.value.0, nextName.value.0, nextName.value.1;
      if !first.body.RegB? || |first.body.data| > MAX_METADATA_SIZE { return false; }
      var commit := env.decCommit(first.body.data);
      if remote.Some? && (nextKind != CommitMetaK || nextSum != sum) { return false; }
      if env.commitSum(commit) != sum { return false; }
      repo := repo + {CommitO(commit)};
      if nextKind == CommitMetaK {
        var d := ReadDetached(second.body, env);
        if d.Err? || (remote.Some? && !remote.value(commit, d.value)) { return false; }
        detached := detached[sum := d.value];
      } else {
        var done := ImportOne(SecondItem(second));
        if !done { return false; }
      }
      mode := CommitMode(Some(sum));
      return true;
    }

    method ImportCommitFrom(first: Entry, second: Entry, rest: seq<Entry>, remote: Remote) returns (ok: bool)
      modifies this
      ensures ok <==> ImportFrom(old(View()), first, second, rest, remote, env).Ok?
      ensures ok ==> ImportFrom(old(View()), first, second, rest, remote, env) == Ok(View())
    {
      ok := ImportCommitHead(first, second, remote);
      if ok {
        ok := ImportObjects(rest);
      }
    }

    method ImportCommitStream(es: seq<Entry>, remote: Remote) returns (ok: bool)
      modifies this
      ensures ok <==> ImportCommit(old(View()), es, remote, env).Ok?
      ensures ok ==> ImportCommit(old(View()), es, remote, env) == Ok(View())
    {
      var a := SkipIrrelevant(es);
      if a == [] { return false; }
      var b := SkipIrrelevant(a[1..]);
      if b == [] { return false; }
      ok := ImportCommitFrom(a[0], b[0], b[1..], remote);
    }
  }

  /** Once an entry is refused, so is every longer stream. */
  lemma {:induction false} ImportAllPrefix(st: State, items: seq<Item>, i: nat, env: Env)
    requires i <= |items|
    ensures ImportAll(st, items, env).Ok? ==> ImportAll(st, items[..i], env).Ok?
  {
    if i < |items| {
      ImportAllPrefix(st, items[..|items| - 1], i, env);
      assert items[..|items| - 1][..i] == items[..i];
    } else {
      assert items[..i] == items;
    }
  }

  // ---- the protocol every accepted stream follows ----

  predicate IsLink(item: Item, sum: Sum) { (item.LinkI? || item.LinkDataI?) && item.sum == sum }

  predicate LinkOrFile(item: Item) { item.FileI? || item.LinkI? || item.LinkDataI? }

  /** Before position `i` comes a link entry for `sum`, with no other link or file in between. */
  ghost predicate LinkedBefore(items: seq<Item>, i: nat, sum: Sum)
    requires i <= |items|
  {
    exists j :: 0 <= j < i && IsLink(items[j], sum) && forall k | j < k < i :: !LinkOrFile(items[k])
  }

  ghost predicate FilesLinked(items: seq<Item>) {
    forall i | 0 <= i < |items| && items[i].FileI? :: LinkedBefore(items, i, items[i].sum)
  }

  lemma LinkedLonger(items: seq<Item>, last: Item, i: nat, sum: Sum)
    requires i <= |items| && LinkedBefore(items, i, sum)
    ensures LinkedBefore(items + [last], i, sum)
  {
    var j :| 0 <= j < i && IsLink(items[j], sum) && forall k | j < k < i :: !LinkOrFile(items[k]);
    assert IsLink((items + [last])[j], sum);
  }

  /** What one accepted entry does to the one-slot register. */
  lemma RegisterStep(st: State, item: Item, env: Env)
    requires ImportItem(st, item, env).Ok?
    ensures var st' := ImportItem(st, item, env).value;
      && (item.FileI? ==> st.next.Some? && st.next.value.0 == item.sum && st'.next == None)
      && (item.LinkI? || item.LinkDataI? ==> st.next == None && st'.next.Some? && st'.next.value.0 == item.sum)
      && (!LinkOrFile(item) ==> st'.next == st.next)
  {
  }

  /** In every accepted run each file entry is announced by a link entry for its own checksum. */
  lemma {:induction false} FilesAreLinked(st: State, items: seq<Item>, env: Env)
    requires st.next == None && ImportAll(st, items, env).Ok?
    ensures FilesLinked(items)
    ensures var end := ImportAll(st, items, env).value;
      end.next.Some? ==> LinkedBefore(items, |items|, end.next.value.0)
  {
    if items != [] {
      var t, e := items[..|items| - 1], items[|items| - 1];
      FilesAreLinked(st, t, env);
      var mid, end := ImportAll(st, t, env).value, ImportAll(st, items, env).value;
      RegisterStep(mid, e, env);
      assert items == t + [e];
      forall i | 0 <= i < |items| && items[i].FileI?
        ensures LinkedBefore(items, i, items[i].sum)
      {
        LinkedLonger(t, e, i, items[i].sum);
      }
      if end.next.Some? {
        StillLinked(t, e, mid, end);
      }
    }
  }

  lemma StillLinked(t: seq<Item>, e: Item, mid: State, end: State)
    requires end.next.Some? && !e.FileI?
    requires e.LinkI? || e.LinkDataI? ==> end.next.value.0 == e.sum
    requires !LinkOrFile(e) ==> end.next == mid.next
    requires mid.next.Some? ==> LinkedBefore(t, |t|, mid.next.value.0)
    ensures LinkedBefore(t + [e], |t| + 1, end.next.value.0)
  {
    var sum := end.next.value.0;
    var items := t + [e];
    if LinkOrFile(e) {
      assert IsLink(items[|t|], sum);
    } else {
      var j :| 0 <= j < |t| && IsLink(t[j], sum) && forall k | j < k < |t| :: !LinkOrFile(t[k]);
      assert IsLink(items[j], sum);
    }
  }

  ghost predicate CacheSound(xattrs: map<Sum, Bytes>, env: Env) {
    forall s | s in xattrs :: env.xattrSum(xattrs[s]) == s
  }

  lemma CacheStep(st: State, item: Item, env: Env)
    requires CacheSound(st.xattrs, env) && ImportItem(st, item, env).Ok?
    ensures CacheSound(ImportItem(st, item, env).value.xattrs, env)
  {
  }

  /** Every cached xattr value hashes to its key. */
  lemma {:induction false} CacheStaysSound(st: State, items: seq<Item>, env: Env)
    requires CacheSound(st.xattrs, env) && ImportAll(st, items, env).Ok?
    ensures CacheSound(ImportAll(st, items, env).value.xattrs, env)
  {
    if items != [] {
      CacheStaysSound(st, items[..|items| - 1], env);
      CacheStep(ImportAll(st, items[..|items| - 1], env).value, items[|items| - 1], env);
    }
  }

  /** The checksums of the file entries, in stream order. */
  function FileSums(items: seq<Item>): seq<Sum> {
    if items == [] then []
    else
      var before, last := FileSums(items[..|items| - 1]), items[|items| - 1];
      if last.FileI? then before + [last.sum] else before
  }

  lemma ObjectSetStep(st: State, item: Item, env: Env)
    requires st.mode.ObjectSet? && ImportItem(st, item, env).Ok?
    ensures var st' := ImportItem(st, item, env).value;
      && !item.MetaI? && st'.mode.ObjectSet? && st.repo <= st'.repo
      && if item.FileI?
         then item.sum !in st.mode.imported
           && st'.mode.imported == st.mode.imported + {item.sum}
           && HasFile(st'.repo, item.sum, env)
         else st'.mode == st.mode
  {
    if item.FileI? && !HasFile(st.repo, item.sum, env) {
      var f := ObjectOf(item.entry, st.xattrs[st.next.value.1]).value;
      assert FileO(f) in ImportItem(st, item, env).value.repo;
    }
  }

  /** In object-set mode the tracked set is the set of file checksums seen; there are no
      duplicates and no metadata objects, and all of the files are in the repository. */
  lemma {:induction false} ObjectSetTracks(st: State, items: seq<Item>, env: Env)
    requires st.mode == ObjectSet({}) && ImportAll(st, items, env).Ok?
    ensures var end := ImportAll(st, items, env).value;
      && end.mode == ObjectSet(set s | s in FileSums(items))
      && st.repo <= end.repo
      && forall s | s in FileSums(items) :: HasFile(end.repo, s, env)
    ensures forall i, j | 0 <= i < j < |FileSums(items)| :: FileSums(items)[i] != FileSums(items)[j]
    ensures forall e | e in items :: !e.MetaI?
  {
    if items != [] {
      var t, e := items[..|items| - 1], items[|items| - 1];
      ObjectSetTracks(st, t, env);
      ObjectSetStep(ImportAll(st, t, env).value, e, env);
      assert items == t + [e];
    }
  }

  // ---- what a configured remote guarantees ----

  /** The rest of a commit layer only adds objects. */
  lemma {:induction false} RestAdds(st: State, items: seq<Item>, env: Env)
    requires st.mode.CommitMode? && ImportAll(st, items, env).Ok?
    ensures var end := ImportAll(st, items, env).value;
      st.repo <= end.repo && end.detached == st.detached && end.mode == st.mode
  {
    if items != [] {
      RestAdds(st, items[..|items| - 1], env);
      ItemAdds(ImportAll(st, items[..|items| - 1], env).value, items[|items| - 1], env);
    }
  }

  lemma ItemAdds(st: State, item: Item, env: Env)
    requires st.mode.CommitMode? && ImportItem(st, item, env).Ok?
    ensures var next := ImportItem(st, item, env).value;
      st.repo <= next.repo && next.detached == st.detached && next.mode == st.mode
  {
  }

  /** An entry of the stream that has the commit, under its own checksum. */
  ghost predicate CommitIn(es: seq<Entry>, commit: CommitObj, env: Env) {
    exists e | e in es ::
      MetadataName(e) == Ok((env.commitSum(commit), CommitK)) && e.body.RegB? && env.decCommit(e.body.data) == commit
  }

  /** An entry of the stream that has this metadata, under the checksum of the commit. */
  ghost predicate DetachedIn(es: seq<Entry>, commit: CommitObj, d: Detached, env: Env) {
    exists e | e in es ::
      MetadataName(e) == Ok((env.commitSum(commit), CommitMetaK)) && e.body.RegB? && env.decDetached(e.body.data) == d
  }

  /** A commit that is there under its own checksum, with detached metadata that vouches for it. */
  ghost predicate Vouched(end: State, commit: CommitObj, d: Detached, verify: (CommitObj, Detached) -> bool, env: Env) {
    var sum := env.commitSum(commit);
    && CommitO(commit) in end.repo && end.mode == CommitMode(Some(sum))
    && sum in end.detached && end.detached[sum] == d && verify(commit, d)
  }

  lemma {:induction false} SkippedFrom(es: seq<Entry>)
    ensures forall e | e in SkipIrrelevant(es) :: e in es
  {
    if es != [] && FilterEntry(es[0]).None? {
      SkippedFrom(es[1..]);
    }
  }

  lemma FoundIn(e: Entry, es: seq<Entry>, commit: CommitObj, d: Detached, env: Env)
    requires e in es
    ensures CommitIn([e], commit, env) ==> CommitIn(es, commit, env)
    ensures DetachedIn([e], commit, d, env) ==> DetachedIn(es, commit, d, env)
  {
  }

  lemma FirstTwoVouched(st: State, first: Entry, second: Entry, verify: (CommitObj, Detached) -> bool, env: Env)
    returns (commit: CommitObj, d: Detached)
    requires ImportFirstTwo(st, first, second, Some(verify), env).Ok?
    ensures Vouched(ImportFirstTwo(st, first, second, Some(verify), env).value, commit, d, verify, env)
    ensures CommitIn([first], commit, env) && DetachedIn([second], commit, d, env)
  {
    assert first in [first] && second in [second];
    commit, d := env.decCommit(first.body.data), ReadDetached(second.body, env).value;
  }

  /** On any stream: what is imported for a remote is a commit of that stream whose own detached
      metadata, from an entry under its checksum, passes that remote's check. */
  lemma RemoteVouches(st: State, es: seq<Entry>, verify: (CommitObj, Detached) -> bool, env: Env)
    returns (commit: CommitObj, d: Detached)
    requires ImportCommit(st, es, Some(verify), env).Ok?
    ensures Vouched(ImportCommit(st, es, Some(verify), env).value, commit, d, verify, env)
    ensures CommitIn(es, commit, env) && DetachedIn(es, commit, d, env)
  {
    var a := SkipIrrelevant(es);
    var b := SkipIrrelevant(a[1..]);
    SkippedFrom(es);
    SkippedFrom(a[1..]);
    assert a[0] in es && b[0] in a[1..] && b[0] in es;
    var head := ImportFirstTwo(st, a[0], b[0], Some(verify), env).value;
    commit, d := FirstTwoVouched(st, a[0], b[0], verify, env);
    FoundIn(a[0], es, commit, d, env);
    FoundIn(b[0], es, commit, d, env);
    RestAdds(head, ReadAll(b[1..]), env);
  }

  /** Without a remote the commit is still there under its own checksum. */
  lemma CommitImported(st: State, es: seq<Entry>, remote: Remote, env: Env) returns (commit: CommitObj)
    requires st.mode.CommitMode? && ImportCommit(st, es, remote, env).Ok?
    ensures var end := ImportCommit(st, es, remote, env).value;
      CommitO(commit) in end.repo && end.mode == CommitMode(Some(env.commitSum(commit)))
    ensures CommitIn(es, commit, env)
  {
    var a := SkipIrrelevant(es);
    var b := SkipIrrelevant(a[1..]);
    SkippedFrom(es);
    commit := env.decCommit(a[0].body.data);
    FirstTwoAdd(st, a[0], b[0], remote, commit, env);
    RestAdds(ImportFirstTwo(st, a[0], b[0], remote, env).value, ReadAll(b[1..]), env);
  }

  lemma FirstTwoAdd(st: State, first: Entry, second: Entry, remote: Remote, commit: CommitObj, env: Env)
    requires st.mode.CommitMode? && ImportFirstTwo(st, first, second, remote, env).Ok?
    requires first.body.RegB? ==> commit == env.decCommit(first.body.data)
    ensures first.body.RegB?
    ensures var head := ImportFirstTwo(st, first, second, remote, env).value;
      CommitO(commit) in head.repo && head.mode == CommitMode(Some(env.commitSum(commit)))
    ensures CommitIn([first], commit, env)
  {
    assert first in [first];
    var written := st.(repo := st.repo + {CommitO(commit)});
    if ImportItem(written, SecondItem(second), env).Ok? {
      ItemAdds(written, SecondItem(second), env);
    }
  }

  // ---- nothing enters the repository under a wrong name ----

  /** The object that an entry must bring: of its kind, and with the checksum in its name. */
  ghost predicate Brought(repo: set<Object>, item: Item, env: Env) {
    && (item.FileI? ==> HasFile(repo, item.sum, env))
    && (item.MetaI? ==> exists o | o in repo :: NamedBy(o, item, env))
  }

  predicate NamedBy(o: Object, item: Item, env: Env) {
    && ((item.FileI? && o.FileO?) || (item.MetaI? && item.kind == DirTreeK && o.TreeO?)
        || (item.MetaI? && item.kind == DirMetaK && o.MetaO?))
    && env.Digest(o) == item.sum
  }

  /** Entries larger than the importer reads are refused. */
  predicate SizeRead(item: Item) {
    && (item.MetaI? ==> item.body.RegB? && |item.body.data| <= MAX_METADATA_SIZE)
    && (item.XattrsI? || item.LinkDataI? ==> item.body.RegB? && |item.body.data| <= MAX_XATTR_SIZE)
  }

  lemma BroughtByOne(st: State, item: Item, env: Env)
    requires ImportItem(st, item, env).Ok?
    ensures var next := ImportItem(st, item, env).value;
      && st.repo <= next.repo && Brought(next.repo, item, env) && SizeRead(item)
      && forall o | o in next.repo && o !in st.repo :: NamedBy(o, item, env)
  {
    var next := ImportItem(st, item, env).value;
    if item.FileI? {
      if !HasFile(st.repo, item.sum, env) {
        var f := ObjectOf(item.entry, st.xattrs[st.next.value.1]).value;
        assert FileO(f) in next.repo;
      }
    } else if item.MetaI? {
      if item.kind == DirTreeK {
        assert NamedBy(TreeO(env.decTree(item.body.data)), item, env);
      } else {
        assert NamedBy(MetaO(env.decMeta(item.body.data)), item, env);
      }
    }
  }

  lemma StillBrought(repo: set<Object>, more: set<Object>, items: seq<Item>, env: Env)
    requires repo <= more && forall i | i in items :: Brought(repo, i, env)
    ensures forall i | i in items :: Brought(more, i, env)
  {
  }

  /** In any accepted stream every object entry brings an object of its kind with the checksum in its
      name, and every new object is brought by such an entry. */
  lemma {:induction false} EverythingNamed(st: State, items: seq<Item>, env: Env)
    requires ImportAll(st, items, env).Ok?
    ensures var end := ImportAll(st, items, env).value;
      && st.repo <= end.repo && (forall i | i in items :: Brought(end.repo, i, env) && SizeRead(i))
      && forall o | o in end.repo && o !in st.repo :: exists i | i in items :: NamedBy(o, i, env)
  {
    if items != [] {
      var init, last := items[..|items| - 1], items[|items| - 1];
      var mid, end := ImportAll(st, init, env).value, ImportAll(st, items, env).value;
      EverythingNamed(st, init, env);
      BroughtByOne(mid, last, env);
      StillBrought(mid.repo, end.repo, init, env);
      assert items == init + [last] && last in items;
      forall o | o in end.repo && o !in st.repo
        ensures exists i | i in items :: NamedBy(o, i, env)
      {
        if o in mid.repo {
          var i :| i in init && NamedBy(o, i, env);
          assert i in items;
        }
      }
    }
  }
}
