/** Replacing the detached metadata in an exported stream (lib/src/tar/export.rs). */
module Reinject {
  import opened Outcomes
  import opened Seqs
  import opened Text
  import opened Paths
  import opened Objects
  import opened ObjectPaths
  import opened TarStream
  import opened PathMaps
  import E = TarExport
  import I = TarImport
  import RT = RoundTrip

  /** `copy_entry` without a new path: hard link targets in `/etc` are remapped. */
  function Copy(e: Entry): Entry {
    if e.body.LinkB? then e.(body := LinkB(RemapEtc(e.body.to))) else e
  }

  function CopyAll(es: seq<Entry>): (r: seq<Entry>)
    ensures |r| == |es| && forall i | 0 <= i < |es| :: r[i] == Copy(es[i])
  {
    seq(|es|, i requires 0 <= i < |es| => Copy(es[i]))
  }

  const COMMIT_SUFFIX := ".commit"

  predicate EndsInCommit(name: string) {
    |name| >= 7 && name[|name| - 7..] == COMMIT_SUFFIX
  }

  predicate IsCommitEntry(e: Entry) {
    e.body.RegB? && FileName(e.path).Some? && EndsInCommit(FileName(e.path).value)
  }

  function FindCommit(es: seq<Entry>): (i: nat)
    ensures i <= |es|
  {
    if es == [] || IsCommitEntry(es[0]) then 0 else 1 + FindCommit(es[1..])
  }

  lemma {:induction false} FindCommitAt(es: seq<Entry>, i: nat)
    requires i < |es| && IsCommitEntry(es[i])
    requires forall k | 0 <= k < i :: !IsCommitEntry(es[k])
    ensures FindCommit(es) == i
  {
    if i > 0 {
      FindCommitAt(es[1..], i - 1);
    }
  }

  lemma {:induction false} FindCommitIs(es: seq<Entry>)
    ensures var i := FindCommit(es);
      (forall k | 0 <= k < i :: !IsCommitEntry(es[k])) && (i < |es| ==> IsCommitEntry(es[i]))
  {
    if es != [] && !IsCommitEntry(es[0]) {
      FindCommitIs(es[1..]);
      assert forall k | 0 < k < FindCommit(es) :: es[k] == es[1..][k - 1];
    }
  }

  /** The assertion that the entry found is a commit object holds. */
  lemma CommitEntryKind(e: Entry)
    requires IsCommitEntry(e) && ParseMetadataEntry(e.path).Ok?
    ensures ParseMetadataEntry(e.path).value.1 == CommitK
  {
    var name := FileName(e.path).value;
    var k := |name| - 7;
    assert name[k..] == ".commit" && name[k] == '.' && name[k + 1..] == "commit" by {
      assert name[k + 1..] == name[k..][1..];
    }
    LastDotAt(name, k);
  }

  function Injected(sum: Sum, detached: Option<Bytes>): seq<Entry>
    requires IsSha256(sum)
  {
    if detached.None? then [] else [DefaultData(ObjectPath(sum, Suffix(CommitMetaK)), detached.value)]
  }

  /** The kind of the entry after the commit, if it parses. */
  function NextKind(after: seq<Entry>): Result<ObjKind> {
    if after == [] then Err
    else
      var (_, k) :- ParseMetadataEntry(after[0].path);
      Ok(k)
  }

  lemma ParsedIsSha(p: Path)
    ensures ParseMetadataEntry(p).Ok? ==> IsSha256(ParseMetadataEntry(p).value.0)
  {
  }

  /** The replacement, once the names of the commit and of the entry after it are read. */
  function ReplaceNamed(before: seq<Entry>, commit: Entry, name: Result<(Sum, ObjKind)>, after: seq<Entry>,
                        next: Result<ObjKind>, detached: Option<Bytes>): Result<seq<Entry>>
    requires name.Ok? ==> IsSha256(name.value.0)
    requires next.Ok? ==> after != []
  {
    if name.Err? || next.Err? then Err
    else Ok(CopyAll(before) + [Copy(commit)]
            + (Injected(name.value.0, detached) + CopyAll(if next.value == CommitMetaK then after[1..] else after)))
  }

  function Replace(es: seq<Entry>, detached: Option<Bytes>): Result<seq<Entry>> {
    var i := FindCommit(es);
    if i == |es| then Err
    else
      ParsedIsSha(es[i].path);
      ReplaceNamed(es[..i], es[i], ParseMetadataEntry(es[i].path), es[i + 1..], NextKind(es[i + 1..]), detached)
  }

  /** Copies the entries before the commit object. */
  method CopyUntilCommit(es: seq<Entry>) returns (dest: seq<Entry>, i: nat)
    ensures i == FindCommit(es) && dest == CopyAll(es[..i])
  {
    dest, i := [], 0;
    while i < |es| && !IsCommitEntry(es[i])
      invariant i <= |es| && dest == CopyAll(es[..i])
      invariant forall k | 0 <= k < i :: !IsCommitEntry(es[k])
    {
      dest := dest + [Copy(es[i])];
      i := i + 1;
    }
    FindCommitIs(es);
  }

  method CopyRemaining(es: seq<Entry>, from: nat) returns (dest: seq<Entry>)
    requires from <= |es|
    ensures dest == CopyAll(es[from..])
  {
    dest := [];
    for j := from to |es|
      invariant dest == CopyAll(es[from..j])
    {
      dest := dest + [Copy(es[j])];
    }
    assert es[from..|es|] == es[from..];
  }

  method ReinjectDetachedMetadata(es: seq<Entry>, detached: Option<Bytes>) returns (r: Result<seq<Entry>>)
    ensures r == Replace(es, detached)
  {
    var dest, i := CopyUntilCommit(es);
    if i == |es| { return Err; }
    ParsedIsSha(es[i].path);
    var after := es[i + 1..];
    r := WriteTail(dest, es[..i], es[i], ParseMetadataEntry(es[i].path), after, NextKind(after), detached);
  }

  method WriteTail(copied: seq<Entry>, ghost before: seq<Entry>, commit: Entry, name: Result<(Sum, ObjKind)>,
                   after: seq<Entry>, next: Result<ObjKind>, detached: Option<Bytes>) returns (r: Result<seq<Entry>>)
    requires copied == CopyAll(before)
    requires name.Ok? ==> IsSha256(name.value.0)
    requires next.Ok? ==> after != []
    ensures r == ReplaceNamed(before, commit, name, after, next, detached)
  {
    if name.Err? { return Err; }
    var dest := copied + [Copy(commit)];
    dest := dest + Injected(name.value.0, detached);
    if next.Err? { return Err; }
    var rest := CopyRemaining(after, if next.value == CommitMetaK then 1 else 0);
    assert after[0..] == after;
    assert dest + rest == copied + [Copy(commit)] + (Injected(name.value.0, detached) + rest);
    return Ok(dest + rest);
  }

  // ---- last writer wins ----

  lemma CopyKeeps(e: Entry)
    ensures Copy(Copy(e)) == Copy(e) && Copy(e).path == e.path && IsCommitEntry(Copy(e)) == IsCommitEntry(e)
  {
    if e.body.LinkB? {
      RemapEtcIdempotent(e.body.to);
    }
  }

  lemma CopyAllTwice(es: seq<Entry>)
    ensures CopyAll(CopyAll(es)) == CopyAll(es)
  {
    forall i | 0 <= i < |es|
      ensures CopyAll(CopyAll(es))[i] == CopyAll(es)[i]
    {
      CopyKeeps(es[i]);
    }
  }

  /** A stream cut at its commit entry. */
  datatype Cut = Cut(before: seq<Entry>, commit: Entry, sum: Sum, after: seq<Entry>)

  ghost predicate Cuts(es: seq<Entry>, c: Cut) {
    && es == c.before + [c.commit] + c.after
    && (forall e | e in c.before :: !IsCommitEntry(e)) && IsCommitEntry(c.commit)
    && IsSha256(c.sum) && ParseMetadataEntry(c.commit.path) == Ok((c.sum, CommitK))
  }

  function Dropped(after: seq<Entry>): seq<Entry> {
    if NextKind(after) == Ok(CommitMetaK) then after[1..] else after
  }

  function Tail(sum: Sum, after: seq<Entry>, detached: Option<Bytes>): seq<Entry>
    requires IsSha256(sum)
  {
    Injected(sum, detached) + CopyAll(Dropped(after))
  }

  function CutResult(c: Cut, detached: Option<Bytes>): Result<seq<Entry>>
    requires IsSha256(c.sum)
  {
    if NextKind(c.after).Err? then Err
    else Ok(CopyAll(c.before) + [Copy(c.commit)] + Tail(c.sum, c.after, detached))
  }

  /** The cut of a stream after a replacement. */
  function Rewritten(c: Cut, detached: Option<Bytes>): Cut
    requires IsSha256(c.sum)
  {
    Cut(CopyAll(c.before), Copy(c.commit), c.sum, Tail(c.sum, c.after, detached))
  }

  lemma ReplaceCut(es: seq<Entry>, c: Cut, detached: Option<Bytes>)
    requires Cuts(es, c)
    ensures Replace(es, detached) == CutResult(c, detached)
  {
    var i := |c.before|;
    assert es[i] == c.commit && es[..i] == c.before && es[i + 1..] == c.after;
    FindCommitOfCut(es, c);
  }

  lemma FindCommitOfCut(es: seq<Entry>, c: Cut)
    requires Cuts(es, c)
    ensures FindCommit(es) == |c.before|
  {
    var i := |c.before|;
    assert forall k | 0 <= k < i :: es[k] == c.before[k] && es[k] in c.before;
    FindCommitAt(es, i);
  }

  /** When a second replacement forgets the first: something was injected, or no metadata was
      dropped, or what follows the dropped metadata is the name of another kind of object. */
  predicate Replaceable(c: Cut, first: Option<Bytes>) {
    || first.Some?
    || NextKind(c.after) != Ok(CommitMetaK)
    || (NextKind(c.after[1..]).Ok? && NextKind(c.after[1..]) != Ok(CommitMetaK))
  }

  lemma ReplacedCut(c: Cut, first: Option<Bytes>)
    requires Cuts(c.before + [c.commit] + c.after, c)
    ensures var d := Rewritten(c, first);
      Cuts(d.before + [d.commit] + d.after, d)
  {
    CopyKeeps(c.commit);
    forall e | e in CopyAll(c.before)
      ensures !IsCommitEntry(e)
    {
      var i :| 0 <= i < |c.before| && CopyAll(c.before)[i] == e;
      CopyKeeps(c.before[i]);
      assert c.before[i] in c.before;
    }
  }

  lemma NextKindOfCopy(after: seq<Entry>)
    ensures NextKind(CopyAll(after)) == NextKind(after)
    ensures Dropped(CopyAll(after)) == CopyAll(Dropped(after))
  {
    if after != [] {
      CopyKeeps(after[0]);
      assert CopyAll(after)[1..] == CopyAll(after[1..]);
    }
  }

  lemma NextKindOfInjected(sum: Sum, data: Bytes, after: seq<Entry>)
    requires IsSha256(sum)
    ensures var t := Injected(sum, Some(data)) + after;
      NextKind(t) == Ok(CommitMetaK) && Dropped(t) == after
  {
    ParsePrintedKind(sum, CommitMetaK);
  }

  /** Applying a second replacement to what the first one wrote. */
  lemma LastWriterWins(es: seq<Entry>, c: Cut, first: Option<Bytes>, second: Option<Bytes>)
    requires Cuts(es, c) && Replace(es, first).Ok?
    ensures Replace(Replace(es, first).value, second) == Replace(es, second) <==> Replaceable(c, first)
  {
    var d := Rewritten(c, first);
    assert Replace(es, first) == Ok(d.before + [d.commit] + d.after) && NextKind(c.after).Ok?
      by { ReplaceCut(es, c, first); }
    assert Replace(es, second) == CutResult(c, second) by { ReplaceCut(es, c, second); }
    assert Replace(d.before + [d.commit] + d.after, second) == CutResult(d, second) by {
      ReplacedCut(c, first);
      ReplaceCut(d.before + [d.commit] + d.after, d, second);
    }
    CutResultsAgree(c, first, second);
  }

  lemma CutResultsAgree(c: Cut, first: Option<Bytes>, second: Option<Bytes>)
    requires IsSha256(c.sum) && NextKind(c.after).Ok?
    ensures CutResult(Rewritten(c, first), second) == CutResult(c, second) <==> Replaceable(c, first)
  {
    var d := Rewritten(c, first);
    CopyAllTwice(c.before);
    CopyKeeps(c.commit);
    TailsAgree(c, first, second);
    var lead := CopyAll(c.before) + [Copy(c.commit)];
    SamePrefix(lead, Tail(c.sum, d.after, second), Tail(c.sum, c.after, second));
  }

  lemma TailsAgree(c: Cut, first: Option<Bytes>, second: Option<Bytes>)
    requires IsSha256(c.sum) && NextKind(c.after).Ok?
    ensures var after := Rewritten(c, first).after;
      (NextKind(after).Ok? && Tail(c.sum, after, second) == Tail(c.sum, c.after, second)) <==> Replaceable(c, first)
  {
    var rest := CopyAll(Dropped(c.after));
    CopyAllTwice(Dropped(c.after));
    if first.Some? {
      NextKindOfInjected(c.sum, first.value, rest);
    } else {
      var left := Dropped(c.after);
      assert Rewritten(c, first).after == rest;
      NextKindOfCopy(left);
      SecondDrop(c);
      CopyAllTwice(Dropped(left));
      SamePrefix(Injected(c.sum, second), CopyAll(Dropped(left)), rest);
    }
  }

  /** After dropping metadata, a second replacement drops nothing exactly when the next entry is
      of another kind. */
  lemma SecondDrop(c: Cut)
    requires IsSha256(c.sum) && NextKind(c.after).Ok?
    ensures var left := Dropped(c.after);
      (NextKind(left).Ok? && CopyAll(Dropped(left)) == CopyAll(left)) <==> Replaceable(c, None)
  {
    var left := Dropped(c.after);
    if NextKind(left) == Ok(CommitMetaK) {
      assert |CopyAll(Dropped(left))| != |CopyAll(left)|;
    }
  }

  // ---- on exported streams ----

  /** Entries that copying leaves alone. */
  predicate Fixed(es: seq<Entry>) {
    forall e | e in es :: Copy(e) == e
  }

  lemma ObjectPathFixed(sum: Sum, suffix: string)
    requires |sum| >= 2
    ensures RemapEtc(ObjectPath(sum, suffix)) == ObjectPath(sum, suffix)
  {
    assert ObjectPath(sum, suffix)[0] == Normal("sysroot");
  }

  lemma ContentFixed(w: E.State, f: FileObj, env: Env)
    requires env.Valid() && Fixed(w.out)
    ensures Fixed(E.AppendContent(w, f, env).out)
  {
    ObjectPathFixed(env.xattrSum(f.xattrs), XATTRS);
  }

  lemma {:induction false} HardlinksFixed(w: E.State, f: FileObj, paths: seq<Path>, env: Env)
    requires env.Valid() && Fixed(w.out)
    ensures Fixed(E.AppendHardlinks(w, f, paths, env).out)
  {
    if paths != [] {
      HardlinksFixed(w, f, paths[..|paths| - 1], env);
      ObjectPathFixed(env.fileSum(f), Suffix(FileK));
    }
  }

  lemma {:induction false} ChunkFixed(w: E.State, items: seq<E.ChunkItem>, env: Env)
    requires env.Valid() && Fixed(w.out)
    ensures Fixed(E.WriteChunk(w, items, env).out)
  {
    if items != [] {
      var init, last := items[..|items| - 1], items[|items| - 1];
      ChunkFixed(w, init, env);
      ContentFixed(E.WriteChunk(w, init, env), last.obj, env);
      HardlinksFixed(E.AppendContent(E.WriteChunk(w, init, env), last.obj, env), last.obj, last.paths, env);
    }
  }

  lemma {:induction false} DirtreeFixed(w: E.State, path: Path, t: Tree, isRoot: bool, env: Env)
    requires env.Valid() && Fixed(w.out)
    ensures Fixed(E.AppendDirtree(w, path, t, isRoot, env).out)
    decreases t, 1
  {
    var w1 := E.AppendTreeObj(w, env.Flat(t), env);
    DirsFixed(if path == [Normal("var"), Normal("tmp")] then w1.(varTmp := true) else w1, path, t.dirs, isRoot, env);
  }

  lemma {:induction false} DirsFixed(w: E.State, path: Path, ds: seq<Dir>, isRoot: bool, env: Env)
    requires env.Valid() && Fixed(w.out)
    ensures Fixed(E.AppendDirs(w, path, ds, isRoot, env).out)
    decreases ds, 0
  {
    if ds != [] {
      var d := ds[0];
      var w1 := E.AppendMetaObj(w, d.meta, env);
      var w2 := w1;
      if !(isRoot && d.name == "sysroot") {
        var sub := E.MapPath(path + [Normal(d.name)]);
        DirtreeFixed(E.AppendDirEntry(w1, sub, d.meta), sub, d.tree, false, env);
        w2 := E.AppendDirtree(E.AppendDirEntry(w1, sub, d.meta), sub, d.tree, false, env);
      }
      DirsFixed(w2, path, ds[1..], isRoot, env);
    }
  }

  lemma TailFixed(c: Commit, remainder: seq<E.ChunkItem>, env: Env)
    requires env.Valid()
    ensures Fixed(E.FinalTail(c, remainder, env))
  {
    var w := E.START.(initDirs := true, metas := {env.metaSum(c.meta)});
    DirtreeFixed(w, [CurDir], c.root, true, env);
    ChunkFixed(E.AppendStandardVar(E.AppendDirtree(w, [CurDir], c.root, true, env)), remainder, env);
  }

  lemma CopyAllFixed(es: seq<Entry>)
    requires Fixed(es)
    ensures CopyAll(es) == es
  {
    assert forall i | 0 <= i < |es| :: es[i] in es;
  }

  lemma PreambleEntries(c: Commit)
    ensures var pre := [E.RootDirEntry(c)] + E.RepoStructure();
      Fixed(pre) && forall e | e in pre :: !IsCommitEntry(e)
  {
    E.StructureEntries();
    var config := E.ConfigEntry();
    assert FileName(config.path) == Some("config") && |"config"| < 7;
    assert !IsCommitEntry(config) && Copy(config) == config;
  }

  lemma CommitEntryFound(c: Commit, env: Env)
    requires env.Valid()
    ensures var e := E.CommitEntry(c, env);
      IsCommitEntry(e) && ParseMetadataEntry(e.path) == Ok((env.commitSum(env.FlatCommit(c)), CommitK))
  {
    var sum := env.commitSum(env.FlatCommit(c));
    ParsePrintedKind(sum, CommitK);
    CommitNameEnds(sum);
    assert FileName(E.CommitEntry(c, env).path) == Some(sum[2..] + "." + Suffix(CommitK));
  }

  lemma CommitNameEnds(sum: Sum)
    requires |sum| >= 2
    ensures EndsInCommit(sum[2..] + "." + Suffix(CommitK))
  {
    var name := sum[2..] + "." + Suffix(CommitK);
    assert name[|name| - 7..] == "." + "commit";
  }

  function EncodedDetached(d: Option<Detached>, env: Env): Option<Bytes> {
    if d.None? then None else Some(env.encDetached(d.value))
  }

  /** The cut of an exported final layer. */
  function ExportCut(c: Commit, remainder: seq<E.ChunkItem>, env: Env): Cut
    requires env.Valid()
  {
    Cut([E.RootDirEntry(c)] + E.RepoStructure(), E.CommitEntry(c, env), env.commitSum(env.FlatCommit(c)),
        E.DetachedEntries(c, env) + ([E.RootMetaEntry(c, env)] + E.FinalTail(c, remainder, env)))
  }

  lemma ExportCuts(c: Commit, remainder: seq<E.ChunkItem>, env: Env)
    requires env.Valid()
    ensures Cuts(E.ExportFinal(c, remainder, env), ExportCut(c, remainder, env))
  {
    PreambleEntries(c);
    CommitEntryFound(c, env);
    E.FinalLayout(c, remainder, env);
  }

  lemma ExportNext(c: Commit, remainder: seq<E.ChunkItem>, env: Env)
    requires env.Valid()
    ensures var cut := ExportCut(c, remainder, env);
      && NextKind(cut.after) == Ok(if c.detached.Some? then CommitMetaK else DirMetaK)
      && Dropped(cut.after) == [E.RootMetaEntry(c, env)] + E.FinalTail(c, remainder, env)
  {
    ParsePrintedKind(env.commitSum(env.FlatCommit(c)), CommitMetaK);
    ParsePrintedKind(env.metaSum(c.meta), DirMetaK);
    var cut, rest := ExportCut(c, remainder, env), [E.RootMetaEntry(c, env)] + E.FinalTail(c, remainder, env);
    if c.detached.Some? {
      assert cut.after[0] == E.DetachedEntry(cut.sum, c.detached.value, env) && cut.after[1..] == rest;
    } else {
      assert cut.after == rest && cut.after[0] == E.RootMetaEntry(c, env);
    }
  }

  /** Replacing the detached metadata of an exported commit gives what exporting the commit with
      that metadata gives; so the last replacement wins, and an import differs only in it. */
  lemma ReplaceIsExport(c: Commit, remainder: seq<E.ChunkItem>, d: Option<Detached>, env: Env)
    requires env.Valid()
    ensures Replace(E.ExportFinal(c, remainder, env), EncodedDetached(d, env))
         == Ok(E.ExportFinal(c.(detached := d), remainder, env))
  {
    var cut, c' := ExportCut(c, remainder, env), c.(detached := d);
    ExportCuts(c, remainder, env);
    ReplaceCut(E.ExportFinal(c, remainder, env), cut, EncodedDetached(d, env));
    ExportNext(c, remainder, env);
    var rest := [E.RootMetaEntry(c, env)] + E.FinalTail(c, remainder, env);
    TailFixed(c, remainder, env);
    PreambleEntries(c);
    CopyAllFixed(cut.before);
    CopyAllFixed(rest);
    assert Copy(cut.commit) == cut.commit;
    assert Injected(cut.sum, EncodedDetached(d, env)) == E.DetachedEntries(c', env);
    assert E.FinalTail(c', remainder, env) == E.FinalTail(c, remainder, env);
    E.FinalLayout(c', remainder, env);
  }

  /** Importing a stream with replaced metadata equals importing the original stream, except for
      the commit's detached metadata. */
  lemma ReplacedImport(c: Commit, remainder: seq<E.ChunkItem>, d: Option<Detached>, replaced: seq<Entry>,
                       repo: set<Object>, detached: map<Sum, Detached>, env: Env)
    requires RT.Universe(repo + RT.FinalObjects(c, remainder, env), env) && RT.ClearItems(remainder)
    requires RT.CommitFits(c, env) && RT.CommitFits(c.(detached := d), env)
    requires Replace(E.ExportFinal(c, remainder, env), EncodedDetached(d, env)) == Ok(replaced)
    ensures var before := I.ImportCommit(RT.NewCommit(repo, detached), E.ExportFinal(c, remainder, env), None, env);
      var after := I.ImportCommit(RT.NewCommit(repo, detached), replaced, None, env);
      && before.Ok? && after.Ok?
      && after.value.repo == before.value.repo && after.value.mode == before.value.mode
      && after.value.detached == RT.AddDetached(detached, c.(detached := d), env)
  {
    var u, c' := repo + RT.FinalObjects(c, remainder, env), c.(detached := d);
    ReplaceIsExport(c, remainder, d, env);
    assert RT.FinalObjects(c', remainder, env) == RT.FinalObjects(c, remainder, env);
    RT.FinalLayer(c, remainder, repo, detached, u, env);
    RT.FinalLayer(c', remainder, repo, detached, u, env);
  }
}
