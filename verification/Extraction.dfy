/** Extracting a tar stream entry by entry, as a map from paths to what is found there. */
module Extraction {
  import opened Outcomes
  import opened Paths
  import opened Objects
  import opened TarStream
  import opened PathMaps

  datatype Node =
    | FileNode(uid: nat, gid: nat, mode: nat, data: Bytes)
    | SymlinkNode(uid: nat, gid: nat, target: string)
    | Directory(uid: nat, gid: nat, mode: nat)

  type FileSystem = map<Path, Node>

  /** What an entry makes by itself; a hard link needs its target. */
  function NodeOf(e: Entry): Option<Node> {
    match e.body
    case RegB(data) => Some(FileNode(e.uid, e.gid, e.mode, data))
    case SymB(target) => Some(SymlinkNode(e.uid, e.gid, target))
    case DirB => Some(Directory(e.uid, e.gid, e.mode))
    case LinkB(_) => None
    case OtherB => None
  }

  /** Later entries replace earlier ones, paths are relative to the root whatever their lead, and a
      link to nothing makes nothing. */
  function Apply(fs: FileSystem, e: Entry): FileSystem {
    if NodeOf(e).Some? then fs[Inner(e.path) := NodeOf(e).value]
    else if e.body.LinkB? && Inner(e.body.to) in fs then fs[Inner(e.path) := fs[Inner(e.body.to)]]
    else fs
  }

  function Extract(out: seq<Entry>): FileSystem {
    if out == [] then map[] else Apply(Extract(out[..|out| - 1]), out[|out| - 1])
  }

  lemma ExtractSnoc(out: seq<Entry>, e: Entry)
    ensures Extract(out + [e]) == Apply(Extract(out), e)
  {
    assert (out + [e])[..|out|] == out;
  }

  ghost predicate DistinctPaths(out: seq<Entry>) {
    forall i, j | 0 <= i < j < |out| :: Inner(out[i].path) != Inner(out[j].path)
  }

  lemma {:induction false} ExtractedPaths(out: seq<Entry>, p: Path)
    requires p in Extract(out)
    ensures exists i :: 0 <= i < |out| && Inner(out[i].path) == p
  {
    var init := out[..|out| - 1];
    if p in Extract(init) {
      ExtractedPaths(init, p);
      var i :| 0 <= i < |init| && Inner(init[i].path) == p;
      assert Inner(out[i].path) == p;
    } else {
      assert Inner(out[|out| - 1].path) == p;
    }
  }

  /** A further entry at a path of its own changes nothing that is there. */
  lemma ExtractOneMore(out: seq<Entry>, e: Entry)
    requires DistinctPaths(out + [e])
    ensures DistinctPaths(out) && Inner(e.path) !in Extract(out)
    ensures Extract(out + [e]) == Apply(Extract(out), e)
    ensures forall p | p in Extract(out) :: p in Extract(out + [e]) && Extract(out + [e])[p] == Extract(out)[p]
  {
    var all := out + [e];
    ExtractSnoc(out, e);
    assert forall i | 0 <= i < |out| :: all[i] == out[i];
    forall p | p in Extract(out)
      ensures p != Inner(e.path)
    {
      ExtractedPaths(out, p);
      var i :| 0 <= i < |out| && Inner(out[i].path) == p;
      assert Inner(all[i].path) != Inner(all[|out|].path);
    }
  }

  /** What is found at a path, if anything. */
  function At(fs: FileSystem, p: Path): Option<Node> {
    if p in fs then Some(fs[p]) else None
  }

  /** What is at an entry's path is settled when the entry is extracted. */
  lemma {:induction false} ExtractedThen(out: seq<Entry>, k: nat)
    requires DistinctPaths(out) && k < |out|
    ensures At(Extract(out), Inner(out[k].path)) == At(Extract(out[..k + 1]), Inner(out[k].path))
  {
    var m := |out| - 1;
    if k < m {
      ExtractOneMore(out[..m], out[m]);
      assert out == out[..m] + [out[m]] && out[..m][..k + 1] == out[..k + 1];
      assert Inner(out[k].path) != Inner(out[m].path);
      ExtractedThen(out[..m], k);
    } else {
      assert out[..k + 1] == out;
    }
  }

  /** What is there once stays. */
  lemma {:induction false} ExtractedStays(out: seq<Entry>, k: nat, p: Path)
    requires DistinctPaths(out) && k <= |out| && p in Extract(out[..k])
    ensures At(Extract(out), p) == At(Extract(out[..k]), p)
  {
    if k < |out| {
      var init, last := out[..|out| - 1], out[|out| - 1];
      assert init[..k] == out[..k];
      assert out == init + [last];
      ExtractOneMore(init, last);
      ExtractedStays(init, k, p);
      assert p in Extract(init) && At(Extract(init + [last]), p) == At(Extract(init), p);
    } else {
      assert out[..k] == out;
    }
  }

  lemma ExtractAt(out: seq<Entry>, k: nat)
    requires k < |out|
    ensures Extract(out[..k + 1]) == Apply(Extract(out[..k]), out[k])
  {
    assert out[..k + 1] == out[..k] + [out[k]];
    ExtractSnoc(out[..k], out[k]);
  }

  lemma EntryExtracted(out: seq<Entry>, k: nat)
    requires DistinctPaths(out) && k < |out| && NodeOf(out[k]).Some?
    ensures At(Extract(out), Inner(out[k].path)) == NodeOf(out[k])
  {
    ExtractedThen(out, k);
    ExtractAt(out, k);
  }

  lemma NotYet(out: seq<Entry>, k: nat)
    requires DistinctPaths(out) && k < |out|
    ensures Inner(out[k].path) !in Extract(out[..k])
  {
    if Inner(out[k].path) in Extract(out[..k]) {
      ExtractedPaths(out[..k], Inner(out[k].path));
      assert false;
    }
  }

  /** At a link entry's path is what was at its target. */
  lemma LinkExtracted(out: seq<Entry>, k: nat)
    requires DistinctPaths(out) && k < |out| && out[k].body.LinkB?
    ensures At(Extract(out), Inner(out[k].path)) == At(Extract(out[..k]), Inner(out[k].body.to))
  {
    ExtractedThen(out, k);
    ExtractAt(out, k);
    NotYet(out, k);
  }
}
