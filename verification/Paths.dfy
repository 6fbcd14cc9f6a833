/** Paths as component sequences, which is how the path library compares, strips and splits them. */
module Paths {
  import opened Outcomes
  import opened Text

  datatype Component = RootDir | CurDir | ParentDir | Normal(name: string)

  type Path = seq<Component>

  // ---- reading and writing path strings ----

  function FromPieces(ps: seq<string>): Path {
    if ps == [] then []
    else
      var rest := FromPieces(ps[1..]);
      if ps[0] == "" || ps[0] == "." then rest
      else [if ps[0] == ".." then ParentDir else Normal(ps[0])] + rest
  }

  /** Empty pieces and inner `.` are dropped; a leading `.` or `/` is a component of its own. */
  function Components(s: string): Path {
    var ps := Split(s, '/');
    if s == "" then []
    else if ps[0] == "" then [RootDir] + FromPieces(ps[1..])
    else if ps[0] == "." then [CurDir] + FromPieces(ps[1..])
    else FromPieces(ps)
  }

  predicate IsName(n: string) {
    n != "" && n != "." && n != ".." && '/' !in n
  }

  /** Relative paths made of plain names. */
  predicate Plain(p: Path) {
    forall c | c in p :: c.Normal? && IsName(c.name)
  }

  function FileName(p: Path): Option<string> {
    if p != [] && p[|p| - 1].Normal? then Some(p[|p| - 1].name) else None
  }

  function Parent(p: Path): Option<Path> {
    if p == [] || p[|p| - 1].RootDir? then None else Some(p[..|p| - 1])
  }

  function Strip(p: Path, prefix: Path): Option<Path> {
    if prefix <= p then Some(p[|prefix|..]) else None
  }

  /** Index of the last dot, or -1. */
  function LastDot(s: string): (i: int)
    ensures -1 <= i < |s|
    ensures i >= 0 ==> s[i] == '.'
    ensures forall k | i < k < |s| :: s[k] != '.'
  {
    if s == "" then -1
    else if s[|s| - 1] == '.' then |s| - 1
    else LastDot(s[..|s| - 1])
  }

  /** A name that only starts with a dot has no extension. */
  function Extension(name: string): Option<string> {
    var i := LastDot(name);
    if i <= 0 then None else Some(name[i + 1..])
  }

  function FileStem(name: string): string {
    var i := LastDot(name);
    if i <= 0 then name else name[..i]
  }

  lemma ExtensionOf(stem: string, ext: string)
    requires stem != "" && '.' !in ext
    ensures Extension(stem + "." + ext) == Some(ext) && FileStem(stem + "." + ext) == stem
  {
    var s := stem + "." + ext;
    assert s[|stem| + 1..] == ext && s[..|stem|] == stem;
    LastDotAt(s, |stem|);
  }

  lemma LastDotAt(s: string, k: nat)
    requires k < |s| && s[k] == '.' && '.' !in s[k + 1..]
    ensures LastDot(s) == k
  {
    var i := LastDot(s);
    assert forall j | k < j < |s| :: s[j] == s[k + 1..][j - k - 1];
  }
}
