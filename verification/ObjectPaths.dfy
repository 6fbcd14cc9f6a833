/** Object file names in the tar stream: printing (lib/src/tar/export.rs) and parsing
    (lib/src/tar/import.rs). */
module ObjectPaths {
  import opened Outcomes
  import opened Text
  import opened Paths
  import opened Objects

  const REPO: Path := [Normal("sysroot"), Normal("ostree"), Normal("repo")]

  /** The kinds of object entries, by file extension. */
  datatype ObjKind = CommitK | CommitMetaK | DirTreeK | DirMetaK | FileK

  function Suffix(k: ObjKind): string {
    match k
    case CommitK => "commit"
    case CommitMetaK => "commitmeta"
    case DirTreeK => "dirtree"
    case DirMetaK => "dirmeta"
    case FileK => "file"
  }

  function KindOf(s: string): Option<ObjKind> {
    if s == "commit" then Some(CommitK)
    else if s == "commitmeta" then Some(CommitMetaK)
    else if s == "dirtree" then Some(DirTreeK)
    else if s == "dirmeta" then Some(DirMetaK)
    else if s == "file" then Some(FileK)
    else None
  }

  const XATTRS := "file-xattrs"
  const XATTRS_LINK := "file-xattrs-link"

  /** Path of an object below the repository. */
  function InRepo(sum: Sum, suffix: string): Path
    requires |sum| >= 2
  {
    [Normal("objects"), Normal(sum[..2]), Normal(sum[2..] + "." + suffix)]
  }

  function ObjectPath(sum: Sum, suffix: string): Path
    requires |sum| >= 2
  {
    REPO + InRepo(sum, suffix)
  }

  // ---- parsing ----

  datatype Parsed = Parsed(parent: string, name: string, ext: string)

  function ParseEntryPath(p: Path): Result<Parsed> {
    match Parent(p)
    case None => Err
    case Some(dir) =>
      match FileName(dir)
      case None => Err
      case Some(parent) =>
        if |parent| != 2 then Err
        else
          match FileName(p)
          case None => Err
          case Some(name) =>
            match Extension(name)
            case None => Err
            case Some(ext) => Ok(Parsed(parent, name, ext))
  }

  /** `trim_end_matches(".file")`: strips the suffix as often as it occurs. */
  function TrimFile(s: string): string {
    if |s| >= 5 && s[|s| - 5..] == ".file" then TrimFile(s[..|s| - 5]) else s
  }

  function ParseChecksum(parent: string, name: string): Result<Sum> {
    var rest := TrimFile(FileStem(name));
    if |rest| == 62 && IsSha256(parent + rest) then Ok(parent + rest) else Err
  }

  /** Checksum and extension of an object path. */
  function ParseObject(p: Path): Result<(Sum, string)> {
    var e :- ParseEntryPath(p);
    var sum :- ParseChecksum(e.parent, e.name);
    Ok((sum, e.ext))
  }

  function ParseMetadataEntry(p: Path): Result<(Sum, ObjKind)> {
    var (sum, ext) :- ParseObject(p);
    match KindOf(ext)
    case None => Err
    case Some(k) => Ok((sum, k))
  }

  // ---- round trip ----

  lemma ShaParts(sum: Sum)
    requires IsSha256(sum)
    ensures '.' !in sum[2..] && sum[..2] + sum[2..] == sum && |sum[2..]| == 62
    ensures TrimFile(sum[2..]) == sum[2..]
  {
    var rest := sum[2..];
    assert forall i | 0 <= i < |rest| :: rest[i] == sum[i + 2] && sum[i + 2] in sum;
    assert rest[|rest| - 5] != '.';
  }

  /** Every object path parses back, also when seen relative to the repository or to `objects/`. */
  lemma ParsePrinted(sum: Sum, suffix: string)
    requires IsSha256(sum) && '.' !in suffix
    ensures ParseObject(ObjectPath(sum, suffix)) == Ok((sum, suffix))
    ensures ParseObject(InRepo(sum, suffix)) == Ok((sum, suffix))
    ensures ParseObject(InRepo(sum, suffix)[1..]) == Ok((sum, suffix))
  {
    ParseTail(ObjectPath(sum, suffix), sum, suffix);
    ParseTail(InRepo(sum, suffix), sum, suffix);
    ParseTail(InRepo(sum, suffix)[1..], sum, suffix);
  }

  lemma ParseTail(p: Path, sum: Sum, suffix: string)
    requires IsSha256(sum) && '.' !in suffix
    requires |p| >= 2 && p[|p| - 2] == Normal(sum[..2]) && p[|p| - 1] == Normal(sum[2..] + "." + suffix)
    ensures ParseObject(p) == Ok((sum, suffix))
  {
    ShaParts(sum);
    ExtensionOf(sum[2..], suffix);
    assert Parent(p) == Some(p[..|p| - 1]) && FileName(p[..|p| - 1]) == Some(sum[..2]);
    assert ParseEntryPath(p) == Ok(Parsed(sum[..2], sum[2..] + "." + suffix, suffix));
  }

  lemma ParsePrintedKind(sum: Sum, k: ObjKind)
    requires IsSha256(sum)
    ensures ParseMetadataEntry(ObjectPath(sum, Suffix(k))) == Ok((sum, k))
    ensures ParseMetadataEntry(InRepo(sum, Suffix(k))) == Ok((sum, k))
  {
    SuffixKind(k);
    ParsePrinted(sum, Suffix(k));
  }

  lemma SuffixKind(k: ObjKind)
    ensures KindOf(Suffix(k)) == Some(k) && '.' !in Suffix(k)
  {
  }

  /** Different objects have different names. */
  lemma NamesDiffer(a: Sum, x: string, b: Sum, y: string)
    requires IsSha256(a) && IsSha256(b) && '.' !in x && '.' !in y && (a != b || x != y)
    ensures ObjectPath(a, x) != ObjectPath(b, y)
  {
    ParsePrinted(a, x);
    ParsePrinted(b, y);
  }
}
