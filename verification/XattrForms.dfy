/** The three ways in which a stream can carry the xattrs of a file, two of which only older or other
    writers use (lib/src/tar/import.rs). */
module XattrForms {
  import opened Outcomes
  import opened Paths
  import opened Objects
  import opened ObjectPaths
  import opened TarStream
  import opened RoundTrip
  import E = TarExport
  import I = TarImport

  /** As it is written here: the xattrs under their checksum, and a link to them for each file. */
  function Linked(sum: Sum, x: Sum, xattrs: Bytes): seq<Entry>
    requires IsSha256(sum) && IsSha256(x)
  {
    [DefaultData(ObjectPath(x, XATTRS), xattrs), DefaultLink(ObjectPath(sum, XATTRS_LINK), ObjectPath(x, XATTRS))]
  }

  /** In place of a link, the xattrs themselves. */
  function Inline(sum: Sum, xattrs: Bytes): seq<Entry>
    requires IsSha256(sum)
  {
    [DefaultData(ObjectPath(sum, XATTRS_LINK), xattrs)]
  }

  function SplitPath(x: Sum): Path {
    REPO + [Normal("xattrs"), Normal(x)]
  }

  /** The old layout: a separate directory of xattrs, and a link next to the file. */
  function Split(sum: Sum, x: Sum, xattrs: Bytes): seq<Entry>
    requires IsSha256(sum)
  {
    [DefaultData(SplitPath(x), xattrs), DefaultLink(ObjectPath(sum, "file.xattrs"), SplitPath(x))]
  }

  // ---- how the old names are read ----

  lemma OldName(sum: Sum)
    requires IsSha256(sum)
    ensures var name := sum[2..] + ".file.xattrs";
      && Paths.Extension(name) == Some("xattrs") && TrimFile(FileStem(name)) == sum[2..] && name[62] == '.'
  {
    var rest := sum[2..];
    ShaParts(sum);
    ExtensionOf(rest + ".file", "xattrs");
    assert rest + ".file" + "." + "xattrs" == rest + ".file.xattrs";
    assert (rest + ".file")[62..] == ".file" && (rest + ".file")[..62] == rest;
  }

  lemma OldObject(sum: Sum, p: Path)
    requires IsSha256(sum) && p == [Normal(sum[..2]), Normal(sum[2..] + ".file.xattrs")]
    ensures ParseObject(p) == Ok((sum, "xattrs"))
  {
    var name := sum[2..] + ".file.xattrs";
    OldName(sum);
    assert Parent(p) == Some(p[..1]) && FileName(p[..1]) == Some(sum[..2]) && FileName(p) == Some(name);
    assert ParseEntryPath(p) == Ok(Parsed(sum[..2], name, "xattrs"));
    assert ParseChecksum(sum[..2], name) == Ok(sum) by {
      assert sum[..2] + sum[2..] == sum;
    }
  }

  lemma OldLinkReads(sum: Sum, x: Sum)
    requires IsSha256(sum) && IsSha256(x)
    ensures I.ReadEntry(DefaultLink(ObjectPath(sum, "file.xattrs"), SplitPath(x))) == I.LinkI(sum, x)
  {
    var e := DefaultLink(ObjectPath(sum, "file.xattrs"), SplitPath(x));
    var p := InRepo(sum, "file.xattrs");
    assert e.path[3..] == p && Strip(e.path, REPO) == Some(p);
    OldName(sum);
    assert sum[2..] + "." + "file.xattrs" == sum[2..] + ".file.xattrs";
    assert FileName(p) == Some(sum[2..] + ".file.xattrs") != Some("config");
    assert p[0] == Normal("objects") != Normal("refs");
    assert I.FilterEntry(e) == Some(p);
    assert p[1..] == [Normal(sum[..2]), Normal(sum[2..] + ".file.xattrs")];
    OldObject(sum, p[1..]);
    OldItem(e, p[1..], sum, x);
  }

  lemma OldItem(e: Entry, p: Path, sum: Sum, x: Sum)
    requires ParseObject(p) == Ok((sum, "xattrs")) && IsSha256(x) && e.body == LinkB(SplitPath(x))
    ensures I.ObjectItem(e, p) == I.LinkI(sum, x)
  {
    assert FileName(SplitPath(x)) == Some(x);
    assert |"xattrs"| == 6 && |"file"| == 4 && |XATTRS| == 11 && |XATTRS_LINK| == 16 && "xattrs"[0] != "commit"[0];
  }

  lemma SplitReads(x: Sum, xattrs: Bytes)
    requires IsSha256(x)
    ensures I.ReadEntry(DefaultData(SplitPath(x), xattrs)) == I.XattrsI(x, RegB(xattrs))
  {
    var e := DefaultData(SplitPath(x), xattrs);
    var p := e.path[3..];
    assert p == [Normal("xattrs"), Normal(x)];
    assert Strip(e.path, REPO) == Some(p) && FileName(p) == Some(x) == FileName(e.path);
    assert |x| == 64 && |"config"| == 6;
    assert p[0] != Normal("refs") && p[0] != Normal("objects") by {
      assert "xattrs"[0] != "objects"[0] && "xattrs"[0] != "refs"[0];
    }
  }

  lemma InlineReads(sum: Sum, xattrs: Bytes)
    requires IsSha256(sum)
    ensures I.ReadEntry(DefaultData(ObjectPath(sum, XATTRS_LINK), xattrs)) == I.LinkDataI(sum, RegB(xattrs))
  {
    ObjectEntry(DefaultData(ObjectPath(sum, XATTRS_LINK), xattrs), sum, XATTRS_LINK);
  }

  // ---- the forms agree ----

  lemma OneItem(st: I.State, a: I.Item, env: Env)
    ensures I.ImportAll(st, [a], env) == I.ImportItem(st, a, env)
  {
    assert [a][..0] == [];
  }

  lemma TwoItems(st: I.State, a: I.Item, b: I.Item, env: Env)
    ensures var r := I.ImportItem(st, a, env);
      I.ImportAll(st, [a, b], env) == if r.Ok? then I.ImportItem(r.value, b, env) else Err
  {
    OneItem(st, a, env);
    assert [a, b][..1] == [a];
  }

  lemma ItemsAgree(st: I.State, sum: Sum, xattrs: Bytes, env: Env)
    ensures var x := env.xattrSum(xattrs);
      I.ImportAll(st, [I.XattrsI(x, RegB(xattrs)), I.LinkI(sum, x)], env)
        == I.ImportAll(st, [I.LinkDataI(sum, RegB(xattrs))], env)
  {
    var x := env.xattrSum(xattrs);
    TwoItems(st, I.XattrsI(x, RegB(xattrs)), I.LinkI(sum, x), env);
    OneItem(st, I.LinkDataI(sum, RegB(xattrs)), env);
  }

  lemma ReadTwo(a: Entry, b: Entry)
    ensures I.ReadAll([a, b]) == [I.ReadEntry(a), I.ReadEntry(b)] && I.ReadAll([a]) == [I.ReadEntry(a)]
  {
  }

  lemma LinkedReads(sum: Sum, x: Sum, xattrs: Bytes)
    requires IsSha256(sum) && IsSha256(x)
    ensures I.ReadAll(Linked(sum, x, xattrs)) == [I.XattrsI(x, RegB(xattrs)), I.LinkI(sum, x)]
  {
    var forms := Linked(sum, x, xattrs);
    ReadTwo(forms[0], forms[1]);
    XattrsEntryReads(x, xattrs);
    LinkEntryReads(sum, x);
  }

  lemma SplitFormReads(sum: Sum, x: Sum, xattrs: Bytes)
    requires IsSha256(sum) && IsSha256(x)
    ensures I.ReadAll(Split(sum, x, xattrs)) == [I.XattrsI(x, RegB(xattrs)), I.LinkI(sum, x)]
  {
    var forms := Split(sum, x, xattrs);
    ReadTwo(forms[0], forms[1]);
    SplitReads(x, xattrs);
    OldLinkReads(sum, x);
  }

  lemma InlineFormReads(sum: Sum, xattrs: Bytes)
    requires IsSha256(sum)
    ensures I.ReadAll(Inline(sum, xattrs)) == [I.LinkDataI(sum, RegB(xattrs))]
  {
    var forms := Inline(sum, xattrs);
    ReadTwo(forms[0], forms[0]);
    InlineReads(sum, xattrs);
  }

  /** Whatever the state and the xattrs, also if they are refused: all three do the same. */
  lemma FormsAgree(st: I.State, sum: Sum, xattrs: Bytes, env: Env)
    requires env.Valid() && IsSha256(sum)
    ensures var x := env.xattrSum(xattrs);
      I.ImportAll(st, I.ReadAll(Linked(sum, x, xattrs)), env)
        == I.ImportAll(st, I.ReadAll(Split(sum, x, xattrs)), env)
        == I.ImportAll(st, I.ReadAll(Inline(sum, xattrs)), env)
  {
    LinkedReads(sum, env.xattrSum(xattrs), xattrs);
    SplitFormReads(sum, env.xattrSum(xattrs), xattrs);
    InlineFormReads(sum, xattrs);
    ItemsAgree(st, sum, xattrs, env);
  }
}
