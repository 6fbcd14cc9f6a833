/** Path rewriting for derived layers (lib/src/tar/write.rs) against that of the exporter. */
module PathMaps {
  import opened Outcomes
  import opened Text
  import opened Paths
  import E = TarExport

  datatype Config = Config(allowNonUsr: bool, remapFactoryVar: bool)

  datatype Normalized = Filtered(name: string) | Kept(path: Path)

  const EXCLUDED := {"run", "tmp", "proc", "sys", "dev"}

  predicate IsLead(c: Component) { c.CurDir? || c.RootDir? }

  /** A leading `.` or `/` is the only place for those components. */
  predicate WellFormed(p: Path) {
    forall i | 0 < i < |p| :: !IsLead(p[i])
  }

  /** The path without a leading `.` or `/`. */
  function Inner(p: Path): Path {
    if p != [] && IsLead(p[0]) then p[1..] else p
  }

  lemma {:induction false} PiecesWellFormed(ps: seq<string>)
    ensures forall c | c in FromPieces(ps) :: !IsLead(c)
  {
    if ps != [] {
      PiecesWellFormed(ps[1..]);
    }
  }

  lemma ComponentsWellFormed(s: string)
    ensures WellFormed(Components(s))
  {
    var ps := Split(s, '/');
    PiecesWellFormed(ps);
    PiecesWellFormed(ps[1..]);
    assert forall i | 0 < i < |Components(s)| ::
      Components(s)[i] in FromPieces(ps) || Components(s)[i] in FromPieces(ps[1..]);
  }

  // ---- remap_etc_path ----

  function RemapEtc(p: Path): Path {
    var lead := if p != [] && IsLead(p[0]) then p[..1] else [];
    var body := p[|lead|..];
    if body != [] && body[0] == Normal("etc") then lead + [Normal("usr")] + body else p
  }

  lemma RemapEtcIdempotent(p: Path)
    ensures RemapEtc(RemapEtc(p)) == RemapEtc(p)
  {
    if RemapEtc(p) != p && IsLead(p[0]) {
      assert RemapEtc(p)[1..][0] == Normal("usr");
    }
  }

  // ---- normalize_validate_path ----

  /** How a top-level directory is treated. */
  datatype Top = UsrT | EtcT | VarT | ExcludedT | OtherT

  function ClassOf(name: string): Top {
    if name == "usr" then UsrT
    else if name == "etc" then EtcT
    else if name == "var" then VarT
    else if name in EXCLUDED then ExcludedT
    else OtherT
  }

  const USR := Normal("usr")
  const FACTORY: Path := [USR, Normal("share"), Normal("factory")]

  /** Where the first named component goes; `None` to filter it. */
  function TopLevel(name: string, cfg: Config): Option<Path> {
    match ClassOf(name)
    case UsrT => Some([Normal(name)])
    case EtcT => Some([USR, Normal(name)])
    case VarT => Some(if cfg.remapFactoryVar then FACTORY + [Normal(name)] else [Normal(name)])
    case ExcludedT => Some([Normal(name)])
    case OtherT => if cfg.allowNonUsr then Some([Normal(name)]) else None
  }

  /** The components after the first named one. */
  function NormalizeRest(top: Path, excluded: bool, rest: Path): Result<Normalized> {
    if excluded && rest != [] then
      if rest[0].Normal? then Ok(Filtered(rest[0].name)) else Err
    else if ParentDir in rest then Err
    else Ok(Kept([CurDir] + top + rest))
  }

  function Normalize(p: Path, cfg: Config): Result<Normalized> {
    var body := Inner(p);
    if body == [] then Ok(Kept(if p == [] then [] else [CurDir]))
    else if !body[0].Normal? then Err
    else
      match TopLevel(body[0].name, cfg)
      case None => Ok(Filtered(body[0].name))
      case Some(top) => NormalizeRest(top, ClassOf(body[0].name).ExcludedT?, body[1..])
  }

  method NormalizeValidatePath(p: Path, cfg: Config) returns (r: Result<Normalized>)
    requires WellFormed(p)
    ensures r == Normalize(p, cfg)
  {
    var ret: Path := [];
    if p != [] && p[0].Normal? { ret := [CurDir]; }
    var i := 0;
    if p != [] && IsLead(p[0]) {
      ret := [CurDir];
      i := 1;
    }
    if i == |p| { return Ok(Kept(ret)); }
    assert Inner(p) == p[i..] && p[i..][0] == p[i] && p[i..][1..] == p[i + 1..];
    if p[i].ParentDir? { return Err; }
    var top := TopLevel(p[i].name, cfg);
    if top.None? { return Ok(Filtered(p[i].name)); }
    r := NormalizeChildren(ret + top.value, ClassOf(p[i].name).ExcludedT?, p[i + 1..], top.value);
  }

  /** The loop over the components once the first named one was found. */
  method NormalizeChildren(from: Path, excluded: bool, rest: Path, ghost top: Path) returns (r: Result<Normalized>)
    requires from == [CurDir] + top && forall c | c in rest :: !IsLead(c)
    ensures r == NormalizeRest(top, excluded, rest)
  {
    var ret := from;
    for i := 0 to |rest|
      invariant ret == from + rest[..i] && ParentDir !in rest[..i]
      invariant excluded ==> i == 0
    {
      assert rest[i] in rest;
      if rest[i].ParentDir? { return Err; }
      if excluded { return Ok(Filtered(rest[i].name)); }
      assert rest[..i + 1] == rest[..i] + [rest[i]];
      ret := ret + [rest[i]];
    }
    assert rest[..|rest|] == rest;
    return Ok(Kept(ret));
  }

  // ---- properties ----

  /** A kept path has no `..`, and normalising it again changes nothing. */
  lemma NormalizeFixed(p: Path, cfg: Config)
    requires WellFormed(p) && Normalize(p, cfg).Ok? && Normalize(p, cfg).value.Kept?
    ensures var q := Normalize(p, cfg).value.path;
      WellFormed(q) && ParentDir !in q && Normalize(q, cfg) == Ok(Kept(q))
  {
    var body := Inner(p);
    if body != [] {
      var top, rest := TopLevel(body[0].name, cfg).value, body[1..];
      assert forall c | c in rest :: !IsLead(c) by {
        assert forall i | 0 <= i < |rest| :: rest[i] == p[i + |p| - |rest|];
      }
      TopLevelFixed(body[0].name, cfg);
      KeptFixed(top, rest, cfg);
    }
  }

  lemma KeptFixed(top: Path, rest: Path, cfg: Config)
    requires top != [] && (forall c | c in top :: c.Normal?) && (forall c | c in rest :: !IsLead(c))
      && ParentDir !in rest
    requires TopLevel(top[0].name, cfg) == Some(top[..1])
    requires ClassOf(top[0].name).ExcludedT? ==> top[1..] + rest == []
    ensures var q := [CurDir] + top + rest;
      WellFormed(q) && ParentDir !in q && Normalize(q, cfg) == Ok(Kept(q))
  {
    var q := [CurDir] + top + rest;
    assert Inner(q) == top + rest && (top + rest)[1..] == top[1..] + rest;
    assert forall c | c in top :: !IsLead(c) && c != ParentDir;
    assert forall i | 0 < i < |q| :: q[i] in top || q[i] in rest;
    assert ParentDir !in top[1..] + rest;
    assert [CurDir] + top[..1] + (top[1..] + rest) == q;
  }

  /** The first component of a mapped top level is mapped to itself. */
  lemma TopLevelFixed(name: string, cfg: Config)
    requires TopLevel(name, cfg).Some?
    ensures var top := TopLevel(name, cfg).value;
      && top != [] && (forall c | c in top :: c.Normal?)
      && TopLevel(top[0].name, cfg) == Some(top[..1])
      && (ClassOf(top[0].name).ExcludedT? ==> ClassOf(name).ExcludedT? && top[1..] == [])
  {
    assert ClassOf(USR.name) == UsrT;
    var top := TopLevel(name, cfg).value;
    assert forall i | 0 <= i < |top| :: top[i].Normal?;
    assert top[..1] == [top[0]];
    assert top == [Normal(name)] || top[0] == USR;
  }

  /** Below a kept top-level directory that is not excluded. */
  lemma BelowTop(name: string, top: Path, rest: Path, cfg: Config)
    requires ParentDir !in rest && TopLevel(name, cfg) == Some(top) && !ClassOf(name).ExcludedT?
    ensures Normalize([Normal(name)] + rest, cfg) == Ok(Kept([CurDir] + top + rest))
  {
    assert Inner([Normal(name)] + rest) == [Normal(name)] + rest && ([Normal(name)] + rest)[1..] == rest;
  }

  /** Where the paths of a derived layer go, one top-level directory after the other. */
  lemma WherePathsGo(rest: Path, cfg: Config)
    requires ParentDir !in rest
    ensures Normalize([Normal("usr")] + rest, cfg) == Ok(Kept([CurDir, Normal("usr")] + rest))
    ensures Normalize([Normal("etc")] + rest, cfg) == Ok(Kept([CurDir, Normal("usr"), Normal("etc")] + rest))
    ensures Normalize([Normal("var")] + rest, cfg) == Ok(Kept(
      [CurDir] + (if cfg.remapFactoryVar then [Normal("usr"), Normal("share"), Normal("factory")] else [])
      + [Normal("var")] + rest))
  {
    BelowTop("usr", [Normal("usr")], rest, cfg);
    BelowTop("etc", [USR, Normal("etc")], rest, cfg);
    VarGoes(rest, cfg);
    assert [CurDir] + [Normal("usr")] == [CurDir, Normal("usr")];
    assert [CurDir] + [USR, Normal("etc")] == [CurDir, Normal("usr"), Normal("etc")];
  }

  lemma VarGoes(rest: Path, cfg: Config)
    requires ParentDir !in rest
    ensures Normalize([Normal("var")] + rest, cfg) == Ok(Kept(
      [CurDir] + (if cfg.remapFactoryVar then [Normal("usr"), Normal("share"), Normal("factory")] else [])
      + [Normal("var")] + rest))
  {
    var top := TopLevel("var", cfg).value;
    BelowTop("var", top, rest, cfg);
    assert [CurDir] + top == [CurDir]
      + (if cfg.remapFactoryVar then [Normal("usr"), Normal("share"), Normal("factory")] else []) + [Normal("var")];
  }

  lemma WhereOthersGo(name: string, rest: Path, cfg: Config)
    requires ParentDir !in rest && name !in {"usr", "etc", "var", "run", "tmp", "proc", "sys", "dev"}
    ensures Normalize([Normal(name)] + rest, cfg)
      == Ok(if cfg.allowNonUsr then Kept([CurDir, Normal(name)] + rest) else Filtered(name))
  {
    assert ClassOf(name) == OtherT;
    assert Inner([Normal(name)] + rest) == [Normal(name)] + rest;
    if cfg.allowNonUsr {
      BelowTop(name, [Normal(name)], rest, cfg);
      assert [CurDir] + [Normal(name)] == [CurDir, Normal(name)];
    }
  }

  /** What the exporter moved to `etc` comes back to `usr/etc`: every path below `usr` survives. */
  lemma UsrRoundTrip(p: Path, cfg: Config)
    requires Plain(p) && p != [] && p[0] == Normal("usr")
    ensures Normalize(E.MapPathV1(p), cfg) == Ok(Kept([CurDir] + p))
  {
    var q := E.MapPathV1(p);
    assert ParentDir !in p;
    if E.USR_ETC <= p {
      assert p[0] == Normal("usr") && p[1] == Normal("etc") && q == p[1..];
      assert q[0] == Normal("etc") && Inner(q) == q;
      assert [CurDir] + [Normal("usr"), Normal("etc")] + p[2..] == [CurDir] + p;
      assert q[1..] == p[2..] && ParentDir !in p[2..];
    } else {
      assert Inner(p) == p && ParentDir !in p[1..];
      assert [CurDir] + [Normal("usr")] + p[1..] == [CurDir] + p;
    }
  }

  /** What the link target rewriting makes of a top-level name. */
  function RemappedTop(name: string): Path {
    if name == "etc" then [USR, Normal(name)] else [Normal(name)]
  }

  lemma RemapInner(p: Path)
    requires Inner(p) != [] && Inner(p)[0].Normal?
    ensures Inner(RemapEtc(p)) == RemappedTop(Inner(p)[0].name) + Inner(p)[1..]
  {
    var lead, body := Lead(p), Inner(p);
    assert p == lead + body;
    RemapBody(lead, body);
    LeadDropped(lead, RemappedTop(body[0].name) + body[1..]);
  }

  /** The leading `.` or `/`, if there is one. */
  function Lead(p: Path): Path {
    if p != [] && IsLead(p[0]) then p[..1] else []
  }

  lemma RemapBody(lead: Path, body: Path)
    requires body != [] && body[0].Normal? && (lead == [] || (|lead| == 1 && IsLead(lead[0])))
    ensures RemapEtc(lead + body) == lead + (RemappedTop(body[0].name) + body[1..])
  {
    var rest := body[1..];
    assert (lead + body)[|lead|..] == body && (lead + body)[..|lead|] == lead;
    assert body == [body[0]] + rest;
    if body[0].name == "etc" {
      assert lead + [USR] + body == lead + ([USR, body[0]] + rest);
    }
  }

  lemma LeadDropped(lead: Path, body: Path)
    requires body != [] && !IsLead(body[0]) && (lead == [] || (|lead| == 1 && IsLead(lead[0])))
    ensures Inner(lead + body) == body
  {
  }

  lemma KeptInner(p: Path, cfg: Config)
    requires Normalize(p, cfg).Ok? && Normalize(p, cfg).value.Kept? && Inner(p) != []
    ensures Inner(p)[0].Normal? && TopLevel(Inner(p)[0].name, cfg).Some?
    ensures Inner(Normalize(p, cfg).value.path) == TopLevel(Inner(p)[0].name, cfg).value + Inner(p)[1..]
  {
    var top, rest := TopLevel(Inner(p)[0].name, cfg).value, Inner(p)[1..];
    assert ([CurDir] + top + rest)[1..] == top + rest;
  }

  predicate BelowRemappedVar(p: Path, cfg: Config) {
    cfg.remapFactoryVar && Inner(p) != [] && Inner(p)[0] == Normal("var")
  }

  lemma TopFollows(name: string, rest: Path, cfg: Config)
    requires TopLevel(name, cfg).Some?
    ensures (RemappedTop(name) + rest == TopLevel(name, cfg).value + rest) <==> !(cfg.remapFactoryVar && name == "var")
  {
    if ClassOf(name) == VarT {
      assert (RemappedTop(name) + rest)[0] != (FACTORY + [Normal(name)] + rest)[0];
    }
  }

  /** The rewriting of hard link targets follows the rewriting of paths, apart from a leading `./`,
      exactly when the path is not below a remapped `var`: such a link loses its target. */
  lemma LinkTargetFollows(p: Path, cfg: Config)
    requires Normalize(p, cfg).Ok? && Normalize(p, cfg).value.Kept? && Inner(p) != []
    ensures Inner(RemapEtc(p)) == Inner(Normalize(p, cfg).value.path) <==> !BelowRemappedVar(p, cfg)
  {
    KeptInner(p, cfg);
    RemapInner(p);
    TopFollows(Inner(p)[0].name, Inner(p)[1..], cfg);
  }

  /** A filtered path is counted under its top level exactly when that is not an excluded one, or
      the child happens to have the same name. */
  lemma FilteredName(p: Path, cfg: Config, n: string)
    requires Normalize(p, cfg) == Ok(Filtered(n))
    ensures Inner(p) != [] && Inner(p)[0].Normal? && (Inner(p)[0].name in EXCLUDED ==> |Inner(p)| > 1)
    ensures n == Inner(p)[0].name <==> (Inner(p)[0].name !in EXCLUDED || Inner(p)[1] == Inner(p)[0])
  {
    var top := Inner(p)[0].name;
    assert Inner(p)[1..] != [] ==> Inner(p)[1..][0] == Inner(p)[1];
    assert top in EXCLUDED ==> top != "usr" && top != "etc" && top != "var";
  }

  /** So every other child of an excluded top level is counted wrongly, under its own name. */
  lemma ExcludedChildName(top: string, child: string, rest: Path, cfg: Config)
    requires top in {"run", "tmp", "proc", "sys", "dev"}
    ensures Normalize([Normal(top), Normal(child)] + rest, cfg) == Ok(Filtered(child))
  {
    var p := [Normal(top), Normal(child)] + rest;
    assert Inner(p)[1..][0] == Normal(child);
    assert top != "usr" && top != "etc" && top != "var";
  }
}
