/** Filtering of derived layers, with hard links into the object store turned into real files
    (lib/src/tar/write.rs, `filter_tar`). */
module TarFilter {
  import opened Outcomes
  import opened Paths
  import opened Objects
  import opened ObjectPaths
  import opened TarStream
  import opened PathMaps
  import opened Extraction
  import opened Reinject

  /** The stream written, the number of filtered paths by name, and the two lookaside maps. */
  datatype State = State(out: seq<Entry>, filtered: multiset<string>,
                         changed: map<Path, Entry>, targets: map<Path, Path>)

  const START := State([], multiset{}, map[], map[])

  function Relative(p: Path): Path {
    if [RootDir] <= p then p[1..] else p
  }

  /** `p.strip_prefix(prefix).unwrap_or(other)`. */
  function StripOr(p: Path, prefix: Path, other: Path): Path {
    if prefix <= p then p[|prefix|..] else other
  }

  predicate IsModified(e: Entry) { e.mtime > 0 }

  /** A changed file in the object store, kept back for later links. */
  predicate IsObject(e: Entry) {
    REPO <= Relative(e.path) && IsModified(e) && e.body.RegB?
  }

  /** A changed hard link from outside into the object store, by a relative target. */
  predicate IsSysLink(e: Entry) {
    !(REPO <= Relative(e.path)) && IsModified(e) && e.body.LinkB? && REPO <= e.body.to
  }

  function CopyTo(e: Entry, path: Path): Entry { Copy(e).(path := path) }

  function Ordinary(st: State, e: Entry, cfg: Config): Result<State> {
    match Normalize(Relative(e.path), cfg)
    case Err => Err
    case Ok(Filtered(name)) => Ok(st.(filtered := st.filtered + multiset{name}))
    case Ok(Kept(path)) => Ok(st.(out := st.out + [CopyTo(e, path)]))
  }

  function Step(st: State, e: Entry, cfg: Config): Result<State> {
    var path := Relative(e.path);
    if IsObject(e) then Ok(st.(changed := st.changed[path := e]))
    else if IsSysLink(e) then
      var to := e.body.to;
      if to in st.changed then
        Ok(st.(out := st.out + [st.changed[to].(path := path)],
               changed := st.changed - {to}, targets := st.targets[to := path]))
      else if to in st.targets then Ok(st.(out := st.out + [e.(path := path, body := LinkB(st.targets[to]))]))
      else Ok(st)
    else Ordinary(st, e, cfg)
  }

  function FilterAll(es: seq<Entry>, cfg: Config): Result<State> {
    if es == [] then Ok(START)
    else
      var st :- FilterAll(es[..|es| - 1], cfg);
      Step(st, es[|es| - 1], cfg)
  }

  lemma {:induction false} FilterPrefix(es: seq<Entry>, i: nat, cfg: Config)
    requires i <= |es|
    ensures FilterAll(es, cfg).Ok? ==> FilterAll(es[..i], cfg).Ok?
  {
    if i < |es| {
      FilterPrefix(es[..|es| - 1], i, cfg);
      assert es[..|es| - 1][..i] == es[..i];
    } else {
      assert es[..i] == es;
    }
  }

  lemma RelativeWellFormed(p: Path)
    requires WellFormed(p)
    ensures WellFormed(Relative(p)) && !([RootDir] <= Relative(p))
  {
    if [RootDir] <= p {
      var q := p[1..];
      assert forall i | 0 <= i < |q| :: q[i] == p[i + 1] && !IsLead(q[i]);
      assert q == [] || q[0] != RootDir;
    }
  }

  /** One turn of the loop.  The absolute form of a link target is not recognised: what is stripped
      of its slash is the path, which is relative already. */
  method ProcessEntry(st: State, e: Entry, cfg: Config) returns (r: Result<State>)
    requires WellFormed(e.path)
    ensures r == Step(st, e, cfg)
  {
    var path := Relative(e.path);
    RelativeWellFormed(e.path);
    if REPO <= path {
      if IsModified(e) && e.body.RegB? {
        return Ok(st.(changed := st.changed[path := e]));
      }
    } else if e.body.LinkB? && IsModified(e) {
      var to := StripOr(path, [RootDir], e.body.to);
      if REPO <= to {
        if to in st.changed {
          return Ok(st.(out := st.out + [st.changed[to].(path := path)],
                        changed := st.changed - {to}, targets := st.targets[to := path]));
        } else if to in st.targets {
          return Ok(st.(out := st.out + [e.(path := path, body := LinkB(st.targets[to]))]));
        }
        return Ok(st);
      }
    }
    var normalized := NormalizeValidatePath(path, cfg);
    match normalized {
      case Err =>
        return Err;
      case Ok(Filtered(name)) =>
        return Ok(st.(filtered := st.filtered + multiset{name}));
      case Ok(Kept(q)) =>
        return Ok(st.(out := st.out + [CopyTo(e, q)]));
    }
  }

  method FilterTar(es: seq<Entry>, cfg: Config) returns (r: Result<(seq<Entry>, multiset<string>)>)
    requires forall e | e in es :: WellFormed(e.path)
    ensures r.Ok? <==> FilterAll(es, cfg).Ok?
    ensures r.Ok? ==> r.value == (FilterAll(es, cfg).value.out, FilterAll(es, cfg).value.filtered)
  {
    var st := START;
    for i := 0 to |es|
      invariant FilterAll(es[..i], cfg) == Ok(st)
    {
      assert es[..i + 1][..i] == es[..i] && es[i] in es;
      var next := ProcessEntry(st, es[i], cfg);
      if next.Err? {
        FilterPrefix(es, i + 1, cfg);
        return Err;
      }
      st := next.value;
    }
    assert es[..|es|] == es;
    return Ok((st.out, st.filtered));
  }

  // ---- the lookaside maps, by the history of the stream ----

  /** The content of the latest changed object at `t`. */
  function LastData(es: seq<Entry>, t: Path): Option<Bytes> {
    if es == [] then None
    else
      var e := es[|es| - 1];
      if IsObject(e) && Relative(e.path) == t then Some(e.body.data) else LastData(es[..|es| - 1], t)
  }

  predicate LinksTo(e: Entry, t: Path) { IsSysLink(e) && e.body.to == t }

  /** The path of the first link to `t` since that object. */
  function Canonical(es: seq<Entry>, t: Path): Option<Path> {
    if es == [] then None
    else
      var init, e := es[..|es| - 1], es[|es| - 1];
      if IsObject(e) && Relative(e.path) == t then None
      else if Canonical(init, t).Some? then Canonical(init, t)
      else if LinksTo(e, t) && LastData(init, t).Some? then Some(Relative(e.path))
      else None
  }

  ghost predicate MapsTell(st: State, es: seq<Entry>) {
    forall t ::
      && (t in st.changed <==> LastData(es, t).Some? && Canonical(es, t).None?)
      && (t in st.changed ==> st.changed[t] == Header(es, t) && st.changed[t].body == RegB(LastData(es, t).value))
      && (Canonical(es, t).Some? ==>
        LastData(es, t).Some? && t in st.targets && st.targets[t] == Canonical(es, t).value)
      && (t in st.targets ==> LastData(es, t).Some?)
  }

  lemma MapsStep(st: State, init: seq<Entry>, e: Entry, cfg: Config)
    requires MapsTell(st, init) && Step(st, e, cfg).Ok?
    ensures MapsTell(Step(st, e, cfg).value, init + [e])
  {
    var es, st' := init + [e], Step(st, e, cfg).value;
    assert es[..|es| - 1] == init && es[|es| - 1] == e;
    forall t
      ensures
        && (t in st'.changed <==> LastData(es, t).Some? && Canonical(es, t).None?)
        && (t in st'.changed ==> st'.changed[t] == Header(es, t) && st'.changed[t].body == RegB(LastData(es, t).value))
        && (Canonical(es, t).Some? ==>
          LastData(es, t).Some? && t in st'.targets && st'.targets[t] == Canonical(es, t).value)
        && (t in st'.targets ==> LastData(es, t).Some?)
    {
      HistoryStep(init, e, t);
      assert t in st.changed <==> LastData(init, t).Some? && Canonical(init, t).None?;
    }
  }

  /** How the history functions change with one more entry. */
  lemma HistoryStep(init: seq<Entry>, e: Entry, t: Path)
    ensures var es := init + [e];
      && LastData(es, t) == (if IsObject(e) && Relative(e.path) == t then Some(e.body.data) else LastData(init, t))
      && Header(es, t) == (if IsObject(e) && Relative(e.path) == t then e else Header(init, t))
      && Canonical(es, t) ==
           if IsObject(e) && Relative(e.path) == t then None
           else if Canonical(init, t).Some? then Canonical(init, t)
           else if LinksTo(e, t) && LastData(init, t).Some? then Some(Relative(e.path))
           else None
  {
    var es := init + [e];
    assert es[..|es| - 1] == init;
  }

  lemma {:induction false} MapsRefineHistory(es: seq<Entry>, cfg: Config)
    requires FilterAll(es, cfg).Ok?
    ensures MapsTell(FilterAll(es, cfg).value, es)
  {
    if es != [] {
      var init, e := es[..|es| - 1], es[|es| - 1];
      MapsRefineHistory(init, cfg);
      MapsStep(FilterAll(init, cfg).value, init, e, cfg);
      assert es == init + [e];
    }
  }

  /** The entry written for a link into the object store, given the stream before it. */
  function Rewriting(init: seq<Entry>, e: Entry): seq<Entry>
    requires IsSysLink(e)
  {
    var path := Relative(e.path);
    match (LastData(init, e.body.to), Canonical(init, e.body.to))
    case (None, _) => []
    case (Some(data), None) => [Header(init, e.body.to).(path := path, body := RegB(data))]
    case (Some(_), Some(first)) => [e.(path := path, body := LinkB(first))]
  }

  /** The latest changed object at `t`; only its owner and mode matter here. */
  function Header(es: seq<Entry>, t: Path): Entry {
    if es == [] then DefaultData(t, [])
    else if IsObject(es[|es| - 1]) && Relative(es[|es| - 1].path) == t then es[|es| - 1]
    else Header(es[..|es| - 1], t)
  }

  /** What a link into the object store becomes: the first one after a changed object carries the
      object's bytes, further ones link to that first path, and one without an object is dropped. */
  lemma LinkRewritten(init: seq<Entry>, e: Entry, cfg: Config)
    requires IsSysLink(e) && FilterAll(init, cfg).Ok?
    ensures FilterAll(init + [e], cfg).Ok?
    ensures FilterAll(init + [e], cfg).value.out == FilterAll(init, cfg).value.out + Rewriting(init, e)
    ensures LastData(init, e.body.to).Some? ==> |Rewriting(init, e)| == 1
  {
    MapsRefineHistory(init, cfg);
    assert (init + [e])[..|init|] == init;
  }

  /** No link is redirected into the object store. */
  lemma {:induction false} CanonicalOutside(es: seq<Entry>, t: Path)
    ensures Canonical(es, t).Some? ==> !(REPO <= Canonical(es, t).value)
  {
    if es != [] {
      CanonicalOutside(es[..|es| - 1], t);
    }
  }

  // ---- extraction of what is written ----

  lemma StepAppends(st: State, e: Entry, cfg: Config)
    requires Step(st, e, cfg).Ok?
    ensures var out := Step(st, e, cfg).value.out;
      out == st.out || (|out| == |st.out| + 1 && out == st.out + [out[|st.out|]])
  {
  }

  ghost predicate Holds(fs: map<Path, Node>, p: Path, data: Bytes) {
    Inner(p) in fs && fs[Inner(p)].FileNode? && fs[Inner(p)].data == data
  }

  ghost predicate CanonicalsHold(fs: map<Path, Node>, es: seq<Entry>) {
    forall t | Canonical(es, t).Some? && LastData(es, t).Some? ::
      Holds(fs, Canonical(es, t).value, LastData(es, t).value)
  }

  ghost predicate LinksHold(fs: map<Path, Node>, es: seq<Entry>) {
    forall i | 0 <= i < |es| && IsSysLink(es[i]) && LastData(es[..i], es[i].body.to).Some? ::
      Holds(fs, Relative(es[i].path), LastData(es[..i], es[i].body.to).value)
  }

  /** After extraction every changed link whose relative target names an earlier changed object
      resolves to the bytes of the latest such object. */
  lemma {:induction false} LinksResolve(es: seq<Entry>, cfg: Config)
    requires FilterAll(es, cfg).Ok? && DistinctPaths(FilterAll(es, cfg).value.out)
    ensures LinksHold(Extract(FilterAll(es, cfg).value.out), es)
    ensures CanonicalsHold(Extract(FilterAll(es, cfg).value.out), es)
  {
    if es == [] {
      assert forall t :: Canonical(es, t).None?;
    } else {
      var init, e := es[..|es| - 1], es[|es| - 1];
      assert es == init + [e];
      var st, st' := FilterAll(init, cfg).value, FilterAll(es, cfg).value;
      StepAppends(st, e, cfg);
      if |st'.out| > |st.out| {
        ExtractOneMore(st.out, st'.out[|st.out|]);
      }
      LinksResolve(init, cfg);
      if IsSysLink(e) {
        LinkRewritten(init, e, cfg);
      }
      var fs, fs' := Extract(st.out), Extract(st'.out);
      assert forall p | p in fs :: p in fs' && fs'[p] == fs[p];
      NewLinkHolds(init, e, st.out, st'.out);
      CanonicalsStep(init, e, fs, fs');
      LinksStep(init, e, fs, fs');
    }
  }

  lemma NewLinkHolds(init: seq<Entry>, e: Entry, out: seq<Entry>, out': seq<Entry>)
    requires IsSysLink(e) ==> out' == out + Rewriting(init, e)
    requires DistinctPaths(out') && CanonicalsHold(Extract(out), init)
    ensures IsSysLink(e) && LastData(init, e.body.to).Some? ==>
      Holds(Extract(out'), Relative(e.path), LastData(init, e.body.to).value)
  {
    if IsSysLink(e) && LastData(init, e.body.to).Some? {
      var w := Rewriting(init, e)[0];
      assert out' == out + [w];
      ExtractOneMore(out, w);
      if Canonical(init, e.body.to).Some? {
        assert Holds(Extract(out), Canonical(init, e.body.to).value, LastData(init, e.body.to).value);
      }
    }
  }

  lemma CanonicalsStep(init: seq<Entry>, e: Entry, fs: map<Path, Node>, fs': map<Path, Node>)
    requires CanonicalsHold(fs, init) && forall p | p in fs :: p in fs' && fs'[p] == fs[p]
    requires IsSysLink(e) && LastData(init, e.body.to).Some? ==>
      Holds(fs', Relative(e.path), LastData(init, e.body.to).value)
    ensures CanonicalsHold(fs', init + [e])
  {
    forall t | Canonical(init + [e], t).Some? && LastData(init + [e], t).Some?
      ensures Holds(fs', Canonical(init + [e], t).value, LastData(init + [e], t).value)
    {
      HistoryStep(init, e, t);
      if Canonical(init, t).Some? {
        assert Holds(fs, Canonical(init, t).value, LastData(init, t).value);
      }
    }
  }

  lemma LinksStep(init: seq<Entry>, e: Entry, fs: map<Path, Node>, fs': map<Path, Node>)
    requires LinksHold(fs, init) && forall p | p in fs :: p in fs' && fs'[p] == fs[p]
    requires IsSysLink(e) && LastData(init, e.body.to).Some? ==>
      Holds(fs', Relative(e.path), LastData(init, e.body.to).value)
    ensures LinksHold(fs', init + [e])
  {
    var es := init + [e];
    forall i | 0 <= i < |es| && IsSysLink(es[i]) && LastData(es[..i], es[i].body.to).Some?
      ensures Holds(fs', Relative(es[i].path), LastData(es[..i], es[i].body.to).value)
    {
      if i < |init| {
        assert es[i] == init[i] && es[..i] == init[..i];
        assert Holds(fs, Relative(init[i].path), LastData(init[..i], init[i].body.to).value);
      } else {
        assert es[..i] == init;
      }
    }
  }

  // ---- which entry was written for which ----

  /** An entry written, with the position of the entry it was written for. */
  datatype Written = Written(origin: nat, entry: Entry)

  function Added(st: State, e: Entry, origin: nat, cfg: Config): seq<Written> {
    var next := Step(st, e, cfg);
    if next.Ok? && |next.value.out| > |st.out| then [Written(origin, next.value.out[|st.out|])] else []
  }

  function Trace(es: seq<Entry>, cfg: Config): seq<Written> {
    if es == [] then []
    else
      var n := |es| - 1;
      Trace(es[..n], cfg) + if FilterAll(es[..n], cfg).Ok? then Added(FilterAll(es[..n], cfg).value, es[n], n, cfg)
        else []
  }

  function Entries(trace: seq<Written>): (r: seq<Entry>)
    ensures |r| == |trace| && forall k | 0 <= k < |r| :: r[k] == trace[k].entry
  {
    seq(|trace|, k requires 0 <= k < |trace| => trace[k].entry)
  }

  /** The trace lists the stream written. */
  lemma {:induction false} TraceOf(es: seq<Entry>, cfg: Config)
    requires FilterAll(es, cfg).Ok?
    ensures Entries(Trace(es, cfg)) == FilterAll(es, cfg).value.out
  {
    if es != [] {
      var n := |es| - 1;
      TraceOf(es[..n], cfg);
      StepAppends(FilterAll(es[..n], cfg).value, es[n], cfg);
    }
  }

  /** What the entry at `o` added. */
  function AddedAt(es: seq<Entry>, o: nat, cfg: Config): seq<Written>
    requires o < |es|
  {
    if FilterAll(es[..o], cfg).Ok? then Added(FilterAll(es[..o], cfg).value, es[o], o, cfg) else []
  }

  lemma AddedOnce(es: seq<Entry>, o: nat, cfg: Config)
    requires o < |es|
    ensures |AddedAt(es, o, cfg)| <= 1 && forall w | w in AddedAt(es, o, cfg) ::
      w.origin == o && AddedAt(es, o, cfg) == [w]
    ensures forall n | o < n <= |es| :: AddedAt(es[..n], o, cfg) == AddedAt(es, o, cfg)
  {
    forall n | o < n <= |es|
      ensures AddedAt(es[..n], o, cfg) == AddedAt(es, o, cfg)
    {
      assert es[..n][..o] == es[..o];
    }
  }

  /** Each entry of the trace was added by the one at its origin, and the origins increase. */
  lemma {:induction false} TraceOrder(es: seq<Entry>, cfg: Config)
    ensures forall w | w in Trace(es, cfg) :: w.origin < |es| && AddedAt(es, w.origin, cfg) == [w]
    ensures forall k, l | 0 <= k < l < |Trace(es, cfg)| :: Trace(es, cfg)[k].origin < Trace(es, cfg)[l].origin
  {
    if es != [] {
      var n := |es| - 1;
      TraceOrder(es[..n], cfg);
      AddedOnce(es, n, cfg);
      var trace, added := Trace(es[..n], cfg), AddedAt(es, n, cfg);
      TraceSnoc(es, cfg);
      forall w | w in trace
        ensures w.origin < n && AddedAt(es, w.origin, cfg) == [w]
      {
        AddedOnce(es, w.origin, cfg);
      }
      assert forall k | 0 <= k < |trace| :: trace[k] in trace;
    }
  }

  lemma {:induction false} TraceComplete(es: seq<Entry>, o: nat, w: Written, cfg: Config)
    requires o < |es| && AddedAt(es, o, cfg) == [w]
    ensures w in Trace(es, cfg)
  {
    TraceSnoc(es, cfg);
    if o < |es| - 1 {
      var init := es[..|es| - 1];
      assert AddedAt(init, o, cfg) == [w] by { assert init[..o] == es[..o]; }
      TraceComplete(init, o, w, cfg);
    } else {
      assert w in [w];
    }
  }

  lemma TraceSnoc(es: seq<Entry>, cfg: Config)
    requires es != []
    ensures Trace(es, cfg) == Trace(es[..|es| - 1], cfg) + AddedAt(es, |es| - 1, cfg)
  {
  }

  // ---- how often an object's bytes are written ----

  predicate ObjectAt(e: Entry, t: Path) { IsObject(e) && Relative(e.path) == t }

  /** Since the object at `m`, no other for the same path. */
  ghost predicate LatestObject(es: seq<Entry>, m: nat, n: nat, t: Path) {
    m < n <= |es| && ObjectAt(es[m], t) && forall i | m < i < n :: !ObjectAt(es[i], t)
  }

  ghost predicate LinkBetween(es: seq<Entry>, m: nat, n: nat, t: Path) {
    exists i :: m < i < n <= |es| && LinksTo(es[i], t)
  }

  /** The path of a first link is known exactly when a link has followed the object. */
  lemma {:induction false} CanonicalSince(es: seq<Entry>, m: nat, o: nat, t: Path)
    requires LatestObject(es, m, o, t)
    ensures LastData(es[..o], t) == Some(es[m].body.data)
    ensures Canonical(es[..o], t).Some? <==> LinkBetween(es, m, o, t)
    decreases o
  {
    var init, e := es[..o - 1], es[o - 1];
    assert es[..o] == init + [e] && es[..o][..|es[..o]| - 1] == init;
    if o > m + 1 {
      CanonicalSince(es, m, o - 1, t);
      if LinkBetween(es, m, o, t) && !LinkBetween(es, m, o - 1, t) {
        var i :| m < i < o && LinksTo(es[i], t);
        assert i == o - 1;
      }
    }
  }

  /** An entry written that carries the bytes of the object at `m`: it was written for a link to it,
      before the next object at that path, and has data of its own. */
  ghost predicate Carries(es: seq<Entry>, w: Written, m: nat, n: nat, t: Path, cfg: Config) {
    w in Trace(es, cfg) && m < w.origin < n <= |es| && LinksTo(es[w.origin], t) && w.entry.body.RegB?
  }

  /** What is written for a link after the object: the bytes for the first one, a link for others. */
  lemma LinkWrites(es: seq<Entry>, m: nat, o: nat, t: Path, cfg: Config)
    requires FilterAll(es, cfg).Ok? && o < |es| && LatestObject(es, m, o, t) && LinksTo(es[o], t)
    ensures |AddedAt(es, o, cfg)| == 1
    ensures LinkBetween(es, m, o, t) ==> AddedAt(es, o, cfg)[0].entry.body.LinkB?
    ensures !LinkBetween(es, m, o, t) ==> AddedAt(es, o, cfg)[0].entry.body == RegB(es[m].body.data)
    ensures AddedAt(es, o, cfg)[0].origin == o
  {
    CanonicalSince(es, m, o, t);
    FilterPrefix(es, o, cfg);
    StepWrites(es[..o], es[o], o, cfg);
  }

  lemma StepWrites(init: seq<Entry>, e: Entry, o: nat, cfg: Config)
    requires IsSysLink(e) && FilterAll(init, cfg).Ok? && LastData(init, e.body.to).Some?
    ensures |Rewriting(init, e)| == 1
    ensures Added(FilterAll(init, cfg).value, e, o, cfg) == [Written(o, Rewriting(init, e)[0])]
  {
    LinkRewritten(init, e, cfg);
    assert (init + [e])[..|init|] == init;
    var out := FilterAll(init, cfg).value.out;
    assert (out + Rewriting(init, e))[|out|] == Rewriting(init, e)[0];
  }

  /** Of the entries written, exactly one carries an object's bytes if any link to it follows before
      the next object at its path, and none otherwise. */
  lemma WrittenOnce(es: seq<Entry>, m: nat, n: nat, t: Path, cfg: Config)
    requires FilterAll(es, cfg).Ok? && LatestObject(es, m, n, t)
    ensures (exists w :: Carries(es, w, m, n, t, cfg)) <==> LinkBetween(es, m, n, t)
    ensures forall w, v | Carries(es, w, m, n, t, cfg) && Carries(es, v, m, n, t, cfg) :: w == v
    ensures forall w | Carries(es, w, m, n, t, cfg) :: w.entry.body == RegB(es[m].body.data)
  {
    forall w | Carries(es, w, m, n, t, cfg)
      ensures w.entry.body == RegB(es[m].body.data) && !LinkBetween(es, m, w.origin, t)
      ensures AddedAt(es, w.origin, cfg) == [w]
    {
      TraceOrder(es, cfg);
      LinkWrites(es, m, w.origin, t, cfg);
    }
    forall w, v | Carries(es, w, m, n, t, cfg) && Carries(es, v, m, n, t, cfg)
      ensures w == v
    {
      assert w.origin >= v.origin || LinkBetween(es, m, v.origin, t);
      assert v.origin >= w.origin || LinkBetween(es, m, w.origin, t);
    }
    if LinkBetween(es, m, n, t) {
      var o := FirstLink(es, m, n, t);
      LinkWrites(es, m, o, t, cfg);
      var w := AddedAt(es, o, cfg)[0];
      assert AddedAt(es, o, cfg) == [w];
      TraceComplete(es, o, w, cfg);
      assert Carries(es, w, m, n, t, cfg);
    } else if w :| Carries(es, w, m, n, t, cfg) {
      assert false;
    }
  }

  lemma FirstLink(es: seq<Entry>, m: nat, n: nat, t: Path) returns (o: nat)
    requires LinkBetween(es, m, n, t)
    ensures m < o < n <= |es| && LinksTo(es[o], t) && !LinkBetween(es, m, o, t)
  {
    o := m + 1;
    while !LinksTo(es[o], t)
      invariant m < o < n <= |es| && !LinkBetween(es, m, o, t)
      invariant exists i :: o <= i < n && LinksTo(es[i], t)
      decreases n - o
    {
      o := o + 1;
    }
  }

  // ---- whether what is written is normal ----

  /** Normalisation would keep the path as it is, but for a leading `./`. */
  predicate Settled(p: Path, cfg: Config) {
    var q := Normalize(p, cfg);
    q.Ok? && q.value.Kept? && Inner(q.value.path) == Inner(p)
  }

  /** A rewritten link goes to its path without normalisation; everything else is normal. */
  lemma WrittenSettled(es: seq<Entry>, w: Written, cfg: Config)
    requires FilterAll(es, cfg).Ok? && w in Trace(es, cfg) && forall e | e in es :: WellFormed(e.path)
    ensures w.entry in FilterAll(es, cfg).value.out && w.origin < |es|
    ensures Settled(w.entry.path, cfg) <==> !IsSysLink(es[w.origin]) || Settled(Relative(es[w.origin].path), cfg)
  {
    TraceOf(es, cfg);
    TraceOrder(es, cfg);
    var k :| 0 <= k < |Trace(es, cfg)| && Trace(es, cfg)[k] == w;
    assert Entries(Trace(es, cfg))[k] == w.entry;
    var st := FilterAll(es[..w.origin], cfg).value;
    StepAppends(st, es[w.origin], cfg);
    StepSettled(st, es[w.origin], w.entry, cfg);
  }

  lemma StepSettled(st: State, e: Entry, w: Entry, cfg: Config)
    requires WellFormed(e.path) && Step(st, e, cfg).Ok? && Step(st, e, cfg).value.out == st.out + [w]
    ensures Settled(w.path, cfg) <==> !IsSysLink(e) || Settled(Relative(e.path), cfg)
  {
    RelativeWellFormed(e.path);
    assert (st.out + [w])[|st.out|] == w;
    assert |st.out + [w]| != |st.out|;
    if IsSysLink(e) {
      assert w.path == Relative(e.path);
    } else {
      var q := Normalize(Relative(e.path), cfg).value.path;
      assert w == CopyTo(e, q) && w.path == q;
      NormalizeFixed(Relative(e.path), cfg);
    }
  }

  /** For example, a link in an excluded directory is written there all the same, with the bytes of
      the object before it. */
  lemma LinkNotSettled(kept: Entry, link: Entry, name: string, cfg: Config)
    requires IsObject(kept) && LinksTo(link, Relative(kept.path))
    requires Relative(link.path) == [Normal("run"), Normal(name)]
    ensures FilterAll([kept, link], cfg).Ok?
    ensures var out := FilterAll([kept, link], cfg).value.out;
      |out| == 1 && out[0].path == [Normal("run"), Normal(name)] && out[0].body == kept.body
        && !Settled(out[0].path, cfg)
  {
    var t := Relative(kept.path);
    TwoEntries(kept, link, START.(changed := map[t := kept]), cfg);
    ExcludedNotSettled(name, cfg);
  }

  lemma ExcludedNotSettled(name: string, cfg: Config)
    ensures !Settled([Normal("run"), Normal(name)], cfg)
  {
    ExcludedChildName("run", name, [], cfg);
    assert [Normal("run"), Normal(name)] + [] == [Normal("run"), Normal(name)];
  }

  // ---- nothing is lost silently but objects and dangling links ----

  /** Changed objects, and links into the store without one. */
  function SilentCount(es: seq<Entry>): nat {
    if es == [] then 0
    else
      var init, e := es[..|es| - 1], es[|es| - 1];
      SilentCount(init) + if IsObject(e) || (IsSysLink(e) && LastData(init, e.body.to).None?) then 1 else 0
  }

  lemma {:induction false} EntriesAccounted(es: seq<Entry>, cfg: Config)
    requires FilterAll(es, cfg).Ok?
    ensures var st := FilterAll(es, cfg).value;
      |st.out| + |st.filtered| + SilentCount(es) == |es|
  {
    if es != [] {
      var init, e := es[..|es| - 1], es[|es| - 1];
      EntriesAccounted(init, cfg);
      MapsRefineHistory(init, cfg);
    }
  }

  // ---- what counts as changed ----

  /** The entries at the normal paths, without those that are filtered. */
  function Normalized(es: seq<Entry>, cfg: Config): seq<Entry> {
    if es == [] then []
    else
      var e := es[|es| - 1];
      Normalized(es[..|es| - 1], cfg)
      + match Normalize(Relative(e.path), cfg) { case Ok(Kept(p)) => [CopyTo(e, p)] case _ => [] }
  }

  /** Entries without a time were not changed: a stream of such, like the layers written for a commit,
      is only normalised, and fails exactly if some path cannot be. */
  lemma {:induction false} UnchangedStream(es: seq<Entry>, cfg: Config)
    requires forall e | e in es :: e.mtime == 0
    ensures FilterAll(es, cfg).Ok? <==> forall e | e in es :: Normalize(Relative(e.path), cfg).Ok?
    ensures FilterAll(es, cfg).Ok? ==> FilterAll(es, cfg).value.out == Normalized(es, cfg)
  {
    if es != [] {
      var init, last := es[..|es| - 1], es[|es| - 1];
      assert es == init + [last];
      UnchangedStream(init, cfg);
      UnchangedStep(init, last, cfg);
      assert (forall e | e in es :: Normalize(Relative(e.path), cfg).Ok?) <==>
        Normalize(Relative(last.path), cfg).Ok? && forall e | e in init :: Normalize(Relative(e.path), cfg).Ok?;
    }
  }

  lemma UnchangedStep(init: seq<Entry>, last: Entry, cfg: Config)
    requires last.mtime == 0
    ensures FilterAll(init + [last], cfg).Ok? <==>
      FilterAll(init, cfg).Ok? && Normalize(Relative(last.path), cfg).Ok?
    ensures FilterAll(init + [last], cfg).Ok? && FilterAll(init, cfg).value.out == Normalized(init, cfg) ==>
      FilterAll(init + [last], cfg).value.out == Normalized(init + [last], cfg)
  {
    assert (init + [last])[..|init|] == init;
  }

  /** A changed file of the repository is written nowhere when it is met. */
  lemma ChangedHeldBack(es: seq<Entry>, e: Entry, cfg: Config)
    requires FilterAll(es, cfg).Ok? && e.mtime > 0 && e.body.RegB?
    requires [Normal("sysroot"), Normal("ostree"), Normal("repo")] <= e.path
    ensures FilterAll(es + [e], cfg).Ok? && FilterAll(es + [e], cfg).value.out == FilterAll(es, cfg).value.out
    ensures FilterAll(es + [e], cfg).value.filtered == FilterAll(es, cfg).value.filtered
  {
    assert (es + [e])[..|es|] == es;
    assert Relative(e.path) == e.path by {
      assert e.path[0] == Normal("sysroot");
    }
  }

  /** A changed hard link into the repository leaves at most one entry, at its own path, which does not
      lead there; and it fails for no path. */
  lemma ChangedLinkLeaves(es: seq<Entry>, e: Entry, cfg: Config)
    requires FilterAll(es, cfg).Ok? && e.mtime > 0 && e.body.LinkB?
    requires [Normal("sysroot"), Normal("ostree"), Normal("repo")] <= e.body.to && !(REPO <= Relative(e.path))
    ensures FilterAll(es + [e], cfg).Ok?
    ensures var out, now := FilterAll(es, cfg).value.out, FilterAll(es + [e], cfg).value.out;
      && out <= now && |now| <= |out| + 1
      && forall x | x in now[|out|..] ::
           x.path == Relative(e.path) && (x.body.RegB? || (x.body.LinkB? && !(REPO <= x.body.to)))
  {
    var out, x := FilterAll(es, cfg).value.out, Rewriting(es, e);
    LinkRewritten(es, e, cfg);
    CanonicalOutside(es, e.body.to);
    assert (out + x)[|out|..] == x;
  }

  // ---- ordinary files and hard links ----

  lemma LastGrows(init: seq<Entry>, e: Entry, cfg: Config)
    requires FilterAll(init + [e], cfg).Ok?
    ensures FilterAll(init, cfg).Ok? && FilterAll(init, cfg).value.out <= FilterAll(init + [e], cfg).value.out
  {
    assert (init + [e])[..|init|] == init;
    StepAppends(FilterAll(init, cfg).value, e, cfg);
  }

  lemma {:induction false} OutGrows(es: seq<Entry>, n: nat, cfg: Config)
    requires n <= |es| && FilterAll(es, cfg).Ok?
    ensures FilterAll(es[..n], cfg).Ok? && FilterAll(es[..n], cfg).value.out <= FilterAll(es, cfg).value.out
  {
    if n < |es| {
      var init := es[..|es| - 1];
      LastGrows(init, es[|es| - 1], cfg);
      assert es == init + [es[|es| - 1]] && init[..n] == es[..n];
      OutGrows(init, n, cfg);
    } else {
      assert es[..n] == es;
    }
  }

  /** An entry that has nothing to do with changed objects, at a path that is kept. */
  predicate IsOrdinary(e: Entry, p: Path, cfg: Config) {
    !IsObject(e) && !IsSysLink(e) && Normalize(Relative(e.path), cfg) == Ok(Kept(p))
  }

  lemma OrdinaryAt(es: seq<Entry>, k: nat, p: Path, cfg: Config) returns (i: nat)
    requires FilterAll(es, cfg).Ok? && k < |es| && IsOrdinary(es[k], p, cfg)
    ensures FilterAll(es[..k], cfg).Ok?
    ensures var out := FilterAll(es, cfg).value.out;
      i < |out| && out[..i] == FilterAll(es[..k], cfg).value.out && out[i] == CopyTo(es[k], p)
  {
    OutGrows(es, k, cfg);
    OutGrows(es, k + 1, cfg);
    assert es[..k + 1][..k] == es[..k];
    var before, out := FilterAll(es[..k], cfg).value.out, FilterAll(es, cfg).value.out;
    i := |before|;
    assert before + [CopyTo(es[k], p)] <= out;
  }

  /** What is written for an ordinary entry: the same but for its path and, if it is a hard link, its
      target. */
  lemma OrdinaryCopied(e: Entry, p: Path)
    ensures var w := CopyTo(e, p);
      && w.path == p && w.uid == e.uid && w.gid == e.gid && w.mode == e.mode && w.mtime == e.mtime
      && (!e.body.LinkB? ==> w.body == e.body) && (e.body.LinkB? ==> w.body.LinkB?) && NodeOf(w) == NodeOf(e)
  {
  }

  /** An ordinary file is extracted as it was, at its normal path. */
  lemma FileExtracted(es: seq<Entry>, m: nat, p: Path, cfg: Config)
    requires FilterAll(es, cfg).Ok? && DistinctPaths(FilterAll(es, cfg).value.out)
    requires m < |es| && IsOrdinary(es[m], p, cfg) && NodeOf(es[m]).Some?
    ensures At(Extract(FilterAll(es, cfg).value.out), Inner(p)) == NodeOf(es[m])
  {
    var i := OrdinaryAt(es, m, p, cfg);
    OrdinaryCopied(es[m], p);
    EntryExtracted(FilterAll(es, cfg).value.out, i);
  }

  /** Where the rewritten target of a link points, for a link to a kept path. */
  lemma TargetGoes(path: Path, to: Path, p: Path, cfg: Config)
    requires WellFormed(path) && Normalize(Relative(path), cfg) == Ok(Kept(p)) && Inner(to) == Inner(path)
    ensures !BelowRemappedVar(to, cfg) ==> Inner(RemapEtc(to)) == Inner(p)
    ensures BelowRemappedVar(to, cfg) ==> Inner(RemapEtc(to)) == Inner(to)
  {
    assert Inner(Relative(path)) == Inner(path);
    if Inner(path) != [] {
      KeptInner(Relative(path), cfg);
      RemapInner(to);
      TopFollows(Inner(path)[0].name, Inner(path)[1..], cfg);
      assert Inner(to) == [Inner(to)[0]] + Inner(to)[1..];
    }
  }

  /** An ordinary hard link to an ordinary file before it: it is extracted as that file exactly if its
      target is not below a remapped `var`, or a file just like it was written where the target says. */
  lemma OrdinaryLink(es: seq<Entry>, m: nat, n: nat, p: Path, q: Path, cfg: Config)
    requires FilterAll(es, cfg).Ok? && DistinctPaths(FilterAll(es, cfg).value.out) && m < n < |es|
    requires WellFormed(es[m].path) && IsOrdinary(es[m], p, cfg) && NodeOf(es[m]).Some?
    requires IsOrdinary(es[n], q, cfg) && es[n].body.LinkB? && Inner(es[n].body.to) == Inner(es[m].path)
    ensures FilterAll(es[..n], cfg).Ok?
    ensures At(Extract(FilterAll(es, cfg).value.out), Inner(q)) == NodeOf(es[m]) <==>
      || !BelowRemappedVar(es[n].body.to, cfg)
      || At(Extract(FilterAll(es[..n], cfg).value.out), Inner(es[n].body.to)) == NodeOf(es[m])
  {
    var out := FilterAll(es, cfg).value.out;
    var i := OrdinaryAt(es, n, q, cfg);
    assert es[..n][m] == es[m] && DistinctPaths(out[..i]);
    FileExtracted(es[..n], m, p, cfg);
    LinkExtracted(out, i);
    TargetGoes(es[m].path, es[n].body.to, p, cfg);
  }

  // ---- absolute targets ----

  /** A changed link, from outside the store, that names an object in it. */
  predicate NamesObject(e: Entry, t: Path) {
    && IsModified(e) && e.body.LinkB? && !(REPO <= Relative(e.path))
    && REPO <= t && Relative(e.body.to) == t
  }

  /** A link that names a kept-back object takes it exactly if its target has no leading slash: the
      slash is stripped from the wrong path. */
  lemma TargetRecognised(st: State, e: Entry, t: Path, cfg: Config)
    requires NamesObject(e, t) && t in st.changed && Normalize(Relative(e.path), cfg).Ok?
    ensures Step(st, e, cfg).Ok?
    ensures t !in Step(st, e, cfg).value.changed <==> !([RootDir] <= e.body.to)
  {
    StartsInside(t);
    if [RootDir] <= e.body.to {
      assert !(REPO <= e.body.to);
    } else {
      assert e.body.to == t;
    }
  }

  lemma StartsInside(t: Path)
    requires REPO <= t
    ensures t != [] && t[0] == Normal("sysroot")
  {
    assert REPO[0] == Normal("sysroot");
  }

  lemma TwoEntries(a: Entry, b: Entry, st: State, cfg: Config)
    requires Step(START, a, cfg) == Ok(st)
    ensures FilterAll([a, b], cfg) == Step(st, b, cfg)
  {
    assert [a, b][..1] == [a] && [a][..0] == [];
    assert FilterAll([a], cfg) == Ok(st);
  }

  /** The path of a link that names an earlier changed object exists after extraction exactly if its
      target has no leading slash, or something else was written before at the object's path. */
  lemma AbsoluteTargetLost(es: seq<Entry>, n: nat, t: Path, q: Path, cfg: Config)
    requires FilterAll(es, cfg).Ok? && DistinctPaths(FilterAll(es, cfg).value.out) && n < |es|
    requires NamesObject(es[n], t) && LastData(es[..n], t).Some?
    requires Normalize(Relative(es[n].path), cfg) == Ok(Kept(q)) && Inner(q) == Inner(Relative(es[n].path))
    ensures FilterAll(es[..n], cfg).Ok?
    ensures Inner(q) in Extract(FilterAll(es, cfg).value.out) <==>
      !([RootDir] <= es[n].body.to) || t in Extract(FilterAll(es[..n], cfg).value.out)
  {
    OutGrows(es, n, cfg);
    StartsInside(t);
    if [RootDir] <= es[n].body.to {
      AbsoluteCopied(es, n, t, q, cfg);
    } else {
      LinksResolve(es, cfg);
      assert IsSysLink(es[n]) && es[n].body.to == t;
    }
  }

  lemma AbsoluteCopied(es: seq<Entry>, n: nat, t: Path, q: Path, cfg: Config)
    requires FilterAll(es, cfg).Ok? && DistinctPaths(FilterAll(es, cfg).value.out) && n < |es|
    requires NamesObject(es[n], t) && [RootDir] <= es[n].body.to && FilterAll(es[..n], cfg).Ok?
    requires Normalize(Relative(es[n].path), cfg) == Ok(Kept(q))
    ensures Inner(q) in Extract(FilterAll(es, cfg).value.out) <==> t in Extract(FilterAll(es[..n], cfg).value.out)
  {
    var before, out := FilterAll(es[..n], cfg).value.out, FilterAll(es, cfg).value.out;
    OutGrows(es, n + 1, cfg);
    assert es[..n + 1][..n] == es[..n];
    AbsoluteIsOrdinary(FilterAll(es[..n], cfg).value, es[n], cfg);
    assert before + [CopyTo(es[n], q)] <= out;
    assert out[..|before|] == before && out[|before|] == CopyTo(es[n], q);
    LinkExtracted(out, |before|);
    assert Inner(es[n].body.to) == t;
  }

  lemma AbsoluteIsOrdinary(st: State, e: Entry, cfg: Config)
    requires e.body.LinkB? && [RootDir] <= e.body.to && !(REPO <= Relative(e.path))
    ensures Step(st, e, cfg) == Ordinary(st, e, cfg)
  {
    assert REPO[0] == Normal("sysroot") != RootDir;
    assert !(REPO <= e.body.to);
  }
}
