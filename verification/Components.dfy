/** Sizes of the components that own a commit's objects (lib/src/chunking.rs,
    `compute_sizes`; lib/src/objectsource.rs). */
module Components {
  import opened Outcomes
  import opened Seqs
  import opened Sorting
  import opened Objects
  import opened PriorBuild
  import opened P = Partitions

  datatype SourceMeta = SourceMeta(name: string, frequency: nat)

  /** The owner of each object, in the order of the index map. */
  type Owners = seq<(Sum, string)>

  function Ids(owners: Owners): set<string> {
    set o | o in owners :: o.1
  }

  function IdList(owners: Owners): (r: seq<string>)
    ensures |r| == |owners| && forall i | 0 <= i < |r| :: r[i] == owners[i].1
  {
    seq(|owners|, i requires 0 <= i < |owners| => owners[i].1)
  }

  function OwnedBy(owners: Owners, id: string): seq<Sum> {
    if owners == [] then []
    else
      var before, o := OwnedBy(owners[..|owners| - 1], id), owners[|owners| - 1];
      if o.1 == id then before + [o.0] else before
  }

  /** Total size of a component: one contribution for each object it owns. */
  function BytesOf(owners: Owners, id: string, files: map<Sum, nat>): nat
    requires forall o | o in owners :: o.0 in files
  {
    if owners == [] then 0
    else
      var o := owners[|owners| - 1];
      BytesOf(owners[..|owners| - 1], id, files) + if o.1 == id then files[o.0] else 0
  }

  predicate SizeGe(a: P.Component, b: P.Component) { a.size >= b.size }

  /** Larger first, then by identifier. */
  predicate SizeThenId(a: P.Component, b: P.Component) {
    a.size > b.size || (a.size == b.size && LexLe(a.id, b.id))
  }

  predicate Complete(files: map<Sum, nat>, owners: Owners, sources: map<string, SourceMeta>) {
    forall o | o in owners :: o.0 in files && o.1 in sources
  }

  function SizedComponent(id: string, files: map<Sum, nat>, owners: Owners,
                          sources: map<string, SourceMeta>): P.Component
    requires Complete(files, owners, sources) && id in sources
  {
    P.Component(id, sources[id].name, BytesOf(owners, id, files), sources[id].frequency)
  }

  /** One component for each identifier that owns something, with its total size, in order. */
  ghost predicate SizesOf(cs: seq<P.Component>, files: map<Sum, nat>, owners: Owners, sources: map<string, SourceMeta>)
    requires Complete(files, owners, sources)
  {
    && Sorted(cs, SizeThenId)
    && (forall i, j | 0 <= i < j < |cs| :: cs[i].id != cs[j].id)
    && (forall c | c in cs :: c.id in Ids(owners) && c == SizedComponent(c.id, files, owners, sources))
    && forall id | id in Ids(owners) :: exists c :: c in cs && c.id == id
  }

  /** Adds up the sizes; fails on an object that the repository does not have. */
  method SumSizes(files: map<Sum, nat>, owners: Owners) returns (r: Result<map<string, nat>>)
    ensures r.Ok? <==> forall o | o in owners :: o.0 in files
    ensures r.Ok? ==> r.value.Keys == Ids(owners) && forall id | id in r.value ::
      r.value[id] == BytesOf(owners, id, files)
  {
    var sizes: map<string, nat> := map[];
    for i := 0 to |owners|
      invariant forall o | o in owners[..i] :: o.0 in files
      invariant sizes.Keys == Ids(owners[..i])
      invariant forall id | id in sizes :: sizes[id] == BytesOf(owners[..i], id, files)
      invariant forall id | id !in sizes :: BytesOf(owners[..i], id, files) == 0
    {
      var (sum, id) := owners[i];
      assert owners[i] in owners;
      if sum !in files { return Err; }
      assert owners[..i + 1] == owners[..i] + [owners[i]];
      sizes := sizes[id := (if id in sizes then sizes[id] else 0) + files[sum]];
    }
    assert owners[..|owners|] == owners;
    return Ok(sizes);
  }

  /** Looks each identifier up among the known components. */
  method Describe(ids: seq<string>, sizes: map<string, nat>, sources: map<string, SourceMeta>)
    returns (r: Result<seq<P.Component>>)
    requires forall id | id in ids :: id in sizes
    ensures r.Ok? <==> forall id | id in ids :: id in sources
    ensures r.Ok? ==> |r.value| == |ids| && forall k | 0 <= k < |ids| ::
        r.value[k] == P.Component(ids[k], sources[ids[k]].name, sizes[ids[k]], sources[ids[k]].frequency)
  {
    var sized: seq<P.Component> := [];
    for i := 0 to |ids|
      invariant |sized| == i && forall id | id in ids[..i] :: id in sources
      invariant forall k | 0 <= k < i ::
        ids[k] in sources && sized[k] == P.Component(ids[k], sources[ids[k]].name, sizes[ids[k]],
          sources[ids[k]].frequency)
    {
      var id := ids[i];
      assert id in ids;
      if id !in sources { return Err; }
      assert ids[..i + 1] == ids[..i] + [id];
      sized := sized + [P.Component(id, sources[id].name, sizes[id], sources[id].frequency)];
    }
    assert ids[..|ids|] == ids;
    return Ok(sized);
  }

  method ComputeSizes(files: map<Sum, nat>, owners: Owners, sources: map<string, SourceMeta>)
    returns (r: Result<seq<P.Component>>)
    ensures r.Ok? <==> Complete(files, owners, sources)
    ensures r.Ok? ==> SizesOf(r.value, files, owners, sources)
  {
    var sizes :- SumSizes(files, owners);
    // An ordered map: identifiers in ascending order.
    var ids := Sort(Dedup(IdList(owners)), LexLe);
    IdsInOrder(owners);
    assert forall o | o in owners :: o.1 in Ids(owners);
    var sized :- Describe(ids, sizes, sources);
    InOrder(sized, ids, files, owners, sources);
    return Ok(Sort(sized, SizeGe));
  }

  lemma {:induction false} LexTotal(a: string, b: string)
    ensures LexLe(a, b) || LexLe(b, a)
  {
    if a != "" && b != "" && a[0] == b[0] {
      LexTotal(a[1..], b[1..]);
    }
  }

  lemma {:induction false} LexTransitive(a: string, b: string, c: string)
    requires LexLe(a, b) && LexLe(b, c)
    ensures LexLe(a, c)
  {
    if a != "" && b != "" && c != "" && a[0] == b[0] == c[0] {
      LexTransitive(a[1..], b[1..], c[1..]);
    }
  }

  lemma LexPreorder()
    ensures TotalPreorder(LexLe)
  {
    forall a, b ensures LexLe(a, b) || LexLe(b, a) { LexTotal(a, b); }
    forall a, b, c | LexLe(a, b) && LexLe(b, c) ensures LexLe(a, c) { LexTransitive(a, b, c); }
  }

  lemma IdsInOrder(owners: Owners)
    ensures var ids := Sort(Dedup(IdList(owners)), LexLe);
      Sorted(ids, LexLe) && NoDup(ids) && (forall id :: id in ids <==> id in Ids(owners))
  {
    LexPreorder();
    var list := IdList(owners);
    DedupMembers(list);
    SortPermutes(Dedup(list), LexLe);
    SortSorts(Dedup(list), LexLe);
    PermutedNoDup(Dedup(list), Sort(Dedup(list), LexLe));
    forall id | id in Ids(owners)
      ensures id in list
    {
      var o :| o in owners && o.1 == id;
      var i :| 0 <= i < |owners| && owners[i] == o;
      assert list[i] == id;
    }
  }

  /** A stable sort by size keeps the identifiers of equal sizes in order. */
  lemma {:induction false} StableInsert(x: P.Component, s: seq<P.Component>)
    requires Sorted(s, SizeThenId) && forall y | y in s :: LexLe(x.id, y.id)
    ensures Sorted(Insert(x, s, SizeGe), SizeThenId)
  {
    if s != [] {
      HeadFirst(s);
      if x.size < s[0].size {
        StableInsert(x, s[1..]);
        InsertPermutes(x, s[1..], SizeGe);
        var t := Insert(x, s[1..], SizeGe);
        forall y | y in t
          ensures SizeThenId(s[0], y)
        {
          assert y in multiset(t);
        }
        SortedCons(s[0], t);
      } else {
        assert forall y | y in s :: SizeThenId(x, y);
        SortedCons(x, s);
      }
    }
  }

  lemma HeadFirst(s: seq<P.Component>)
    requires Sorted(s, SizeThenId) && s != []
    ensures Sorted(s[1..], SizeThenId) && s == [s[0]] + s[1..]
    ensures forall y | y in s[1..] :: SizeThenId(s[0], y)
  {
    forall y | y in s[1..]
      ensures SizeThenId(s[0], y)
    {
      var k :| 0 <= k < |s[1..]| && s[1..][k] == y;
      assert SizeThenId(s[0], s[k + 1]);
    }
  }

  lemma SortedCons(x: P.Component, s: seq<P.Component>)
    requires Sorted(s, SizeThenId) && forall y | y in s :: SizeThenId(x, y)
    ensures Sorted([x] + s, SizeThenId)
  {
  }

  lemma {:induction false} StableSort(s: seq<P.Component>)
    requires forall i, j | 0 <= i < j < |s| :: LexLe(s[i].id, s[j].id)
    ensures Sorted(Sort(s, SizeGe), SizeThenId)
  {
    if s != [] {
      StableSort(s[1..]);
      SortPermutes(s[1..], SizeGe);
      forall y | y in Sort(s[1..], SizeGe)
        ensures LexLe(s[0].id, y.id)
      {
        var k :| 0 <= k < |s[1..]| && s[1..][k] == y;
        assert s[k + 1] == y;
      }
      StableInsert(s[0], Sort(s[1..], SizeGe));
    }
  }

  lemma InOrder(sized: seq<P.Component>, ids: seq<string>, files: map<Sum, nat>, owners: Owners,
                sources: map<string, SourceMeta>)
    requires Complete(files, owners, sources)
    requires |sized| == |ids| && NoDup(ids) && Sorted(ids, LexLe) && forall id :: id in ids <==> id in Ids(owners)
    requires forall k | 0 <= k < |ids| ::
      ids[k] in sources && sized[k] == SizedComponent(ids[k], files, owners, sources)
    ensures SizesOf(Sort(sized, SizeGe), files, owners, sources)
  {
    var cs := Sort(sized, SizeGe);
    StableSort(sized);
    SortPermutes(sized, SizeGe);
    assert NoDup(sized);
    PermutedNoDup(sized, cs);
    forall c | c in cs
      ensures c.id in Ids(owners) && c == SizedComponent(c.id, files, owners, sources)
    {
      var k :| 0 <= k < |sized| && sized[k] == c;
      assert ids[k] in ids;
    }
    forall i, j | 0 <= i < j < |cs|
      ensures cs[i].id != cs[j].id
    {
      assert cs[i] in cs && cs[j] in cs;
    }
    forall id | id in Ids(owners)
      ensures exists c :: c in cs && c.id == id
    {
      var k :| 0 <= k < |ids| && ids[k] == id;
      assert sized[k] in sized;
    }
  }
}
