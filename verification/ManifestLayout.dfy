/** Which layers of an image hold the ostree commit, its chunks, and later additions
    (lib/src/container/store.rs; the writer is lib/src/container/encapsulate.rs). */
module ManifestLayout {
  import opened Outcomes
  import opened Seqs

  datatype Layer = Layer(digest: string, annotation: Option<string>)

  datatype Config = Config(diffIds: seq<string>, finalDiffId: Option<string>)

  function Position<T(==)>(s: seq<T>, x: T): (i: Option<nat>)
    ensures i.Some? <==> x in s
    ensures i.Some? ==> i.value < |s| && s[i.value] == x && forall j | 0 <= j < i.value :: s[j] != x
  {
    if s == [] then None
    else if s[0] == x then Some(0)
    else match Position(s[1..], x) case None => None case Some(i) => Some(i + 1)
  }

  /** The layer at the position of a diff id. */
  function LayerFromDiffId(layers: seq<Layer>, config: Config, diffId: string): (r: Result<Layer>)
    ensures r.Ok? ==> r.value in layers
    ensures r.Ok? <==> diffId in config.diffIds[..Min(|layers|, |config.diffIds|)]
  {
    match Position(config.diffIds, diffId)
    case None => Err
    case Some(i) => if i < |layers| then Ok(layers[i]) else Err
  }

  datatype Layout = Layout(commit: Layer, chunks: seq<Layer>, derived: seq<Layer>)

  /** Commit layer, chunk layers, derived layers. */
  function AllLayers(l: Layout): seq<Layer> { [l.commit] + l.chunks + l.derived }

  /** The layer that the label names, if it is one. */
  function Target(layers: seq<Layer>, config: Config): Result<Layer> {
    match config.finalDiffId
    case None => Err
    case Some(id) => LayerFromDiffId(layers, config, id)
  }

  function Others(layers: seq<Layer>, first: Layer): seq<Layer> {
    if layers == [] then []
    else
      var before := Others(layers[..|layers| - 1], first);
      if layers[|layers| - 1] == first then before else before + [layers[|layers| - 1]]
  }

  ghost predicate Once(layers: seq<Layer>, x: Layer) {
    forall i, j | 0 <= i < j < |layers| :: layers[i] == x ==> layers[j] != x
  }

  ghost predicate Parses(layers: seq<Layer>, config: Config) {
    && layers != [] && Target(layers, config).Ok?
    && Once(layers, Target(layers, config).value)
  }

  /** The layers up to the target, without copies of the first, and those after it. */
  ghost function LayoutOf(layers: seq<Layer>, config: Config): Layout
    requires Parses(layers, config)
  {
    var t := Position(layers, Target(layers, config).value).value;
    Layout(layers[0], Others(layers[..t + 1], layers[0]), layers[t + 1..])
  }

  lemma OthersSnoc(layers: seq<Layer>, i: nat, first: Layer)
    requires i < |layers|
    ensures Others(layers[..i + 1], first)
      == Others(layers[..i], first) + if layers[i] == first then [] else [layers[i]]
  {
    assert layers[..i + 1][..i] == layers[..i];
  }

  ghost predicate FirstAt(layers: seq<Layer>, x: Layer, t: nat) {
    t < |layers| && layers[t] == x && forall j | 0 <= j < t :: layers[j] != x
  }

  /** The pass over the layers, with its flag; the target is first found at `t`. */
  method SplitLayers(layers: seq<Layer>, target: Layer, ghost t: nat) returns (r: Result<(seq<Layer>, seq<Layer>)>)
    requires FirstAt(layers, target, t)
    ensures r.Ok? <==> Once(layers, target)
    ensures r.Ok? ==> r.value.0 == Others(layers[..t + 1], layers[0]) && r.value.1 == layers[t + 1..]
  {
    var first := layers[0];
    var chunks, derived: seq<Layer> := [], [];
    var after := false;
    ghost var cut: nat := 0;
    for i := 0 to |layers|
      invariant after <==> t < i
      invariant cut == if after then t + 1 else i
      invariant chunks == Others(layers[..cut], first) && derived == Between(layers, cut, i)
      invariant target !in derived
    {
      var layer := layers[i];
      if layer == target {
        if after {
          TwiceThere(layers, t, i);
          return Err;
        }
        OthersSnoc(layers, i, first);
        after, cut := true, i + 1;
        if layer != first { chunks := chunks + [layer]; }
      } else if !after {
        OthersSnoc(layers, i, first);
        cut := i + 1;
        if layer != first { chunks := chunks + [layer]; }
      } else {
        derived := derived + [layer];
      }
    }
    BetweenIsSlice(layers, cut, |layers|);
    OnceAfter(layers, target, t);
    return Ok((chunks, derived));
  }

  lemma TwiceThere(layers: seq<Layer>, i: nat, j: nat)
    requires i < j < |layers| && layers[i] == layers[j]
    ensures !Once(layers, layers[j])
  {
  }

  ghost function Between(layers: seq<Layer>, a: nat, b: nat): seq<Layer>
    requires b <= |layers|
  {
    if b <= a then [] else Between(layers, a, b - 1) + [layers[b - 1]]
  }

  lemma {:induction false} BetweenIsSlice(layers: seq<Layer>, a: nat, b: nat)
    requires a <= b <= |layers|
    ensures Between(layers, a, b) == layers[a..b]
  {
    if a < b {
      BetweenIsSlice(layers, a, b - 1);
    }
  }

  lemma OnceAfter(layers: seq<Layer>, x: Layer, t: nat)
    requires t < |layers| && (forall j | 0 <= j < t :: layers[j] != x) && x !in layers[t + 1..]
    ensures Once(layers, x)
  {
    assert forall j | t < j < |layers| :: layers[t + 1..][j - t - 1] == layers[j];
  }

  method ParseManifestLayout(layers: seq<Layer>, config: Config) returns (r: Result<Layout>)
    ensures r.Ok? <==> Parses(layers, config)
    ensures r.Ok? ==> r.value == LayoutOf(layers, config)
  {
    if layers == [] { return Err; }
    if config.finalDiffId.None? { return Err; }
    var target :- LayerFromDiffId(layers, config, config.finalDiffId.value);
    var split :- SplitLayers(layers, target, Position(layers, target).value);
    return Ok(Layout(layers[0], split.0, split.1));
  }

  lemma {:induction false} OthersOf(layers: seq<Layer>, first: Layer)
    ensures |Others(layers, first)| <= |layers|
    ensures |Others(layers, first)| == |layers| <==> first !in layers
    ensures first !in layers ==> Others(layers, first) == layers
    ensures forall l | l in Others(layers, first) :: l in layers
    ensures forall l | l in layers :: l == first || l in Others(layers, first)
  {
    if layers != [] {
      OthersOf(layers[..|layers| - 1], first);
      assert layers == layers[..|layers| - 1] + [layers[|layers| - 1]];
    }
  }

  lemma {:induction false} OthersConcat(a: seq<Layer>, b: seq<Layer>, first: Layer)
    ensures Others(a + b, first) == Others(a, first) + Others(b, first)
  {
    if b == [] {
      assert a + b == a;
    } else {
      OthersConcat(a, b[..|b| - 1], first);
      assert (a + b)[..|a + b| - 1] == a + b[..|b| - 1];
    }
  }

  /** What a parsed layout holds is what the manifest holds; it is in manifest order exactly when
      the first layer is not repeated up to the target. */
  lemma LayoutOrder(layers: seq<Layer>, config: Config)
    requires Parses(layers, config)
    ensures forall x :: x in AllLayers(LayoutOf(layers, config)) <==> x in layers
    ensures AllLayers(LayoutOf(layers, config)) == layers <==>
      layers[0] !in layers[1..Position(layers, Target(layers, config).value).value + 1]
  {
    var t: nat := Position(layers, Target(layers, config).value).value;
    var l := LayoutOf(layers, config);
    assert l == Layout(layers[0], Others(layers[..t + 1], layers[0]), layers[t + 1..]);
    OrderUpTo(layers, t, l);
  }

  lemma OrderUpTo(layers: seq<Layer>, t: nat, l: Layout)
    requires t < |layers| && l == Layout(layers[0], Others(layers[..t + 1], layers[0]), layers[t + 1..])
    ensures forall x :: x in AllLayers(l) <==> x in layers
    ensures AllLayers(l) == layers <==> layers[0] !in layers[1..t + 1]
  {
    var first, body := layers[0], layers[1..t + 1];
    assert layers[..t + 1] == [first] + body && layers == [first] + body + layers[t + 1..];
    OthersConcat([first], body, first);
    assert Others([first], first) == [];
    OthersOf(body, first);
    assert AllLayers(l) == [first] + Others(body, first) + layers[t + 1..];
    if first in body {
      assert |AllLayers(l)| < |layers|;
    }
  }

  // ---- the writer ----

  datatype Written = Written(layer: Layer, diffId: string)

  datatype Image = Image(layers: seq<Layer>, config: Config)

  /** The commit layer comes first, then the chunks; the label names the last of them. */
  method ExportChunked(commit: Written, chunks: seq<Written>) returns (r: Image)
    ensures |r.layers| == |r.config.diffIds| == 1 + |chunks|
    ensures forall i | 0 <= i <= |chunks| ::
      r.layers[i] == ([commit] + chunks)[i].layer && r.config.diffIds[i] == ([commit] + chunks)[i].diffId
    ensures r.config.finalDiffId == Some(r.config.diffIds[|chunks|])
  {
    var last := if chunks == [] then commit.diffId else chunks[|chunks| - 1].diffId;
    var layers, diffIds := [commit.layer], [commit.diffId];
    for i := 0 to |chunks|
      invariant |layers| == |diffIds| == i + 1
      invariant forall k | 0 <= k <= i ::
        layers[k] == ([commit] + chunks)[k].layer && diffIds[k] == ([commit] + chunks)[k].diffId
    {
      layers, diffIds := layers + [chunks[i].layer], diffIds + [chunks[i].diffId];
    }
    return Image(layers, Config(diffIds, Some(last)));
  }

  /** An element found nowhere else. */
  ghost predicate OnlyAt<T>(s: seq<T>, i: nat) {
    i < |s| && forall k | 0 <= k < |s| && k != i :: s[k] != s[i]
  }

  /** An exported image whose first `ostree` layers were written for the commit, with layers added
      on top or not, is read back as it was written exactly if the label names no earlier layer, the
      layer it names occurs once, and the commit layer does not occur again up to there. */
  lemma LayoutRecovered(image: Image, ostree: nat)
    requires 1 <= ostree <= |image.layers| && ostree <= |image.config.diffIds|
    requires image.config.finalDiffId == Some(image.config.diffIds[ostree - 1])
    ensures WrittenLayout(image, ostree) <==> Unambiguous(image, ostree)
    ensures WrittenLayout(image, ostree) ==> AllLayers(LayoutOf(image.layers, image.config)) == image.layers
  {
    if Unambiguous(image, ostree) {
      RecoveredIf(image, ostree);
    }
    if WrittenLayout(image, ostree) {
      RecoveredOnlyIf(image, ostree);
    }
  }

  ghost predicate Unambiguous(image: Image, ostree: nat)
    requires 1 <= ostree <= |image.layers| && ostree <= |image.config.diffIds|
  {
    && image.config.diffIds[ostree - 1] !in image.config.diffIds[..ostree - 1]
    && OnlyAt(image.layers, ostree - 1) && image.layers[0] !in image.layers[1..ostree]
  }

  /** So it is if all layers and all diff ids differ. */
  lemma AllDifferent(image: Image, ostree: nat)
    requires 1 <= ostree <= |image.layers| && ostree <= |image.config.diffIds|
    requires NoDup(image.layers) && NoDup(image.config.diffIds)
    ensures Unambiguous(image, ostree)
  {
    assert forall k | 0 <= k < ostree - 1 :: image.config.diffIds[..ostree - 1][k] == image.config.diffIds[k];
  }

  lemma LabelledTarget(image: Image, ostree: nat) returns (p: nat)
    requires 1 <= ostree <= |image.layers| && ostree <= |image.config.diffIds|
    requires image.config.finalDiffId == Some(image.config.diffIds[ostree - 1])
    ensures p < ostree && Target(image.layers, image.config) == Ok(image.layers[p])
    ensures image.config.diffIds[p] == image.config.diffIds[ostree - 1]
    ensures image.config.diffIds[ostree - 1] !in image.config.diffIds[..ostree - 1] ==> p == ostree - 1
  {
    var diffIds, last := image.config.diffIds, ostree - 1;
    p := Position(diffIds, diffIds[last]).value;
    if diffIds[last] !in diffIds[..last] {
      assert forall k | 0 <= k < last :: diffIds[k] in diffIds[..last];
    }
  }

  lemma RecoveredIf(image: Image, ostree: nat)
    requires 1 <= ostree <= |image.layers| && ostree <= |image.config.diffIds| && Unambiguous(image, ostree)
    requires image.config.finalDiffId == Some(image.config.diffIds[ostree - 1])
    ensures WrittenLayout(image, ostree)
  {
    var p := LabelledTarget(image, ostree);
    FoundAt(image.layers, p);
    OthersAfterFirst(image.layers, ostree);
  }

  lemma RecoveredOnlyIf(image: Image, ostree: nat)
    requires 1 <= ostree <= |image.layers| && ostree <= |image.config.diffIds| && WrittenLayout(image, ostree)
    requires image.config.finalDiffId == Some(image.config.diffIds[ostree - 1])
    ensures Unambiguous(image, ostree)
  {
    var p := LabelledTarget(image, ostree);
    WrittenOnlyOnce(image.layers, image.layers[p], ostree);
    assert p == ostree - 1;
  }

  ghost predicate WrittenLayout(image: Image, ostree: nat)
    requires 1 <= ostree <= |image.layers|
  {
    && Parses(image.layers, image.config)
    && LayoutOf(image.layers, image.config) == Layout(image.layers[0], image.layers[1..ostree], image.layers[ostree..])
  }

  lemma FoundAt(layers: seq<Layer>, i: nat)
    requires OnlyAt(layers, i)
    ensures Position(layers, layers[i]) == Some(i) && Once(layers, layers[i])
  {
    var p := Position(layers, layers[i]);
    assert p.Some? && layers[p.value] == layers[i];
  }

  /** What the split at `ostree` says about the target. */
  lemma WrittenOnlyOnce(layers: seq<Layer>, target: Layer, ostree: nat)
    requires 1 <= ostree <= |layers| && target in layers && Once(layers, target)
    requires var t := Position(layers, target).value;
      Others(layers[..t + 1], layers[0]) == layers[1..ostree] && layers[t + 1..] == layers[ostree..]
    ensures layers[ostree - 1] == target && OnlyAt(layers, ostree - 1) && layers[0] !in layers[1..ostree]
  {
    var t := Position(layers, target).value;
    assert |layers[t + 1..]| == |layers| - (t + 1) && |layers[ostree..]| == |layers| - ostree;
    assert t == ostree - 1;
    assert layers[..ostree] == [layers[0]] + layers[1..ostree];
    OthersConcat([layers[0]], layers[1..ostree], layers[0]);
    assert Others([layers[0]], layers[0]) == [];
    OthersOf(layers[1..ostree], layers[0]);
  }

  lemma OthersAfterFirst(layers: seq<Layer>, n: nat)
    requires 1 <= n <= |layers| && layers[0] !in layers[1..n]
    ensures Others(layers[..n], layers[0]) == layers[1..n]
  {
    assert layers[..n] == [layers[0]] + layers[1..n];
    OthersConcat([layers[0]], layers[1..n], layers[0]);
    assert Others([layers[0]], layers[0]) == [];
    OthersOf(layers[1..n], layers[0]);
  }
}
