/** Filtering and flattening of sequences. */
module Seqs {

  function Min(a: nat, b: nat): nat { if a <= b then a else b }

  function Filter<T>(s: seq<T>, p: T -> bool): seq<T> {
    if s == [] then []
    else
      var init := Filter(s[..|s| - 1], p);
      if p(s[|s| - 1]) then init + [s[|s| - 1]] else init
  }

  lemma FilterSnoc<T>(s: seq<T>, i: nat, p: T -> bool)
    requires i < |s|
    ensures Filter(s[..i + 1], p) == Filter(s[..i], p) + if p(s[i]) then [s[i]] else []
  {
    assert s[..i + 1][..i] == s[..i];
  }

  lemma {:induction false} FilterConcat<T>(a: seq<T>, b: seq<T>, p: T -> bool)
    ensures Filter(a + b, p) == Filter(a, p) + Filter(b, p)
  {
    if b == [] {
      assert a + b == a;
    } else {
      FilterConcat(a, b[..|b| - 1], p);
      assert (a + b)[..|a + b| - 1] == a + b[..|b| - 1];
    }
  }

  lemma {:induction false} FilterMembers<T>(s: seq<T>, p: T -> bool)
    ensures forall x | x in Filter(s, p) :: x in s && p(x)
    ensures forall x | x in s && p(x) :: x in Filter(s, p)
    ensures |Filter(s, p)| <= |s|
  {
    if s != [] {
      FilterMembers(s[..|s| - 1], p);
      assert s == s[..|s| - 1] + [s[|s| - 1]];
    }
  }

  /** The selected elements keep their relative order. */
  lemma {:induction false} FilterOrder<T>(s: seq<T>, p: T -> bool, le: (T, T) -> bool)
    requires forall i, j | 0 <= i < j < |s| :: le(s[i], s[j])
    ensures forall i, j | 0 <= i < j < |Filter(s, p)| :: le(Filter(s, p)[i], Filter(s, p)[j])
  {
    if s != [] {
      var t := s[..|s| - 1];
      FilterOrder(t, p, le);
      FilterMembers(t, p);
      forall k | 0 <= k < |Filter(t, p)|
        ensures le(Filter(t, p)[k], s[|s| - 1])
      {
        var x := Filter(t, p)[k];
        assert x in Filter(t, p) && x in t;
        var i :| 0 <= i < |t| && t[i] == x;
        assert s[i] == x;
      }
    }
  }

  lemma {:induction false} FilterAll<T>(s: seq<T>, p: T -> bool)
    ensures (forall x | x in s :: p(x)) ==> Filter(s, p) == s
    ensures (forall x | x in s :: !p(x)) ==> Filter(s, p) == []
  {
    if s != [] {
      var init, last := s[..|s| - 1], s[|s| - 1];
      FilterAll(init, p);
      assert forall x | x in init :: x in s;
      assert last in s && init + [last] == s;
    }
  }

  lemma {:induction false} FilterTwice<T>(s: seq<T>, p: T -> bool, q: T -> bool, r: T -> bool)
    requires forall x | x in s :: r(x) == (p(x) && q(x))
    ensures Filter(Filter(s, p), q) == Filter(s, r)
  {
    if s != [] {
      var t, x := Filter(s[..|s| - 1], p), s[|s| - 1];
      FilterTwice(s[..|s| - 1], p, q, r);
      assert x in s;
      if p(x) {
        assert (t + [x])[..|t|] == t;
      }
    }
  }

  function Flatten<T>(s: seq<seq<T>>): seq<T> {
    if s == [] then [] else s[0] + Flatten(s[1..])
  }

  lemma {:induction false} FlattenConcat<T>(a: seq<seq<T>>, b: seq<seq<T>>)
    ensures Flatten(a + b) == Flatten(a) + Flatten(b)
  {
    if a == [] {
      assert a + b == b;
    } else {
      FlattenConcat(a[1..], b);
      assert (a + b)[1..] == a[1..] + b;
      assert a[0] + (Flatten(a[1..]) + Flatten(b)) == a[0] + Flatten(a[1..]) + Flatten(b);
    }
  }

  lemma FlattenSnoc<T>(a: seq<seq<T>>, x: seq<T>)
    ensures Flatten(a + [x]) == Flatten(a) + x
  {
    FlattenConcat(a, [x]);
    assert Flatten([x]) == x + Flatten([]) == x;
  }

  function Singletons<T>(s: seq<T>): (r: seq<seq<T>>)
    ensures |r| == |s| && forall i | 0 <= i < |s| :: r[i] == [s[i]]
  {
    seq(|s|, i requires 0 <= i < |s| => [s[i]])
  }

  lemma {:induction false} FlattenSingletons<T>(s: seq<T>)
    ensures Flatten(Singletons(s)) == s
  {
    if s != [] {
      FlattenSingletons(s[1..]);
      assert Singletons(s)[1..] == Singletons(s[1..]);
      assert s == [s[0]] + s[1..];
    }
  }

  ghost predicate NoDup<T>(s: seq<T>) {
    forall i, j | 0 <= i < j < |s| :: s[i] != s[j]
  }

  lemma {:induction false} NoDupCount<T>(s: seq<T>, x: T)
    requires NoDup(s)
    ensures multiset(s)[x] == if x in s then 1 else 0
  {
    if s != [] {
      NoDupCount(s[1..], x);
      assert s == [s[0]] + s[1..];
    }
  }

  /** Duplicate-free sequences with the same elements are permutations of each other. */
  lemma SameElements<T>(a: seq<T>, b: seq<T>)
    requires NoDup(a) && NoDup(b)
    requires forall x | x in a :: x in b
    requires forall x | x in b :: x in a
    ensures multiset(a) == multiset(b) && |a| == |b|
  {
    forall x | x in multiset(a) || x in multiset(b)
      ensures multiset(a)[x] == multiset(b)[x]
    {
      NoDupCount(a, x);
      NoDupCount(b, x);
    }
    assert multiset(a) == multiset(b);
    assert |multiset(a)| == |multiset(b)|;
  }

  lemma FilterNoDup<T>(s: seq<T>, p: T -> bool)
    requires NoDup(s)
    ensures NoDup(Filter(s, p))
  {
    if s != [] {
      FilterNoDup(s[..|s| - 1], p);
      FilterMembers(s[..|s| - 1], p);
      var t := Filter(s[..|s| - 1], p);
      assert forall i | 0 <= i < |t| :: t[i] in t && t[i] in s[..|s| - 1];
      assert s[|s| - 1] !in s[..|s| - 1];
    }
  }

  lemma {:induction false} FlattenMembers<T>(bins: seq<seq<T>>)
    ensures forall i | 0 <= i < |bins| :: forall x | x in bins[i] :: x in Flatten(bins)
    ensures forall x | x in Flatten(bins) :: exists i :: 0 <= i < |bins| && x in bins[i]
  {
    if bins != [] {
      FlattenMembers(bins[1..]);
      assert bins == [bins[0]] + bins[1..];
      forall x | x in Flatten(bins)
        ensures exists i :: 0 <= i < |bins| && x in bins[i]
      {
        if x !in bins[0] {
          assert x in Flatten(bins[1..]);
          var i :| 0 <= i < |bins[1..]| && x in bins[1..][i];
          assert x in bins[i + 1];
        }
      }
    }
  }

  /** No element occurs twice, neither within a bin nor in two bins. */
  ghost predicate Spread<T>(bins: seq<seq<T>>) {
    && (forall i | 0 <= i < |bins| :: NoDup(bins[i]))
    && forall i, j | 0 <= i < j < |bins| :: forall x | x in bins[i] :: x !in bins[j]
  }

  lemma {:induction false} FlattenNoDup<T>(bins: seq<seq<T>>)
    requires Spread(bins)
    ensures NoDup(Flatten(bins))
  {
    if bins != [] {
      FlattenNoDup(bins[1..]);
      FlattenMembers(bins[1..]);
      var a, b := bins[0], Flatten(bins[1..]);
      forall k | 0 <= k < |a|
        ensures a[k] !in b
      {
        assert a[k] in bins[0];
        assert forall i | 0 <= i < |bins[1..]| :: a[k] !in bins[1..][i];
      }
    }
  }

  lemma {:induction false} SpreadIfNoDup<T>(bins: seq<seq<T>>)
    requires NoDup(Flatten(bins))
    ensures Spread(bins)
  {
    if bins != [] {
      var a, b := bins[0], Flatten(bins[1..]);
      assert forall i | 0 <= i < |a| :: (a + b)[i] == a[i];
      assert forall i | 0 <= i < |b| :: (a + b)[|a| + i] == b[i];
      SpreadIfNoDup(bins[1..]);
      FlattenMembers(bins[1..]);
      forall i, j | 0 <= i < j < |bins|
        ensures forall x | x in bins[i] :: x !in bins[j]
      {
        assert bins[1..][j - 1] == bins[j];
        if i > 0 {
          assert bins[1..][i - 1] == bins[i];
        }
      }
    }
  }

  /** A common prefix does not matter. */
  lemma SamePrefix<T>(a: seq<T>, x: seq<T>, y: seq<T>)
    ensures a + x == a + y <==> x == y
  {
    if a + x == a + y {
      assert (a + x)[|a|..] == x && (a + y)[|a|..] == y;
    }
  }

  lemma ShorterPrefix<T>(r: seq<T>, s: seq<T>, n: nat, m: nat)
    requires m <= n <= |r| && n <= |s| && r[..n] == s[..n]
    ensures r[..m] == s[..m]
  {
    assert r[..m] == r[..n][..m] && s[..m] == s[..n][..m];
  }
}
