/** String splitting and joining, as `str::split`, `str::split_once` and `[T]::join` do it. */
module Text {
  import opened Outcomes

  /** Index of the first `sep` in `s`, or `|s|`. */
  function Find(s: string, sep: char): (i: nat)
    ensures i <= |s|
    ensures sep !in s[..i]
    ensures i < |s| ==> s[i] == sep
    ensures i == |s| <==> sep !in s
  {
    if s == "" || s[0] == sep then 0 else 1 + Find(s[1..], sep)
  }

  lemma FindUnique(s: string, sep: char, i: nat)
    requires i <= |s| && sep !in s[..i]
    requires i < |s| ==> s[i] == sep
    ensures Find(s, sep) == i
  {
    var j := Find(s, sep);
    assert forall k | 0 <= k < i :: s[k] == s[..i][k];
    assert forall k | 0 <= k < j :: s[k] == s[..j][k];
  }

  function SplitOnce(s: string, sep: char): Option<(string, string)> {
    var i := Find(s, sep);
    if i == |s| then None else Some((s[..i], s[i + 1..]))
  }

  lemma SplitOnceOfJoined(a: string, sep: char, b: string)
    requires sep !in a
    ensures SplitOnce(a + [sep] + b, sep) == Some((a, b))
  {
    var s := a + [sep] + b;
    assert s[..|a|] == a && s[|a| + 1..] == b;
    FindUnique(s, sep, |a|);
  }

  /** All the pieces between separators; never empty, and `[""]` for the empty string. */
  function Split(s: string, sep: char): (ps: seq<string>)
    ensures |ps| >= 1
    ensures forall p | p in ps :: sep !in p
    decreases |s|
  {
    var i := Find(s, sep);
    if i == |s| then [s] else [s[..i]] + Split(s[i + 1..], sep)
  }

  function Join(ps: seq<string>, sep: char): string {
    if ps == [] then ""
    else if |ps| == 1 then ps[0]
    else ps[0] + [sep] + Join(ps[1..], sep)
  }

  /** Splitting undoes joining for pieces free of the separator. */
  lemma {:induction false} SplitJoin(ps: seq<string>, sep: char)
    requires ps != []
    requires forall p | p in ps :: sep !in p
    ensures Split(Join(ps, sep), sep) == ps
  {
    if |ps| == 1 {
      assert ps[0] in ps;
    } else {
      SplitJoin(ps[1..], sep);
      var s := Join(ps, sep);
      var i := |ps[0]|;
      assert s[..i] == ps[0] && s[i + 1..] == Join(ps[1..], sep);
      FindUnique(s, sep, i);
    }
  }

  function StripPrefix(s: string, p: string): Option<string> {
    if p <= s then Some(s[|p|..]) else None
  }

  lemma Append(a: string, b: string, c: string)
    ensures a + (b + c) == a + b + c
  {
  }
}
