/** Escaping of arbitrary strings into ostree ref names (lib/src/refescape.rs). */
module RefEscape {
  import opened Outcomes
  import opened Text

  predicate IsAlnum(c: char) {
    '0' <= c <= '9' || 'A' <= c <= 'Z' || 'a' <= c <= 'z'
  }

  function HexDigit(d: nat): char
    requires d < 16
  {
    "0123456789ABCDEF"[d]
  }

  function HexUpper(n: nat): string {
    if n < 16 then [HexDigit(n)] else HexUpper(n / 16) + [HexDigit(n % 16)]
  }

  /** The `{:02X}` format. */
  function Hex02(n: nat): string {
    if n < 16 then "0" + HexUpper(n) else HexUpper(n)
  }

  function EscapeChar(c: char, previousAlnum: bool, hasNext: bool): string {
    if IsAlnum(c) then [c]
    else if c == '/' && previousAlnum && hasNext then [c]
    else if c == '-' then [c]
    else if c == '_' then "__"
    else "_" + Hex02(c as int) + "_"
  }

  /** The escaped form of the characters still to come. */
  function Escape(s: string, previousAlnum: bool := false): string {
    if s == "" then ""
    else EscapeChar(s[0], previousAlnum, |s| > 1) + Escape(s[1..], IsAlnum(s[0]))
  }

  lemma EscapeStep(s: string, i: nat, previousAlnum: bool, out: string)
    requires i < |s|
    ensures out + Escape(s[i..], previousAlnum)
         == out + EscapeChar(s[i], previousAlnum, i + 1 < |s|) + Escape(s[i + 1..], IsAlnum(s[i]))
  {
    var rest := s[i..];
    assert rest[0] == s[i] && rest[1..] == s[i + 1..];
    Append(out, EscapeChar(s[i], previousAlnum, i + 1 < |s|), Escape(s[i + 1..], IsAlnum(s[i])));
  }

  predicate Escapable(s: string) {
    s != "" && '\0' !in s
  }

  method EscapeForRef(s: string) returns (r: Result<string>)
    ensures r == if Escapable(s) then Ok(Escape(s)) else Err
  {
    if s == "" { return Err; }
    var out := "";
    var previousAlnum := false;
    assert s[0..] == s;
    for i := 0 to |s|
      invariant '\0' !in s[..i]
      invariant previousAlnum == (i > 0 && IsAlnum(s[i - 1]))
      invariant out + Escape(s[i..], previousAlnum) == Escape(s)
    {
      var c := s[i];
      if c == '\0' { return Err; }
      EscapeStep(s, i, previousAlnum, out);
      out := out + EscapeChar(c, previousAlnum, i + 1 < |s|);
      previousAlnum := IsAlnum(c);
    }
    assert s[|s|..] == "" && s[..|s|] == s && out + "" == out;
    return Ok(out);
  }

  /** Value of one hexadecimal digit of either case, or 16. */
  function DigitValue(c: char): nat {
    if '0' <= c <= '9' then c as int - '0' as int
    else if 'A' <= c <= 'F' then c as int - 'A' as int + 10
    else if 'a' <= c <= 'f' then c as int - 'a' as int + 10
    else 16
  }

  function HexValue(s: string): Option<nat> {
    if s == "" then Some(0)
    else
      var high := HexValue(s[..|s| - 1]);
      var d := DigitValue(s[|s| - 1]);
      if high.None? || d == 16 then None else Some(16 * high.value + d)
  }

  /** `u32::from_str_radix(s, 16)`: a leading `+` is allowed, an empty digit string is not. */
  function ParseHex(s: string): Result<nat> {
    var digits := if |s| > 1 && s[0] == '+' then s[1..] else s;
    var v := HexValue(digits);
    if digits == "" || v.None? || v.value > 0xFFFF_FFFF then Err else Ok(v.value)
  }

  predicate IsScalarValue(n: nat) {
    n < 0xD800 || 0xE000 <= n < 0x11_0000
  }

  function ParseCodePoint(buf: string): Result<char> {
    var v :- ParseHex(buf);
    if IsScalarValue(v) then Ok(v as char) else Err
  }

  function Prepend(c: char, r: Result<string>): Result<string> {
    if r.Ok? then Ok([c] + r.value) else Err
  }

  /** A result whose first characters have already been written to `out`. */
  ghost function After(out: string, r: Result<string>): Result<string> {
    if r.Ok? then Ok(out + r.value) else Err
  }

  lemma AfterNothing(r: Result<string>)
    ensures After("", r) == r
  {
    if r.Ok? {
      assert "" + r.value == r.value;
    }
  }

  lemma AfterPrepend(out: string, c: char, r: Result<string>)
    ensures After(out, Prepend(c, r)) == After(out + [c], r)
  {
    if r.Ok? {
      assert out + ([c] + r.value) == (out + [c]) + r.value;
    }
  }

  /** What `unescape_for_ref` returns; an escape left open at the end of the input is closed there. */
  function Unescape(s: string): Result<string>
    decreases |s|
  {
    if s == "" then Ok("")
    else if IsAlnum(s[0]) || s[0] == '-' || s[0] == '/' then Prepend(s[0], Unescape(s[1..]))
    else if s[0] != '_' then Err
    else if |s| == 1 then Ok("")
    else if s[1] == '_' then Prepend('_', Unescape(s[2..]))
    else
      var k := Find(s[1..], '_');
      var c :- ParseCodePoint(s[1..][..k]);
      Prepend(c, Unescape(if k < |s| - 1 then s[k + 2..] else ""))
  }

  lemma UnescapePlain(c: char, t: string)
    requires IsAlnum(c) || c == '-' || c == '/'
    ensures Unescape([c] + t) == Prepend(c, Unescape(t))
  {
    assert ([c] + t)[1..] == t;
  }

  lemma UnescapeQuote(t: string)
    ensures Unescape("__" + t) == Prepend('_', Unescape(t))
  {
    assert ("__" + t)[2..] == t;
  }

  /** `t` is what follows the closing underscore, or empty if there is none. */
  lemma UnescapeHex(buf: string, closing: string, t: string)
    requires buf != "" && '_' !in buf
    requires closing == "_" || closing == "" == t
    ensures Unescape("_" + buf + closing + t)
         == if ParseCodePoint(buf).Ok? then Prepend(ParseCodePoint(buf).value, Unescape(t)) else Err
  {
    var s := "_" + buf + closing + t;
    assert s[1..] == buf + closing + t && s[1] == buf[0];
    assert s[1..][..|buf|] == buf;
    FindUnique(s[1..], '_', |buf|);
    assert t == if |buf| < |s| - 1 then s[|buf| + 2..] else "";
  }

  method UnescapeForRef(s: string) returns (r: Result<string>)
    ensures r == Unescape(s)
  {
    var out := "";
    var i := 0;
    assert s[0..] == s;
    AfterNothing(Unescape(s));
    while i < |s|
      invariant i <= |s|
      invariant Unescape(s) == After(out, Unescape(s[i..]))
    {
      var c, j := UnescapeNext(s, i);
      if c.Err? { return Err; }
      if c.value.Some? {
        AfterPrepend(out, c.value.value, Unescape(s[j..]));
        out := out + [c.value.value];
      } else {
        assert s[j..] == "";
      }
      i := j;
    }
    assert s[i..] == "" && out + "" == out;
    return Ok(out);
  }

  /** One turn of the reading loop: the character read from position `i`, and the next position.
      A lone `_` at the very end reads nothing. */
  method UnescapeNext(s: string, i: nat) returns (r: Result<Option<char>>, j: nat)
    requires i < |s|
    ensures i < j <= |s|
    ensures r.Err? ==> Unescape(s[i..]).Err?
    ensures r == Ok(None) ==> j == |s| && Unescape(s[i..]) == Ok("")
    ensures r.Ok? && r.value.Some? ==> Unescape(s[i..]) == Prepend(r.value.value, Unescape(s[j..]))
  {
    var c := s[i];
    j := i + 1;
    if IsAlnum(c) || c == '-' || c == '/' {
      UnescapePlainAt(s, i);
      return Ok(Some(c)), j;
    }
    if c != '_' { return Err, j; }
    if j == |s| { return Ok(None), j; }
    if s[j] == '_' {
      UnescapeQuoteAt(s, i);
      j := j + 1;
      return Ok(Some('_')), j;
    }
    var v;
    v, j := ReadCodePoint(s, i);
    r := if v.Ok? then Ok(Some(v.value)) else Err;
  }

  /** The character escaped by its number from position `i` on, and the next position. */
  method ReadCodePoint(s: string, i: nat) returns (v: Result<char>, j: nat)
    requires i + 1 < |s| && s[i] == '_' && s[i + 1] != '_'
    ensures i < j <= |s|
    ensures Unescape(s[i..]) == if v.Ok? then Prepend(v.value, Unescape(s[j..])) else Err
  {
    var buf;
    buf, j := ReadEscape(s, i + 2);
    ghost var k := j;
    if j < |s| { j := j + 1; }
    v := ParseCodePoint(buf);
    UnescapeAt(s, i, k, buf, j);
  }

  lemma UnescapePlainAt(s: string, i: nat)
    requires i < |s| && (IsAlnum(s[i]) || s[i] == '-' || s[i] == '/')
    ensures Unescape(s[i..]) == Prepend(s[i], Unescape(s[i + 1..]))
  {
    assert s[i..] == [s[i]] + s[i + 1..];
    UnescapePlain(s[i], s[i + 1..]);
  }

  lemma UnescapeQuoteAt(s: string, i: nat)
    requires i + 1 < |s| && s[i] == s[i + 1] == '_'
    ensures Unescape(s[i..]) == Prepend('_', Unescape(s[i + 2..]))
  {
    assert s[i..] == "__" + s[i + 2..];
    UnescapeQuote(s[i + 2..]);
  }

  /** An escape from position `i` on, closed at `k` or by the end. */
  lemma UnescapeAt(s: string, i: nat, k: nat, buf: string, j: nat)
    requires i + 1 < k <= |s| && s[i] == '_' && '_' !in buf && (k < |s| ==> s[k] == '_')
    requires buf == s[i + 1..k] && j == if k < |s| then k + 1 else k
    ensures var v := ParseCodePoint(buf);
      Unescape(s[i..]) == if v.Ok? then Prepend(v.value, Unescape(s[j..])) else Err
  {
    if k < |s| {
      assert s[i..] == "_" + buf + "_" + s[k + 1..];
      UnescapeHex(buf, "_", s[k + 1..]);
    } else {
      assert s[i..] == "_" + buf + "" + s[k..];
      UnescapeHex(buf, "", s[k..]);
    }
  }

  /** Reads up to the closing underscore (or the end), the first character being already taken. */
  method ReadEscape(s: string, from: nat) returns (buf: string, i: nat)
    requires 0 < from <= |s| && s[from - 1] != '_'
    ensures from <= i <= |s| && buf == s[from - 1..i] && '_' !in buf
    ensures i < |s| ==> s[i] == '_'
  {
    i := from;
    buf := [s[from - 1]];
    while i < |s| && s[i] != '_'
      invariant from <= i <= |s|
      invariant buf == s[from - 1..i] && '_' !in buf
    {
      buf := buf + [s[i]];
      i := i + 1;
    }
  }

  // ---- round trip ----

  lemma DigitRoundTrip(d: nat)
    requires d < 16
    ensures DigitValue(HexDigit(d)) == d && IsAlnum(HexDigit(d))
  {
  }

  lemma {:induction false} HexRoundTrip(n: nat)
    ensures HexValue(HexUpper(n)) == Some(n)
    ensures HexUpper(n) != "" && forall c | c in HexUpper(n) :: IsAlnum(c)
  {
    DigitRoundTrip(n % 16);
    if n < 16 {
      assert HexUpper(n)[..0] == "";
    } else {
      HexRoundTrip(n / 16);
      assert HexUpper(n)[..|HexUpper(n)| - 1] == HexUpper(n / 16);
    }
  }

  lemma CodePointRoundTrip(c: char)
    ensures ParseCodePoint(Hex02(c as int)) == Ok(c)
    ensures forall d | d in Hex02(c as int) :: IsAlnum(d)
    ensures |Hex02(c as int)| > 0
  {
    var n := c as int;
    HexRoundTrip(n);
    var h := Hex02(n);
    if n < 16 {
      assert h[..1] == "0" && HexValue("0") == Some(0);
    }
    assert h[0] in h && IsAlnum(h[0]);
    assert HexValue(h) == Some(n);
  }

  lemma {:induction false} UnescapeEscape(s: string, previousAlnum: bool)
    requires '\0' !in s
    ensures Unescape(Escape(s, previousAlnum)) == Ok(s)
  {
    if s != "" {
      UnescapeEscape(s[1..], IsAlnum(s[0]));
      UnescapeFirst(s[0], previousAlnum, |s| > 1, Escape(s[1..], IsAlnum(s[0])));
      assert [s[0]] + s[1..] == s;
    }
  }

  lemma UnescapeFirst(c: char, previousAlnum: bool, hasNext: bool, rest: string)
    ensures Unescape(EscapeChar(c, previousAlnum, hasNext) + rest) == Prepend(c, Unescape(rest))
  {
    if IsAlnum(c) || c == '-' || (c == '/' && previousAlnum && hasNext) {
      UnescapePlain(c, rest);
    } else if c == '_' {
      UnescapeQuote(rest);
    } else {
      CodePointRoundTrip(c);
      assert !IsAlnum('_');
      UnescapeHex(Hex02(c as int), "_", rest);
    }
  }

  /** The scheme loses nothing, on every string it accepts. */
  lemma RoundTrip(s: string)
    requires Escapable(s)
    ensures Unescape(Escape(s)) == Ok(s)
  {
    UnescapeEscape(s, false);
  }

  lemma EscapeInjective(s: string, t: string)
    requires Escapable(s) && Escapable(t)
    ensures Escape(s) == Escape(t) <==> s == t
  {
    RoundTrip(s);
    RoundTrip(t);
  }

  // ---- validity of the produced name ----

  predicate RefChar(c: char) {
    IsAlnum(c) || c == '-' || c == '_' || c == '/'
  }

  /** Only ref characters, and no empty path component. */
  predicate ValidRefName(r: string) {
    && r != "" && r[0] != '/' && r[|r| - 1] != '/'
    && (forall c | c in r :: RefChar(c))
    && forall i | 0 <= i < |r| - 1 :: !(r[i] == '/' && r[i + 1] == '/')
  }

  lemma EscapeCharShape(c: char, previousAlnum: bool, hasNext: bool)
    ensures var p := EscapeChar(c, previousAlnum, hasNext);
      && p != ""
      && (forall d | d in p :: RefChar(d))
      && (p == "/" || forall d | d in p :: d != '/')
      && (p == "/" ==> c == '/' && previousAlnum && hasNext)
  {
    CodePointRoundTrip(c);
    if !IsAlnum(c) && c != '-' && c != '_' && !(c == '/' && previousAlnum && hasNext) {
      forall d | d in EscapeChar(c, previousAlnum, hasNext)
        ensures d == '_' || IsAlnum(d)
      {
        assert d == '_' || d in Hex02(c as int);
      }
    }
  }

  lemma {:induction false} EscapeShape(s: string, previousAlnum: bool)
    requires s != ""
    ensures var r := Escape(s, previousAlnum);
      && r != "" && (r[0] == '/' ==> previousAlnum) && r[|r| - 1] != '/'
      && (forall c | c in r :: RefChar(c))
      && forall i | 0 <= i < |r| - 1 :: !(r[i] == '/' && r[i + 1] == '/')
  {
    var p := EscapeChar(s[0], previousAlnum, |s| > 1);
    EscapeCharShape(s[0], previousAlnum, |s| > 1);
    assert p[0] in p && p[|p| - 1] in p;
    if |s| > 1 {
      EscapeShape(s[1..], IsAlnum(s[0]));
      var rest := Escape(s[1..], IsAlnum(s[0]));
      var r := p + rest;
      forall i | 0 <= i < |r| - 1
        ensures !(r[i] == '/' && r[i + 1] == '/')
      {
        if i < |p| - 1 {
          assert r[i] in p && r[i + 1] in p;
        } else if i == |p| - 1 {
          assert r[i] == p[i] && r[i + 1] == rest[0];
        } else {
          assert r[i] == rest[i - |p|] && r[i + 1] == rest[i - |p| + 1];
        }
      }
    } else {
      assert Escape(s, previousAlnum) == p + "" == p;
      assert forall i | 0 <= i < |p| :: p[i] in p;
    }
  }

  lemma EscapeIsValidRef(s: string)
    requires Escapable(s)
    ensures ValidRefName(Escape(s))
  {
    EscapeShape(s, false);
  }

  /** The character needs no escape where it stands. */
  predicate PlainAt(s: string, i: nat, previousAlnum: bool)
    requires i < |s|
  {
    IsAlnum(s[i]) || s[i] == '-'
    || (s[i] == '/' && i + 1 < |s| && if i == 0 then previousAlnum else IsAlnum(s[i - 1]))
  }

  ghost predicate Plain(s: string, previousAlnum: bool) {
    forall i | 0 <= i < |s| :: PlainAt(s, i, previousAlnum)
  }

  lemma {:induction false} PlainStays(s: string, previousAlnum: bool)
    ensures |Escape(s, previousAlnum)| >= |s|
    ensures |Escape(s, previousAlnum)| == |s| <==> Plain(s, previousAlnum)
    ensures Plain(s, previousAlnum) ==> Escape(s, previousAlnum) == s
  {
    if s != "" {
      PlainStays(s[1..], IsAlnum(s[0]));
      PlainHead(s, previousAlnum);
      assert s == [s[0]] + s[1..];
    }
  }

  lemma PlainHead(s: string, previousAlnum: bool)
    requires s != ""
    ensures var p := EscapeChar(s[0], previousAlnum, |s| > 1);
      |p| >= 1 && (|p| == 1 ==> p == [s[0]])
      && (Plain(s, previousAlnum) <==> |p| == 1 && Plain(s[1..], IsAlnum(s[0])))
  {
    var p, t := EscapeChar(s[0], previousAlnum, |s| > 1), s[1..];
    assert |p| == 1 <==> PlainAt(s, 0, previousAlnum) by {
      assert |"_" + Hex02(s[0] as int) + "_"| >= 2;
    }
    forall i | 0 <= i < |t|
      ensures PlainAt(t, i, IsAlnum(s[0])) <==> PlainAt(s, i + 1, previousAlnum)
    {
    }
    if |p| == 1 && Plain(t, IsAlnum(s[0])) {
      forall i | 0 <= i < |s|
        ensures PlainAt(s, i, previousAlnum)
      {
        assert i > 0 ==> PlainAt(t, i - 1, IsAlnum(s[0]));
      }
    }
    if Plain(s, previousAlnum) {
      assert PlainAt(s, 0, previousAlnum);
    }
  }

  /** A string stands for itself exactly if it has only alphanumerics, `-`, and slashes between an
      alphanumeric and something else. */
  lemma StandsForItself(s: string)
    ensures Escape(s) == s <==> Plain(s, false)
  {
    PlainStays(s, false);
  }

  // ---- prefixed forms ----

  function PrefixEscape(prefix: string, s: string): Result<string> {
    if Escapable(s) then Ok(prefix + "/" + Escape(s)) else Err
  }

  function UnprefixUnescape(prefix: string, r: string): Result<string> {
    if prefix + "/" <= r then Unescape(r[|prefix| + 1..]) else Err
  }

  lemma PrefixedRoundTrip(prefix: string, s: string)
    requires Escapable(s)
    ensures UnprefixUnescape(prefix, PrefixEscape(prefix, s).value) == Ok(s)
  {
    RoundTrip(s);
    var r := PrefixEscape(prefix, s).value;
    assert r[|prefix| + 1..] == Escape(s);
  }

  /** Unescaping alone is not injective: hexadecimal digits of either case are read, so two
      different refs can name one string.  Only one of the two is an output of `Escape`. */
  lemma UnescapeHasAliases()
    ensures Unescape("a_3" + "A" + "_b") == Ok("a:b") == Unescape("a_3" + "a" + "_b")
    ensures Escape("a:b") == "a_3" + "A" + "_b"
  {
    UnescapeAlias('A');
    UnescapeAlias('a');
    EscapeOfAlias();
  }

  lemma EscapeOfAlias()
    ensures Escape("a:b") == "a_3" + "A" + "_b"
  {
    assert Hex02(0x3A) == HexUpper(3) + "A" == "3A";
    var s := "a:b";
    EscapeStep(s, 0, false, "");
    EscapeStep(s, 1, true, "a");
    EscapeStep(s, 2, false, "a_3A_");
    assert s[0..] == s && s[3..] == "";
  }

  lemma UnescapeAlias(d: char)
    requires d == 'A' || d == 'a'
    ensures Unescape("a_3" + [d] + "_b") == Ok("a:b")
  {
    var buf, b := "3" + [d], "b" + "";
    assert HexValue("3") == Some(3) by { assert "3"[..0] == ""; }
    assert buf[..1] == "3" && ParseCodePoint(buf) == Ok(':');
    UnescapePlain('b', "");
    UnescapeHex(buf, "_", b);
    assert Unescape("_" + buf + "_" + b) == Ok(":" + b);
    UnescapePlain('a', "_" + buf + "_" + b);
    assert "a" + (":" + b) == "a:b";
    assert "a_3" + [d] + "_b" == "a" + ("_" + buf + "_" + b);
  }
}
