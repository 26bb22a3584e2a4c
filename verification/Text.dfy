// Shared vocabulary: optional values, Go's byte-wise string order, and the few
// functions of Go's `strings` package the modelled code is written in.
module Text {

  datatype Option<+T> = None | Some(value: T)

  function Get<K, V>(m: map<K, V>, k: K): Option<V> {
    if k in m then Some(m[k]) else None
  }

  // ---- byte-wise order on strings (Go's `<`) ----

  predicate Less(a: string, b: string) {
    if b == [] then false
    else if a == [] then true
    else a[0] < b[0] || (a[0] == b[0] && Less(a[1..], b[1..]))
  }

  lemma {:induction false} LessIsStrict(a: string)
    ensures !Less(a, a)
  {
    if a != [] {
      LessIsStrict(a[1..]);
    }
  }

  lemma {:induction false} LessIsTotal(a: string, b: string)
    ensures a == b || Less(a, b) || Less(b, a)
  {
    if a != [] && b != [] && a[0] == b[0] {
      LessIsTotal(a[1..], b[1..]);
      assert a == [a[0]] + a[1..] && b == [b[0]] + b[1..];
    }
  }

  lemma {:induction false} LessIsTransitive(a: string, b: string, c: string)
    requires Less(a, b) && Less(b, c)
    ensures Less(a, c)
  {
    if a != [] && a[0] == b[0] && b[0] == c[0] {
      LessIsTransitive(a[1..], b[1..], c[1..]);
    }
  }

  // ---- searching ----

  // `pat` occurs in `s` at position `i`.
  predicate At(s: string, pat: string, i: nat) {
    i + |pat| <= |s| && s[i..i + |pat|] == pat
  }

  // The first occurrence at or after `i`, as strings.Index on s[i..].
  function IndexFrom(s: string, pat: string, i: nat): (r: Option<nat>)
    ensures r.Some? ==> i <= r.value && At(s, pat, r.value) && forall j: nat | i <= j < r.value :: !At(s, pat, j)
    ensures r.None? ==> forall j: nat | i <= j :: !At(s, pat, j)
    decreases |s| - i
  {
    if At(s, pat, i) then Some(i)
    else if i >= |s| then None
    else IndexFrom(s, pat, i + 1)
  }

  function Index(s: string, pat: string): Option<nat> {
    IndexFrom(s, pat, 0)
  }

  // A position with no earlier occurrence is the one Index reports.
  lemma IndexIs(s: string, pat: string, i: nat)
    requires At(s, pat, i)
    requires forall j: nat | j < i :: !At(s, pat, j)
    ensures Index(s, pat) == Some(i)
  {
    var r := Index(s, pat);
    assert r.Some?;
    assert !(r.value < i) && !(i < r.value);
  }

  // ---- splitting and joining ----

  function Split(s: string, sep: string): (parts: seq<string>)
    requires sep != []
    ensures parts != []
    decreases |s|
  {
    match Index(s, sep)
    case None => [s]
    case Some(i) => [s[..i]] + Split(s[i + |sep|..], sep)
  }

  function Join(parts: seq<string>, sep: string): string {
    if parts == [] then ""
    else if |parts| == 1 then parts[0]
    else parts[0] + sep + Join(parts[1..], sep)
  }

  lemma {:induction false} JoinSplit(s: string, sep: string)
    requires sep != []
    ensures Join(Split(s, sep), sep) == s
    decreases |s|
  {
    match Index(s, sep)
    case None =>
    case Some(i) =>
      var rest := s[i + |sep|..];
      JoinSplit(rest, sep);
      var tail := Split(rest, sep);
      assert Split(s, sep)[1..] == tail;
      assert s == s[..i] + s[i..i + |sep|] + rest;
  }

  // No part of a split contains the separator.
  lemma {:induction false} SplitPartsAreFree(s: string, sep: string, k: nat, j: nat)
    requires sep != [] && k < |Split(s, sep)|
    ensures !At(Split(s, sep)[k], sep, j)
    decreases |s|
  {
    match Index(s, sep)
    case None =>
    case Some(i) =>
      if k == 0 {
        if At(s[..i], sep, j) {
          assert s[..i][j..j + |sep|] == s[j..j + |sep|];
          assert At(s, sep, j);
        }
      } else {
        SplitPartsAreFree(s[i + |sep|..], sep, k - 1, j);
      }
  }

  lemma {:induction false} JoinAppend(a: seq<string>, b: seq<string>, sep: string)
    requires a != [] && b != []
    ensures Join(a + b, sep) == Join(a, sep) + sep + Join(b, sep)
  {
    if |a| == 1 {
      assert (a + b)[1..] == b;
    } else {
      JoinAppend(a[1..], b, sep);
      assert (a + b)[1..] == a[1..] + b;
    }
  }

  lemma AtChar(s: string, c: char, j: nat)
    ensures At(s, [c], j) <==> j < |s| && s[j] == c
  {
    if j < |s| {
      assert s[j..j + 1] == [s[j]];
    }
  }

  // Splitting a join of separator-free parts gives the parts back, for a
  // one-character separator (the newline of line-oriented code).
  lemma {:induction false} SplitJoin(parts: seq<string>, c: char)
    requires parts != []
    requires forall p | p in parts :: c !in p
    ensures Split(Join(parts, [c]), [c]) == parts
  {
    var s := Join(parts, [c]);
    var p := parts[0];
    assert p in parts;
    if |parts| == 1 {
      forall j: nat ensures !At(s, [c], j) { AtChar(s, c, j); }
    } else {
      SplitJoin(parts[1..], c);
      assert s[|p|..|p| + 1] == [c];
      forall j: nat | j < |p| ensures !At(s, [c], j) { AtChar(s, c, j); assert s[j] == p[j]; }
      IndexIs(s, [c], |p|);
      assert s[..|p|] == p && s[|p| + 1..] == Join(parts[1..], [c]);
    }
  }

  // ---- surrounding space (strings.TrimSpace) ----

  // The characters of Unicode's White_Space property.
  predicate IsSpace(c: char) {
    || '\t' <= c <= '\r' || c == ' ' || c == '\U{85}' || c == '\U{A0}' || c == '\U{1680}' || '\U{2000}' <= c <= '\U{200A}'
    || c == '\U{2028}' || c == '\U{2029}' || c == '\U{202F}' || c == '\U{205F}' || c == '\U{3000}'
  }

  function TrimLeft(s: string): string {
    if s != [] && IsSpace(s[0]) then TrimLeft(s[1..]) else s
  }

  function TrimRight(s: string): string {
    if s != [] && IsSpace(s[|s| - 1]) then TrimRight(s[..|s| - 1]) else s
  }

  function Trim(s: string): string { TrimRight(TrimLeft(s)) }

  // ---- paths ----

  // filepath.Base: what follows the last slash.
  function FileName(p: string): string {
    if '/' in p then AfterSlash(p) else p
  }

  function AfterSlash(p: string): string {
    if p == [] || p[|p| - 1] == '/' then [] else AfterSlash(p[..|p| - 1]) + [p[|p| - 1]]
  }

  // The basename of a path, without directory and .md.
  function Base(p: string): string {
    var last := FileName(p);
    if |last| >= 3 && last[|last| - 3..] == ".md" then last[..|last| - 3] else last
  }
}
