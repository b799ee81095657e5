/**
 The string operations configuration is read with: splitting at commas, joining, trimming.
 */
module Text {

  /** White space as Unicode defines it. */
  predicate IsSpace(c: char) {
    || '\t' <= c <= '\r' || c == ' ' || c == '\U{85}' || c == '\U{A0}' || c == '\U{1680}'
    || '\U{2000}' <= c <= '\U{200A}' || c in {'\U{2028}', '\U{2029}', '\U{202F}', '\U{205F}', '\U{3000}'}
  }

  /** The string without leading and trailing characters that `cut` holds of. */
  function Trim(s: string, cut: char -> bool): (r: string)
    ensures r == [] || (!cut(r[0]) && !cut(r[|r| - 1]))
    decreases |s|
  {
    if s == [] then []
    else if cut(s[0]) then Trim(s[1..], cut)
    else if cut(s[|s| - 1]) then Trim(s[..|s| - 1], cut)
    else s
  }

  /** Between `a` and `b`, which are cut throughout, is what trimming leaves. */
  ghost predicate TrimsTo(s: string, cut: char -> bool, a: string, b: string) {
    && s == a + Trim(s, cut) + b
    && (forall i :: 0 <= i < |a| ==> cut(a[i])) && (forall i :: 0 <= i < |b| ==> cut(b[i]))
  }

  lemma TrimsFront(s: string, cut: char -> bool, a: string, b: string)
    requires s != [] && cut(s[0]) && TrimsTo(s[1..], cut, a, b)
    ensures TrimsTo(s, cut, [s[0]] + a, b)
  {
    assert s == [s[0]] + s[1..];
  }

  lemma TrimsBack(s: string, cut: char -> bool, a: string, b: string)
    requires s != [] && !cut(s[0]) && cut(s[|s| - 1]) && TrimsTo(s[..|s| - 1], cut, a, b)
    ensures TrimsTo(s, cut, a, b + [s[|s| - 1]])
  {
    assert s == s[..|s| - 1] + [s[|s| - 1]];
  }

  lemma TrimsNothing(s: string, cut: char -> bool)
    requires s != [] ==> !cut(s[0]) && !cut(s[|s| - 1])
    ensures TrimsTo(s, cut, [], [])
  {
    assert s == [] + s + [];
  }

  /** Trimming takes off only what it cuts. */
  lemma {:induction false} TrimExactly(s: string, cut: char -> bool) returns (a: string, b: string)
    ensures TrimsTo(s, cut, a, b)
    decreases |s|
  {
    if s != [] && cut(s[0]) {
      var x;
      x, b := TrimExactly(s[1..], cut);
      TrimsFront(s, cut, x, b);
      a := [s[0]] + x;
    } else if s != [] && cut(s[|s| - 1]) {
      var y;
      a, y := TrimExactly(s[..|s| - 1], cut);
      TrimsBack(s, cut, a, y);
      b := y + [s[|s| - 1]];
    } else {
      TrimsNothing(s, cut);
      a, b := [], [];
    }
  }

  function TrimSpace(s: string): string { Trim(s, IsSpace) }

  /** The parts between separators; one more than there are separators. */
  function Split(s: string, sep: char): (parts: seq<string>)
    ensures parts != []
  {
    if s == [] then [[]] else
    var parts, c := Split(s[..|s| - 1], sep), s[|s| - 1];
    if c == sep then parts + [[]] else Extended(parts, c)
  }

  /** One more character in the last part. */
  function Extended(parts: seq<string>, c: char): (r: seq<string>)
    requires parts != []
    ensures |r| == |parts|
  {
    parts[..|parts| - 1] + [parts[|parts| - 1] + [c]]
  }

  function Join(parts: seq<string>, sep: char): string {
    if parts == [] then []
    else if |parts| == 1 then parts[0]
    else Join(parts[..|parts| - 1], sep) + [sep] + parts[|parts| - 1]
  }

  ghost predicate Free(parts: seq<string>, sep: char) { forall i :: 0 <= i < |parts| ==> sep !in parts[i] }

  lemma JoinSnoc(parts: seq<string>, p: string, sep: char)
    requires parts != []
    ensures Join(parts + [p], sep) == Join(parts, sep) + [sep] + p
  {
    assert (parts + [p])[..|parts|] == parts;
  }

  lemma JoinExtended(parts: seq<string>, c: char, sep: char)
    requires parts != []
    ensures Join(Extended(parts, c), sep) == Join(parts, sep) + [c]
  {
    var rest, last := parts[..|parts| - 1], parts[|parts| - 1];
    if rest != [] {
      JoinSnoc(rest, last, sep);
      JoinSnoc(rest, last + [c], sep);
      assert rest + [last] == parts;
    }
  }

  /** Splitting loses nothing. */
  lemma {:induction false} JoinSplit(s: string, sep: char)
    ensures Join(Split(s, sep), sep) == s && Free(Split(s, sep), sep)
  {
    if s != [] {
      var parts, c := Split(s[..|s| - 1], sep), s[|s| - 1];
      JoinSplit(s[..|s| - 1], sep);
      assert s == s[..|s| - 1] + [c];
      if c == sep {
        JoinSnoc(parts, [], sep);
      } else {
        JoinExtended(parts, c, sep);
        FreeExtended(parts, c, sep);
      }
    }
  }

  lemma FreeExtended(parts: seq<string>, c: char, sep: char)
    requires parts != [] && c != sep && Free(parts, sep)
    ensures Free(Extended(parts, c), sep)
  {
  }

  lemma SplitSnoc(s: string, c: char, sep: char)
    ensures Split(s + [c], sep) == if c == sep then Split(s, sep) + [[]] else Extended(Split(s, sep), c)
  {
    assert (s + [c])[..|s|] == s;
  }

  lemma ExtendedLast(parts: seq<string>, q: string, c: char)
    ensures Extended(parts + [q], c) == parts + [q + [c]]
  {
    assert (parts + [q])[..|parts|] == parts;
  }

  lemma {:induction false} SplitGrow(t: string, parts: seq<string>, q: string, p: string, sep: char)
    requires sep !in p && Split(t, sep) == parts + [q]
    ensures Split(t + p, sep) == parts + [q + p]
  {
    if p == [] {
      assert t + p == t && q + p == q;
    } else {
      var rest, c := p[..|p| - 1], p[|p| - 1];
      SplitGrow(t, parts, q, rest, sep);
      SplitOne(t + rest, parts, q + rest, c, sep);
      assert t + rest + [c] == t + p && q + rest + [c] == q + p;
    }
  }

  lemma SplitOne(t: string, parts: seq<string>, q: string, c: char, sep: char)
    requires c != sep && Split(t, sep) == parts + [q]
    ensures Split(t + [c], sep) == parts + [q + [c]]
  {
    SplitSnoc(t, c, sep);
    ExtendedLast(parts, q, c);
  }

  lemma SplitAppend(s: string, p: string, sep: char)
    requires sep !in p
    ensures Split(s + [sep] + p, sep) == Split(s, sep) + [p]
  {
    SplitSnoc(s, sep, sep);
    SplitGrow(s + [sep], Split(s, sep), [], p, sep);
    assert [] + p == p;
  }

  lemma SplitFree(p: string, sep: char)
    requires sep !in p
    ensures Split(p, sep) == [p]
  {
    SplitGrow([], [], [], p, sep);
    assert [] + p == p;
  }

  /** Splitting a join gives the parts back, so joining separator-free parts is injective. */
  lemma {:induction false} SplitJoin(parts: seq<string>, sep: char)
    requires parts != [] && Free(parts, sep)
    ensures Split(Join(parts, sep), sep) == parts
  {
    if |parts| == 1 {
      SplitFree(parts[0], sep);
    } else {
      var init, last := parts[..|parts| - 1], parts[|parts| - 1];
      SplitJoin(init, sep);
      SplitAppend(Join(init, sep), last, sep);
      assert init + [last] == parts;
    }
  }
}
